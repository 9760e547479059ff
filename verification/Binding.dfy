/** The verbs of src/af-canivi-binding.c and the event-loop callbacks, over the dictionaries, the event
    registry and the socket. */
module Binding {
  import opened Words
  import opened Codec
  import opened Values
  import opened Timing
  import opened Grouping
  import opened Thinning
  import opened CanInfo
  import opened CanidSearch
  import opened BindEvent
  import opened Subscriptions
  import opened Dispatch
  import Transmit

  /** The values a subscriber gets: of the names asked for that are registered and that the daemon subscribed. */
  ghost function Replies(names: set<string>, events: set<string>, shown: map<string, Json>, d: Daemon): map<string, Json> {
    map n | n in names && n in events && n in shown && d.subscribes(n) :: shown[n]
  }

  lemma NoReply(events: set<string>, shown: map<string, Json>, name: string, d: Daemon)
    requires name !in events || !d.subscribes(name)
    ensures forall apply: map<string, Json> :: apply + Replies({name}, events, shown, d) == apply
  {
    assert Replies({name}, events, shown, d) == map[];
  }

  lemma OneReply(events: set<string>, shown: map<string, Json>, name: string, d: Daemon)
    requires name in events && d.subscribes(name) && name in shown
    ensures Replies({name}, events, shown, d) == map[name := shown[name]]
  {
  }

  /** When all went well the reply has a value for every name asked for. */
  lemma RepliesToAll(names: set<string>, events: set<string>, shown: map<string, Json>, d: Daemon)
    requires forall n :: n in names ==> n in events && d.subscribes(n)
    requires events <= shown.Keys
    ensures Replies(names, events, shown, d).Keys == names
  {
  }

  lemma RepliesNone(events: set<string>, shown: map<string, Json>, d: Daemon)
    ensures forall apply: map<string, Json> :: apply + Replies({}, events, shown, d) == apply
  {
    assert Replies({}, events, shown, d) == map[];
  }

  /** Asking for one more name adds its reply. */
  lemma RepliesInTurn(before: map<string, CanBit>, index: map<string, CanBit>, names: set<string>, n: string,
                      shown: map<string, Json>, d: Daemon)
    ensures var mid, after := Register(before, index, names, d), Register(before, index, names + {n}, d);
            forall apply: map<string, Json> ::
              (apply + Replies(names, mid.Keys, shown, d)) + Replies({n}, after.Keys, shown, d) ==
              apply + Replies(names + {n}, after.Keys, shown, d)
  {
    var mid, after := Register(before, index, names, d), Register(before, index, names + {n}, d);
    assert forall m :: m in names ==> (m in mid <==> m in after);
    var a, b, c := Replies(names, mid.Keys, shown, d), Replies({n}, after.Keys, shown, d), Replies(names + {n}, after.Keys, shown, d);
    assert a + b == c;
    assert forall apply: map<string, Json> :: (apply + a) + b == apply + (a + b);
  }

  class Service {
    const dict: Dictionary
    const registry: EventRegistry
    const socket: CanSocket

    constructor (dict: Dictionary, registry: EventRegistry, socket: CanSocket)
      ensures this.dict == dict && this.registry == registry && this.socket == socket
    {
      this.dict, this.registry, this.socket := dict, registry, socket;
    }

    /** Each event's raw_info is what name lookup returns. */
    ghost predicate Indexed()
      reads dict`properties, registry`events
    {
      forall n :: n in registry.events ==> n in dict.properties && registry.events[n] == dict.properties[n]
    }

    /** Names lead to records, events to names, and no property is called "*". */
    ghost predicate Bound()
      reads dict`properties, dict.properties.Values`mycanid, registry`events, registry`nSubscribedCanid
    {
      && (forall n :: n in dict.properties ==> dict.properties[n].mycanid != null)
      && Indexed() && "*" !in dict.properties
      && registry.subscribedCanids.Length == SUPPORT_CANID_MAX && registry.nSubscribedCanid <= SUPPORT_CANID_MAX
    }

    ghost function Owners(): (m: map<string, UInt32>)
      requires Bound()
      reads dict`properties, dict.properties.Values`mycanid, registry`events, registry`nSubscribedCanid
    {
      map n | n in dict.properties :: dict.properties[n].mycanid.canid
    }

    /** The abstract state of the subscription machine. */
    ghost function View(): State
      requires Bound()
      reads dict, dict.properties.Values`mycanid, registry`events, registry`nSubscribedCanid, socket`filters
    {
      State(dict.canids.Keys, Owners(), dict.support,
            map n | n in registry.events :: Owners()[n], socket.filters)
    }

    /** Empty dictionaries, no events and the filter of socketcan_open are where the machine starts. */
    lemma StartsAtStart()
      requires dict.canids == map[] && dict.properties == map[] && dict.support == []
      requires registry.Ready() && registry.events == map[] && socket.filters == CLOSED
      ensures Bound() && View() == START
    {
      assert Owners() == map[];
    }

    /** Every indexed property heads a well-formed chain, and `shown` is what it reports now. */
    ghost predicate Presents(shown: map<string, Json>)
      reads *
    {
      && shown.Keys == dict.properties.Keys
      && forall n :: n in dict.properties ==>
           dict.properties[n].Chained() && shown[n] == dict.properties[n].State().Report()
    }

    ghost function Shown(): (shown: map<string, Json>)
      requires forall n :: n in dict.properties ==> dict.properties[n].Chained()
      reads *
      ensures Presents(shown)
    {
      map n | n in dict.properties :: dict.properties[n].State().Report()
    }

    lemma IndexIsChained()
      requires dict.Valid()
      ensures forall n :: n in dict.properties ==> dict.properties[n].Chained()
    {
      hide Dictionary.Valid, CanBit.Chained, CanidInfo.Ready;
      forall n | n in dict.properties
        ensures dict.properties[n].Chained()
      {
        var k := dict.SlotOf(n);
        dict.ReadyRecord(dict.properties[n].mycanid.canid);
        AllChained(dict.properties[n].mycanid);
      }
    }

    /** subscribe_signal; a successful subscription adds the property's value to the reply `apply`. */
    method SubscribeSignal(name: string, d: Daemon, apply: map<string, Json>, ghost shown: map<string, Json>)
      returns (err: int, apply': map<string, Json>)
      requires Bound() && Presents(shown) && "*" !in dict.support
      modifies registry`events
      ensures Bound() && Presents(shown)
      ensures registry.events == Register(old(registry.events), dict.properties, Requested(dict.support, name), d)
      ensures apply' == apply + Replies(Requested(dict.support, name), registry.events.Keys, shown, d)
      ensures err >= 0
      ensures err == 0 <==> forall n :: n in Requested(dict.support, name) ==> n in registry.events && d.subscribes(n)
      decreases if name == "*" then 2 else 0
    {
      hide Presents, Bound, Register, Replies, NameSet;
      if name == "*" {
        err, apply' := SubscribeAll(d, apply, shown);
      } else {
        assert name in Requested(dict.support, name);
        err, apply' := SubscribeOne(name, d, apply, shown);
      }
    }

    /** The same for a single property. */
    method SubscribeOne(name: string, d: Daemon, apply: map<string, Json>, ghost shown: map<string, Json>)
      returns (err: int, apply': map<string, Json>)
      requires Bound() && Presents(shown)
      modifies registry`events
      ensures Bound() && Presents(shown)
      ensures registry.events == Register(old(registry.events), dict.properties, {name}, d)
      ensures apply' == apply + Replies({name}, registry.events.Keys, shown, d)
      ensures err == if name in registry.events && d.subscribes(name) then 0 else 1
    {
      hide Replies, Presents, Bound, Register;
      var event := FindOrRegister(name, d, shown);
      if !event || !d.subscribes(name) {
        NoReply(registry.events.Keys, shown, name, d);
        return 1, apply;
      }
      var value := ReportOf(name, shown);
      OneReply(registry.events.Keys, shown, name, d);
      return 0, apply[name := value];
    }

    /** get_event, and register_event if there is none. */
    method FindOrRegister(name: string, d: Daemon, ghost shown: map<string, Json>) returns (event: bool)
      requires Bound() && Presents(shown)
      modifies registry`events
      ensures Bound() && Presents(shown)
      ensures registry.events == Register(old(registry.events), dict.properties, {name}, d)
      ensures event <==> name in registry.events
    {
      hide Presents;
      event := name in registry.events;
      if !event {
        event := registry.RegisterEvent(name, dict.properties, d.makes(name));
      }
      assert registry.events == Register(old(registry.events), dict.properties, {name}, d);
      PresentsStill(shown);
    }

    /** What is not touched goes on reporting the same. */
    twostate lemma PresentsStill(new shown: map<string, Json>)
      requires old(Presents(shown)) && dict.properties == old(dict.properties)
      requires forall p :: p in dict.properties.Values ==> Same(p) && forall q :: q in old(p.chain) ==> Same(q)
      ensures Presents(shown)
    {
      hide CanBit.Chained, CanBit.State;
      forall n | n in dict.properties
        ensures dict.properties[n].Chained() && shown[n] == dict.properties[n].State().Report()
      {
        assert dict.properties[n] in dict.properties.Values;
        ChainStill(dict.properties[n]);
      }
    }

    /** The value of a registered property. */
    method ReportOf(name: string, ghost shown: map<string, Json>) returns (value: Json)
      requires Bound() && Presents(shown) && name in registry.events
      ensures name in shown && value == shown[name]
    {
      hide CanBit.Chained, CanBit.State;
      var property := registry.events[name];
      property.ChainFacts();
      value := Property2Json(property, property);
    }

    /** Asking for `n` would succeed. */
    predicate Serves(events: map<string, CanBit>, n: string, d: Daemon)
      reads dict`properties
    {
      (n in events || (n in dict.properties && d.makes(n))) && d.subscribes(n)
    }

    /** subscribe_all: every supported property in turn, adding up the failures. */
    method SubscribeAll(d: Daemon, apply: map<string, Json>, ghost shown: map<string, Json>)
      returns (err: int, apply': map<string, Json>)
      requires Bound() && Presents(shown) && "*" !in dict.support
      modifies registry`events
      ensures Bound() && Presents(shown)
      ensures registry.events == Register(old(registry.events), dict.properties, NameSet(dict.support), d)
      ensures apply' == apply + Replies(NameSet(dict.support), registry.events.Keys, shown, d)
      ensures err >= 0
      ensures err == 0 <==> forall n :: n in NameSet(dict.support) ==> n in registry.events && d.subscribes(n)
      decreases 1
    {
      hide Register, NameSet, Replies, Presents;
      err := 0;
      apply' := apply;
      var i := 0;
      ghost var before, names := registry.events, {};
      RegisterNone(before, dict.properties, d);
      NamesOfNone(dict.support);
      RepliesNone(registry.events.Keys, shown, d);
      while i < |dict.support|
        invariant i <= |dict.support| && Bound() && err >= 0 && Presents(shown)
        invariant names == NameSet(dict.support[..i])
        invariant registry.events == Register(before, dict.properties, names, d)
        invariant apply' == apply + Replies(names, registry.events.Keys, shown, d)
        invariant err == 0 <==> forall n :: n in names ==> Serves(before, n, d)
      {
        ghost var n := dict.support[i];
        assert n in dict.support;
        NamesOfNext(dict.support, i);
        RegisterInTurn(before, dict.properties, names, {n}, d);
        var e;
        e, apply' := SubscribeSignal(dict.support[i], d, apply', shown);
        RepliesInTurn(before, dict.properties, names, n, shown, d);
        names := names + {n};
        RegisterHas(before, dict.properties, names, d, n);
        err := err + e;
        i := i + 1;
      }
      assert dict.support[..i] == dict.support;
      forall n | n in names
        ensures n in registry.events && d.subscribes(n) <==> Serves(before, n, d)
      {
        RegisterHas(before, dict.properties, names, d, n);
      }
    }

    lemma OwnedEvents()
      requires Bound()
      ensures registry.Ready()
      ensures forall e :: e in registry.events ==> e in Owners()
      ensures View().events == registry.Canids()
    {
    }

    /** Registering by reference is registering by CAN-ID. */
    twostate lemma RegisterIsAbstract(new names: set<string>, new d: Daemon)
      requires old(Bound()) && Bound() && dict.properties == old(dict.properties)
      requires forall p :: p in dict.properties.Values ==> p.mycanid == old(p.mycanid)
      requires registry.events == Register(old(registry.events), dict.properties, names, d)
      ensures Owners() == old(Owners())
      ensures View().events == Register(old(View().events), Owners(), names, d)
    {
      assert forall n :: n in dict.properties ==> dict.properties[n] in dict.properties.Values;
    }

    /** Recompute the filter from the registered events; `ok` is the outcome of the system call. */
    method UpdateFilter(ok: bool) returns (ghost list: seq<UInt32>)
      requires Bound()
      modifies registry`nSubscribedCanid, registry.subscribedCanids, socket`filters
      ensures Bound() && Listing(View().events, list)
      ensures socket.filters == if |list| > 0 && ok then FilterFor(list) else old(socket.filters)
    {
      hide Listing, FilterFor, View, Owners, EventRegistry.Canids, Indexed, EventRegistry.Owned;
      OwnedEvents();
      var ncanid := registry.GetSubscribedCanids();
      list := registry.List();
      socket.UpdateFilter(registry.subscribedCanids, ncanid, ok);
      OwnedEvents();
    }

    /** The subscribe verb: register, then recompute the filter whatever the outcome; the client gets the
        values only if everything went well. */
    method Subscribe(name: string, d: Daemon, filterOk: bool, ghost shown: map<string, Json>)
      returns (err: int, reply: Option<map<string, Json>>)
      requires Bound() && Presents(shown) && "*" !in dict.support
      modifies registry`events, registry`nSubscribedCanid, registry.subscribedCanids, socket`filters
      ensures Bound()
      ensures Next(old(View()), Command.Subscribe(name, d, filterOk), View())
      ensures registry.events == Register(old(registry.events), dict.properties, Requested(dict.support, name), d)
      ensures err == 0 <==> forall n :: n in Requested(dict.support, name) ==> n in registry.events && d.subscribes(n)
      ensures reply == if err == 0 then Some(Replies(Requested(dict.support, name), registry.events.Keys, shown, d)) else None
    {
      hide Register, Requested, Listing, FilterFor, Next, Replies, Presents;
      ghost var s := View();
      var apply;
      err, apply := SubscribeSignal(name, d, map[], shown);
      ghost var list := UpdateFilter(filterOk);
      RegisterIsAbstract(Requested(dict.support, name), d);
      SubscribeStep(s, name, d, filterOk, View(), list);
      assert map[] + Replies(Requested(dict.support, name), registry.events.Keys, shown, d) ==
             Replies(Requested(dict.support, name), registry.events.Keys, shown, d);
      reply := if err == 0 then Some(apply) else None;
    }

    /** unsubscribe_signal: nothing but the client's own subscription changes. */
    method UnsubscribeSignal(name: string, d: Daemon) returns (err: int)
      requires "*" !in dict.support
      ensures err >= 0
      ensures err == 0 <==> forall n :: n in Requested(dict.support, name) ==> n in registry.events && d.unsubscribes(n)
      decreases if name == "*" then 2 else 0
    {
      if name == "*" {
        err := UnsubscribeAll(d);
        return;
      }
      assert name in Requested(dict.support, name);
      if name !in registry.events {
        return 1;
      }
      err := if d.unsubscribes(name) then 0 else 1;
    }

    /** unsubscribe_all */
    method UnsubscribeAll(d: Daemon) returns (err: int)
      requires "*" !in dict.support
      ensures err >= 0
      ensures err == 0 <==> forall n :: n in dict.support ==> n in registry.events && d.unsubscribes(n)
      decreases 1
    {
      err := 0;
      var i := 0;
      while i < |dict.support|
        invariant i <= |dict.support| && err >= 0
        invariant err == 0 <==> forall k :: 0 <= k < i ==> dict.support[k] in registry.events && d.unsubscribes(dict.support[k])
      {
        assert dict.support[i] in dict.support;
        var e := UnsubscribeSignal(dict.support[i], d);
        assert dict.support[i] in Requested(dict.support, dict.support[i]);
        err := err + e;
        i := i + 1;
      }
    }

    // -------------------------------------------------------------------------------------
    // Frames in, frames out
    // -------------------------------------------------------------------------------------

    /** The whole service is consistent. */
    ghost predicate Valid()
      reads *
    {
      dict.Valid() && Bound()
    }

    twostate lemma DropIsAbstract()
      requires old(Bound()) && dict.properties == old(dict.properties) && dict.support == old(dict.support)
      requires dict.canids == old(dict.canids) && socket.filters == old(socket.filters)
      requires forall p :: p in dict.properties.Values ==> p.mycanid == old(p.mycanid)
      requires Submap(registry.events, old(registry.events)) && registry.nSubscribedCanid == old(registry.nSubscribedCanid)
      ensures Bound() && Owners() == old(Owners())
      ensures Next(old(View()), Command.Drop(old(registry.events).Keys - registry.events.Keys), View())
    {
      assert forall n :: n in dict.properties ==> dict.properties[n] in dict.properties.Values;
      assert Owners() == old(Owners());
      assert View().events == old(View().events) - (old(registry.events).Keys - registry.events.Keys);
    }

    /** Parse a frame; only an accepted frame touches a record, and only the one of its CAN-ID. */
    method ParseApart(frame: CanFrame, timestamp: TimeVal, clients: int -> int)
      returns (ret: int, ghost ds: seq<Decision>, ghost touched: set<CanidInfo>)
      requires dict.Valid()
      modifies dict.RecordOf(frame.canId % 0x800)`frameId, dict.RecordOf(frame.canId % 0x800)`frameDlc
      modifies dict.DataOf(frame.canId % 0x800)
      modifies dict.NodesOf(frame.canId % 0x800)`curValue, dict.NodesOf(frame.canId % 0x800)`updatetime
      modifies dict.NodesOf(frame.canId % 0x800)`applyinfo
      modifies registry`events, registry`pushed
      ensures dict.Valid() && Submap(registry.events, old(registry.events))
      ensures FrameParsed(dict, registry, frame, timestamp, clients, ret, ds)
      ensures forall r :: r in touched ==> ret == 0 && r.canid == frame.canId % 0x800
      ensures forall r :: r in old(dict.canids.Values) && r !in touched ==>
                dict.SameRecord(r) && r.data[..] == old(r.data[..]) && forall q :: q in old(r.nodes) ==> Same(q)
    {
      hide Dictionary.Valid, FrameParsed, Submap;
      ghost var target := dict.GetCanid(frame.canId % 0x800);
      if target != null {
        dict.RecordsApart(target);
        dict.ReadyRecord(frame.canId % 0x800);
      }
      ret, ds := ParseFrame(dict, registry, frame, timestamp, clients);
      touched := if ret != 0 || target == null then {} else {target};
      if ret != 0 && target != null {
        RefusedIsStill(frame, timestamp, clients, ret, ds);
      }
    }

    /** A frame arrives. */
    method Receive(frame: CanFrame, timestamp: TimeVal, clients: int -> int)
      returns (ret: int, ghost dropped: set<string>, ghost ds: seq<Decision>)
      requires Valid()
      modifies dict.RecordOf(frame.canId % 0x800)`frameId, dict.RecordOf(frame.canId % 0x800)`frameDlc
      modifies dict.DataOf(frame.canId % 0x800)
      modifies dict.NodesOf(frame.canId % 0x800)`curValue, dict.NodesOf(frame.canId % 0x800)`updatetime
      modifies dict.NodesOf(frame.canId % 0x800)`applyinfo
      modifies registry`events, registry`pushed
      ensures Valid()
      ensures FrameParsed(dict, registry, frame, timestamp, clients, ret, ds)
      ensures dropped == old(registry.events).Keys - registry.events.Keys
      ensures forall r :: r in old(dict.canids.Values) && (ret != 0 || r.canid != frame.canId % 0x800) ==> OthersTraffic(r)
      ensures Next(old(View()), Command.Drop(dropped), View())
    {
      hide Dictionary.Valid, FrameParsed, OthersTraffic, Bound, View, Owners, Next, Submap;
      ghost var touched;
      ret, ds, touched := ParseApart(frame, timestamp, clients);
      dropped := old(registry.events).Keys - registry.events.Keys;
      DropIsAbstract();
      OthersTx(touched);
    }

    /** A frame that is not accepted leaves the record of its CAN-ID alone. */
    twostate lemma RefusedIsStill(new frame: CanFrame, new timestamp: TimeVal, new clients: int -> int, new ret: int, new ds: seq<Decision>)
      requires FrameParsed(dict, registry, frame, timestamp, clients, ret, ds)
      requires ret != 0 && frame.canId % 0x800 in dict.canids
      ensures var info := dict.canids[frame.canId % 0x800];
              && info in old(dict.canids.Values) && info.nodes == old(info.nodes) && info.data[..] == old(info.data[..])
              && info.frameId == old(info.frameId) && info.frameDlc == old(info.frameDlc)
              && forall q :: q in info.nodes ==> Same(q)
    {
    }

    /** The signals of one record, its frame and the output of the socket as a transmitter. */
    ghost function TxOf(info: CanidInfo): Transmit.Tx
      requires info.Ready() && info.data.Length == 8
      reads info`nodes, info`nData, info`frameId, info`frameDlc, info.nodes, info.data, socket`sent
    {
      Transmit.Tx(HeadDefs(info, info.nData), HeadValues(info, info.nData), info.Frame(), socket.sent)
    }

    ghost function HeadDefs(info: CanidInfo, n: nat): (s: seq<Definition>)
      requires info.Ready() && n <= info.nData
      reads info`nodes, info`nData, info.nodes
      ensures |s| == n && forall k :: 0 <= k < n ==> s[k] == info.property[k].def
      ensures Decodable(s)
    {
      if n == 0 then []
      else
        assert info.property[n - 1].Sound() by { assert info.property[n - 1].Chained(); }
        HeadDefs(info, n - 1) + [info.property[n - 1].def]
    }

    ghost function HeadValues(info: CanidInfo, n: nat): (s: seq<int>)
      requires info.Ready() && n <= info.nData
      reads info`nodes, info`nData, info.nodes
      ensures |s| == n && forall k :: 0 <= k < n ==> s[k] == info.property[k].curValue
    {
      if n == 0 then [] else HeadValues(info, n - 1) + [info.property[n - 1].curValue]
    }

    /** What `set` does to the head `prop` of `info`: a value with a meaning is stored and put in its place in
        the frame, which is sent; a value without one changes nothing.  The property reports its own value,
        or still the member that it shows. */
    twostate predicate ValueSet(prop: CanBit, v: UInt32, info: CanidInfo)
      reads *
    {
      && prop.Chained() && ShownBy(prop).Sound() && prop.Sound() && info.data.Length == 8
      && prop.def == old(prop.def) && prop.applyinfo == old(prop.applyinfo)
      && prop.State().Report() == ToJson(ShownBy(prop).def, ShownBy(prop).curValue) && (ShownBy(prop) != prop ==> Same(ShownBy(prop)))
      && if NothingToTell(prop.def, v) then
           prop.curValue == old(prop.curValue) && info.data[..] == old(info.data[..]) && socket.sent == old(socket.sent)
         else
           && Tells(prop.def, v, ToJson(prop.def, prop.curValue))
           && Replaced(old(info.data[..]), info.data[..], prop.def.layout, v)
           && socket.sent == old(socket.sent) + [info.Frame()]
    }

    /** The member to which property2json is redirected. */
    ghost function ShownBy(prop: CanBit): CanBit
      reads prop`applyinfo
    {
      if prop.applyinfo == null then prop else prop.applyinfo
    }

    twostate lemma HeadReports(prop: CanBit)
      requires old(prop.Chained()) && prop.Chained() && prop.applyinfo == old(prop.applyinfo) && prop.chain == old(prop.chain)
      requires forall q :: q in old(prop.chain) && q != prop ==> Same(q)
      ensures prop.Sound() && ShownBy(prop).Sound()
      ensures prop.State().Report() == ToJson(ShownBy(prop).def, ShownBy(prop).curValue)
      ensures ShownBy(prop) != prop ==> Same(ShownBy(prop))
    {
      hide CanBit.State, ToJson, Chain.Report;
      HeadSound(prop);
      assert prop.chain[0] == prop;
      var a :| 0 <= a < |prop.chain| && prop.chain[a] == ShownBy(prop);
      assert prop.chain[a].Sound();
      prop.MemberFacts(prop);
    }

    /** can_signal_send; `prop` is the property in live slot `k` of its record. */
    method CanSignalSend(prop: CanBit, v: UInt32, info: CanidInfo, ghost k: nat)
      requires info.Ready() && info.data.Length == 8 && k < info.nData && prop == info.property[k]
      modifies info.nodes`curValue, info.data, socket`sent
      ensures info.Ready()
      ensures forall q :: q in info.nodes && q != prop ==> Same(q)
      ensures prop.def == old(prop.def) && info.nData == old(info.nData)
      ensures forall j :: 0 <= j < info.nData && j != k ==> info.property[j].State() == old(info.property[j].State())
      ensures TxOf(info) == Transmit.Apply(old(TxOf(info)), Transmit.Set(k, v))
      ensures ValueSet(prop, v, info)
    {
      hide CanBit.Chained, CanBit.State, CanidInfo.Ready, Definition.Stored, Definition.Updated, Definition.Fails, HeadDefs, HeadValues,
        CanValue2Host, Host2CanValue, Tells, Replaced, ToJson, Chain.Report;
      HeadFacts(info, k);
      AllChained(info);
      assert prop.Sound() by { HeadSound(prop); }
      ghost var defs, values := HeadDefs(info, info.nData), HeadValues(info, info.nData);
      var ret := prop.Property2CanFrame(v, info.data);
      forall j: nat | j < info.nData
        ensures info.property[j].Chained()
        ensures j != k ==> info.property[j].State() == old(info.property[j].State())
      {
        if j == k {
          HeadValueSet(prop);
        } else {
          OtherHead(info, k, j);
          ChainStill(info.property[j]);
        }
      }
      ReadyStill(info);
      assert HeadDefs(info, info.nData) == defs;
      assert HeadValues(info, info.nData) == values[k := prop.curValue];
      if ret != UpError {
        socket.Send(CanFrame(info.frameId, info.frameDlc, info.data[..]));
      }
      HeadReports(prop);
    }

    /** For record `r`, frames of other CAN-IDs may have passed the socket, and nothing else has happened. */
    twostate predicate OthersTraffic(r: CanidInfo)
      reads *
    {
      && r.Ready() && old(r.Ready()) && r.data.Length == 8 && r.nData == old(r.nData)
      && TxOf(r) == old(TxOf(r)).(sent := socket.sent)
      && forall i :: 0 <= i < r.nData ==> r.property[i].State() == old(r.property[i].State())
    }

    /** Nothing that belongs to record `r` was touched. */
    twostate lemma OtherTx(r: CanidInfo)
      requires old(dict.Listed(r)) && forall n :: n in old(dict.properties) ==> n in dict.properties
      requires dict.SameRecord(r) && r.data[..] == old(r.data[..]) && forall q :: q in old(r.nodes) ==> Same(q)
      ensures OthersTraffic(r)
    {
      hide CanBit.Chained, CanBit.State, HeadDefs, HeadValues, CanidInfo.HeadsUpTo, CanidInfo.DistinctSlots;
      dict.RecordKept(r);
      HeadsAreNodes(r);
      AllChained(r);
      forall i | 0 <= i < r.nData
        ensures r.property[i].State() == old(r.property[i].State())
      {
        HeadStill(r, i);
      }
      assert HeadDefs(r, r.nData) == old(HeadDefs(r, r.nData));
      assert HeadValues(r, r.nData) == old(HeadValues(r, r.nData));
    }

    twostate lemma HeadStill(r: CanidInfo, new i: int)
      requires old(r.Ready()) && 0 <= i < old(r.nData) && forall q :: q in old(r.nodes) ==> Same(q)
      ensures old(r.property[i].Chained()) && r.property[i].Chained() && r.property[i].State() == old(r.property[i].State())
    {
      hide CanBit.Chained, CanBit.State;
      assert old(r.property[i].Chained());
      assert r.property[i] in old(r.nodes) && forall q :: q in old(r.property[i].chain) ==> q in old(r.nodes);
      ChainStill(r.property[i]);
    }

    /** Every known record outside `touched` has seen traffic only. */
    twostate lemma OthersTx(new touched: set<CanidInfo>)
      requires old(dict.Valid())
      requires forall n :: n in old(dict.properties) ==> n in dict.properties
      requires forall r :: r in old(dict.canids.Values) && r !in touched ==>
                 dict.SameRecord(r) && r.data[..] == old(r.data[..]) && forall q :: q in old(r.nodes) ==> Same(q)
      ensures forall r :: r in old(dict.canids.Values) && r !in touched ==> OthersTraffic(r)
    {
      hide Dictionary.Agrees, Dictionary.OwnsSlots, Supports, Dictionary.Listed, OthersTraffic;
      forall r | r in old(dict.canids.Values) && r !in touched
        ensures OthersTraffic(r)
      {
        assert old(dict.Listed(r));
        OtherTx(r);
      }
    }

    twostate lemma HeadsAreNodes(r: CanidInfo)
      requires old(r.Ready())
      ensures forall i :: 0 <= i < old(r.nData) ==>
                i < |r.property| && r.property[i] in old(r.nodes) && old(r.property[i].Chained())
    {
    }

    /** The value went to the slot the name leads to: a step of the transmitter of that record. */
    twostate predicate SetReaches(name: string, v: UInt32, new info: CanidInfo?, k: nat)
      reads *
    {
      && info != null && info in old(dict.canids.Values) && name in dict.properties && info == dict.properties[name].mycanid
      && info.Ready() && old(info.Ready()) && info.data.Length == 8
      && k < info.nData == old(info.nData) && info.property[k] == dict.properties[name]
      && old(info.property[k].def.name) == name
      && TxOf(info) == Transmit.Apply(old(TxOf(info)), Transmit.Set(k, v))
      && forall j :: 0 <= j < info.nData && j != k ==> info.property[j].State() == old(info.property[j].State())
    }

    /** The set verb: only a known name is accepted; its property may be of either kind. */
    method Set(name: string, v: UInt32) returns (ok: bool, ghost info: CanidInfo?, ghost k: nat)
      requires Valid()
      modifies dict.NodesByName(name)`curValue, dict.DataByName(name), socket`sent
      ensures Valid() && (ok <==> name in dict.properties)
      ensures !ok ==> info == null && socket.sent == old(socket.sent)
      ensures ok ==> SetReaches(name, v, info, k) && ValueSet(dict.properties[name], v, info)
      ensures forall r :: r in old(dict.canids.Values) && r != info ==> OthersTraffic(r)
    {
      hide Dictionary.Valid, CanidInfo.Ready, CanBit.Chained, TxOf, Transmit.Apply, Bound, OthersTraffic, ValueSet;
      ok, info, k := false, null, 0;
      if name !in dict.properties {
        OthersTx({});
        return;
      }
      var prop := dict.properties[name];
      ghost var i := dict.SlotOf(name);
      var record := prop.mycanid;
      dict.ReadyRecord(record.canid);
      dict.RecordsApart(record);
      CanSignalSend(prop, v, record, i);
      ok, info, k := true, record, i;
      dict.ValuesKeepValid(record);
      OthersTx({record});
    }

    /** on_timerEvent: transmit the stored frame. */
    method OnTimerEvent(info: CanidInfo)
      requires Valid() && info in dict.canids.Values
      modifies socket`sent
      ensures Valid() && info.Ready() && old(info.Ready()) && info.data.Length == 8
      ensures TxOf(info) == Transmit.Apply(old(TxOf(info)), Transmit.Timer)
      ensures forall r :: r in old(dict.canids.Values) && r != info ==> OthersTraffic(r)
    {
      hide Dictionary.Valid, CanBit.Chained, OthersTraffic, CanidInfo.Ready;
      ghost var id :| id in dict.canids && dict.canids[id] == info;
      dict.ReadyRecord(id);
      socket.Send(CanFrame(info.frameId, info.frameDlc, info.data[..]));
      OthersTx({info});
      dict.ValuesKeepValid(info);
    }

    // -------------------------------------------------------------------------------------
    // Defining CAN-IDs
    // -------------------------------------------------------------------------------------

    /** A new record becomes known: one step of the machine, whatever is subscribed meanwhile. */
    method DefineCanid(info: CanidInfo, ghost defs: seq<Definition>) returns (ret: int)
      requires Valid() && info !in dict.canids.Values && dict.Loaded(info, defs) && "*" !in NamesOf(defs)
      requires forall r :: r in dict.canids.Values ==> r.data != info.data
      modifies dict, info`nData, info`nodes, info.property
      ensures Valid()
      ensures if info.canid in old(dict.canids) then
                ret == -1 && dict.canids == old(dict.canids) && dict.properties == old(dict.properties)
              else
                var g := Group(defs, old(dict.properties).Keys);
                && ret == 0 && dict.canids == old(dict.canids)[info.canid := info]
                && info.nData == |g| && Realises(info, g) && Indexes(dict.properties, old(dict.properties), info.property, g)
                && dict.support == Extend(old(dict.support), old(dict.properties).Keys, NamesOf(defs))
      ensures ret != 0 ==> View() == old(View())
      ensures forall r :: r in old(dict.canids.Values) ==>
                dict.SameRecord(r) && r.data[..] == old(r.data[..]) && forall q :: q in old(r.nodes) ==> Same(q)
      ensures Next(old(View()), Command.Define(info.canid, NamesOf(defs)), View())
    {
      hide Dictionary.Valid, Realises, Indexes, Group, Next, OthersTraffic, Extend, NamesOf;
      ghost var known := info.canid in dict.canids;
      dict.NamesAreForeign(info, defs);
      dict.LoadedIsApart(info, defs);
      ret := dict.AddCanid(info, defs);
      if !known {
        DefineIsAbstract(info, defs);
      } else {
        DefineIsRefused(info, defs);
      }
      forall r | r in old(dict.canids.Values)
        ensures dict.SameRecord(r) && r.data[..] == old(r.data[..]) && forall q :: q in old(r.nodes) ==> Same(q)
      {
        assert r != info && forall q :: q in old(r.nodes) ==> q !in info.property;
      }
    }

    twostate lemma DefineIsRefused(info: CanidInfo, new defs: seq<Definition>)
      requires old(Bound()) && dict.properties == old(dict.properties) && dict.support == old(dict.support)
      requires dict.canids == old(dict.canids) && info.canid in dict.canids && socket.filters == old(socket.filters)
      requires forall n :: n in dict.properties ==> dict.properties[n].mycanid == old(dict.properties[n].mycanid)
      requires registry.events == old(registry.events) && registry.nSubscribedCanid == old(registry.nSubscribedCanid)
      ensures Bound() && Next(old(View()), Command.Define(info.canid, NamesOf(defs)), View())
    {
      assert Owners() == old(Owners());
    }

    /** What addCANID_dict did to the name index: new names lead to the new record. */
    twostate lemma DefinedNames(info: CanidInfo, new defs: seq<Definition>)
      requires var g := Group(defs, old(dict.properties).Keys);
               Realises(info, g) && Indexes(dict.properties, old(dict.properties), info.property, g)
      requires forall n :: n in old(dict.properties) ==>
                 old(dict.properties[n].mycanid) != null && old(dict.properties[n]).mycanid == old(dict.properties[n].mycanid)
      ensures forall n :: n in dict.properties <==> n in old(dict.properties) || n in NamesOf(defs)
      ensures forall n :: n in dict.properties ==>
                dict.properties[n].mycanid == if n in old(dict.properties) then old(dict.properties[n].mycanid) else info
      ensures forall n :: n in old(dict.properties) ==> dict.properties[n] == old(dict.properties[n])
    {
      hide Realises, Indexes, Group, NamesOf, Find;
      var g := Group(defs, old(dict.properties).Keys);
      forall n
        ensures n in dict.properties <==> n in old(dict.properties) || n in NamesOf(defs)
        ensures n in dict.properties ==>
                  dict.properties[n].mycanid == if n in old(dict.properties) then old(dict.properties[n].mycanid) else info
        ensures n in old(dict.properties) ==> dict.properties[n] == old(dict.properties[n])
      {
        IndexedHead(dict.properties, old(dict.properties), info.property, g, n);
        GroupNames(defs, old(dict.properties).Keys, n);
        if n in dict.properties && n !in old(dict.properties) {
          RealisesHead(info, g, Find(g, n));
        }
      }
    }

    twostate lemma DefinedOwners(info: CanidInfo, new defs: seq<Definition>)
      requires old(Bound()) && "*" !in NamesOf(defs)
      requires registry.events == old(registry.events) && registry.nSubscribedCanid == old(registry.nSubscribedCanid)
      requires forall n :: n in dict.properties <==> n in old(dict.properties) || n in NamesOf(defs)
      requires forall n :: n in dict.properties ==>
                 dict.properties[n].mycanid == if n in old(dict.properties) then old(dict.properties[n].mycanid) else info
      requires forall n :: n in old(dict.properties) ==> dict.properties[n] == old(dict.properties[n])
      ensures Bound() && Owners() == DefineId(old(Owners()), info.canid, NamesOf(defs))
      ensures old(Owners()).Keys == old(dict.properties).Keys && View().events == old(View().events)
    {
      hide NamesOf;
      assert Owners() == DefineId(old(Owners()), info.canid, NamesOf(defs));
      assert View().events == old(View().events);
    }

    /** The same, seen as a step of the machine. */
    twostate lemma DefineIsAbstract(info: CanidInfo, new defs: seq<Definition>)
      requires old(Valid()) && info.canid !in old(dict.canids) && "*" !in NamesOf(defs)
      requires dict.canids == old(dict.canids)[info.canid := info] && socket.filters == old(socket.filters)
      requires registry.events == old(registry.events) && registry.nSubscribedCanid == old(registry.nSubscribedCanid)
      requires var g := Group(defs, old(dict.properties).Keys);
               Realises(info, g) && Indexes(dict.properties, old(dict.properties), info.property, g)
      requires dict.support == Extend(old(dict.support), old(dict.properties).Keys, NamesOf(defs))
      requires forall n :: n in old(dict.properties) ==>
                 old(dict.properties[n].mycanid) != null && old(dict.properties[n]).mycanid == old(dict.properties[n].mycanid)
      ensures Bound() && Next(old(View()), Command.Define(info.canid, NamesOf(defs)), View())
    {
      hide Dictionary.Valid, Realises, Indexes, Group, NamesOf, Find, Extend, Owners, DefineId, Indexed;
      DefinedNames(info, defs);
      DefinedOwners(info, defs);
    }

    // -------------------------------------------------------------------------------------
    // End to end
    // -------------------------------------------------------------------------------------

    /** Every live slot of the record is the one its name leads to: none of its names has another owner. */
    ghost predicate OwnsItsNames(info: CanidInfo)
      reads dict`properties, info`nodes, info`nData, info.nodes
    {
      && info.Ready()
      && forall i :: 0 <= i < info.nData ==>
           var p := info.property[i];
           p.def.name in dict.properties && dict.properties[p.def.name] == p
    }

    /** The live slots of such a record have different names. */
    lemma SlotsAreNamedApart(info: CanidInfo)
      requires OwnsItsNames(info)
      ensures forall i :: 0 <= i < info.nData ==>
                Names(info)[i] in dict.properties && dict.properties[Names(info)[i]] == info.property[i]
      ensures forall i, j :: 0 <= i < j < info.nData ==> Names(info)[i] != Names(info)[j]
    {
      hide NamesUpTo, CanBit.Chained;
      assert info.DistinctSlots();
    }

    /** A name that the record owns is carried by one of its live slots. */
    lemma OwnedSlot(info: CanidInfo, name: string) returns (k: nat)
      requires Valid() && info in dict.canids.Values && name in dict.properties && dict.properties[name].mycanid == info
      ensures info.Ready() && k < info.nData && info.property[k] == dict.properties[name]
      ensures forall i :: 0 <= i < info.nData ==> (Names(info)[i] == name <==> i == k)
    {
      hide Names, NamesUpTo, Dictionary.Valid, CanidInfo.Ready;
      k := dict.SlotOf(name);
      dict.ReadyRecord(info.canid);
      AllChained(info);
      forall i: nat | i < info.nData && Names(info)[i] == name
        ensures i == k
      {
        dict.SlotIsIndexedIff(info, i);
      }
    }

    /** Whose value a push carries: the push that slot `i` causes for its name reports the property the
        event stands for if and only if the name belongs to the CAN-ID of the slot. */
    lemma PushIsOwnIff(info: CanidInfo, i: nat)
      requires Valid() && info in dict.canids.Values && i < info.nData && i < |info.property|
      requires info.property[i].def.name in registry.events
      ensures registry.events[info.property[i].def.name] == info.property[i] <==>
              Owners()[info.property[i].def.name] == info.canid
    {
      dict.SlotIsIndexedIff(info, i);
    }

    /** If the CAN-ID of a decoded frame owns all its names, the frame pushes, in slot order, exactly what its
        registered slots decided, every push carries the value of the property its event stands for, and exactly the events that
        nobody listens to are dropped. */
    twostate lemma FramePushes(new frame: CanFrame, new timestamp: TimeVal, new clients: int -> int, new ret: int, new ds: seq<Decision>)
      requires Valid() && old(Indexed()) && dict.properties == old(dict.properties)
      requires FrameParsed(dict, registry, frame, timestamp, clients, ret, ds) && ret == 0
      requires dict.canids[frame.canId % 0x800].kind != Send && OwnsItsNames(dict.canids[frame.canId % 0x800])
      ensures var info := dict.canids[frame.canId % 0x800];
              info.Ready() && |ds| == info.nData
      ensures var info := dict.canids[frame.canId % 0x800];
              var pushes := PushesOf(old(registry.events), Names(info), Reports(info, info.nData), ds, info.nData);
              && registry.pushed == old(registry.pushed) + pushes
              && (forall p :: p in pushes ==>
                    && p.name in old(registry.events) && old(registry.events[p.name]) in info.property[..info.nData]
                    && old(registry.events[p.name]).Chained()
                    && p.value == old(registry.events[p.name]).State().Report())
              && registry.events == old(registry.events) - Unheard(Names(info), ds, clients, info.nData)
    {
      hide Dictionary.Valid, Bound, CanidInfo.Ready, CanBit.Chained, CanBit.State, Step, Names, NamesUpTo, Reports,
        NotifyAll, PushesOf, Unheard;
      var info := dict.canids[frame.canId % 0x800];
      var n := info.nData;
      SlotsAreNamedApart(info);
      AllChained(info);
      PushesWithoutConflict(old(OutboxOf(registry)), Names(info), Reports(info, n), ds, clients, n);
      var pushes := PushesOf(old(registry.events), Names(info), Reports(info, n), ds, n);
      forall p | p in pushes
        ensures p.name in old(registry.events) && old(registry.events[p.name]) in info.property[..n]
        ensures old(registry.events[p.name]).Chained()
        ensures p.value == old(registry.events[p.name]).State().Report()
      {
        var j := PushHasSlot(old(registry.events), Names(info), Reports(info, n), ds, n, p);
        assert old(registry.events[p.name]) == info.property[j];
        assert info.property[j] == info.property[..n][j];
      }
    }

    /** A decoded frame and a name that its CAN-ID owns, whatever conflicts there are: the name is pushed
        exactly when its slot decided so and it is registered, with the value of the property its event
        stands for, and the event goes exactly when nobody listens to the push. */
    twostate lemma OwnedNamePushes(new frame: CanFrame, new timestamp: TimeVal, new clients: int -> int, new ret: int, new ds: seq<Decision>,
                                   new name: string)
      returns (k: nat)
      requires Valid()
      requires FrameParsed(dict, registry, frame, timestamp, clients, ret, ds) && ret == 0
      requires name in dict.properties && dict.properties[name].mycanid == dict.canids[frame.canId % 0x800]
      requires dict.properties[name].mycanid.kind != Send
      ensures var info := dict.canids[frame.canId % 0x800];
              info.Ready() && |ds| == info.nData && k < info.nData && info.property[k] == dict.properties[name]
      ensures dict.properties[name].Chained()
      ensures var pushes := ds[k].Push? && name in old(registry.events);
              && Under(registry.pushed, name) ==
                 Under(old(registry.pushed), name) + (if pushes then [dict.properties[name].State().Report()] else [])
              && (name in registry.events <==> name in old(registry.events) && !(pushes && clients(k) == 0))
    {
      hide Dictionary.Valid, Bound, CanidInfo.Ready, CanBit.Chained, CanBit.State, Step, Names, NamesUpTo, Reports,
        NotifyAll, Under;
      var info := dict.canids[frame.canId % 0x800];
      k := OwnedSlot(info, name);
      AllChained(info);
      OwnNamePushes(old(OutboxOf(registry)), Names(info), Reports(info, info.nData), ds, clients, info.nData, k);
    }

    /** What such a name reports then is what the bytes of the frame have to say, and the frame is an error
        for it exactly when one of its members has nothing to say. */
    twostate lemma NameTellsFrame(new frame: CanFrame, new timestamp: TimeVal, new clients: int -> int, new ret: int, new ds: seq<Decision>,
                                  new name: string)
      returns (k: nat)
      requires Valid()
      requires FrameParsed(dict, registry, frame, timestamp, clients, ret, ds) && ret == 0
      requires name in dict.properties && dict.properties[name].mycanid == dict.canids[frame.canId % 0x800]
      requires dict.properties[name].mycanid.kind != Send
      ensures var info := dict.canids[frame.canId % 0x800];
              info.Ready() && |ds| == info.nData && k < info.nData && info.property[k] == dict.properties[name]
      ensures dict.properties[name].Chained()
      ensures var c := dict.properties[name].State();
              && (ds[k].Error? <==> exists i :: 0 <= i < |c.defs| && Meaningless(c.defs[i], frame.data))
              && (!ds[k].Error? ==> FieldTells(c.defs[c.Shown()], frame.data, c.Report()))
    {
      hide Dictionary.Valid, Bound, CanidInfo.Ready, CanBit.Chained, CanBit.State, Step, Names, NamesUpTo, Reports,
        NotifyAll, Meaningless, FieldTells, CanValue2Host, Chain.Report;
      var info := dict.canids[frame.canId % 0x800];
      k := OwnedSlot(info, name);
      AllChained(info);
      HeadsAreNodes(info);
      FrameIsTold(old(info.property[k].State()), frame.data, timestamp, info.cycle, info.property[k].State(), ds[k]);
    }

    /** A frame with the CAN-ID of a registered event leads to the record of that event, and reaches the
        event's property in exactly one of its slots. */
    lemma EventIsReached(name: string, received: UInt32) returns (k: nat)
      requires Valid() && name in registry.events && registry.events[name].mycanid.canid == received % 0x800
      ensures var info := registry.events[name].mycanid;
              && dict.GetCanid(received % 0x800) == info && info.Ready()
              && k < info.nData && info.property[k] == registry.events[name]
              && (forall i :: 0 <= i < info.nData && Names(info)[i] == name ==> i == k)
    {
      hide Names, NamesUpTo, Dictionary.Valid, CanidInfo.Ready;
      k := dict.SlotOf(name);
      var info := registry.events[name].mycanid;
      dict.ReadyRecord(info.canid);
      AllChained(info);
      forall i: nat | i < info.nData && Names(info)[i] == name
        ensures i == k
      {
        dict.SlotIsIndexedIff(info, i);
      }
    }
  }
}
