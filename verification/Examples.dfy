/** Services that show where the code falls short: a name with two owners, and one name too many. */
module Examples {
  import opened Words
  import opened Codec
  import opened Values
  import opened Timing
  import opened Grouping
  import opened Thinning
  import opened CanInfo
  import opened CanidSearch
  import opened BindEvent
  import opened Subscriptions
  import opened Dispatch
  import opened Binding
  import opened Server
  import opened Clients
  import Loader
  import Runs
  import Transmit
  import Zones

  /** A byte at the end of the frame. */
  function ByteObject(name: string): seq<Loader.Field> {
    [Loader.Property(Some(name)), Loader.Pos(8), Loader.Len(8), Loader.Type(Some(UInt8))]
  }

  function ByteSignal(name: string): (d: Definition)
    ensures d.name == name
  {
    Definition(name, Layout(8, 0, 8), UInt8, None)
  }

  function ByteFrame(name: string): Loader.CanidObject {
    Loader.CanidObject(true, Some(100), 8, Some([ByteObject(name)]))
  }

  lemma ByteMeans(name: string, v: Loader.Locals)
    requires Loader.Means(ByteObject(name), ReadOnly, v)
    ensures Loader.DefinitionOf(v) == ByteSignal(name) && v.layout.Valid()
  {
    hide Loader.TableFor, Zones.Suffix;
    var o := ByteObject(name);
    assert o[0] in o && o[1] in o && o[2] in o && o[3] in o;
  }

  lemma ByteIsUsable(name: string)
    requires name != "*"
    ensures Loader.Usable(ByteObject(name), ReadOnly)
  {
    hide Loader.Means;
    forall v | Loader.Means(ByteObject(name), ReadOnly, v)
      ensures v.layout.Valid() && Loader.DefinitionOf(v).name == name
    {
      ByteMeans(name, v);
    }
  }

  lemma ByteDefs(name: string, defs: seq<Definition>)
    requires Loader.Describes([ByteObject(name)], ReadOnly, defs)
    ensures defs == [ByteSignal(name)] && NamesOf(defs) == [name]
  {
    hide Loader.Means;
    assert Loader.Describes1([ByteObject(name)][0], ReadOnly, defs[0]);
    var v :| Loader.Means(ByteObject(name), ReadOnly, v) && defs[0] == Loader.DefinitionOf(v);
    ByteMeans(name, v);
  }

  lemma OneGroup(d: Definition, foreign: set<string>)
    ensures Group([d], foreign) == [[d]]
  {
    assert [d][..0] == [];
    assert Group([d][..0], foreign) == [];
  }

  lemma OneExtends(support: seq<string>, known: set<string>, name: string)
    ensures Extend(support, known, [name]) == if name in known then support else Appended(support, name)
  {
    assert [name][..0] == [];
    assert Extend(support, known, [name][..0]) == support;
  }

  lemma UntouchedState(h: CanBit, d: Definition)
    requires Untouched(h) && h.Defs() == [d]
    ensures h.State() == Runs.Unread([d])
  {
    assert h.CurValues() == [0];
  }

  /** The index after one more name. */
  lemma OneMoreName(index: map<string, CanBit>, before: map<string, CanBit>, slots: seq<CanBit>, d: Definition)
    requires Indexes(index, before, slots, [[d]])
    ensures index.Keys == before.Keys + {d.name}
  {
    assert Find([[d]][1..], "") == 0;
    forall n
      ensures n in index <==> n in before || n == d.name
    {
      IndexedHead(index, before, slots, [[d]], n);
      IndexedSlot(index, before, slots, [[d]], 0);
    }
  }

  /** Load a CAN-ID with one byte signal. */
  method LoadByte(s: Service, id: UInt32, name: string, ghost log: Log) returns (ghost info: CanidInfo, ghost log': Log)
    requires Logged(s, log) && id < 0x800 && id !in s.dict.canids && name != "*"
    modifies s.dict
    ensures Logged(s, log') && fresh(info) && s.dict.canids == old(s.dict.canids)[id := info]
    ensures info.canid == id && info.kind == ReadOnly && info.Ready() && info.nData == 1 && info.property[0].def == ByteSignal(name)
    ensures s.dict.properties.Keys == old(s.dict.properties).Keys + {name}
    ensures s.dict.support == if name in old(s.dict.properties) then old(s.dict.support) else Appended(old(s.dict.support), name)
    ensures log'.commands == log.commands + [Command.Define(id, [name])]
    ensures log'.lives == log.lives + map[Slot(id, 0) := Life([Runs.Unread([ByteSignal(name)])], [], [])]
  {
    hide Logged, Loader.Usable, Loader.Describes, Realises, Indexes, CanidInfo.Ready, Untouched, Service.TxOf, Service.View,
      States, StatesUpTo, Born, Transmit.Initial, Transmit.Sound, CanBit.Chained, CanBit.State, Group, Extend;
    assert id % 0x800 == id;
    ByteIsUsable(name);
    var err;
    ghost var defs, loaded;
    err, loaded, defs, log' := Server.Load(s, id, ByteFrame(name), ReadOnly, log);
    info := loaded;
    ghost var known := old(s.dict.properties);
    ByteDefs(name, defs);
    OneGroup(ByteSignal(name), known.Keys);
    OneExtends(old(s.dict.support), known.Keys, name);
    OneMoreName(s.dict.properties, known, info.property, ByteSignal(name));
    ByteIsLoaded(info, name);
    OneBorn(id, States(info));
  }

  lemma ByteIsLoaded(info: CanidInfo, name: string)
    requires Realises(info, [[ByteSignal(name)]]) && info.Ready() && info.nData == 1
    ensures |info.property| > 0 && info.property[0].def == ByteSignal(name)
    ensures States(info) == [Runs.Unread([ByteSignal(name)])]
  {
    hide Untouched, CanidInfo.Ready, CanBit.Chained, CanBit.State, StatesUpTo;
    HeadFacts(info, 0);
    RealisesHead(info, [[ByteSignal(name)]], 0);
    UntouchedState(info.property[0], ByteSignal(name));
  }

  lemma OneBorn(id: UInt32, cs: seq<Chain>)
    requires |cs| == 1
    ensures Born(id, cs) == map[Slot(id, 0) := Life([cs[0]], [], [])]
  {
  }

  // ---------------------------------------------------------------------------------------
  // A name with two owners
  // ---------------------------------------------------------------------------------------

  const AT_64: Payload := [0, 0, 0, 0, 0, 0, 0, 64]

  lemma ByteAt64(name: string)
    ensures Raw(ByteSignal(name), CanValue2Host(AT_64)) == 64
  {
    hide CanValue2Host, Codec.Load;
    var w := CanValue2Host(AT_64);
    assert Pow2(8) == 256 by { Pow2Values(); }
    forall i: nat | i < 8
      ensures w[0..8][i] == Bits(64, 8)[i]
    {
      HostBit(AT_64, i);
    }
    assert w[0..8] == Bits(64, 8);
    FieldOf(w, Layout(8, 0, 8), 64);
  }

  /** The first frame on a byte signal that carries 64 is pushed. */
  lemma FirstByteIsPushed(name: string, t: TimeVal, cycle: UInt32, c: Chain, r: Decision)
    requires Runs.Unread([ByteSignal(name)]).Valid()
    requires Step(Runs.Unread([ByteSignal(name)]), CanValue2Host(AT_64), t, cycle, c, r)
    ensures r.Push? && c.Valid() && c.Report() == Number(64)
  {
    hide CanValue2Host, Codec.Load, ElapsMs;
    var u := Runs.Unread([ByteSignal(name)]);
    ByteAt64(name);
    StepKeepsValid(u, CanValue2Host(AT_64), t, cycle, c, r);
    assert u.values[0] == 0 && u.defs[0] == ByteSignal(name);
  }

  /** A frame with 64 on a CAN-ID whose only slot is such a signal. */
  twostate lemma BytePushes(s: Service, new t: TimeVal, new clients: int -> int, new ret: int, new ds: seq<Decision>, new name: string)
    requires 2 in s.dict.canids && FrameParsed(s.dict, s.registry, CanFrame(2, 8, AT_64), t, clients, ret, ds)
    requires var info := s.dict.canids[2];
             && info in old(s.dict.canids.Values) && info.kind == ReadOnly && old(info.Ready()) && old(info.nData) == 1
             && old(info.property[0].State()) == Runs.Unread([ByteSignal(name)]) && info.property[0].def.name == name
    requires name in old(s.registry.events) && clients(0) > 0
    ensures ret == 0 && s.registry.events == old(s.registry.events)
    ensures s.registry.pushed == old(s.registry.pushed) + [Pushed(name, Number(64))]
  {
    hide CanBit.State, CanBit.Chained, CanidInfo.Ready, Step, CanValue2Host;
    var info := s.dict.canids[2];
    assert ret == 0;
    AllChained(info);
    StateWasValid(info);
    FirstByteIsPushed(name, t, info.cycle, info.property[0].State(), ds[0]);
    var names, values := Names(info), Reports(info, 1);
    assert names[0] == name && values[0] == Number(64);
    assert NotifyAll(old(OutboxOf(s.registry)), names, values, ds, clients, 0) == old(OutboxOf(s.registry));
  }

  twostate lemma StateWasValid(new info: CanidInfo)
    requires old(allocated(info)) && old(info.Ready()) && old(info.nData) == 1
    ensures |info.property| > 0 && old(info.property[0].Chained()) && old(info.property[0].State()).Valid()
  {
    hide CanBit.State, CanBit.Chained;
    assert old(info.property[0].Chained());
  }

  /** The name belongs to the CAN-ID that defined it first. */
  lemma FirstOwns(s: Service, log: Log, name: string, first: CanidInfo, other: CanidInfo)
    requires Logged(s, log) && |log.commands| >= 2
    requires log.commands[0] == Command.Define(1, [name])
    requires 1 in s.dict.canids && s.dict.canids[1] == first && 2 in s.dict.canids && s.dict.canids[2] == other
    requires first.Ready() && first.nData == 1 && first.property[0].def.name == name
    requires other.Ready() && other.nData == 1 && other.property[0].def.name == name
    requires name in s.registry.events
    ensures s.registry.events[name] == first.property[0] != other.property[0]
  {
    hide Dictionary.Valid, Sends, Lives, Knows, Next, CanidInfo.Ready;
    assert FirstDefines(log.commands, 0, name);
    FirstDefinerOwns(log.states, log.commands, |log.commands|, name);
    assert s.View().owner[name] == 1;
    s.dict.ReadyRecord(1);
    s.dict.ReadyRecord(2);
    HeadFacts(first, 0);
    HeadFacts(other, 0);
    s.PushIsOwnIff(first, 0);
    s.PushIsOwnIff(other, 0);
  }

  /** What the log says of a byte signal that has never been decoded. */
  lemma StillUnread(s: Service, log: Log, id: UInt32, name: string)
    requires Logged(s, log) && Slot(id, 0) in log.lives
    requires log.lives[Slot(id, 0)] == Life([Runs.Unread([ByteSignal(name)])], [], [])
    ensures id in s.dict.canids && s.dict.canids[id].Ready() && s.dict.canids[id].nData > 0 && |s.dict.canids[id].property| > 0
    ensures s.dict.canids[id].property[0].Chained() && s.dict.canids[id].property[0].State() == Runs.Unread([ByteSignal(name)])
    ensures s.dict.canids[id].property[0].State().Report() == Number(0)
  {
    hide Logged, CanBit.State, CanBit.Chained, CanidInfo.Ready;
    LifeOf(s, log, id, 0);
    HeadFacts(s.dict.canids[id], 0);
  }

  /** One CAN-ID defines "speed". */
  method OneSpeed() returns (s: Service, ghost log: Log)
    ensures fresh(s) && fresh(s.dict) && fresh(s.registry) && fresh(s.registry.subscribedCanids) && fresh(s.socket)
    ensures Logged(s, log) && s.dict.canids.Keys == {1} && "speed" in s.dict.properties
    ensures log.commands == [Command.Define(1, ["speed"])]
    ensures log.lives == map[Slot(1, 0) := Life([Runs.Unread([ByteSignal("speed")])], [], [])]
    ensures IsByte(s.dict.canids[1], "speed")
  {
    hide Logged, CanidInfo.Ready, ByteSignal, Runs.Unread;
    ghost var first;
    s, log := Start();
    first, log := LoadByte(s, 1, "speed", log);
    HeadFacts(first, 0);
  }

  /** Two CAN-IDs define it. */
  method TwoSpeeds() returns (s: Service, ghost log: Log)
    ensures fresh(s) && fresh(s.dict) && fresh(s.registry) && fresh(s.registry.subscribedCanids) && fresh(s.socket)
    ensures Logged(s, log) && s.dict.canids.Keys == {1, 2} && "speed" in s.dict.properties
    ensures log.commands == [Command.Define(1, ["speed"]), Command.Define(2, ["speed"])]
    ensures log.lives == map[Slot(1, 0) := Life([Runs.Unread([ByteSignal("speed")])], [], []),
                             Slot(2, 0) := Life([Runs.Unread([ByteSignal("speed")])], [], [])]
    ensures IsByte(s.dict.canids[1], "speed") && IsByte(s.dict.canids[2], "speed")
  {
    hide Logged, CanidInfo.Ready, ByteSignal, Runs.Unread;
    ghost var second;
    s, log := OneSpeed();
    second, log := LoadByte(s, 2, "speed", log);
    HeadFacts(second, 0);
  }

  ghost predicate IsByte(info: CanidInfo, name: string)
    reads info, info.property
  {
    info.kind == ReadOnly && info.nData == 1 && |info.property| > 0 && info.property[0].def == ByteSignal(name)
  }

  /** A client has subscribed to it. */
  method SubscribedSpeed() returns (s: Service, ghost log: Log)
    ensures fresh(s) && fresh(s.dict) && fresh(s.registry) && fresh(s.registry.subscribedCanids) && fresh(s.socket)
    ensures HasTwoSpeeds(s, log)
  {
    hide Logged, Register, Requested, ByteSignal, Runs.Unread;
    s, log := TwoSpeeds();
    ghost var before := s.registry.events;
    var err, reply;
    err, reply, log := Server.Subscribe(s, "speed", AGREES, true, log);
    IsRequested(s.dict.support, "speed");
    RegisterHas(before, s.dict.properties, Requested(s.dict.support, "speed"), AGREES, "speed");
  }

  lemma IsRequested(support: seq<string>, name: string)
    requires name != "*"
    ensures name in Requested(support, name)
  {
  }

  /** As SubscribedSpeed leaves the service. */
  ghost predicate HasTwoSpeeds(s: Service, log: Log)
    reads *
  {
    && Logged(s, log) && 1 in s.dict.canids && 2 in s.dict.canids
    && |log.commands| == 3 && log.commands[0] == Command.Define(1, ["speed"])
    && log.lives == map[Slot(1, 0) := Life([Runs.Unread([ByteSignal("speed")])], [], []),
                        Slot(2, 0) := Life([Runs.Unread([ByteSignal("speed")])], [], [])]
    && "speed" in s.registry.events && IsByte(s.dict.canids[1], "speed") && IsByte(s.dict.canids[2], "speed")
  }

  /** A frame with 64 arrives on the second CAN-ID. */
  method SpeedArrives(s: Service, ghost log: Log) returns (ret: int, ghost log': Log)
    requires HasTwoSpeeds(s, log)
    modifies s.dict.RecordOf(2)`frameId, s.dict.RecordOf(2)`frameDlc, s.dict.DataOf(2)
    modifies s.dict.NodesOf(2)`curValue, s.dict.NodesOf(2)`updatetime, s.dict.NodesOf(2)`applyinfo
    modifies s.registry`events, s.registry`pushed
    ensures Logged(s, log') && ret == 0 && s.registry.events == old(s.registry.events)
    ensures log.commands <= log'.commands && Slot(1, 0) in log'.lives && log'.lives[Slot(1, 0)] == log.lives[Slot(1, 0)]
    ensures s.registry.pushed == old(s.registry.pushed) + [Pushed("speed", Number(64))]
  {
    hide Logged, CanidInfo.Ready, CanBit.Chained, CanBit.State, FrameParsed, TellAll, Since, Clients.Registered, States,
      ByteSignal, Runs.Unread;
    StillUnread(s, log, 2, "speed");
    assert 2 % 0x800 == 2;
    var clients := (_: int) => 1;
    ghost var dropped, ds;
    ret, dropped, ds, log' := Server.Receive(s, CanFrame(2, 8, AT_64), EPOCH, clients, log);
    BytePushes(s, EPOCH, clients, ret, ds, "speed");
  }

  /** The service when a frame with 64 has arrived on the second CAN-ID: 64 has been pushed under the name of
      an event that stands for the property of the first CAN-ID, which reports 0. */
  method ConflictingNames(s: Service, ghost log: Log) returns (ret: int, ghost log': Log)
    requires HasTwoSpeeds(s, log)
    modifies s.dict.RecordOf(2)`frameId, s.dict.RecordOf(2)`frameDlc, s.dict.DataOf(2)
    modifies s.dict.NodesOf(2)`curValue, s.dict.NodesOf(2)`updatetime, s.dict.NodesOf(2)`applyinfo
    modifies s.registry`events, s.registry`pushed
    ensures Logged(s, log') && ret == 0 && 1 in s.dict.canids && 2 in s.dict.canids && "speed" in s.registry.events
    ensures IsByte(s.dict.canids[1], "speed") && IsByte(s.dict.canids[2], "speed")
    ensures s.registry.events["speed"] == s.dict.canids[1].property[0] != s.dict.canids[2].property[0]
    ensures s.registry.events["speed"].Chained() && s.registry.events["speed"].State().Report() == Number(0)
    ensures s.registry.pushed == old(s.registry.pushed) + [Pushed("speed", Number(64))]
  {
    hide Logged, CanidInfo.Ready, CanBit.Chained, CanBit.State, ByteSignal, Runs.Unread;
    ret, log' := SpeedArrives(s, log);
    StillUnread(s, log', 1, "speed");
    OnlyReady(s, log');
    FirstOwns(s, log', "speed", s.dict.canids[1], s.dict.canids[2]);
  }

  lemma OnlyReady(s: Service, log: Log)
    requires Logged(s, log)
    ensures forall id :: id in s.dict.canids ==> s.dict.canids[id].Ready()
  {
    hide Dictionary.Valid, Sends, Lives, Knows, Traced, CanidInfo.Ready;
    forall id | id in s.dict.canids
      ensures s.dict.canids[id].Ready()
    {
      s.dict.ReadyRecord(id);
    }
  }

  // ---------------------------------------------------------------------------------------
  // One name too many
  // ---------------------------------------------------------------------------------------

  /** `n` CAN-IDs with one name each. */
  method LoadMany(n: nat) returns (s: Service, ghost log: Log)
    requires n <= 0x800
    ensures fresh(s) && fresh(s.dict) && fresh(s.registry) && fresh(s.registry.subscribedCanids) && fresh(s.socket)
    ensures Logged(s, log) && s.registry.events == map[] && |s.dict.properties| == n
  {
    hide Logged, Numbered, NameOf, CanidInfo.Ready;
    s, log := Start();
    ghost var info;
    NumberedNone();
    for k := 0 to n
      invariant fresh(s) && fresh(s.dict) && fresh(s.registry) && fresh(s.registry.subscribedCanids) && fresh(s.socket)
      invariant Logged(s, log) && s.registry.events == map[]
      invariant s.dict.properties.Keys == Numbered(k).Keys
      invariant forall id :: id in s.dict.canids ==> id < k
    {
      NumberedNext(k);
      info, log := LoadByte(s, k, NameOf(k), log);
    }
    NumberedSize(n);
    assert |s.dict.properties| == |s.dict.properties.Keys| && |Numbered(n)| == |Numbered(n).Keys|;
  }

  lemma NumberedNone()
    ensures Numbered(0) == map[]
  {
  }

  lemma NumberedNext(k: nat)
    requires k < 0x800
    ensures Numbered(k + 1).Keys == Numbered(k).Keys + {NameOf(k)} && NameOf(k) != "*"
  {
  }

  /** With more than 512 names a service is reachable in which subscribing to "*" goes well for all that it
      asks for, and still leaves indexed names without event. */
  method StarMisses(n: nat) returns (s: Service, ghost log: Log)
    requires SUPPORT_PROPERTY_LIMIT < n <= 0x800
    ensures Logged(s, log) && |s.dict.properties| == n && s.registry.events.Keys < s.dict.properties.Keys
  {
    hide Register, Requested, Traced, Sends, Lives, Knows, Dictionary.Valid;
    s, log := LoadMany(n);
    StarIsCompleteIff(s, AGREES);
    var err, reply;
    err, reply, log := Server.Subscribe(s, "*", AGREES, true, log);
  }
}
