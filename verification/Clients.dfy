/** What clients have been told about a property, by the reply to a subscription or by a push, and that it
    is what the property reports (src/af-canivi-binding.c, `subscribe_signal`, `notify_property_changed`). */
module Clients {
  import opened Words
  import opened Codec
  import opened Values
  import opened Timing
  import opened Thinning
  import opened CanInfo
  import opened CanidSearch
  import opened BindEvent
  import opened Subscriptions
  import opened Dispatch
  import opened Binding
  import Runs
  import Transmit

  /** No slot but the indexed one carries the name. */
  ghost predicate Alone(s: Service, name: string)
    reads *
  {
    && name in s.dict.properties
    && forall id, i :: id in s.dict.canids && 0 <= i < s.dict.canids[id].nData && i < |s.dict.canids[id].property| ==>
         s.dict.canids[id].property[i].def.name == name ==> s.dict.canids[id].property[i] == s.dict.properties[name]
  }

  /** `value` is right for a property without name conflict that never changes without a push. */
  ghost predicate Right(s: Service, name: string, value: Json)
    reads *
  {
    && name in s.dict.properties
    && var h := s.dict.properties[name];
       && h.Chained() && h.mycanid != null
       && (Alone(s, name) && Runs.Lossless(h.State(), h.mycanid.cycle) ==> value == h.State().Report())
  }

  /** Of every registered event that clients have been told about they know the right value. */
  ghost predicate Knows(s: Service, told: map<string, Json>)
    reads *
  {
    forall name :: name in told ==> name in s.registry.events && Right(s, name, told[name])
  }

  /** The slots have kept their names. */
  twostate predicate KeepsNames(s: Service)
    reads *
  {
    forall id :: id in old(s.dict.canids) ==>
      && id in s.dict.canids && s.dict.canids[id] == old(s.dict.canids[id])
      && s.dict.canids[id].nData == old(s.dict.canids[id].nData)
      && forall i :: 0 <= i < s.dict.canids[id].nData && i < |s.dict.canids[id].property| ==>
           s.dict.canids[id].property[i].def == old(s.dict.canids[id].property[i].def)
  }

  /** Neither the dictionaries nor anything in them was touched. */
  twostate predicate NoneTouched(s: Service)
    reads *
  {
    && s.dict.canids == old(s.dict.canids) && s.dict.properties == old(s.dict.properties) && s.dict.support == old(s.dict.support)
    && (forall r :: r in old(s.dict.canids.Values) ==>
          s.dict.SameRecord(r) && r.data[..] == old(r.data[..]) && forall q :: q in old(r.nodes) ==> Same(q))
    && (forall p :: p in old(s.dict.properties.Values) ==> Same(p) && forall q :: q in old(p.chain) ==> Same(q))
  }

  /** The dictionaries stay valid, and slots keep their names. */
  twostate lemma NoneTouchedKeeps(s: Service)
    requires old(s.dict.Valid()) && NoneTouched(s)
    ensures s.dict.Valid() && KeepsNames(s)
    ensures forall r :: r in old(s.dict.canids.Values) ==> s.OthersTraffic(r)
  {
    hide Dictionary.Valid, Service.OthersTraffic, CanidInfo.Ready;
    s.dict.StaysValid();
    s.OthersTx({});
    forall id | id in old(s.dict.canids)
      ensures s.dict.canids[id].nData == old(s.dict.canids[id].nData)
      ensures forall i :: 0 <= i < s.dict.canids[id].nData && i < |s.dict.canids[id].property| ==>
                s.dict.canids[id].property[i].def == old(s.dict.canids[id].property[i].def)
    {
      var r := s.dict.canids[id];
      assert r in old(s.dict.canids.Values) && s.dict.SameRecord(r);
      SlotsAreNodes(s, id);
    }
  }

  twostate lemma SlotsAreNodes(s: Service, new id: UInt32)
    requires old(s.dict.Valid()) && id in old(s.dict.canids)
    ensures var r := old(s.dict.canids[id]);
            forall i :: 0 <= i < old(r.nData) ==> i < |r.property| && r.property[i] in old(r.nodes)
  {
    hide Dictionary.Agrees, Dictionary.OwnsSlots, Supports, Dictionary.OwnFrames;
    assert old(s.dict.Listed(s.dict.canids[id]));
  }

  /** The indexed property is the same and in the same state. */
  twostate predicate KeepsState(s: Service, new name: string)
    reads *
  {
    && name in old(s.dict.properties) && name in s.dict.properties && s.dict.properties[name] == old(s.dict.properties[name])
    && var p := s.dict.properties[name];
       && old(p.Chained()) && p.Chained() && p.State() == old(p.State())
       && p.mycanid != null && p.mycanid == old(p.mycanid)
  }

  twostate lemma StillAlone(s: Service, new name: string)
    requires KeepsNames(s) && name in old(s.dict.properties) && Alone(s, name)
    requires s.dict.properties[name] == old(s.dict.properties[name])
    ensures old(Alone(s, name))
  {
  }

  twostate lemma StillRight(s: Service, new name: string, new value: Json)
    requires old(Right(s, name, value)) && KeepsState(s, name) && KeepsNames(s)
    ensures Right(s, name, value)
  {
    hide Alone, KeepsNames, CanBit.State, CanBit.Chained, Runs.Lossless;
    if Alone(s, name) {
      StillAlone(s, name);
    }
  }

  /** Where an indexed property was. */
  twostate lemma OldSlotOf(s: Service, new name: string) returns (r: CanidInfo, i: nat)
    requires old(s.dict.Valid()) && name in old(s.dict.properties)
    ensures r == old(s.dict.properties[name].mycanid) && r in old(s.dict.canids.Values) && old(r.Ready())
    ensures r.canid in old(s.dict.canids) && old(s.dict.canids)[r.canid] == r
    ensures i < old(r.nData) && i < |r.property| && r.property[i] == old(s.dict.properties[name])
  {
    hide Dictionary.OwnsSlots, Supports, Dictionary.OwnFrames, CanidInfo.Ready;
    assert old(s.dict.Agrees(name));
    var p := old(s.dict.properties[name]);
    r := old(p.mycanid);
    assert old(s.dict.Listed(r));
    var k :| 0 <= k < old(r.nData) && k < |r.property| && r.property[k] == p;
    i := k;
  }

  twostate lemma TrafficKeepsState(s: Service, new name: string)
    requires old(s.dict.Valid()) && name in old(s.dict.properties) && name in s.dict.properties
    requires s.dict.properties[name] == old(s.dict.properties[name])
    requires old(s.dict.properties[name].mycanid) in old(s.dict.canids.Values) ==>
               s.OthersTraffic(old(s.dict.properties[name].mycanid))
    ensures KeepsState(s, name)
  {
    hide Dictionary.Valid, CanBit.State, CanBit.Chained, CanidInfo.Ready, Service.TxOf;
    var r, i := OldSlotOf(s, name);
    OldHeads(r, i);
    HeadFacts(r, i);
  }

  twostate lemma OldHeads(new r: CanidInfo, new i: nat)
    requires old(allocated(r)) && old(r.Ready()) && i < old(r.nData)
    ensures i < |r.property| && old(r.property[i].Chained()) && old(r.property[i].mycanid) == r
  {
    hide CanBit.Chained;
  }

  twostate lemma SameKeepsState(s: Service, new name: string)
    requires old(s.dict.Valid()) && name in old(s.dict.properties) && name in s.dict.properties
    requires s.dict.properties[name] == old(s.dict.properties[name])
    requires var p := old(s.dict.properties[name]); Same(p) && forall q :: q in old(p.chain) ==> Same(q)
    ensures KeepsState(s, name)
  {
    hide Dictionary.Valid, CanBit.State, CanBit.Chained, CanidInfo.Ready;
    var r, i := OldSlotOf(s, name);
    OldHeads(r, i);
    ChainStill(s.dict.properties[name]);
  }

  // ---------------------------------------------------------------------------------------
  // What each verb tells
  // ---------------------------------------------------------------------------------------

  /** Where no state has changed, what was right still is. */
  twostate lemma KnowsOn(s: Service, new told: map<string, Json>)
    requires old(Knows(s, told)) && KeepsNames(s)
    requires forall name :: name in told ==> name in s.registry.events && KeepsState(s, name)
    ensures Knows(s, told)
  {
    hide Right, KeepsNames, KeepsState;
    forall name | name in told
      ensures Right(s, name, told[name])
    {
      StillRight(s, name, told[name]);
    }
  }

  /** While only traffic passes, what was right still is. */
  twostate lemma KnowsStill(s: Service, new told: map<string, Json>)
    requires old(s.dict.Valid()) && old(Knows(s, told)) && KeepsNames(s)
    requires forall n :: n in old(s.dict.properties) ==> n in s.dict.properties && s.dict.properties[n] == old(s.dict.properties[n])
    requires forall n :: n in old(s.registry.events) ==> n in s.registry.events
    requires forall r :: r in old(s.dict.canids.Values) ==> s.OthersTraffic(r)
    ensures Knows(s, told)
  {
    hide Dictionary.Valid, Right, KeepsNames, KeepsState, Service.OthersTraffic;
    forall name | name in told
      ensures KeepsState(s, name)
    {
      OldRight(s, name, told[name]);
      TrafficKeepsState(s, name);
    }
    KnowsOn(s, told);
  }

  /** The same when nothing was touched. */
  twostate lemma KnowsUntouched(s: Service, new told: map<string, Json>)
    requires old(s.dict.Valid()) && old(Knows(s, told)) && NoneTouched(s) && s.registry.events == old(s.registry.events)
    ensures Knows(s, told)
  {
    hide Dictionary.Valid, Knows, KeepsNames, Service.OthersTraffic;
    NoneTouchedKeeps(s);
    KnowsStill(s, told);
  }

  /** The reply of a subscription is right when it is given. */
  lemma KnowsReply(s: Service, shown: map<string, Json>, names: set<string>, d: Daemon)
    requires s.Presents(shown) && s.Bound()
    ensures Knows(s, Replies(names, s.registry.events.Keys, shown, d))
  {
    hide CanBit.State, CanBit.Chained, Alone, Runs.Lossless;
  }

  lemma KnowsBoth(s: Service, a: map<string, Json>, b: map<string, Json>)
    requires Knows(s, a) && Knows(s, b)
    ensures Knows(s, a + b)
  {
    hide Right;
  }

  /** A subscription adds what its reply says. */
  twostate lemma KnowsMore(s: Service, new told: map<string, Json>, new shown: map<string, Json>, new names: set<string>, new d: Daemon)
    requires old(s.dict.Valid()) && old(Knows(s, told)) && KeepsNames(s)
    requires s.dict.properties == old(s.dict.properties) && s.Presents(shown) && s.Bound()
    requires forall n :: n in old(s.registry.events) ==> n in s.registry.events
    requires forall r :: r in old(s.dict.canids.Values) ==> s.OthersTraffic(r)
    ensures Knows(s, told) && Knows(s, told + Replies(names, s.registry.events.Keys, shown, d)) && Knows(s, told + map[])
  {
    hide Dictionary.Valid, Knows, KeepsNames, Service.OthersTraffic, Service.Presents, Replies;
    KnowsStill(s, told);
    KnowsReply(s, shown, names, d);
    KnowsBoth(s, told, Replies(names, s.registry.events.Keys, shown, d));
    assert told + map[] == told;
  }

  /** A set ends what is known of its name, and of no other. */
  twostate lemma KnowsSet(s: Service, new told: map<string, Json>, new name: string, new v: UInt32, new info: CanidInfo?, new k: nat)
    requires old(s.dict.Valid()) && old(Knows(s, told)) && KeepsNames(s)
    requires s.dict.properties == old(s.dict.properties) && s.registry.events == old(s.registry.events)
    requires s.SetReaches(name, v, info, k)
    requires forall r :: r in old(s.dict.canids.Values) && r != info ==> s.OthersTraffic(r)
    ensures Knows(s, told - {name})
  {
    hide Right, KeepsNames, KeepsState, Service.OthersTraffic, Service.SetReaches, Dictionary.Valid;
    forall n | n in told && n != name
      ensures Right(s, n, told[n])
    {
      OldRight(s, n, told[n]);
      if old(s.dict.properties[n].mycanid) == info {
        OtherSlotKeepsState(s, n, name, v, info, k);
      } else {
        TrafficKeepsState(s, n);
      }
      StillRight(s, n, told[n]);
    }
  }

  twostate lemma OldRight(s: Service, new name: string, new value: Json)
    requires old(Right(s, name, value))
    ensures name in old(s.dict.properties)
  {
  }

  twostate lemma OtherSlotKeepsState(s: Service, new n: string, new name: string, new v: UInt32, new info: CanidInfo?, new k: nat)
    requires old(s.dict.Valid()) && s.dict.properties == old(s.dict.properties) && n in old(s.dict.properties) && n != name
    requires s.SetReaches(name, v, info, k) && old(s.dict.properties[n].mycanid) == info
    ensures KeepsState(s, n)
  {
    hide Dictionary.Valid, CanBit.State, CanBit.Chained, CanidInfo.Ready, Service.TxOf, Transmit.Apply;
    var r, i := OldSlotOf(s, n);
    OldNames(s, n);
    OldHeads(r, i);
    HeadFacts(r, i);
  }

  /** An indexed property carries its name. */
  twostate lemma OldNames(s: Service, new n: string)
    requires old(s.dict.Valid()) && n in old(s.dict.properties)
    ensures old(s.dict.properties[n].def.name) == n
  {
    hide Dictionary.OwnsSlots, Supports, Dictionary.OwnFrames, Dictionary.Listed;
    assert old(s.dict.Agrees(n));
  }

  // ---------------------------------------------------------------------------------------
  // What a frame tells
  // ---------------------------------------------------------------------------------------

  ghost function Registered(told: map<string, Json>, events: set<string>): map<string, Json> {
    map n | n in told && n in events :: told[n]
  }

  /** What has been pushed since. */
  ghost function Since(before: seq<Pushed>, after: seq<Pushed>): seq<Pushed> {
    if |before| <= |after| then after[|before|..] else []
  }

  lemma UnderSince(before: seq<Pushed>, after: seq<Pushed>, name: string, more: seq<Json>)
    requires before <= after && Under(after, name) == Under(before, name) + more
    ensures Under(Since(before, after), name) == more
  {
    UnderSuffix(before, after[|before|..], name);
    assert before + after[|before|..] == after;
    var u, w := Under(before, name), Under(Since(before, after), name);
    assert (u + w)[|u|..] == w && (u + more)[|u|..] == more;
  }

  twostate lemma FrameAppends(s: Service, new frame: CanFrame, new timestamp: TimeVal, new clients: int -> int, new ret: int,
                              new ds: seq<Decision>)
    requires FrameParsed(s.dict, s.registry, frame, timestamp, clients, ret, ds)
    ensures old(s.registry.pushed) <= s.registry.pushed
  {
    hide Step, NotifyAll, Names, Reports, CanidInfo.Ready, CanBit.State, CanBit.Chained, CanValue2Host;
    var id := frame.canId % 0x800;
    if ret == 0 && s.dict.canids[id].kind != Send {
      var info := s.dict.canids[id];
      NotifyAllAppends(old(OutboxOf(s.registry)), Names(info), Reports(info, info.nData), ds, clients, info.nData);
    }
  }

  /** A name that belongs to the frame's CAN-ID: what is pushed is what it reports now, and without a push it
      reports what it reported before. */
  twostate lemma OwnedNameTells(s: Service, new frame: CanFrame, new timestamp: TimeVal, new clients: int -> int, new ret: int,
                                new ds: seq<Decision>, new told: map<string, Json>, new name: string)
    requires s.Valid() && s.dict.properties == old(s.dict.properties) && KeepsNames(s) && old(Knows(s, told))
    requires FrameParsed(s.dict, s.registry, frame, timestamp, clients, ret, ds) && ret == 0
    requires s.dict.canids[frame.canId % 0x800].kind != Send
    requires name in s.registry.events && s.dict.properties[name].mycanid == s.dict.canids[frame.canId % 0x800]
    requires name in TellAll(told, Since(old(s.registry.pushed), s.registry.pushed))
    ensures Right(s, name, TellAll(told, Since(old(s.registry.pushed), s.registry.pushed))[name])
  {
    hide Dictionary.Valid, CanidInfo.Ready, CanBit.State, CanBit.Chained, Step, Under, TellAll, Since, KeepsNames, Alone,
      Runs.Lossless, Chain.Report, CanValue2Host, NotifyAll, Names, Reports;
    var info := s.dict.canids[frame.canId % 0x800];
    var k := s.OwnedNamePushes(frame, timestamp, clients, ret, ds, name);
    var pushes := ds[k].Push? && name in old(s.registry.events);
    var h := s.dict.properties[name];
    FrameAppends(s, frame, timestamp, clients, ret, ds);
    UnderSince(old(s.registry.pushed), s.registry.pushed, name, if pushes then [h.State().Report()] else []);
    TellAllUnder(told, Since(old(s.registry.pushed), s.registry.pushed), name);
    if !pushes && Alone(s, name) && Runs.Lossless(h.State(), info.cycle) {
      StillAlone(s, name);
      OldHeads(info, k);
      assert old(Right(s, name, told[name]));
      StateIsValid(info, k);
      Runs.LosslessStep(old(h.State()), Runs.Frame(CanValue2Host(frame.data), timestamp), info.cycle, h.State(), ds[k]);
    }
  }

  twostate lemma StateIsValid(new r: CanidInfo, new i: nat)
    requires old(allocated(r)) && old(r.Ready()) && i < old(r.nData) && r.Ready() && i < r.nData
    ensures old(r.property[i].Chained()) && old(r.property[i].State()).Valid()
    ensures r.property[i].Chained() && r.property[i].State().Valid()
  {
    hide CanBit.State, CanBit.Chained;
    assert old(r.property[i].Chained());
    assert r.property[i].Chained();
  }

  /** A name that no slot of the frame's CAN-ID carries is not pushed. */
  twostate lemma OtherNameIsNotTold(s: Service, new frame: CanFrame, new timestamp: TimeVal, new clients: int -> int, new ret: int,
                                    new ds: seq<Decision>, new name: string)
    requires s.Valid() && FrameParsed(s.dict, s.registry, frame, timestamp, clients, ret, ds) && ret == 0
    requires s.dict.canids[frame.canId % 0x800].kind != Send
    requires Alone(s, name) && s.dict.properties[name].mycanid != s.dict.canids[frame.canId % 0x800]
    ensures Under(Since(old(s.registry.pushed), s.registry.pushed), name) == []
  {
    hide Dictionary.Valid, CanBit.State, CanBit.Chained, Step, Under, Since, CanValue2Host, NotifyAll, Reports, NamesUpTo;
    var info := s.dict.canids[frame.canId % 0x800];
    s.dict.ReadyRecord(frame.canId % 0x800);
    assert name !in Names(info)[..info.nData];
    FrameAppends(s, frame, timestamp, clients, ret, ds);
    OtherNameIsQuiet(old(OutboxOf(s.registry)), Names(info), Reports(info, info.nData), ds, clients, info.nData, name);
    UnderSince(old(s.registry.pushed), s.registry.pushed, name, []);
  }

  /** After a frame the properties of its own CAN-ID apart, every state is what it was. */
  twostate lemma OtherNameTells(s: Service, new frame: CanFrame, new timestamp: TimeVal, new clients: int -> int, new ret: int,
                                new ds: seq<Decision>, new told: map<string, Json>, new name: string)
    requires s.Valid() && old(s.dict.Valid()) && s.dict.properties == old(s.dict.properties) && s.dict.canids == old(s.dict.canids)
    requires KeepsNames(s) && old(Knows(s, told))
    requires FrameParsed(s.dict, s.registry, frame, timestamp, clients, ret, ds) && ret == 0
    requires s.dict.canids[frame.canId % 0x800].kind != Send
    requires forall r :: r in old(s.dict.canids.Values) && r.canid != frame.canId % 0x800 ==> s.OthersTraffic(r)
    requires name in s.registry.events && s.dict.properties[name].mycanid != s.dict.canids[frame.canId % 0x800]
    requires old(s.dict.properties[name].mycanid) == s.dict.properties[name].mycanid
    requires name in TellAll(told, Since(old(s.registry.pushed), s.registry.pushed))
    ensures Right(s, name, TellAll(told, Since(old(s.registry.pushed), s.registry.pushed))[name])
  {
    hide Dictionary.Valid, CanidInfo.Ready, CanBit.State, CanBit.Chained, FrameParsed, Under, TellAll, Since, KeepsNames,
      KeepsState, Alone, Runs.Lossless, Chain.Report, Service.OthersTraffic;
    s.IndexIsChained();
    if Alone(s, name) {
      OtherNameIsNotTold(s, frame, timestamp, clients, ret, ds, name);
      AcceptedId(s, frame, timestamp, clients, ret, ds);
      TellAllUnder(told, Since(old(s.registry.pushed), s.registry.pushed), name);
      OwnerIsOther(s, name, frame.canId % 0x800);
      TrafficKeepsState(s, name);
      StillRight(s, name, told[name]);
    }
  }

  twostate lemma OwnerIsOther(s: Service, new name: string, new id: UInt32)
    requires old(s.dict.Valid()) && name in old(s.dict.properties) && id in old(s.dict.canids)
    requires old(s.dict.properties[name].mycanid) != old(s.dict.canids[id])
    ensures old(s.dict.properties[name].mycanid) != null && old(s.dict.properties[name].mycanid).canid != id
  {
    hide CanidInfo.Ready, Dictionary.Valid;
    var r, i := OldSlotOf(s, name);
  }

  /** A refused frame, and a frame on a CAN-ID for sending only, tell nothing. */
  twostate lemma QuietFrameTells(s: Service, new frame: CanFrame, new timestamp: TimeVal, new clients: int -> int, new ret: int,
                                 new ds: seq<Decision>, new told: map<string, Json>)
    requires s.Valid() && old(s.dict.Valid()) && s.dict.properties == old(s.dict.properties) && s.dict.canids == old(s.dict.canids)
    requires KeepsNames(s) && old(Knows(s, told))
    requires FrameParsed(s.dict, s.registry, frame, timestamp, clients, ret, ds)
    requires ret == 0 ==> s.dict.canids[frame.canId % 0x800].kind == Send
    requires forall r :: r in old(s.dict.canids.Values) && (ret != 0 || r.canid != frame.canId % 0x800) ==> s.OthersTraffic(r)
    ensures s.registry.pushed == old(s.registry.pushed) && Knows(s, told)
  {
    hide Dictionary.Valid, CanidInfo.Ready, CanBit.State, CanBit.Chained, KeepsNames, KeepsState, Right, Service.OthersTraffic;
    assert OutboxOf(s.registry) == old(OutboxOf(s.registry));
    forall name | name in told
      ensures KeepsState(s, name)
    {
      OldRight(s, name, told[name]);
      QuietKeepsState(s, frame.canId % 0x800, ret, name);
    }
    KnowsOn(s, told);
  }

  twostate lemma QuietKeepsState(s: Service, new id: UInt32, new ret: int, new name: string)
    requires old(s.dict.Valid()) && s.dict.properties == old(s.dict.properties) && s.dict.canids == old(s.dict.canids)
    requires name in old(s.dict.properties)
    requires forall r :: r in old(s.dict.canids.Values) && (ret != 0 || r.canid != id) ==> s.OthersTraffic(r)
    requires ret == 0 ==> id in s.dict.canids && s.dict.canids[id] in old(s.dict.canids.Values) &&
                          forall q :: q in old(s.dict.canids[id].nodes) ==> Same(q)
    ensures KeepsState(s, name)
  {
    hide Dictionary.Valid, CanidInfo.Ready, CanBit.State, CanBit.Chained, KeepsState, Service.OthersTraffic;
    var r, i := OldSlotOf(s, name);
    if ret == 0 && r.canid == id {
      OldNodes(r, i);
      SameKeepsState(s, name);
    } else {
      TrafficKeepsState(s, name);
    }
  }

  twostate lemma OldNodes(new r: CanidInfo, new i: nat)
    requires old(allocated(r)) && old(r.Ready()) && i < old(r.nData)
    ensures i < |r.property| && r.property[i] in old(r.nodes) && forall q :: q in old(r.property[i].chain) ==> q in old(r.nodes)
  {
  }

  /** Whatever frame arrives: of every event that is left clients know the right value. */
  twostate lemma KnowsFrame(s: Service, new frame: CanFrame, new timestamp: TimeVal, new clients: int -> int, new ret: int,
                            new ds: seq<Decision>, new told: map<string, Json>)
    requires s.Valid() && old(s.dict.Valid()) && s.dict.properties == old(s.dict.properties) && s.dict.canids == old(s.dict.canids)
    requires KeepsNames(s) && old(Knows(s, told))
    requires FrameParsed(s.dict, s.registry, frame, timestamp, clients, ret, ds)
    requires forall r :: r in old(s.dict.canids.Values) && (ret != 0 || r.canid != frame.canId % 0x800) ==> s.OthersTraffic(r)
    requires forall p :: p in s.dict.properties.Values ==> p.mycanid == old(p.mycanid)
    ensures Knows(s, Registered(TellAll(told, Since(old(s.registry.pushed), s.registry.pushed)), s.registry.events.Keys))
  {
    hide Dictionary.Valid, FrameParsed, KeepsNames, Right, Service.OthersTraffic, TellAll, Since;
    var after := TellAll(told, Since(old(s.registry.pushed), s.registry.pushed));
    var id := frame.canId % 0x800;
    AcceptedId(s, frame, timestamp, clients, ret, ds);
    if ret != 0 || s.dict.canids[id].kind == Send {
      QuietFrameTells(s, frame, timestamp, clients, ret, ds, told);
      NothingSince(told, s.registry.pushed);
    } else {
      forall name | name in after && name in s.registry.events
        ensures Right(s, name, after[name])
      {
        assert s.dict.properties[name] in s.dict.properties.Values;
        if s.dict.properties[name].mycanid == s.dict.canids[id] {
          OwnedNameTells(s, frame, timestamp, clients, ret, ds, told, name);
        } else {
          OtherNameTells(s, frame, timestamp, clients, ret, ds, told, name);
        }
      }
    }
  }

  twostate lemma AcceptedId(s: Service, new frame: CanFrame, new timestamp: TimeVal, new clients: int -> int, new ret: int,
                            new ds: seq<Decision>)
    requires FrameParsed(s.dict, s.registry, frame, timestamp, clients, ret, ds)
    ensures ret == 0 ==> frame.canId % 0x800 in s.dict.canids
  {
    hide Step, NotifyAll, Names, Reports, CanidInfo.Ready, CanBit.State, CanBit.Chained, CanValue2Host;
  }

  lemma NothingSince(told: map<string, Json>, pushed: seq<Pushed>)
    ensures TellAll(told, Since(pushed, pushed)) == told
  {
    assert pushed[|pushed|..] == [];
  }
}
