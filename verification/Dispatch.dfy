/** From a received frame to the pushes it causes (src/can_signal_event.c, `parse_frame`, `parse_candata`;
    src/af-canivi-binding.c, `notify_property_changed`). */
module Dispatch {
  import opened Words
  import opened Codec
  import opened Values
  import opened Timing
  import opened Thinning
  import opened CanInfo
  import opened CanidSearch
  import opened BindEvent
  import opened Subscriptions

  /** Registered events and what has been pushed. */
  datatype Outbox = Outbox(events: map<string, CanBit>, pushed: seq<Pushed>)

  /** notify_property_changed: push to a registered event, and drop it when no client received it. */
  function NotifyOne(o: Outbox, name: string, value: Json, clients: int): Outbox {
    if name !in o.events then o
    else Outbox(if clients == 0 then o.events - {name} else o.events, o.pushed + [Pushed(name, value)])
  }

  /** The notifications of the first `n` slots, in slot order; `clients[j]` received the push of slot `j`. */
  function NotifyAll(o: Outbox, names: seq<string>, values: seq<Json>, ds: seq<Decision>, clients: int -> int, n: nat): Outbox
    requires n <= |names| && n <= |values| && n <= |ds|
  {
    if n == 0 then o
    else
      var before := NotifyAll(o, names, values, ds, clients, n - 1);
      if ds[n - 1].Push? then NotifyOne(before, names[n - 1], values[n - 1], clients(n - 1)) else before
  }

  /** Notifications only ever remove events. */
  ghost predicate Submap(m: map<string, CanBit>, n: map<string, CanBit>) {
    forall k :: k in m ==> k in n && m[k] == n[k]
  }

  lemma {:induction false} NotifyAllOnlyDrops(o: Outbox, names: seq<string>, values: seq<Json>, ds: seq<Decision>,
                                              clients: int -> int, n: nat)
    requires n <= |names| && n <= |values| && n <= |ds|
    ensures Submap(NotifyAll(o, names, values, ds, clients, n).events, o.events)
  {
    if n > 0 {
      NotifyAllOnlyDrops(o, names, values, ds, clients, n - 1);
    }
  }

  /** The pushes of the first `n` slots when each name occurs once: one for every slot that decided a
      push and whose name is registered. */
  function PushesOf(events: map<string, CanBit>, names: seq<string>, values: seq<Json>, ds: seq<Decision>, n: nat): seq<Pushed>
    requires n <= |names| && n <= |values| && n <= |ds|
  {
    if n == 0 then []
    else
      var before := PushesOf(events, names, values, ds, n - 1);
      if ds[n - 1].Push? && names[n - 1] in events then before + [Pushed(names[n - 1], values[n - 1])] else before
  }

  /** The names whose push reached no client. */
  function Unheard(names: seq<string>, ds: seq<Decision>, clients: int -> int, n: nat): set<string>
    requires n <= |names| && n <= |ds|
  {
    set j | 0 <= j < n && ds[j].Push? && clients(j) == 0 :: names[j]
  }

  /** Without name conflicts a frame pushes, in slot order, exactly what each registered slot decided,
      and drops exactly the events nobody listens to. */
  lemma {:induction false} PushesWithoutConflict(o: Outbox, names: seq<string>, values: seq<Json>, ds: seq<Decision>,
                                                 clients: int -> int, n: nat)
    requires n <= |names| && n <= |values| && n <= |ds|
    requires forall i, j :: 0 <= i < j < n ==> names[i] != names[j]
    ensures NotifyAll(o, names, values, ds, clients, n).pushed == o.pushed + PushesOf(o.events, names, values, ds, n)
    ensures NotifyAll(o, names, values, ds, clients, n).events == o.events - Unheard(names, ds, clients, n)
  {
    if n > 0 {
      PushesWithoutConflict(o, names, values, ds, clients, n - 1);
      var before := NotifyAll(o, names, values, ds, clients, n - 1);
      assert names[n - 1] !in Unheard(names, ds, clients, n - 1);
      assert names[n - 1] in before.events <==> names[n - 1] in o.events;
      var u := Unheard(names, ds, clients, n - 1);
      assert Unheard(names, ds, clients, n) == if ds[n - 1].Push? && clients(n - 1) == 0 then u + {names[n - 1]} else u;
    }
  }

  /** What has been pushed under one name, in order. */
  ghost function Under(pushed: seq<Pushed>, name: string): seq<Json> {
    if pushed == [] then []
    else
      var before, last := Under(pushed[..|pushed| - 1], name), pushed[|pushed| - 1];
      if last.name == name then before + [last.value] else before
  }

  lemma UnderNext(pushed: seq<Pushed>, p: Pushed, name: string)
    ensures Under(pushed + [p], name) == if p.name == name then Under(pushed, name) + [p.value] else Under(pushed, name)
  {
    assert (pushed + [p])[..|pushed|] == pushed;
  }

  /** A name that no slot carries is not pushed, and keeps its event. */
  lemma {:induction false} OtherNameIsQuiet(o: Outbox, names: seq<string>, values: seq<Json>, ds: seq<Decision>,
                                            clients: int -> int, n: nat, name: string)
    requires n <= |names| && n <= |values| && n <= |ds| && name !in names[..n]
    ensures var o' := NotifyAll(o, names, values, ds, clients, n);
            && Under(o'.pushed, name) == Under(o.pushed, name)
            && (name in o'.events <==> name in o.events)
  {
    hide Under;
    if n > 0 {
      assert names[..n] == names[..n - 1] + [names[n - 1]];
      OtherNameIsQuiet(o, names, values, ds, clients, n - 1, name);
      var before := NotifyAll(o, names, values, ds, clients, n - 1);
      UnderNext(before.pushed, Pushed(names[n - 1], values[n - 1]), name);
    }
  }

  /** A name that one slot of the record carries is pushed exactly when this slot decided so and the name is
      registered, with the value of this slot; the event goes exactly when nobody listens to the push.
      Conflicts of other names do not matter. */
  lemma {:induction false} OwnNamePushes(o: Outbox, names: seq<string>, values: seq<Json>, ds: seq<Decision>,
                                         clients: int -> int, n: nat, j: nat)
    requires j < n <= |names| && n <= |values| && n <= |ds|
    requires forall i :: 0 <= i < n && i != j ==> names[i] != names[j]
    ensures var o', pushes := NotifyAll(o, names, values, ds, clients, n), ds[j].Push? && names[j] in o.events;
            && Under(o'.pushed, names[j]) == Under(o.pushed, names[j]) + (if pushes then [values[j]] else [])
            && (names[j] in o'.events <==> names[j] in o.events && !(pushes && clients(j) == 0))
  {
    hide Under;
    var before := NotifyAll(o, names, values, ds, clients, n - 1);
    UnderNext(before.pushed, Pushed(names[n - 1], values[n - 1]), names[j]);
    if j == n - 1 {
      assert names[j] !in names[..n - 1];
      OtherNameIsQuiet(o, names, values, ds, clients, n - 1, names[j]);
    } else {
      OwnNamePushes(o, names, values, ds, clients, n - 1, j);
    }
  }

  /** What has been pushed stays pushed. */
  lemma {:induction false} NotifyAllAppends(o: Outbox, names: seq<string>, values: seq<Json>, ds: seq<Decision>,
                                            clients: int -> int, n: nat)
    requires n <= |names| && n <= |values| && n <= |ds|
    ensures o.pushed <= NotifyAll(o, names, values, ds, clients, n).pushed
  {
    if n > 0 {
      NotifyAllAppends(o, names, values, ds, clients, n - 1);
    }
  }

  lemma {:induction false} UnderSuffix(pushed: seq<Pushed>, more: seq<Pushed>, name: string)
    ensures Under(pushed + more, name) == Under(pushed, name) + Under(more, name)
  {
    if more == [] {
      assert pushed + more == pushed;
    } else {
      var rest := more[..|more| - 1];
      UnderSuffix(pushed, rest, name);
      assert pushed + more == (pushed + rest) + [more[|more| - 1]];
      UnderNext(pushed + rest, more[|more| - 1], name);
    }
  }

  /** What clients know after some pushes: for each name the last value. */
  ghost function TellAll(told: map<string, Json>, pushes: seq<Pushed>): map<string, Json> {
    if pushes == [] then told
    else TellAll(told, pushes[..|pushes| - 1])[pushes[|pushes| - 1].name := pushes[|pushes| - 1].value]
  }

  lemma {:induction false} TellAllUnder(told: map<string, Json>, pushes: seq<Pushed>, name: string)
    ensures var u, after := Under(pushes, name), TellAll(told, pushes);
            if u == [] then name in after <==> name in told else name in after && after[name] == u[|u| - 1]
    ensures Under(pushes, name) == [] && name in told ==> TellAll(told, pushes)[name] == told[name]
  {
    if pushes != [] {
      TellAllUnder(told, pushes[..|pushes| - 1], name);
    }
  }

  /** Every push comes from a slot that decided one, under the name and with the value of that slot. */
  lemma {:induction false} PushHasSlot(events: map<string, CanBit>, names: seq<string>, values: seq<Json>,
                                       ds: seq<Decision>, n: nat, p: Pushed)
    returns (j: nat)
    requires n <= |names| && n <= |values| && n <= |ds| && p in PushesOf(events, names, values, ds, n)
    ensures j < n && ds[j].Push? && p == Pushed(names[j], values[j]) && names[j] in events
  {
    if ds[n - 1].Push? && names[n - 1] in events && p == Pushed(names[n - 1], values[n - 1]) {
      j := n - 1;
    } else {
      j := PushHasSlot(events, names, values, ds, n - 1, p);
    }
  }

  ghost function OutboxOf(r: EventRegistry): Outbox
    reads r`events, r`pushed
  {
    Outbox(r.events, r.pushed)
  }

  /** property2json: follow `applyinfo` to the member that shows. */
  method Property2Json(property: CanBit, ghost h: CanBit) returns (r: Json)
    requires h.Chained() && property in h.chain
    ensures r == if property == h then h.State().Report() else ToJson(property.def, property.curValue)
    ensures var p := if property.applyinfo != null then property.applyinfo else property;
            if p.def.varType.String? then
              r == Text(if p.curValue == 0 then "null" else p.def.table.value.texts[p.curValue - 1])
            else ReportsNumber(p.def.varType, p.curValue, r)
    decreases if property == h then 1 else 0
  {
    h.ChainFacts();
    h.MemberFacts(property);
    CellIsReported(property.def, property.curValue);
    if property.applyinfo != null && property.applyinfo != property {
      r := Property2Json(property.applyinfo, h);
    } else {
      r := ToJson(property.def, property.curValue);
    }
  }

  /** notify_property_changed, with the number of clients that receive the push. */
  method NotifyPropertyChanged(registry: EventRegistry, propertyInfo: CanBit, clients: int) returns (ret: int)
    requires propertyInfo.Chained()
    modifies registry`events, registry`pushed
    ensures OutboxOf(registry) ==
            NotifyOne(old(OutboxOf(registry)), propertyInfo.def.name, propertyInfo.State().Report(), clients)
    ensures ret == if propertyInfo.def.name in old(registry.events) && clients >= 1 then 0 else 1
  {
    hide CanBit.Chained, CanBit.State, Chain.Report;
    var name := propertyInfo.def.name;
    if name !in registry.events {
      return 1;
    }
    propertyInfo.ChainFacts();
    var value := Property2Json(propertyInfo, propertyInfo);
    registry.pushed := registry.pushed + [Pushed(name, value)];
    if clients < 1 {
      if clients == 0 {
        var r := registry.RemoveEvent(name);
      }
      return 1;
    }
    return 0;
  }

  /** update_iviproperty on the property in slot `i`, with its notification. */
  method UpdateSlot(info: CanidInfo, i: nat, canV64: Word, timestamp: TimeVal, registry: EventRegistry, clients: int)
    returns (r: Decision)
    requires info.Ready() && i < info.nData
    modifies info.nodes`curValue, info.nodes`updatetime, info.nodes`applyinfo, registry`events, registry`pushed
    ensures info.Ready()
    ensures forall j :: 0 <= j < info.nData && j != i ==> info.property[j].State() == old(info.property[j].State())
    ensures Step(old(info.property[i].State()), canV64, timestamp, info.cycle, info.property[i].State(), r)
    ensures OutboxOf(registry) ==
            if r.Push? then NotifyOne(old(OutboxOf(registry)), info.property[i].def.name, info.property[i].State().Report(), clients)
            else old(OutboxOf(registry))
  {
    hide CanBit.Chained, Step, NotifyOne, Chain.Report, CanidInfo.Ready, CanBit.State;
    HeadFacts(info, i);
    AllChained(info);
    var h := info.property[i];
    h.ChainFacts();
    r := h.UpdateIviProperty(canV64, timestamp);
    if r.Push? {
      var ret := NotifyPropertyChanged(registry, h, clients);
    }
    assert forall q :: q in old(info.nodes) && q !in old(h.chain) ==> Same(q);
    forall j: nat | j < info.nData && j != i
      ensures info.property[j].Chained() && info.property[j].State() == old(info.property[j].State())
    {
      OtherChain(info, i, j);
      ChainStill(info.property[j]);
    }
    ReadyStill(info);
  }

  /** A change to head `i` alone leaves the chains of other slots alone. */
  twostate lemma OtherHead(info: CanidInfo, new i: int, new j: int)
    requires old(info.Ready()) && 0 <= i < old(info.nData) && 0 <= j < old(info.nData) && i != j
    requires forall q :: q in old(info.nodes) && q != info.property[i] ==> Same(q)
    ensures old(info.property[j].Chained()) && Same(info.property[j])
    ensures forall q :: q in old(info.property[j].chain) ==> Same(q)
  {
    var h, o := info.property[i], info.property[j];
    assert old(h.Chained()) && old(o.Chained()) && h != o;
    assert old(h.chain[0].head) == h;
    assert forall q :: q in old(o.chain) ==> old(q.head) == o;
    assert o in old(o.chain);
  }

  lemma HeadSound(h: CanBit)
    requires h.Chained()
    ensures h.Sound()
  {
    assert h.chain[0].Sound();
  }

  /** A head whose own value was replaced by a legal one is still a head. */
  twostate lemma HeadValueSet(h: CanBit)
    requires old(h.Chained()) && h.Sound()
    requires forall q :: q in old(h.chain) && q != h ==> Same(q)
    requires h.def == old(h.def) && h.mycanid == old(h.mycanid) && h.next == old(h.next) && h.applyinfo == old(h.applyinfo)
    requires h.head == old(h.head) && h.pos == old(h.pos) && h.chain == old(h.chain)
    ensures h.Chained()
  {
    assert forall a :: 0 <= a < |h.chain| ==> h.chain[a] in old(h.chain);
    assert forall a :: 0 <= a < |h.chain| ==> old(h.chain[a].PointsOn(h, a));
    assert forall a :: 0 <= a < |h.chain| ==> old(h.chain[a].Sound());
    assert h.Linked();
  }

  lemma HeadFacts(info: CanidInfo, i: nat)
    requires info.Ready() && i < info.nData
    ensures i < |info.property| && info.nData <= |info.property|
    ensures var h := info.property[i];
            h.Chained() && h in info.nodes && h.mycanid == info && forall q :: q in h.chain ==> q in info.nodes
  {
  }

  lemma AllChained(info: CanidInfo)
    requires info.Ready()
    ensures info.nData <= |info.property| && info.DistinctSlots()
    ensures forall j :: 0 <= j < info.nData ==> info.property[j].Chained()
  {
  }

  /** A record stays ready when its links are untouched and its heads are still heads. */
  twostate lemma ReadyStill(info: CanidInfo)
    requires old(info.Ready()) && info.nodes == old(info.nodes) && info.nData == old(info.nData)
    requires forall q :: q in info.nodes ==> q.mycanid == old(q.mycanid) && q.head == old(q.head) && q.chain == old(q.chain)
    requires forall i :: 0 <= i < info.nData && i < |info.property| ==> info.property[i].Chained()
    ensures info.Ready()
  {
    hide CanBit.Chained;
    forall i | 0 <= i < info.nData
      ensures info.property[i] in info.nodes && forall q :: q in info.property[i].chain ==> q in info.nodes
    {
      assert old(info.property[i] in info.nodes);
    }
  }

  /** Chains of different slots share no member. */
  twostate lemma OtherChain(info: CanidInfo, new i: int, new j: int)
    requires old(info.Ready()) && 0 <= i < old(info.nData) && 0 <= j < old(info.nData) && i != j
    requires forall q :: q in old(info.nodes) && q !in old(info.property[i].chain) ==> Same(q)
    ensures old(info.property[j].Chained()) && Same(info.property[j])
    ensures forall q :: q in old(info.property[j].chain) ==> Same(q)
  {
    var h, o := info.property[i], info.property[j];
    assert old(h.Chained()) && old(o.Chained());
    assert h != o;
    assert forall q :: q in old(h.chain) ==> old(q.head) == h;
    assert forall q :: q in old(o.chain) ==> old(q.head) == o;
    assert o in old(o.chain);
  }

  /** The names of the live slots, and what each of them reports. */
  ghost function Names(info: CanidInfo): (s: seq<string>)
    requires info.Ready()
    reads info`nodes, info`nData, info.nodes
    ensures |s| == info.nData && forall j :: 0 <= j < |s| ==> s[j] == info.property[j].def.name
  {
    NamesUpTo(info, info.nData)
  }

  ghost function NamesUpTo(info: CanidInfo, n: nat): (s: seq<string>)
    requires info.Ready() && n <= info.nData
    reads info`nodes, info`nData, info.nodes
    ensures |s| == n && forall j :: 0 <= j < n ==> s[j] == info.property[j].def.name
  {
    if n == 0 then [] else NamesUpTo(info, n - 1) + [info.property[n - 1].def.name]
  }

  ghost function Reports(info: CanidInfo, n: nat): (s: seq<Json>)
    requires info.Ready() && n <= info.nData
    reads info`nodes, info`nData, info.nodes
    ensures |s| == n && forall j :: 0 <= j < n ==> s[j] == info.property[j].State().Report()
  {
    if n == 0 then [] else Reports(info, n - 1) + [info.property[n - 1].State().Report()]
  }

  lemma {:induction false} NotifyAllSame(o: Outbox, names: seq<string>, vs: seq<Json>, vs': seq<Json>,
                                         ds: seq<Decision>, ds': seq<Decision>, clients: int -> int, n: nat)
    requires n <= |names| && n <= |vs| && n <= |vs'| && n <= |ds| && n <= |ds'|
    requires vs[..n] == vs'[..n] && ds[..n] == ds'[..n]
    ensures NotifyAll(o, names, vs, ds, clients, n) == NotifyAll(o, names, vs', ds', clients, n)
  {
    if n > 0 {
      assert vs[..n - 1] == vs[..n][..n - 1] && vs'[..n - 1] == vs'[..n][..n - 1];
      assert ds[..n - 1] == ds[..n][..n - 1] && ds'[..n - 1] == ds'[..n][..n - 1];
      assert vs[n - 1] == vs[..n][n - 1] && ds[n - 1] == ds[..n][n - 1];
      NotifyAllSame(o, names, vs, vs', ds, ds', clients, n - 1);
    }
  }

  /** One more slot in the account of the notifications. */
  lemma NotifyAllNext(o: Outbox, names: seq<string>, vs: seq<Json>, ds: seq<Decision>, clients: int -> int, v: Json, d: Decision)
    requires |vs| == |ds| < |names|
    ensures NotifyAll(o, names, vs + [v], ds + [d], clients, |ds| + 1) ==
            var before := NotifyAll(o, names, vs, ds, clients, |ds|);
            if d.Push? then NotifyOne(before, names[|ds|], v, clients(|ds|)) else before
  {
    NotifyAllSame(o, names, vs, vs + [v], ds, ds + [d], clients, |ds|);
  }

  /** parse_candata: every live slot takes one step on the frame, and pushes in slot order. */
  method ParseCandata(info: CanidInfo, canV64: Word, timestamp: TimeVal, registry: EventRegistry, clients: int -> int)
    returns (ghost ds: seq<Decision>)
    requires info.Ready()
    modifies info.nodes`curValue, info.nodes`updatetime, info.nodes`applyinfo, registry`events, registry`pushed
    ensures info.Ready() && |ds| == info.nData
    ensures forall j :: 0 <= j < info.nData ==>
              Step(old(info.property[j].State()), canV64, timestamp, info.cycle, info.property[j].State(), ds[j])
    ensures OutboxOf(registry) ==
            NotifyAll(old(OutboxOf(registry)), Names(info), Reports(info, info.nData), ds, clients, info.nData)
  {
    hide CanidInfo.Ready, CanBit.Chained, Step, NotifyOne, NotifyAll, CanBit.State, Chain.Valid, Chain.Report,
      NamesUpTo, StatesUpTo, Reports;
    AllChained(info);
    ds := [];
    ghost var names, values := Names(info), [];
    ghost var states := States(info);
    ghost var o := OutboxOf(registry);
    var i := 0;
    assert NotifyAll(o, names, values, ds, clients, 0) == o by { NotifyNone(o, names, values, ds, clients); }
    while i < info.nData
      invariant i <= info.nData == |names| == |states| && |ds| == |values| == i && info.Ready()
      invariant info.nData <= |info.property|
      invariant forall j :: 0 <= j < info.nData ==> info.property[j].Chained() && info.property[j].def.name == names[j]
      invariant forall j :: i <= j < info.nData ==> info.property[j].State() == states[j]
      invariant forall j :: 0 <= j < i ==>
                  && states[j].Valid()
                  && Step(states[j], canV64, timestamp, info.cycle, info.property[j].State(), ds[j])
                  && values[j] == info.property[j].State().Report()
      invariant OutboxOf(registry) == NotifyAll(o, names, values, ds, clients, i)
    {
      var r := UpdateSlot(info, i, canV64, timestamp, registry, clients(i));
      AllChained(info);
      ghost var v := info.property[i].State().Report();
      NotifyAllNext(o, names, values, ds, clients, v, r);
      ds, values := ds + [r], values + [v];
      i := i + 1;
    }
    assert values == Reports(info, info.nData);
    assert names == Names(info);
  }

  lemma NotifyNone(o: Outbox, names: seq<string>, vs: seq<Json>, ds: seq<Decision>, clients: int -> int)
    ensures NotifyAll(o, names, vs, ds, clients, 0) == o
  {
  }

  ghost function States(info: CanidInfo): (s: seq<Chain>)
    requires info.Ready()
    reads info`nodes, info`nData, info.nodes
    ensures |s| == info.nData && forall j :: 0 <= j < |s| ==> s[j] == info.property[j].State()
  {
    StatesUpTo(info, info.nData)
  }

  ghost function StatesUpTo(info: CanidInfo, n: nat): (s: seq<Chain>)
    requires info.Ready() && n <= info.nData
    reads info`nodes, info`nData, info.nodes
    ensures |s| == n && forall j :: 0 <= j < n ==> s[j] == info.property[j].State()
  {
    if n == 0 then [] else StatesUpTo(info, n - 1) + [info.property[n - 1].State()]
  }

  /** Copy a received frame over the stored one. */
  method StoreFrame(info: CanidInfo, frame: CanFrame)
    requires info.data.Length == 8
    modifies info`frameId, info`frameDlc, info.data
    ensures info.Frame() == frame
  {
    info.frameId, info.frameDlc := frame.canId, frame.dlc;
    forall k | 0 <= k < 8 {
      info.data[k] := frame.data[k];
    }
    assert info.data[..] == frame.data;
  }

  /** What parse_frame does to the record of the frame. */
  method ReceiveFrame(info: CanidInfo, registry: EventRegistry, frame: CanFrame, timestamp: TimeVal, clients: int -> int)
    returns (ghost ds: seq<Decision>)
    requires info.Ready() && info.data.Length == 8
    modifies info`frameId, info`frameDlc, info.data
    modifies info.nodes`curValue, info.nodes`updatetime, info.nodes`applyinfo, registry`events, registry`pushed
    ensures info.Ready() && info.Frame() == frame && Submap(registry.events, old(registry.events))
    ensures info.kind == Send ==>
              OutboxOf(registry) == old(OutboxOf(registry)) && forall q :: q in info.nodes ==> Same(q)
    ensures info.kind != Send ==>
              && |ds| == info.nData
              && (forall j :: 0 <= j < info.nData ==>
                    Step(old(info.property[j].State()), CanValue2Host(frame.data), timestamp, info.cycle,
                         info.property[j].State(), ds[j]))
              && OutboxOf(registry) ==
                 NotifyAll(old(OutboxOf(registry)), Names(info), Reports(info, info.nData), ds, clients, info.nData)
  {
    hide Step, NotifyAll, Reports, Names, NamesUpTo, States, StatesUpTo, CanBit.State, CanBit.Chained, CanidInfo.Ready,
      CanValue2Host, Chain.Valid, Submap;
    ds := [];
    ghost var states, o := States(info), OutboxOf(registry);
    StoreFrame(info, frame);
    assert States(info) == states;
    SubmapSelf(registry.events);
    if info.kind != Send {
      ds := ParseCandata(info, CanValue2Host(info.data[..]), timestamp, registry, clients);
      NotifyAllOnlyDrops(o, Names(info), Reports(info, info.nData), ds, clients, info.nData);
    }
  }

  lemma SubmapSelf(m: map<string, CanBit>)
    ensures Submap(m, m)
  {
  }

  /** The same within the dictionaries, which stay valid. */
  method ReceiveKnown(dict: Dictionary, info: CanidInfo, registry: EventRegistry, frame: CanFrame, timestamp: TimeVal,
                      clients: int -> int)
    returns (ghost ds: seq<Decision>)
    requires dict.Valid() && info in dict.canids.Values && info.Ready() && info.data.Length == 8
    modifies info`frameId, info`frameDlc, info.data
    modifies info.nodes`curValue, info.nodes`updatetime, info.nodes`applyinfo, registry`events, registry`pushed
    ensures dict.Valid() && info.Ready() && info.Frame() == frame && Submap(registry.events, old(registry.events))
    ensures info.kind == Send ==>
              OutboxOf(registry) == old(OutboxOf(registry)) && forall q :: q in info.nodes ==> Same(q)
    ensures info.kind != Send ==>
              && |ds| == info.nData
              && (forall j :: 0 <= j < info.nData ==>
                    Step(old(info.property[j].State()), CanValue2Host(frame.data), timestamp, info.cycle,
                         info.property[j].State(), ds[j]))
              && OutboxOf(registry) ==
                 NotifyAll(old(OutboxOf(registry)), Names(info), Reports(info, info.nData), ds, clients, info.nData)
  {
    hide Step, NotifyAll, Reports, Names, CanBit.State, CanBit.Chained, CanidInfo.Ready, CanValue2Host, Dictionary.Valid, Submap;
    dict.RecordsApart(info);
    ds := ReceiveFrame(info, registry, frame, timestamp, clients);
    dict.ValuesKeepValid(info);
  }

  /** What becomes of a received frame. A frame that is too long or unknown changes nothing. Any other is
      stored; unless its record is for sending only, every live slot takes one step on its value, and
      the slots that decided a push are notified in slot order. */
  twostate predicate FrameParsed(dict: Dictionary, registry: EventRegistry, frame: CanFrame, timestamp: TimeVal,
                                 clients: int -> int, ret: int, ds: seq<Decision>)
    reads *
  {
    var id := frame.canId % 0x800;
    if frame.dlc > 8 || id !in dict.canids then
      && ret == 1 && OutboxOf(registry) == old(OutboxOf(registry))
      && (id in dict.canids ==>
            var info := dict.canids[id];
            && info in old(dict.canids.Values) && info.data.Length == 8 && info.nodes == old(info.nodes)
            && info.Frame() == old(info.Frame()) && forall q :: q in info.nodes ==> Same(q))
    else
      var info := dict.canids[id];
      && ret == 0 && info in old(dict.canids.Values) && info.data.Length == 8 && info.Frame() == frame
      && info.Ready() && old(info.Ready()) && info.nodes == old(info.nodes) && info.nData == old(info.nData)
      && if info.kind == Send then
           OutboxOf(registry) == old(OutboxOf(registry)) && forall q :: q in info.nodes ==> Same(q)
         else
           && |ds| == info.nData
           && (forall j :: 0 <= j < info.nData ==>
                 Step(old(info.property[j].State()), CanValue2Host(frame.data), timestamp, info.cycle,
                      info.property[j].State(), ds[j]))
           && OutboxOf(registry) ==
              NotifyAll(old(OutboxOf(registry)), Names(info), Reports(info, info.nData), ds, clients, info.nData)
  }

  /** parse_frame: look up the record, store the frame, and unless the record is for sending only,
      decode its properties and notify. */
  method ParseFrame(dict: Dictionary, registry: EventRegistry, frame: CanFrame, timestamp: TimeVal, clients: int -> int)
    returns (ret: int, ghost ds: seq<Decision>)
    requires dict.Valid()
    modifies dict.RecordOf(frame.canId % 0x800)`frameId, dict.RecordOf(frame.canId % 0x800)`frameDlc
    modifies dict.DataOf(frame.canId % 0x800)
    modifies dict.NodesOf(frame.canId % 0x800)`curValue, dict.NodesOf(frame.canId % 0x800)`updatetime
    modifies dict.NodesOf(frame.canId % 0x800)`applyinfo
    modifies registry`events, registry`pushed
    ensures dict.Valid() && Submap(registry.events, old(registry.events))
    ensures FrameParsed(dict, registry, frame, timestamp, clients, ret, ds)
  {
    hide Step, NotifyAll, Reports, Names, CanBit.State, CanBit.Chained, CanidInfo.Ready, CanValue2Host, Dictionary.Valid;
    ret, ds := 1, [];
    MaskedStandard(frame.canId);
    var targetcanid := Masked(frame.canId, CAN_SFF_MASK);
    if targetcanid in dict.canids {
      dict.ReadyRecord(targetcanid);
    }
    if frame.dlc > 8 {
      return;
    }
    var info := dict.GetCanid(targetcanid);
    if info == null {
      return;
    }
    ds := ReceiveKnown(dict, info, registry, frame, timestamp, clients);
    ret := 0;
  }
}
