/** The running service together with a record of what has happened to it: what holds in every state
    that it can reach (src/af-canivi-binding.c, from `afbBindingV1ServiceInit` on). */
module Server {
  import opened Words
  import opened Codec
  import opened Values
  import opened Timing
  import opened Grouping
  import opened Thinning
  import opened CanInfo
  import opened CanidSearch
  import opened BindEvent
  import opened Subscriptions
  import opened Dispatch
  import opened Binding
  import opened Clients
  import Loader
  import Runs
  import Transmit
  import Zones

  /** The transmissions of one CAN-ID since it was loaded, as long as no frame with its identifier came in. */
  datatype Sending = Sending(start: Transmit.Tx, steps: seq<Transmit.Step>)

  /** The frames on one property since it was loaded, as long as it was not set. */
  datatype Life = Life(states: seq<Chain>, decisions: seq<Decision>, frames: seq<Runs.Frame>)

  /** A slot of a record. */
  datatype Slot = Slot(id: UInt32, index: nat)

  /** The states and commands of the subscription machine, the transmitters by CAN-ID, the properties by
      CAN-ID and slot, and what clients were told last about registered events, by the reply to a successful
      subscription or by a push; a `set` of the property ends what is known of it. */
  datatype Log = Log(states: seq<State>, commands: seq<Command>, sends: map<UInt32, Sending>, lives: map<Slot, Life>,
                     told: map<string, Json>)

  ghost predicate Traced(s: Service, states: seq<State>, commands: seq<Command>)
    requires s.Bound()
    reads *
  {
    Run(states, commands) && states[|commands|] == s.View() && StandardIds(commands)
  }

  ghost predicate Sent(s: Service, r: CanidInfo, g: Sending)
    reads *
  {
    r.Ready() && r.data.Length == 8 && Transmit.Follows(g.start, g.steps, s.TxOf(r))
  }

  ghost predicate Lived(r: CanidInfo, i: nat, l: Life)
    reads *
  {
    && r.Ready() && i < r.nData && r.kind != Send
    && Runs.Run(l.states, l.decisions, l.frames, r.cycle) && Runs.Initial(l.states[0])
    && l.states[|l.frames|] == r.property[i].State()
  }

  ghost predicate Sends(s: Service, sends: map<UInt32, Sending>)
    reads *
  {
    forall id :: id in sends ==> id in s.dict.canids && Sent(s, s.dict.canids[id], sends[id])
  }

  ghost predicate Lives(s: Service, lives: map<Slot, Life>)
    reads *
  {
    forall id: UInt32, i: nat :: Slot(id, i) in lives ==> id in s.dict.canids && Lived(s.dict.canids[id], i, lives[Slot(id, i)])
  }

  /** The log tells how the service got where it is. */
  ghost predicate Logged(s: Service, log: Log)
    reads *
  {
    && s.Valid() && Traced(s, log.states, log.commands)
    && Sends(s, log.sends) && Lives(s, log.lives) && Knows(s, log.told)
  }

  // ---------------------------------------------------------------------------------------
  // One step of each part of the log
  // ---------------------------------------------------------------------------------------

  lemma TracedNext(s: Service, states: seq<State>, commands: seq<Command>, before: State, c: Command)
    requires s.Bound() && Run(states, commands) && states[|commands|] == before && StandardIds(commands)
    requires Next(before, c, s.View()) && (c.Define? ==> c.id < 0x800)
    ensures Traced(s, states + [s.View()], commands + [c])
  {
    hide Next;
    RunOn(states, commands, c, s.View());
  }

  /** A frame of another CAN-ID may have passed. */
  ghost function Passed(g: Sending, before: seq<CanFrame>, after: seq<CanFrame>): Sending {
    if after == before || after == [] then g else g.(steps := g.steps + [Transmit.Other(after[|after| - 1])])
  }

  /** The socket has sent at most one frame. */
  ghost predicate AtMostOne(before: seq<CanFrame>, after: seq<CanFrame>) {
    after == before || (after != [] && after == before + [after[|after| - 1]])
  }

  ghost function PassedAll(sends: map<UInt32, Sending>, before: seq<CanFrame>, after: seq<CanFrame>): map<UInt32, Sending> {
    map id | id in sends :: Passed(sends[id], before, after)
  }

  twostate lemma SentOn(s: Service, new id: UInt32, new g: Sending)
    requires id in old(s.dict.canids) && old(Sent(s, s.dict.canids[id], g)) && s.OthersTraffic(old(s.dict.canids[id]))
    requires AtMostOne(old(s.socket.sent), s.socket.sent)
    ensures Sent(s, old(s.dict.canids[id]), Passed(g, old(s.socket.sent), s.socket.sent))
  {
    hide Transmit.Follows;
    var before, after := old(s.socket.sent), s.socket.sent;
    if after != before {
      Transmit.FollowsNext(g.start, g.steps, old(s.TxOf(s.dict.canids[id])), Transmit.Other(after[|after| - 1]));
    }
  }

  twostate predicate Grown(s: Service)
    reads s.dict
  {
    forall id :: id in old(s.dict.canids) ==> id in s.dict.canids && s.dict.canids[id] == old(s.dict.canids[id])
  }

  /** The transmitters that have seen traffic only. */
  twostate lemma OtherSends(s: Service, new sends: map<UInt32, Sending>, new own: set<UInt32>)
    requires old(Sends(s, sends)) && Grown(s) && AtMostOne(old(s.socket.sent), s.socket.sent)
    requires forall id :: id in sends && id !in own ==> s.OthersTraffic(old(s.dict.canids[id]))
    ensures Sends(s, PassedAll(sends - own, old(s.socket.sent), s.socket.sent))
  {
    hide Sent, Service.OthersTraffic, Passed, AtMostOne;
    var passed := PassedAll(sends - own, old(s.socket.sent), s.socket.sent);
    forall id | id in passed
      ensures id in s.dict.canids && Sent(s, s.dict.canids[id], passed[id])
    {
      SentOn(s, id, sends[id]);
    }
  }

  /** A transmitter that has taken a step of its own. */
  twostate lemma OwnSend(s: Service, new id: UInt32, new g: Sending, new step: Transmit.Step)
    requires id in old(s.dict.canids) && old(Sent(s, s.dict.canids[id], g))
    requires var r := old(s.dict.canids[id]);
             && r.Ready() && r.data.Length == 8
             && (step.Set? ==> step.signal < |old(s.TxOf(r)).defs|)
             && s.TxOf(r) == Transmit.Apply(old(s.TxOf(r)), step)
    ensures Sent(s, old(s.dict.canids[id]), g.(steps := g.steps + [step]))
  {
    hide Transmit.Follows, Transmit.Apply;
    Transmit.FollowsNext(g.start, g.steps, old(s.TxOf(s.dict.canids[id])), step);
  }

  /** Slot `i` of the record is in the state it was in. */
  twostate predicate Still(r: CanidInfo, new i: nat)
    reads *
  {
    old(r.Ready()) && r.Ready() && r.nData == old(r.nData) && (i < r.nData ==> r.property[i].State() == old(r.property[i].State()))
  }

  twostate lemma OtherLives(s: Service, new lives: map<Slot, Life>, new own: set<UInt32>)
    requires old(Lives(s, lives)) && Grown(s)
    requires forall id: UInt32, i: nat :: Slot(id, i) in lives && id !in own ==> Still(old(s.dict.canids[id]), i)
    ensures forall id: UInt32, i: nat :: Slot(id, i) in lives && id !in own ==>
              id in s.dict.canids && Lived(s.dict.canids[id], i, lives[Slot(id, i)])
  {
    hide CanidInfo.Ready, CanBit.State, Runs.Run, Runs.Initial;
    forall id: UInt32, i: nat | Slot(id, i) in lives && id !in own
      ensures id in s.dict.canids && Lived(s.dict.canids[id], i, lives[Slot(id, i)])
    {
      assert old(Lived(s.dict.canids[id], i, lives[Slot(id, i)]));
      assert Still(old(s.dict.canids[id]), i);
    }
  }

  ghost function Heard(l: Life, c: Chain, d: Decision, f: Runs.Frame): Life {
    Life(l.states + [c], l.decisions + [d], l.frames + [f])
  }

  /** The properties of CAN-ID `id` after a frame on it. */
  ghost function HeardAll(lives: map<Slot, Life>, id: UInt32, cs: seq<Chain>, ds: seq<Decision>, f: Runs.Frame)
    : map<Slot, Life>
  {
    map key | key in lives ::
      if key.id == id && key.index < |cs| && key.index < |ds| then Heard(lives[key], cs[key.index], ds[key.index], f) else lives[key]
  }

  /** A property that has taken a step. */
  twostate lemma OwnLife(r: CanidInfo, new i: nat, new l: Life, new f: Runs.Frame, new d: Decision)
    requires old(Lived(r, i, l)) && r.Ready() && r.nData == old(r.nData)
    requires old(r.property[i].State()).Valid() && Step(old(r.property[i].State()), f.word, f.time, r.cycle, r.property[i].State(), d)
    ensures Lived(r, i, Heard(l, r.property[i].State(), d, f))
  {
    hide Runs.Run, Step, CanBit.State, CanBit.Chained;
    var c := r.property[i].State();
    StepKeepsValid(old(r.property[i].State()), f.word, f.time, r.cycle, c, d);
    RunIsNotEmpty(l, r.cycle);
    Runs.RunOn(l.states, l.decisions, l.frames, r.cycle, c, d, f);
  }

  lemma RunIsNotEmpty(l: Life, cycle: UInt32)
    requires Runs.Run(l.states, l.decisions, l.frames, cycle)
    ensures |l.states| == |l.frames| + 1 && l.states[|l.frames|].defs == l.states[0].defs
  {
  }

  /** The properties of a CAN-ID that has just been loaded. */
  ghost function Born(id: UInt32, cs: seq<Chain>): map<Slot, Life> {
    map i: nat | i < |cs| :: Slot(id, i) := Life([cs[i]], [], [])
  }

  lemma BornIsLived(r: CanidInfo, i: nat, c: Chain)
    requires r.Ready() && i < r.nData && r.kind != Send && Untouched(r.property[i]) && c == r.property[i].State()
    ensures Lived(r, i, Life([c], [], []))
  {
    var h := r.property[i];
    assert forall a :: 0 <= a < |h.chain| ==> h.CurValues()[a] == 0;
    Runs.EmptyRun(c, r.cycle);
  }

  /** What does not belong to the CAN-IDs `own` goes on as before. */
  twostate lemma KeepsSignals(s: Service, new sends: map<UInt32, Sending>, new lives: map<Slot, Life>, new own: set<UInt32>)
    requires old(s.dict.Valid()) && old(Sends(s, sends)) && old(Lives(s, lives))
    requires Grown(s) && AtMostOne(old(s.socket.sent), s.socket.sent)
    requires forall r :: r in old(s.dict.canids.Values) && r.canid !in own ==> s.OthersTraffic(r)
    ensures Sends(s, PassedAll(sends - own, old(s.socket.sent), s.socket.sent))
    ensures forall id: UInt32, i: nat :: Slot(id, i) in lives && id !in own ==>
              id in s.dict.canids && Lived(s.dict.canids[id], i, lives[Slot(id, i)])
  {
    hide Sent, Lived, Service.OthersTraffic, PassedAll, AtMostOne, Dictionary.Listed, Dictionary.Agrees, Dictionary.OwnsSlots, Supports;
    forall id | id in old(s.dict.canids) && id !in own
      ensures s.OthersTraffic(old(s.dict.canids[id]))
    {
      assert old(s.dict.canids[id]).canid == id;
    }
    OtherSends(s, sends, own);
    forall id: UInt32, i: nat | Slot(id, i) in lives && id !in own
      ensures Still(old(s.dict.canids[id]), i)
    {
      TrafficIsStill(s, id, i);
    }
    OtherLives(s, lives, own);
  }

  twostate lemma TrafficIsStill(s: Service, new id: UInt32, new i: nat)
    requires id in old(s.dict.canids) && s.OthersTraffic(old(s.dict.canids[id]))
    ensures Still(old(s.dict.canids[id]), i)
  {
    hide CanBit.State, CanidInfo.Ready;
  }

  /** Nothing has been sent, received or set. */
  twostate lemma KeepsAllSignals(s: Service, new sends: map<UInt32, Sending>, new lives: map<Slot, Life>)
    requires old(s.dict.Valid()) && old(Sends(s, sends)) && old(Lives(s, lives))
    requires Grown(s) && s.socket.sent == old(s.socket.sent)
    requires forall r :: r in old(s.dict.canids.Values) ==> s.OthersTraffic(r)
    ensures Sends(s, sends) && Lives(s, lives)
  {
    hide Sent, Lived, Service.OthersTraffic, Dictionary.Valid;
    KeepsSignals(s, sends, lives, {});
    assert PassedAll(sends - {}, old(s.socket.sent), s.socket.sent) == sends;
  }

  // ---------------------------------------------------------------------------------------
  // The service from its start
  // ---------------------------------------------------------------------------------------

  /** afbBindingV1ServiceInit, before any definition is loaded. */
  method Start() returns (s: Service, ghost log: Log)
    ensures fresh(s) && fresh(s.dict) && fresh(s.registry) && fresh(s.registry.subscribedCanids) && fresh(s.socket)
    ensures Logged(s, log) && log == Log([START], [], map[], map[], map[])
    ensures s.dict.canids == map[] && s.dict.properties == map[] && s.registry.events == map[]
  {
    var dict := new Dictionary();
    var registry := new EventRegistry();
    var socket := new CanSocket();
    s := new Service(dict, registry, socket);
    s.StartsAtStart();
    log := Log([START], [], map[], map[], map[]);
  }

  lemma NoStarListed(s: Service)
    requires s.Valid()
    ensures "*" !in s.dict.support
  {
    hide Dictionary.Listed, Dictionary.Agrees, Dictionary.OwnsSlots;
  }

  /** The verb itself touches neither record nor property. */
  method SubscribeApart(s: Service, name: string, d: Daemon, filterOk: bool, ghost shown: map<string, Json>)
    returns (err: int, reply: Option<map<string, Json>>)
    requires s.Bound() && s.Presents(shown) && "*" !in s.dict.support
    modifies s.registry`events, s.registry`nSubscribedCanid, s.registry.subscribedCanids, s.socket`filters
    ensures s.Bound() && NoneTouched(s)
    ensures Next(old(s.View()), Command.Subscribe(name, d, filterOk), s.View())
    ensures s.registry.events == Register(old(s.registry.events), s.dict.properties, Requested(s.dict.support, name), d)
    ensures err == 0 <==> forall n :: n in Requested(s.dict.support, name) ==> n in s.registry.events && d.subscribes(n)
    ensures reply ==
            if err == 0 then Some(Replies(Requested(s.dict.support, name), s.registry.events.Keys, shown, d)) else None
  {
    hide Next, Register, Requested, Service.View, Service.Bound, Service.Presents, Replies;
    err, reply := s.Subscribe(name, d, filterOk, shown);
  }

  lemma EventsAreShown(s: Service, shown: map<string, Json>)
    requires s.Bound() && s.Presents(shown)
    ensures s.registry.events.Keys <= shown.Keys
  {
  }

  /** Registering events and installing a filter touches no record and no property. */
  twostate lemma NothingTouched(s: Service, new log: Log, new shown: map<string, Json>, new names: set<string>, new d: Daemon)
    requires old(s.dict.Valid()) && old(Sends(s, log.sends)) && old(Lives(s, log.lives)) && old(Knows(s, log.told))
    requires NoneTouched(s) && s.socket.sent == old(s.socket.sent) && old(s.registry.events).Keys <= s.registry.events.Keys
    requires s.Bound() && old(s.Presents(shown))
    ensures s.dict.Valid() && Sends(s, log.sends) && Lives(s, log.lives) && s.Presents(shown)
    ensures Knows(s, log.told + Replies(names, s.registry.events.Keys, shown, d)) && Knows(s, log.told + map[])
  {
    hide Sends, Lives, Knows, Dictionary.Valid, Service.OthersTraffic, Service.Presents, Service.Bound, KeepsNames, Replies;
    NoneTouchedKeeps(s);
    KeepsAllSignals(s, log.sends, log.lives);
    s.PresentsStill(shown);
    KnowsMore(s, log.told, shown, names, d);
  }

  /** The subscribe verb. */
  method Subscribe(s: Service, name: string, d: Daemon, filterOk: bool, ghost log: Log)
    returns (err: int, reply: Option<map<string, Json>>, ghost log': Log)
    requires Logged(s, log)
    modifies s.registry`events, s.registry`nSubscribedCanid, s.registry.subscribedCanids, s.socket`filters
    ensures Logged(s, log')
    ensures log' == log.(states := log.states + [s.View()], commands := log.commands + [Command.Subscribe(name, d, filterOk)],
                         told := log.told + if reply.Some? then reply.value else map[])
    ensures s.registry.events == Register(old(s.registry.events), s.dict.properties, Requested(s.dict.support, name), d)
    ensures err == 0 <==> forall n :: n in Requested(s.dict.support, name) ==> n in s.registry.events && d.subscribes(n)
    ensures err == 0 <==> reply.Some?
    ensures reply.Some? ==> reply.value.Keys == Requested(s.dict.support, name)
  {
    hide Sends, Lives, Knows, Next, Register, Requested, Dictionary.Valid, Service.OthersTraffic, Run, Service.View, Service.Bound,
      Service.Presents, Replies, NoneTouched;
    NoStarListed(s);
    s.IndexIsChained();
    ghost var shown := s.Shown();
    err, reply := SubscribeApart(s, name, d, filterOk, shown);
    RegisterGrows(old(s.registry.events), s.dict.properties, Requested(s.dict.support, name), d);
    NothingTouched(s, log, shown, Requested(s.dict.support, name), d);
    TracedNext(s, log.states, log.commands, old(s.View()), Command.Subscribe(name, d, filterOk));
    if err == 0 {
      EventsAreShown(s, shown);
      RepliesToAll(Requested(s.dict.support, name), s.registry.events.Keys, shown, d);
    }
    log' := log.(states := log.states + [s.View()], commands := log.commands + [Command.Subscribe(name, d, filterOk)],
                 told := log.told + if reply.Some? then reply.value else map[]);
  }

  /** The unsubscribe verb, for one name or "*". */
  method Unsubscribe(s: Service, name: string, d: Daemon, ghost log: Log) returns (err: int, ghost log': Log)
    requires Logged(s, log)
    ensures Logged(s, log')
    ensures log' == log.(states := log.states + [s.View()], commands := log.commands + [Command.Unsubscribe])
    ensures err == 0 <==> forall n :: n in Requested(s.dict.support, name) ==> n in s.registry.events && d.unsubscribes(n)
  {
    hide Sends, Lives, Knows, Requested, Dictionary.Valid, Run, Service.View, Service.Bound;
    NoStarListed(s);
    err := s.UnsubscribeSignal(name, d);
    TracedNext(s, log.states, log.commands, s.View(), Command.Unsubscribe);
    log' := log.(states := log.states + [s.View()], commands := log.commands + [Command.Unsubscribe]);
  }

  /** The transmitters after CAN-ID `id` has taken `step`. */
  ghost function Stepped(sends: map<UInt32, Sending>, id: UInt32, step: Transmit.Step, before: seq<CanFrame>, after: seq<CanFrame>)
    : map<UInt32, Sending>
  {
    PassedAll(sends - {id}, before, after) +
    if id in sends then map[id := sends[id].(steps := sends[id].steps + [step])] else map[]
  }

  lemma SendsOneAtMost(t: Transmit.Tx, step: Transmit.Step)
    requires Decodable(t.defs) && |t.values| == |t.defs| && (step.Set? ==> step.signal < |t.defs|)
    ensures AtMostOne(t.sent, Transmit.Apply(t, step).sent)
  {
  }

  /** CAN-ID `id` has taken `step`, and the others have seen traffic. */
  twostate lemma SteppedSends(s: Service, new sends: map<UInt32, Sending>, new lives: map<Slot, Life>, new id: UInt32, new step: Transmit.Step)
    requires old(s.dict.Valid()) && old(Sends(s, sends)) && old(Lives(s, lives)) && Grown(s) && id in old(s.dict.canids)
    requires var r := old(s.dict.canids[id]);
             && old(r.Ready()) && r.Ready() && r.data.Length == 8
             && (step.Set? ==> step.signal < old(r.nData))
             && s.TxOf(r) == Transmit.Apply(old(s.TxOf(r)), step)
    requires forall r :: r in old(s.dict.canids.Values) && r != old(s.dict.canids[id]) ==> s.OthersTraffic(r)
    ensures Sends(s, Stepped(sends, id, step, old(s.socket.sent), s.socket.sent))
    ensures forall o: UInt32, i: nat :: Slot(o, i) in lives && o != id ==>
              o in s.dict.canids && Lived(s.dict.canids[o], i, lives[Slot(o, i)])
  {
    hide Sent, Lived, Service.OthersTraffic, Dictionary.Valid, Transmit.Apply, PassedAll, AtMostOne, CanidInfo.Ready;
    SendsOneAtMost(old(s.TxOf(s.dict.canids[id])), step);
    OwnId(s, id);
    KeepsSignals(s, sends, lives, {id});
    if id in sends {
      OwnSend(s, id, sends[id], step);
    }
  }

  twostate lemma OwnId(s: Service, new id: UInt32)
    requires old(s.dict.Valid()) && id in old(s.dict.canids)
    ensures old(s.dict.canids[id]).canid == id
    ensures forall r :: r in old(s.dict.canids.Values) && r.canid == id ==> r == old(s.dict.canids[id])
  {
    hide Dictionary.Listed, Dictionary.Agrees, Dictionary.OwnsSlots, Supports;
  }

  /** The set verb. */
  method Set(s: Service, name: string, v: UInt32, ghost log: Log)
    returns (ok: bool, ghost info: CanidInfo?, ghost k: nat, ghost log': Log)
    requires Logged(s, log)
    modifies s.dict.NodesByName(name)`curValue, s.dict.DataByName(name), s.socket`sent
    ensures Logged(s, log') && (ok <==> name in s.dict.properties)
    ensures !ok ==> log' == log && s.socket.sent == old(s.socket.sent)
    ensures ok ==>
              && s.SetReaches(name, v, info, k) && info != null && s.ValueSet(s.dict.properties[name], v, info)
              && log' == log.(sends := Stepped(log.sends, info.canid, Transmit.Set(k, v), old(s.socket.sent), s.socket.sent),
                              lives := log.lives - {Slot(info.canid, k)}, told := log.told - {name})
  {
    hide Sends, Lives, Knows, Run, Service.OthersTraffic, Service.SetReaches, Service.ValueSet, Service.View, Service.Bound, Dictionary.Valid, Stepped;
    ok, info, k := s.Set(name, v);
    log' := log;
    if ok {
      SetKeeps(s, name, v, info, k, log.sends, log.lives);
      log' := log.(sends := Stepped(log.sends, info.canid, Transmit.Set(k, v), old(s.socket.sent), s.socket.sent),
                   lives := log.lives - {Slot(info.canid, k)}, told := log.told - {name});
      KnowsSet(s, log.told, name, v, info, k);
    } else {
      KeepsAllSignals(s, log.sends, log.lives);
      KnowsStill(s, log.told);
    }
  }

  twostate lemma SetKeeps(s: Service, new name: string, new v: UInt32, new info: CanidInfo?, new k: nat,
                          new sends: map<UInt32, Sending>, new lives: map<Slot, Life>)
    requires old(s.dict.Valid()) && old(Sends(s, sends)) && old(Lives(s, lives)) && s.dict.canids == old(s.dict.canids)
    requires s.SetReaches(name, v, info, k)
    requires forall r :: r in old(s.dict.canids.Values) && r != info ==> s.OthersTraffic(r)
    ensures info != null
    ensures Sends(s, Stepped(sends, info.canid, Transmit.Set(k, v), old(s.socket.sent), s.socket.sent))
    ensures Lives(s, lives - {Slot(info.canid, k)})
  {
    hide Sent, Service.OthersTraffic, Dictionary.Valid, Transmit.Apply, Stepped, CanidInfo.Ready, CanBit.State, Runs.Run, Runs.Initial;
    KnownId(s, info);
    SteppedSends(s, sends, lives, info.canid, Transmit.Set(k, v));
    forall id: UInt32, i: nat | Slot(id, i) in lives && Slot(id, i) != Slot(info.canid, k)
      ensures id in s.dict.canids && Lived(s.dict.canids[id], i, lives[Slot(id, i)])
    {
      if id == info.canid {
        assert old(Lived(s.dict.canids[id], i, lives[Slot(id, i)]));
      }
    }
  }

  twostate lemma KnownId(s: Service, new r: CanidInfo?)
    requires old(s.dict.Valid()) && r in old(s.dict.canids.Values)
    ensures r != null && r.canid in old(s.dict.canids) && old(s.dict.canids)[r.canid] == r
  {
    hide Dictionary.Listed, Dictionary.Agrees, Dictionary.OwnsSlots, Supports;
  }

  /** The handler itself touches neither record nor property. */
  method TickApart(s: Service, info: CanidInfo)
    requires s.Valid() && info in s.dict.canids.Values
    modifies s.socket`sent
    ensures s.Valid() && NoneTouched(s)
    ensures info.Ready() && old(info.Ready()) && info.data.Length == 8
    ensures s.TxOf(info) == Transmit.Apply(old(s.TxOf(info)), Transmit.Timer)
  {
    hide Dictionary.Valid, CanidInfo.Ready, Service.TxOf, Transmit.Apply, Service.Bound;
    s.OnTimerEvent(info);
  }

  /** A tick of the send timer of CAN-ID `id`. */
  method Timer(s: Service, id: UInt32, ghost log: Log) returns (ghost log': Log)
    requires Logged(s, log) && id in s.dict.canids
    modifies s.socket`sent
    ensures Logged(s, log')
    ensures log' == log.(sends := Stepped(log.sends, id, Transmit.Timer, old(s.socket.sent), s.socket.sent))
  {
    hide Sends, Lives, Knows, Run, Service.OthersTraffic, Service.View, Service.Bound, Dictionary.Valid, Stepped, KeepsNames,
      CanidInfo.Ready, Transmit.Apply, Service.TxOf;
    var info := s.dict.canids[id];
    TickApart(s, info);
    NoneTouchedKeeps(s);
    TimerKeeps(s, id, log.sends, log.lives);
    KnowsUntouched(s, log.told);
    log' := log.(sends := Stepped(log.sends, id, Transmit.Timer, old(s.socket.sent), s.socket.sent));
  }

  twostate lemma TimerKeeps(s: Service, new id: UInt32, new sends: map<UInt32, Sending>, new lives: map<Slot, Life>)
    requires old(s.dict.Valid()) && old(Sends(s, sends)) && old(Lives(s, lives)) && s.dict.canids == old(s.dict.canids)
    requires id in s.dict.canids
    requires var r := old(s.dict.canids[id]);
             old(r.Ready()) && r.Ready() && r.data.Length == 8 && s.TxOf(r) == Transmit.Apply(old(s.TxOf(r)), Transmit.Timer)
    requires forall r :: r in old(s.dict.canids.Values) ==> s.OthersTraffic(r)
    ensures Sends(s, Stepped(sends, id, Transmit.Timer, old(s.socket.sent), s.socket.sent))
    ensures Lives(s, lives)
  {
    hide Sent, Service.OthersTraffic, Dictionary.Valid, Transmit.Apply, Stepped, CanidInfo.Ready, CanBit.State, Runs.Run, Runs.Initial;
    SteppedSends(s, sends, lives, id, Transmit.Timer);
    forall i: nat | Slot(id, i) in lives
      ensures Lived(s.dict.canids[id], i, lives[Slot(id, i)])
    {
      assert old(Lived(s.dict.canids[id], i, lives[Slot(id, i)]));
      TrafficIsStill(s, id, i);
    }
  }

  /** The log after a frame: an accepted frame ends the transmitter of its CAN-ID, whose stored frame it
      has replaced, and is one more frame for each of its properties. */
  ghost function Received(log: Log, id: UInt32, cs: seq<Chain>, ds: seq<Decision>, f: Runs.Frame): Log {
    log.(sends := log.sends - {id}, lives := HeardAll(log.lives, id, cs, ds, f))
  }

  /** The record of an accepted frame. */
  twostate lemma ReceivedLives(s: Service, new frame: CanFrame, new timestamp: TimeVal, new clients: int -> int,
                               new ret: int, new ds: seq<Decision>, new lives: map<Slot, Life>)
    requires old(Lives(s, lives)) && s.dict.canids == old(s.dict.canids)
    requires FrameParsed(s.dict, s.registry, frame, timestamp, clients, ret, ds) && ret == 0
    ensures frame.canId % 0x800 in s.dict.canids && s.dict.canids[frame.canId % 0x800].Ready()
    ensures var id := frame.canId % 0x800;
            var r := s.dict.canids[id];
            forall i: nat :: Slot(id, i) in lives ==>
              && i < r.nData == |ds|
              && Lived(r, i, Heard(lives[Slot(id, i)], r.property[i].State(), ds[i], Runs.Frame(CanValue2Host(frame.data), timestamp)))
  {
    hide Step, CanBit.State, CanidInfo.Ready, CanBit.Chained, CanValue2Host, NotifyAll, Runs.Run, Runs.Initial, Heard, Chain.Valid;
    var id := frame.canId % 0x800;
    var r := s.dict.canids[id];
    var f := Runs.Frame(CanValue2Host(frame.data), timestamp);
    AllChained(r);
    forall i: nat | Slot(id, i) in lives
      ensures i < r.nData == |ds| && Lived(r, i, Heard(lives[Slot(id, i)], r.property[i].State(), ds[i], f))
    {
      assert old(Lived(s.dict.canids[id], i, lives[Slot(id, i)]));
      StateIsValid(r, i);
      OwnLife(r, i, lives[Slot(id, i)], f, ds[i]);
    }
  }

  twostate lemma StateIsValid(r: CanidInfo, new i: nat)
    requires old(r.Ready()) && i < old(r.nData)
    ensures old(r.property[i].Chained()) && old(r.property[i].State()).Valid()
  {
    assert old(r.property[i].Chained());
  }

  twostate lemma ReceiveKeeps(s: Service, new frame: CanFrame, new timestamp: TimeVal, new clients: int -> int,
                              new ret: int, new ds: seq<Decision>, new log: Log)
    requires old(s.dict.Valid()) && old(Sends(s, log.sends)) && old(Lives(s, log.lives)) && s.dict.canids == old(s.dict.canids)
    requires s.socket.sent == old(s.socket.sent)
    requires FrameParsed(s.dict, s.registry, frame, timestamp, clients, ret, ds) && ret == 0
    requires forall r :: r in old(s.dict.canids.Values) && r.canid != frame.canId % 0x800 ==> s.OthersTraffic(r)
    ensures frame.canId % 0x800 in s.dict.canids && s.dict.canids[frame.canId % 0x800].Ready()
    ensures var id := frame.canId % 0x800;
            var log' := Received(log, id, States(s.dict.canids[id]), ds, Runs.Frame(CanValue2Host(frame.data), timestamp));
            Sends(s, log'.sends) && Lives(s, log'.lives)
  {
    hide Sent, Lived, Service.OthersTraffic, Dictionary.Valid, FrameParsed, CanidInfo.Ready, CanBit.State, CanValue2Host, Heard;
    var id := frame.canId % 0x800;
    KeepsSignals(s, log.sends, log.lives, {id});
    assert PassedAll(log.sends - {id}, old(s.socket.sent), s.socket.sent) == log.sends - {id};
    ReceivedLives(s, frame, timestamp, clients, ret, ds, log.lives);
  }

  /** A frame arrives. */
  method Receive(s: Service, frame: CanFrame, timestamp: TimeVal, clients: int -> int, ghost log: Log)
    returns (ret: int, ghost dropped: set<string>, ghost ds: seq<Decision>, ghost log': Log)
    requires Logged(s, log)
    modifies s.dict.RecordOf(frame.canId % 0x800)`frameId, s.dict.RecordOf(frame.canId % 0x800)`frameDlc
    modifies s.dict.DataOf(frame.canId % 0x800)
    modifies s.dict.NodesOf(frame.canId % 0x800)`curValue, s.dict.NodesOf(frame.canId % 0x800)`updatetime
    modifies s.dict.NodesOf(frame.canId % 0x800)`applyinfo
    modifies s.registry`events, s.registry`pushed
    ensures Logged(s, log')
    ensures FrameParsed(s.dict, s.registry, frame, timestamp, clients, ret, ds)
    ensures dropped == old(s.registry.events).Keys - s.registry.events.Keys
    ensures log'.states == log.states + [s.View()] && log'.commands == log.commands + [Command.Drop(dropped)]
    ensures log'.told == Registered(TellAll(log.told, Since(old(s.registry.pushed), s.registry.pushed)), s.registry.events.Keys)
    ensures ret != 0 ==> log'.sends == log.sends && log'.lives == log.lives
    ensures ret == 0 ==>
              var id := frame.canId % 0x800;
              && id in s.dict.canids && s.dict.canids[id].Ready()
              && var heard := Received(log, id, States(s.dict.canids[id]), ds, Runs.Frame(CanValue2Host(frame.data), timestamp));
                 log'.sends == heard.sends && log'.lives == heard.lives
  {
    hide Sends, Lives, Knows, Run, Next, Service.OthersTraffic, Service.View, Dictionary.Valid, FrameParsed, Received,
      Service.Bound, Registered, TellAll, Since, CanidInfo.Ready, States, CanValue2Host;
    ret, dropped, ds := s.Receive(frame, timestamp, clients);
    TracedNext(s, log.states, log.commands, old(s.View()), Command.Drop(dropped));
    log' := log;
    if ret == 0 {
      ReceiveKeeps(s, frame, timestamp, clients, ret, ds, log);
      log' := Received(log, frame.canId % 0x800, States(s.dict.canids[frame.canId % 0x800]), ds,
                       Runs.Frame(CanValue2Host(frame.data), timestamp));
    } else {
      KeepsAllSignals(s, log.sends, log.lives);
    }
    KnowsFrame(s, frame, timestamp, clients, ret, ds, log.told);
    log' := log'.(states := log.states + [s.View()], commands := log.commands + [Command.Drop(dropped)],
                  told := Registered(TellAll(log.told, Since(old(s.registry.pushed), s.registry.pushed)), s.registry.events.Keys));
  }

  /** The log after CAN-ID `id` was loaded. */
  ghost function Loaded(log: Log, id: UInt32, tx: Transmit.Tx, cs: seq<Chain>, receives: bool): Log {
    log.(sends := log.sends[id := Sending(tx, [])],
         lives := if receives then log.lives + Born(id, cs) else log.lives)
  }

  twostate lemma LoadKeeps(s: Service, new info: CanidInfo, new g: seq<seq<Definition>>, new log: Log)
    requires old(s.dict.Valid()) && old(Sends(s, log.sends)) && old(Lives(s, log.lives)) && s.dict.Valid()
    requires info.canid !in old(s.dict.canids) && s.dict.canids == old(s.dict.canids)[info.canid := info]
    requires s.socket.sent == old(s.socket.sent) && forall r :: r in old(s.dict.canids.Values) ==> s.OthersTraffic(r)
    requires Realises(info, g) && info.nData == |g| && info.data.Length == 8
    ensures info.Ready()
    ensures var log' := Loaded(log, info.canid, s.TxOf(info), States(info), info.kind != Send);
            Sends(s, log'.sends) && Lives(s, log'.lives)
  {
    hide Sent, Lived, Service.OthersTraffic, Dictionary.Valid, Service.TxOf, Realises, CanidInfo.Ready, CanBit.State, StatesUpTo, Untouched;
    s.dict.ReadyRecord(info.canid);
    KeepsAllSignals(s, log.sends, log.lives);
    StartsSending(s, info);
    forall i: nat | i < info.nData && info.kind != Send
      ensures Lived(info, i, Life([States(info)[i]], [], []))
    {
      RealisesHead(info, g, i);
      BornIsLived(info, i, States(info)[i]);
    }
    NotBefore(s, log.lives, info.canid);
  }

  twostate lemma NotBefore(s: Service, new lives: map<Slot, Life>, new id: UInt32)
    requires old(Lives(s, lives)) && id !in old(s.dict.canids)
    ensures forall i: nat :: Slot(id, i) !in lives
  {
    hide Lived;
  }

  lemma StartsSending(s: Service, r: CanidInfo)
    requires r.Ready() && r.data.Length == 8
    ensures Sent(s, r, Sending(s.TxOf(r), []))
  {
    hide CanidInfo.Ready;
    Transmit.FollowsStart(s.TxOf(r));
  }

  twostate lemma KnowsLoaded(s: Service, new info: CanidInfo, new g: seq<seq<Definition>>, new told: map<string, Json>)
    requires old(s.dict.Valid()) && old(Knows(s, told)) && KeepsNames(s) && s.registry.events == old(s.registry.events)
    requires Indexes(s.dict.properties, old(s.dict.properties), info.property, g)
    requires forall r :: r in old(s.dict.canids.Values) ==> s.OthersTraffic(r)
    ensures Knows(s, told)
  {
    hide Dictionary.Valid, Knows, KeepsNames, Service.OthersTraffic, Indexes;
    forall n | n in old(s.dict.properties)
      ensures n in s.dict.properties && s.dict.properties[n] == old(s.dict.properties[n])
    {
      IndexedHead(s.dict.properties, old(s.dict.properties), info.property, g, n);
    }
    KnowsStill(s, told);
  }

  /** parse_caninfo: one CAN-ID object of the definition file. */
  method Load(s: Service, canid: UInt32, obj: Loader.CanidObject, kind: Kind, ghost log: Log)
    returns (err: int, ghost info: CanidInfo?, ghost defs: seq<Definition>, ghost log': Log)
    requires Logged(s, log)
    requires obj.data.Some? ==> forall i :: 0 <= i < |obj.data.value| ==> Loader.Usable(obj.data.value[i], kind)
    modifies s.dict
    ensures Logged(s, log')
    ensures info == null <==> obj.data.None? || canid in old(s.dict.canids) || canid % 0x800 in old(s.dict.canids)
    ensures info == null ==> err > 0 && log' == log && s.View() == old(s.View())
    ensures info != null ==>
              && Loader.Describes(obj.data.value, kind, defs) && fresh(info)
              && info.canid == canid % 0x800 && info.kind == kind && info.cycle == Loader.CycleOf(obj)
              && s.dict.canids == old(s.dict.canids)[canid % 0x800 := info]
              && var g := Group(defs, old(s.dict.properties).Keys);
                 info.nData == |g| && Realises(info, g)
                 && Indexes(s.dict.properties, old(s.dict.properties), info.property, g)
                 && s.dict.support == Extend(old(s.dict.support), old(s.dict.properties).Keys, NamesOf(defs))
    ensures info != null ==>
              && info.Ready() && info.data.Length == 8
              && log'.states == log.states + [s.View()]
              && log'.commands == log.commands + [Command.Define(canid % 0x800, NamesOf(defs))]
              && log'.sends == Loaded(log, canid % 0x800, s.TxOf(info), States(info), kind != Send).sends
              && log'.lives == Loaded(log, canid % 0x800, s.TxOf(info), States(info), kind != Send).lives
              && log'.told == log.told
    ensures info != null && Transmit.Sound(Kept(defs, old(s.dict.properties).Keys)) ==>
              Transmit.Initial(log'.sends[canid % 0x800].start, canid)
  {
    hide Sends, Lives, Knows, Run, Next, Service.OthersTraffic, Service.View, Service.Bound, Dictionary.Valid, Realises, Indexes, Group,
      Service.TxOf, States, CanidInfo.Ready, Loader.Usable, Loader.Describes, NamesOf, Extend, Transmit.Sound, Transmit.Initial, Born;
    err, info, defs := Loader.ParseCaninfo(s, canid, obj, kind);
    log' := log;
    if info == null {
      KeepsAllSignals(s, log.sends, log.lives);
      KnowsStill(s, log.told);
    } else {
      ghost var g := Group(defs, old(s.dict.properties).Keys);
      ghost var c := Command.Define(canid % 0x800, NamesOf(defs));
      LoadKeeps(s, info, g, log);
      KnowsLoaded(s, info, g, log.told);
      TracedNext(s, log.states, log.commands, old(s.View()), c);
      log' := Loaded(log, canid % 0x800, s.TxOf(info), States(info), kind != Send)
              .(states := log.states + [s.View()], commands := log.commands + [c]);
      if Transmit.Sound(Kept(defs, old(s.dict.properties).Keys)) {
        Loader.LoadedTransmits(s, info, canid, defs, old(s.dict.properties).Keys);
      }
    }
  }

  // ---------------------------------------------------------------------------------------
  // What holds in every reachable state
  // ---------------------------------------------------------------------------------------

  /** The filter covers every registered event, however the service got here, if the latest subscribe call
      installed its filter. */
  lemma FilterCovers(s: Service, log: Log)
    requires Logged(s, log) && LatestInstalled(log.states, log.commands, |log.commands|)
    ensures Covers(s.socket.filters, s.View().events)
  {
    hide Run, Covers, LatestInstalled, Next, Dictionary.Valid, Sends, Lives;
    FilterCoversEvents(log.states, log.commands, |log.commands|);
  }

  /** Until something is subscribed there is no event, and yet CAN-ID 0x7FF gets through. */
  lemma OnlyOneIdPasses(s: Service, log: Log, received: UInt32)
    requires Logged(s, log) && forall k :: 0 <= k < |log.commands| ==> !log.commands[k].Subscribe?
    ensures s.registry.events == map[]
    ensures Accepts(s.socket.filters, received) <==> received % 0x800 == 0x7FF
  {
    hide Run, Accepts, Next, Dictionary.Valid, Sends, Lives;
    NothingSubscribed(log.states, log.commands, |log.commands|);
    assert s.View().events.Keys == s.registry.events.Keys;
  }

  /** A frame with the CAN-ID of a registered event passes the filter, leads to the record of that
      event, and reaches the event's property in exactly one of its slots. */
  lemma FrameReachesEvent(s: Service, log: Log, name: string, received: UInt32) returns (k: nat)
    requires Logged(s, log) && LatestInstalled(log.states, log.commands, |log.commands|)
    requires name in s.registry.events && s.registry.events[name].mycanid.canid == received % 0x800
    ensures Accepts(s.socket.filters, received)
    ensures var info := s.registry.events[name].mycanid;
            && s.dict.GetCanid(received % 0x800) == info && info.Ready()
            && k < info.nData && info.property[k] == s.registry.events[name]
            && (forall i :: 0 <= i < info.nData && Names(info)[i] == name ==> i == k)
  {
    hide Accepts, LatestInstalled, Run, Names, Dictionary.Valid, CanidInfo.Ready, Sends, Lives;
    FilterCovers(s, log);
    assert s.View().events[name] == received % 0x800;
    k := s.EventIsReached(name, received);
  }

  /** Every frame that a loaded CAN-ID with signals that do not overlap has transmitted, by `set` or by
      its timer, is a snapshot of the sets before it; its stored frame is a snapshot of all sets. */
  lemma FramesAreSnapshots(s: Service, log: Log, id: UInt32, canid: UInt32, n: nat)
    requires Logged(s, log) && id in log.sends && n < |log.sends[id].steps|
    requires Transmit.Initial(log.sends[id].start, canid)
    requires Transmit.Targets(log.sends[id].start.defs, log.sends[id].steps)
    requires Transmit.Transmits(log.sends[id].start.defs, log.sends[id].steps[n])
    ensures var start, steps := log.sends[id].start, log.sends[id].steps;
            && Transmit.Targets(start.defs, steps[..n]) && Transmit.Targets(start.defs, steps[..n + 1])
            && var k := |Transmit.Run(start, steps[..n]).sent|;
               k < |s.socket.sent| && Transmit.Snapshot(s.socket.sent[k], canid, start.defs, Transmit.Successes(start.defs, steps[..n + 1]))
    ensures id in s.dict.canids && s.dict.canids[id].data.Length == 8
    ensures var start, steps := log.sends[id].start, log.sends[id].steps;
            Transmit.Snapshot(s.dict.canids[id].Frame(), canid, start.defs, Transmit.Successes(start.defs, steps))
  {
    hide Transmit.Initial, Transmit.Snapshot, Transmit.Successes, Transmit.Run, Dictionary.Valid, Traced, Lives, CanidInfo.Ready;
    var g := log.sends[id];
    assert Sent(s, s.dict.canids[id], g);
    Transmit.TransmittedIsSnapshot(g.start, canid, g.steps, s.TxOf(s.dict.canids[id]), n);
    Transmit.FrameIsSnapshot(g.start, canid, g.steps);
  }

  /** Every signal of a loaded CAN-ID reports the value that was set last, or still holds the one it had. */
  lemma SignalTellsLastSet(s: Service, log: Log, id: UInt32, k: nat)
    requires Logged(s, log) && id in log.sends && k < |log.sends[id].start.defs|
    requires Decodable(log.sends[id].start.defs) && Transmit.Targets(log.sends[id].start.defs, log.sends[id].steps)
    ensures id in s.dict.canids && k < |s.dict.canids[id].property| && k < |log.sends[id].start.values|
    ensures var p, g := s.dict.canids[id].property[k], log.sends[id];
            && p.Sound() && p.def == g.start.defs[k]
            && match LastWrite(Transmit.Successes(g.start.defs, g.steps), k)
               case None => p.curValue == g.start.values[k]
               case Some(v) => Tells(p.def, v, ToJson(p.def, p.curValue))
  {
    hide Transmit.Successes, Transmit.Run, LastWrite, Dictionary.Valid, Traced, Lives, CanidInfo.Ready, CanBit.Chained, ToJson, Tells;
    var g, r := log.sends[id], s.dict.canids[id];
    assert Sent(s, r, g);
    HeadFacts(r, k);
    HeadSound(r.property[k]);
    Transmit.OwnReportTellsLastSet(g.start, g.steps, k);
  }

  /** A property that was not set is at the end of a run of the frames received on its CAN-ID. */
  lemma LifeOf(s: Service, log: Log, id: UInt32, i: nat)
    requires Logged(s, log) && Slot(id, i) in log.lives
    ensures id in s.dict.canids && Lived(s.dict.canids[id], i, log.lives[Slot(id, i)])
  {
    hide Lived, Dictionary.Valid, Traced, Sends, Knows;
  }

  lemma StateTime(h: CanBit)
    requires h.Chained()
    ensures h.State().updated == h.updatetime
  {
  }

  /** After an error-free frame the property object has been pushed within its cycle. */
  lemma PropertyIsFresh(r: CanidInfo, i: nat, l: Life)
    requires Lived(r, i, l) && |l.frames| > 0
    requires ErrorFree(l.states[0].defs, l.frames[|l.frames| - 1].word)
    ensures |l.decisions| == |l.frames| && i < |r.property|
    ensures r.cycle > 0 ==> ElapsMs(r.property[i].updatetime, l.frames[|l.frames| - 1].time) < r.cycle
    ensures r.cycle == 0 ==> l.decisions[|l.frames| - 1].Push?
  {
    hide ElapsMs, Step, CanBit.State, CanBit.Chained, CanidInfo.Ready, Chain.Valid;
    HeadFacts(r, i);
    StateTime(r.property[i]);
    Runs.Freshness(l.states, l.decisions, l.frames, r.cycle, |l.frames|);
  }

  /** A plain property object has the value of its latest push decision, or zero. */
  lemma PropertyShowsLastPush(r: CanidInfo, i: nat, l: Life)
    requires Lived(r, i, l) && i < |r.property| && r.property[i].next == null && Runs.Lossless(l.states[0], r.cycle)
    ensures |l.decisions| == |l.frames| && |l.states| == |l.frames| + 1
    ensures match Runs.LastPush(l.decisions, |l.frames|)
            case None => r.property[i].curValue == 0
            case Some(p) => |l.states[p + 1].values| == 1 && r.property[i].curValue == l.states[p + 1].values[0]
  {
    hide Step, Runs.NeverSilent;
    AllChained(r);
    r.property[i].NextMeansMany();
    assert r.property[i].State().values == [r.property[i].curValue];
    Runs.NoLostChange(l.states, l.decisions, l.frames, r.cycle, |l.frames|);
  }

  /** A plain property object reports what the bytes of the latest frame that decoded have to say, or the
      value it was loaded with. */
  lemma PropertyTellsLatestFrame(r: CanidInfo, i: nat, l: Life)
    requires Lived(r, i, l) && i < |r.property| && r.property[i].Chained() && |l.states[0].defs| == 1
    ensures |l.decisions| == |l.frames| && r.property[i].def == l.states[0].defs[0]
    ensures r.property[i].def.layout.Valid() && r.property[i].def.WellTyped() && r.property[i].def.Holds(0)
    ensures match Runs.LastDecoded(l.decisions, |l.frames|)
            case None => r.property[i].State().Report() == ToJson(r.property[i].def, 0)
            case Some(p) => FieldTells(r.property[i].def, Host2CanValue(l.frames[p].word), r.property[i].State().Report())
  {
    hide Step, CanBit.Chained, ToJson, FieldTells, Meaningless, Host2CanValue, CanidInfo.Ready;
    Runs.ReportTellsLatest(l.states, l.decisions, l.frames, r.cycle, |l.frames|);
    assert l.states[0].Valid() && l.states[|l.frames|].defs[0] == l.states[0].defs[0];
    HeadDef(r.property[i]);
    UndecodedReport(r.property[i].def);
  }

  lemma HeadDef(h: CanBit)
    requires h.Chained()
    ensures h.State().defs[0] == h.def
  {
  }

  /** A multi-property object, all of whose frames decoded, reports something else than was pushed only while
      no member is active and the cycle has not passed. */
  lemma PropertyIsStaleOnlyWhenInactive(r: CanidInfo, i: nat, l: Life)
    requires Lived(r, i, l) && i < |r.property| && r.property[i].Chained()
    requires 1 < |l.states[0].defs| && Runs.AllErrorFree(l.states, l.frames)
    requires r.cycle == 0 || Runs.NeverClashes(l.states[0].defs)
    requires Runs.LastPush(l.decisions, |l.frames|).Some?
    ensures var n := |l.frames|;
            var p := Runs.LastPush(l.decisions, n).value;
            r.property[i].State().Report() != l.states[p + 1].Report() ==>
              && !Runs.AnyActive(l.states[0].defs, l.frames[n - 1].word)
              && ElapsMs(l.frames[p].time, l.frames[n - 1].time) < r.cycle
  {
    hide Step, Runs.NeverClashes, CanBit.State, CanBit.Chained, Chain.Report, ElapsMs;
    Runs.Staleness(l.states, l.decisions, l.frames, r.cycle, |l.frames|);
  }

  /** What clients were told last is what the property reports now: for every registered event they were told
      about whose name no other slot carries, and whose property is plain and never changes silently. */
  lemma ToldIsCurrent(s: Service, log: Log, name: string)
    requires Logged(s, log) && name in log.told && Alone(s, name)
    ensures name in s.registry.events && s.registry.events[name] == s.dict.properties[name]
    ensures s.registry.events[name].Chained() && s.registry.events[name].mycanid != null
    ensures Runs.Lossless(s.registry.events[name].State(), s.registry.events[name].mycanid.cycle) ==>
              log.told[name] == s.registry.events[name].State().Report()
  {
    hide Dictionary.Valid, Traced, Sends, Lives, Alone, CanBit.Chained, CanBit.State, Runs.Lossless;
    assert Right(s, name, log.told[name]);
  }

  /** With a daemon that makes every event, subscribing to "*" in a service without events registers every
      indexed name if and only if they are at most 512. */
  lemma StarIsCompleteIff(s: Service, d: Daemon)
    requires s.Valid() && s.registry.events == map[] && forall name :: d.makes(name)
    ensures Register(s.registry.events, s.dict.properties, Requested(s.dict.support, "*"), d).Keys == s.dict.properties.Keys <==>
            |s.dict.properties| <= SUPPORT_PROPERTY_LIMIT
  {
    hide Dictionary.Valid, Register, Requested, Lists;
    s.dict.SupportIsCompleteIff();
    StarRegistersAllIff(s.dict.support, s.dict.properties, d);
  }
}
