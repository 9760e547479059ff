/** Index, subscribed events and kernel filter as one state machine: what holds in every reachable
    state (src/canid_search.c, src/bind_event.c, src/af-canivi-binding.c, src/socketcan_raw.c). */
module Subscriptions {
  import opened Words
  import opened Grouping

  const CAN_SFF_MASK: UInt32 := 0x7FF
  const SUPPORT_CANID_MAX: nat := 512

  /** struct can_filter: a frame passes when `received & mask == id & mask`, as section 4.1.1 of the
      Linux Documentation/networking/can.txt defines it. */
  datatype Filter = Filter(canId: UInt32, canMask: UInt32)

  function Masked(id: UInt32, mask: UInt32): nat {
    Val(And(Bits(id, 64), Bits(mask, 64)))
  }

  /** A frame passes when one of the filters matches it. */
  predicate Accepts(filters: seq<Filter>, received: UInt32) {
    exists f :: f in filters && Masked(received, f.canMask) == Masked(f.canId, f.canMask)
  }

  /** The filter that socketcan_open installs. */
  const CLOSED: seq<Filter> := [Filter(CAN_SFF_MASK, CAN_SFF_MASK)]

  function FilterFor(ids: seq<UInt32>): seq<Filter> {
    seq(|ids|, i requires 0 <= i < |ids| => Filter(ids[i], CAN_SFF_MASK))
  }

  lemma MaskedLow(id: UInt32, n: nat)
    requires n <= 64
    ensures Val(And(Bits(id, 64), Mask(n))) == id % Pow2(n)
  {
    var v := And(Bits(id, 64), Mask(n));
    ValPadded(v, n);
    forall i | 0 <= i < n
      ensures v[..n][i] == Bits(id, n)[i]
    {
      BitsAgree(id, n, 64, i);
    }
    assert v[..n] == Bits(id, n);
    ValOfBits(id, n);
  }

  /** The standard mask keeps the 11 low bits. */
  lemma MaskedStandard(id: UInt32)
    ensures Masked(id, CAN_SFF_MASK) == id % 0x800
  {
    assert Pow2(11) == 0x800 by { Pow2Values(); assert Pow2(11) == 8 * Pow2(8); }
    assert Bits(CAN_SFF_MASK, 64) == Mask(11) by {
      MaskIsPow2Minus1(11);
      BitsOfVal(Mask(11));
    }
    MaskedLow(id, 11);
  }

  /** The answers of the afb daemon during one verb call: whether it makes an event for a name, and
      whether it subscribes or unsubscribes the client. */
  datatype Daemon = Daemon(makes: string -> bool, subscribes: string -> bool, unsubscribes: string -> bool)

  /** `owner`: property_root, each name with its CAN-ID; `events`: bind_event_root likewise. */
  datatype State = State(ids: set<UInt32>, owner: map<string, UInt32>, support: seq<string>,
                         events: map<string, UInt32>, filters: seq<Filter>)

  datatype Command =
    | Define(id: UInt32, names: seq<string>)
    | Subscribe(name: string, daemon: Daemon, filterOk: bool)
    | Unsubscribe
    | Drop(dropped: set<string>)

  const START := State({}, map[], [], map[], CLOSED)

  /** addCANID_dict on the index: a known CAN-ID is refused, a known name stays with its owner. */
  function DefineId(owner: map<string, UInt32>, id: UInt32, names: seq<string>): map<string, UInt32> {
    map n | n in owner.Keys + NameSet(names) :: if n in owner then owner[n] else id
  }

  /** The registry after a verb has asked for `names`: existing events stay, and an event is made for
      every other name that is indexed, if the daemon agrees. */
  function Register<T>(events: map<string, T>, index: map<string, T>, names: set<string>, d: Daemon): map<string, T> {
    map n | n in events.Keys + index.Keys * names && (n in events || d.makes(n)) :: if n in events then events[n] else index[n]
  }

  /** The names a subscribe verb asks for. */
  function Requested(support: seq<string>, name: string): set<string> {
    if name == "*" then NameSet(support) else {name}
  }

  lemma RegisterHas<T>(events: map<string, T>, index: map<string, T>, names: set<string>, d: Daemon, n: string)
    requires n in names
    ensures n in Register(events, index, names, d) <==> n in events || (n in index && d.makes(n))
  {
  }

  lemma RegisterGrows<T>(events: map<string, T>, index: map<string, T>, names: set<string>, d: Daemon)
    ensures events.Keys <= Register(events, index, names, d).Keys
  {
  }

  lemma RegisterNone<T>(events: map<string, T>, index: map<string, T>, d: Daemon)
    ensures Register(events, index, {}, d) == events
  {
  }

  lemma NamesOfNone(names: seq<string>)
    ensures NameSet(names[..0]) == {}
  {
  }

  lemma NamesOfNext(names: seq<string>, i: nat)
    requires i < |names|
    ensures NameSet(names[..i + 1]) == NameSet(names[..i]) + {names[i]}
  {
    assert names[..i + 1] == names[..i] + [names[i]];
  }

  /** Asking for names one after the other is asking for all of them. */
  lemma RegisterInTurn<T>(events: map<string, T>, index: map<string, T>, a: set<string>, b: set<string>, d: Daemon)
    ensures Register(Register(events, index, a, d), index, b, d) == Register(events, index, a + b, d)
  {
  }

  function IdsOf(events: map<string, UInt32>): set<UInt32> {
    set n | n in events :: events[n]
  }

  /** What getSubscribedCanids returns: every CAN-ID once, up to the capacity of its array, in an
      order that depends on the shape of the tree. */
  ghost predicate Listing(events: map<string, UInt32>, list: seq<UInt32>) {
    && (forall i, j :: 0 <= i < j < |list| ==> list[i] != list[j])
    && (forall id :: id in list ==> id in IdsOf(events))
    && |list| == if |IdsOf(events)| <= SUPPORT_CANID_MAX then |IdsOf(events)| else SUPPORT_CANID_MAX
  }

  lemma EmptyListing(events: map<string, UInt32>, list: seq<UInt32>)
    requires Listing(events, list)
    ensures events == map[] <==> |list| == 0
  {
    if events != map[] {
      var e :| e in events;
      assert events[e] in IdsOf(events);
    } else {
      assert IdsOf(events) == {};
    }
  }

  /** socketcan_update_filter: nothing for an empty list, and nothing when the system call fails. */
  ghost predicate Installs(filters: seq<Filter>, events: map<string, UInt32>, ok: bool, filters': seq<Filter>) {
    if events == map[] || !ok then filters' == filters
    else exists list :: Listing(events, list) && filters' == FilterFor(list)
  }

  ghost predicate Next(s: State, command: Command, s': State) {
    match command
    case Define(id, names) =>
      if id in s.ids then s' == s
      else s' == s.(ids := s.ids + {id}, owner := DefineId(s.owner, id, names), support := Extend(s.support, s.owner.Keys, names))
    case Subscribe(name, d, ok) =>
      var events := Register(s.events, s.owner, Requested(s.support, name), d);
      s'.(filters := s.filters) == s.(events := events) && Installs(s.filters, events, ok, s'.filters)
    case Unsubscribe => s' == s
    case Drop(dropped) => s' == s.(events := s.events - dropped)
  }

  /** The subscribe verb takes one step of the machine. */
  lemma SubscribeStep(s: State, name: string, d: Daemon, ok: bool, s': State, list: seq<UInt32>)
    requires s'.ids == s.ids && s'.owner == s.owner && s'.support == s.support
    requires s'.events == Register(s.events, s.owner, Requested(s.support, name), d)
    requires Listing(s'.events, list) && s'.filters == if |list| > 0 && ok then FilterFor(list) else s.filters
    ensures Next(s, Command.Subscribe(name, d, ok), s')
  {
    hide Register, Requested, Listing;
    EmptyListing(s'.events, list);
  }

  ghost predicate Run(ss: seq<State>, commands: seq<Command>) {
    && |ss| == |commands| + 1 && ss[0] == START
    && forall n :: 0 <= n < |commands| ==> Next(ss[n], commands[n], ss[n + 1])
  }

  // ---------------------------------------------------------------------------------------
  // Registry
  // ---------------------------------------------------------------------------------------

  /** Every event stands for an indexed name and its CAN-ID, in every reachable state. */
  lemma {:induction false} EventsAreIndexed(ss: seq<State>, commands: seq<Command>, n: nat)
    requires Run(ss, commands) && n <= |commands|
    ensures forall e :: e in ss[n].events ==> e in ss[n].owner && ss[n].events[e] == ss[n].owner[e]
  {
    if n > 0 {
      EventsAreIndexed(ss, commands, n - 1);
      assert Next(ss[n - 1], commands[n - 1], ss[n]);
    }
  }

  /** Index entries never change and never go away. */
  lemma {:induction false} OwnersAreStable(ss: seq<State>, commands: seq<Command>, m: nat, n: nat)
    requires Run(ss, commands) && m <= n <= |commands|
    ensures forall p :: p in ss[m].owner ==> p in ss[n].owner && ss[n].owner[p] == ss[m].owner[p]
  {
    if m < n {
      OwnersAreStable(ss, commands, m, n - 1);
      assert Next(ss[n - 1], commands[n - 1], ss[n]);
    }
  }

  /** Step `k` defines a CAN-ID that no earlier step defines; any other definition is refused. */
  ghost predicate Defines(commands: seq<Command>, k: nat) {
    && k < |commands| && commands[k].Define?
    && forall j :: 0 <= j < k && commands[j].Define? ==> commands[j].id != commands[k].id
  }

  /** Step `k` is the first accepted definition that mentions `name`. */
  ghost predicate FirstDefines(commands: seq<Command>, k: nat, name: string) {
    && Defines(commands, k) && name in commands[k].names
    && forall j :: 0 <= j < k && Defines(commands, j) ==> name !in commands[j].names
  }

  /** The known CAN-IDs are those that some step defined. */
  lemma {:induction false} IdsAreDefined(ss: seq<State>, commands: seq<Command>, n: nat)
    requires Run(ss, commands) && n <= |commands|
    ensures forall id :: id in ss[n].ids <==> exists j :: 0 <= j < n && commands[j].Define? && commands[j].id == id
    ensures n < |commands| && commands[n].Define? ==> (commands[n].id !in ss[n].ids <==> Defines(commands, n))
  {
    if n > 0 {
      IdsAreDefined(ss, commands, n - 1);
      assert Next(ss[n - 1], commands[n - 1], ss[n]);
    }
  }

  /** One step adds exactly the names of an accepted definition. */
  lemma OwnedNext(ss: seq<State>, commands: seq<Command>, n: nat, name: string)
    requires Run(ss, commands) && n < |commands|
    ensures name in ss[n + 1].owner <==> name in ss[n].owner || (Defines(commands, n) && name in commands[n].names)
  {
    IdsAreDefined(ss, commands, n);
    hide Defines;
    assert Next(ss[n], commands[n], ss[n + 1]);
  }

  /** Names are indexed by accepted definitions only, and by every one of them. */
  lemma {:induction false} OwnedIsDefined(ss: seq<State>, commands: seq<Command>, n: nat, name: string)
    requires Run(ss, commands) && n <= |commands|
    ensures name in ss[n].owner <==> exists k :: 0 <= k < n && Defines(commands, k) && name in commands[k].names
  {
    hide Next;
    if n > 0 {
      OwnedIsDefined(ss, commands, n - 1, name);
      OwnedNext(ss, commands, n - 1, name);
    }
  }

  /** What is indexed was first defined by some step. */
  lemma {:induction false} SomeFirstDefiner(commands: seq<Command>, n: nat, name: string) returns (k: nat)
    requires n <= |commands| && exists j :: 0 <= j < n && Defines(commands, j) && name in commands[j].names
    ensures k < n && FirstDefines(commands, k, name)
  {
    var j: nat :| j < n && Defines(commands, j) && name in commands[j].names;
    if exists i :: 0 <= i < j && Defines(commands, i) && name in commands[i].names {
      k := SomeFirstDefiner(commands, j, name);
    } else {
      k := j;
    }
  }

  /** A name belongs to the CAN-ID whose definition first mentioned it, and to no other. */
  lemma FirstDefinerOwns(ss: seq<State>, commands: seq<Command>, n: nat, name: string)
    requires Run(ss, commands) && n <= |commands|
    ensures name in ss[n].owner <==> exists k :: 0 <= k < n && FirstDefines(commands, k, name)
    ensures forall k :: 0 <= k < n && FirstDefines(commands, k, name) ==> name in ss[n].owner && ss[n].owner[name] == commands[k].id
  {
    hide Next;
    OwnedIsDefined(ss, commands, n, name);
    if name in ss[n].owner {
      var k := SomeFirstDefiner(commands, n, name);
    }
    forall k: nat | k < n && FirstDefines(commands, k, name)
      ensures name in ss[n].owner && ss[n].owner[name] == commands[k].id
    {
      FirstDefinition(ss, commands, k, name);
      OwnersAreStable(ss, commands, k + 1, n);
    }
  }

  lemma FirstDefinition(ss: seq<State>, commands: seq<Command>, k: nat, name: string)
    requires Run(ss, commands) && FirstDefines(commands, k, name)
    ensures name in ss[k + 1].owner && ss[k + 1].owner[name] == commands[k].id
  {
    OwnedIsDefined(ss, commands, k, name);
    IdsAreDefined(ss, commands, k);
    assert Next(ss[k], commands[k], ss[k + 1]);
  }

  // ---------------------------------------------------------------------------------------
  // Filter
  // ---------------------------------------------------------------------------------------

  /** Every frame that carries the CAN-ID of an event gets through. */
  ghost predicate Covers(filters: seq<Filter>, events: map<string, UInt32>) {
    forall e, received: UInt32 :: e in events && received % 0x800 == events[e] ==> Accepts(filters, received)
  }

  ghost predicate Standard(events: map<string, UInt32>) {
    forall e :: e in events ==> events[e] < 0x800
  }

  function ToSet(list: seq<UInt32>): set<UInt32> {
    set id | id in list
  }

  lemma {:induction false} ListCardinality(list: seq<UInt32>)
    requires forall i, j :: 0 <= i < j < |list| ==> list[i] != list[j]
    ensures |ToSet(list)| == |list|
  {
    if list != [] {
      var k := |list| - 1;
      ListCardinality(list[..k]);
      assert ToSet(list) == ToSet(list[..k]) + {list[k]};
    }
  }

  lemma SubsetOfEqualSize(a: set<UInt32>, b: set<UInt32>)
    requires a <= b && |a| == |b|
    ensures a == b
  {
    assert |b - a| == |b| - |a|;
    assert b == a + (b - a);
  }

  lemma SubsetSize(a: set<UInt32>, b: set<UInt32>)
    requires a <= b
    ensures |a| <= |b|
  {
    assert |b - a| == |b| - |a|;
  }

  /** The list while a walk has visited the events `done`. */
  ghost predicate Collected(list: seq<UInt32>, events: map<string, UInt32>, done: set<string>)
    requires done <= events.Keys
  {
    && |list| <= SUPPORT_CANID_MAX
    && (forall i, j :: 0 <= i < j < |list| ==> list[i] != list[j])
    && (forall id :: id in list ==> id in IdsOf(events))
    && (|list| < SUPPORT_CANID_MAX ==> forall n :: n in done ==> events[n] in list)
  }

  /** One visit adds a new CAN-ID while there is room. */
  function Collect(list: seq<UInt32>, id: UInt32): seq<UInt32> {
    if id in list || |list| >= SUPPORT_CANID_MAX then list else list + [id]
  }

  lemma CollectNone(events: map<string, UInt32>)
    ensures Collected([], events, {})
  {
  }

  lemma CollectOne(list: seq<UInt32>, events: map<string, UInt32>, done: set<string>, name: string)
    requires done <= events.Keys && name in events && Collected(list, events, done)
    ensures Collected(Collect(list, events[name]), events, done + {name})
  {
    assert events[name] in IdsOf(events);
  }

  /** A complete walk lists the subscribed CAN-IDs, whatever its order. */
  lemma CollectedAll(list: seq<UInt32>, events: map<string, UInt32>)
    requires Collected(list, events, events.Keys)
    ensures Listing(events, list)
  {
    ListCardinality(list);
    SubsetSize(ToSet(list), IdsOf(events));
    if |list| < SUPPORT_CANID_MAX {
      assert ToSet(list) == IdsOf(events);
    }
  }

  /** The filter for a list of standard ids accepts exactly the frames with one of these ids. */
  lemma FilterIsExact(list: seq<UInt32>, received: UInt32)
    requires forall id :: id in list ==> id < 0x800
    ensures Accepts(FilterFor(list), received) <==> received % 0x800 in list
  {
    hide Masked;
    MaskedStandard(received);
    if received % 0x800 in list {
      var i :| 0 <= i < |list| && list[i] == received % 0x800;
      MaskedStandard(list[i]);
      assert FilterFor(list)[i] == Filter(list[i], CAN_SFF_MASK);
    }
    if f :| f in FilterFor(list) && Masked(received, f.canMask) == Masked(f.canId, f.canMask) {
      var i :| 0 <= i < |FilterFor(list)| && FilterFor(list)[i] == f;
      assert f == Filter(list[i], CAN_SFF_MASK) && list[i] in list;
      MaskedStandard(list[i]);
      assert list[i] % 0x800 == list[i];
    }
  }

  /** The filter of socketcan_open is not closed: one CAN-ID passes. */
  lemma ClosedFilterPasses(received: UInt32)
    ensures Accepts(CLOSED, received) <==> received % 0x800 == 0x7FF
  {
    hide Accepts, Masked;
    assert CLOSED == FilterFor([CAN_SFF_MASK]);
    FilterIsExact([CAN_SFF_MASK], received);
  }

  /** Until something is subscribed the socket keeps that filter and there is no event. */
  lemma {:induction false} NothingSubscribed(ss: seq<State>, commands: seq<Command>, n: nat)
    requires Run(ss, commands) && n <= |commands| && forall k :: 0 <= k < n ==> !commands[k].Subscribe?
    ensures ss[n].events == map[] && ss[n].filters == CLOSED
    ensures forall received: UInt32 :: Accepts(ss[n].filters, received) <==> received % 0x800 == 0x7FF
  {
    hide Accepts;
    if n > 0 {
      NothingSubscribed(ss, commands, n - 1);
      assert Next(ss[n - 1], commands[n - 1], ss[n]);
    }
    forall received: UInt32
      ensures Accepts(CLOSED, received) <==> received % 0x800 == 0x7FF
    {
      ClosedFilterPasses(received);
    }
  }

  /** A successful recomputation covers every event exactly when the distinct CAN-IDs fit the array. */
  lemma RecomputedFilterCoversIff(events: map<string, UInt32>, list: seq<UInt32>)
    requires Standard(events) && Listing(events, list)
    ensures Covers(FilterFor(list), events) <==> |IdsOf(events)| <= SUPPORT_CANID_MAX
    ensures |IdsOf(events)| <= SUPPORT_CANID_MAX ==> ToSet(list) == IdsOf(events)
  {
    ListCardinality(list);
    forall received: UInt32
      ensures Accepts(FilterFor(list), received) <==> received % 0x800 in list
    {
      FilterIsExact(list, received);
    }
    assert forall e :: e in events ==> events[e] in IdsOf(events);
    if |IdsOf(events)| <= SUPPORT_CANID_MAX {
      SubsetOfEqualSize(ToSet(list), IdsOf(events));
    } else if Covers(FilterFor(list), events) {
      assert forall e :: e in events ==> events[e] % 0x800 == events[e];
      assert IdsOf(events) <= ToSet(list);
      SubsetSize(IdsOf(events), ToSet(list));
    }
  }

  /** The subscribe call of step `m` installed its filter, and its CAN-IDs fitted the array. */
  ghost predicate Installed(ss: seq<State>, commands: seq<Command>, m: nat)
    requires m < |commands| && |ss| == |commands| + 1
  {
    commands[m].Subscribe? && commands[m].filterOk && |IdsOf(ss[m + 1].events)| <= SUPPORT_CANID_MAX
  }

  /** The latest subscribe call among the first `n` steps, if there was one, installed its filter; what
      became of earlier calls does not matter. */
  ghost predicate LatestInstalled(ss: seq<State>, commands: seq<Command>, n: nat)
    requires n <= |commands| && |ss| == |commands| + 1
  {
    forall m :: 0 <= m < n && commands[m].Subscribe? && (forall k :: m < k < n ==> !commands[k].Subscribe?) ==>
      Installed(ss, commands, m)
  }

  ghost predicate StandardIds(commands: seq<Command>) {
    forall n :: 0 <= n < |commands| && commands[n].Define? ==> commands[n].id < 0x800
  }

  lemma {:induction false} OwnersAreStandard(ss: seq<State>, commands: seq<Command>, n: nat)
    requires Run(ss, commands) && StandardIds(commands) && n <= |commands|
    ensures forall p :: p in ss[n].owner ==> ss[n].owner[p] < 0x800
  {
    if n > 0 {
      OwnersAreStandard(ss, commands, n - 1);
      assert Next(ss[n - 1], commands[n - 1], ss[n]);
    }
  }

  /** A subscribe call that installed its filter makes it cover all events. */
  lemma InstalledCovers(ss: seq<State>, commands: seq<Command>, m: nat)
    requires Run(ss, commands) && StandardIds(commands) && m < |commands| && Installed(ss, commands, m)
    ensures Covers(ss[m + 1].filters, ss[m + 1].events)
  {
    var s, s' := ss[m], ss[m + 1];
    assert Next(s, commands[m], s');
    if s'.events != map[] {
      EventsAreIndexed(ss, commands, m + 1);
      OwnersAreStandard(ss, commands, m + 1);
      var list :| Listing(s'.events, list) && s'.filters == FilterFor(list);
      RecomputedFilterCoversIff(s'.events, list);
    }
  }

  lemma LatestBefore(ss: seq<State>, commands: seq<Command>, n: nat)
    requires |ss| == |commands| + 1 && 0 < n <= |commands| && LatestInstalled(ss, commands, n)
    ensures if commands[n - 1].Subscribe? then Installed(ss, commands, n - 1) else LatestInstalled(ss, commands, n - 1)
  {
    hide Installed;
  }

  /** Any other step leaves the filter alone and adds no event. */
  lemma OtherStepsCover(s: State, c: Command, s': State)
    requires Next(s, c, s') && !c.Subscribe? && Covers(s.filters, s.events)
    ensures Covers(s'.filters, s'.events)
  {
    hide Accepts;
  }

  /** The filter covers all events in every reachable state whose latest subscribe call installed it, although
      only subscribe recomputes it. */
  lemma {:induction false} FilterCoversEvents(ss: seq<State>, commands: seq<Command>, n: nat)
    requires Run(ss, commands) && StandardIds(commands) && n <= |commands| && LatestInstalled(ss, commands, n)
    ensures Covers(ss[n].filters, ss[n].events)
  {
    hide Next, Covers, LatestInstalled, Installed;
    if n == 0 {
      StartCovers();
    } else {
      LatestBefore(ss, commands, n);
      if commands[n - 1].Subscribe? {
        InstalledCovers(ss, commands, n - 1);
      } else {
        FilterCoversEvents(ss, commands, n - 1);
        OtherStepsCover(ss[n - 1], commands[n - 1], ss[n]);
      }
    }
  }

  lemma StartCovers()
    ensures Covers(START.filters, START.events)
  {
  }

  // ---------------------------------------------------------------------------------------
  // One CAN-ID too many
  // ---------------------------------------------------------------------------------------

  /** Different names for different numbers. */
  function NameOf(i: nat): (name: string)
    ensures |name| == i + 1 && name[0] == 'p'
  {
    seq(i + 1, _ => 'p')
  }

  /** The first `n` CAN-IDs, and a name for each. */
  ghost function Ids(n: nat): set<UInt32>
    requires n <= 0x800
  {
    if n == 0 then {} else Ids(n - 1) + {n - 1}
  }

  ghost function Numbered(n: nat): map<string, UInt32>
    requires n <= 0x800
  {
    if n == 0 then map[] else Numbered(n - 1)[NameOf(n - 1) := n - 1]
  }

  lemma {:induction false} IdsSize(n: nat)
    requires n <= 0x800
    ensures |Ids(n)| == n && forall id: UInt32 :: id in Ids(n) <==> id < n
  {
    if n > 0 {
      IdsSize(n - 1);
    }
  }

  lemma {:induction false} NumberedHas(n: nat, i: nat)
    requires n <= 0x800 && i < 0x800
    ensures NameOf(i) in Numbered(n) <==> i < n
    ensures i < n ==> Numbered(n)[NameOf(i)] == i
  {
    if n > 0 {
      NumberedHas(n - 1, i);
    }
  }

  lemma {:induction false} NumberedIds(n: nat)
    requires n <= 0x800
    ensures IdsOf(Numbered(n)) == Ids(n)
  {
    if n > 0 {
      NumberedIds(n - 1);
      NumberedHas(n - 1, n - 1);
      var m := Numbered(n - 1);
      assert forall name :: name in m ==> name in Numbered(n) && Numbered(n)[name] == m[name];
      assert forall id :: id in IdsOf(m) ==> exists name :: name in m && m[name] == id;
      assert NameOf(n - 1) in Numbered(n);
    } else {
      assert IdsOf(Numbered(0)) == {};
    }
  }

  lemma FirstIdsAreListed(n: nat)
    requires n <= 0x800
    ensures Listing(Numbered(n), FirstIds(n)) && |IdsOf(Numbered(n))| == n
  {
    hide IdsOf, Numbered, Ids;
    IdsSize(n);
    NumberedIds(n);
  }

  function Smaller(a: nat, b: nat): nat {
    if a < b then a else b
  }

  /** `d` CAN-IDs defined one name each, and the first `e` names subscribed. */
  ghost function Stage(d: nat, e: nat): State
    requires e <= d <= 0x800
  {
    State(Ids(d), Numbered(d), FirstNames(d), Numbered(e),
          if e == 0 then CLOSED else FilterFor(FirstIds(e)))
  }

  function FirstNames(d: nat): seq<string> {
    seq(Smaller(d, SUPPORT_PROPERTY_LIMIT), i requires 0 <= i => NameOf(i))
  }

  function FirstIds(e: nat): (list: seq<UInt32>)
    requires e <= 0x800
    ensures |list| == Smaller(e, SUPPORT_CANID_MAX) && forall i :: 0 <= i < |list| ==> list[i] == i
  {
    seq(Smaller(e, SUPPORT_CANID_MAX), i requires 0 <= i < 0x800 => i as UInt32)
  }

  lemma FirstNamesNext(d: nat)
    requires d < 0x800
    ensures Extend(FirstNames(d), Numbered(d).Keys, [NameOf(d)]) == FirstNames(d + 1)
  {
    hide NameOf;
    NumberedHas(d, d);
    ExtendOne(FirstNames(d), Numbered(d).Keys, NameOf(d));
  }

  lemma DefineNext(d: nat) returns (c: Command)
    requires d < 0x800
    ensures c.Define? && c.id < 0x800 && Next(Stage(d, 0), c, Stage(d + 1, 0))
  {
    hide NameOf, FilterFor, FirstNames;
    IdsSize(d);
    NumberedHas(d, d);
    FirstNamesNext(d);
    c := Command.Define(d, [NameOf(d)]);
    assert DefineId(Numbered(d), d, [NameOf(d)]) == Numbered(d + 1);
  }

  const AGREES := Daemon(_ => true, _ => true, _ => true)

  lemma RegisterNext(d: nat, e: nat)
    requires e < d <= 0x800
    ensures Register(Numbered(e), Numbered(d), {NameOf(e)}, AGREES) == Numbered(e + 1)
  {
    hide NameOf;
    NumberedHas(d, e);
    NumberedHas(e, e);
    var m := Register(Numbered(e), Numbered(d), {NameOf(e)}, AGREES);
    assert m.Keys == Numbered(e).Keys + {NameOf(e)};
    assert Numbered(e + 1) == Numbered(e)[NameOf(e) := e];
  }

  lemma SubscribeNext(d: nat, e: nat) returns (c: Command)
    requires e < d <= 0x800
    ensures c.Subscribe? && c.filterOk && Next(Stage(d, e), c, Stage(d, e + 1))
  {
    hide Listing, Register, Numbered, FirstIds, FilterFor, Ids, NameOf, IdsOf;
    c := Command.Subscribe(NameOf(e), AGREES, true);
    RegisterNext(d, e);
    FirstIdsAreListed(e + 1);
    NumberedHas(e + 1, e);
    assert NameOf(e) != "*" && Requested(Stage(d, e).support, NameOf(e)) == {NameOf(e)};
    assert Installs(Stage(d, e).filters, Numbered(e + 1), true, FilterFor(FirstIds(e + 1)));
  }

  lemma RunOn(ss: seq<State>, commands: seq<Command>, c: Command, s': State)
    requires Run(ss, commands) && Next(ss[|commands|], c, s')
    ensures Run(ss + [s'], commands + [c])
  {
    hide Next;
  }

  lemma {:induction false} StageIsReachable(d: nat, e: nat) returns (ss: seq<State>, commands: seq<Command>)
    requires e <= d <= 0x800
    ensures Run(ss, commands) && |commands| == d + e && ss[d + e] == Stage(d, e)
    ensures StandardIds(commands) && forall k :: 0 <= k < |commands| && commands[k].Subscribe? ==> commands[k].filterOk
  {
    hide Next, Stage;
    var c;
    if d == 0 {
      ss, commands := [START], [];
      StageStarts();
    } else if e == 0 {
      ss, commands := StageIsReachable(d - 1, 0);
      c := DefineNext(d - 1);
      RunOn(ss, commands, c, Stage(d, 0));
      ss, commands := ss + [Stage(d, 0)], commands + [c];
    } else {
      ss, commands := StageIsReachable(d, e - 1);
      c := SubscribeNext(d, e - 1);
      RunOn(ss, commands, c, Stage(d, e));
      ss, commands := ss + [Stage(d, e)], commands + [c];
    }
  }

  lemma StageStarts()
    ensures Stage(0, 0) == START
  {
  }

  /** With more than 512 subscribed CAN-IDs, every call having succeeded, some event is filtered out. */
  lemma TooManyAreFiltered(n: nat) returns (ss: seq<State>, commands: seq<Command>, e: string)
    requires SUPPORT_CANID_MAX < n <= 0x800
    ensures Run(ss, commands) && StandardIds(commands) && |IdsOf(ss[|commands|].events)| == n
    ensures forall k :: 0 <= k < |commands| && commands[k].Subscribe? ==> commands[k].filterOk
    ensures e in ss[|commands|].events && !Accepts(ss[|commands|].filters, ss[|commands|].events[e])
  {
    hide Next, Accepts, Numbered, FirstIds, FilterFor, Ids, NameOf, IdsOf, StandardIds;
    ss, commands := StageIsReachable(n, n);
    FirstIdsAreListed(n);
    NumberedHas(n, n - 1);
    e := NameOf(n - 1);
    FilterIsExact(FirstIds(n), n - 1);
  }

  // ---------------------------------------------------------------------------------------
  // One name too many
  // ---------------------------------------------------------------------------------------

  /** In every reachable state the list of supported properties holds every indexed name once, up to its
      capacity. */
  lemma {:induction false} SupportIsListed(ss: seq<State>, commands: seq<Command>, n: nat)
    requires Run(ss, commands) && n <= |commands|
    ensures Lists(ss[n].support, ss[n].owner.Keys)
  {
    hide Lists, Extend;
    if n > 0 {
      SupportIsListed(ss, commands, n - 1);
      var s, s' := ss[n - 1], ss[n];
      assert Next(s, commands[n - 1], s');
      if commands[n - 1].Define? && commands[n - 1].id !in s.ids {
        ExtendKeepsLists(s.support, s.owner.Keys, commands[n - 1].names);
        assert s'.owner.Keys == s.owner.Keys + NameSet(commands[n - 1].names);
      }
    } else {
      NothingLists();
      assert START.owner.Keys == {};
    }
  }

  /** Subscribing to "*", with a daemon that makes every event, registers every indexed name if and only if
      the index fits the list; here from no events. */
  lemma StarRegistersAllIff<T>(support: seq<string>, index: map<string, T>, d: Daemon)
    requires Lists(support, index.Keys) && forall name :: d.makes(name)
    ensures Register(map[], index, Requested(support, "*"), d).Keys == index.Keys <==> |index| <= SUPPORT_PROPERTY_LIMIT
  {
    hide Lists;
    ListsAllIff(support, index.Keys);
    ListsKnown(support, index.Keys);
    assert |index| == |index.Keys|;
    assert Register(map[], index, NameSet(support), d).Keys == NameSet(support);
  }

  /** For every number of names above 512 a state is reachable in which "*" misses one. */
  lemma StarMissesOne(n: nat) returns (ss: seq<State>, commands: seq<Command>, name: string)
    requires SUPPORT_PROPERTY_LIMIT < n <= 0x800
    ensures Run(ss, commands) && |ss[|commands|].owner| == n && name in ss[|commands|].owner
    ensures var s := ss[|commands|];
            name !in Register(s.events, s.owner, Requested(s.support, "*"), AGREES)
  {
    hide Next, Run, Numbered, NameOf, Ids, Lists;
    ss, commands := StageIsReachable(n, 0);
    name := NameOf(n - 1);
    NumberedHas(n, n - 1);
    NumberedSize(n);
    NotListed(n);
    StageHasNoEvents(n);
  }

  lemma StageHasNoEvents(n: nat)
    requires n <= 0x800
    ensures Stage(n, 0).events == map[] && Stage(n, 0).owner == Numbered(n) && Stage(n, 0).support == FirstNames(n)
  {
  }

  lemma {:induction false} NumberedSize(n: nat)
    requires n <= 0x800
    ensures |Numbered(n)| == n
  {
    if n > 0 {
      NumberedSize(n - 1);
      NumberedHas(n - 1, n - 1);
    }
  }

  lemma NotListed(n: nat)
    requires SUPPORT_PROPERTY_LIMIT < n
    ensures NameOf(n - 1) !in FirstNames(n)
  {
    assert forall i :: 0 <= i < |FirstNames(n)| ==> |FirstNames(n)[i]| == i + 1;
  }
}
