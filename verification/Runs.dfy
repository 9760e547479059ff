/** Guarantees of thinning over whole runs of received frames. */
module Runs {
  import opened Words
  import opened Codec
  import opened Values
  import opened Timing
  import opened Thinning

  datatype Frame = Frame(word: Word, time: TimeVal)

  /** `cs[n]` is the property after the first `n` frames, `ds[n]` the decision taken on frame `n`. */
  ghost predicate Run(cs: seq<Chain>, ds: seq<Decision>, fs: seq<Frame>, cycle: UInt32) {
    && |cs| == |fs| + 1 && |ds| == |fs|
    && (forall n :: 0 <= n < |cs| ==> cs[n].Valid() && cs[n].defs == cs[0].defs)
    && (forall n :: 0 <= n < |fs| ==> Step(cs[n], fs[n].word, fs[n].time, cycle, cs[n + 1], ds[n]))
  }

  /** As the loader leaves a property: memory zeroed, nothing elected. */
  ghost predicate Initial(c: Chain) {
    c.apply.None? && c.updated == EPOCH && forall i :: 0 <= i < |c.values| ==> c.values[i] == 0
  }

  ghost function Unread(defs: seq<Definition>): Chain {
    Chain(defs, seq(|defs|, _ => 0), None, EPOCH)
  }

  lemma UnreadIsInitial(defs: seq<Definition>)
    requires Decodable(defs) && defs != []
    ensures Unread(defs).Valid() && Initial(Unread(defs))
  {
    forall i | 0 <= i < |defs|
      ensures defs[i].Holds(0)
    {
      ZeroHolds(defs[i]);
    }
  }

  ghost predicate AllErrorFree(cs: seq<Chain>, fs: seq<Frame>)
    requires |cs| > 0 && Decodable(cs[0].defs)
  {
    forall n :: 0 <= n < |fs| ==> ErrorFree(cs[0].defs, fs[n].word)
  }

  /** Index of the most recent push decision among the first `n`. */
  ghost function LastPush(ds: seq<Decision>, n: nat): (p: Option<nat>)
    requires n <= |ds|
    ensures p.Some? ==> p.value < n
  {
    if n == 0 then None else if ds[n - 1].Push? then Some(n - 1) else LastPush(ds, n - 1)
  }

  // ---------------------------------------------------------------------------------------
  // Every frame has exactly one outcome, so every sequence of frames has a run
  // ---------------------------------------------------------------------------------------

  lemma {:induction false} Elect(defs: seq<Definition>, w: Word, n: nat) returns (m: Option<nat>)
    requires Decodable(defs) && ErrorFree(defs, w) && n <= |defs|
    ensures match m
            case None => forall i :: 0 <= i < n ==> !Active(defs[i], w)
            case Some(k) => k < n && Active(defs[k], w) && forall i :: k < i < n ==> !Active(defs[i], w)
  {
    if n == 0 {
      m := None;
    } else if Active(defs[n - 1], w) {
      m := Some(n - 1);
    } else {
      m := Elect(defs, w, n - 1);
    }
  }

  lemma {:induction false} FirstFailure(defs: seq<Definition>, w: Word, n: nat) returns (f: nat)
    requires Decodable(defs) && n < |defs| && FailsOn(defs[n], w)
    ensures f <= n && ErrorFreeUpTo(defs, w, f) && FailsOn(defs[f], w)
  {
    if i :| 0 <= i < n && FailsOn(defs[i], w) {
      f := FirstFailure(defs, w, i);
    } else {
      f := n;
    }
  }

  ghost function FreshValues(defs: seq<Definition>, w: Word, n: nat): (vs: seq<int>)
    requires Decodable(defs) && n <= |defs| && ErrorFreeUpTo(defs, w, n)
    ensures |vs| == |defs| && forall i :: 0 <= i < |defs| ==> vs[i] == if i < n then Fresh(defs[i], w) else 0
  {
    seq(|defs|, i requires 0 <= i < |defs| => if i < n then Fresh(defs[i], w) else 0)
  }

  lemma StepExists(c: Chain, w: Word, t: TimeVal, cycle: UInt32) returns (c': Chain, r: Decision)
    requires c.Valid()
    ensures Step(c, w, t, cycle, c', r) && c'.Valid() && c'.defs == c.defs
  {
    if |c.defs| == 1 {
      if FailsOn(c.defs[0], w) {
        c', r := c, Error;
      } else {
        var push := c.defs[0].Updated(c.values[0], Raw(c.defs[0], w)) || ElapsMs(c.updated, t) >= cycle;
        c' := c.(values := [c.defs[0].Stored(c.values[0], Raw(c.defs[0], w))], updated := if push then t else c.updated);
        r := if push then Push else Quiet;
      }
    } else if ErrorFree(c.defs, w) {
      var m := Elect(c.defs, w, |c.defs|);
      var vs := FreshValues(c.defs, w, |c.defs|);
      var push := (m.Some? && (c.apply != m || vs[m.value] != c.values[m.value])) || ElapsMs(c.updated, t) >= cycle;
      c' := Chain(c.defs, vs, if m.Some? then m else c.apply, if push then t else c.updated);
      r := if push then Push else Quiet;
      assert MultiStep(c, w, t, cycle, m, c', r);
    } else {
      var n :| 0 <= n < |c.defs| && FailsOn(c.defs[n], w);
      var f := FirstFailure(c.defs, w, n);
      c', r := c.(values := FreshValues(c.defs, w, f)), Error;
      assert MultiError(c, w, f, c', r);
    }
    StepKeepsValid(c, w, t, cycle, c', r);
  }

  lemma {:induction false} RunExists(c: Chain, fs: seq<Frame>, cycle: UInt32) returns (cs: seq<Chain>, ds: seq<Decision>)
    requires c.Valid()
    ensures Run(cs, ds, fs, cycle) && cs[0] == c
  {
    if fs == [] {
      cs, ds := [c], [];
    } else {
      var k := |fs| - 1;
      cs, ds := RunExists(c, fs[..k], cycle);
      var c', r := StepExists(cs[k], fs[k].word, fs[k].time, cycle);
      cs, ds := cs + [c'], ds + [r];
      assert forall n :: 0 <= n < k ==> fs[..k][n] == fs[n];
    }
  }

  // ---------------------------------------------------------------------------------------
  // A plain property reports the latest frame that decodes
  // ---------------------------------------------------------------------------------------

  /** Index of the most recent frame among the first `n` that was not an error. */
  ghost function LastDecoded(ds: seq<Decision>, n: nat): (p: Option<nat>)
    requires n <= |ds|
    ensures p.Some? ==> p.value < n
  {
    if n == 0 then None else if !ds[n - 1].Error? then Some(n - 1) else LastDecoded(ds, n - 1)
  }

  lemma ErrorKeepsPlain(c: Chain, f: Frame, cycle: UInt32, c': Chain)
    requires c.Valid() && |c.defs| == 1 && Step(c, f.word, f.time, cycle, c', Error)
    ensures c' == c
  {
  }

  /** After any run a plain property reports what the bytes of the latest frame that decoded have to say,
      or what it reported at the start; a frame is an error exactly when its field has nothing to say. */
  lemma {:induction false} ReportTellsLatest(cs: seq<Chain>, ds: seq<Decision>, fs: seq<Frame>, cycle: UInt32, n: nat)
    requires Run(cs, ds, fs, cycle) && n <= |fs| && |cs[0].defs| == 1
    ensures match LastDecoded(ds, n)
            case None => cs[n].Report() == cs[0].Report()
            case Some(p) => FieldTells(cs[0].defs[0], Host2CanValue(fs[p].word), cs[n].Report())
    ensures forall i :: 0 <= i < n ==> (ds[i].Error? <==> Meaningless(cs[0].defs[0], Host2CanValue(fs[i].word)))
  {
    hide Step, Chain.Valid, Chain.Report, FieldTells, Meaningless, Host2CanValue, CanValue2Host;
    if n > 0 {
      ReportTellsLatest(cs, ds, fs, cycle, n - 1);
      var f := fs[n - 1];
      HostOfCan(f.word);
      FrameIsTold(cs[n - 1], Host2CanValue(f.word), f.time, cycle, cs[n], ds[n - 1]);
      ShownAlone(cs[n]);
      ShownAlone(cs[n - 1]);
      assert ds[n - 1].Error? <==> Meaningless(cs[n - 1].defs[0], Host2CanValue(f.word));
      if ds[n - 1].Error? {
        ErrorKeepsPlain(cs[n - 1], f, cycle, cs[n]);
      }
    }
  }

  lemma ShownAlone(c: Chain)
    requires c.Valid() && |c.defs| == 1
    ensures c.Shown() == 0 && c.defs[0].layout.Valid()
  {
  }

  // ---------------------------------------------------------------------------------------
  // Freshness
  // ---------------------------------------------------------------------------------------

  lemma StepTiming(c: Chain, f: Frame, cycle: UInt32, c': Chain, r: Decision)
    requires c.Valid() && Step(c, f.word, f.time, cycle, c', r)
    ensures c'.updated == if r.Push? then f.time else c.updated
    ensures r.Quiet? ==> ElapsMs(c.updated, f.time) < cycle
  {
    hide Definition.Stored, Definition.Updated;
  }

  /** The head's update time is the time of the latest push decision. */
  lemma {:induction false} UpdateTimeIsLastPush(cs: seq<Chain>, ds: seq<Decision>, fs: seq<Frame>, cycle: UInt32, n: nat)
    requires Run(cs, ds, fs, cycle) && n <= |fs|
    ensures cs[n].updated == match LastPush(ds, n) case None => cs[0].updated case Some(p) => fs[p].time
  {
    hide Step, Chain.Valid;
    if n > 0 {
      UpdateTimeIsLastPush(cs, ds, fs, cycle, n - 1);
      StepTiming(cs[n - 1], fs[n - 1], cycle, cs[n], ds[n - 1]);
    }
  }

  /** After any frame without decode error less than `cycle` ms have passed since the latest push
      decision, and with cycle 0 the frame itself decided a push. */
  lemma Freshness(cs: seq<Chain>, ds: seq<Decision>, fs: seq<Frame>, cycle: UInt32, n: nat)
    requires Run(cs, ds, fs, cycle) && 0 < n <= |fs|
    requires ErrorFree(cs[0].defs, fs[n - 1].word)
    ensures cs[n].updated == match LastPush(ds, n) case None => cs[0].updated case Some(p) => fs[p].time
    ensures cycle > 0 ==> ElapsMs(cs[n].updated, fs[n - 1].time) < cycle
    ensures cycle == 0 ==> ds[n - 1].Push?
  {
    UpdateTimeIsLastPush(cs, ds, fs, cycle, n);
    StepTiming(cs[n - 1], fs[n - 1], cycle, cs[n], ds[n - 1]);
    StepKeepsValid(cs[n - 1], fs[n - 1].word, fs[n - 1].time, cycle, cs[n], ds[n - 1]);
  }

  // ---------------------------------------------------------------------------------------
  // No lost change
  // ---------------------------------------------------------------------------------------

  /** No frame stores a value without reporting it; true of every type but STRING and ENABLE-1. */
  ghost predicate NeverSilent(d: Definition)
    requires d.WellTyped() && d.layout.Valid()
  {
    forall w: Word :: !FailsOn(d, w) ==> !d.Silent(Raw(d, w))
  }

  lemma NumbersAreNeverSilent(d: Definition)
    requires d.WellTyped() && d.layout.Valid() && !d.varType.String? && !d.varType.Enable1?
    ensures NeverSilent(d)
  {
  }

  /** After `n` frames the property has the value of its latest push decision, or its first one. */
  ghost predicate Shows(cs: seq<Chain>, ds: seq<Decision>, n: nat)
    requires n <= |ds| < |cs|
  {
    cs[n].values == match LastPush(ds, n) case None => cs[0].values case Some(p) => cs[p + 1].values
  }

  /** A plain property shows the value of its latest push decision after every run, decode errors included. */
  lemma {:induction false} NoLostChange(cs: seq<Chain>, ds: seq<Decision>, fs: seq<Frame>, cycle: UInt32, n: nat)
    requires Run(cs, ds, fs, cycle) && n <= |fs|
    requires |cs[0].defs| == 1 && (cycle == 0 || NeverSilent(cs[0].defs[0]))
    ensures Shows(cs, ds, n)
  {
    hide Definition.Stored, Definition.Holds, ToJson, Raw, ElapsMs;
    if n > 0 {
      NoLostChange(cs, ds, fs, cycle, n - 1);
      assert Step(cs[n - 1], fs[n - 1].word, fs[n - 1].time, cycle, cs[n], ds[n - 1]);
    }
  }

  /** A plain property that shows nothing that it does not push. */
  ghost predicate Lossless(c: Chain, cycle: UInt32) {
    && |c.defs| == 1 && c.defs[0].WellTyped() && c.defs[0].layout.Valid()
    && (cycle == 0 || NeverSilent(c.defs[0]))
  }

  /** Unless such a property decides a push it goes on reporting the same. */
  lemma LosslessStep(c: Chain, f: Frame, cycle: UInt32, c': Chain, r: Decision)
    requires c.Valid() && c'.Valid() && Step(c, f.word, f.time, cycle, c', r) && !r.Push?
    requires Lossless(c', cycle)
    ensures Lossless(c, cycle) && c'.Report() == c.Report()
  {
    hide Definition.Stored, Definition.Holds, ToJson, Raw, ElapsMs;
    StepKeepsValid(c, f.word, f.time, cycle, c', r);
  }

  /** A run of the plain property `d` from the moment it was loaded. */
  ghost predicate RunOf(d: Definition, cs: seq<Chain>, ds: seq<Decision>, fs: seq<Frame>, cycle: UInt32) {
    Run(cs, ds, fs, cycle) && cs[0].defs == [d] && Initial(cs[0])
  }

  ghost predicate LosesNoChange(d: Definition, cycle: UInt32) {
    forall cs: seq<Chain>, ds: seq<Decision>, fs: seq<Frame>, n: nat ::
      RunOf(d, cs, ds, fs, cycle) && n <= |fs| ==> Shows(cs, ds, n)
  }

  /** Every frame that can be decoded stores zero. */
  ghost predicate AlwaysZero(d: Definition)
    requires d.WellTyped() && d.layout.Valid()
  {
    forall w: Word :: !FailsOn(d, w) ==> Fresh(d, w) == 0
  }

  lemma {:induction false} ZeroStaysZero(d: Definition, cs: seq<Chain>, ds: seq<Decision>, fs: seq<Frame>, cycle: UInt32, n: nat)
    requires d.WellTyped() && d.layout.Valid() && AlwaysZero(d) && RunOf(d, cs, ds, fs, cycle) && n <= |fs|
    ensures cs[n].values == [0]
  {
    hide Definition.Stored, Definition.Updated, Definition.Holds, Definition.Fails, Load, ElapsMs;
    if n > 0 {
      ZeroStaysZero(d, cs, ds, fs, cycle, n - 1);
      assert Step(cs[n - 1], fs[n - 1].word, fs[n - 1].time, cycle, cs[n], ds[n - 1]);
    } else {
      assert cs[0].Valid();
    }
  }

  /** The plain property `d` with value `v`, pushed or never decoded at the epoch. */
  ghost function Plain(d: Definition, v: int): Chain {
    Chain([d], [v], None, EPOCH)
  }

  lemma PlainIsValid(d: Definition, v: int)
    requires d.WellTyped() && d.layout.Valid() && d.Holds(v)
    ensures Plain(d, v).Valid() && Initial(Plain(d, 0))
  {
  }

  lemma NoTime(cycle: UInt32)
    ensures ElapsMs(EPOCH, EPOCH) == 0
    ensures cycle > 0 ==> ElapsMs(EPOCH, EPOCH) / cycle == 0
  {
    ElapsIsClockDifference(EPOCH, EPOCH);
  }

  /** A silently stored value is not pushed within the cycle. */
  lemma SilentStep(d: Definition, cur: int, w: Word, cycle: UInt32)
    requires d.WellTyped() && d.layout.Valid() && d.Holds(cur) && !FailsOn(d, w) && d.Silent(Raw(d, w)) && cycle > 0
    ensures d.Holds(Fresh(d, w)) && Plain(d, cur).Valid()
    ensures Step(Plain(d, cur), w, EPOCH, cycle, Plain(d, Fresh(d, w)), Quiet)
  {
    hide Load, ToJson, Definition.Stored, Definition.Updated, Definition.Silent, Definition.Holds, ElapsMs;
    FreshHolds(d, w);
    SilentFacts(d, cur, Raw(d, w));
    NoTime(cycle);
  }

  lemma SilentFacts(d: Definition, cur: int, x: UInt32)
    requires d.WellTyped() && !d.Fails(x) && d.Silent(x)
    ensures d.Stored(cur, x) == d.Stored(0, x) && !d.Updated(cur, x)
  {
  }

  /** A reported value is pushed. */
  lemma ReportedStep(d: Definition, w: Word, cycle: UInt32)
    requires d.WellTyped() && d.layout.Valid() && !FailsOn(d, w) && !d.Silent(Raw(d, w)) && Fresh(d, w) != 0
    ensures d.Holds(Fresh(d, w)) && Plain(d, 0).Valid()
    ensures Step(Plain(d, 0), w, EPOCH, cycle, Plain(d, Fresh(d, w)), Push)
  {
    hide Load, ToJson, Definition.Stored, Definition.Silent, Definition.Holds, ElapsMs;
    FreshHolds(d, w);
    ZeroHolds(d);
  }

  /** A run that has not started. */
  lemma EmptyRun(c: Chain, cycle: UInt32)
    requires c.Valid()
    ensures Run([c], [], [], cycle)
  {
  }

  /** One more frame. */
  lemma RunOn(cs: seq<Chain>, ds: seq<Decision>, fs: seq<Frame>, cycle: UInt32, c: Chain, r: Decision, f: Frame)
    requires Run(cs, ds, fs, cycle) && c.Valid() && c.defs == cs[0].defs && Step(cs[|fs|], f.word, f.time, cycle, c, r)
    ensures Run(cs + [c], ds + [r], fs + [f], cycle)
  {
    hide Step, Chain.Valid;
  }

  /** A silently stored value other than the loaded zero is lost by the first frame. */
  lemma SilentValueIsLost(d: Definition, w: Word, cycle: UInt32)
    returns (cs: seq<Chain>, ds: seq<Decision>, fs: seq<Frame>)
    requires d.WellTyped() && d.layout.Valid() && !FailsOn(d, w) && d.Silent(Raw(d, w)) && Fresh(d, w) != 0 && cycle > 0
    ensures RunOf(d, cs, ds, fs, cycle) && |fs| == 1 && !Shows(cs, ds, 1)
  {
    hide Step, Chain.Valid, Run, Definition.Holds, Fresh, FailsOn, Definition.Silent;
    ZeroHolds(d);
    PlainIsValid(d, 0);
    SilentStep(d, 0, w, cycle);
    var c, f := Plain(d, Fresh(d, w)), Frame(w, EPOCH);
    PlainIsValid(d, Fresh(d, w));
    EmptyRun(Plain(d, 0), cycle);
    RunOn([Plain(d, 0)], [], [], cycle, c, Quiet, f);
    cs, ds, fs := [Plain(d, 0)] + [c], [] + [Quiet], [] + [f];
    assert LastPush(ds, 0) == None;
    assert LastPush(ds, 1) == None;
  }

  /** A silently stored zero is lost after a value that was pushed. */
  lemma SilentZeroIsLost(d: Definition, w: Word, w': Word, cycle: UInt32)
    returns (cs: seq<Chain>, ds: seq<Decision>, fs: seq<Frame>)
    requires d.WellTyped() && d.layout.Valid() && !FailsOn(d, w) && d.Silent(Raw(d, w)) && Fresh(d, w) == 0 && cycle > 0
    requires !FailsOn(d, w') && !d.Silent(Raw(d, w')) && Fresh(d, w') != 0
    ensures RunOf(d, cs, ds, fs, cycle) && |fs| == 2 && !Shows(cs, ds, 2)
  {
    hide Step, Chain.Valid, Run, Definition.Holds, Fresh, FailsOn, Definition.Silent;
    ZeroHolds(d);
    PlainIsValid(d, 0);
    ReportedStep(d, w', cycle);
    SilentStep(d, Fresh(d, w'), w, cycle);
    var c, c', f, f' := Plain(d, Fresh(d, w')), Plain(d, 0), Frame(w', EPOCH), Frame(w, EPOCH);
    PlainIsValid(d, Fresh(d, w'));
    EmptyRun(c', cycle);
    RunOn([c'], [], [], cycle, c, Push, f);
    RunOn([c'] + [c], [] + [Push], [] + [f], cycle, c', Quiet, f');
    cs, ds, fs := [c'] + [c] + [c'], [] + [Push] + [Quiet], [] + [f] + [f'];
    assert LastPush(ds, 1) == Some(0);
    assert LastPush(ds, 2) == Some(0);
  }

  /** Exactly which plain properties never lose a change in a run since they were loaded: those that every
      frame pushes, those for which no frame stores a value silently, and those that stay zero anyway. */
  lemma NoLostChangeIff(d: Definition, cycle: UInt32)
    requires d.WellTyped() && d.layout.Valid()
    ensures LosesNoChange(d, cycle) <==> cycle == 0 || NeverSilent(d) || AlwaysZero(d)
  {
    hide Step, Load, Definition.Fails, Definition.Silent, Definition.Stored, Chain.Valid;
    if cycle == 0 || NeverSilent(d) {
      forall cs: seq<Chain>, ds: seq<Decision>, fs: seq<Frame>, n: nat | RunOf(d, cs, ds, fs, cycle) && n <= |fs|
        ensures Shows(cs, ds, n)
      {
        NoLostChange(cs, ds, fs, cycle, n);
      }
    } else if AlwaysZero(d) {
      forall cs: seq<Chain>, ds: seq<Decision>, fs: seq<Frame>, n: nat | RunOf(d, cs, ds, fs, cycle) && n <= |fs|
        ensures Shows(cs, ds, n)
      {
        ZeroIsShown(d, cs, ds, fs, cycle, n);
      }
    } else {
      var w: Word :| !FailsOn(d, w) && d.Silent(Raw(d, w));
      var w': Word :| !FailsOn(d, w') && Fresh(d, w') != 0;
      var cs, ds, fs;
      if Fresh(d, w) != 0 {
        cs, ds, fs := SilentValueIsLost(d, w, cycle);
      } else if d.Silent(Raw(d, w')) {
        cs, ds, fs := SilentValueIsLost(d, w', cycle);
      } else {
        cs, ds, fs := SilentZeroIsLost(d, w, w', cycle);
      }
    }
  }

  lemma ZeroIsShown(d: Definition, cs: seq<Chain>, ds: seq<Decision>, fs: seq<Frame>, cycle: UInt32, n: nat)
    requires d.WellTyped() && d.layout.Valid() && AlwaysZero(d) && RunOf(d, cs, ds, fs, cycle) && n <= |fs|
    ensures Shows(cs, ds, n)
  {
    hide Step, AlwaysZero;
    ZeroStaysZero(d, cs, ds, fs, cycle, n);
    match LastPush(ds, n)
    case None => ZeroStaysZero(d, cs, ds, fs, cycle, 0);
    case Some(p) => ZeroStaysZero(d, cs, ds, fs, cycle, p + 1);
  }

  /** The lamp of an ENABLE-1 property goes from entry 1 to entry 0 and nobody is told. */
  lemma Enable1LosesChange(cycle: UInt32)
    requires cycle > 0
    ensures var d := Definition("lamp", Layout(8, 0, 1), Enable1, Some(Ints([7, 9])));
            && d.WellTyped() && d.layout.Valid() && !FailsOn(d, ZERO) && d.Silent(Raw(d, ZERO))
            && d.Stored(9, Raw(d, ZERO)) == 7 && !d.Updated(9, Raw(d, ZERO))
            && !LosesNoChange(d, cycle)
  {
    var d := Definition("lamp", Layout(8, 0, 1), Enable1, Some(Ints([7, 9])));
    LoadIsField(ZERO, d.layout);
    ValPadded(ZERO[0..1], 0);
    assert Raw(d, ZERO) == 0;
    assert Fresh(d, ZERO) == 7;
    NoLostChangeIff(d, cycle);
  }

  // ---------------------------------------------------------------------------------------
  // Staleness of a multi-property
  // ---------------------------------------------------------------------------------------

  ghost predicate AnyActive(defs: seq<Definition>, w: Word)
    requires Decodable(defs) && ErrorFree(defs, w)
  {
    exists i :: 0 <= i < |defs| && Active(defs[i], w)
  }

  /** A run of a multi-property without decode errors from the moment it was loaded. */
  ghost predicate MultiRun(cs: seq<Chain>, ds: seq<Decision>, fs: seq<Frame>, cycle: UInt32) {
    && Run(cs, ds, fs, cycle)
    && 1 < |cs[0].defs| && Initial(cs[0])
    && AllErrorFree(cs, fs)
  }

  /** The frame decodes without error and elects `m`. */
  ghost predicate Elects(defs: seq<Definition>, w: Word, m: Option<nat>)
    requires Decodable(defs)
  {
    ErrorFree(defs, w) && IsElected(defs, w, m)
  }

  /** Three frames of a multi-property in which member `m` cannot be told apart: `silent` activates no
      member yet gives `m` the value that `active` elects it with, while `other` makes it show another one. */
  ghost predicate Clash(defs: seq<Definition>, m: nat, silent: Word, active: Word, other: Word)
    requires Decodable(defs)
  {
    && m < |defs|
    && Elects(defs, silent, None) && Elects(defs, active, Some(m)) && Fresh(defs[m], silent) == Fresh(defs[m], active)
    && (Elects(defs, other, Some(m)) || Elects(defs, other, None))
    && Reading(defs[m], other) != Reading(defs[m], active)
  }

  /** What a frame alone makes a member report. */
  ghost function Reading(d: Definition, w: Word): Json
    requires d.WellTyped() && d.layout.Valid() && !FailsOn(d, w)
  {
    FreshHolds(d, w);
    ToJson(d, Fresh(d, w))
  }

  ghost predicate NeverClashes(defs: seq<Definition>)
    requires Decodable(defs)
  {
    forall m: nat, silent, active, other :: !Clash(defs, m, silent, active, other)
  }

  /** Only an ENABLE-1 member with a repeat of its entry 0, not zero, can clash; integers, bools and
      strings never do. */
  lemma OnlyEnable1Clashes(defs: seq<Definition>, m: nat, silent: Word, active: Word, other: Word)
    requires Decodable(defs) && Clash(defs, m, silent, active, other)
    ensures defs[m].varType.Enable1? && defs[m].table.Some? && Raw(defs[m], silent) == 0
    ensures var entries, y := defs[m].table.value.ints, Raw(defs[m], active);
            0 < y < |entries| && entries[y] == entries[0] != 0
  {
    hide Load;
    assert !Active(defs[m], silent) && Active(defs[m], active);
    assert !FailsOn(defs[m], silent) && !FailsOn(defs[m], active);
    ClashingRaws(defs[m], Raw(defs[m], silent), Raw(defs[m], active));
  }

  lemma ClashingRaws(d: Definition, x: UInt32, y: UInt32)
    requires d.WellTyped() && !d.Fails(x) && !d.Fails(y)
    requires !d.Updated(0, x) && d.Updated(0, y) && d.Stored(0, x) == d.Stored(0, y)
    ensures d.varType.Enable1? && x == 0 < y && d.table.value.ints[y] == d.table.value.ints[0] != 0
  {
    if d.varType.Enable1? {
      NarrowInt32(d.varType, d.table.value.ints[x]);
      NarrowInt32(d.varType, d.table.value.ints[y]);
    }
  }

  /** A frame on a multi-property of which it elects `m`. */
  lemma ElectedStep(c: Chain, f: Frame, cycle: UInt32, c': Chain, r: Decision) returns (m: Option<nat>)
    requires c.Valid() && c'.Valid() && 1 < |c.defs| && ErrorFree(c.defs, f.word)
    requires Step(c, f.word, f.time, cycle, c', r)
    ensures Elects(c.defs, f.word, m) && c'.defs == c.defs && c'.apply == (if m.Some? then m else c.apply)
    ensures m.Some? <==> AnyActive(c.defs, f.word)
    ensures forall i :: 0 <= i < |c.defs| ==> c'.values[i] == Fresh(c.defs[i], f.word)
    ensures r.Quiet? ==> ElapsMs(c.updated, f.time) < cycle
    ensures r.Quiet? && m.Some? ==>
              c.apply == m && c'.values[m.value] == c.values[m.value] && c'.Report() == c.Report()
    ensures m.Some? ==> m.value < |c.defs| && !FailsOn(c.defs[m.value], f.word) && c'.Report() == Reading(c.defs[m.value], f.word)
    ensures !r.Error? && (r.Quiet? ==> c'.apply == c.apply)
  {
    hide Definition.Stored, Definition.Updated, Definition.Holds, Definition.Fails, Fresh, Active, ToJson, Raw, ElapsMs;
    m :| MultiStep(c, f.word, f.time, cycle, m, c', r);
  }

  /** The elected member has not changed since the latest push decision. */
  lemma {:induction false} ElectedSincePush(cs: seq<Chain>, ds: seq<Decision>, fs: seq<Frame>, cycle: UInt32, n: nat)
    requires MultiRun(cs, ds, fs, cycle) && n <= |fs|
    ensures cs[n].apply == match LastPush(ds, n) case None => None case Some(p) => cs[p + 1].apply
  {
    hide Step, Chain.Valid;
    if n > 0 {
      ElectedSincePush(cs, ds, fs, cycle, n - 1);
      StepFacts(cs, ds, fs, cycle, n - 1);
    }
  }

  lemma StepFacts(cs: seq<Chain>, ds: seq<Decision>, fs: seq<Frame>, cycle: UInt32, n: nat)
    requires MultiRun(cs, ds, fs, cycle) && n < |fs|
    ensures cs[n].Valid() && cs[n + 1].Valid() && cs[n].defs == cs[n + 1].defs == cs[0].defs && Decodable(cs[0].defs)
    ensures ErrorFree(cs[0].defs, fs[n].word) && Step(cs[n], fs[n].word, fs[n].time, cycle, cs[n + 1], ds[n])
    ensures ds[n].Quiet? ==> cs[n + 1].apply == cs[n].apply
    ensures !ds[n].Error?
  {
    hide Step;
    var m := ElectedStep(cs[n], fs[n], cycle, cs[n + 1], ds[n]);
  }

  /** The report that was pushed last, while member `k` is elected. */
  lemma PushedReading(cs: seq<Chain>, ds: seq<Decision>, fs: seq<Frame>, cycle: UInt32, n: nat, k: nat) returns (p: nat)
    requires MultiRun(cs, ds, fs, cycle) && n <= |fs| && cs[n].apply == Some(k)
    ensures p < n && LastPush(ds, n) == Some(p) && k < |cs[0].defs|
    ensures Elects(cs[0].defs, fs[p].word, Some(k)) || Elects(cs[0].defs, fs[p].word, None)
    ensures !FailsOn(cs[0].defs[k], fs[p].word) && cs[p + 1].Report() == Reading(cs[0].defs[k], fs[p].word)
  {
    hide Step, Fresh, FailsOn, ToJson, IsElected;
    ElectedSincePush(cs, ds, fs, cycle, n);
    p := LastPush(ds, n).value;
    StepFacts(cs, ds, fs, cycle, p);
    var m := ElectedStep(cs[p], fs[p], cycle, cs[p + 1], ds[p]);
  }

  /** An active frame behind an inactive one is not quiet unless it confirms what was pushed. */
  lemma ConfirmsPushed(cs: seq<Chain>, ds: seq<Decision>, fs: seq<Frame>, cycle: UInt32, n: nat, k: nat) returns (p: nat)
    requires MultiRun(cs, ds, fs, cycle) && 1 < n <= |fs| && NeverClashes(cs[0].defs)
    requires ErrorFree(cs[0].defs, fs[n - 2].word) && !AnyActive(cs[0].defs, fs[n - 2].word)
    requires Elects(cs[0].defs, fs[n - 1].word, Some(k)) && cs[n - 1].apply == Some(k)
    requires cs[n - 1].values[k] == Fresh(cs[0].defs[k], fs[n - 1].word)
    ensures p < n - 1 && LastPush(ds, n - 1) == Some(p)
    ensures cs[p + 1].Report() == Reading(cs[0].defs[k], fs[n - 1].word)
  {
    hide Step, Fresh, FailsOn, ToJson, IsElected, AnyActive, ElapsMs, Chain.Report, Initial;
    StepFacts(cs, ds, fs, cycle, n - 2);
    var none := ElectedStep(cs[n - 2], fs[n - 2], cycle, cs[n - 1], ds[n - 2]);
    p := PushedReading(cs, ds, fs, cycle, n - 1, k);
    assert !Clash(cs[0].defs, k, fs[n - 2].word, fs[n - 1].word, fs[p].word);
  }

  /** After an active frame what would be reported has been pushed. */
  lemma {:induction false} ActiveIsPushed(cs: seq<Chain>, ds: seq<Decision>, fs: seq<Frame>, cycle: UInt32, n: nat)
    requires MultiRun(cs, ds, fs, cycle) && 0 < n <= |fs| && AnyActive(cs[0].defs, fs[n - 1].word)
    requires cycle == 0 || NeverClashes(cs[0].defs)
    ensures LastPush(ds, n).Some? && cs[n].Report() == cs[LastPush(ds, n).value + 1].Report()
  {
    hide Step, Fresh, FailsOn, ToJson, IsElected, AnyActive, ElapsMs, NeverClashes, Chain.Report, Reading;
    StepFacts(cs, ds, fs, cycle, n - 1);
    if !ds[n - 1].Push? {
      var k := ElectedStep(cs[n - 1], fs[n - 1], cycle, cs[n], ds[n - 1]);
      assert n - 1 > 0;
      StepFacts(cs, ds, fs, cycle, n - 2);
      if AnyActive(cs[0].defs, fs[n - 2].word) {
        ActiveIsPushed(cs, ds, fs, cycle, n - 1);
      } else {
        var p := ConfirmsPushed(cs, ds, fs, cycle, n, k.value);
      }
    }
  }

  /** After a frame without active member every value is zero or was stored silently. */
  lemma InactiveIsSilent(cs: seq<Chain>, ds: seq<Decision>, fs: seq<Frame>, cycle: UInt32, n: nat)
    requires MultiRun(cs, ds, fs, cycle) && 0 < n <= |fs| && !AnyActive(cs[0].defs, fs[n - 1].word)
    ensures forall i :: 0 <= i < |cs[n].values| ==>
              cs[n].values[i] == 0 || (!FailsOn(cs[0].defs[i], fs[n - 1].word) && cs[0].defs[i].Silent(Raw(cs[0].defs[i], fs[n - 1].word)))
  {
    hide Step, Load, Definition.Stored, Definition.Silent, Definition.Fails;
    StepFacts(cs, ds, fs, cycle, n - 1);
    var m := ElectedStep(cs[n - 1], fs[n - 1], cycle, cs[n], ds[n - 1]);
    assert forall i :: 0 <= i < |cs[0].defs| ==> !Active(cs[0].defs[i], fs[n - 1].word);
  }

  /** A report that differs from the pushed one means that no member was active in the latest frame and
      less than `cycle` ms have passed since the push decision. */
  ghost predicate StaleOnlyWhenInactive(cs: seq<Chain>, ds: seq<Decision>, fs: seq<Frame>, cycle: UInt32, n: nat)
    requires MultiRun(cs, ds, fs, cycle) && n <= |fs| && LastPush(ds, n).Some?
  {
    var p := LastPush(ds, n).value;
    cs[n].Report() != cs[p + 1].Report() ==>
      && !AnyActive(cs[0].defs, fs[n - 1].word)
      && ElapsMs(fs[p].time, fs[n - 1].time) < cycle
  }

  lemma Staleness(cs: seq<Chain>, ds: seq<Decision>, fs: seq<Frame>, cycle: UInt32, n: nat)
    requires MultiRun(cs, ds, fs, cycle) && n <= |fs| && LastPush(ds, n).Some?
    requires cycle == 0 || NeverClashes(cs[0].defs)
    ensures StaleOnlyWhenInactive(cs, ds, fs, cycle, n)
  {
    hide Step, ToJson, NeverClashes, AnyActive, ElapsMs, Chain.Report, Chain.Valid, Initial, ErrorFree;
    StepFacts(cs, ds, fs, cycle, n - 1);
    if AnyActive(cs[0].defs, fs[n - 1].word) {
      ActiveIsPushed(cs, ds, fs, cycle, n);
    }
    UpdateTimeIsLastPush(cs, ds, fs, cycle, n - 1);
    StepTiming(cs[n - 1], fs[n - 1], cycle, cs[n], ds[n - 1]);
  }

  ghost predicate NeverMisleads(defs: seq<Definition>, cycle: UInt32)
  {
    forall cs: seq<Chain>, ds: seq<Decision>, fs: seq<Frame>, n: nat ::
      MultiRun(cs, ds, fs, cycle) && cs[0].defs == defs && n <= |fs| && LastPush(ds, n).Some? ==>
      StaleOnlyWhenInactive(cs, ds, fs, cycle, n)
  }

  /** The state after a frame that elects `m`. */
  ghost function After(c: Chain, f: Frame, m: Option<nat>, push: bool): Chain
    requires Decodable(c.defs) && ErrorFree(c.defs, f.word)
  {
    Chain(c.defs, FreshValues(c.defs, f.word, |c.defs|), if m.Some? then m else c.apply, if push then f.time else c.updated)
  }

  lemma AfterIsStep(c: Chain, f: Frame, cycle: UInt32, m: Option<nat>, push: bool)
    requires c.Valid() && 1 < |c.defs| && Elects(c.defs, f.word, m)
    requires push <==> || ElapsMs(c.updated, f.time) >= cycle
                       || (m.Some? && (c.apply != m || Fresh(c.defs[m.value], f.word) != c.values[m.value]))
    ensures After(c, f, m, push).Valid()
    ensures Step(c, f.word, f.time, cycle, After(c, f, m, push), if push then Push else Quiet)
  {
    hide Definition.Stored, Definition.Updated, Definition.Holds, Definition.Fails, Fresh, Active, ToJson, Raw, ElapsMs, Chain.Report;
    var c', r := After(c, f, m, push), if push then Push else Quiet;
    assert MultiStep(c, f.word, f.time, cycle, m, c', r);
    StepKeepsValid(c, f.word, f.time, cycle, c', r);
  }

  /** The first moment `cycle` ms after the epoch. */
  function CycleLater(cycle: UInt32): (t: TimeVal)
    ensures ElapsMs(EPOCH, t) == cycle && ElapsMs(t, t) == 0
  {
    Time(cycle / 1000, cycle % 1000 * 1000)
  }

  /** A clash in which `other` elects `m` too: pushed by `other`, replaced by `silent`, confirmed by `active`. */
  lemma ClashAfterElection(defs: seq<Definition>, m: nat, silent: Word, active: Word, other: Word, cycle: UInt32)
    returns (cs: seq<Chain>, ds: seq<Decision>, fs: seq<Frame>)
    requires Decodable(defs) && 1 < |defs| && cycle > 0
    requires Clash(defs, m, silent, active, other) && Elects(defs, other, Some(m))
    ensures MultiRun(cs, ds, fs, cycle) && cs[0] == Unread(defs)
    ensures |fs| == 3 && fs[0].word == other && fs[1].word == silent && fs[2].word == active && ds == [Push, Quiet, Quiet]
    ensures cs[1].Report() == Reading(defs[m], other) && cs[3].Report() == Reading(defs[m], active)
  {
    hide Step, Chain.Valid, Run, Fresh, FailsOn, ToJson, IsElected, ElapsMs;
    UnreadIsInitial(defs);
    NoTime(cycle);
    var c0, f1, f2, f3 := Unread(defs), Frame(other, EPOCH), Frame(silent, EPOCH), Frame(active, EPOCH);
    AfterIsStep(c0, f1, cycle, Some(m), true);
    var c1 := After(c0, f1, Some(m), true);
    AfterIsStep(c1, f2, cycle, None, false);
    var c2 := After(c1, f2, None, false);
    AfterIsStep(c2, f3, cycle, Some(m), false);
    var c3 := After(c2, f3, Some(m), false);
    EmptyRun(c0, cycle);
    RunOn([c0], [], [], cycle, c1, Push, f1);
    RunOn([c0] + [c1], [] + [Push], [] + [f1], cycle, c2, Quiet, f2);
    RunOn([c0] + [c1] + [c2], [] + [Push] + [Quiet], [] + [f1] + [f2], cycle, c3, Quiet, f3);
    cs, ds, fs := [c0] + [c1] + [c2] + [c3], [] + [Push] + [Quiet] + [Quiet], [] + [f1] + [f2] + [f3];
  }

  /** A clash in which `other` elects nothing: pushed by the cycle after an election of `m`. */
  lemma ClashAfterCycle(defs: seq<Definition>, m: nat, silent: Word, active: Word, other: Word, cycle: UInt32)
    returns (cs: seq<Chain>, ds: seq<Decision>, fs: seq<Frame>)
    requires Decodable(defs) && 1 < |defs| && cycle > 0
    requires Clash(defs, m, silent, active, other) && Elects(defs, other, None)
    ensures MultiRun(cs, ds, fs, cycle) && cs[0].defs == defs
    ensures |fs| == 4 && fs[3].word == active && ds == [Push, Push, Quiet, Quiet]
    ensures cs[2].Report() == Reading(defs[m], other) && cs[4].Report() == Reading(defs[m], active)
  {
    hide Step, Chain.Valid, Run, Fresh, FailsOn, ToJson, IsElected, ElapsMs, CycleLater;
    UnreadIsInitial(defs);
    var t := CycleLater(cycle);
    var c0, f1, f2, f3, f4 := Unread(defs), Frame(active, EPOCH), Frame(other, t), Frame(silent, t), Frame(active, t);
    AfterIsStep(c0, f1, cycle, Some(m), true);
    var c1 := After(c0, f1, Some(m), true);
    AfterIsStep(c1, f2, cycle, None, true);
    var c2 := After(c1, f2, None, true);
    AfterIsStep(c2, f3, cycle, None, false);
    var c3 := After(c2, f3, None, false);
    AfterIsStep(c3, f4, cycle, Some(m), false);
    var c4 := After(c3, f4, Some(m), false);
    EmptyRun(c0, cycle);
    RunOn([c0], [], [], cycle, c1, Push, f1);
    RunOn([c0] + [c1], [] + [Push], [] + [f1], cycle, c2, Push, f2);
    RunOn([c0] + [c1] + [c2], [] + [Push] + [Push], [] + [f1] + [f2], cycle, c3, Quiet, f3);
    RunOn([c0] + [c1] + [c2] + [c3], [] + [Push] + [Push] + [Quiet], [] + [f1] + [f2] + [f3], cycle, c4, Quiet, f4);
    cs, ds, fs := [c0] + [c1] + [c2] + [c3] + [c4], [] + [Push] + [Push] + [Quiet] + [Quiet], [] + [f1] + [f2] + [f3] + [f4];
  }

  /** Exactly which multi-properties keep what Staleness says, over all error-free runs since they were
      loaded: those that every frame pushes, and those without a clash. */
  lemma StalenessIff(defs: seq<Definition>, cycle: UInt32)
    requires Decodable(defs) && 1 < |defs|
    ensures NeverMisleads(defs, cycle) <==> cycle == 0 || NeverClashes(defs)
  {
    hide Step, Fresh, FailsOn, ToJson, IsElected, ElapsMs, Clash, Chain.Report;
    if cycle == 0 || NeverClashes(defs) {
      forall cs: seq<Chain>, ds: seq<Decision>, fs: seq<Frame>, n: nat | MultiRun(cs, ds, fs, cycle) && cs[0].defs == defs && n <= |fs| && LastPush(ds, n).Some?
        ensures StaleOnlyWhenInactive(cs, ds, fs, cycle, n)
      {
        Staleness(cs, ds, fs, cycle, n);
      }
    } else {
      var m: nat, silent, active, other :| Clash(defs, m, silent, active, other);
      var cs, ds, fs, n := ClashMisleads(defs, m, silent, active, other, cycle);
    }
  }

  lemma ClashMisleads(defs: seq<Definition>, m: nat, silent: Word, active: Word, other: Word, cycle: UInt32)
    returns (cs: seq<Chain>, ds: seq<Decision>, fs: seq<Frame>, n: nat)
    requires Decodable(defs) && 1 < |defs| && cycle > 0 && Clash(defs, m, silent, active, other)
    ensures MultiRun(cs, ds, fs, cycle) && cs[0].defs == defs && n <= |fs| && LastPush(ds, n).Some?
    ensures !StaleOnlyWhenInactive(cs, ds, fs, cycle, n)
  {
    hide Step, Chain.Valid, Run, Fresh, FailsOn, ToJson, ElapsMs, Chain.Report;
    if Elects(defs, other, Some(m)) {
      cs, ds, fs := ClashAfterElection(defs, m, silent, active, other, cycle);
      n := 3;
      assert LastPush(ds, 1) == LastPush(ds, 2) == LastPush(ds, 3) == Some(0);
    } else {
      cs, ds, fs := ClashAfterCycle(defs, m, silent, active, other, cycle);
      n := 4;
      assert LastPush(ds, 2) == LastPush(ds, 3) == LastPush(ds, 4) == Some(1);
    }
    assert Active(defs[m], active);
  }

  /** A two-member chain whose first member has the ENABLE-1 table 9, 7, 9, 7. */
  const TWICE: seq<Definition> := [
    Definition("mode", Layout(8, 0, 2), Enable1, Some(Ints([9, 7, 9, 7]))),
    Definition("mode", Layout(8, 4, 4), UInt8, None)]

  lemma TwiceRaws(w: Word, x: nat)
    requires x < 4 && w[0..2] == Bits(x, 2) && w[4..8] == Bits(0, 4)
    ensures Decodable(TWICE) && Raw(TWICE[0], w) == x && Raw(TWICE[1], w) == 0
  {
    hide Load, Bits, Pow2;
    assert Decodable(TWICE);
    SmallPowers();
    FieldOf(w, Layout(8, 0, 2), x);
    FieldOf(w, Layout(8, 4, 4), 0);
  }

  lemma SmallPowers()
    ensures Pow2(2) == 4 && Pow2(4) == 16 && Pow2(8) == 256
  {
    Pow2Values();
  }

  lemma TwiceElects(w: Word, x: nat)
    requires x < 4 && w[0..2] == Bits(x, 2) && w[4..8] == Bits(0, 4)
    ensures Decodable(TWICE) && Raw(TWICE[0], w) == x && Elects(TWICE, w, if x == 0 then None else Some(0))
    ensures Fresh(TWICE[0], w) == [9, 7, 9, 7][x]
  {
    hide Load, Bits;
    TwiceRaws(w, x);
    assert !FailsOn(TWICE[0], w) && !FailsOn(TWICE[1], w);
    NarrowInt32(Enable1, [9, 7, 9, 7][x]);
    assert Active(TWICE[0], w) <==> x != 0;
    assert !Active(TWICE[1], w);
  }

  /** Concrete case: raw values 1, 0, 2.  7 is pushed, and then 9 is shown by an active frame without a push. */
  lemma Enable1IsMisleading(cycle: UInt32) returns (cs: seq<Chain>, ds: seq<Decision>, fs: seq<Frame>)
    requires cycle > 0
    ensures Decodable(TWICE) && !NeverMisleads(TWICE, cycle)
    ensures MultiRun(cs, ds, fs, cycle) && cs[0] == Unread(TWICE) && ds == [Push, Quiet, Quiet]
    ensures AnyActive(TWICE, fs[2].word) && cs[1].Report() == Number(7) && cs[3].Report() == Number(9)
  {
    hide Step, Chain.Valid, Run, FailsOn, IsElected, ElapsMs, Load, ErrorFree;
    var one: Word, two: Word := seq(64, i => i == 0), seq(64, i => i == 1);
    TwiceElects(ZERO, 0);
    TwiceElects(one, 1);
    TwiceElects(two, 2);
    assert Clash(TWICE, 0, ZERO, two, one);
    cs, ds, fs := ClashAfterElection(TWICE, 0, ZERO, two, one, cycle);
    StalenessIff(TWICE, cycle);
    ElectedIsActive(TWICE, two, 0);
  }

  lemma ElectedIsActive(defs: seq<Definition>, w: Word, k: nat)
    requires Decodable(defs) && Elects(defs, w, Some(k))
    ensures AnyActive(defs, w)
  {
    assert Active(defs[k], w);
  }

  // ---------------------------------------------------------------------------------------
  // Push rate
  // ---------------------------------------------------------------------------------------

  /** The elected member or its value changed. */
  predicate Changed(c: Chain, c': Chain)
    requires |c.defs| > 0 && (c.apply.Some? ==> c.apply.value < |c.defs|) && |c.values| == |c.defs|
    requires |c'.defs| > 0 && (c'.apply.Some? ==> c'.apply.value < |c'.defs|) && |c'.values| == |c'.defs|
  {
    c'.apply != c.apply || c'.values[c'.Shown()] != c.values[c.Shown()]
  }

  /** Frame `n` decided a push that no change explains. */
  ghost predicate Unexplained(cs: seq<Chain>, ds: seq<Decision>, n: nat)
    requires n < |ds| && n + 1 < |cs| && cs[n].Valid() && cs[n + 1].Valid()
  {
    ds[n].Push? && !Changed(cs[n], cs[n + 1])
  }

  /** The clock, in ms, at each such frame among the first `n`. */
  ghost function UnexplainedTimes(cs: seq<Chain>, ds: seq<Decision>, fs: seq<Frame>, n: nat): seq<int>
    requires n <= |ds| == |fs| && |ds| < |cs| && forall i :: 0 <= i < |cs| ==> cs[i].Valid()
  {
    if n == 0 then []
    else
      var ts := UnexplainedTimes(cs, ds, fs, n - 1);
      if Unexplained(cs, ds, n - 1) then ts + [Ms(fs[n - 1].time)] else ts
  }

  /** No frame reports a change of a value that stays the same. */
  ghost predicate NeverSpurious(d: Definition)
    requires d.WellTyped() && d.layout.Valid()
  {
    forall w: Word :: !FailsOn(d, w) ==> !d.Spurious(Raw(d, w))
  }

  ghost predicate Ordered(fs: seq<Frame>) {
    forall i, j :: 0 <= i <= j < |fs| ==> Us(fs[i].time) <= Us(fs[j].time)
  }

  /** A push that no change explains was decided by the cycle. */
  lemma UnexplainedIsTimed(c: Chain, f: Frame, cycle: UInt32, c': Chain, r: Decision)
    requires c.Valid() && c'.Valid() && Step(c, f.word, f.time, cycle, c', r)
    requires |c.defs| == 1 ==> NeverSpurious(c.defs[0])
    requires r.Push? && !Changed(c, c')
    ensures ElapsMs(c.updated, f.time) >= cycle
  {
    if |c.defs| == 1 {
      assert !c.defs[0].Spurious(Raw(c.defs[0], f.word));
    }
  }

  /** Frames of a run that does not wrap around the 32-bit millisecond counter. */
  ghost predicate Timed(fs: seq<Frame>) {
    Ordered(fs) && (|fs| > 0 ==> Ms(fs[|fs| - 1].time) - Ms(fs[0].time) < 0x1_0000_0000)
  }

  lemma ClockBetween(fs: seq<Frame>, p: nat, n: nat)
    requires Timed(fs) && p <= n < |fs|
    ensures Ms(fs[0].time) <= Ms(fs[p].time) <= Ms(fs[n].time)
    ensures ElapsMs(fs[p].time, fs[n].time) == Ms(fs[n].time) - Ms(fs[p].time)
  {
    assert Us(fs[0].time) <= Us(fs[p].time) <= Us(fs[n].time) <= Us(fs[|fs| - 1].time);
    ElapsWithinOneMs(fs[p].time, fs[n].time);
  }

  /** An unexplained push comes at least one cycle after the push before it. */
  lemma UnexplainedIsLate(cs: seq<Chain>, ds: seq<Decision>, fs: seq<Frame>, cycle: UInt32, n: nat)
    requires Run(cs, ds, fs, cycle) && Timed(fs) && n < |fs|
    requires |cs[0].defs| == 1 ==> NeverSpurious(cs[0].defs[0])
    requires Unexplained(cs, ds, n) && LastPush(ds, n).Some?
    ensures Ms(fs[n].time) >= Ms(fs[LastPush(ds, n).value].time) + cycle
  {
    UpdateTimeIsLastPush(cs, ds, fs, cycle, n);
    UnexplainedIsTimed(cs[n], fs[n], cycle, cs[n + 1], ds[n]);
    ClockBetween(fs, LastPush(ds, n).value, n);
  }

  /** The unexplained pushes of a run, the first of them at `ts[0]`, keep their distance. */
  ghost predicate Spaced(ts: seq<int>, cycle: nat) {
    forall i :: 0 < i < |ts| ==> ts[i] >= ts[i - 1] + cycle
  }

  lemma SpacedAppend(ts: seq<int>, t: int, cycle: nat)
    requires Spaced(ts, cycle) && (ts != [] ==> t >= ts[|ts| - 1] + cycle)
    ensures Spaced(ts + [t], cycle)
  {
  }

  lemma {:induction false} PushesSpacedOut(cs: seq<Chain>, ds: seq<Decision>, fs: seq<Frame>, cycle: UInt32, n: nat)
    requires Run(cs, ds, fs, cycle) && Timed(fs) && n <= |fs|
    requires |cs[0].defs| == 1 ==> NeverSpurious(cs[0].defs[0])
    ensures var ts, p := UnexplainedTimes(cs, ds, fs, n), LastPush(ds, n);
            && Spaced(ts, cycle)
            && (ts != [] ==> p.Some? && Ms(fs[0].time) <= ts[0] && ts[|ts| - 1] <= Ms(fs[p.value].time))
  {
    hide Step, Chain.Valid, NeverSpurious, ElapsMs, Ms, Changed, Timed, Spaced;
    if n == 0 {
      SpacedEmpty(cycle);
    } else {
      PushesSpacedOut(cs, ds, fs, cycle, n - 1);
      ClockBetween(fs, 0, n - 1);
      var ts, p := UnexplainedTimes(cs, ds, fs, n - 1), LastPush(ds, n - 1);
      if p.Some? {
        ClockBetween(fs, p.value, n - 1);
      }
      if Unexplained(cs, ds, n - 1) {
        if p.Some? {
          UnexplainedIsLate(cs, ds, fs, cycle, n - 1);
        }
        SpacedAppend(ts, Ms(fs[n - 1].time), cycle);
      }
    }
  }

  lemma SpacedEmpty(cycle: nat)
    ensures Spaced([], cycle)
  {
  }

  lemma {:induction false} SpacedSpan(ts: seq<int>, cycle: nat)
    requires Spaced(ts, cycle) && ts != []
    ensures (|ts| - 1) * cycle <= ts[|ts| - 1] - ts[0]
  {
    var k := |ts| - 1;
    if k > 0 {
      SpacedSpan(ts[..k], cycle);
      assert k * cycle == (k - 1) * cycle + cycle;
    }
  }

  lemma Multiples(a: nat, b: nat, c: nat)
    ensures a <= b ==> a * c <= b * c
    ensures (a + 1) * c == a * c + c
  {
  }

  lemma QuotientBound(k: nat, c: nat, span: nat)
    requires c > 0 && k * c <= span
    ensures k <= span / c
  {
    var q := span / c;
    assert span < q * c + c;
    Multiples(q, k, c);
    Multiples(q + 1, k, c);
  }

  lemma SpacedCount(ts: seq<int>, cycle: nat, span: nat)
    requires Spaced(ts, cycle) && cycle > 0
    requires ts != [] ==> ts[|ts| - 1] - ts[0] <= span
    ensures |ts| <= 1 + span / cycle
  {
    hide Spaced;
    if ts != [] {
      SpacedSpan(ts, cycle);
      QuotientBound(|ts| - 1, cycle, span);
    }
  }

  /** Over a run spanning `T` ms at most `1 + T / cycle` push decisions are not explained by a change,
      and any two of them in a row are at least one cycle apart. */
  lemma PushRate(cs: seq<Chain>, ds: seq<Decision>, fs: seq<Frame>, cycle: UInt32)
    requires Run(cs, ds, fs, cycle) && Timed(fs) && |fs| > 0 && cycle > 0
    requires |cs[0].defs| == 1 ==> NeverSpurious(cs[0].defs[0])
    ensures Spaced(UnexplainedTimes(cs, ds, fs, |fs|), cycle)
    ensures |UnexplainedTimes(cs, ds, fs, |fs|)| <= 1 + ElapsMs(fs[0].time, fs[|fs| - 1].time) / cycle
  {
    var ts, p := UnexplainedTimes(cs, ds, fs, |fs|), LastPush(ds, |fs|);
    PushesSpacedOut(cs, ds, fs, cycle, |fs|);
    ClockBetween(fs, 0, |fs| - 1);
    if p.Some? {
      ClockBetween(fs, p.value, |fs| - 1);
    }
    SpacedCount(ts, cycle, ElapsMs(fs[0].time, fs[|fs| - 1].time));
  }

  /** The bound of PushRate for every run of a plain property. */
  ghost predicate BoundsPushes(d: Definition, cycle: UInt32)
    requires cycle > 0
  {
    forall cs: seq<Chain>, ds: seq<Decision>, fs: seq<Frame> ::
      RunOf(d, cs, ds, fs, cycle) && Timed(fs) && |fs| > 0 ==>
      |UnexplainedTimes(cs, ds, fs, |fs|)| <= 1 + ElapsMs(fs[0].time, fs[|fs| - 1].time) / cycle
  }

  /** An over-reported value is pushed by every frame, at any rate. */
  lemma SpuriousAlwaysPushes(d: Definition, cur: int, w: Word, cycle: UInt32)
    requires d.WellTyped() && d.layout.Valid() && !FailsOn(d, w) && d.Spurious(Raw(d, w)) && d.Holds(cur)
    ensures d.Holds(Fresh(d, w)) && Fresh(d, w) != 0 && Plain(d, cur).Valid()
    ensures Step(Plain(d, cur), w, EPOCH, cycle, Plain(d, Fresh(d, w)), Push)
  {
    hide Load, ToJson, Definition.Holds, ElapsMs;
    FreshHolds(d, w);
    SpuriousFacts(d, cur, Raw(d, w));
  }

  lemma SpuriousFacts(d: Definition, cur: int, x: UInt32)
    requires d.WellTyped() && !d.Fails(x) && d.Spurious(x)
    ensures d.Stored(cur, x) == d.Stored(0, x) != 0 && d.Updated(cur, x)
  {
  }

  /** The same over-reported frame three times in no time. */
  lemma SpuriousExceedsBound(d: Definition, w: Word, cycle: UInt32) returns (cs: seq<Chain>, ds: seq<Decision>, fs: seq<Frame>)
    requires d.WellTyped() && d.layout.Valid() && !FailsOn(d, w) && d.Spurious(Raw(d, w)) && cycle > 0
    ensures RunOf(d, cs, ds, fs, cycle) && Timed(fs) && |fs| > 0
    ensures |UnexplainedTimes(cs, ds, fs, |fs|)| > 1 + ElapsMs(fs[0].time, fs[|fs| - 1].time) / cycle
  {
    hide Step, Chain.Valid, Run, Definition.Holds, Fresh, FailsOn, Definition.Spurious, ElapsMs, UnexplainedTimes, Timed;
    ZeroHolds(d);
    SpuriousAlwaysPushes(d, 0, w, cycle);
    SpuriousAlwaysPushes(d, Fresh(d, w), w, cycle);
    PlainIsValid(d, 0);
    PlainIsValid(d, Fresh(d, w));
    var c0, c, f := Plain(d, 0), Plain(d, Fresh(d, w)), Frame(w, EPOCH);
    EmptyRun(c0, cycle);
    RunOn([c0], [], [], cycle, c, Push, f);
    RunOn([c0] + [c], [] + [Push], [] + [f], cycle, c, Push, f);
    RunOn([c0] + [c] + [c], [] + [Push] + [Push], [] + [f] + [f], cycle, c, Push, f);
    cs, ds, fs := [c0] + [c] + [c] + [c], [] + [Push] + [Push] + [Push], [] + [f] + [f] + [f];
    NoTime(cycle);
    assert |fs| == 3 && fs[0] == fs[2] == f;
    AtOnceIsTimed(fs, f);
    TwoUnexplained(c0, c, cs, ds, fs);
  }

  lemma AtOnceIsTimed(fs: seq<Frame>, f: Frame)
    requires forall i :: 0 <= i < |fs| ==> fs[i] == f
    ensures Timed(fs)
  {
  }

  lemma TwoUnexplained(c0: Chain, c: Chain, cs: seq<Chain>, ds: seq<Decision>, fs: seq<Frame>)
    requires c0.Valid() && c.Valid() && cs == [c0, c, c, c] && ds == [Push, Push, Push] && |fs| == 3
    requires Changed(c0, c)
    ensures |UnexplainedTimes(cs, ds, fs, 3)| == 2
  {
    hide Chain.Valid;
    assert cs[0] == c0 && cs[1] == c && cs[2] == c && cs[3] == c;
    assert !Unexplained(cs, ds, 0) && Unexplained(cs, ds, 1) && Unexplained(cs, ds, 2);
    assert UnexplainedTimes(cs, ds, fs, 0) == [];
    assert UnexplainedTimes(cs, ds, fs, 1) == [];
    assert |UnexplainedTimes(cs, ds, fs, 2)| == 1;
  }

  /** A plain byte signal without table at 0x80: the commonest over-report. */
  lemma UInt8OverReports(name: string, cycle: UInt32) returns (d: Definition, w: Word)
    requires cycle > 0
    ensures d == Definition(name, Layout(8, 0, 8), UInt8, None)
    ensures d.WellTyped() && d.layout.Valid() && Raw(d, w) == 0x80 && !FailsOn(d, w) && d.Spurious(Raw(d, w))
    ensures !BoundsPushes(d, cycle)
  {
    d := Definition(name, Layout(8, 0, 8), UInt8, None);
    w := seq(64, i => i == 7);
    SmallPowers();
    assert w[0..8] == Bits(0x80, 8);
    FieldOf(w, d.layout, 0x80);
    PushRateIff(d, cycle);
  }

  /** Exactly which plain properties keep the push-rate bound: those whose flag never over-reports. */
  lemma PushRateIff(d: Definition, cycle: UInt32)
    requires d.WellTyped() && d.layout.Valid() && cycle > 0
    ensures BoundsPushes(d, cycle) <==> NeverSpurious(d)
  {
    hide Step, UnexplainedTimes, Timed, ElapsMs, Load, Definition.Fails, Definition.Spurious;
    if NeverSpurious(d) {
      forall cs: seq<Chain>, ds: seq<Decision>, fs: seq<Frame> | RunOf(d, cs, ds, fs, cycle) && Timed(fs) && |fs| > 0
        ensures |UnexplainedTimes(cs, ds, fs, |fs|)| <= 1 + ElapsMs(fs[0].time, fs[|fs| - 1].time) / cycle
      {
        PushRate(cs, ds, fs, cycle);
      }
    } else {
      var w: Word :| !FailsOn(d, w) && d.Spurious(Raw(d, w));
      var cs, ds, fs := SpuriousExceedsBound(d, w, cycle);
    }
  }
}
