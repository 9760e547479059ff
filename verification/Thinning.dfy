/** What one received frame does to one property, and what follows over whole runs of frames
    (src/can_signal_event.c, `update_iviproperty`).

    A property is a chain of members under one name.  A chain of one is a plain property; a longer
    one is a multi-property, of which the last active member is elected as `apply`. */
module Thinning {
  import opened Words
  import opened Codec
  import opened Values
  import opened Timing

  datatype Chain = Chain(defs: seq<Definition>, values: seq<int>, apply: Option<nat>, updated: TimeVal) {

    ghost predicate Valid() {
      && |defs| == |values| > 0
      && (forall i :: 0 <= i < |defs| ==> defs[i].WellTyped() && defs[i].layout.Valid())
      && (forall i :: 0 <= i < |defs| ==> defs[i].Holds(values[i]))
      && (apply.Some? ==> 1 < |defs| && apply.value < |defs|)
    }

    /** The member that property2json is redirected to. */
    function Shown(): nat
      requires |defs| > 0 && (apply.Some? ==> apply.value < |defs|)
      ensures Shown() < |defs|
    {
      if apply.Some? then apply.value else 0
    }

    ghost function Report(): Json
      requires Valid()
    {
      ToJson(defs[Shown()], values[Shown()])
    }
  }

  function Raw(d: Definition, w: Word): UInt32
    requires d.layout.Valid()
  {
    Load(w, d.layout)
  }

  /** `j` is what the number in this property's field of the frame has to say to a client. */
  ghost predicate FieldTells(d: Definition, data: Payload, j: Json)
    requires d.layout.Valid()
  {
    Tells(d, FieldAt(data, d.layout.bytePos, d.layout.bitPos, d.layout.bitLen), j)
  }

  /** It has nothing to say: the number is not in the table, or needs a table and has none. */
  ghost predicate Meaningless(d: Definition, data: Payload)
    requires d.layout.Valid()
  {
    NothingToTell(d, FieldAt(data, d.layout.bytePos, d.layout.bitPos, d.layout.bitLen))
  }

  /** `told` is what any frame that carries word `w` has to say; `None` if there is nothing to say. */
  ghost predicate TellsFrame(d: Definition, w: Word, told: Option<Json>)
    requires d.layout.Valid()
  {
    forall data: Payload :: CanValue2Host(data) == w ==>
      if told.Some? then FieldTells(d, data, told.value) else Meaningless(d, data)
  }

  /** All definitions can be decoded from. */
  ghost predicate Decodable(defs: seq<Definition>) {
    forall i :: 0 <= i < |defs| ==> defs[i].WellTyped() && defs[i].layout.Valid()
  }

  predicate FailsOn(d: Definition, w: Word)
    requires d.layout.Valid()
  {
    d.Fails(Raw(d, w))
  }

  ghost predicate ErrorFree(defs: seq<Definition>, w: Word)
    requires Decodable(defs)
  {
    forall i :: 0 <= i < |defs| ==> !FailsOn(defs[i], w)
  }

  /** The first `n` members decode without error. */
  ghost predicate ErrorFreeUpTo(defs: seq<Definition>, w: Word, n: nat)
    requires Decodable(defs) && n <= |defs|
  {
    forall i :: 0 <= i < n ==> !FailsOn(defs[i], w)
  }

  /** The value this frame alone gives to a member of a multi-property. */
  function Fresh(d: Definition, w: Word): int
    requires d.WellTyped() && d.layout.Valid() && !FailsOn(d, w)
  {
    d.Stored(0, Raw(d, w))
  }

  /** The frame carries something for this member. */
  predicate Active(d: Definition, w: Word)
    requires d.WellTyped() && d.layout.Valid() && !FailsOn(d, w)
  {
    d.Updated(0, Raw(d, w))
  }

  ghost predicate IsElected(defs: seq<Definition>, w: Word, m: Option<nat>)
    requires Decodable(defs) && ErrorFree(defs, w)
  {
    match m
    case None => forall i :: 0 <= i < |defs| ==> !Active(defs[i], w)
    case Some(k) => k < |defs| && Active(defs[k], w) && forall i :: k < i < |defs| ==> !Active(defs[i], w)
  }

  datatype Decision = Error | Quiet | Push

  /** Specification of one step of a plain property. */
  ghost predicate PlainStep(c: Chain, w: Word, t: TimeVal, cycle: UInt32, c': Chain, r: Decision)
    requires c.Valid() && |c.defs| == 1
  {
    var d := c.defs[0];
    if FailsOn(d, w) then r.Error? && c' == c
    else
      var push := d.Updated(c.values[0], Raw(d, w)) || ElapsMs(c.updated, t) >= cycle;
      && r == (if push then Push else Quiet)
      && c' == c.(values := [d.Stored(c.values[0], Raw(d, w))], updated := if push then t else c.updated)
  }

  /** Specification of one step of a multi-property: `m` is the member elected by this frame. */
  ghost predicate MultiStep(c: Chain, w: Word, t: TimeVal, cycle: UInt32, m: Option<nat>, c': Chain, r: Decision)
    requires c.Valid() && ErrorFree(c.defs, w)
  {
    && IsElected(c.defs, w, m)
    && c'.defs == c.defs
    && |c'.values| == |c.values|
    && (forall i :: 0 <= i < |c.defs| ==> c'.values[i] == Fresh(c.defs[i], w))
    && c'.apply == (if m.Some? then m else c.apply)
    && r == (if || (m.Some? && (c.apply != m || c'.values[m.value] != c.values[m.value]))
                || ElapsMs(c.updated, t) >= cycle
             then Push else Quiet)
    && c'.updated == if r.Push? then t else c.updated
  }

  /** A multi-property with a member that fails: what was decoded before it stays, the rest is reset. */
  ghost predicate MultiError(c: Chain, w: Word, f: nat, c': Chain, r: Decision)
    requires c.Valid()
  {
    && f < |c.defs| && ErrorFreeUpTo(c.defs, w, f) && FailsOn(c.defs[f], w)
    && r.Error?
    && c'.defs == c.defs && c'.apply == c.apply && c'.updated == c.updated
    && |c'.values| == |c.values|
    && (forall i :: 0 <= i < |c.defs| ==> c'.values[i] == if i < f then Fresh(c.defs[i], w) else 0)
  }

  ghost predicate Step(c: Chain, w: Word, t: TimeVal, cycle: UInt32, c': Chain, r: Decision)
    requires c.Valid()
  {
    if |c.defs| == 1 then PlainStep(c, w, t, cycle, c', r)
    else if ErrorFree(c.defs, w) then exists m :: MultiStep(c, w, t, cycle, m, c', r)
    else exists f :: MultiError(c, w, f, c', r)
  }

  // ---------------------------------------------------------------------------------------
  // The loop over the members
  // ---------------------------------------------------------------------------------------

  /** The first `a` members have been decoded over the values `pre` without error: `vs` holds what
      they decode to, and `pre` beyond; `m` is the last of them that was reported as updated. */
  ghost predicate Progress(defs: seq<Definition>, pre: seq<int>, w: Word, a: nat, vs: seq<int>, m: Option<nat>)
    requires Decodable(defs)
  {
    && a <= |defs| == |pre| == |vs|
    && (forall i :: 0 <= i < a ==> !FailsOn(defs[i], w) && vs[i] == defs[i].Stored(pre[i], Raw(defs[i], w)))
    && (forall i :: a <= i < |defs| ==> vs[i] == pre[i])
    && (m.Some? ==> m.value < a && defs[m.value].Updated(pre[m.value], Raw(defs[m.value], w)))
    && (forall i :: 0 <= i < a && (m.Some? ==> m.value < i) ==> !defs[i].Updated(pre[i], Raw(defs[i], w)))
  }

  lemma ProgressStarts(defs: seq<Definition>, pre: seq<int>, w: Word)
    requires Decodable(defs) && |defs| == |pre|
    ensures Progress(defs, pre, w, 0, pre, None)
  {
  }

  lemma ProgressPending(defs: seq<Definition>, pre: seq<int>, w: Word, a: nat, vs: seq<int>, m: Option<nat>)
    requires Decodable(defs) && Progress(defs, pre, w, a, vs, m) && a < |defs|
    ensures vs[a] == pre[a]
  {
  }

  lemma ProgressAdvances(defs: seq<Definition>, pre: seq<int>, w: Word, a: nat, vs: seq<int>, m: Option<nat>)
    requires Decodable(defs) && Progress(defs, pre, w, a, vs, m) && a < |defs| && !FailsOn(defs[a], w)
    ensures Progress(defs, pre, w, a + 1, vs[a := defs[a].Stored(pre[a], Raw(defs[a], w))],
                     if defs[a].Updated(pre[a], Raw(defs[a], w)) then Some(a) else m)
  {
    hide Definition.Stored, Definition.Updated, Raw, Definition.Fails;
  }

  lemma DecodedHolds(d: Definition, cur: int, w: Word)
    requires d.WellTyped() && d.layout.Valid() && !FailsOn(d, w) && d.Holds(cur)
    ensures d.Holds(d.Stored(cur, Raw(d, w))) && d.Holds(0)
  {
    NarrowHolds(d, cur, Raw(d, w));
  }

  lemma ZeroHolds(d: Definition)
    ensures d.Holds(0)
  {
  }

  lemma FreshHolds(d: Definition, w: Word)
    requires d.WellTyped() && d.layout.Valid() && !FailsOn(d, w)
    ensures d.Holds(Fresh(d, w))
  {
    ZeroHolds(d);
    DecodedHolds(d, 0, w);
  }

  /** A step keeps a chain valid, and reports an error exactly when some member fails. */
  lemma StepKeepsValid(c: Chain, w: Word, t: TimeVal, cycle: UInt32, c': Chain, r: Decision)
    requires c.Valid() && Step(c, w, t, cycle, c', r)
    ensures c'.Valid() && c'.defs == c.defs
    ensures r.Error? <==> !ErrorFree(c.defs, w)
  {
    if |c.defs| == 1 {
      if !FailsOn(c.defs[0], w) {
        DecodedHolds(c.defs[0], c.values[0], w);
      }
    } else {
      forall i | 0 <= i < |c.defs|
        ensures c.defs[i].Holds(c'.values[i])
      {
        ZeroHolds(c.defs[i]);
        if !FailsOn(c.defs[i], w) {
          FreshHolds(c.defs[i], w);
        }
      }
    }
  }

  /** Frame and state determine the step: there is one elected member and one outcome. */
  lemma StepIsDeterministic(c: Chain, w: Word, t: TimeVal, cycle: UInt32,
                            c1: Chain, r1: Decision, c2: Chain, r2: Decision)
    requires c.Valid() && Step(c, w, t, cycle, c1, r1) && Step(c, w, t, cycle, c2, r2)
    ensures c1 == c2 && r1 == r2
  {
    if 1 < |c.defs| {
      if ErrorFree(c.defs, w) {
        var m :| MultiStep(c, w, t, cycle, m, c1, r1);
        var n :| MultiStep(c, w, t, cycle, n, c2, r2);
        assert m == n;
        assert c1.values == c2.values;
      } else {
        var f :| MultiError(c, w, f, c1, r1);
        var g :| MultiError(c, w, g, c2, r2);
        assert f == g;
        assert c1.values == c2.values;
      }
    }
  }

  lemma DecodedIsTold(d: Definition, cur: int, data: Payload)
    requires d.WellTyped() && d.layout.Valid() && d.Holds(cur)
    ensures var w := CanValue2Host(data);
            && (FailsOn(d, w) <==> Meaningless(d, data))
            && (!FailsOn(d, w) ==>
                  d.Holds(d.Stored(cur, Raw(d, w))) && FieldTells(d, data, ToJson(d, d.Stored(cur, Raw(d, w)))))
  {
    hide CanValue2Host, Load, Tells, ToJson, Definition.Holds, Definition.Fails, Definition.Stored;
    FieldPosition(data, d.layout);
    var x := Raw(d, CanValue2Host(data));
    StoredIsTold(d, cur, x);
  }

  /** What property2json reports after a frame is what the fields of the frame have to say, of a
      multi-property the field of the member it shows; and a frame is an error exactly when some
      field has nothing to say. */
  lemma FrameIsTold(c: Chain, data: Payload, t: TimeVal, cycle: UInt32, c': Chain, r: Decision)
    requires c.Valid() && Step(c, CanValue2Host(data), t, cycle, c', r)
    ensures c'.Valid() && c'.defs == c.defs
    ensures r.Error? <==> exists i :: 0 <= i < |c.defs| && Meaningless(c.defs[i], data)
    ensures !r.Error? ==> FieldTells(c.defs[c'.Shown()], data, c'.Report())
  {
    hide CanValue2Host, Raw, FieldTells, Meaningless, ToJson, Definition.Holds, Definition.Fails, Definition.Stored, Definition.Updated, ElapsMs;
    var w := CanValue2Host(data);
    StepKeepsValid(c, w, t, cycle, c', r);
    forall i | 0 <= i < |c.defs|
      ensures FailsOn(c.defs[i], w) <==> Meaningless(c.defs[i], data)
    {
      DecodedIsTold(c.defs[i], c.values[i], data);
    }
    if !r.Error? {
      var a := c'.Shown();
      var cur := if |c.defs| == 1 then c.values[a] else 0;
      ZeroHolds(c.defs[a]);
      DecodedIsTold(c.defs[a], cur, data);
    }
  }

  ghost predicate AllZero(vs: seq<int>) {
    forall i :: 0 <= i < |vs| ==> vs[i] == 0
  }

  /** The decoding loop over zeroed members, run to its end, followed by the election. */
  lemma ProgressIsMultiStep(c: Chain, pre: seq<int>, w: Word, t: TimeVal, cycle: UInt32, m: Option<nat>, c': Chain, r: Decision)
    requires c.Valid() && 1 < |c.defs| && AllZero(pre)
    requires Progress(c.defs, pre, w, |c.defs|, c'.values, m)
    requires c'.defs == c.defs && c'.apply == if m.Some? then m else c.apply
    requires r == if || (m.Some? && (c.apply != m || c'.values[m.value] != c.values[m.value]))
                     || ElapsMs(c.updated, t) >= cycle
                  then Push else Quiet
    requires c'.updated == if r.Push? then t else c.updated
    ensures Step(c, w, t, cycle, c', r)
  {
    hide Definition.Stored, Definition.Updated, Raw, Definition.Fails, Definition.Holds, Definition.WellTyped, Layout.Valid, ElapsMs;
    assert MultiStep(c, w, t, cycle, m, c', r);
  }

  /** The same loop stopped by an error. */
  lemma ProgressIsMultiError(c: Chain, pre: seq<int>, w: Word, f: nat, vs: seq<int>, m: Option<nat>, t: TimeVal, cycle: UInt32)
    requires c.Valid() && 1 < |c.defs| && AllZero(pre) && f < |c.defs|
    requires Progress(c.defs, pre, w, f, vs, m) && FailsOn(c.defs[f], w)
    ensures Step(c, w, t, cycle, c.(values := vs), Error)
  {
    hide Definition.Stored, Definition.Updated, Raw, Definition.Fails, Definition.Holds, Definition.WellTyped, Layout.Valid, ElapsMs;
    assert MultiError(c, w, f, c.(values := vs), Error);
  }
}
