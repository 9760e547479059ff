/** What leaves the bus interface over whole runs of `set` calls and timer ticks, and what a receiver
    with the same definitions makes of it (src/can_signal_event.c, `can_signal_send`, `on_timerEvent`). */
module Transmit {
  import opened Words
  import opened Codec
  import opened Values
  import opened Thinning
  import opened CanInfo

  /** One CAN-ID: the signals that can be set, their values, the stored frame, and all frames sent. */
  datatype Tx = Tx(defs: seq<Definition>, values: seq<int>, frame: CanFrame, sent: seq<CanFrame>)

  /** A `set` call, a timer tick of this CAN-ID, or a frame of another CAN-ID passing the socket. */
  datatype Step = Set(signal: nat, value: UInt32) | Timer | Other(f: CanFrame)

  function LayoutsOf(defs: seq<Definition>): (ls: seq<Layout>)
    ensures |ls| == |defs| && forall k :: 0 <= k < |ls| ==> ls[k] == defs[k].layout
  {
    seq(|defs|, k requires 0 <= k < |defs| => defs[k].layout)
  }

  /** The signals of one frame do not overlap. */
  ghost predicate Sound(defs: seq<Definition>) {
    Decodable(defs) && Layouts(LayoutsOf(defs))
  }

  ghost predicate Targets(defs: seq<Definition>, steps: seq<Step>) {
    forall n :: 0 <= n < |steps| && steps[n].Set? ==> steps[n].signal < |defs|
  }

  function WithField(f: CanFrame, l: Layout, value: UInt32): CanFrame
    requires l.Valid()
  {
    f.(data := Host2CanValue(Store(CanValue2Host(f.data), l, value)))
  }

  /** can_signal_send, and the timer handler. */
  ghost function Apply(s: Tx, step: Step): (s': Tx)
    requires Decodable(s.defs) && |s.values| == |s.defs|
    requires step.Set? ==> step.signal < |s.defs|
    ensures s'.defs == s.defs && |s'.values| == |s.values|
  {
    match step
    case Set(k, v) =>
      var d := s.defs[k];
      if d.Fails(v) then s
      else
        var f := WithField(s.frame, d.layout, v);
        Tx(s.defs, s.values[k := d.Stored(s.values[k], v)], f, s.sent + [f])
    case Timer => s.(sent := s.sent + [s.frame])
    case Other(f) => s.(sent := s.sent + [f])
  }

  ghost function Run(s: Tx, steps: seq<Step>): (s': Tx)
    requires Decodable(s.defs) && |s.values| == |s.defs| && Targets(s.defs, steps)
    ensures s'.defs == s.defs && |s'.values| == |s.values|
  {
    if steps == [] then s else Apply(Run(s, steps[..|steps| - 1]), steps[|steps| - 1])
  }

  ghost predicate Transmits(defs: seq<Definition>, step: Step)
    requires Decodable(defs) && (step.Set? ==> step.signal < |defs|)
  {
    step.Timer? || (step.Set? && !defs[step.signal].Fails(step.value))
  }

  /** The `set` calls that succeeded. */
  ghost function Successes(defs: seq<Definition>, steps: seq<Step>): (ws: seq<Write>)
    requires Decodable(defs) && Targets(defs, steps)
    ensures Writes(LayoutsOf(defs), ws)
  {
    if steps == [] then []
    else
      var rest, last := Successes(defs, steps[..|steps| - 1]), steps[|steps| - 1];
      if last.Set? && !defs[last.signal].Fails(last.value) then rest + [Write(last.signal, last.value)] else rest
  }

  /** As the loader leaves the record of CAN-ID `id`. */
  ghost predicate Initial(s: Tx, id: UInt32) {
    && Sound(s.defs) && |s.values| == |s.defs|
    && s.frame == CanFrame(id, 8, EMPTY)
  }

  /** The frame is the loader's frame with the successful writes packed into it. */
  lemma {:induction false} FrameIsPacked(s: Tx, id: UInt32, steps: seq<Step>)
    requires Initial(s, id) && Targets(s.defs, steps)
    ensures Run(s, steps).frame.canId == id && Run(s, steps).frame.dlc == 8
    ensures CanValue2Host(Run(s, steps).frame.data) ==
            StoreAll(CanValue2Host(EMPTY), LayoutsOf(s.defs), Successes(s.defs, steps))
  {
    hide CanValue2Host, Host2CanValue, Store, Definition.Stored, Layouts;
    if steps != [] {
      var rest, last := steps[..|steps| - 1], steps[|steps| - 1];
      FrameIsPacked(s, id, rest);
      var f := Run(s, rest).frame;
      if last.Set? && !s.defs[last.signal].Fails(last.value) {
        HostOfCan(Store(CanValue2Host(f.data), s.defs[last.signal].layout, last.value));
        var ws := Successes(s.defs, rest);
        assert (ws + [Write(last.signal, last.value)])[..|ws|] == ws;
      }
    }
  }

  lemma EmptyIsZero(i: nat)
    requires i < 64
    ensures !CanValue2Host(EMPTY)[i]
  {
    ByteFits(0);
    BitsOfVal(seq(8, j => false));
    ValPadded(seq(8, j => false), 0);
  }

  lemma EmptyLoadsZero(l: Layout)
    requires l.Valid()
    ensures Load(CanValue2Host(EMPTY), l) == 0
  {
    var w := CanValue2Host(EMPTY);
    LoadIsField(w, l);
    forall i: nat | i < 64 {
      EmptyIsZero(i);
    }
    ValPadded(w[l.Shift()..l.Shift() + l.bitLen], 0);
  }

  /** One snapshot of all signals: each carries its latest value modulo `2^LEN`, zero if it was never
      set; unassigned bits are zero; identifier and length are the loader's. */
  ghost predicate Snapshot(f: CanFrame, id: UInt32, defs: seq<Definition>, ws: seq<Write>)
    requires Sound(defs)
  {
    && f.canId == id && f.dlc == 8
    && (forall k :: 0 <= k < |defs| ==>
          Load(CanValue2Host(f.data), defs[k].layout) ==
          match LastWrite(ws, k) case None => 0 case Some(v) => v % Pow2(defs[k].layout.bitLen))
    && (forall i :: 0 <= i < 64 && (forall k :: 0 <= k < |defs| ==> !defs[k].layout.Covers(i)) ==>
          !CanValue2Host(f.data)[i])
  }

  lemma FrameIsSnapshot(s: Tx, id: UInt32, steps: seq<Step>)
    requires Initial(s, id) && Targets(s.defs, steps)
    ensures Snapshot(Run(s, steps).frame, id, s.defs, Successes(s.defs, steps))
  {
    hide CanValue2Host, Host2CanValue, Load, StoreAll, LastWrite, Run, Successes;
    FrameIsPacked(s, id, steps);
    var ls, ws, w := LayoutsOf(s.defs), Successes(s.defs, steps), CanValue2Host(EMPTY);
    forall k: nat | k < |s.defs|
      ensures Load(StoreAll(w, ls, ws), ls[k]) ==
              match LastWrite(ws, k) case None => 0 case Some(v) => v % Pow2(ls[k].bitLen)
    {
      PackingLaw(w, ls, ws, k);
      EmptyLoadsZero(ls[k]);
    }
    forall i: nat | i < 64 && forall k :: 0 <= k < |ls| ==> !s.defs[k].layout.Covers(i)
      ensures !StoreAll(w, ls, ws)[i]
    {
      UnwrittenBit(w, ls, ws, i);
      EmptyIsZero(i);
    }
  }

  /** Transmit-buffer invariant: at every point of every run, a step that transmits sends exactly one
      frame, and it is a snapshot of all successful sets so far; a failed `set` sends nothing. */
  lemma EveryTransmissionIsSnapshot(s: Tx, id: UInt32, steps: seq<Step>)
    requires Initial(s, id) && Targets(s.defs, steps) && steps != []
    ensures var before, after := Run(s, steps[..|steps| - 1]), Run(s, steps);
            if Transmits(s.defs, steps[|steps| - 1]) then
              && |after.sent| == |before.sent| + 1 && after.sent[..|before.sent|] == before.sent
              && Snapshot(after.sent[|before.sent|], id, s.defs, Successes(s.defs, steps))
            else steps[|steps| - 1].Set? ==> after.sent == before.sent
  {
    hide Snapshot, Successes;
    FrameIsSnapshot(s, id, steps);
  }

  /** From `start`, `steps` have led to `now`. */
  ghost predicate Follows(start: Tx, steps: seq<Step>, now: Tx) {
    && Decodable(start.defs) && |start.values| == |start.defs| && Targets(start.defs, steps)
    && now == Run(start, steps)
  }

  lemma FollowsStart(s: Tx)
    requires Decodable(s.defs) && |s.values| == |s.defs|
    ensures Follows(s, [], s)
  {
  }

  lemma FollowsNext(start: Tx, steps: seq<Step>, now: Tx, step: Step)
    requires Follows(start, steps, now) && (step.Set? ==> step.signal < |now.defs|)
    ensures Decodable(now.defs) && |now.values| == |now.defs|
    ensures Follows(start, steps + [step], Apply(now, step))
  {
    hide Apply;
    assert (steps + [step])[..|steps|] == steps;
  }

  /** What has been sent stays sent. */
  lemma {:induction false} SentGrows(start: Tx, steps: seq<Step>, n: nat)
    requires Decodable(start.defs) && |start.values| == |start.defs| && Targets(start.defs, steps) && n <= |steps|
    ensures Run(start, steps[..n]).sent <= Run(start, steps).sent
  {
    if n < |steps| {
      var rest := steps[..|steps| - 1];
      SentGrows(start, rest, n);
      assert rest[..n] == steps[..n];
    } else {
      assert steps[..n] == steps;
    }
  }

  /** Among all frames that have passed, the one that step `n` transmitted is a snapshot of the sets before it. */
  lemma TransmittedIsSnapshot(start: Tx, id: UInt32, steps: seq<Step>, now: Tx, n: nat)
    requires Follows(start, steps, now) && Initial(start, id) && n < |steps| && Transmits(start.defs, steps[n])
    ensures Targets(start.defs, steps[..n]) && Targets(start.defs, steps[..n + 1])
    ensures var k := |Run(start, steps[..n]).sent|;
            k < |now.sent| && Snapshot(now.sent[k], id, start.defs, Successes(start.defs, steps[..n + 1]))
  {
    hide Snapshot, Successes, Run, Initial, Transmits, Sound, Decodable;
    var head := steps[..n + 1];
    TargetsPrefix(start.defs, steps, n);
    TargetsPrefix(start.defs, steps, n + 1);
    assert head[..|head| - 1] == steps[..n] && head[|head| - 1] == steps[n];
    SoundStart(start, id);
    EveryTransmissionIsSnapshot(start, id, head);
    SentGrows(start, steps, n + 1);
    assert Run(start, head).sent <= now.sent;
  }

  lemma TargetsPrefix(defs: seq<Definition>, steps: seq<Step>, n: nat)
    requires Targets(defs, steps) && n <= |steps|
    ensures Targets(defs, steps[..n])
  {
  }

  lemma SoundStart(start: Tx, id: UInt32)
    requires Initial(start, id)
    ensures Sound(start.defs) && |start.values| == |start.defs|
  {
  }

  // ---------------------------------------------------------------------------------------
  // Sender and receiver
  // ---------------------------------------------------------------------------------------

  /** The bit width of the union member behind an integer type. */
  function Width(t: VarType): nat {
    match t
    case Int8 | UInt8 => 8
    case Int16 | UInt16 => 16
    case _ => 32
  }

  predicate Integral(t: VarType) {
    t.Int8? || t.UInt8? || t.Int16? || t.UInt16? || t.Void? || t.Int? || t.Int32T? || t.UInt? || t.UInt32T?
  }

  lemma ModMod(v: nat, m: nat, n: nat)
    requires m <= n
    ensures (v % Pow2(n)) % Pow2(m) == v % Pow2(m)
  {
    ValOfBits(v, n);
    ValOfBits(v, m);
    var r := v % Pow2(n);
    ValOfBits(r, m);
    BitsOfVal(Bits(v, n));
    forall i: nat | i < m
      ensures Bits(r, m)[i] == Bits(v, m)[i]
    {
      BitsAgree(r, m, n, i);
      BitsAgree(v, m, n, i);
    }
    assert Bits(r, m) == Bits(v, m);
  }

  lemma Pow2Order(m: nat, n: nat)
    requires m <= n
    ensures Pow2(m) <= Pow2(n)
    decreases n - m
  {
    if m < n {
      Pow2Order(m + 1, n);
    }
  }

  /** Truncation to the field is invisible after narrowing exactly when the narrowed bits fit the field. */
  lemma TruncationInvisibleIff(v: nat, len: nat, w: nat)
    ensures (v % Pow2(len)) % Pow2(w) == v % Pow2(w) <==> v % Pow2(w) < Pow2(len)
  {
    if w <= len {
      ModMod(v, w, len);
      Pow2Order(w, len);
    } else {
      ModMod(v, len, w);
      Pow2Order(len, w);
      ModSmall(v % Pow2(len), Pow2(w));
      if v % Pow2(w) < Pow2(len) {
        ModSmall(v % Pow2(w), Pow2(len));
      }
    }
  }

  /** What a same-layout receiver decodes from a frame into which `v` was set. */
  ghost function Received(d: Definition, data: Payload, v: UInt32): UInt32
    requires d.layout.Valid()
  {
    Load(CanValue2Host(Host2CanValue(Store(CanValue2Host(data), d.layout, v))), d.layout)
  }

  lemma ReceivedIsTruncated(d: Definition, data: Payload, v: UInt32)
    requires d.layout.Valid()
    ensures Received(d, data, v) == v % Pow2(d.layout.bitLen)
  {
    hide CanValue2Host, Host2CanValue, Store, Load;
    HostOfCan(Store(CanValue2Host(data), d.layout, v));
    StoredField(CanValue2Host(data), d.layout, v);
  }

  /** What is stored of a number or bool, whatever the cell held, converts it, and is told as such. */
  lemma SetIsTold(d: Definition, cur: int, v: UInt32)
    requires d.table.None? && (Integral(d.varType) || d.varType.Bool?)
    ensures !d.Fails(v) && Converts(d.varType, v, d.Stored(cur, v))
    ensures d.Holds(d.Stored(cur, v)) && Tells(d, v, ToJson(d, d.Stored(cur, v)))
  {
    hide Narrow, Converts, Tells, ToJson;
    StoredConverts(d, cur, v);
    assert d.Holds(0);
    StoredIsTold(d, 0, v);
    DecodingIsMemoryless(d, 0, cur, v);
  }

  /** Round trip: whatever sender and receiver held before, both end with the same value exactly when
      the bits kept by the type fit the field; this is so for every `v < 2^LEN`. */
  lemma RoundTrip(d: Definition, data: Payload, v: UInt32, sender: int, receiver: int)
    requires d.layout.Valid() && d.table.None? && Integral(d.varType)
    ensures var r := Received(d, data, v);
            && !d.Fails(v) && !d.Fails(r)
            && Converts(d.varType, v, d.Stored(sender, v)) && Converts(d.varType, r, d.Stored(receiver, r))
            && (d.Stored(receiver, r) == d.Stored(sender, v) <==> v % Pow2(Width(d.varType)) < Pow2(d.layout.bitLen))
            && (v < Pow2(d.layout.bitLen) ==>
                  && r == v && d.Holds(d.Stored(sender, v)) && Tells(d, v, ToJson(d, d.Stored(sender, v)))
                  && d.Holds(d.Stored(receiver, r)) && Tells(d, v, ToJson(d, d.Stored(receiver, r))))
  {
    hide Narrow, Received, Definition.Holds, Converts, Tells, ToJson;
    ReceivedIsTruncated(d, data, v);
    var len, w := d.layout.bitLen, Width(d.varType);
    TruncationInvisibleIff(v, len, w);
    Pow2Values();
    NarrowIsModular(d.varType, Received(d, data, v), v, Pow2(w));
    SetIsTold(d, sender, v);
    SetIsTold(d, receiver, Received(d, data, v));
    if v < Pow2(len) {
      ModSmall(v, Pow2(len));
    }
  }

  /** The same for bool: the receiver sees `v` modulo the field, so both agree unless a non-zero `v`
      vanishes in the field. */
  lemma RoundTripBool(d: Definition, data: Payload, v: UInt32, sender: int, receiver: int)
    requires d.layout.Valid() && d.table.None? && d.varType.Bool?
    ensures var r := Received(d, data, v);
            && Converts(Bool, v, d.Stored(sender, v)) && Converts(Bool, r, d.Stored(receiver, r))
            && (d.Stored(receiver, r) == d.Stored(sender, v) <==> (v == 0 || v % Pow2(d.layout.bitLen) != 0))
            && (v < Pow2(d.layout.bitLen) ==>
                  ToJson(d, d.Stored(receiver, r)) == ToJson(d, d.Stored(sender, v)) == Boolean(v != 0))
  {
    hide Received;
    ReceivedIsTruncated(d, data, v);
    SetIsTold(d, sender, v);
    SetIsTold(d, receiver, Received(d, data, v));
    if v < Pow2(d.layout.bitLen) {
      ModSmall(v, Pow2(d.layout.bitLen));
    }
  }

  lemma {:induction false} SuccessesDoNotFail(defs: seq<Definition>, steps: seq<Step>, k: nat, v: UInt32)
    requires Decodable(defs) && Targets(defs, steps) && k < |defs| && LastWrite(Successes(defs, steps), k) == Some(v)
    ensures !defs[k].Fails(v)
  {
    if steps != [] {
      var rest := Successes(defs, steps[..|steps| - 1]);
      var ws := Successes(defs, steps);
      if ws == rest {
        SuccessesDoNotFail(defs, steps[..|steps| - 1], k, v);
      } else {
        assert ws[..|ws| - 1] == rest;
        if ws[|ws| - 1].signal != k {
          SuccessesDoNotFail(defs, steps[..|steps| - 1], k, v);
        }
      }
    }
  }

  lemma SuccessesNext(defs: seq<Definition>, steps: seq<Step>, k: nat)
    requires Decodable(defs) && Targets(defs, steps) && steps != [] && Targets(defs, steps[..|steps| - 1])
    ensures var last := steps[|steps| - 1];
            LastWrite(Successes(defs, steps), k) ==
            if last.Set? && last.signal == k && !defs[k].Fails(last.value) then Some(last.value)
            else LastWrite(Successes(defs, steps[..|steps| - 1]), k)
  {
    var rest, ws := Successes(defs, steps[..|steps| - 1]), Successes(defs, steps);
    if ws != rest {
      assert ws[..|ws| - 1] == rest;
    }
  }

  /** The sender's own values over a whole run: each signal holds the value set last, decoded, or its
      start value if it was never set. */
  lemma {:induction false} ValueIsLastSet(s: Tx, steps: seq<Step>, k: nat)
    requires Decodable(s.defs) && |s.values| == |s.defs| && Targets(s.defs, steps) && k < |s.defs|
    ensures match LastWrite(Successes(s.defs, steps), k)
            case None => Run(s, steps).values[k] == s.values[k]
            case Some(v) => !s.defs[k].Fails(v) && Run(s, steps).values[k] == s.defs[k].Stored(s.values[k], v)
  {
    hide Definition.Fails, LastWrite, Successes, WithField;
    if steps == [] {
      NothingSet(s.defs, k);
    } else {
      var rest, last, d := steps[..|steps| - 1], steps[|steps| - 1], s.defs[k];
      ValueIsLastSet(s, rest, k);
      SuccessesNext(s.defs, steps, k);
      if last.Set? && last.signal == k && !d.Fails(last.value) && d.Supported() {
        DecodingIsMemoryless(d, Run(s, rest).values[k], s.values[k], last.value);
      }
    }
  }

  lemma NothingSet(defs: seq<Definition>, k: nat)
    requires Decodable(defs)
    ensures LastWrite(Successes(defs, []), k) == None
  {
  }

  /** So each signal, its cell being one of its type, reports the value set last. */
  lemma OwnReportTellsLastSet(s: Tx, steps: seq<Step>, k: nat)
    requires Decodable(s.defs) && |s.values| == |s.defs| && Targets(s.defs, steps) && k < |s.defs|
    requires s.defs[k].Holds(Run(s, steps).values[k])
    ensures var d, own := s.defs[k], Run(s, steps).values[k];
            match LastWrite(Successes(s.defs, steps), k)
            case None => own == s.values[k]
            case Some(v) => Tells(d, v, ToJson(d, own))
  {
    hide Definition.Fails, Definition.Holds, LastWrite, Successes, Run, Tells, ToJson;
    ValueIsLastSet(s, steps, k);
    var d, own := s.defs[k], Run(s, steps).values[k];
    match LastWrite(Successes(s.defs, steps), k)
    case None =>
    case Some(v) =>
      if d.Supported() {
        DecodingIsMemoryless(d, s.values[k], own, v);
      }
      StoredIsTold(d, own, v);
  }

  /** End to end over a whole run: a receiver that decodes the stored frame, whatever it held before,
      shows for each signal the value set last, provided that value fits the field. */
  lemma ReceiverShowsLastSet(s: Tx, id: UInt32, steps: seq<Step>, k: nat, v: UInt32, receiver: int)
    requires Initial(s, id) && Targets(s.defs, steps) && k < |s.defs|
    requires LastWrite(Successes(s.defs, steps), k) == Some(v) && v < Pow2(s.defs[k].layout.bitLen)
    requires s.defs[k].Supported()
    ensures var d := s.defs[k]; var x := Raw(d, CanValue2Host(Run(s, steps).frame.data));
            && x == v && !d.Fails(x) && d.Stored(receiver, x) == d.Stored(s.values[k], v) == Run(s, steps).values[k]
            && (d.Holds(receiver) ==> d.Holds(d.Stored(receiver, x)) && Tells(d, v, ToJson(d, d.Stored(receiver, x))))
  {
    FrameIsSnapshot(s, id, steps);
    ModSmall(v, Pow2(s.defs[k].layout.bitLen));
    SuccessesDoNotFail(s.defs, steps, k, v);
    DecodingIsMemoryless(s.defs[k], receiver, s.values[k], v);
    ValueIsLastSet(s, steps, k);
    if s.defs[k].Holds(receiver) {
      StoredIsTold(s.defs[k], receiver, v);
    }
  }
}
