/** Bit-field codec of src/canid_info.c: byte order, field extraction, read-modify-write. */
module Codec {
  import opened Words

  /** The eight payload bytes of a frame. */
  type Payload = d: seq<Byte> | |d| == 8 witness [0, 0, 0, 0, 0, 0, 0, 0]

  const EMPTY: Payload := [0, 0, 0, 0, 0, 0, 0, 0]

  /** POS, OFFS and LEN of one signal.  The loader bounds them by 8, 8 and 32. */
  datatype Layout = Layout(bytePos: nat, bitPos: nat, bitLen: nat) {

    function Shift(): int {
      (8 - bytePos) * 8 + bitPos
    }

    /** Exactly the layouts for which no C shift is out of range and the field is inside the frame. */
    predicate Valid() {
      bytePos <= 8 && bitPos <= 8 && bitLen <= 32 && Shift() < 64 && Shift() + bitLen <= 64
    }

    predicate Covers(i: int) {
      Shift() <= i < Shift() + bitLen
    }
  }

  ghost predicate Disjoint(l: Layout, k: Layout) {
    forall i :: 0 <= i < 64 ==> !(l.Covers(i) && k.Covers(i))
  }

  /** Byte `k` of the frame holds bits `8 * (7 - k)` and up: the most significant byte comes first. */
  function CanValue2Host(data: Payload): Word {
    seq(64, i requires 0 <= i < 64 => Bits(data[7 - i / 8], 8)[i % 8])
  }

  function ByteOf(v: Word, k: nat): (b: Byte)
    requires k < 8
  {
    ValBound(v[8 * k..8 * k + 8]);
    Pow2Values();
    Val(v[8 * k..8 * k + 8])
  }

  function Host2CanValue(v: Word): Payload {
    [ByteOf(v, 7), ByteOf(v, 6), ByteOf(v, 5), ByteOf(v, 4), ByteOf(v, 3), ByteOf(v, 2), ByteOf(v, 1), ByteOf(v, 0)]
  }

  lemma ByteBit(v: Word, i: nat)
    requires i < 64
    ensures Bits(ByteOf(v, i / 8), 8)[i % 8] == v[i]
  {
    BitsOfVal(v[8 * (i / 8)..8 * (i / 8) + 8]);
  }

  /** Payload and word are two faces of one value. */
  lemma HostOfCan(v: Word)
    ensures CanValue2Host(Host2CanValue(v)) == v
  {
    hide ByteOf, Bits, CanValue2Host;
    forall i: nat | i < 64
      ensures CanValue2Host(Host2CanValue(v))[i] == v[i]
    {
      HostBit(Host2CanValue(v), i);
      ByteBit(v, i);
    }
  }

  lemma HostBit(data: Payload, i: nat)
    requires i < 64
    ensures CanValue2Host(data)[i] == Bits(data[7 - i / 8], 8)[i % 8]
  {
  }

  lemma ByteFits(b: Byte)
    ensures Val(Bits(b, 8)) == b
  {
    ValOfBits(b, 8);
    Pow2Values();
  }

  lemma ByteOfHost(data: Payload, k: nat)
    requires k < 8
    ensures ByteOf(CanValue2Host(data), k) == data[7 - k]
  {
    var field, byte := CanValue2Host(data)[8 * k..8 * k + 8], Bits(data[7 - k], 8);
    forall j | 0 <= j < 8
      ensures field[j] == byte[j]
    {
      assert (8 * k + j) / 8 == k && (8 * k + j) % 8 == j;
    }
    assert field == byte;
    ByteFits(data[7 - k]);
  }

  lemma CanOfHost(data: Payload)
    ensures Host2CanValue(CanValue2Host(data)) == data
  {
    forall k: nat | k < 8 {
      ByteOfHost(data, k);
    }
  }

  /** What canframe2property reads from a word. */
  function Load(w: Word, l: Layout): (x: UInt32)
    requires l.Valid()
  {
    var v := And(Shr(w, l.Shift()), Mask(l.bitLen));
    ValBound(v[..32]);
    Pow2Values();
    Val(v[..32])
  }

  /** What property2canframe leaves in a word: clear the field, then insert the masked value. */
  function Store(w: Word, l: Layout, value: UInt32): Word
    requires l.Valid()
  {
    var mask := Mask(l.bitLen);
    Or(And(w, Not(Shl(mask, l.Shift()))), Shl(And(Bits(value, 64), mask), l.Shift()))
  }

  /** Extraction sees the field's bits and nothing else. */
  lemma LoadIsField(w: Word, l: Layout)
    requires l.Valid()
    ensures Load(w, l) == Val(w[l.Shift()..l.Shift() + l.bitLen])
  {
    var v := And(Shr(w, l.Shift()), Mask(l.bitLen));
    ValPadded(v[..32], l.bitLen);
    assert v[..32][..l.bitLen] == w[l.Shift()..l.Shift() + l.bitLen];
  }

  /** A field that spells `x` reads as `x`. */
  lemma FieldOf(w: Word, l: Layout, x: UInt32)
    requires l.Valid() && w[l.Shift()..l.Shift() + l.bitLen] == Bits(x, l.bitLen) && x < Pow2(l.bitLen)
    ensures Load(w, l) == x
  {
    hide Load, Bits, Pow2;
    LoadIsField(w, l);
    ValOfBits(x, l.bitLen);
    ModSmall(x, Pow2(l.bitLen));
  }

  // ---------------------------------------------------------------------------------------
  // Where a signal lies in the bytes of a frame
  // ---------------------------------------------------------------------------------------

  /** The number that bytes spell, the most significant first. */
  function BigEndian(bytes: seq<Byte>): nat {
    if bytes == [] then 0 else 0x100 * BigEndian(bytes[..|bytes| - 1]) + bytes[|bytes| - 1]
  }

  /** The high end of the word is the number spelled by the first bytes of the frame. */
  lemma {:induction false} HostIsBigEndian(data: Payload, p: nat)
    requires p <= 8
    ensures Val(CanValue2Host(data)[8 * (8 - p)..]) == BigEndian(data[..p])
  {
    hide CanValue2Host, Bits, Val, Pow2;
    var w, s := CanValue2Host(data), 8 * (8 - p);
    if p == 0 {
      assert w[s..] == [];
      NoBits();
    } else {
      var byte := Bits(data[p - 1], 8);
      forall j | 0 <= j < 8
        ensures w[s + j] == byte[j]
      {
        HostBit(data, s + j);
        assert (s + j) / 8 == 8 - p && (s + j) % 8 == j;
      }
      assert w[s..] == byte + w[s + 8..];
      ValConcat(byte, w[s + 8..]);
      ByteFits(data[p - 1]);
      Pow2Values();
      HostIsBigEndian(data, p - 1);
      assert data[..p][..p - 1] == data[..p - 1];
    }
  }

  lemma NoBits()
    ensures Val([]) == 0
  {
  }

  /** The number in the field of a frame: POS counts the bytes up to and including the one in which the
      field ends, OFFS the bits to the right of the field in that byte, LEN the bits of the field. */
  function FieldAt(data: Payload, pos: nat, offs: nat, len: nat): nat
    requires pos <= 8
  {
    (BigEndian(data[..pos]) / Pow2(offs)) % Pow2(len)
  }

  /** Shift and mask find the field there. */
  lemma FieldPosition(data: Payload, l: Layout)
    requires l.Valid()
    ensures Load(CanValue2Host(data), l) == FieldAt(data, l.bytePos, l.bitPos, l.bitLen)
  {
    hide CanValue2Host, Load, Val, Pow2;
    var w, o, n := CanValue2Host(data), l.bitPos, l.bitLen;
    var u := w[8 * (8 - l.bytePos)..];
    LoadIsField(w, l);
    assert w[l.Shift()..l.Shift() + n] == u[o..][..n];
    HostIsBigEndian(data, l.bytePos);
    ValSplit(u, o);
    ValSplit(u[o..], n);
  }

  /** What writing `v` makes of a frame: the bytes from POS on stay, and so do the bits to the right
      and to the left of the field in the number that the first POS bytes spell; the field is `v`
      cut to its width. */
  ghost predicate Replaced(data: Payload, data': Payload, l: Layout, v: UInt32)
    requires l.Valid()
  {
    var n, n' := BigEndian(data[..l.bytePos]), BigEndian(data'[..l.bytePos]);
    && data'[l.bytePos..] == data[l.bytePos..]
    && n' % Pow2(l.bitPos) == n % Pow2(l.bitPos)
    && FieldAt(data', l.bytePos, l.bitPos, l.bitLen) == v % Pow2(l.bitLen)
    && (n' / Pow2(l.bitPos)) / Pow2(l.bitLen) == (n / Pow2(l.bitPos)) / Pow2(l.bitLen)
  }

  lemma StoredField(w: Word, l: Layout, v: UInt32)
    requires l.Valid()
    ensures Load(Store(w, l, v), l) == v % Pow2(l.bitLen)
  {
    hide Store, Load, Bits, Pow2;
    forall i: nat | l.Shift() <= i < l.Shift() + l.bitLen
      ensures Store(w, l, v)[i] == Bits(v, 64)[i - l.Shift()]
    {
      StoreBit(w, l, v, i);
    }
    FieldIsTruncated(Store(w, l, v), l, v);
  }

  /** The last bytes of two frames are the same when the low bits are. */
  lemma LowBytes(w: Word, w': Word, p: nat)
    requires p <= 8 && w[..8 * (8 - p)] == w'[..8 * (8 - p)]
    ensures Host2CanValue(w)[p..] == Host2CanValue(w')[p..]
  {
    hide Host2CanValue;
    forall i: nat | p <= i < 8
      ensures Host2CanValue(w)[i] == Host2CanValue(w')[i]
    {
      SameByte(w, w', p, i);
    }
  }

  lemma SameByte(w: Word, w': Word, p: nat, i: nat)
    requires p <= i < 8 && w[..8 * (8 - p)] == w'[..8 * (8 - p)]
    ensures Host2CanValue(w)[i] == Host2CanValue(w')[i]
  {
    hide Val;
    var k := 8 * (7 - i);
    assert w[k..k + 8] == w[..8 * (8 - p)][k..k + 8];
    assert w'[k..k + 8] == w'[..8 * (8 - p)][k..k + 8];
  }

  /** Bits above and below the field survive a write. */
  lemma StoreAround(w: Word, l: Layout, v: UInt32)
    requires l.Valid()
    ensures Store(w, l, v)[..l.Shift()] == w[..l.Shift()]
    ensures Store(w, l, v)[l.Shift() + l.bitLen..] == w[l.Shift() + l.bitLen..]
  {
    hide Store, Bits;
    var w' := Store(w, l, v);
    forall i: nat | i < 64 && !l.Covers(i)
      ensures w'[i] == w[i]
    {
      StoreBit(w, l, v, i);
    }
  }

  /** A write replaces its field of the frame and nothing else. */
  lemma WriteReplaces(data: Payload, l: Layout, v: UInt32)
    requires l.Valid()
    ensures Replaced(data, Host2CanValue(Store(CanValue2Host(data), l, v)), l, v)
  {
    hide CanValue2Host, Host2CanValue, Store, Load, Val, Pow2, BigEndian;
    var w := CanValue2Host(data);
    var w' := Store(w, l, v);
    var data' := Host2CanValue(w');
    HostOfCan(w');
    CanOfHost(data);
    FieldPosition(data', l);
    StoredField(w, l, v);
    StoreAround(w, l, v);
    HighPart(data, l);
    HighPart(data', l);
    var s := 8 * (8 - l.bytePos);
    assert w[..s] == w[..l.Shift()][..s] && w'[..s] == w'[..l.Shift()][..s];
    LowBytes(w', w, l.bytePos);
  }

  /** The parts of the number to the right and to the left of the field, as bits of the word. */
  lemma HighPart(data: Payload, l: Layout)
    requires l.Valid()
    ensures var n, w := BigEndian(data[..l.bytePos]), CanValue2Host(data);
            && n % Pow2(l.bitPos) == Val(w[..l.Shift()][8 * (8 - l.bytePos)..])
            && (n / Pow2(l.bitPos)) / Pow2(l.bitLen) == Val(w[l.Shift() + l.bitLen..])
  {
    hide CanValue2Host, Val, Pow2, BigEndian;
    var w := CanValue2Host(data);
    var u := w[8 * (8 - l.bytePos)..];
    HostIsBigEndian(data, l.bytePos);
    ValSplit(u, l.bitPos);
    ValSplit(u[l.bitPos..], l.bitLen);
    assert u[..l.bitPos] == w[..l.Shift()][8 * (8 - l.bytePos)..];
    assert u[l.bitPos..][l.bitLen..] == w[l.Shift() + l.bitLen..];
  }

  lemma {:induction false} BigEndianIsInjective(a: seq<Byte>, b: seq<Byte>)
    requires |a| == |b| && BigEndian(a) == BigEndian(b)
    ensures a == b
  {
    if a != [] {
      var i := |a| - 1;
      BigEndianIsInjective(a[..i], b[..i]);
      assert a == a[..i] + [a[i]] && b == b[..i] + [b[i]];
    }
  }

  /** There is one such frame. */
  lemma ReplacedIsUnique(data: Payload, a: Payload, b: Payload, l: Layout, v: UInt32)
    requires l.Valid() && Replaced(data, a, l, v) && Replaced(data, b, l, v)
    ensures a == b
  {
    hide Pow2, BigEndian;
    var p := l.bytePos;
    SameParts(BigEndian(a[..p]) / Pow2(l.bitPos), BigEndian(b[..p]) / Pow2(l.bitPos), Pow2(l.bitLen));
    SameParts(BigEndian(a[..p]), BigEndian(b[..p]), Pow2(l.bitPos));
    BigEndianIsInjective(a[..p], b[..p]);
    assert a == a[..p] + a[p..] && b == b[..p] + b[p..];
  }

  lemma SameParts(m: nat, n: nat, k: nat)
    requires k > 0 && m / k == n / k && m % k == n % k
    ensures m == n
  {
  }

  // ---------------------------------------------------------------------------------------
  // Any number of signals, any sequence of writes
  // ---------------------------------------------------------------------------------------

  /** One successful write of `value` to signal number `signal`. */
  datatype Write = Write(signal: nat, value: UInt32)

  ghost predicate Layouts(ls: seq<Layout>) {
    && (forall k :: 0 <= k < |ls| ==> ls[k].Valid())
    && (forall j, k :: 0 <= j < k < |ls| ==> Disjoint(ls[j], ls[k]))
  }

  ghost predicate Writes(ls: seq<Layout>, ws: seq<Write>) {
    forall n :: 0 <= n < |ws| ==> ws[n].signal < |ls|
  }

  function StoreAll(w: Word, ls: seq<Layout>, ws: seq<Write>): Word
    requires forall k :: 0 <= k < |ls| ==> ls[k].Valid()
    requires forall n :: 0 <= n < |ws| ==> ws[n].signal < |ls|
  {
    if ws == [] then w
    else
      var last := ws[|ws| - 1];
      Store(StoreAll(w, ls, ws[..|ws| - 1]), ls[last.signal], last.value)
  }

  /** The value most recently written to signal `k`. */
  function LastWrite(ws: seq<Write>, k: nat): Option<UInt32> {
    if ws == [] then None
    else if ws[|ws| - 1].signal == k then Some(ws[|ws| - 1].value)
    else LastWrite(ws[..|ws| - 1], k)
  }

  /** Insertion replaces the bits of the field and keeps all others. */
  lemma StoreBit(w: Word, l: Layout, value: UInt32, i: nat)
    requires l.Valid() && i < 64
    ensures Store(w, l, value)[i] == if l.Covers(i) then Bits(value, 64)[i - l.Shift()] else w[i]
  {
  }

  lemma DisjointBit(ls: seq<Layout>, j: nat, k: nat, i: nat)
    requires Layouts(ls) && j < |ls| && k < |ls| && j != k && i < 64 && ls[k].Covers(i)
    ensures !ls[j].Covers(i)
  {
    if j < k {
      assert Disjoint(ls[j], ls[k]);
    } else {
      assert Disjoint(ls[k], ls[j]);
    }
  }

  /** Every bit of every signal is the bit of its last written value, or the initial bit. */
  lemma {:induction false} SignalBit(w: Word, ls: seq<Layout>, ws: seq<Write>, k: nat, i: nat)
    requires Layouts(ls) && Writes(ls, ws) && k < |ls| && ls[k].Covers(i)
    ensures StoreAll(w, ls, ws)[i] ==
            match LastWrite(ws, k)
            case None => w[i]
            case Some(v) => Bits(v, 64)[i - ls[k].Shift()]
  {
    hide Store, Bits, Disjoint;
    if ws != [] {
      var last := ws[|ws| - 1];
      SignalBit(w, ls, ws[..|ws| - 1], k, i);
      StoreBit(StoreAll(w, ls, ws[..|ws| - 1]), ls[last.signal], last.value, i);
      if last.signal != k {
        DisjointBit(ls, last.signal, k, i);
      }
    }
  }

  /** Bits outside the written signals never change. */
  lemma {:induction false} UnwrittenBit(w: Word, ls: seq<Layout>, ws: seq<Write>, i: nat)
    requires Layouts(ls) && Writes(ls, ws) && i < 64
    requires forall k :: 0 <= k < |ls| && LastWrite(ws, k).Some? ==> !ls[k].Covers(i)
    ensures StoreAll(w, ls, ws)[i] == w[i]
  {
    hide Store, Bits, Disjoint, Layout.Covers;
    if ws != [] {
      var rest, last := ws[..|ws| - 1], ws[|ws| - 1];
      assert LastWrite(ws, last.signal).Some?;
      forall k | 0 <= k < |ls| && LastWrite(rest, k).Some?
        ensures !ls[k].Covers(i)
      {
        assert LastWrite(ws, k).Some?;
      }
      UnwrittenBit(w, ls, rest, i);
      StoreBit(StoreAll(w, ls, rest), ls[last.signal], last.value, i);
    }
  }

  /** A field whose bits are those of `v`. */
  lemma FieldIsTruncated(r: Word, l: Layout, v: UInt32)
    requires l.Valid() && forall i :: l.Shift() <= i < l.Shift() + l.bitLen ==> r[i] == Bits(v, 64)[i - l.Shift()]
    ensures Load(r, l) == v % Pow2(l.bitLen)
  {
    hide Bits, Load, Pow2;
    var s, n := l.Shift(), l.bitLen;
    LoadIsField(r, l);
    forall j | 0 <= j < n
      ensures r[s..s + n][j] == Bits(v, n)[j]
    {
      BitsAgree(v, n, 64, j);
    }
    assert r[s..s + n] == Bits(v, n);
    ValOfBits(v, n);
  }

  lemma SameField(r: Word, w: Word, l: Layout)
    requires l.Valid() && forall i :: l.Shift() <= i < l.Shift() + l.bitLen ==> r[i] == w[i]
    ensures Load(r, l) == Load(w, l)
  {
    hide Load;
    var s, n := l.Shift(), l.bitLen;
    LoadIsField(r, l);
    LoadIsField(w, l);
    assert r[s..s + n] == w[s..s + n];
  }

  /** Packing law: after any writes, each signal reads back its last value modulo `2^LEN`,
      or what it held at the start when it was never written. */
  lemma PackingLaw(w: Word, ls: seq<Layout>, ws: seq<Write>, k: nat)
    requires Layouts(ls) && Writes(ls, ws) && k < |ls|
    ensures Load(StoreAll(w, ls, ws), ls[k]) ==
            match LastWrite(ws, k)
            case None => Load(w, ls[k])
            case Some(v) => v % Pow2(ls[k].bitLen)
  {
    hide Bits, Load, Pow2, StoreAll, LastWrite, Disjoint;
    var r, l := StoreAll(w, ls, ws), ls[k];
    forall i | l.Shift() <= i < l.Shift() + l.bitLen
      ensures r[i] == match LastWrite(ws, k) case None => w[i] case Some(v) => Bits(v, 64)[i - l.Shift()]
    {
      SignalBit(w, ls, ws, k, i);
    }
    match LastWrite(ws, k)
    case None => SameField(r, w, l);
    case Some(v) => FieldIsTruncated(r, l, v);
  }

  /** The word is determined by the last value of each signal: writes to different signals
      commute, and an overwritten write leaves no trace. */
  lemma OrderIrrelevant(w: Word, ls: seq<Layout>, ws: seq<Write>, vs: seq<Write>)
    requires Layouts(ls) && Writes(ls, ws) && Writes(ls, vs)
    requires forall k :: 0 <= k < |ls| ==> LastWrite(ws, k) == LastWrite(vs, k)
    ensures StoreAll(w, ls, ws) == StoreAll(w, ls, vs)
  {
    forall i | 0 <= i < 64
      ensures StoreAll(w, ls, ws)[i] == StoreAll(w, ls, vs)[i]
    {
      if k :| 0 <= k < |ls| && LastWrite(ws, k).Some? && ls[k].Covers(i) {
        SignalBit(w, ls, ws, k, i);
        SignalBit(w, ls, vs, k, i);
      } else {
        UnwrittenBit(w, ls, ws, i);
        UnwrittenBit(w, ls, vs, i);
      }
    }
  }
}
