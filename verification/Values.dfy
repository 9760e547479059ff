/** Signal definitions and the meaning of a decoded raw value (src/canid_info.c, `_updatePropertyValue`).

    The union `data_content_t` is one integer cell.  Zeroed memory is 0 for every type; a string
    pointer to entry `k` of the conversion table is `k + 1`, so that NULL is 0 and pointers to
    different entries differ even when their texts agree. */
module Values {
  import opened Words
  import opened Codec

  datatype VarType =
    | Void | Int8 | Int16 | Int | Int32T | Int64 | UInt8 | UInt16 | UInt | UInt32T | UInt64
    | String | Bool | Array | Enable1

  datatype Table = Ints(ints: seq<Int32>) | Strings(texts: seq<string>) {
    function Size(): nat {
      match this
      case Ints(s) => |s|
      case Strings(s) => |s|
    }
  }

  datatype Definition = Definition(name: string, layout: Layout, varType: VarType, table: Option<Table>) {

    /** The entries have the C type through which the decoder reads them. */
    predicate WellTyped() {
      table.Some? ==> (table.value.Strings? <==> varType.String?)
    }

    predicate Supported() {
      !varType.Int64? && !varType.UInt64? && !varType.Array?
    }

    /** UPSTAT_ERROR: an index beyond the table, or a type that needs a table and has none. */
    predicate Fails(x: UInt32) {
      || (table.Some? && table.value.Size() <= x)
      || (table.None? && (varType.String? || varType.Enable1?))
    }

    /** The integer that is narrowed to the property's type. */
    function Source(x: UInt32): int
      requires WellTyped() && !Fails(x) && !varType.String?
    {
      if table.Some? then table.value.ints[x] else x
    }

    /** The cell contents after decoding `x` over `cur`; only unsupported types keep `cur`. */
    function Stored(cur: int, x: UInt32): int
      requires WellTyped() && !Fails(x)
    {
      if varType.String? then x + 1
      else if !Supported() then cur
      else Narrow(varType, Source(x))
    }

    /** The change is reported although the value may be the same: signed comparison of an unsigned
        cell, or comparison of a bool with a raw table entry. */
    predicate Spurious(x: UInt32)
      requires WellTyped() && !Fails(x)
    {
      match varType
      case UInt8 => Narrow(UInt8, Source(x)) >= 0x80
      case UInt16 => table.Some? && Narrow(UInt16, Source(x)) >= 0x8000
      case Bool => table.Some? && Source(x) != 0 && Source(x) != 1
      case _ => false
    }

    /** The change is stored but never reported: "NOTSET" strings and raw 0 of ENABLE-1. */
    predicate Silent(x: UInt32)
      requires WellTyped() && !Fails(x)
    {
      match varType
      case String => table.value.texts[x] == "NOTSET"
      case Enable1 => x == 0
      case _ => false
    }

    /** UPSTAT_UPDATED. */
    predicate Updated(cur: int, x: UInt32)
      requires WellTyped() && !Fails(x)
    {
      (Stored(cur, x) != cur || Spurious(x)) && !Silent(x)
    }

    /** Values the cell can hold. */
    predicate Holds(cur: int) {
      match varType
      case Int8 => -0x80 <= cur < 0x80
      case Int16 => -0x8000 <= cur < 0x8000
      case Void | Int | Int32T | Enable1 => -0x8000_0000 <= cur < 0x8000_0000
      case UInt8 => 0 <= cur < 0x100
      case UInt16 => 0 <= cur < 0x1_0000
      case UInt | UInt32T => 0 <= cur < 0x1_0000_0000
      case Bool => 0 <= cur <= 1
      case String => 0 <= cur <= (if table.Some? then table.value.Size() else 0)
      case Int64 | UInt64 | Array => cur == 0
    }
  }

  /** Two's-complement conversion to the signed type with `modulus` values. */
  function Signed(e: int, modulus: int): int
    requires modulus > 0
  {
    var r := e % modulus;
    if r < modulus / 2 then r else r - modulus
  }

  /** The C conversion of `e` to the member of the union that belongs to the type. */
  function Narrow(t: VarType, e: int): int {
    match t
    case Int8 => Signed(e, 0x100)
    case Int16 => Signed(e, 0x1_0000)
    case UInt8 => e % 0x100
    case UInt16 => e % 0x1_0000
    case UInt | UInt32T => e % 0x1_0000_0000
    case Bool => if e != 0 then 1 else 0
    case _ => Signed(e, 0x1_0000_0000)
  }

  lemma NarrowHolds(d: Definition, cur: int, x: UInt32)
    requires d.WellTyped() && !d.Fails(x) && d.Holds(cur)
    ensures d.Holds(d.Stored(cur, x))
  {
  }

  lemma NarrowInt32(t: VarType, e: Int32)
    requires t.Enable1? || t.Int32T? || t.Int? || t.Void?
    ensures Narrow(t, e) == e
  {
  }

  /** Reinterpretation, not change of value: narrowing is the identity on values of the type, and
      two sources are stored alike exactly when they agree modulo the width. */
  lemma NarrowIsModular(t: VarType, e: int, f: int, w: int)
    requires match t
             case Int8 | UInt8 => w == 0x100
             case Int16 | UInt16 => w == 0x1_0000
             case Void | Int | Int32T | UInt | UInt32T => w == 0x1_0000_0000
             case _ => false
    ensures Narrow(t, e) % w == e % w
    ensures Narrow(t, e) == Narrow(t, f) <==> e % w == f % w
  {
    Residues(e, w);
    Residues(f, w);
  }

  lemma Residues(e: int, w: int)
    requires w in {0x100, 0x1_0000, 0x1_0000_0000}
    ensures 0 <= e % w < w && (e % w) % w == e % w && (e % w - w) % w == e % w
  {
  }

  // ---------------------------------------------------------------------------------------
  // Decoding has no memory, and the flag is exact outside the named cases
  // ---------------------------------------------------------------------------------------

  /** For a supported type the stored value depends on the raw value alone. */
  lemma DecodingIsMemoryless(d: Definition, cur: int, cur': int, x: UInt32)
    requires d.WellTyped() && d.Supported() && !d.Fails(x)
    ensures d.Stored(cur, x) == d.Stored(cur', x)
    ensures d.Stored(d.Stored(cur, x), x) == d.Stored(cur, x)
  {
  }

  /** UPSTAT_UPDATED means "the value changed", whatever the cell held before, exactly when the
      raw value is neither spuriously reported nor silently stored. */
  lemma FlagIsExactIff(d: Definition, x: UInt32)
    requires d.WellTyped() && d.Supported() && !d.Fails(x)
    ensures (forall cur :: d.Holds(cur) ==> (d.Updated(cur, x) <==> d.Stored(cur, x) != cur))
            <==> !d.Spurious(x) && !d.Silent(x)
  {
    var v := d.Stored(0, x);
    assert d.Holds(0);
    NarrowHolds(d, 0, x);
    if d.Silent(x) {
      var other := if v == 0 then 1 else 0;
      assert d.Holds(other) && d.Stored(other, x) != other && !d.Updated(other, x);
    } else if d.Spurious(x) {
      assert d.Holds(v) && d.Stored(v, x) == v && d.Updated(v, x);
    }
  }

  // ---------------------------------------------------------------------------------------
  // Reading a cell
  // ---------------------------------------------------------------------------------------

  /** propertyValue_int. */
  function ValueInt(d: Definition, cur: int): int {
    match d.varType
    case UInt | UInt32T => Signed(cur, 0x1_0000_0000)
    case String | Array | Int64 | UInt64 => -1
    case _ => cur
  }

  datatype Json = Number(n: int) | Text(s: string) | Boolean(b: bool) | EmptyList | Null

  /** The "value" member that property2json builds for one property. */
  function ToJson(d: Definition, cur: int): Json
    requires d.WellTyped() && d.Holds(cur)
  {
    match d.varType
    case String => Text(if cur == 0 then "null" else d.table.value.texts[cur - 1])
    case Bool => Boolean(cur != 0)
    case Array => EmptyList
    case UInt64 => Null
    case _ => Number(ValueInt(d, cur))
  }

  // ---------------------------------------------------------------------------------------
  // What a client is told
  // ---------------------------------------------------------------------------------------

  /** `c` is the number `e` converted to the type: the one number in the range of the type that agrees
      with `e` modulo its width; for bool, whether `e` is not zero. */
  predicate Converts(t: VarType, e: int, c: int) {
    match t
    case Int8 => -0x80 <= c < 0x80 && (c - e) % 0x100 == 0
    case UInt8 => 0 <= c < 0x100 && (c - e) % 0x100 == 0
    case Int16 => -0x8000 <= c < 0x8000 && (c - e) % 0x1_0000 == 0
    case UInt16 => 0 <= c < 0x1_0000 && (c - e) % 0x1_0000 == 0
    case UInt | UInt32T => 0 <= c < 0x1_0000_0000 && (c - e) % 0x1_0000_0000 == 0
    case Bool => 0 <= c <= 1 && (c == 1 <==> e != 0)
    case _ => -0x8000_0000 <= c < 0x8000_0000 && (c - e) % 0x1_0000_0000 == 0
  }

  /** `j` reports the number `e`; UINT and UINT32 are reported as signed numbers. */
  predicate ReportsNumber(t: VarType, e: int, j: Json) {
    match t
    case String => false
    case Bool => j == Boolean(e != 0)
    case Array => j == EmptyList
    case Int64 => j == Number(-1)
    case UInt64 => j == Null
    case UInt | UInt32T => j.Number? && Converts(Int32T, e, j.n)
    case _ => j.Number? && Converts(t, e, j.n)
  }

  /** `j` is what a client is told about raw value `x`: number `x` itself or table entry `x`. */
  predicate Tells(d: Definition, x: nat, j: Json) {
    match d.table
    case None => !d.varType.Enable1? && ReportsNumber(d.varType, x, j)
    case Some(Ints(s)) => x < |s| && ReportsNumber(d.varType, s[x], j)
    case Some(Strings(s)) => d.varType.String? && x < |s| && j == Text(s[x])
  }

  ghost predicate NothingToTell(d: Definition, x: nat) {
    forall j :: !Tells(d, x, j)
  }

  lemma Multiple(q: int, m: int)
    requires m > 0
    ensures (q * m) % m == 0
  {
    var r, d := (q * m) % m, q - (q * m) / m;
    assert d * m == q * m - ((q * m) / m) * m == r;
    assert d <= -1 ==> d * m <= -1 * m;
    assert d >= 1 ==> d * m >= 1 * m;
  }

  lemma SignedConverts(e: int, m: int)
    requires m > 0 && m % 2 == 0
    ensures -(m / 2) <= Signed(e, m) < m / 2 && (Signed(e, m) - e) % m == 0
    ensures 0 <= e % m < m && (e % m - e) % m == 0
  {
    var q := e / m;
    assert e == q * m + e % m;
    Multiple(-q, m);
    Multiple(-q - 1, m);
    assert -q * m == e % m - e && (-q - 1) * m == e % m - m - e;
  }

  lemma NarrowConverts(t: VarType, e: int)
    ensures Converts(t, e, Narrow(t, e))
  {
    hide Signed;
    SignedConverts(e, 0x100);
    SignedConverts(e, 0x1_0000);
    SignedConverts(e, 0x1_0000_0000);
  }

  /** There is at most one such conversion. */
  lemma ConvertsOnce(t: VarType, e: int, c: int, c': int)
    requires Converts(t, e, c) && Converts(t, e, c')
    ensures c == c'
  {
    Apart(c, c', e, 0x100);
    Apart(c, c', e, 0x1_0000);
    Apart(c, c', e, 0x1_0000_0000);
  }

  lemma Apart(c: int, c': int, e: int, m: int)
    requires m > 0
    ensures (c - e) % m == 0 && (c' - e) % m == 0 && -m < c - c' < m ==> c == c'
  {
    var d := (c - e) / m - (c' - e) / m;
    assert (c - e) % m == 0 && (c' - e) % m == 0 ==> c - c' == d * m;
    assert d <= -1 ==> d * m <= -1 * m;
    assert d >= 1 ==> d * m >= 1 * m;
  }

  lemma ReportConverts(d: Definition, e: int)
    requires !d.varType.String? && d.Supported()
    ensures ReportsNumber(d.varType, e, if d.varType.Bool? then Boolean(Narrow(d.varType, e) != 0)
                                  else Number(ValueInt(d, Narrow(d.varType, e))))
  {
    hide Signed;
    NarrowConverts(d.varType, e);
    if d.varType.UInt? || d.varType.UInt32T? {
      SignedAgain(e);
      NarrowConverts(Int32T, e);
    }
  }

  lemma SignedAgain(e: int)
    ensures Signed(e % 0x1_0000_0000, 0x1_0000_0000) == Signed(e, 0x1_0000_0000)
  {
  }

  lemma StoredConverts(d: Definition, cur: int, x: UInt32)
    requires d.WellTyped() && d.Supported() && !d.varType.String? && !d.Fails(x)
    ensures match d.table
            case None => Converts(d.varType, x, d.Stored(cur, x))
            case Some(t) => x < |t.ints| && Converts(d.varType, t.ints[x], d.Stored(cur, x))
  {
    hide Narrow;
    NarrowConverts(d.varType, d.Source(x));
  }

  /** The report after decoding is what a client must be told, and a raw value is an error exactly when
      there is nothing to tell. */
  lemma StoredIsTold(d: Definition, cur: int, x: UInt32)
    requires d.WellTyped() && d.Holds(cur)
    ensures d.Fails(x) <==> NothingToTell(d, x)
    ensures !d.Fails(x) ==> d.Holds(d.Stored(cur, x)) && Tells(d, x, ToJson(d, d.Stored(cur, x)))
  {
    hide Narrow, Signed, Converts;
    if !d.Fails(x) {
      NarrowHolds(d, cur, x);
      if !d.varType.String? && d.Supported() {
        ReportConverts(d, d.Source(x));
      }
      assert Tells(d, x, ToJson(d, d.Stored(cur, x)));
    }
  }

  /** What a cell holds is reported as it is; a string by its text, or as "null" before there is one. */
  lemma CellIsReported(d: Definition, cur: int)
    requires d.WellTyped() && d.Holds(cur)
    ensures if d.varType.String? then ToJson(d, cur) == Text(if cur == 0 then "null" else d.table.value.texts[cur - 1])
            else ReportsNumber(d.varType, cur, ToJson(d, cur))
  {
    if d.varType.UInt? || d.varType.UInt32T? {
      SignedConverts(cur, 0x1_0000_0000);
    }
  }

  /** It is told one thing. */
  lemma TellsOnce(d: Definition, x: nat, j: Json, k: Json)
    requires Tells(d, x, j) && Tells(d, x, k)
    ensures j == k
  {
    hide Converts;
    if j.Number? && k.Number? && d.varType != Int64 {
      var e := if d.table.Some? then d.table.value.ints[x] else x;
      ConvertsOnce(if d.varType.UInt? || d.varType.UInt32T? then Int32T else d.varType, e, j.n, k.n);
    }
  }

  /** Before anything has been decoded. */
  lemma UndecodedReport(d: Definition)
    requires d.WellTyped()
    ensures d.Holds(0)
    ensures ToJson(d, 0) ==
            match d.varType
            case String => Text("null")
            case Bool => Boolean(false)
            case Array => EmptyList
            case UInt64 => Null
            case Int64 => Number(-1)
            case _ => Number(0)
  {
  }
}
