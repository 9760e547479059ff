/** From parsed definition objects to signal definitions and records (src/can_json.c). */
module Loader {
  import opened Words
  import opened Codec
  import opened Values
  import opened Timing
  import opened Grouping
  import opened Thinning
  import opened CanInfo
  import opened CanidSearch
  import opened Subscriptions
  import opened Binding
  import Transmit
  import Zones

  /** An element of a SET-DATA array. */
  datatype Entry = JsonInt(n: Int32) | JsonString(s: string) | JsonOther

  /** One key of a property object with its parsed value.  `Type(None)` is an unknown type name, a null
      zone or name is `None`, and so is a SET-DATA value that is not an array. */
  datatype Field =
    | Pos(n: Int32) | Offs(n: Int32) | Len(n: Int32)
    | Property(name: Option<string>) | Zone(zones: Option<seq<string>>)
    | Type(varType: Option<VarType>) | SetData(entries: Option<seq<Entry>>)
    | Ignored(key: string)

  predicate SameKey(a: Field, b: Field) {
    || (a.Pos? && b.Pos?) || (a.Offs? && b.Offs?) || (a.Len? && b.Len?) || (a.Property? && b.Property?)
    || (a.Zone? && b.Zone?) || (a.Type? && b.Type?) || (a.SetData? && b.SetData?)
    || (a.Ignored? && b.Ignored? && a.key == b.key)
  }

  /** The keys of a JSON object are different. */
  ghost predicate IsObject(obj: seq<Field>) {
    forall i, j :: 0 <= i < j < |obj| ==> !SameKey(obj[i], obj[j])
  }

  predicate HasTable(t: VarType) {
    !t.Void? && !t.Int64? && !t.UInt64? && !t.Array?
  }

  /** The conversion table that a SET-DATA value gives for a type: entries all of the one JSON type
      the property type asks for, and at least one of them. */
  ghost function TableFor(entries: Option<seq<Entry>>, t: VarType): Option<Table> {
    if entries.None? || |entries.value| == 0 || !HasTable(t) then None
    else if t.String? then
      if forall i :: 0 <= i < |entries.value| ==> entries.value[i].JsonString?
      then Some(Strings(seq(|entries.value|, i requires 0 <= i < |entries.value| => entries.value[i].s)))
      else None
    else
      if forall i :: 0 <= i < |entries.value| ==> entries.value[i].JsonInt?
      then Some(Ints(seq(|entries.value|, i requires 0 <= i < |entries.value| => entries.value[i].n)))
      else None
  }

  /** create_convert_tables */
  method CreateConvertTables(obj: Option<seq<Entry>>, varType: VarType) returns (table: Option<Table>)
    ensures table == TableFor(obj, varType)
  {
    if obj.None? || !HasTable(varType) {
      return None;
    }
    var convlist := obj.value;
    var n := |convlist|;
    if n <= 0 {
      return None;
    }
    if varType.String? {
      var p := new string[n](_ => "");
      for i := 0 to n
        invariant forall k :: 0 <= k < i ==> convlist[k].JsonString? && p[k] == convlist[k].s
      {
        if !convlist[i].JsonString? {
          return None;
        }
        p[i] := convlist[i].s;
      }
      table := Some(Strings(p[..]));
      assert p[..] == seq(n, i requires 0 <= i < n => convlist[i].s);
    } else {
      var p := new Int32[n](_ => 0);
      for i := 0 to n
        invariant forall k :: 0 <= k < i ==> convlist[k].JsonInt? && p[k] == convlist[k].n
      {
        if !convlist[i].JsonInt? {
          return None;
        }
        p[i] := convlist[i].n;
      }
      table := Some(Ints(p[..]));
      assert p[..] == seq(n, i requires 0 <= i < n => convlist[i].n);
    }
  }

  /** A number read through an unsigned char; anything above the limit is replaced by 0. */
  function Limited(n: Int32, limit: nat): (r: nat) {
    if n % 0x100 > limit then 0 else n % 0x100
  }

  // ---------------------------------------------------------------------------------------
  // What one property object means
  // ---------------------------------------------------------------------------------------

  /** The local variables of add_propertyMember. */
  datatype Locals = Locals(layout: Layout, varType: VarType, name: Option<string>, zone: Option<string>,
                           dataconv: Option<Table>)

  const NO_KEYS := Locals(Layout(0, 0, 0), Void, None, None, None)

  /** Each field of the object on its own, wherever it stands; only the table depends on what stands
      before it. */
  ghost predicate Means(obj: seq<Field>, kind: Kind, v: Locals) {
    && (forall f :: f in obj ==>
          match f
          case Pos(n) => v.layout.bytePos == Limited(n, 8)
          case Offs(n) => v.layout.bitPos == Limited(n, 8)
          case Len(n) => v.layout.bitLen == Limited(n, 32)
          case Property(name) => v.name == name
          case Zone(zones) => v.zone == Zones.Suffix(zones)
          case Type(t) => v.varType == (if t.Some? then t.value else Void)
          case SetData(_) => true
          case Ignored(_) => true)
    && ((forall f :: f in obj ==> !f.Pos?) ==> v.layout.bytePos == 0)
    && ((forall f :: f in obj ==> !f.Offs?) ==> v.layout.bitPos == 0)
    && ((forall f :: f in obj ==> !f.Len?) ==> v.layout.bitLen == 0)
    && ((forall f :: f in obj ==> !f.Property?) ==> v.name == None)
    && ((forall f :: f in obj ==> !f.Zone?) ==> v.zone == None)
    && ((forall f :: f in obj ==> !f.Type?) ==> v.varType == Void)
    && (TypeThenData(obj) && kind != Send ==>
          forall f :: f in obj && f.SetData? ==> v.dataconv == TableFor(f.entries, v.varType))
    && (!TypeThenData(obj) || kind == Send ==> v.dataconv == None)
  }

  /** SET-DATA stands after TYPE. */
  ghost predicate TypeThenData(obj: seq<Field>) {
    exists i, j :: 0 <= i < j < |obj| && obj[i].Type? && obj[j].SetData?
  }

  /** What reading one more key does to the locals. */
  ghost function Reading(v: Locals, f: Field, kind: Kind): Locals {
    match f
    case Pos(n) => v.(layout := v.layout.(bytePos := Limited(n, 8)))
    case Offs(n) => v.(layout := v.layout.(bitPos := Limited(n, 8)))
    case Len(n) => v.(layout := v.layout.(bitLen := Limited(n, 32)))
    case Property(name) => v.(name := name)
    case Zone(zones) => v.(zone := Zones.Suffix(zones))
    case Type(t) => v.(varType := if t.Some? then t.value else Void)
    case SetData(entries) => if kind != Send then v.(dataconv := TableFor(entries, v.varType)) else v
    case Ignored(_) => v
  }

  /** One round of the loop over the keys. */
  method ReadField(f: Field, kind: Kind, v: Locals) returns (v': Locals)
    ensures v' == Reading(v, f, kind)
  {
    v' := v;
    match f {
      case Pos(n) =>
        v' := v.(layout := v.layout.(bytePos := Limited(n, 8)));
      case Offs(n) =>
        v' := v.(layout := v.layout.(bitPos := Limited(n, 8)));
      case Len(n) =>
        v' := v.(layout := v.layout.(bitLen := Limited(n, 32)));
      case Property(name) =>
        v' := v.(name := name);
      case Zone(zones) =>
        var zone := Zones.GetZoneName(zones);
        v' := v.(zone := zone);
      case Type(t) =>
        v' := v.(varType := if t.Some? then t.value else Void);
      case SetData(entries) =>
        if kind != Send {
          var dataconv := CreateConvertTables(entries, v.varType);
          v' := v.(dataconv := dataconv);
        }
      case Ignored(_) =>
    }
  }

  lemma ObjectPrefix(obj: seq<Field>, i: nat)
    requires IsObject(obj) && i < |obj|
    ensures forall f :: f in obj[..i] ==> !SameKey(f, obj[i])
    ensures obj[..i + 1] == obj[..i] + [obj[i]]
  {
  }

  lemma TypeThenDataNext(obj: seq<Field>, f: Field)
    ensures TypeThenData(obj + [f]) <==> TypeThenData(obj) || (f.SetData? && exists g :: g in obj && g.Type?)
  {
    var t := obj + [f];
    if TypeThenData(obj) {
      var i, j :| 0 <= i < j < |obj| && obj[i].Type? && obj[j].SetData?;
      assert t[i].Type? && t[j].SetData?;
    }
    if f.SetData? && exists g :: g in obj && g.Type? {
      var i :| 0 <= i < |obj| && obj[i].Type?;
      assert t[i].Type? && t[|obj|].SetData?;
    }
    if TypeThenData(t) {
      var i, j :| 0 <= i < j < |t| && t[i].Type? && t[j].SetData?;
      assert t[i] == obj[i];
      if j < |obj| {
        assert t[j] == obj[j];
      }
    }
  }

  lemma DataInside(obj: seq<Field>)
    requires TypeThenData(obj)
    ensures exists f :: f in obj && f.SetData?
    ensures exists f :: f in obj && f.Type?
  {
    var i, j :| 0 <= i < j < |obj| && obj[i].Type? && obj[j].SetData?;
    assert obj[i] in obj && obj[j] in obj;
  }

  /** Reading one more key of an object keeps the meaning of those read before. */
  lemma MeansNext(obj: seq<Field>, f: Field, kind: Kind, v: Locals)
    requires Means(obj, kind, v) && forall g :: g in obj ==> !SameKey(g, f)
    ensures Means(obj + [f], kind, Reading(v, f, kind))
  {
    hide Limited, TableFor, Zones.Suffix, TypeThenData;
    var obj' := obj + [f];
    TypeThenDataNext(obj, f);
    assert forall g :: g in obj' <==> g in obj || g == f;
    if TypeThenData(obj) {
      DataInside(obj);
    }
    if f.SetData? && !exists g :: g in obj && g.Type? {
      VoidHasNoTable(f.entries);
    }
  }

  lemma VoidHasNoTable(entries: Option<seq<Entry>>)
    ensures TableFor(entries, Void) == None
  {
  }

  /** The meaning of an object determines every local. */
  lemma MeansIsUnique(a: seq<Field>, b: seq<Field>, kind: Kind, v: Locals, w: Locals)
    requires Means(a, kind, v) && Means(b, kind, w) && forall f :: f in a <==> f in b
    ensures v.layout == w.layout && v.varType == w.varType && v.name == w.name && v.zone == w.zone
    ensures (TypeThenData(a) <==> TypeThenData(b)) ==> v == w
  {
    hide Limited, TableFor, Zones.Suffix, TypeThenData;
    assert v.layout.bytePos == w.layout.bytePos;
    assert v.layout.bitPos == w.layout.bitPos;
    assert v.layout.bitLen == w.layout.bitLen;
    assert v.varType == w.varType && v.name == w.name && v.zone == w.zone;
    if TypeThenData(a) && TypeThenData(b) {
      DataInside(a);
    }
  }

  /** The definition that add_propertyMember fills in from its locals. */
  ghost function DefinitionOf(v: Locals): Definition {
    Definition(Zones.FullName(if v.name.Some? then v.name.value else "Unknown", v.zone), v.layout, v.varType, v.dataconv)
  }

  /** The order of the keys matters in one way only: two orders of the same keys give the same
      definition unless a usable SET-DATA stands after TYPE in one and before it in the other. */
  lemma KeyOrderIrrelevantIff(a: seq<Field>, b: seq<Field>, kind: Kind, v: Locals, w: Locals, entries: Option<seq<Entry>>)
    requires IsObject(a) && IsObject(b) && (forall f :: f in a <==> f in b) && SetData(entries) in a
    requires Means(a, kind, v) && Means(b, kind, w)
    ensures DefinitionOf(v) == DefinitionOf(w) <==>
            ((TypeThenData(a) <==> TypeThenData(b)) || kind == Send || TableFor(entries, v.varType) == None)
  {
    hide Limited, TableFor, Zones.Suffix, TypeThenData;
    MeansIsUnique(a, b, kind, v, w);
    assert TypeThenData(a) && kind != Send ==> v.dataconv == TableFor(entries, v.varType);
    assert TypeThenData(b) && kind != Send ==> w.dataconv == TableFor(entries, w.varType);
  }

  /** Reading the keys of an object one after the other. */
  ghost function ReadingAll(obj: seq<Field>, kind: Kind): Locals {
    if obj == [] then NO_KEYS else Reading(ReadingAll(obj[..|obj| - 1], kind), obj[|obj| - 1], kind)
  }

  lemma {:induction false} MeansAll(obj: seq<Field>, kind: Kind)
    requires IsObject(obj)
    ensures Means(obj, kind, ReadingAll(obj, kind))
  {
    hide Means, Reading;
    if obj == [] {
      NothingMeans(kind);
    } else {
      var n := |obj| - 1;
      MeansAll(obj[..n], kind);
      ObjectPrefix(obj, n);
      MeansNext(obj[..n], obj[n], kind, ReadingAll(obj[..n], kind));
      assert obj[..n + 1] == obj;
    }
  }

  const EARLY_DATA: seq<Field> := [SetData(Some([JsonInt(0), JsonInt(7)])), Type(Some(UInt8)), Pos(8), Len(1)]
  const LATE_DATA: seq<Field> := [Type(Some(UInt8)), SetData(Some([JsonInt(0), JsonInt(7)])), Pos(8), Len(1)]

  /** The same four keys with and without their table. */
  lemma EarlyDataIsLost() returns (v: Locals, w: Locals)
    ensures IsObject(EARLY_DATA) && IsObject(LATE_DATA) && forall f :: f in EARLY_DATA <==> f in LATE_DATA
    ensures Means(EARLY_DATA, ReadOnly, v) && DefinitionOf(v).table == None
    ensures Means(LATE_DATA, ReadOnly, w) && DefinitionOf(w).table == Some(Ints([0, 7]))
    ensures DefinitionOf(v) == DefinitionOf(w).(table := None)
  {
    hide Means;
    v, w := ReadingAll(EARLY_DATA, ReadOnly), ReadingAll(LATE_DATA, ReadOnly);
    MeansAll(EARLY_DATA, ReadOnly);
    MeansAll(LATE_DATA, ReadOnly);
    EarlyReading();
    LateReading();
  }

  lemma EarlyReading()
    ensures ReadingAll(EARLY_DATA, ReadOnly) == Locals(Layout(8, 0, 1), UInt8, None, None, None)
  {
    var o := EARLY_DATA;
    assert o[..3][..2] == o[..2] && o[..2][..1] == o[..1] && o[..1][..0] == [];
    VoidHasNoTable(o[0].entries);
    assert ReadingAll(o[..1], ReadOnly) == NO_KEYS;
    assert ReadingAll(o[..2], ReadOnly) == NO_KEYS.(varType := UInt8);
    assert ReadingAll(o[..3], ReadOnly) == NO_KEYS.(varType := UInt8, layout := Layout(8, 0, 0));
  }

  lemma LateReading()
    ensures ReadingAll(LATE_DATA, ReadOnly) == Locals(Layout(8, 0, 1), UInt8, None, None, Some(Ints([0, 7])))
  {
    var o, t := LATE_DATA, Some(Ints([0, 7]));
    assert o[..3][..2] == o[..2] && o[..2][..1] == o[..1] && o[..1][..0] == [];
    var table := TableFor(o[1].entries, UInt8);
    assert table.value.ints == [0, 7];
    assert ReadingAll(o[..1], ReadOnly) == NO_KEYS.(varType := UInt8);
    assert ReadingAll(o[..2], ReadOnly) == NO_KEYS.(varType := UInt8, dataconv := t);
    assert ReadingAll(o[..3], ReadOnly) == NO_KEYS.(varType := UInt8, layout := Layout(8, 0, 0), dataconv := t);
  }

  /** Every definition has table entries of the C type through which the decoder reads them; the type
      decides alone whether it can have a table; the field is in the range of the layout. */
  lemma LoadedIsWellTyped(obj: seq<Field>, kind: Kind, v: Locals)
    requires Means(obj, kind, v)
    ensures var d := DefinitionOf(v);
            && d.WellTyped() && (d.table.Some? ==> HasTable(d.varType) && d.table.value.Size() > 0)
            && (kind == Send ==> d.table.None?)
            && d.layout.bytePos <= 8 && d.layout.bitPos <= 8 && d.layout.bitLen <= 32
  {
    if TypeThenData(obj) {
      DataInside(obj);
    }
    MeansIsLimited(obj, kind, v);
  }

  lemma MeansIsLimited(obj: seq<Field>, kind: Kind, v: Locals)
    requires Means(obj, kind, v)
    ensures v.layout.bytePos <= 8 && v.layout.bitPos <= 8 && v.layout.bitLen <= 32
  {
    hide TableFor, Zones.Suffix, TypeThenData;
    if f :| f in obj && f.Pos? {
      assert v.layout.bytePos == Limited(f.n, 8);
    }
    if f :| f in obj && f.Offs? {
      assert v.layout.bitPos == Limited(f.n, 8);
    }
    if f :| f in obj && f.Len? {
      assert v.layout.bitLen == Limited(f.n, 32);
    }
  }

  /** Which loaded layouts lie inside the frame: POS is needed, and counts the bytes the field may
      reach from the left. */
  lemma LayoutIsMeaningfulIff(obj: seq<Field>, kind: Kind, v: Locals)
    requires Means(obj, kind, v)
    ensures v.layout.Valid() <==>
            && (exists f :: f in obj && f.Pos? && 1 <= f.n % 0x100 <= 8)
            && v.layout.bitPos < 8 * v.layout.bytePos && v.layout.bitPos + v.layout.bitLen <= 8 * v.layout.bytePos
  {
    hide TableFor, Zones.Suffix, TypeThenData;
    MeansIsLimited(obj, kind, v);
    if f :| f in obj && f.Pos? {
      assert v.layout.bytePos == Limited(f.n, 8);
    }
  }

  /** add_propertyMember */
  method AddPropertyMember(canidInfo: CanidInfo, slot: CanBit, obj: seq<Field>, kind: Kind) returns (ghost v: Locals)
    requires IsObject(obj)
    modifies slot`def, slot`mycanid
    ensures Means(obj, kind, v)
    ensures slot.def == DefinitionOf(v) && slot.mycanid == canidInfo
  {
    hide Means, Reading;
    slot.mycanid := canidInfo;
    var vars := NO_KEYS;
    NothingMeans(kind);
    assert obj[..0] == [];
    for i := 0 to |obj|
      invariant Means(obj[..i], kind, vars) && slot.mycanid == canidInfo
    {
      ObjectPrefix(obj, i);
      MeansNext(obj[..i], obj[i], kind, vars);
      vars := ReadField(obj[i], kind, vars);
    }
    assert obj[..|obj|] == obj;
    v := vars;
    var name := if vars.name.Some? then vars.name.value else "Unknown";
    var fullName := if vars.zone.None? then name else name + "@" + vars.zone.value;
    slot.def := Definition(fullName, vars.layout, vars.varType, vars.dataconv);
  }

  lemma NothingMeans(kind: Kind)
    ensures Means([], kind, NO_KEYS)
  {
  }

  // ---------------------------------------------------------------------------------------
  // One CAN-ID
  // ---------------------------------------------------------------------------------------

  /** The definitions `defs` are what the objects mean. */
  ghost predicate Describes(objs: seq<seq<Field>>, kind: Kind, defs: seq<Definition>) {
    && |defs| == |objs|
    && forall i :: 0 <= i < |objs| ==> Describes1(objs[i], kind, defs[i])
  }

  ghost predicate Describes1(obj: seq<Field>, kind: Kind, d: Definition) {
    exists v :: Means(obj, kind, v) && d == DefinitionOf(v)
  }

  /** A property object that the rest of the program can work with: its field lies inside the frame,
      and its name is not the wildcard. */
  ghost predicate Usable(obj: seq<Field>, kind: Kind) {
    && IsObject(obj)
    && forall v {:trigger Means(obj, kind, v)} :: Means(obj, kind, v) ==> v.layout.Valid() && DefinitionOf(v).name != "*"
  }

  /** Zeroed slots. */
  method NewSlots(n: nat) returns (slots: seq<CanBit>)
    ensures |slots| == n && forall i :: 0 <= i < n ==> fresh(slots[i]) && Unused(slots[i])
    ensures forall i, j :: 0 <= i < j < n ==> slots[i] != slots[j]
  {
    slots := [];
    for i := 0 to n
      invariant |slots| == i && forall k :: 0 <= k < i ==> fresh(slots[k]) && Unused(slots[k])
      invariant forall k, j :: 0 <= k < j < i ==> slots[k] != slots[j]
    {
      var slot := new CanBit(Definition("", Layout(0, 0, 0), Void, None));
      slots := slots + [slot];
    }
  }

  ghost predicate Unused(p: CanBit)
    reads p`head, p`chain, p`next, p`applyinfo, p`curValue, p`updatetime
  {
    p.head == null && p.chain == [] && p.next == null && p.applyinfo == null && p.curValue == 0 && p.updatetime == EPOCH
  }

  lemma FilledIsBlank(slot: CanBit, obj: seq<Field>, kind: Kind, v: Locals)
    requires Unused(slot) && Usable(obj, kind) && Means(obj, kind, v) && slot.def == DefinitionOf(v)
    ensures Blank(slot) && Describes1(obj, kind, slot.def) && slot.def.name != "*"
  {
    LoadedIsWellTyped(obj, kind, v);
  }

  /** add_propertyMapping */
  method AddPropertyMapping(canidInfo: CanidInfo, arrayObj: seq<seq<Field>>, kind: Kind)
    returns (err: int, ghost defs: seq<Definition>)
    requires canidInfo.nData == 0 && |canidInfo.property| == |arrayObj| && canidInfo.DistinctSlots()
    requires forall i :: 0 <= i < |arrayObj| ==> Unused(canidInfo.property[i]) && Usable(arrayObj[i], kind)
    modifies canidInfo`nData, canidInfo.property`def, canidInfo.property`mycanid
    ensures err == (if arrayObj == [] then 1 else 0) && canidInfo.nData == |arrayObj|
    ensures Describes(arrayObj, kind, defs) && Pending(canidInfo, 0, defs) && "*" !in NamesOf(defs)
  {
    hide Means, Blank, Usable, Describes1, Unused, NamesOf;
    defs := [];
    if |arrayObj| < 1 {
      NoStar(defs);
      return 1, defs;
    }
    canidInfo.nData := |arrayObj|;
    for i := 0 to |arrayObj|
      invariant |defs| == i && canidInfo.nData == |arrayObj|
      invariant forall k :: 0 <= k < |arrayObj| ==> Unused(canidInfo.property[k])
      invariant forall k :: 0 <= k < i ==>
                  && Blank(canidInfo.property[k]) && canidInfo.property[k].mycanid == canidInfo
                  && canidInfo.property[k].def == defs[k] && Describes1(arrayObj[k], kind, defs[k]) && defs[k].name != "*"
    {
      UsableIsObject(arrayObj[i], kind);
      ghost var v := AddPropertyMember(canidInfo, canidInfo.property[i], arrayObj[i], kind);
      FilledIsBlank(canidInfo.property[i], arrayObj[i], kind, v);
      defs := defs + [canidInfo.property[i].def];
    }
    NoStar(defs);
    return 0, defs;
  }

  lemma UsableIsObject(obj: seq<Field>, kind: Kind)
    requires Usable(obj, kind)
    ensures IsObject(obj)
  {
  }

  lemma NoStar(defs: seq<Definition>)
    requires forall i :: 0 <= i < |defs| ==> defs[i].name != "*"
    ensures "*" !in NamesOf(defs)
  {
  }

  /** One CAN-ID object; `data` is `None` unless DATA is an array. */
  datatype CanidObject = CanidObject(thinOut: bool, cycle: Option<UInt32>, dlc: Byte, data: Option<seq<seq<Field>>>)

  /** CYCLE counts only when frames are thinned out on change, and 0 then stands for "never". */
  function CycleOf(obj: CanidObject): UInt32 {
    if !obj.thinOut || obj.cycle.None? then 0
    else if obj.cycle.value == 0 then 0xffff_ffff else obj.cycle.value
  }

  /** Build the record of parse_caninfo: zeroed slots filled from the property objects, an empty frame
      under the unmasked identifier. */
  method BuildRecord(dict: Dictionary, canid: UInt32, obj: CanidObject, kind: Kind)
    returns (err: int, canidInfo: CanidInfo, ghost defs: seq<Definition>)
    requires obj.data.Some? && forall i :: 0 <= i < |obj.data.value| ==> Usable(obj.data.value[i], kind)
    ensures fresh(canidInfo) && fresh(canidInfo.data) && forall i :: 0 <= i < |canidInfo.property| ==> fresh(canidInfo.property[i])
    ensures dict.Loaded(canidInfo, defs) && Describes(obj.data.value, kind, defs) && "*" !in NamesOf(defs)
    ensures canidInfo.canid == canid % 0x800 && canidInfo.kind == kind && canidInfo.cycle == CycleOf(obj)
    ensures canidInfo.data.Length == 8 && canidInfo.Frame() == CanFrame(canid, 8, EMPTY)
    ensures err == if obj.data.value == [] then 1 else 0
  {
    hide Usable, Unused, Pending, Describes, NamesOf;
    var slots := NewSlots(|obj.data.value|);
    var data := new Byte[8](_ => 0);
    MaskedStandard(canid);
    canidInfo := new CanidInfo(Masked(canid, CAN_SFF_MASK), obj.dlc, CycleOf(obj), kind, slots, data, canid, 8);
    err, defs := AddPropertyMapping(canidInfo, obj.data.value, kind);
    assert data[..] == EMPTY;
    MappingIsLong(obj.data.value, kind, defs);
  }

  lemma MappingIsLong(objs: seq<seq<Field>>, kind: Kind, defs: seq<Definition>)
    requires Describes(objs, kind, defs)
    ensures |defs| == |objs|
  {
  }

  twostate lemma Undisturbed(service: Service)
    requires old(service.Valid()) && forall n :: n in old(service.dict.properties) ==> n in service.dict.properties
    requires forall r :: r in old(service.dict.canids.Values) ==>
               service.dict.SameRecord(r) && r.data[..] == old(r.data[..]) && forall q :: q in old(r.nodes) ==> Same(q)
    ensures forall r :: r in old(service.dict.canids.Values) ==> service.OthersTraffic(r)
  {
    hide Dictionary.Valid;
    service.OthersTx({});
  }

  /** parse_caninfo */
  method ParseCaninfo(service: Service, canid: UInt32, obj: CanidObject, kind: Kind)
    returns (err: int, ghost info: CanidInfo?, ghost defs: seq<Definition>)
    requires service.Valid()
    requires obj.data.Some? ==> forall i :: 0 <= i < |obj.data.value| ==> Usable(obj.data.value[i], kind)
    modifies service.dict
    ensures service.Valid()
    ensures if obj.data.Some? && canid !in old(service.dict.canids) && canid % 0x800 !in old(service.dict.canids) then
              var g := Group(defs, old(service.dict.properties).Keys);
              && info != null && service.dict.canids == old(service.dict.canids)[canid % 0x800 := info]
              && Describes(obj.data.value, kind, defs)
              && info.canid == canid % 0x800 && info.kind == kind && info.cycle == CycleOf(obj)
              && info.data.Length == 8 && info.Frame() == CanFrame(canid, 8, EMPTY)
              && info.nData == |g| && Realises(info, g)
              && Indexes(service.dict.properties, old(service.dict.properties), info.property, g)
              && service.dict.support == Extend(old(service.dict.support), old(service.dict.properties).Keys, NamesOf(defs))
              && err == if obj.data.value == [] then 1 else 0
            else
              && err > 0 && info == null
              && service.dict.canids == old(service.dict.canids) && service.dict.properties == old(service.dict.properties)
    ensures info != null ==> fresh(info)
    ensures info == null ==> service.View() == old(service.View())
    ensures forall r :: r in old(service.dict.canids.Values) ==> service.OthersTraffic(r)
    ensures info != null ==>
              Next(old(service.View()), Command.Define(canid % 0x800, NamesOf(defs)), service.View())
  {
    hide Service.Valid, Service.OthersTraffic, Dictionary.Valid, Dictionary.Loaded, Usable, Unused, Group, Realises, Indexes, Pending, Next, Describes, NamesOf, Extend;
    err, info, defs := 0, null, [];
    var known := service.dict.GetCanid(canid);
    if known != null {
      Undisturbed(service);
      return 1, null, [];
    }
    if obj.data.None? {
      Undisturbed(service);
      return 1, null, [];
    }
    var canidInfo;
    err, canidInfo, defs := BuildRecord(service.dict, canid, obj, kind);
    var ret := service.DefineCanid(canidInfo, defs);
    if ret != 0 {
      Undisturbed(service);
      return err + 1, null, defs;
    }
    info := canidInfo;
    IndexGrows(service.dict.properties, old(service.dict.properties), info.property,
               Group(defs, old(service.dict.properties).Keys));
    Undisturbed(service);
  }

  // ---------------------------------------------------------------------------------------
  // A loaded CAN-ID as a transmitter
  // ---------------------------------------------------------------------------------------

  lemma {:induction false} KeptIsFrom(defs: seq<Definition>, foreign: set<string>, j: nat)
    requires j < |Kept(defs, foreign)|
    ensures Kept(defs, foreign)[j] in defs
  {
    var rest, d := defs[..|defs| - 1], defs[|defs| - 1];
    assert d in defs && forall e :: e in rest ==> e in defs;
    if j < |Kept(rest, foreign)| {
      KeptIsFrom(rest, foreign, j);
    }
  }

  lemma PrefixIsSound(defs: seq<Definition>)
    requires defs != [] && Transmit.Sound(defs)
    ensures Transmit.Sound(defs[..|defs| - 1])
    ensures forall e :: e in defs[..|defs| - 1] ==> Disjoint(e.layout, defs[|defs| - 1].layout)
  {
    var rest, ls := defs[..|defs| - 1], Transmit.LayoutsOf(defs);
    assert forall i :: 0 <= i < |rest| ==> Disjoint(ls[i], ls[|rest|]);
    assert forall i, j :: 0 <= i < j < |rest| ==> Disjoint(ls[i], ls[j]);
    assert forall i :: 0 <= i < |rest| ==> ls[i].Valid();
    assert forall i :: 0 <= i < |rest| ==> Transmit.LayoutsOf(rest)[i] == ls[i];
  }

  /** Squeezing out repeats leaves signals that do not overlap. */
  lemma {:induction false} KeptIsSound(defs: seq<Definition>, foreign: set<string>)
    requires Transmit.Sound(defs)
    ensures Transmit.Sound(Kept(defs, foreign))
  {
    hide Disjoint, Layout.Valid, Definition.WellTyped;
    if defs != [] {
      var rest, d := defs[..|defs| - 1], defs[|defs| - 1];
      PrefixIsSound(defs);
      KeptIsSound(rest, foreign);
      var kept := Kept(rest, foreign);
      forall j: nat | j < |kept|
        ensures Disjoint(kept[j].layout, d.layout)
      {
        KeptIsFrom(rest, foreign, j);
      }
      SoundNext(kept, d, defs);
    }
  }

  lemma SoundNext(kept: seq<Definition>, d: Definition, defs: seq<Definition>)
    requires Transmit.Sound(kept) && Transmit.Sound(defs) && d in defs
    requires forall j :: 0 <= j < |kept| ==> Disjoint(kept[j].layout, d.layout)
    ensures Transmit.Sound(kept + [d])
  {
    hide Disjoint;
    var i :| 0 <= i < |defs| && defs[i] == d;
    var more, ls := kept + [d], Transmit.LayoutsOf(kept);
    assert Transmit.LayoutsOf(defs)[i].Valid();
    assert forall k :: 0 <= k < |kept| ==> Transmit.LayoutsOf(more)[k] == ls[k];
    assert forall j, k :: 0 <= j < k < |kept| ==> Disjoint(ls[j], ls[k]);
  }

  /** A record that has just been loaded, whose live signals do not overlap, is where runs of `set` and
      timer steps start: from here on everything transmitted for it is a snapshot. */
  lemma LoadedTransmits(service: Service, info: CanidInfo, canid: UInt32, defs: seq<Definition>, foreign: set<string>)
    requires info.Ready() && info.data.Length == 8 && info.Frame() == CanFrame(canid, 8, EMPTY)
    requires Realises(info, Group(defs, foreign)) && info.nData == |Group(defs, foreign)|
    requires Transmit.Sound(Kept(defs, foreign))
    ensures service.TxOf(info).defs == Kept(defs, foreign)
    ensures Transmit.Initial(service.TxOf(info), canid)
  {
    hide Transmit.Sound, Untouched, CanidInfo.Ready;
    var g := Group(defs, foreign);
    GroupIsStable(defs, foreign);
    var heads := service.HeadDefs(info, info.nData);
    forall j: nat | j < |g|
      ensures heads[j] == Kept(defs, foreign)[j]
    {
      RealisesHead(info, g, j);
      assert g[j][0] == Kept(defs, foreign)[j];
    }
    assert heads == Kept(defs, foreign);
  }
}
