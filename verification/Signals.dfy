/** From the keys of a definition object and the bytes of a frame to what a client is told. */
module Signals {
  import opened Words
  import opened Codec
  import opened Values
  import opened Timing
  import opened Thinning
  import opened CanInfo
  import opened Loader
  import Runs
  import Zones

  // ---------------------------------------------------------------------------------------
  // What the keys say
  // ---------------------------------------------------------------------------------------

  /** The types for which SET-DATA lists numbers, and those for which it means nothing. */
  const NUMBERS: set<VarType> := {Int8, Int16, VarType.Int, Int32T, UInt8, UInt16, UInt, UInt32T, Bool, Enable1}
  const UNLISTED: set<VarType> := {Void, Int64, UInt64, VarType.Array}

  /** POS, OFFS and LEN are given and in range. */
  ghost predicate Places(obj: seq<Field>, pos: nat, offs: nat, len: nat) {
    1 <= pos <= 8 && offs <= 8 && len <= 32 && Pos(pos) in obj && Offs(offs) in obj && Len(len) in obj
  }

  /** SET-DATA stands after TYPE and lists these numbers. */
  ghost predicate ListsNumbers(obj: seq<Field>, s: seq<Int32>) {
    TypeThenData(obj) && s != [] && SetData(Some(seq(|s|, i requires 0 <= i < |s| => JsonInt(s[i])))) in obj
  }

  /** SET-DATA stands after TYPE and lists these texts. */
  ghost predicate ListsTexts(obj: seq<Field>, s: seq<string>) {
    TypeThenData(obj) && s != [] && SetData(Some(seq(|s|, i requires 0 <= i < |s| => JsonString(s[i])))) in obj
  }

  /** A number is read through an unsigned char, and stands for 0 above its limit. */
  lemma LoadedLayout(obj: seq<Field>, kind: Kind, d: Definition, pos: Int32, offs: Int32, len: Int32)
    requires Describes1(obj, kind, d) && Pos(pos) in obj && Offs(offs) in obj && Len(len) in obj
    ensures d.layout.bytePos == (if pos % 0x100 <= 8 then pos % 0x100 else 0)
    ensures d.layout.bitPos == (if offs % 0x100 <= 8 then offs % 0x100 else 0)
    ensures d.layout.bitLen == (if len % 0x100 <= 32 then len % 0x100 else 0)
  {
    hide TableFor, Zones.Suffix, TypeThenData;
    var v :| Means(obj, kind, v) && d == DefinitionOf(v);
    assert v.layout.bytePos == Limited(pos, 8);
    assert v.layout.bitPos == Limited(offs, 8);
    assert v.layout.bitLen == Limited(len, 32);
  }

  lemma LoadedField(obj: seq<Field>, kind: Kind, d: Definition, pos: nat, offs: nat, len: nat, t: VarType)
    requires Describes1(obj, kind, d) && Places(obj, pos, offs, len) && Type(Some(t)) in obj
    ensures d.layout == Layout(pos, offs, len) && d.varType == t
  {
    hide TableFor, Zones.Suffix, TypeThenData, Limited;
    var v :| Means(obj, kind, v) && d == DefinitionOf(v);
    LoadedLayout(obj, kind, d, pos, offs, len);
  }

  lemma LoadedNumbers(obj: seq<Field>, kind: Kind, d: Definition, t: VarType, s: seq<Int32>)
    requires Describes1(obj, kind, d) && Type(Some(t)) in obj && t in NUMBERS
    requires kind != Send && ListsNumbers(obj, s)
    ensures d.table == Some(Ints(s))
  {
    hide Limited, Zones.Suffix, TypeThenData;
    var entries := seq(|s|, i requires 0 <= i < |s| => JsonInt(s[i]));
    var v :| Means(obj, kind, v) && d == DefinitionOf(v);
    assert v.varType == t;
    assert v.dataconv == TableFor(Some(entries), t);
    assert v.dataconv.value.ints == s;
  }

  lemma LoadedTexts(obj: seq<Field>, kind: Kind, d: Definition, s: seq<string>)
    requires Describes1(obj, kind, d) && Type(Some(String)) in obj && kind != Send && ListsTexts(obj, s)
    ensures d.table == Some(Strings(s))
  {
    hide Limited, Zones.Suffix, TypeThenData;
    var entries := seq(|s|, i requires 0 <= i < |s| => JsonString(s[i]));
    var v :| Means(obj, kind, v) && d == DefinitionOf(v);
    assert v.varType == String;
    assert v.dataconv == TableFor(Some(entries), String);
    assert v.dataconv.value.texts == s;
  }

  /** SET-DATA counts only after TYPE, of a type that can be listed, and not in a block for sending. */
  ghost predicate Unlisted(obj: seq<Field>, kind: Kind, t: VarType) {
    kind == Send || !TypeThenData(obj) || t in UNLISTED
  }

  lemma LoadedWithoutTable(obj: seq<Field>, kind: Kind, d: Definition, t: VarType)
    requires Describes1(obj, kind, d) && Type(Some(t)) in obj && Unlisted(obj, kind, t)
    ensures d.table == None
  {
    hide Limited, Zones.Suffix, TypeThenData;
    var v :| Means(obj, kind, v) && d == DefinitionOf(v);
    assert v.varType == t;
    if TypeThenData(obj) {
      DataInside(obj);
    }
  }

  /** The name that clients subscribe to: a zone list adds its words after an '@'. */
  lemma LoadedName(obj: seq<Field>, kind: Kind, d: Definition, name: string, zones: seq<string>)
    requires Describes1(obj, kind, d) && Property(Some(name)) in obj && Zone(Some(zones)) in obj
    ensures d.name == if Zones.Spelled(zones, 0) == "" then name else name + "@" + Zones.Spelled(zones, 0)
  {
    hide Limited, Zones.Suffix, Zones.Spelled, TableFor, TypeThenData;
    var v :| Means(obj, kind, v) && d == DefinitionOf(v);
    assert v.name == Some(name);
    assert v.zone == Zones.Suffix(Some(zones));
    Zones.SuffixIsSpelled(zones);
  }

  // ---------------------------------------------------------------------------------------
  // What a frame then does
  // ---------------------------------------------------------------------------------------

  /** A plain property that object `obj` describes takes one step on a frame. */
  ghost predicate Hears(obj: seq<Field>, kind: Kind, c: Chain, data: Payload, t: TimeVal, cycle: UInt32, c': Chain, r: Decision) {
    && c.Valid() && c'.Valid() && |c.defs| == 1 && c'.defs == c.defs && Describes1(obj, kind, c.defs[0])
    && Step(c, CanValue2Host(data), t, cycle, c', r)
  }

  lemma HeardValue(obj: seq<Field>, kind: Kind, c: Chain, data: Payload, t: TimeVal, cycle: UInt32, c': Chain, r: Decision)
    requires Hears(obj, kind, c, data, t, cycle, c', r)
    ensures var d, x := c.defs[0], Raw(c.defs[0], CanValue2Host(data));
            && (r.Error? <==> d.Fails(x))
            && (!r.Error? ==> c'.values[0] == d.Stored(c.values[0], x) && c'.Report() == ToJson(d, c'.values[0]))
            && (!r.Error? && ElapsMs(c.updated, t) < cycle ==> (r.Push? <==> d.Updated(c.values[0], x)))
            && x == FieldAt(data, d.layout.bytePos, d.layout.bitPos, d.layout.bitLen)
  {
    hide CanValue2Host, Load, Definition.Fails, Definition.Stored, Definition.Updated, Definition.Holds, ElapsMs, ToJson, Describes1;
    FieldPosition(data, c.defs[0].layout);
  }

  /** A number or bool with SET-DATA: the number in the field of the frame is an error exactly when it is
      beyond the list; otherwise the property holds that entry, converted to its type, and reports it. */
  lemma ListedNumberIsTold(obj: seq<Field>, kind: Kind, pos: nat, offs: nat, len: nat, t: VarType, s: seq<Int32>,
                           c: Chain, data: Payload, time: TimeVal, cycle: UInt32, c': Chain, r: Decision)
    requires Places(obj, pos, offs, len) && Type(Some(t)) in obj && t in NUMBERS
    requires kind != Send && ListsNumbers(obj, s)
    requires Hears(obj, kind, c, data, time, cycle, c', r)
    ensures var x := FieldAt(data, pos, offs, len);
            && (r.Error? <==> x >= |s|)
            && (x < |s| ==> Converts(t, s[x], c'.values[0]) && ReportsNumber(t, s[x], c'.Report()))
  {
    hide Places, ListsNumbers, Describes1, Hears, FieldAt, CanValue2Host, Load, Definition.Stored, Definition.Holds, Converts, ToJson,
      Chain.Report;
    Heard(obj, kind, c, data, time, cycle, c', r);
    var d := c.defs[0];
    LoadedField(obj, kind, d, pos, offs, len, t);
    LoadedNumbers(obj, kind, d, t, s);
    HeardValue(obj, kind, c, data, time, cycle, c', r);
    if !r.Error? {
      var x := Raw(d, CanValue2Host(data));
      StoredConverts(d, c.values[0], x);
      StoredIsTold(d, c.values[0], x);
    }
  }

  /** The same without a list: the property holds and reports the number itself, and no frame is an error. */
  lemma PlainNumberIsTold(obj: seq<Field>, kind: Kind, pos: nat, offs: nat, len: nat, t: VarType,
                          c: Chain, data: Payload, time: TimeVal, cycle: UInt32, c': Chain, r: Decision)
    requires Places(obj, pos, offs, len) && Type(Some(t)) in obj && !t.String? && !t.Enable1?
    requires Unlisted(obj, kind, t)
    requires Hears(obj, kind, c, data, time, cycle, c', r)
    ensures var x := FieldAt(data, pos, offs, len);
            && !r.Error? && ReportsNumber(t, x, c'.Report())
            && (t.Void? || t in NUMBERS ==> Converts(t, x, c'.values[0]))
  {
    hide Places, Describes1, Hears, Unlisted, FieldAt, CanValue2Host, Load, Definition.Stored, Definition.Holds, Converts, ToJson, Chain.Report;
    Heard(obj, kind, c, data, time, cycle, c', r);
    var d := c.defs[0];
    LoadedField(obj, kind, d, pos, offs, len, t);
    LoadedWithoutTable(obj, kind, d, t);
    HeardValue(obj, kind, c, data, time, cycle, c', r);
    var x := Raw(d, CanValue2Host(data));
    if d.Supported() {
      StoredConverts(d, c.values[0], x);
    }
    StoredIsTold(d, c.values[0], x);
  }

  /** A string: the number in the field chooses the text, and is an error exactly when it is beyond the list. */
  lemma ListedTextIsTold(obj: seq<Field>, kind: Kind, pos: nat, offs: nat, len: nat, s: seq<string>,
                         c: Chain, data: Payload, time: TimeVal, cycle: UInt32, c': Chain, r: Decision)
    requires Places(obj, pos, offs, len) && Type(Some(String)) in obj && kind != Send && ListsTexts(obj, s)
    requires Hears(obj, kind, c, data, time, cycle, c', r)
    ensures var x := FieldAt(data, pos, offs, len);
            (r.Error? <==> x >= |s|) && (x < |s| ==> c'.Report() == Text(s[x]))
  {
    hide Places, ListsTexts, Describes1, Hears, FieldAt, CanValue2Host, Load, Definition.Stored, Definition.Holds, ToJson, Chain.Report;
    Heard(obj, kind, c, data, time, cycle, c', r);
    var d := c.defs[0];
    LoadedField(obj, kind, d, pos, offs, len, String);
    LoadedTexts(obj, kind, d, s);
    HeardValue(obj, kind, c, data, time, cycle, c', r);
    if !r.Error? {
      StoredIsTold(d, c.values[0], Raw(d, CanValue2Host(data)));
    }
  }

  /** Within the cycle such a number is pushed exactly when the value changed, or is one that the source's
      comparison takes for a change; entry 0 of an ENABLE-1 list is not pushed. */
  lemma ListedNumberIsPushed(obj: seq<Field>, kind: Kind, pos: nat, offs: nat, len: nat, t: VarType, s: seq<Int32>,
                             c: Chain, data: Payload, time: TimeVal, cycle: UInt32, c': Chain, r: Decision)
    requires Places(obj, pos, offs, len) && Type(Some(t)) in obj && t in NUMBERS
    requires kind != Send && ListsNumbers(obj, s)
    requires Hears(obj, kind, c, data, time, cycle, c', r) && FieldAt(data, pos, offs, len) < |s| && ElapsMs(c.updated, time) < cycle
    ensures var x, v, v' := FieldAt(data, pos, offs, len), c.values[0], c'.values[0];
            r.Push? <==>
            match t
            case Enable1 => v' != v && x != 0
            case UInt8 => v' != v || v' >= 0x80
            case UInt16 => v' != v || v' >= 0x8000
            case Bool => v' != v || s[x] < 0 || s[x] > 1
            case _ => v' != v
  {
    hide Places, ListsNumbers, Describes1, Hears, FieldAt, CanValue2Host, Load, Definition.Holds, Narrow, ToJson, Chain.Report, ElapsMs;
    Heard(obj, kind, c, data, time, cycle, c', r);
    var d := c.defs[0];
    LoadedField(obj, kind, d, pos, offs, len, t);
    LoadedNumbers(obj, kind, d, t, s);
    HeardValue(obj, kind, c, data, time, cycle, c', r);
  }

  lemma PlainNumberIsPushed(obj: seq<Field>, kind: Kind, pos: nat, offs: nat, len: nat, t: VarType,
                            c: Chain, data: Payload, time: TimeVal, cycle: UInt32, c': Chain, r: Decision)
    requires Places(obj, pos, offs, len) && Type(Some(t)) in obj && !t.String? && !t.Enable1?
    requires Unlisted(obj, kind, t)
    requires Hears(obj, kind, c, data, time, cycle, c', r) && ElapsMs(c.updated, time) < cycle
    ensures r.Push? <==> c'.values[0] != c.values[0] || (t.UInt8? && c'.values[0] >= 0x80)
  {
    hide Places, Describes1, Hears, Unlisted, FieldAt, CanValue2Host, Load, Definition.Holds, Narrow, ToJson, Chain.Report, ElapsMs;
    Heard(obj, kind, c, data, time, cycle, c', r);
    var d := c.defs[0];
    LoadedField(obj, kind, d, pos, offs, len, t);
    LoadedWithoutTable(obj, kind, d, t);
    HeardValue(obj, kind, c, data, time, cycle, c', r);
  }

  /** Within the cycle a text is pushed exactly when another entry is chosen than before and it does not
      read "NOTSET"; `before` is the number of the frame that chose the last one, if there was any. */
  lemma ListedTextIsPushed(obj: seq<Field>, kind: Kind, pos: nat, offs: nat, len: nat, s: seq<string>, before: Option<nat>,
                           c: Chain, data: Payload, time: TimeVal, cycle: UInt32, c': Chain, r: Decision)
    requires Places(obj, pos, offs, len) && Type(Some(String)) in obj && kind != Send && ListsTexts(obj, s)
    requires Hears(obj, kind, c, data, time, cycle, c', r) && FieldAt(data, pos, offs, len) < |s| && ElapsMs(c.updated, time) < cycle
    requires c.values[0] == if before.Some? then before.value + 1 else 0
    ensures var x := FieldAt(data, pos, offs, len);
            && c'.values[0] == x + 1
            && (r.Push? <==> before != Some(x) && s[x] != "NOTSET")
  {
    hide Places, ListsTexts, Describes1, Hears, FieldAt, CanValue2Host, Load, Definition.Holds, ToJson, Chain.Report, ElapsMs;
    Heard(obj, kind, c, data, time, cycle, c', r);
    var d := c.defs[0];
    LoadedField(obj, kind, d, pos, offs, len, String);
    LoadedTexts(obj, kind, d, s);
    HeardValue(obj, kind, c, data, time, cycle, c', r);
  }

  lemma Heard(obj: seq<Field>, kind: Kind, c: Chain, data: Payload, t: TimeVal, cycle: UInt32, c': Chain, r: Decision)
    requires Hears(obj, kind, c, data, t, cycle, c', r)
    ensures |c.defs| == |c.values| == |c'.values| == 1 && c'.Valid() && Describes1(obj, kind, c.defs[0])
    ensures c.defs[0].WellTyped() && c.defs[0].layout.Valid() && c.defs[0].Holds(c.values[0]) && c.defs[0].Holds(c'.values[0])
  {
  }

  /** Every object whose field lies inside the frame describes a property that hears every frame from the
      moment it is loaded. */
  lemma EveryObjectHears(obj: seq<Field>, kind: Kind, pos: nat, offs: nat, len: nat, data: Payload, t: TimeVal, cycle: UInt32)
    returns (c: Chain, c': Chain, r: Decision)
    requires IsObject(obj) && Places(obj, pos, offs, len) && offs < 8 * pos && offs + len <= 8 * pos
    ensures Hears(obj, kind, c, data, t, cycle, c', r) && Runs.Initial(c)
  {
    hide Means, Step, CanValue2Host, Definition.Holds, ReadingAll, TypeThenData;
    var v := ReadingAll(obj, kind);
    var d := DefinitionOf(v);
    MeansAll(obj, kind);
    LoadedLayout(obj, kind, d, pos, offs, len);
    LoadedIsWellTyped(obj, kind, v);
    c := Runs.Unread([d]);
    Runs.UnreadIsInitial([d]);
    c', r := Runs.StepExists(c, CanValue2Host(data), t, cycle);
  }

  const TENS: seq<Field> :=
    [Pos(8), Offs(0), Len(8), Type(Some(UInt8)), SetData(Some([JsonInt(10), JsonInt(20), JsonInt(30), JsonInt(40)]))]

  lemma LastByte(data: Payload)
    ensures FieldAt(data, 8, 0, 8) == data[7]
  {
    assert data[..8] == data;
    Pow2Values();
    ModUnique(BigEndian(data), data[7], BigEndian(data[..7]), 0x100);
  }

  lemma TensAreListed(s: seq<Int32>)
    requires s == [10, 20, 30, 40]
    ensures ListsNumbers(TENS, s)
  {
    var entries: seq<Entry> := seq(|s|, i requires 0 <= i < |s| => JsonInt(s[i]));
    assert entries == [JsonInt(10), JsonInt(20), JsonInt(30), JsonInt(40)];
    assert TENS[4] == SetData(Some(entries)) && TENS[3].Type?;
  }

  /** Concrete case: with the list 10, 20, 30, 40 a frame that ends in 1 makes the property report 20. */
  lemma TwentyIsTold(data: Payload, t: TimeVal, cycle: UInt32) returns (c: Chain, c': Chain, r: Decision)
    requires data[7] == 1
    ensures Hears(TENS, ReadOnly, c, data, t, cycle, c', r) && !r.Error? && c'.Report() == Number(20)
  {
    hide Hears, FieldAt, Chain.Report, ListsNumbers;
    var s: seq<Int32> := [10, 20, 30, 40];
    assert TENS[0] == Pos(8) && TENS[1] == Offs(0) && TENS[2] == Len(8) && TENS[3] == Type(Some(UInt8));
    TensAreListed(s);
    c, c', r := EveryObjectHears(TENS, ReadOnly, 8, 0, 8, data, t, cycle);
    ListedNumberIsTold(TENS, ReadOnly, 8, 0, 8, UInt8, s, c, data, t, cycle, c', r);
    LastByte(data);
  }

  // ---------------------------------------------------------------------------------------
  // What MODE and CYCLE mean
  // ---------------------------------------------------------------------------------------

  /** The frame is reported as a change: of the value of a plain property; otherwise it has an active
      member, and another one than before is elected or its value differs. */
  ghost predicate Explained(c: Chain, w: Word, c': Chain)
    requires c.Valid() && c'.Valid() && c'.defs == c.defs && ErrorFree(c.defs, w)
  {
    if |c.defs| == 1 then c.defs[0].Updated(c.values[0], Raw(c.defs[0], w)) else Runs.AnyActive(c.defs, w) && Runs.Changed(c, c')
  }

  /** Without thinning or without CYCLE every frame is pushed; with CYCLE a change is, and what is no change
      exactly when that many milliseconds have passed; with CYCLE 0 only after 2^32 - 1 of them. */
  lemma CycleDecides(obj: CanidObject, c: Chain, w: Word, t: TimeVal, c': Chain, r: Decision)
    requires c.Valid() && c'.Valid() && c'.defs == c.defs && ErrorFree(c.defs, w) && Step(c, w, t, CycleOf(obj), c', r)
    ensures r.Push? <==>
            || Explained(c, w, c')
            || !obj.thinOut
            || match obj.cycle
               case None => true
               case Some(k) => if k == 0 then ElapsMs(c.updated, t) == 0xffff_ffff else ElapsMs(c.updated, t) >= k
  {
    hide Definition.Stored, Definition.Updated, Definition.Holds, Raw, ElapsMs, Fresh, Active, FailsOn;
    if 1 < |c.defs| {
      var m :| MultiStep(c, w, t, CycleOf(obj), m, c', r);
      assert m.Some? <==> Runs.AnyActive(c.defs, w);
    }
  }

  /** With CYCLE 0 no run pushes anything but changes, as long as each frame comes less than 2^32 - 1 ms after
      the latest push. */
  lemma CycleZeroPushesChanges(obj: CanidObject, cs: seq<Chain>, ds: seq<Decision>, fs: seq<Runs.Frame>, n: nat)
    requires obj.thinOut && obj.cycle == Some(0) && Runs.Run(cs, ds, fs, CycleOf(obj)) && n < |fs|
    requires var last := match Runs.LastPush(ds, n) case None => cs[0].updated case Some(p) => fs[p].time;
             0 <= Ms(fs[n].time) - Ms(last) < 0xffff_ffff
    requires ErrorFree(cs[0].defs, fs[n].word)
    ensures ds[n].Push? <==> Explained(cs[n], fs[n].word, cs[n + 1])
  {
    hide Step, Explained, ElapsMs, Ms;
    Runs.UpdateTimeIsLastPush(cs, ds, fs, CycleOf(obj), n);
    ElapsWithinOneMs(cs[n].updated, fs[n].time);
    CycleDecides(obj, cs[n], fs[n].word, fs[n].time, cs[n + 1], ds[n]);
  }
}
