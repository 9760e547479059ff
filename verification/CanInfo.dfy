/** The records of src/canid_info.h and the operations that change them in place
    (src/canid_info.c, and `update_iviproperty` of src/can_signal_event.c up to the notification). */
module CanInfo {
  import opened Words
  import opened Codec
  import opened Values
  import opened Timing
  import opened Thinning

  datatype Kind = ReadOnly | Send

  datatype UpdateStat = UpError | NotUpdated | Updated

  /** struct can_frame. */
  datatype CanFrame = CanFrame(canId: UInt32, dlc: Byte, data: Payload)

  /** host2canvalue, into the frame's bytes. */
  method StorePayload(v: Word, outdata: array<Byte>)
    requires outdata.Length == 8
    modifies outdata
    ensures outdata[..] == Host2CanValue(v)
  {
    outdata[7] := ByteOf(v, 0);
    outdata[6] := ByteOf(v, 1);
    outdata[5] := ByteOf(v, 2);
    outdata[4] := ByteOf(v, 3);
    outdata[3] := ByteOf(v, 4);
    outdata[2] := ByteOf(v, 5);
    outdata[1] := ByteOf(v, 6);
    outdata[0] := ByteOf(v, 7);
  }

  ghost function DefsOf(nodes: seq<CanBit>): (s: seq<Definition>)
    reads nodes`def
    ensures |s| == |nodes| && forall a :: 0 <= a < |s| ==> s[a] == nodes[a].def
  {
    if nodes == [] then [] else DefsOf(nodes[..|nodes| - 1]) + [nodes[|nodes| - 1].def]
  }

  ghost function ValuesOf(nodes: seq<CanBit>): (s: seq<int>)
    reads nodes`curValue
    ensures |s| == |nodes| && forall a :: 0 <= a < |s| ==> s[a] == nodes[a].curValue
  {
    if nodes == [] then [] else ValuesOf(nodes[..|nodes| - 1]) + [nodes[|nodes| - 1].curValue]
  }

  /** struct can_bit_t: one bit field, chained to the next one of the same name. */
  class CanBit {
    var def: Definition
    var mycanid: CanidInfo?
    var next: CanBit?
    var applyinfo: CanBit?
    var updatetime: TimeVal
    var curValue: int

    /** The chain this member belongs to and its place in it. */
    ghost var head: CanBit?
    ghost var pos: nat
    /** For a head: all members, in order. */
    ghost var chain: seq<CanBit>

    constructor (def: Definition)
      ensures this.def == def && mycanid == null && next == null && applyinfo == null
      ensures updatetime == EPOCH && curValue == 0
      ensures head == null && chain == []
    {
      this.def, mycanid, next, applyinfo := def, null, null, null;
      updatetime, curValue := EPOCH, 0;
      head, pos, chain := null, 0, [];
    }

    ghost predicate Sound()
      reads this
    {
      def.WellTyped() && def.layout.Valid() && def.Holds(curValue)
    }

    /** The links of a chain that starts here: no value is involved. */
    ghost predicate Linked()
      reads this`chain, this`mycanid, chain`head, chain`pos, chain`mycanid, chain`next
    {
      && |chain| > 0 && chain[0] == this && mycanid != null
      && (forall a :: 0 <= a < |chain| ==> chain[a].head == this && chain[a].pos == a && chain[a].mycanid == mycanid)
      && (forall a {:trigger chain[a].PointsOn(this, a)} :: 0 <= a < |chain| ==> chain[a].PointsOn(this, a))
    }

    /** As member `a` of the chain of `h`, this points to the next member. */
    ghost predicate PointsOn(h: CanBit, a: int)
      reads this`next, h`chain
    {
      0 <= a < |h.chain| && next == if a + 1 < |h.chain| then h.chain[a + 1] else null
    }

    /** Only a multi-property elects a member, and only its head points to it. */
    ghost predicate Elects()
      reads this`chain, chain`applyinfo, this`applyinfo
    {
      && (applyinfo != null ==> 1 < |chain| && applyinfo in chain)
      && forall a :: 0 < a < |chain| ==> chain[a].applyinfo == null
    }

    /** This is the head of a well-formed chain. */
    ghost predicate Chained()
      reads this, chain
    {
      Linked() && Elects() && forall a :: 0 <= a < |chain| ==> chain[a].Sound()
    }

    ghost function Defs(): (s: seq<Definition>)
      reads this`chain, chain`def
      ensures |s| == |chain| && forall a :: 0 <= a < |s| ==> s[a] == chain[a].def
    {
      DefsOf(chain)
    }

    ghost function CurValues(): (s: seq<int>)
      reads this`chain, chain`curValue
      ensures |s| == |chain| && forall a :: 0 <= a < |s| ==> s[a] == chain[a].curValue
    {
      ValuesOf(chain)
    }

    /** The chain as a value. */
    ghost function State(): (c: Chain)
      requires Chained()
      reads this, chain
      ensures c.Valid()
    {
      assert forall a :: 0 <= a < |chain| ==> chain[a].Sound() && chain[a].pos == a;
      assert forall a :: 0 <= a < |chain| ==> Defs()[a].WellTyped() && Defs()[a].layout.Valid();
      assert forall a :: 0 <= a < |chain| ==> Defs()[a].Holds(CurValues()[a]);
      assert applyinfo != null ==> applyinfo.pos < |chain|;
      Chain(Defs(), CurValues(), if applyinfo == null then None else Some(applyinfo.pos), updatetime)
    }

    /** _updatePropertyValue */
    method UpdatePropertyValue(x: UInt32) returns (update: UpdateStat)
      requires def.WellTyped() && def.Holds(curValue)
      modifies this`curValue
      ensures def.Holds(curValue)
      ensures def.Fails(x) ==> update == UpError && curValue == old(curValue)
      ensures !def.Fails(x) ==> curValue == def.Stored(old(curValue), x)
      ensures !def.Fails(x) ==> update == if def.Updated(old(curValue), x) then Updated else NotUpdated
      ensures update == UpError <==> NothingToTell(def, x)
      ensures update != UpError ==> Tells(def, x, ToJson(def, curValue))
    {
      hide Narrow, Definition.Holds, Tells, NothingToTell, ToJson;
      StoredIsTold(def, curValue, x);
      update := NotUpdated;
      var isDataConvert := def.table.Some?;
      if isDataConvert && def.table.value.Size() <= x {
        return UpError;
      }
      var t := def.varType;
      if t.String? {
        if isDataConvert {
          if curValue != x + 1 {
            curValue := x + 1;
            if def.table.value.texts[x] != "NOTSET" {
              update := Updated;
            }
          }
        } else {
          update := UpError;
        }
      } else if t.Enable1? {
        if isDataConvert {
          NarrowInt32(t, def.table.value.ints[x]);
          if curValue != def.table.value.ints[x] {
            curValue := def.table.value.ints[x];
            if x != 0 {
              update := Updated;
            }
          }
        } else {
          update := UpError;
        }
      } else if def.Supported() {
        update := UpdateInteger(if isDataConvert then def.table.value.ints[x] else x);
      }
    }

    /** The integer and bool cases of the switch; `e` is the raw value or the table entry. */
    method UpdateInteger(e: int) returns (update: UpdateStat)
      requires def.Supported() && !def.varType.String? && !def.varType.Enable1? && def.Holds(curValue)
      requires -0x8000_0000 <= e < 0x1_0000_0000 && (def.table.Some? ==> e < 0x8000_0000)
      modifies this`curValue
      ensures curValue == Narrow(def.varType, e) && def.Holds(curValue)
      ensures update == Updated <==>
                || curValue != old(curValue)
                || (def.varType.UInt8? && curValue >= 0x80)
                || (def.varType.UInt16? && def.table.Some? && curValue >= 0x8000)
                || (def.varType.Bool? && def.table.Some? && e != 0 && e != 1)
      ensures update != UpError
    {
      update := NotUpdated;
      var t := def.varType;
      if t.Int8? {
        if curValue != Signed(e, 0x100) {
          curValue, update := Signed(e, 0x100), Updated;
        }
      } else if t.Int16? {
        if curValue != Signed(e, 0x1_0000) {
          curValue, update := Signed(e, 0x1_0000), Updated;
        }
      } else if t.UInt8? {
        // compared as signed
        if curValue != Signed(e, 0x100) {
          curValue, update := e % 0x100, Updated;
        }
      } else if t.UInt16? {
        // compared as signed when it comes from a table
        if curValue != (if def.table.Some? then Signed(e, 0x1_0000) else e % 0x1_0000) {
          curValue, update := e % 0x1_0000, Updated;
        }
      } else if t.UInt? || t.UInt32T? {
        if curValue != e % 0x1_0000_0000 {
          curValue, update := e % 0x1_0000_0000, Updated;
        }
      } else if t.Bool? {
        // a table entry is compared as it stands
        if curValue != (if def.table.Some? || e == 0 then e else 1) {
          curValue, update := if e != 0 then 1 else 0, Updated;
        }
      } else {
        if curValue != Signed(e, 0x1_0000_0000) {
          curValue, update := Signed(e, 0x1_0000_0000), Updated;
        }
      }
    }

    /** canframe2property */
    method CanFrame2Property(canV64: Word) returns (update: UpdateStat)
      requires Sound()
      modifies this`curValue
      ensures Sound()
      ensures FailsOn(def, canV64) ==> update == UpError && curValue == old(curValue)
      ensures !FailsOn(def, canV64) ==> curValue == def.Stored(old(curValue), Raw(def, canV64))
      ensures !FailsOn(def, canV64) ==>
                update == if def.Updated(old(curValue), Raw(def, canV64)) then Updated else NotUpdated
      ensures TellsFrame(def, canV64, if update == UpError then None else Some(ToJson(def, curValue)))
    {
      hide CanValue2Host, Tells, ToJson, Definition.Holds, Definition.Fails, Definition.Stored, Definition.Updated;
      forall data: Payload | canV64 == CanValue2Host(data) {
        FieldPosition(data, def.layout);
      }
      var shift := (8 - def.layout.bytePos) * 8 + def.layout.bitPos;
      var v := And(Shr(canV64, shift), Mask(def.layout.bitLen));
      var x := Load(canV64, def.layout);
      assert x == Val(v[..32]);
      update := UpdatePropertyValue(x);
    }

    /** property2canframe: store the value and rewrite this signal's field of the record's frame. */
    method Property2CanFrame(value: UInt32, data: array<Byte>) returns (update: UpdateStat)
      requires Sound() && data.Length == 8
      modifies this`curValue, data
      ensures Sound()
      ensures def.Fails(value) ==> update == UpError && curValue == old(curValue) && data[..] == old(data[..])
      ensures update == UpError <==> NothingToTell(def, value)
      ensures !def.Fails(value) ==>
                && update == (if def.Updated(old(curValue), value) then Updated else NotUpdated)
                && curValue == def.Stored(old(curValue), value)
                && data[..] == Host2CanValue(Store(CanValue2Host(old(data[..])), def.layout, value))
                && Replaced(old(data[..]), data[..], def.layout, value)
                && Tells(def, value, ToJson(def, curValue))
    {
      hide Definition.Stored, Definition.Updated, Definition.Holds, Definition.Fails, CanValue2Host, Host2CanValue, Replaced, Tells, NothingToTell, ToJson;
      WriteReplaces(data[..], def.layout, value);
      var bitShift := (8 - def.layout.bytePos) * 8 + def.layout.bitPos;
      var canMask64 := Mask(def.layout.bitLen);
      update := UpdatePropertyValue(value);
      if update == UpError {
        return;
      }
      var canV64 := Shl(And(Bits(value, 64), canMask64), bitShift);
      var canCurvalue := CanValue2Host(data[..]);
      canCurvalue := And(canCurvalue, Not(Shl(canMask64, bitShift)));
      canCurvalue := Or(canCurvalue, canV64);
      StorePayload(canCurvalue, data);
    }

    /** Zero the current value of every member. */
    method ResetMembers()
      requires Chained()
      modifies chain`curValue
      ensures Chained()
      ensures forall i :: 0 <= i < |chain| ==> chain[i].curValue == 0
    {
      hide Definition.Holds, Definition.WellTyped, Layout.Valid;
      var n: CanBit? := this;
      ghost var a := 0;
      while n != null
        invariant 0 <= a <= |chain| && n == (if a < |chain| then chain[a] else null)
        invariant forall i :: 0 <= i < |chain| ==> chain[i].Sound()
        invariant forall i :: 0 <= i < a ==> chain[i].curValue == 0
        decreases |chain| - a
      {
        assert chain[a].PointsOn(this, a);
        ZeroHolds(n.def);
        n.curValue := 0;
        n, a := n.next, a + 1;
      }
    }

    /** The members have definitions `defs` and current values `vs`. */
    ghost predicate Shows(defs: seq<Definition>, vs: seq<int>)
      reads this`chain, chain`def, chain`curValue
    {
      |defs| == |vs| == |chain| && forall i :: 0 <= i < |chain| ==> chain[i].def == defs[i] && chain[i].curValue == vs[i]
    }

    /** One member's decoding result in the loop of update_iviproperty: a plain property also counts
        the cycle and is stamped at once. */
    method CountUpdate(ret: UpdateStat, isMultiProperty: bool, elaps: UInt32, cycle: UInt32, update: nat)
      returns (update': nat, stamp: bool)
      requires ret != UpError
      ensures stamp <==> !isMultiProperty && (ret == Updated || elaps >= cycle)
      ensures update' == if ret == Updated || stamp then update + 1 else update
    {
      update', stamp := update, false;
      match ret {
        case Updated =>
          update' := update' + 1;
          if !isMultiProperty {
            stamp := true;
          }
        case NotUpdated =>
          if !isMultiProperty && elaps >= cycle {
            update' := update' + 1;
            stamp := true;
          }
      }
    }

    /** What the loop over the members knows after `a` of them. */
    ghost predicate Scanned(defs: seq<Definition>, pre: seq<int>, w: Word, a: nat, vs: seq<int>, m: Option<nat>, mark: CanBit?)
      reads this`chain, chain`def, chain`curValue
    {
      && Decodable(defs) && Shows(defs, vs) && Progress(defs, pre, w, a, vs, m)
      && (forall i :: 0 <= i < |defs| ==> defs[i].Holds(vs[i]))
      && if m.None? then mark == null else m.value < |chain| && mark == chain[m.value]
    }

    /** The body of the loop, for member `p`. */
    method DecodeMember(p: CanBit, canV64: Word, timestamp: TimeVal, isMultiProperty: bool, elaps: UInt32,
                        mark: CanBit?, update: nat,
                        ghost defs: seq<Definition>, ghost pre: seq<int>, ghost a: nat, ghost vs: seq<int>, ghost m: Option<nat>)
      returns (ret: UpdateStat, mark': CanBit?, update': nat, stamp: bool, ghost vs': seq<int>, ghost m': Option<nat>)
      requires Linked() && a < |chain| && p == chain[a] && Scanned(defs, pre, canV64, a, vs, m, mark)
      modifies p`curValue, p`updatetime
      ensures ret == UpError ==> FailsOn(defs[a], canV64) && vs' == vs && m' == m && mark' == mark && update' == update && !stamp
      ensures Scanned(defs, pre, canV64, if ret == UpError then a else a + 1, vs', m', mark')
      ensures ret != UpError ==> mark' == if ret == Updated then p else mark
      ensures ret != UpError ==> (stamp <==> !isMultiProperty && (ret == Updated || elaps >= mycanid.cycle))
      ensures ret != UpError ==> update' == if ret == Updated || stamp then update + 1 else update
      ensures p.updatetime == if stamp then timestamp else old(p.updatetime)
    {
      hide Definition.Holds, Definition.WellTyped, Layout.Valid, Definition.Stored, Definition.Updated, Definition.Fails, Raw, FailsOn, Progress, Linked, TellsFrame, ToJson;
      mark', update', stamp, m' := mark, update, false, m;
      Distinct();
      ProgressPending(defs, pre, canV64, a, vs, m);
      ret := p.CanFrame2Property(canV64);
      vs' := vs[a := p.curValue];
      assert Shows(defs, vs');
      if ret != UpError {
        ProgressAdvances(defs, pre, canV64, a, vs, m);
        if ret == Updated {
          mark', m' := p, Some(a);
        }
        assert Progress(defs, pre, canV64, a + 1, vs', m');
        update', stamp := CountUpdate(ret, isMultiProperty, elaps, mycanid.cycle, update);
        if stamp {
          p.updatetime := timestamp;
        }
      }
    }

    /** The loop of update_iviproperty over the members: decode each one, remember the last active
        one (`m`), and stop at the first error (`failed`). */
    method DecodeMembers(canV64: Word, timestamp: TimeVal, isMultiProperty: bool, elaps: UInt32)
      returns (err: bool, update: nat, mark: CanBit?, ghost failed: nat, ghost m: Option<nat>)
      requires Chained() && (isMultiProperty <==> 1 < |chain|)
      modifies chain`curValue, chain`updatetime
      ensures Chained() && Defs() == old(Defs())
      ensures failed <= |chain| && (err <==> failed < |chain|)
      ensures Progress(Defs(), old(CurValues()), canV64, failed, CurValues(), m)
      ensures err ==> FailsOn(Defs()[failed], canV64)
      ensures if m.None? then mark == null else m.value < |chain| && mark == chain[m.value]
      ensures err || isMultiProperty ==> mark == null ==> update == 0
      ensures err || isMultiProperty ==> forall p :: p in chain ==> p.updatetime == old(p.updatetime)
      ensures !err && !isMultiProperty ==>
                && (update > 0 <==> mark != null || elaps >= mycanid.cycle)
                && updatetime == if update > 0 then timestamp else old(updatetime)
    {
      hide Progress, Elects, Linked, Chained, Defs, CurValues, DefsOf, ValuesOf, Decodable, FailsOn, Scanned;
      ghost var defs, pre := Defs(), CurValues();
      ghost var vs := pre;
      err, update, mark, failed, m := false, 0, null, 0, None;
      ChainFacts();
      ScanStarts(canV64);
      var p: CanBit? := this;
      while p != null
        invariant failed <= |chain| && p == (if failed < |chain| then chain[failed] else null)
        invariant Scanned(defs, pre, canV64, failed, vs, m, mark)
        invariant failed == 0 ==> mark == null && update == 0
        invariant failed == 0 || isMultiProperty ==> mark == null ==> update == 0
        invariant failed == 0 || isMultiProperty ==> forall q :: q in chain ==> q.updatetime == old(q.updatetime)
        invariant failed > 0 && !isMultiProperty ==>
                    && (update > 0 <==> mark != null || elaps >= mycanid.cycle)
                    && updatetime == if update > 0 then timestamp else old(updatetime)
        decreases |chain| - failed
      {
        NextMember(failed);
        var ret, stamp;
        ret, mark, update, stamp, vs, m :=
          DecodeMember(p, canV64, timestamp, isMultiProperty, elaps, mark, update, defs, pre, failed, vs, m);
        if ret == UpError {
          err := true;
          ScanEnds(defs, pre, canV64, failed, vs, m, mark);
          return;
        }
        p, failed := p.next, failed + 1;
      }
      ScanEnds(defs, pre, canV64, failed, vs, m, mark);
    }

    /** The tail of update_iviproperty for a multi-property: elect `mark`, or cancel the update when
        the same member shows the same value within the cycle. */
    method ElectMember(mark: CanBit?, preApValue: int, elaps: UInt32, timestamp: TimeVal, decoded: nat)
      returns (update: nat)
      requires Chained() && 1 < |chain| && (mark != null ==> mark in chain)
      requires mark == null ==> decoded == 0
      modifies chain`updatetime, this`applyinfo
      ensures Chained()
      ensures applyinfo == if mark == null then old(applyinfo) else mark
      ensures update > 0 <==>
                || elaps >= mycanid.cycle
                || (mark != null && (old(applyinfo) != mark || mark.curValue != preApValue))
      ensures updatetime == if update > 0 then timestamp else old(updatetime)
      ensures forall p :: p in chain && p != this ==>
                p.updatetime == if applyinfo == p && old(applyinfo) != p then timestamp else old(p.updatetime)
    {
      hide Definition.Holds, Definition.WellTyped, Layout.Valid;
      update := decoded;
      if mark == null {
        if elaps >= mycanid.cycle {
          update := update + 1;
          updatetime := timestamp;
        }
      } else if applyinfo != mark {
        applyinfo := mark;
        update := update + 1;
        updatetime := timestamp;
        mark.updatetime := timestamp;
      } else if mark.curValue != preApValue || elaps >= mycanid.cycle {
        update := update + 1;
        updatetime := timestamp;
      } else {
        update := 0;
      }
    }

    lemma ScanStarts(w: Word)
      requires Chained()
      ensures Linked() && Elects() && Scanned(Defs(), CurValues(), w, 0, CurValues(), None, null)
    {
      assert forall i :: 0 <= i < |chain| ==> chain[i].Sound();
      ProgressStarts(Defs(), CurValues(), w);
    }

    lemma ScanEnds(defs: seq<Definition>, pre: seq<int>, w: Word, a: nat, vs: seq<int>, m: Option<nat>, mark: CanBit?)
      requires Linked() && Elects() && Scanned(defs, pre, w, a, vs, m, mark)
      ensures Chained() && Defs() == defs && CurValues() == vs && Decodable(defs) && Progress(defs, pre, w, a, vs, m)
      ensures if m.None? then mark == null else m.value < |chain| && mark == chain[m.value]
    {
      hide Progress;
    }

    lemma Distinct()
      requires Linked()
      ensures mycanid != null
      ensures forall i, j :: 0 <= i < j < |chain| ==> chain[i] != chain[j]
    {
      assert forall i :: 0 <= i < |chain| ==> chain[i].pos == i;
    }

    lemma NextMember(a: nat)
      requires Linked() && a < |chain|
      ensures chain[a].next == if a + 1 < |chain| then chain[a + 1] else null
    {
      assert chain[a].PointsOn(this, a);
    }

    lemma NextMeansMany()
      requires Chained()
      ensures next != null <==> 1 < |chain|
    {
      assert PointsOn(this, 0);
    }

    lemma ChainFacts()
      requires Chained()
      ensures mycanid != null && |chain| > 0 && chain[0] == this && forall a :: 0 <= a < |chain| ==> chain[a].pos == a
      ensures applyinfo != null ==> applyinfo.pos < |chain| && chain[applyinfo.pos] == applyinfo
    {
    }

    /** `c` is this chain as it was before its members were reset and decoded. */
    ghost predicate DecodedFrom(c: Chain, w: Word, m: Option<nat>, mark: CanBit?, preApValue: int)
      reads this, chain
    {
      && Chained() && c.Valid() && 1 < |chain|
      && c.defs == Defs() && c.updated == updatetime
      && c.apply == (if applyinfo == null then None else Some(applyinfo.pos))
      && preApValue == (if c.apply.Some? then c.values[c.apply.value] else 0)
      && (if m.None? then mark == null else m.value < |chain| && mark == chain[m.value])
      && Progress(Defs(), seq(|chain|, i => 0), w, |chain|, CurValues(), m)
    }

    /** Election and decision after a complete decoding. */
    method ElectAndDecide(ghost c: Chain, ghost w: Word, ghost m: Option<nat>, mark: CanBit?, preApValue: int,
                          timestamp: TimeVal, decoded: nat, elaps: UInt32)
      returns (r: Decision)
      requires DecodedFrom(c, w, m, mark, preApValue)
      requires mark == null ==> decoded == 0
      requires elaps == ElapsMs(updatetime, timestamp)
      modifies chain`updatetime, this`applyinfo
      ensures Chained()
      ensures Step(c, w, timestamp, mycanid.cycle, State(), r)
      ensures forall p :: p in chain && p != this ==>
                p.updatetime == if applyinfo == p && old(applyinfo) != p then timestamp else old(p.updatetime)
    {
      hide Chained, Defs, CurValues, DefsOf, ValuesOf, Decodable, Progress, Step, FailsOn, ElapsMs, Chain.Valid;
      ChainFacts();
      var update := ElectMember(mark, preApValue, elaps, timestamp, decoded);
      r := if update > 0 then Push else Quiet;
      ProgressIsMultiStep(c, seq(|chain|, i => 0), w, timestamp, mycanid.cycle, m, State(), r);
    }

    lemma MemberFacts(p: CanBit)
      requires Chained() && p in chain
      ensures p.def.WellTyped() && p.def.Holds(p.curValue)
      ensures p.applyinfo != null ==> p == this && p.applyinfo in chain
      ensures State().Shown() < |chain|
      ensures State().Report() == (if applyinfo == null then ToJson(def, curValue) else ToJson(applyinfo.def, applyinfo.curValue))
    {
      assert p.Sound();
    }

    /** update_iviproperty for a chain of several members. */
    method UpdateMultiProperty(canV64: Word, timestamp: TimeVal) returns (r: Decision)
      requires Chained() && next != null
      modifies chain`curValue, chain`updatetime, this`applyinfo
      ensures Chained()
      ensures Step(old(State()), canV64, timestamp, mycanid.cycle, State(), r)
      ensures forall p :: p in chain && p != this ==>
                p.updatetime == if applyinfo == p && old(applyinfo) != p then timestamp else old(p.updatetime)
    {
      hide Chained, Defs, CurValues, DefsOf, ValuesOf, Decodable, Progress, Step, FailsOn, ElapsMs, Chain.Valid;
      ghost var c := State();
      NextMeansMany();
      ChainFacts();
      var preApValue := if applyinfo != null then applyinfo.curValue else 0;
      ResetMembers();
      ghost var pre := CurValues();
      assert pre == seq(|chain|, i => 0);
      var elaps := ElapsMs(updatetime, timestamp);
      var err, update, mark, failed, m := DecodeMembers(canV64, timestamp, true, elaps);
      if err {
        ProgressIsMultiError(c, pre, canV64, failed, CurValues(), m, timestamp, mycanid.cycle);
        r := Error;
      } else {
        r := ElectAndDecide(c, canV64, m, mark, preApValue, timestamp, update, elaps);
      }
    }

    /** update_iviproperty, up to the decision whether to notify. */
    method UpdateIviProperty(canV64: Word, timestamp: TimeVal) returns (r: Decision)
      requires Chained()
      modifies chain`curValue, chain`updatetime, this`applyinfo
      ensures Chained()
      ensures Step(old(State()), canV64, timestamp, mycanid.cycle, State(), r)
      ensures forall p :: p in chain && p != this ==>
                p.updatetime == if applyinfo == p && old(applyinfo) != p then timestamp else old(p.updatetime)
    {
      hide Definition.Holds, Definition.WellTyped, Layout.Valid, Definition.Stored, Definition.Updated, Definition.Fails, Raw, Fresh, Active, ElapsMs;
      NextMeansMany();
      if next != null {
        r := UpdateMultiProperty(canV64, timestamp);
      } else {
        ghost var c := State();
        var err, update, mark, failed, m := DecodeMembers(canV64, timestamp, false, ElapsMs(updatetime, timestamp));
        r := if err then Error else if update > 0 then Push else Quiet;
        assert PlainStep(c, canV64, timestamp, mycanid.cycle, State(), r);
      }
    }
  }

  /** No field of `q` has changed. */
  twostate predicate Same(q: CanBit)
    reads q
  {
    && q.def == old(q.def) && q.mycanid == old(q.mycanid) && q.next == old(q.next) && q.applyinfo == old(q.applyinfo)
    && q.updatetime == old(q.updatetime) && q.curValue == old(q.curValue)
    && q.head == old(q.head) && q.pos == old(q.pos) && q.chain == old(q.chain)
  }

  /** A chain none of whose members was touched is the same chain in the same state. */
  twostate lemma ChainStill(h: CanBit)
    requires old(h.Chained()) && Same(h) && forall q :: q in old(h.chain) ==> Same(q)
    ensures h.Chained() && h.State() == old(h.State())
  {
    assert forall a :: 0 <= a < |h.chain| ==> h.chain[a] in old(h.chain);
    assert forall a :: 0 <= a < |h.chain| ==> old(h.chain[a].PointsOn(h, a));
    assert forall a :: 0 <= a < |h.chain| ==> old(h.chain[a].Sound());
    assert h.Linked();
    assert h.Defs() == old(h.Defs()) && h.CurValues() == old(h.CurValues());
  }

  /** struct canid_info_t: one CAN-ID with its latest frame and its properties.

      The slots of the trailing array have fixed addresses: `property` lists them, and the first
      `nData` are live. */
  class CanidInfo {
    const canid: UInt32
    const dlc: Byte
    const cycle: UInt32
    const kind: Kind
    const property: seq<CanBit>
    const data: array<Byte>
    var frameId: UInt32
    var frameDlc: Byte
    var nData: nat

    /** All members of the chains of the live slots. */
    ghost var nodes: set<CanBit>

    /** A record with zeroed memory behind the given slots. */
    constructor (canid: UInt32, dlc: Byte, cycle: UInt32, kind: Kind, property: seq<CanBit>, data: array<Byte>,
                 frameId: UInt32, frameDlc: Byte)
      ensures this.canid == canid && this.dlc == dlc && this.cycle == cycle && this.kind == kind
      ensures this.property == property && this.data == data && this.frameId == frameId && this.frameDlc == frameDlc
      ensures nData == 0 && nodes == {}
    {
      this.canid, this.dlc, this.cycle, this.kind := canid, dlc, cycle, kind;
      this.property, this.data, this.frameId, this.frameDlc := property, data, frameId, frameDlc;
      nData, nodes := 0, {};
    }

    /** The stored frame, canraw_frame. */
    ghost function Frame(): CanFrame
      requires data.Length == 8
      reads this`frameId, this`frameDlc, data
    {
      CanFrame(frameId, frameDlc, data[..])
    }

    ghost predicate DistinctSlots() {
      forall i, j :: 0 <= i < j < |property| ==> property[i] != property[j]
    }

    /** The first `n` slots are heads of chains made of `nodes`. */
    ghost predicate HeadsUpTo(n: nat)
      reads this`nodes, nodes
    {
      && n <= |property|
      && (forall q :: q in nodes ==> q.mycanid == this && q.head != null)
      && (forall i :: 0 <= i < n ==> property[i] in nodes && forall q :: q in property[i].chain ==> q in nodes)
      && (forall i :: 0 <= i < n ==> property[i].Chained())
    }

    ghost predicate Ready()
      reads this`nodes, this`nData, nodes
    {
      HeadsUpTo(nData) && DistinctSlots() && data.Length == 8
    }
  }
}
