/** The zone suffix of a property name (src/can_json.c, `_getZoneName`). */
module Zones {
  import opened Words

  datatype Zone =
    | Front | Middle | Right | Left | Rear | Center
    | LeftSide | RightSide | FrontSide | BackSide | Driver | Passenger

  /** The ZONE_ flags. */
  function Flag(z: Zone): bv16 {
    match z
    case Front => 0x1
    case Middle => 0x2
    case Right => 0x4
    case Left => 0x8
    case Rear => 0x10
    case Center => 0x20
    case LeftSide => 0x40
    case RightSide => 0x80
    case FrontSide => 0x100
    case BackSide => 0x200
    case Passenger => 0x400
    case Driver => 0x800
  }

  /** What each zone adds to the suffix. */
  function Label(z: Zone): string {
    match z
    case Front => "Front"
    case Middle => "Middle"
    case Right => "Right"
    case Left => "Left"
    case Rear => "Rear"
    case Center => "Center"
    case LeftSide => "Leftside"
    case RightSide => "Rightside"
    case FrontSide => "Frontside"
    case BackSide => "Backside"
    case Driver => "Driver"
    case Passenger => "Passenger"
  }

  const NONE := "Zone::None"

  function Recognise(zname: string): Option<Zone> {
    if zname == "Zone::Front" then Some(Front)
    else if zname == "Zone::Middle" then Some(Middle)
    else if zname == "Zone::Right" then Some(Right)
    else if zname == "Zone::Left" then Some(Left)
    else if zname == "Zone::Rear" then Some(Rear)
    else if zname == "Zone::Center" then Some(Center)
    else if zname == "Zone::LeftSide" then Some(LeftSide)
    else if zname == "Zone::RightSide" then Some(RightSide)
    else if zname == "Zone::FrontSide" then Some(FrontSide)
    else if zname == "Zone::BackSide" then Some(BackSide)
    else if zname == "Zone::Driver" then Some(Driver)
    else if zname == "Zone::Passenger" then Some(Passenger)
    else None
  }

  /** The order in which the suffix is put together. */
  function Order(): (s: seq<Zone>)
    ensures |s| == 12
  {
    [Front, Middle, Right, Left, Rear, Center, LeftSide, RightSide, FrontSide, BackSide, Driver, Passenger]
  }

  /** The zones named after the last "Zone::None". */
  ghost function Selected(names: seq<string>): set<Zone> {
    set z: Zone | exists i :: 0 <= i < |names| && Recognise(names[i]) == Some(z) && NONE !in names[i..]
  }

  /** The labels of the selected zones, from place `k` of the order on. */
  ghost function Labels(zones: set<Zone>, k: nat): string
    requires k <= 12
    decreases 12 - k
  {
    if k == 12 then "" else (if Order()[k] in zones then Label(Order()[k]) else "") + Labels(zones, k + 1)
  }

  ghost function Suffix(names: Option<seq<string>>): Option<string> {
    if names.None? || Selected(names.value) == {} then None else Some(Labels(Selected(names.value), 0))
  }

  /** The flags of a word stand for a set of zones. */
  ghost predicate Stands(zoneVal: bv16, zones: set<Zone>) {
    zoneVal & 0xF000 == 0 && forall z :: zoneVal & Flag(z) != 0 <==> z in zones
  }

  lemma SelectedNext(names: seq<string>, i: nat)
    requires i < |names|
    ensures Selected(names[..i + 1]) ==
            if names[i] == NONE then {}
            else if Recognise(names[i]).None? then Selected(names[..i])
            else Selected(names[..i]) + {Recognise(names[i]).value}
  {
    var s, t := names[..i], names[..i + 1];
    assert forall j :: 0 <= j <= i ==> t[j..] == s[j..] + [names[i]];
    assert forall j :: 0 <= j < i ==> t[j] == s[j];
    assert t[i] == names[i] && t[i..] == [names[i]];
    forall z
      ensures z in Selected(t) <==>
              names[i] != NONE && (z in Selected(s) || Recognise(names[i]) == Some(z))
    {
      if z in Selected(s) && names[i] != NONE {
        var j :| 0 <= j < |s| && Recognise(s[j]) == Some(z) && NONE !in s[j..];
        assert NONE !in t[j..];
        assert Recognise(t[j]) == Some(z);
      }
    }
  }

  lemma FlagsAreApart(v: bv16, y: Zone, z: Zone)
    ensures (v | Flag(y)) & Flag(z) != 0 <==> v & Flag(z) != 0 || y == z
    ensures v & 0xF000 == 0 ==> (v | Flag(y)) & 0xF000 == 0
  {
  }

  lemma NoFlags(zoneVal: bv16, zones: set<Zone>)
    requires Stands(zoneVal, zones)
    ensures zoneVal == 0 <==> zones == {}
  {
    if zones == {} {
      assert forall z :: z in Order() ==> zoneVal & Flag(z) == 0;
      assert zoneVal & Flag(Front) == 0 && zoneVal & Flag(Middle) == 0 && zoneVal & Flag(Right) == 0;
      assert zoneVal & Flag(Left) == 0 && zoneVal & Flag(Rear) == 0 && zoneVal & Flag(Center) == 0;
      assert zoneVal & Flag(LeftSide) == 0 && zoneVal & Flag(RightSide) == 0 && zoneVal & Flag(FrontSide) == 0;
      assert zoneVal & Flag(BackSide) == 0 && zoneVal & Flag(Driver) == 0 && zoneVal & Flag(Passenger) == 0;
    } else {
      var z :| z in zones;
      assert zoneVal & Flag(z) != 0;
    }
  }

  /** The flags set by the zone list. */
  method CollectZones(zonelist: seq<string>) returns (zoneVal: bv16)
    ensures Stands(zoneVal, Selected(zonelist))
  {
    hide Flag, Selected, Recognise;
    zoneVal := 0;
    NothingSelected(zonelist);
    for i := 0 to |zonelist|
      invariant Stands(zoneVal, Selected(zonelist[..i]))
    {
      SelectedNext(zonelist, i);
      var zname := zonelist[i];
      if zname == NONE {
        zoneVal := 0;
      } else if Recognise(zname).Some? {
        var z := Recognise(zname).value;
        forall y {
          FlagsAreApart(zoneVal, z, y);
        }
        zoneVal := zoneVal | Flag(z);
      }
    }
    assert zonelist[..|zonelist|] == zonelist;
  }

  lemma NothingSelected(names: seq<string>)
    ensures Selected(names[..0]) == {}
  {
  }

  /** One `if` of the chain that puts the suffix together; `k` is the place of the zone. */
  method Append(name: string, zoneVal: bv16, z: Zone, ghost zones: set<Zone>, ghost k: nat) returns (name': string)
    requires k < 12 && z == Order()[k] && Stands(zoneVal, zones)
    ensures name' + Labels(zones, k + 1) == name + Labels(zones, k)
  {
    hide Flag, Label, Order;
    name' := name;
    if zoneVal & Flag(z) != 0 {
      name' := name + Label(z);
    }
    assert (name + Label(z)) + Labels(zones, k + 1) == name + (Label(z) + Labels(zones, k + 1));
    assert name + ("" + Labels(zones, k + 1)) == name + Labels(zones, k + 1);
  }

  /** _getZoneName */
  method GetZoneName(obj: Option<seq<string>>) returns (r: Option<string>)
    ensures r == Suffix(obj)
    ensures obj.Some? ==> r == if Spelled(obj.value, 0) == "" then None else Some(Spelled(obj.value, 0))
  {
    hide Spelled, Flag, Label, Labels, Selected, Stands;
    if obj.None? {
      return None;
    }
    SuffixIsSpelled(obj.value);
    var zoneVal := CollectZones(obj.value);
    ghost var zones := Selected(obj.value);
    NoFlags(zoneVal, zones);
    if zoneVal == 0 {
      return None;
    }
    var name := "";
    name := Append(name, zoneVal, Front, zones, 0);
    name := Append(name, zoneVal, Middle, zones, 1);
    name := Append(name, zoneVal, Right, zones, 2);
    name := Append(name, zoneVal, Left, zones, 3);
    name := Append(name, zoneVal, Rear, zones, 4);
    name := Append(name, zoneVal, Center, zones, 5);
    name := Append(name, zoneVal, LeftSide, zones, 6);
    name := Append(name, zoneVal, RightSide, zones, 7);
    name := Append(name, zoneVal, FrontSide, zones, 8);
    name := Append(name, zoneVal, BackSide, zones, 9);
    name := Append(name, zoneVal, Driver, zones, 10);
    name := Append(name, zoneVal, Passenger, zones, 11);
    NoLabels(zones);
    assert "" + Labels(zones, 0) == Labels(zones, 0) && name + "" == name;
    return Some(name);
  }

  lemma NoLabels(zones: set<Zone>)
    ensures Labels(zones, 12) == ""
  {
  }

  // ---------------------------------------------------------------------------------------
  // The suffix is canonical and injective
  // ---------------------------------------------------------------------------------------

  predicate Capital(c: char) {
    'A' <= c <= 'Z'
  }

  /** A capital letter followed by small ones. */
  predicate IsWord(w: string) {
    |w| > 0 && Capital(w[0]) && forall i :: 0 < i < |w| ==> 'a' <= w[i] <= 'z'
  }

  /** Nothing, or the beginning of a word. */
  predicate StartsWord(r: string) {
    r == "" || Capital(r[0])
  }

  lemma LabelIsWord(z: Zone)
    ensures IsWord(Label(z)) && |Label(z)| <= 9
  {
  }

  lemma LabelsDiffer(y: Zone, z: Zone)
    requires Label(y) == Label(z)
    ensures y == z
  {
  }

  lemma PlacesDiffer(i: nat, j: nat)
    requires i < 12 && j < 12
    ensures Order()[i] == Order()[j] ==> i == j
  {
  }

  lemma EveryZoneHasPlace(z: Zone)
    ensures z in Order()
  {
    var k := match z
      case Front => 0 case Middle => 1 case Right => 2 case Left => 3 case Rear => 4 case Center => 5
      case LeftSide => 6 case RightSide => 7 case FrontSide => 8 case BackSide => 9 case Driver => 10 case Passenger => 11;
    assert Order()[k] == z;
  }

  /** The word at the beginning of `s` has `n` letters. */
  ghost predicate EndsAt(s: string, n: nat) {
    0 < n <= |s| && (forall i :: 0 < i < n ==> 'a' <= s[i] <= 'z') && (n < |s| ==> Capital(s[n]))
  }

  lemma WordEnds(w: string, r: string)
    requires IsWord(w) && StartsWord(r)
    ensures EndsAt(w + r, |w|)
  {
  }

  /** A capital letter marks where the first word ends. */
  lemma FirstWord(w: string, r: string, w': string, r': string)
    requires IsWord(w) && IsWord(w') && StartsWord(r) && StartsWord(r') && w + r == w' + r'
    ensures w == w' && r == r'
  {
    var s := w + r;
    WordEnds(w, r);
    WordEnds(w', r');
    assert |w| == |w'|;
    assert w == s[..|w|] && r == s[|w|..] && w' == s[..|w'|] && r' == s[|w'|..];
  }

  /** Whatever follows place `k` is nothing, or starts with the word of a later place. */
  lemma {:induction false} FirstLabel(zones: set<Zone>, k: nat) returns (j: nat)
    requires k <= 12
    ensures k <= j <= 12 && (forall i :: k <= i < j ==> Order()[i] !in zones)
    ensures if j == 12 then Labels(zones, k) == ""
            else Order()[j] in zones && Labels(zones, k) == Label(Order()[j]) + Labels(zones, j + 1)
    ensures StartsWord(Labels(zones, k))
    decreases 12 - k
  {
    hide Label, Order, StartsWord;
    if k == 12 {
      j := 12;
      NothingStarts();
    } else if Order()[k] in zones {
      j := k;
      LabelStarts(Order()[k], Labels(zones, k + 1));
    } else {
      j := FirstLabel(zones, k + 1);
    }
  }

  lemma NothingStarts()
    ensures StartsWord("")
  {
  }

  lemma LabelStarts(z: Zone, r: string)
    ensures StartsWord(Label(z) + r)
  {
    hide Label;
    LabelIsWord(z);
  }

  /** Equal labels from place `k` on come from the same zones. */
  lemma {:induction false} LabelsAgree(s: set<Zone>, t: set<Zone>, k: nat)
    requires k <= 12 && Labels(s, k) == Labels(t, k)
    ensures forall i :: k <= i < 12 ==> (Order()[i] in s <==> Order()[i] in t)
    decreases 12 - k
  {
    hide Label, Labels, IsWord, StartsWord, Order;
    var i := FirstLabel(s, k);
    var j := FirstLabel(t, k);
    if i < 12 {
      LabelIsWord(Order()[i]);
      LabelNotEmpty(Order()[i]);
    }
    if j < 12 {
      LabelIsWord(Order()[j]);
      LabelNotEmpty(Order()[j]);
    }
    if i < 12 && j < 12 {
      var i' := FirstLabel(s, i + 1);
      var j' := FirstLabel(t, j + 1);
      FirstWord(Label(Order()[i]), Labels(s, i + 1), Label(Order()[j]), Labels(t, j + 1));
      LabelsDiffer(Order()[i], Order()[j]);
      PlacesDiffer(i, j);
      LabelsAgree(s, t, i + 1);
    }
  }

  lemma LabelNotEmpty(z: Zone)
    ensures |Label(z)| > 0
  {
  }

  lemma LabelsAreInjective(s: set<Zone>, t: set<Zone>)
    ensures Labels(s, 0) == Labels(t, 0) <==> s == t
  {
    if Labels(s, 0) == Labels(t, 0) {
      LabelsAgree(s, t, 0);
      forall z
        ensures z in s <==> z in t
      {
        EveryZoneHasPlace(z);
      }
    }
  }

  /** Two zone lists of any length give the same suffix if and only if they select the same zones,
      whatever the order and repetition. */
  lemma SuffixIsCanonical(a: seq<string>, b: seq<string>)
    ensures Suffix(Some(a)) == Suffix(Some(b)) <==> Selected(a) == Selected(b)
  {
    hide Labels, Selected;
    LabelsAreInjective(Selected(a), Selected(b));
  }

  lemma {:induction false} LabelsAreShort(zones: set<Zone>, k: nat)
    requires k <= 12
    ensures |Labels(zones, k)| <= 9 * (12 - k)
    ensures forall i :: 0 <= i < |Labels(zones, k)| ==> Labels(zones, k)[i] != '@'
    decreases 12 - k
  {
    hide Label, Order;
    if k < 12 {
      LabelIsWord(Order()[k]);
      LabelsAreShort(zones, k + 1);
    }
  }

  /** The suffix and its terminator fit the static buffer of 128 characters. */
  lemma SuffixFits(names: Option<seq<string>>)
    requires Suffix(names).Some?
    ensures 0 < |Suffix(names).value| < 128
  {
    hide Selected;
    LabelsAreShort(Selected(names.value), 0);
    LabelsAreInjective(Selected(names.value), {});
    var j := FirstLabel({}, 0);
    assert Labels({}, 0) == "";
  }

  // ---------------------------------------------------------------------------------------
  // What the suffix reads
  // ---------------------------------------------------------------------------------------

  /** The zone words of a definition file, in the order of the suffix. */
  const ZONE_WORDS: seq<string> := ["Front", "Middle", "Right", "Left", "Rear", "Center",
                                    "LeftSide", "RightSide", "FrontSide", "BackSide", "Driver", "Passenger"]

  function Small(c: char): char {
    if Capital(c) then 'a' + (c - 'A') else c
  }

  /** The word with only its first letter in upper case. */
  function Capitalised(w: string): (r: string)
    ensures |r| == |w| && forall i :: 0 <= i < |w| ==> r[i] == if i == 0 then w[0] else Small(w[i])
  {
    seq(|w|, i requires 0 <= i < |w| => if i == 0 then w[0] else Small(w[i]))
  }

  /** The word is named, and not revoked by a later "Zone::None". */
  ghost predicate Stays(names: seq<string>, w: string) {
    exists i :: 0 <= i < |names| && names[i] == "Zone::" + w && NONE !in names[i..]
  }

  /** The words that stay, from word `k` on. */
  ghost function Spelled(names: seq<string>, k: nat): string
    requires k <= 12
    decreases 12 - k
  {
    if k == 12 then ""
    else (if Stays(names, ZONE_WORDS[k]) then Capitalised(ZONE_WORDS[k]) else "") + Spelled(names, k + 1)
  }

  lemma FirstWords()
    ensures "Zone::" + "Front" == "Zone::Front" && "Zone::" + "Middle" == "Zone::Middle"
    ensures "Zone::" + "Right" == "Zone::Right" && "Zone::" + "Left" == "Zone::Left"
    ensures "Zone::" + "Rear" == "Zone::Rear" && "Zone::" + "Center" == "Zone::Center"
  {
  }

  lemma LastWords()
    ensures "Zone::" + "LeftSide" == "Zone::LeftSide" && "Zone::" + "RightSide" == "Zone::RightSide"
    ensures "Zone::" + "FrontSide" == "Zone::FrontSide" && "Zone::" + "BackSide" == "Zone::BackSide"
    ensures "Zone::" + "Driver" == "Zone::Driver" && "Zone::" + "Passenger" == "Zone::Passenger"
  {
  }

  lemma WordIsRecognised(k: nat)
    requires k < 12
    ensures Recognise("Zone::" + ZONE_WORDS[k]) == Some(Order()[k])
  {
    if k < 6 {
      FirstWords();
    } else {
      LastWords();
    }
  }

  lemma RecognisedOnce(a: string, b: string)
    requires Recognise(a).Some? && Recognise(a) == Recognise(b)
    ensures a == b
  {
    match Recognise(a).value
    case Front => assert a == "Zone::Front" && b == "Zone::Front";
    case Middle => assert a == "Zone::Middle" && b == "Zone::Middle";
    case Right => assert a == "Zone::Right" && b == "Zone::Right";
    case Left => assert a == "Zone::Left" && b == "Zone::Left";
    case Rear => assert a == "Zone::Rear" && b == "Zone::Rear";
    case Center => assert a == "Zone::Center" && b == "Zone::Center";
    case LeftSide => assert a == "Zone::LeftSide" && b == "Zone::LeftSide";
    case RightSide => assert a == "Zone::RightSide" && b == "Zone::RightSide";
    case FrontSide => assert a == "Zone::FrontSide" && b == "Zone::FrontSide";
    case BackSide => assert a == "Zone::BackSide" && b == "Zone::BackSide";
    case Driver => assert a == "Zone::Driver" && b == "Zone::Driver";
    case Passenger => assert a == "Zone::Passenger" && b == "Zone::Passenger";
  }

  lemma WordOfZone(k: nat, zname: string)
    requires k < 12
    ensures Recognise(zname) == Some(Order()[k]) <==> zname == "Zone::" + ZONE_WORDS[k]
  {
    hide Recognise, Order;
    WordIsRecognised(k);
    if Recognise(zname) == Some(Order()[k]) {
      RecognisedOnce(zname, "Zone::" + ZONE_WORDS[k]);
    }
  }

  lemma LabelOfZone(k: nat)
    requires k < 12
    ensures Label(Order()[k]) == Capitalised(ZONE_WORDS[k])
  {
  }

  lemma {:induction false} LabelsAreSpelled(names: seq<string>, k: nat)
    requires k <= 12
    ensures Labels(Selected(names), k) == Spelled(names, k)
    decreases 12 - k
  {
    hide Label, Recognise, Order, Capitalised;
    if k < 12 {
      LabelsAreSpelled(names, k + 1);
      LabelOfZone(k);
      forall i | 0 <= i < |names| {
        WordOfZone(k, names[i]);
      }
    }
  }

  /** The suffix of any zone list reads the words that stay, each capitalised, in the order of ZONE_WORDS;
      there is none if no word stays. */
  lemma SuffixIsSpelled(names: seq<string>)
    ensures Suffix(Some(names)) == if Spelled(names, 0) == "" then None else Some(Spelled(names, 0))
  {
    hide Labels, Selected, Spelled;
    LabelsAreSpelled(names, 0);
    LabelsAreInjective(Selected(names), {});
    var j := FirstLabel({}, 0);
  }

  lemma KnownWord(w: string)
    ensures Recognise("Zone::" + w).Some? <==> w in ZONE_WORDS
  {
    hide Recognise, Order;
    if Recognise("Zone::" + w).Some? {
      EveryZoneHasPlace(Recognise("Zone::" + w).value);
      var k :| 0 <= k < 12 && Order()[k] == Recognise("Zone::" + w).value;
      WordOfZone(k, "Zone::" + w);
      PrefixedWords(w, ZONE_WORDS[k]);
    }
    if w in ZONE_WORDS {
      var k :| 0 <= k < 12 && ZONE_WORDS[k] == w;
      WordIsRecognised(k);
    }
  }

  lemma PrefixedWords(w: string, v: string)
    ensures "Zone::" + w == "Zone::" + v <==> w == v
  {
    assert ("Zone::" + w)[6..] == w && ("Zone::" + v)[6..] == v;
  }

  lemma NoneIsNoZone()
    ensures Recognise(NONE).None?
  {
  }

  lemma WordsDiffer(j: nat, k: nat)
    requires j < 12 && k < 12 && ZONE_WORDS[j] == ZONE_WORDS[k]
    ensures j == k
  {
    hide Recognise, Order;
    WordIsRecognised(j);
    WordIsRecognised(k);
    PlacesDiffer(j, k);
  }

  /** A list that names word `k` alone. */
  lemma {:induction false} SpelledAlone(names: seq<string>, k: nat, j: nat)
    requires j <= 12 && k < 12 && forall i :: 0 <= i < 12 ==> (Stays(names, ZONE_WORDS[i]) <==> i == k)
    ensures Spelled(names, j) == if j <= k then Capitalised(ZONE_WORDS[k]) else ""
    decreases 12 - j
  {
    hide Stays, Capitalised;
    if j < 12 {
      SpelledAlone(names, k, j + 1);
    }
  }

  /** Every zone word that the loader knows, alone in a list, becomes itself with small letters after the first. */
  lemma SingleZone(w: string)
    requires Recognise("Zone::" + w).Some?
    ensures Suffix(Some(["Zone::" + w])) == Some(Capitalised(w))
  {
    hide Recognise, Suffix, Spelled, Capitalised;
    var names := ["Zone::" + w];
    KnownWord(w);
    NoneIsNoZone();
    var k :| 0 <= k < 12 && ZONE_WORDS[k] == w;
    forall i | 0 <= i < 12
      ensures Stays(names, ZONE_WORDS[i]) <==> i == k
    {
      PrefixedWords(w, ZONE_WORDS[i]);
      if i != k && ZONE_WORDS[i] == w {
        WordsDiffer(i, k);
      }
      assert names[0..] == names && names[0] == "Zone::" + w;
    }
    SpelledAlone(names, k, 0);
    SuffixIsSpelled(names);
    assert |Capitalised(w)| == |w| > 0;
  }

  const ALL_ZONES := "FrontMiddleRight" + "LeftRearCenter" + "LeftsideRightsideFrontside" + "BacksideDriverPassenger"

  /** All labels from place `k` on. */
  ghost function AllLabels(k: nat): string
    requires k <= 12
    decreases 12 - k
  {
    if k == 12 then "" else Label(Order()[k]) + AllLabels(k + 1)
  }

  lemma ThreeLabels(k: nat)
    requires k <= 9
    ensures AllLabels(k) == Label(Order()[k]) + Label(Order()[k + 1]) + Label(Order()[k + 2]) + AllLabels(k + 3)
  {
    hide Label, Order;
    var a, b, c, r := Label(Order()[k]), Label(Order()[k + 1]), Label(Order()[k + 2]), AllLabels(k + 3);
    assert AllLabels(k + 2) == c + r;
    assert AllLabels(k + 1) == b + (c + r);
    assert a + (b + (c + r)) == a + b + c + r;
  }

  lemma FirstSix()
    ensures Label(Front) + Label(Middle) + Label(Right) == "FrontMiddleRight"
    ensures Label(Left) + Label(Rear) + Label(Center) == "LeftRearCenter"
  {
  }

  lemma LastSix()
    ensures Label(LeftSide) + Label(RightSide) + Label(FrontSide) == "LeftsideRightsideFrontside"
    ensures Label(BackSide) + Label(Driver) + Label(Passenger) == "BacksideDriverPassenger"
  {
  }

  lemma AllLabelsRead()
    ensures AllLabels(0) == ALL_ZONES
  {
    hide Label, AllLabels;
    ThreeLabels(0);
    ThreeLabels(3);
    ThreeLabels(6);
    ThreeLabels(9);
    FirstSix();
    LastSix();
    assert AllLabels(12) == "" by { NoneLeft(12); }
    Regroup("FrontMiddleRight", "LeftRearCenter", "LeftsideRightsideFrontside", "BacksideDriverPassenger");
  }

  lemma Regroup(a: string, b: string, c: string, d: string)
    ensures a + (b + (c + (d + ""))) == a + b + c + d
  {
  }

  lemma NoneLeft(k: nat)
    requires k == 12
    ensures AllLabels(k) == ""
  {
  }

  lemma {:induction false} AllSpelled(names: seq<string>, k: nat)
    requires k <= 12 && forall i :: 0 <= i < 12 ==> Stays(names, ZONE_WORDS[i])
    ensures Spelled(names, k) == AllLabels(k)
    decreases 12 - k
  {
    hide Label, Order, Stays, Capitalised;
    if k < 12 {
      AllSpelled(names, k + 1);
      LabelOfZone(k);
    }
  }

  /** All twelve zones, in any order and however often, give one suffix. */
  lemma AllZones(names: seq<string>)
    requires NONE !in names && forall k :: 0 <= k < 12 ==> "Zone::" + ZONE_WORDS[k] in names
    ensures Suffix(Some(names)) == Some(ALL_ZONES)
  {
    hide Suffix, Spelled, AllLabels;
    forall k | 0 <= k < 12
      ensures Stays(names, ZONE_WORDS[k])
    {
      var i :| 0 <= i < |names| && names[i] == "Zone::" + ZONE_WORDS[k];
      assert NONE !in names[i..];
    }
    AllSpelled(names, 0);
    AllLabelsRead();
    SuffixIsSpelled(names);
  }

  // ---------------------------------------------------------------------------------------
  // Full property names
  // ---------------------------------------------------------------------------------------

  /** The name a property is registered under. */
  ghost function FullName(name: string, zone: Option<string>): string {
    match zone
    case None => name
    case Some(z) => name + "@" + z
  }

  /** The part of `f` before the first '@' has `n` characters. */
  ghost predicate PlainUpTo(f: string, n: nat) {
    n <= |f| && (forall i :: 0 <= i < n ==> f[i] != '@') && (n < |f| ==> f[n] == '@')
  }

  lemma NameIsPlain(n: string, zone: Option<string>)
    requires '@' !in n
    ensures PlainUpTo(FullName(n, zone), |n|) && FullName(n, zone)[..|n|] == n
    ensures zone.Some? ==> FullName(n, zone)[|n|..] == "@" + zone.value
    ensures zone.None? ==> FullName(n, zone)[|n|..] == ""
  {
  }

  lemma PlainIsUnique(f: string, n: nat, m: nat)
    requires PlainUpTo(f, n) && PlainUpTo(f, m)
    ensures n == m
  {
  }

  /** Properties with plain names share a full name if and only if they share name and zones. */
  lemma FullNameIsInjective(n: string, a: seq<string>, m: string, b: seq<string>)
    requires '@' !in n && '@' !in m
    ensures FullName(n, Suffix(Some(a))) == FullName(m, Suffix(Some(b))) <==> n == m && Selected(a) == Selected(b)
  {
    hide Suffix, Selected, FullName, PlainUpTo;
    SuffixIsCanonical(a, b);
    var y, z := Suffix(Some(a)), Suffix(Some(b));
    NameIsPlain(n, y);
    NameIsPlain(m, z);
    if FullName(n, y) == FullName(m, z) {
      PlainIsUnique(FullName(n, y), |n|, |m|);
      if y.Some? && z.Some? {
        assert ("@" + y.value)[1..] == y.value && ("@" + z.value)[1..] == z.value;
      }
    }
  }
}
