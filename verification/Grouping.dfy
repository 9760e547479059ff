/** Stable grouping of the definitions of one CAN-ID by name: what the in-place compaction of
    src/canid_search.c has to achieve. */
module Grouping {
  import opened Values

  /** The names in `foreign` already belong to another CAN-ID; they are never grouped. */
  function Group(defs: seq<Definition>, foreign: set<string>): (g: seq<seq<Definition>>)
    ensures forall j :: 0 <= j < |g| ==> |g[j]| > 0
  {
    if defs == [] then []
    else AddTo(Group(defs[..|defs| - 1], foreign), defs[|defs| - 1], foreign)
  }

  /** A definition joins the group of its name, or starts a new one. */
  function AddTo(g: seq<seq<Definition>>, d: Definition, foreign: set<string>): (g': seq<seq<Definition>>)
    requires forall j :: 0 <= j < |g| ==> |g[j]| > 0
    ensures forall j :: 0 <= j < |g'| ==> |g'[j]| > 0
  {
    var j := Find(g, d.name);
    if d.name in foreign || j == |g| then g + [[d]] else g[j := g[j] + [d]]
  }

  function Find(g: seq<seq<Definition>>, name: string): (j: nat)
    requires forall j :: 0 <= j < |g| ==> |g[j]| > 0
    ensures j <= |g|
    ensures j < |g| ==> g[j][0].name == name
    ensures forall k :: 0 <= k < j ==> g[k][0].name != name
  {
    if g == [] then 0 else if g[0][0].name == name then 0 else 1 + Find(g[1..], name)
  }

  // ---------------------------------------------------------------------------------------
  // The simple specification
  // ---------------------------------------------------------------------------------------

  /** All definitions of one name, in order. */
  function Named(defs: seq<Definition>, name: string): seq<Definition> {
    if defs == [] then []
    else
      var rest, d := Named(defs[..|defs| - 1], name), defs[|defs| - 1];
      if d.name == name then rest + [d] else rest
  }

  /** The definitions without the repeats of names that are not foreign. */
  function Kept(defs: seq<Definition>, foreign: set<string>): seq<Definition> {
    if defs == [] then []
    else
      var rest, d := defs[..|defs| - 1], defs[|defs| - 1];
      if d.name in foreign || Named(rest, d.name) == [] then Kept(rest, foreign) + [d] else Kept(rest, foreign)
  }

  function TotalLength(g: seq<seq<Definition>>): nat {
    if g == [] then 0 else TotalLength(g[..|g| - 1]) + |g[|g| - 1]|
  }

  /** The heads are the kept definitions in order, and each group holds all definitions of its name. */
  ghost predicate Grouped(defs: seq<Definition>, foreign: set<string>, g: seq<seq<Definition>>) {
    && |g| == |Kept(defs, foreign)|
    && forall j :: 0 <= j < |g| ==>
         && |g[j]| > 0 && g[j][0] == Kept(defs, foreign)[j]
         && g[j] == if g[j][0].name in foreign then [g[j][0]] else Named(defs, g[j][0].name)
  }

  /** Two groups share a name only if it is foreign. */
  ghost predicate Unique(g: seq<seq<Definition>>, foreign: set<string>)
    requires forall j :: 0 <= j < |g| ==> |g[j]| > 0
  {
    forall i, j :: 0 <= i < j < |g| ==> g[i][0].name != g[j][0].name || g[i][0].name in foreign
  }

  /** Every name has a group. */
  ghost predicate Complete(defs: seq<Definition>, g: seq<seq<Definition>>)
    requires forall j :: 0 <= j < |g| ==> |g[j]| > 0
  {
    forall i :: 0 <= i < |defs| ==> Find(g, defs[i].name) < |g|
  }

  ghost predicate IsStableGrouping(defs: seq<Definition>, foreign: set<string>, g: seq<seq<Definition>>) {
    Grouped(defs, foreign, g) && Unique(g, foreign) && Complete(defs, g)
  }

  /** The compaction computes the stable grouping. */
  lemma {:induction false} GroupIsStable(defs: seq<Definition>, foreign: set<string>)
    ensures IsStableGrouping(defs, foreign, Group(defs, foreign))
  {
    hide IsStableGrouping, AddTo;
    if defs == [] {
      NothingIsStable(foreign);
    } else {
      GroupIsStable(defs[..|defs| - 1], foreign);
      AddKeepsStable(defs, foreign, Group(defs[..|defs| - 1], foreign));
    }
  }

  lemma NothingIsStable(foreign: set<string>)
    ensures IsStableGrouping([], foreign, [])
  {
  }

  lemma AddKeepsStable(defs: seq<Definition>, foreign: set<string>, g: seq<seq<Definition>>)
    requires defs != [] && IsStableGrouping(defs[..|defs| - 1], foreign, g)
    ensures Nonempty(g) && IsStableGrouping(defs, foreign, AddTo(g, defs[|defs| - 1], foreign))
  {
    hide Kept, Named, Complete, Grouped, Find;
    var rest, d := defs[..|defs| - 1], defs[|defs| - 1];
    StableIsNonempty(rest, foreign, g);
    var k := Find(g, d.name);
    NamedIffGrouped(rest, foreign, g, d.name);
    if d.name in foreign || k == |g| {
      StartKeepsGrouped(defs, foreign, g);
    } else {
      JoinKeepsGrouped(defs, foreign, g, k);
    }
    AddKeepsComplete(defs, foreign, g);
  }

  ghost predicate Nonempty(g: seq<seq<Definition>>) {
    forall j :: 0 <= j < |g| ==> |g[j]| > 0
  }

  lemma StableIsNonempty(defs: seq<Definition>, foreign: set<string>, g: seq<seq<Definition>>)
    requires Grouped(defs, foreign, g)
    ensures Nonempty(g)
  {
  }

  /** A name without a group has no definition. */
  lemma NamedIffGrouped(defs: seq<Definition>, foreign: set<string>, g: seq<seq<Definition>>, name: string)
    requires Nonempty(g) && Complete(defs, g)
    ensures Find(g, name) == |g| ==> Named(defs, name) == []
  {
    hide Find;
    NamedIffDefined(defs, name);
    assert forall i :: 0 <= i < |defs| ==> Find(g, defs[i].name) < |g|;
  }

  lemma {:induction false} NamedIffDefined(defs: seq<Definition>, name: string)
    ensures Named(defs, name) == [] <==> forall i :: 0 <= i < |defs| ==> defs[i].name != name
  {
    if defs != [] {
      NamedIffDefined(defs[..|defs| - 1], name);
    }
  }

  lemma StartKeepsGrouped(defs: seq<Definition>, foreign: set<string>, g: seq<seq<Definition>>)
    requires defs != [] && Grouped(defs[..|defs| - 1], foreign, g)
    requires var d := defs[|defs| - 1]; d.name in foreign || (Named(defs[..|defs| - 1], d.name) == [] && Find(g, d.name) == |g|)
    ensures Grouped(defs, foreign, g + [[defs[|defs| - 1]]])
  {
    var rest, d := defs[..|defs| - 1], defs[|defs| - 1];
    var g', kept := g + [[d]], Kept(rest, foreign);
    assert Kept(defs, foreign) == kept + [d];
    if d.name !in foreign {
      assert Named(defs, d.name) == [d];
      FindNone(g, d.name);
    }
    forall j | 0 <= j < |g'|
      ensures |g'[j]| > 0 && g'[j][0] == (kept + [d])[j]
      ensures g'[j] == if g'[j][0].name in foreign then [g'[j][0]] else Named(defs, g'[j][0].name)
    {
      hide Find, Kept;
      if j < |g| {
        assert g[j][0] == kept[j];
      }
    }
  }

  lemma FindNone(g: seq<seq<Definition>>, name: string)
    requires Nonempty(g) && Find(g, name) == |g|
    ensures forall j :: 0 <= j < |g| ==> g[j][0].name != name
  {
  }

  lemma JoinKeepsGrouped(defs: seq<Definition>, foreign: set<string>, g: seq<seq<Definition>>, k: nat)
    requires defs != [] && Grouped(defs[..|defs| - 1], foreign, g) && Unique(g, foreign)
    requires defs[|defs| - 1].name !in foreign && k == Find(g, defs[|defs| - 1].name) < |g|
    ensures Grouped(defs, foreign, g[k := g[k] + [defs[|defs| - 1]]])
  {
    hide Find;
    var rest, d := defs[..|defs| - 1], defs[|defs| - 1];
    var g', kept := g[k := g[k] + [d]], Kept(rest, foreign);
    assert g[k][0] == kept[k] && g[k] == Named(rest, d.name) && g[k] != [];
    assert Kept(defs, foreign) == kept;
    forall j | 0 <= j < |g'|
      ensures |g'[j]| > 0 && g'[j][0] == kept[j]
      ensures g'[j] == if g'[j][0].name in foreign then [g'[j][0]] else Named(defs, g'[j][0].name)
    {
      if j == k {
        assert Named(defs, d.name) == g[k] + [d];
      } else {
        assert g[j][0] == kept[j] && g[j][0].name != d.name;
      }
    }
  }

  lemma AddKeepsComplete(defs: seq<Definition>, foreign: set<string>, g: seq<seq<Definition>>)
    requires forall j :: 0 <= j < |g| ==> |g[j]| > 0
    requires defs != [] && Complete(defs[..|defs| - 1], g)
    ensures Complete(defs, AddTo(g, defs[|defs| - 1], foreign))
  {
    var rest, d := defs[..|defs| - 1], defs[|defs| - 1];
    var g': seq<seq<Definition>> := AddTo(g, d, foreign);
    forall i | 0 <= i < |defs|
      ensures Find(g', defs[i].name) < |g'|
    {
      if i < |rest| {
        assert Find(g, rest[i].name) < |g|;
        FindAny(g', defs[i].name, Find(g, rest[i].name));
      } else if g' == g + [[d]] {
        FindAny(g', d.name, |g|);
      } else {
        FindAny(g', d.name, Find(g, d.name));
      }
    }
  }

  ghost predicate SameNames(g: seq<seq<Definition>>) {
    forall j, a :: 0 <= j < |g| && 0 <= a < |g[j]| ==> g[j][a].name == g[j][0].name
  }

  lemma {:induction false} GroupHasSameNames(defs: seq<Definition>, foreign: set<string>)
    ensures SameNames(Group(defs, foreign))
  {
    if defs != [] {
      GroupHasSameNames(defs[..|defs| - 1], foreign);
    }
  }

  lemma {:induction false} FindAny(g: seq<seq<Definition>>, name: string, j: nat)
    requires forall i :: 0 <= i < |g| ==> |g[i]| > 0
    requires j < |g| && g[j][0].name == name
    ensures Find(g, name) < |g|
  {
    if j > 0 {
      FindAny(g[1..], name, j - 1);
    }
  }

  lemma {:induction false} TotalLengthUpdate(g: seq<seq<Definition>>, k: nat, d: Definition)
    requires k < |g|
    ensures TotalLength(g[k := g[k] + [d]]) == TotalLength(g) + 1
  {
    var h, n := g[k := g[k] + [d]], |g| - 1;
    if k < n {
      TotalLengthUpdate(g[..n], k, d);
      assert h[..n] == g[..n][k := g[..n][k] + [d]];
    } else {
      assert h[..n] == g[..n];
    }
  }

  /** No definition is lost and none is duplicated: the groups add up to the original count. */
  lemma {:induction false} GroupsAddUp(defs: seq<Definition>, foreign: set<string>)
    ensures TotalLength(Group(defs, foreign)) == |defs|
  {
    if defs != [] {
      var rest, d := defs[..|defs| - 1], defs[|defs| - 1];
      GroupsAddUp(rest, foreign);
      var g := Group(rest, foreign);
      var k := Find(g, d.name);
      if d.name in foreign || k == |g| {
        assert (g + [[d]])[..|g|] == g;
      } else {
        TotalLengthUpdate(g, k, d);
      }
    }
  }

  function NamesOf(defs: seq<Definition>): (names: seq<string>)
    ensures |names| == |defs| && forall i :: 0 <= i < |defs| ==> names[i] == defs[i].name
  {
    seq(|defs|, i requires 0 <= i < |defs| => defs[i].name)
  }

  const SUPPORT_PROPERTY_LIMIT := 512

  /** A list that takes no more than it can hold. */
  function Appended(support: seq<string>, name: string): seq<string> {
    if |support| < SUPPORT_PROPERTY_LIMIT then support + [name] else support
  }

  /** The list of supported properties after the definition of `names`: each name that is not `known` is
      appended at its first occurrence. */
  function Extend(support: seq<string>, known: set<string>, names: seq<string>): seq<string> {
    if names == [] then support
    else
      var rest, name := names[..|names| - 1], names[|names| - 1];
      if name in known || name in rest then Extend(support, known, rest) else Appended(Extend(support, known, rest), name)
  }

  lemma ExtendNone(support: seq<string>, known: set<string>, defs: seq<Definition>)
    ensures Extend(support, known, NamesOf(defs[..0])) == support
  {
  }

  lemma ExtendNext(support: seq<string>, known: set<string>, defs: seq<Definition>, k: nat)
    requires k < |defs|
    ensures var listed := Extend(support, known, NamesOf(defs[..k]));
            Extend(support, known, NamesOf(defs[..k + 1])) ==
            if defs[k].name in known || defs[k].name in NamesOf(defs[..k]) then listed else Appended(listed, defs[k].name)
  {
    var names := NamesOf(defs[..k + 1]);
    assert names[..k] == NamesOf(defs[..k]) && names[k] == defs[k].name;
  }

  /** The groups carry exactly the names that are defined. */
  lemma {:induction false} GroupNames(defs: seq<Definition>, foreign: set<string>, n: string)
    ensures Find(Group(defs, foreign), n) < |Group(defs, foreign)| <==> n in NamesOf(defs)
  {
    GroupIsStable(defs, foreign);
    var g := Group(defs, foreign);
    if n in NamesOf(defs) {
      var i :| 0 <= i < |defs| && NamesOf(defs)[i] == n;
    } else if Find(g, n) < |g| {
      KeptIsDefined(defs, foreign, Find(g, n));
    }
  }

  lemma {:induction false} KeptIsDefined(defs: seq<Definition>, foreign: set<string>, j: nat)
    requires j < |Kept(defs, foreign)|
    ensures Kept(defs, foreign)[j].name in NamesOf(defs)
  {
    var k := |defs| - 1;
    assert NamesOf(defs)[k] in NamesOf(defs);
    if j < |Kept(defs[..k], foreign)| {
      KeptIsDefined(defs[..k], foreign, j);
      assert forall i :: 0 <= i < k ==> NamesOf(defs[..k])[i] == NamesOf(defs)[i];
    }
  }

  // ---------------------------------------------------------------------------------------
  // The list of supported properties
  // ---------------------------------------------------------------------------------------

  function NameSet(names: seq<string>): set<string> {
    set n | n in names
  }

  /** Every known name once, and all of them until the list is full. */
  ghost predicate Lists(support: seq<string>, known: set<string>) {
    && |support| <= SUPPORT_PROPERTY_LIMIT
    && (forall i, j :: 0 <= i < j < |support| ==> support[i] != support[j])
    && (forall n :: n in support ==> n in known)
    && (|support| < SUPPORT_PROPERTY_LIMIT ==> forall n :: n in known ==> n in support)
  }

  lemma NothingLists()
    ensures Lists([], {})
  {
  }

  lemma ListsKnown(support: seq<string>, known: set<string>)
    requires Lists(support, known)
    ensures NameSet(support) <= known
  {
  }

  lemma ExtendOne(support: seq<string>, known: set<string>, name: string)
    requires name !in known
    ensures Extend(support, known, [name]) == Appended(support, name)
  {
    assert [name][..0] == [];
    assert Extend(support, known, [name][..0]) == support;
  }

  lemma {:induction false} ExtendKeepsLists(support: seq<string>, known: set<string>, names: seq<string>)
    requires Lists(support, known)
    ensures Lists(Extend(support, known, names), known + NameSet(names))
  {
    if names == [] {
      assert known + NameSet(names) == known;
    } else {
      var rest, name := names[..|names| - 1], names[|names| - 1];
      ExtendKeepsLists(support, known, rest);
      assert NameSet(names) == NameSet(rest) + {name};
      assert name in known || name in rest <==> name in known + NameSet(rest);
      AppendedLists(Extend(support, known, rest), known + NameSet(rest), name);
      assert known + NameSet(names) == known + NameSet(rest) + {name};
    }
  }

  lemma AppendedLists(support: seq<string>, known: set<string>, name: string)
    requires Lists(support, known)
    ensures Lists(if name in known then support else Appended(support, name), known + {name})
  {
  }

  lemma {:induction false} NameSetSize(names: seq<string>)
    requires forall i, j :: 0 <= i < j < |names| ==> names[i] != names[j]
    ensures |NameSet(names)| == |names|
  {
    if names != [] {
      var k := |names| - 1;
      NameSetSize(names[..k]);
      assert NameSet(names) == NameSet(names[..k]) + {names[k]};
    }
  }

  /** The list is complete if and only if the known names fit it. */
  lemma ListsAllIff(support: seq<string>, known: set<string>)
    requires Lists(support, known)
    ensures NameSet(support) == known <==> |known| <= SUPPORT_PROPERTY_LIMIT
  {
    NameSetSize(support);
    ListsKnown(support, known);
    if |known| <= SUPPORT_PROPERTY_LIMIT && |support| == SUPPORT_PROPERTY_LIMIT {
      assert |known - NameSet(support)| == |known| - |NameSet(support)|;
      assert known == NameSet(support) + (known - NameSet(support));
    }
  }
}
