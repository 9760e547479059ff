/** The two dictionaries of src/canid_search.c: CAN-ID to record, and property name to bit field. */
module CanidSearch {
  import opened Words
  import opened Codec
  import opened Values
  import opened Timing
  import opened Thinning
  import opened Grouping
  import opened CanInfo

  /** As the loader leaves a slot. */
  ghost predicate Blank(p: CanBit)
    reads p
  {
    && p.head == null && p.chain == []
    && p.next == null && p.applyinfo == null && p.curValue == 0 && p.updatetime == EPOCH
    && p.def.WellTyped() && p.def.layout.Valid()
  }

  /** A chain that nothing has been decoded into yet. */
  ghost predicate Untouched(h: CanBit)
    reads h, h.chain
  {
    h.Chained() && h.applyinfo == null && h.updatetime == EPOCH && forall q :: q in h.chain ==> q.curValue == 0
  }

  /** A well-formed member that has never been decoded. */
  ghost predicate Zeroed(q: CanBit)
    reads q`def, q`curValue, q`applyinfo
  {
    q.def.WellTyped() && q.def.layout.Valid() && q.curValue == 0 && q.applyinfo == null
  }

  lemma ZeroedIsUntouched(h: CanBit)
    requires h.Linked() && h.updatetime == EPOCH && forall a :: 0 <= a < |h.chain| ==> Zeroed(h.chain[a])
    ensures Untouched(h)
  {
    forall a | 0 <= a < |h.chain|
      ensures h.chain[a].Sound()
    {
      ZeroHolds(h.chain[a].def);
    }
  }

  lemma UntouchedIsZeroed(h: CanBit)
    requires Untouched(h)
    ensures h.Linked() && h.updatetime == EPOCH && forall a :: 0 <= a < |h.chain| ==> Zeroed(h.chain[a])
  {
    assert forall a :: 0 <= a < |h.chain| ==> h.chain[a].Sound();
  }

  /** Make a slot the head of a chain of its own. */
  ghost method StartChain(p: CanBit)
    requires Blank(p) && p.mycanid != null
    modifies p`head, p`pos, p`chain
    ensures Untouched(p) && p.head == p && p.chain == [p] && p.Defs() == [p.def]
  {
    p.head, p.pos, p.chain := p, 0, [p];
    ZeroedIsUntouched(p);
  }

  /** Walk a chain to its last member. */
  method LastMember(h: CanBit) returns (last: CanBit)
    requires h.Linked()
    ensures |h.chain| > 0 && last == h.chain[|h.chain| - 1]
  {
    last := h;
    ghost var k := 0;
    h.NextMember(0);
    while last.next != null
      invariant k < |h.chain| && last == h.chain[k]
      invariant last.next == if k + 1 < |h.chain| then h.chain[k + 1] else null
      decreases |h.chain| - k
    {
      last, k := last.next, k + 1;
      h.NextMember(k);
    }
  }

  /** Linking a fresh member behind the last one extends the chain. */
  twostate lemma LinkExtends(h: CanBit, new cp: CanBit)
    requires old(h.Linked()) && |h.chain| == |old(h.chain)| + 1
    requires h.chain == old(h.chain) + [cp] && h.mycanid == old(h.mycanid)
    requires cp.head == h && cp.pos == |h.chain| - 1 && cp.mycanid == h.mycanid && cp.next == null
    requires forall q :: q in old(h.chain) ==> q.head == old(q.head) && q.pos == old(q.pos) && q.mycanid == old(q.mycanid)
    requires forall a :: 0 <= a < |h.chain| - 2 ==> h.chain[a].next == old(h.chain[a].next)
    requires h.chain[|h.chain| - 2].next == cp
    ensures h.Linked()
  {
    var c := old(h.chain);
    forall a | 0 <= a < |h.chain|
      ensures h.chain[a].PointsOn(h, a)
    {
      if a < |c| - 1 {
        assert old(c[a].PointsOn(h, a));
      }
    }
  }

  /** The `Multi entry` part of addProperty_dict: append a copy of `p` to the chain of `h`. */
  method AppendCopy(h: CanBit, p: CanBit)
    requires Untouched(h) && Blank(p) && p.mycanid == h.mycanid
    modifies h`chain, h.chain`next
    ensures Untouched(h) && |h.chain| == old(|h.chain|) + 1
    ensures h.chain[..old(|h.chain|)] == old(h.chain) && fresh(h.chain[old(|h.chain|)])
    ensures h.chain[old(|h.chain|)].mycanid == p.mycanid && h.chain[old(|h.chain|)].head == h
    ensures h.Defs() == old(h.Defs()) + [p.def]
    ensures p !in old(h.chain) && p != h && Blank(p)
  {
    hide Untouched, Blank, Zeroed, CanBit.Linked, DefsOf, ValuesOf;
    UntouchedIsZeroed(h);
    BlankIsUnlinked(p, h);
    var last := LastMember(h);
    h.Distinct();
    var cpEntry := new CanBit(p.def);
    cpEntry.mycanid := p.mycanid;
    cpEntry.head, cpEntry.pos := h, |h.chain|;
    BlankIsZeroed(p, cpEntry);
    last.next := cpEntry;
    h.chain := h.chain + [cpEntry];
    LinkExtends(h, cpEntry);
    ZeroedIsUntouched(h);
    assert h.Defs() == old(h.Defs()) + [p.def];
  }

  lemma BlankIsUnlinked(p: CanBit, h: CanBit)
    requires Blank(p) && h.Linked()
    ensures p !in h.chain && p != h && p.head == null
  {
    assert h.chain[0].head == h;
  }

  lemma BlankIsZeroed(p: CanBit, q: CanBit)
    requires Blank(p) && q.def == p.def && q.curValue == 0 && q.applyinfo == null
    ensures Zeroed(q)
  {
  }

  // ---------------------------------------------------------------------------------------
  // Compaction of one record
  // ---------------------------------------------------------------------------------------

  /** The first `|g|` slots head chains of `nodes` that hold the groups `g`. */
  ghost predicate Realises(info: CanidInfo, g: seq<seq<Definition>>)
    reads info`nodes, info.nodes
  {
    && info.HeadsUpTo(|g|)
    && forall j :: 0 <= j < |g| ==> Untouched(info.property[j]) && info.property[j].Defs() == g[j]
  }

  /** The slots from `i` on still hold the definitions `rest`, as the loader left them. */
  ghost predicate Pending(info: CanidInfo, i: nat, rest: seq<Definition>)
    reads info.property
  {
    && i + |rest| <= |info.property|
    && forall j :: i <= j < i + |rest| ==>
         Blank(info.property[j]) && info.property[j].mycanid == info && info.property[j].def == rest[j - i]
  }

  /** Struct assignment between slots. */
  method CopyContents(p: CanBit, q: CanBit)
    requires Blank(p) && Blank(q) && p.mycanid == q.mycanid
    modifies p`def, p`mycanid, p`next, p`applyinfo, p`updatetime, p`curValue
    ensures Blank(p) && p.mycanid == q.mycanid && p.def == q.def
  {
    p.def, p.mycanid, p.next, p.applyinfo := q.def, q.mycanid, q.next, q.applyinfo;
    p.updatetime, p.curValue := q.updatetime, q.curValue;
  }

  /** The memmove of addCANID_dict: slot `i` is squeezed out of the first `maxEntry` slots.  Contents
      move, slots do not. */
  method SqueezeOut(info: CanidInfo, i: nat, maxEntry: nat, ghost rest: seq<Definition>)
    requires i < maxEntry == i + |rest| && Pending(info, i, rest) && info.DistinctSlots()
    modifies info.property
    ensures Pending(info, i, rest[1..])
    ensures forall k :: 0 <= k < |info.property| && !(i <= k < maxEntry) ==> Same(info.property[k])
  {
    hide Blank;
    var j := i;
    while j < maxEntry - 1
      invariant i <= j < maxEntry
      invariant forall k :: i <= k < maxEntry ==> Blank(info.property[k]) && info.property[k].mycanid == info
      invariant forall k :: i <= k < j ==> info.property[k].def == rest[k - i + 1]
      invariant forall k :: j <= k < maxEntry ==> info.property[k].def == rest[k - i]
      invariant forall k :: 0 <= k < |info.property| && !(i <= k < maxEntry) ==> Same(info.property[k])
    {
      CopyContents(info.property[j], info.property[j + 1]);
      j := j + 1;
    }
  }

  /** What a realised record says about head `j`. */
  lemma RealisesHead(info: CanidInfo, g: seq<seq<Definition>>, j: nat)
    requires Realises(info, g) && j < |g|
    ensures var h := info.property[j];
            && Untouched(h) && h.Defs() == g[j] && h in info.nodes && h.mycanid == info && h.head == h
            && |g[j]| > 0 && h.def == g[j][0]
            && forall q :: q in h.chain ==> q in info.nodes && q.head == h
  {
    assert info.property[j].Chained();
  }

  /** A chain none of whose members was touched is what it was. */
  twostate lemma ChainKept(h: CanBit)
    requires old(Untouched(h)) && Same(h) && forall q :: q in old(h.chain) ==> Same(q)
    ensures Untouched(h) && h.Defs() == old(h.Defs())
  {
    assert forall a :: 0 <= a < |h.chain| ==> h.chain[a] in old(h.chain);
    assert h.Defs() == old(h.Defs());
    assert forall a :: 0 <= a < |h.chain| ==> old(h.chain[a].PointsOn(h, a));
    assert forall a :: 0 <= a < |h.chain| ==> old(h.chain[a].Sound());
    assert h.Linked();
  }

  /** Slot `p` has become a head of its own; no other member of the record changed. */
  twostate predicate Started(info: CanidInfo, new p: CanBit)
    reads info`nodes, info.nodes, p, p.chain
  {
    && Untouched(p) && p.chain == [p] && p.Defs() == [p.def] && p.mycanid == info && p.head == p
    && info.nodes == old(info.nodes) + {p}
    && forall q :: q in old(info.nodes) ==> Same(q)
  }

  /** The chain of `h` has got one more member `cp`, defined by `d`; no other chain changed. */
  twostate predicate Joined(info: CanidInfo, h: CanBit, new d: Definition, new cp: CanBit)
    reads info`nodes, info.nodes, h, h.chain, cp
  {
    && Untouched(h) && h.chain == old(h.chain) + [cp] && h.Defs() == old(h.Defs()) + [d] && h.mycanid == info && h.head == h
    && cp.mycanid == info && cp.head == h
    && info.nodes == old(info.nodes) + {cp}
    && (forall q :: q in old(info.nodes) && q != h && q !in old(h.chain) ==> Same(q))
    && forall q :: q in old(info.nodes) ==> q.mycanid == old(q.mycanid) && q.head == old(q.head)
  }

  /** The slot behind the heads has become a head of its own. */
  twostate lemma RealisesOneMore(info: CanidInfo, new g: seq<seq<Definition>>)
    requires |g| < |info.property| && info.DistinctSlots()
    requires old(Realises(info, g)) && Started(info, info.property[|g|])
    ensures Realises(info, g + [[info.property[|g|].def]])
  {
    hide Untouched, DefsOf, ValuesOf;
    forall j: nat | j < |g|
      ensures Untouched(info.property[j]) && info.property[j].Defs() == g[j]
      ensures info.property[j] in info.nodes && forall q :: q in info.property[j].chain ==> q in info.nodes
    {
      assert old(info.property[j] in info.nodes);
      ChainKept(info.property[j]);
    }
    UntouchedHeads(info, g + [[info.property[|g|].def]]);
  }

  lemma UntouchedHeads(info: CanidInfo, g: seq<seq<Definition>>)
    requires |g| <= |info.property| && forall q :: q in info.nodes ==> q.mycanid == info && q.head != null
    requires forall j :: 0 <= j < |g| ==>
               && info.property[j] in info.nodes
               && (forall q :: q in info.property[j].chain ==> q in info.nodes)
               && Untouched(info.property[j]) && info.property[j].Defs() == g[j]
    ensures Realises(info, g)
  {
  }

  /** The chain of head `k` has got one member more, `cp`. */
  twostate lemma RealisesLonger(info: CanidInfo, new g: seq<seq<Definition>>, new k: nat, new d: Definition, new cp: CanBit)
    requires k < |g| <= |info.property| && info.DistinctSlots()
    requires old(Realises(info, g)) && Joined(info, info.property[k], d, cp)
    ensures Realises(info, g[k := g[k] + [d]])
  {
    hide Untouched, DefsOf, ValuesOf;
    var h := info.property[k];
    assert old(h.Chained());
    forall j: nat | j < |g|
      ensures Untouched(info.property[j]) && info.property[j].Defs() == g[k := g[k] + [d]][j]
      ensures info.property[j] in info.nodes && forall q :: q in info.property[j].chain ==> q in info.nodes
    {
      assert old(info.property[j] in info.nodes);
      if j != k {
        var o := info.property[j];
        assert old(o.Chained());
        assert forall q :: q in old(o.chain) ==> old(q.head) == o;
        assert forall q :: q in old(h.chain) ==> old(q.head) == h;
        ChainKept(o);
      }
    }
    UntouchedHeads(info, g[k := g[k] + [d]]);
  }

  twostate lemma PendingKept(info: CanidInfo, new i: nat, new rest: seq<Definition>)
    requires |rest| > 0 && old(Pending(info, i, rest))
    requires forall j :: i < j < i + |rest| ==> Same(info.property[j])
    ensures Pending(info, i + 1, rest[1..])
  {
    assert forall j :: i < j < i + |rest| ==> old(Blank(info.property[j]));
  }

  lemma PendingSlots(info: CanidInfo, i: nat, rest: seq<Definition>)
    requires Pending(info, i, rest) && rest != []
    ensures i + |rest| <= |info.property| && Blank(info.property[i])
    ensures info.property[i].def == rest[0] && info.property[i].mycanid == info
    ensures forall j :: i <= j < i + |rest| ==> info.property[j].head == null
  {
  }

  lemma RealisedNodes(info: CanidInfo, g: seq<seq<Definition>>)
    requires Realises(info, g)
    ensures |g| <= |info.property| && forall q :: q in info.nodes ==> q.mycanid == info && q.head != null
  {
  }

  twostate lemma PendingSame(info: CanidInfo, new i: nat, new rest: seq<Definition>)
    requires old(Pending(info, i, rest)) && forall j :: i <= j < i + |rest| ==> Same(info.property[j])
    ensures Pending(info, i, rest)
  {
    assert forall j :: i <= j < i + |rest| ==> old(Blank(info.property[j]));
  }

  twostate lemma RealisesSame(info: CanidInfo, new g: seq<seq<Definition>>)
    requires old(Realises(info, g)) && info.nodes == old(info.nodes) && forall q :: q in info.nodes ==> Same(q)
    ensures Realises(info, g)
  {
    hide Untouched, DefsOf, ValuesOf;
    forall j: nat | j < |g|
      ensures Untouched(info.property[j]) && info.property[j].Defs() == g[j]
      ensures info.property[j] in info.nodes && forall q :: q in info.property[j].chain ==> q in info.nodes
    {
      assert old(info.property[j] in info.nodes);
      ChainKept(info.property[j]);
    }
    UntouchedHeads(info, g);
  }

  /** Squeezing out a slot does not reach the heads or their chains. */
  method SqueezeBehind(info: CanidInfo, i: nat, maxEntry: nat, ghost g: seq<seq<Definition>>, ghost rest: seq<Definition>)
    requires Realises(info, g) && Pending(info, i, rest) && info.DistinctSlots() && i < maxEntry == i + |rest|
    modifies info.property
    ensures Realises(info, g) && Pending(info, i, rest[1..])
  {
    hide Realises, Pending;
    RealisedNodes(info, g);
    PendingSlots(info, i, rest);
    assert forall k :: i <= k < maxEntry ==> info.property[k] !in info.nodes;
    SqueezeOut(info, i, maxEntry, rest);
    RealisesSame(info, g);
  }

  /** The entries of `before` are kept in `index`, and every other name leads to the slot of its group. */
  ghost predicate Indexes(index: map<string, CanBit>, before: map<string, CanBit>, slots: seq<CanBit>,
                          g: seq<seq<Definition>>)
  {
    && |g| <= |slots| && Nonempty(g)
    && (forall n :: n in before ==> n in index && index[n] == before[n])
    && (forall n :: n in index && n !in before ==> Find(g, n) < |g|)
    && (forall j :: 0 <= j < |g| ==> g[j][0].name in index)
    && (forall j :: 0 <= j < |g| && g[j][0].name !in before ==> index[g[j][0].name] == slots[j])
  }

  lemma IndexedHead(index: map<string, CanBit>, before: map<string, CanBit>, slots: seq<CanBit>,
                    g: seq<seq<Definition>>, name: string)
    requires Indexes(index, before, slots, g)
    ensures Nonempty(g) && |g| <= |slots|
    ensures name in before ==> name in index && index[name] == before[name]
    ensures name in index && name !in before ==> Find(g, name) < |g| && index[name] == slots[Find(g, name)]
    ensures name !in index ==> name !in before && Find(g, name) == |g|
  {
  }

  lemma IndexedSlot(index: map<string, CanBit>, before: map<string, CanBit>, slots: seq<CanBit>,
                    g: seq<seq<Definition>>, j: nat)
    requires Indexes(index, before, slots, g) && j < |g|
    ensures |g[j]| > 0 && |g| <= |slots|
    ensures g[j][0].name !in before ==> g[j][0].name in index && index[g[j][0].name] == slots[j]
    ensures forall n :: n in before ==> n in index && index[n] == before[n]
  {
  }

  /** What addProperty_dict does to the index is what AddTo does to the groups. */
  lemma IndexesAfter(index: map<string, CanBit>, index': map<string, CanBit>, before: map<string, CanBit>,
                     slots: seq<CanBit>, g: seq<seq<Definition>>, d: Definition)
    requires Indexes(index, before, slots, g) && |g| < |slots|
    requires index' == if d.name in index then index else index[d.name := slots[|g|]]
    ensures Nonempty(g)
    ensures AddTo(g, d, before.Keys) ==
            if d.name in index && d.name !in before then g[Find(g, d.name) := g[Find(g, d.name)] + [d]] else g + [[d]]
    ensures Indexes(index', before, slots, AddTo(g, d, before.Keys))
  {
    IndexedHead(index, before, slots, g, d.name);
    var k := Find(g, d.name);
    if d.name in index && d.name !in before {
      IndexesLonger(index, before, slots, g, k, d);
    } else {
      IndexesOneMore(index, before, slots, g, d);
    }
  }

  lemma IndexesLonger(index: map<string, CanBit>, before: map<string, CanBit>, slots: seq<CanBit>,
                      g: seq<seq<Definition>>, k: nat, d: Definition)
    requires Indexes(index, before, slots, g) && k < |g|
    ensures Indexes(index, before, slots, g[k := g[k] + [d]])
  {
    hide Find;
    FindUpdated(g, k, d);
    assert forall j :: 0 <= j < |g| ==> g[k := g[k] + [d]][j][0] == g[j][0];
  }

  lemma IndexesOneMore(index: map<string, CanBit>, before: map<string, CanBit>, slots: seq<CanBit>,
                       g: seq<seq<Definition>>, d: Definition)
    requires Indexes(index, before, slots, g) && |g| < |slots|
    requires d.name in index ==> d.name in before
    ensures Indexes(if d.name in index then index else index[d.name := slots[|g|]], before, slots, g + [[d]])
  {
    hide Find;
    FindAppended(g, d);
  }

  lemma FindUpdated(g: seq<seq<Definition>>, k: nat, d: Definition)
    requires Nonempty(g) && k < |g|
    ensures Nonempty(g[k := g[k] + [d]])
    ensures forall n :: Find(g[k := g[k] + [d]], n) == Find(g, n)
  {
    var g' := g[k := g[k] + [d]];
    forall n
      ensures Find(g', n) == Find(g, n)
    {
      assert forall j :: 0 <= j < |g| ==> g'[j][0] == g[j][0];
    }
  }

  lemma FindAppended(g: seq<seq<Definition>>, d: Definition)
    requires Nonempty(g)
    ensures Nonempty(g + [[d]])
    ensures forall n :: Find(g, n) < |g| ==> Find(g + [[d]], n) < |g| + 1
    ensures Find(g + [[d]], d.name) < |g| + 1
  {
    var g': seq<seq<Definition>> := g + [[d]];
    forall n | Find(g, n) < |g|
      ensures Find(g', n) < |g'|
    {
      FindAny(g', n, Find(g, n));
    }
    FindAny(g', d.name, |g|);
  }

  // ---------------------------------------------------------------------------------------
  // The dictionaries
  // ---------------------------------------------------------------------------------------

  lemma IndexGrows(index: map<string, CanBit>, before: map<string, CanBit>, slots: seq<CanBit>, g: seq<seq<Definition>>)
    requires Indexes(index, before, slots, g)
    ensures forall n :: n in before ==> n in index
  {
  }

  /** The list of supported properties: every name once, and all names until the list is full. */
  ghost predicate Supports(support: seq<string>, index: map<string, CanBit>) {
    && |support| <= SUPPORT_PROPERTY_LIMIT
    && (forall i, j :: 0 <= i < j < |support| ==> support[i] != support[j])
    && (forall n :: n in support ==> n in index)
    && (|support| < SUPPORT_PROPERTY_LIMIT ==> forall n :: n in index ==> n in support)
  }

  class Dictionary {
    /** canid_root and property_root. */
    var canids: map<UInt32, CanidInfo>
    var properties: map<string, CanBit>
    /** The filled part of support_property_list. */
    var support: seq<string>

    constructor ()
      ensures Valid() && canids == map[] && properties == map[] && support == []
    {
      canids, properties, support := map[], map[], [];
    }

    /** addProperty_dict: index a new name, refuse a name of another CAN-ID, or extend the chain. */
    method AddProperty(canProperty: CanBit, ghost info: CanidInfo) returns (ret: int, ghost cp: CanBit)
      requires canProperty.mycanid == info && Blank(canProperty) && canProperty !in info.nodes
      requires canProperty.def.name in properties ==>
                 var h := properties[canProperty.def.name];
                 && h.mycanid != null
                 && (h.mycanid.canid == info.canid ==>
                       && h.mycanid == info && h.head == h && Untouched(h) && h in info.nodes
                       && forall q :: q in h.chain ==> q in info.nodes)
      modifies this`properties, this`support, info`nodes
      modifies canProperty`head, canProperty`pos, canProperty`chain
      modifies info.nodes`chain, info.nodes`next
      ensures var name := canProperty.def.name;
              if name !in old(properties) then
                && properties == old(properties)[name := canProperty]
                && support == old(support) + (if |old(support)| < SUPPORT_PROPERTY_LIMIT then [name] else [])
                && ret == (if |old(support)| < SUPPORT_PROPERTY_LIMIT then 0 else -1)
              else
                && properties == old(properties) && support == old(support)
                && ret == if properties[name].mycanid.canid != info.canid then -1 else 1
      ensures ret <= 0 ==> cp == canProperty && Started(info, canProperty)
      ensures info.nodes == old(info.nodes) + {cp} && (cp == canProperty || fresh(cp))
      ensures old(Supports(support, properties)) ==> Supports(support, properties)
      ensures ret > 0 ==>
                && fresh(cp) && Joined(info, properties[canProperty.def.name], canProperty.def, cp)
                && Same(canProperty)
    {
      hide Blank, Untouched, DefsOf, ValuesOf;
      cp := canProperty;
      var name := canProperty.def.name;
      if name !in properties {
        StartChain(canProperty);
        info.nodes := info.nodes + {canProperty};
        properties := properties[name := canProperty];
        if |support| >= SUPPORT_PROPERTY_LIMIT {
          return -1, cp;
        }
        support := support + [name];
        return 0, cp;
      }
      var v := properties[name];
      if canProperty.mycanid.canid != v.mycanid.canid {
        StartChain(canProperty);
        info.nodes := info.nodes + {canProperty};
        return -1, cp;
      }
      AppendCopy(v, canProperty);
      cp := v.chain[|v.chain| - 1];
      info.nodes := info.nodes + {cp};
      return 1, cp;
    }

    /** The state of the loop of addCANID_dict: `g` done, `rest` to come. */
    ghost predicate Compacting(before: map<string, CanBit>, info: CanidInfo, g: seq<seq<Definition>>, rest: seq<Definition>)
      reads this`properties, info`nodes, info.nodes, info.property
    {
      && info.DistinctSlots() && |g| + |rest| <= |info.property|
      && Realises(info, g) && Pending(info, |g|, rest) && Indexes(properties, before, info.property, g)
    }

    /** One round of the loop of addCANID_dict. */
    method AddSlot(info: CanidInfo, i: nat, maxEntry: nat,
                   ghost before: map<string, CanBit>, ghost g: seq<seq<Definition>>, ghost rest: seq<Definition>)
      returns (i': nat, maxEntry': nat, ghost g': seq<seq<Definition>>)
      requires Compacting(before, info, g, rest) && rest != [] && i == |g| && maxEntry == i + |rest|
      requires forall n :: n in before ==> before[n].mycanid != null && before[n].mycanid.canid != info.canid
      requires Supports(support, properties)
      modifies this`properties, this`support, info`nodes, info.property, info.nodes
      ensures Nonempty(g) && g' == AddTo(g, rest[0], before.Keys)
      ensures i' == |g'| && maxEntry' == i' + |rest| - 1
      ensures Compacting(before, info, g', rest[1..])
      ensures Supports(support, properties)
      ensures support ==
              if rest[0].name in before || Find(g, rest[0].name) < |g| then old(support)
              else Appended(old(support), rest[0].name)
      ensures forall q :: q in info.nodes ==> q in old(info.nodes) || q in info.property || fresh(q)
    {
      hide Realises, Pending, Indexes, Untouched, Blank, AddTo, Find, Supports, DefsOf, ValuesOf, Started, Joined;
      var p := info.property[i];
      ghost var d := rest[0];
      PendingSlots(info, i, rest);
      RealisedNodes(info, g);
      IndexedHead(properties, before, info.property, g, d.name);
      ghost var k := Find(g, d.name);
      g' := AddTo(g, d, before.Keys);
      if k < |g| {
        RealisesHead(info, g, k);
      }
      var ret, cp := AddProperty(p, info);
      IndexesAfter(old(properties), properties, before, info.property, g, d);
      if ret > 0 {
        RealisesLonger(info, g, k, d, cp);
        PendingSame(info, i, rest);
        SqueezeBehind(info, i, maxEntry, g', rest);
        i', maxEntry' := i, maxEntry - 1;
      } else {
        RealisesOneMore(info, g);
        PendingKept(info, i, rest);
        i', maxEntry' := i + 1, maxEntry;
      }
    }

    ghost function AllNodes(): set<CanBit>
      reads this`canids, canids.Values
    {
      set r, q | r in canids.Values && q in r.nodes :: q
    }

    /** Two-index agreement: the name is found at a live slot of its record, and the record is the
        one its CAN-ID leads to. */
    ghost predicate Agrees(name: string)
      requires name in properties
      reads this, properties.Values, canids.Values
    {
      var p := properties[name];
      && p.def.name == name && p.mycanid != null
      && p.mycanid.canid in canids && canids[p.mycanid.canid] == p.mycanid
      && exists i :: 0 <= i < p.mycanid.nData && i < |p.mycanid.property| && p.mycanid.property[i] == p
    }

    /** The live slots of a record are indexed under their names, perhaps for another CAN-ID, and a
        chain has one name. */
    ghost predicate Listed(r: CanidInfo)
      reads this`properties, r`nodes, r`nData, r.nodes
    {
      && r.Ready()
      && forall i :: 0 <= i < r.nData ==>
           && r.property[i].def.name in properties
           && forall q :: q in r.property[i].chain ==> q.def.name == r.property[i].def.name
    }

    /** A live slot whose name belongs to this record is the one the index leads to. */
    ghost predicate OwnsSlots(r: CanidInfo)
      reads this`properties, r`nData, r`nodes, r.nodes, properties.Values`mycanid
    {
      forall i :: 0 <= i < r.nData && i < |r.property| && r.property[i] in r.nodes ==>
        var n := r.property[i].def.name;
        n in properties && properties[n].mycanid == r ==> properties[n] == r.property[i]
    }

    ghost predicate Valid()
      reads this, canids.Values, AllNodes(), properties.Values
    {
      && (forall id :: id in canids ==> canids[id].canid == id && canids[id].nodes <= AllNodes() && Listed(canids[id]))
      && (forall n :: n in properties ==> Agrees(n))
      && (forall id :: id in canids ==> OwnsSlots(canids[id]))
      && OwnFrames()
      && Supports(support, properties)
    }

    /** Each record has a frame buffer of its own. */
    ghost predicate OwnFrames()
      reads this`canids
    {
      forall a, b :: a in canids && b in canids && canids[a].data == canids[b].data ==> a == b
    }

    /** A record as the loader hands it over, holding the definitions `defs`. */
    ghost predicate Loaded(info: CanidInfo, defs: seq<Definition>)
      reads info, info.property
    {
      && info.DistinctSlots() && info.data.Length == 8 && info.nodes == {}
      && info.nData == |defs| == |info.property| && Pending(info, 0, defs)
    }

    twostate predicate SameRecord(r: CanidInfo)
      reads r
    {
      r.frameId == old(r.frameId) && r.frameDlc == old(r.frameDlc) && r.nData == old(r.nData) && r.nodes == old(r.nodes)
    }

    twostate lemma RecordKept(r: CanidInfo)
      requires old(Listed(r)) && SameRecord(r) && forall q :: q in old(r.nodes) ==> Same(q)
      requires forall n :: n in old(properties) ==> n in properties
      ensures Listed(r)
    {
      forall i | 0 <= i < r.nData
        ensures r.property[i].Chained()
      {
        var h := r.property[i];
        assert old(h.Chained());
        assert forall a :: 0 <= a < |h.chain| ==> h.chain[a] in old(r.nodes);
        assert forall a :: 0 <= a < |h.chain| ==> old(h.chain[a].PointsOn(h, a));
        assert forall a :: 0 <= a < |h.chain| ==> old(h.chain[a].Sound());
        assert h.Linked();
      }
    }

    lemma RealisedIsListed(info: CanidInfo, before: map<string, CanBit>, g: seq<seq<Definition>>)
      requires Realises(info, g) && info.nData == |g| && info.DistinctSlots() && info.data.Length == 8
      requires Indexes(properties, before, info.property, g) && SameNames(g)
      ensures Listed(info)
    {
      forall i: nat | i < |g|
        ensures info.property[i].def.name in properties
        ensures forall q :: q in info.property[i].chain ==> q.def.name == info.property[i].def.name
      {
        RealisesHead(info, g, i);
        var h := info.property[i];
        assert h.chain[0] == h && h.Defs() == g[i];
        forall a | 0 <= a < |h.chain|
          ensures h.chain[a].def.name == h.def.name
        {
          assert g[i][a].name == g[i][0].name;
        }
      }
    }

    /** `info`, holding the groups `g`, has been added; nothing else has changed. */
    twostate predicate Added(info: CanidInfo, new g: seq<seq<Definition>>)
      reads *
    {
      && info.canid !in old(canids) && canids == old(canids)[info.canid := info]
      && (forall r :: r in old(canids.Values) ==> SameRecord(r) && forall q :: q in old(r.nodes) ==> Same(q))
      && (forall r :: r in old(canids.Values) ==> r.data != info.data)
      && Realises(info, g) && info.nData == |g| && info.DistinctSlots() && info.data.Length == 8 && SameNames(g)
      && Indexes(properties, old(properties), info.property, g) && Supports(support, properties)
    }

    twostate lemma AddedRecords(info: CanidInfo, new g: seq<seq<Definition>>, new id: UInt32)
      requires old(Valid()) && Added(info, g) && id in canids
      ensures canids[id].canid == id && canids[id].nodes <= AllNodes() && Listed(canids[id])
    {
      hide Realises, Supports, Indexes, SameNames, Listed;
      if id == info.canid {
        RealisedIsListed(info, old(properties), g);
      } else {
        assert old(Listed(canids[id])) && canids[id] in old(canids.Values);
        IndexGrows(properties, old(properties), info.property, g);
        RecordKept(canids[id]);
      }
    }

    twostate lemma SlotIsNode(r: CanidInfo, new i: int)
      requires old(Listed(r)) && 0 <= i < old(r.nData)
      ensures i < |r.property| && r.property[i] in old(r.nodes)
    {
    }

    /** What was agreed on before still is. */
    twostate lemma StillAgrees(new n: string)
      requires old(Valid()) && n in old(properties) && n in properties && properties[n] == old(properties[n])
      requires forall id :: id in old(canids) ==> id in canids && canids[id] == old(canids[id])
      requires forall r :: r in old(canids.Values) ==> SameRecord(r) && forall q :: q in old(r.nodes) ==> Same(q)
      ensures Agrees(n)
    {
      hide Listed;
      assert old(Agrees(n));
      var p := properties[n];
      var r := old(p.mycanid);
      assert r in old(canids.Values) && SameRecord(r);
      var i :| 0 <= i < old(r.nData) && i < |r.property| && r.property[i] == p;
      assert p in old(r.nodes) by {
        SlotIsNode(r, i);
      }
      assert Same(p);
    }

    twostate lemma AddedNames(info: CanidInfo, new g: seq<seq<Definition>>, new n: string)
      requires old(Valid()) && Added(info, g) && n in properties
      ensures Agrees(n)
    {
      hide Realises, Supports, Indexes, SameNames, Find, Untouched, Valid, Listed;
      IndexedHead(properties, old(properties), info.property, g, n);
      if n in old(properties) {
        StillAgrees(n);
      } else {
        RealisesHead(info, g, Find(g, n));
      }
    }

    twostate lemma AddedSlots(info: CanidInfo, new g: seq<seq<Definition>>, new id: UInt32)
      requires old(Valid()) && Added(info, g) && id in canids
      ensures OwnsSlots(canids[id])
    {
      hide Realises, Supports, SameNames, Find, Untouched, Listed, Agrees, Indexes;
      var r := canids[id];
      forall i: nat | i < r.nData && i < |r.property| && r.property[i] in r.nodes && r.property[i].def.name in properties
                      && properties[r.property[i].def.name].mycanid == r
        ensures properties[r.property[i].def.name] == r.property[i]
      {
        var n := r.property[i].def.name;
        if id == info.canid {
          RealisesHead(info, g, i);
          IndexedSlot(properties, old(properties), info.property, g, i);
          if n in old(properties) {
            OwnerKept(n);
            OldOwner(n);
          }
        } else {
          assert r in old(canids.Values) && SameRecord(r);
          SlotKept(r, i);
          IndexedHead(properties, old(properties), info.property, g, n);
          OwnerKept(n);
          assert old(OwnsSlots(r));
          assert old(r.property[i] in r.nodes);
        }
      }
    }

    twostate lemma SlotKept(r: CanidInfo, new i: nat)
      requires old(Valid()) && r in old(canids.Values) && i < old(r.nData) && i < |r.property|
      requires SameRecord(r) && forall q :: q in old(r.nodes) ==> Same(q)
      ensures Same(r.property[i]) && old(r.property[i].def.name) in old(properties)
    {
      hide Agrees, OwnsSlots, OwnFrames, Supports;
      assert old(Listed(r));
    }

    twostate lemma OldOwner(new n: string)
      requires old(Valid()) && n in old(properties)
      ensures old(properties[n].mycanid) in old(canids.Values)
    {
      hide Listed, OwnsSlots, OwnFrames, Supports;
      assert old(Agrees(n));
    }

    /** An index entry still has its CAN-ID. */
    twostate lemma OwnerKept(new n: string)
      requires old(Valid()) && n in old(properties) && n in properties && properties[n] == old(properties[n])
      requires forall r :: r in old(canids.Values) ==> SameRecord(r) && forall q :: q in old(r.nodes) ==> Same(q)
      ensures properties[n].mycanid == old(properties[n].mycanid)
    {
      hide Listed, OwnsSlots, OwnFrames, Supports;
      assert old(Agrees(n));
      var p := properties[n];
      var r := old(p.mycanid);
      var i :| 0 <= i < old(r.nData) && i < |r.property| && r.property[i] == p;
      SlotIsNode(r, i);
    }

    /** A compacted record extends valid dictionaries. */
    twostate lemma AddKeepsValid(info: CanidInfo, new g: seq<seq<Definition>>)
      requires old(Valid()) && Added(info, g)
      ensures Valid()
    {
      hide Listed, Agrees, OwnsSlots, Realises, Indexes, SameNames;
      forall id | id in canids
        ensures canids[id].canid == id && canids[id].nodes <= AllNodes() && Listed(canids[id])
      {
        AddedRecords(info, g, id);
      }
      forall n | n in properties
        ensures Agrees(n)
      {
        AddedNames(info, g, n);
      }
      forall id | id in canids
        ensures OwnsSlots(canids[id])
      {
        AddedSlots(info, g, id);
      }
      assert OwnFrames() by {
        assert old(OwnFrames());
        assert forall a :: a in canids && a != info.canid ==> canids[a] in old(canids.Values);
      }
    }

    /** Nothing of the dictionaries is among the slots of a loaded record. */
    lemma LoadedIsApart(info: CanidInfo, defs: seq<Definition>)
      requires Valid() && info !in canids.Values && Loaded(info, defs)
      ensures forall r, q :: r in canids.Values && q in r.nodes ==> q !in info.property
    {
      forall r, q | r in canids.Values && q in r.nodes
        ensures q !in info.property
      {
        assert Listed(r);
        assert q.head != null;
      }
    }

    lemma NamesAreForeign(info: CanidInfo, defs: seq<Definition>)
      requires Valid() && info !in canids.Values && Loaded(info, defs)
      ensures forall n :: n in properties ==>
                && properties[n] !in info.property && properties[n].mycanid != null
                && (info.canid !in canids ==> properties[n].mycanid.canid != info.canid)
    {
      forall n | n in properties
        ensures properties[n] !in info.property && properties[n].mycanid != null
        ensures info.canid !in canids ==> properties[n].mycanid.canid != info.canid
      {
        assert Agrees(n);
        assert properties[n].mycanid != info;
      }
    }

    lemma CompactingStarts(info: CanidInfo, defs: seq<Definition>)
      requires Loaded(info, defs)
      ensures Compacting(properties, info, [], defs)
    {
    }

    /** The loop of addCANID_dict. */
    method Compact(info: CanidInfo, ghost defs: seq<Definition>) returns (maxEntry: nat, ghost g: seq<seq<Definition>>)
      requires Compacting(properties, info, [], defs) && info.nData == |defs| && info.nodes == {}
      requires forall n :: n in properties ==>
                 properties[n] !in info.property && properties[n].mycanid != null && properties[n].mycanid.canid != info.canid
      requires Supports(support, properties)
      modifies this`properties, this`support, info`nodes, info.property
      ensures g == Group(defs, old(properties).Keys) && maxEntry == |g|
      ensures Compacting(old(properties), info, g, []) && Supports(support, properties)
      ensures forall q :: q in info.nodes ==> q in info.property || fresh(q)
      ensures support == Extend(old(support), old(properties).Keys, NamesOf(defs))
    {
      hide Realises, Pending, Indexes, Supports, AddTo, Extend, Appended, NamesOf, Find;
      ghost var before, k := properties, 0;
      g := [];
      var i;
      i, maxEntry := 0, info.nData;
      assert Group(defs[..0], before.Keys) == [] && defs[0..] == defs;
      ExtendNone(support, before.Keys, defs);
      while i < maxEntry
        invariant k <= |defs| && i == |g| <= maxEntry && maxEntry - i == |defs| - k
        invariant g == Group(defs[..k], before.Keys)
        invariant Compacting(before, info, g, defs[k..])
        invariant forall q :: q in info.nodes ==> q in info.property || fresh(q)
        invariant forall n :: n in before ==> before[n].mycanid != null && before[n].mycanid.canid != info.canid
        invariant Supports(support, properties) && support == Extend(old(support), before.Keys, NamesOf(defs[..k]))
        decreases maxEntry - i
      {
        GroupNames(defs[..k], before.Keys, defs[k].name);
        ExtendNext(old(support), before.Keys, defs, k);
        i, maxEntry, g := AddSlot(info, i, maxEntry, before, g, defs[k..]);
        assert defs[..k + 1][..k] == defs[..k];
        k := k + 1;
      }
      assert defs[..k] == defs && defs[k..] == [];
    }

    /** addCANID_dict */
    method AddCanid(info: CanidInfo, ghost defs: seq<Definition>) returns (ret: int)
      requires Valid() && info !in canids.Values && Loaded(info, defs)
      requires forall r :: r in canids.Values ==> r.data != info.data
      modifies this, info`nData, info`nodes, info.property
      ensures Valid()
      ensures info.canid in old(canids) ==>
                ret == -1 && canids == old(canids) && properties == old(properties) && support == old(support)
      ensures info.canid !in old(canids) ==>
                var g := Group(defs, old(properties).Keys);
                && ret == 0 && canids == old(canids)[info.canid := info]
                && info.nData == |g| && Realises(info, g)
                && Indexes(properties, old(properties), info.property, g)
                && support == Extend(old(support), old(properties).Keys, NamesOf(defs))
    {
      hide Valid, Realises, Pending, Indexes, Supports, SameNames, AddTo, Extend, Appended, NamesOf, Find;
      if info.canid in canids {
        return -1;
      }
      LoadedIsApart(info, defs);
      NamesAreForeign(info, defs);
      CompactingStarts(info, defs);
      assert Supports(support, properties) by { ValidSupports(); }
      canids := canids[info.canid := info];
      ghost var g;
      var maxEntry;
      maxEntry, g := Compact(info, defs);
      info.nData := maxEntry;
      GroupHasSameNames(defs, old(properties).Keys);
      forall r | r in old(canids.Values)
        ensures SameRecord(r) && forall q :: q in old(r.nodes) ==> Same(q)
      {
        assert r != info && forall q :: q in old(r.nodes) ==> q !in info.property;
      }
      AddKeepsValid(info, g);
      return 0;
    }

    /** The record of a CAN-ID, if it is defined, its members and its frame buffer. */
    ghost function RecordOf(id: UInt32): set<CanidInfo>
      reads this`canids
    {
      if id in canids then {canids[id]} else {}
    }

    ghost function NodesOf(id: UInt32): set<CanBit>
      reads this`canids, RecordOf(id)`nodes
    {
      if id in canids then canids[id].nodes else {}
    }

    ghost function NodesByName(name: string): set<CanBit>
      reads this`properties, properties.Values`mycanid, this`canids, canids.Values`nodes
    {
      if name in properties && properties[name].mycanid != null && properties[name].mycanid in canids.Values
      then properties[name].mycanid.nodes else {}
    }

    ghost function DataByName(name: string): set<array<Byte>>
      reads this`properties, properties.Values`mycanid
    {
      if name in properties && properties[name].mycanid != null then {properties[name].mycanid.data} else {}
    }

    ghost function DataOf(id: UInt32): set<array<Byte>>
      reads this`canids
    {
      if id in canids then {canids[id].data} else {}
    }

    /** Record `info` has been decoded into, or its frame overwritten; nothing else has changed. */
    twostate predicate Decoded(info: CanidInfo)
      reads *
    {
      && canids == old(canids) && properties == old(properties) && support == old(support)
      && info in canids.Values && info.Ready() && info.nodes == old(info.nodes) && info.nData == old(info.nData)
      && (forall q :: q in info.nodes ==> q.def == old(q.def) && q.mycanid == old(q.mycanid) && q.chain == old(q.chain))
      && (forall r :: r in canids.Values && r != info ==> SameRecord(r) && forall q :: q in old(r.nodes) ==> Same(q))
    }

    twostate lemma DecodedListed(info: CanidInfo, new r: CanidInfo)
      requires old(Valid()) && Decoded(info) && r in canids.Values
      ensures Listed(r) && r.nodes == old(r.nodes) && r.nData == old(r.nData)
      ensures forall q :: q in r.nodes ==> q.def == old(q.def) && q.mycanid == old(q.mycanid)
    {
      hide CanBit.Chained, Supports, OwnFrames, Agrees, OwnsSlots;
      assert old(Listed(r));
      if r == info {
        forall i | 0 <= i < r.nData
          ensures r.property[i].def.name in properties
          ensures forall q :: q in r.property[i].chain ==> q.def.name == r.property[i].def.name
        {
          assert old(r.property[i] in r.nodes);
        }
      } else {
        RecordKept(r);
      }
    }

    twostate lemma DecodedNames(info: CanidInfo, new n: string)
      requires old(Valid()) && Decoded(info) && n in properties
      ensures Agrees(n) && properties[n].mycanid == old(properties[n].mycanid)
    {
      hide Listed, Supports, OwnFrames, OwnsSlots;
      assert old(Agrees(n));
      var p := properties[n];
      var r := old(p.mycanid);
      var i :| 0 <= i < old(r.nData) && i < |r.property| && r.property[i] == p;
      SlotIsNode(r, i);
      DecodedListed(info, r);
    }

    twostate lemma DecodedSlots(info: CanidInfo, new r: CanidInfo)
      requires old(Valid()) && Decoded(info) && r in canids.Values
      ensures OwnsSlots(r)
    {
      hide Listed, Agrees, Supports, OwnFrames;
      assert old(OwnsSlots(r));
      DecodedListed(info, r);
      forall i | 0 <= i < r.nData && i < |r.property| && r.property[i] in r.nodes && r.property[i].def.name in properties
        ensures properties[r.property[i].def.name].mycanid == old(properties[r.property[i].def.name].mycanid)
      {
        DecodedNames(info, r.property[i].def.name);
      }
    }

    /** Decoding into one ready record, and overwriting its frame, keeps the dictionaries valid. */
    twostate lemma ValuesKeepValid(info: CanidInfo)
      requires old(Valid()) && Decoded(info)
      ensures Valid()
    {
      hide Listed, Agrees, Supports, OwnFrames, OwnsSlots;
      forall id | id in canids
        ensures canids[id].canid == id && canids[id].nodes <= AllNodes() && Listed(canids[id])
        ensures OwnsSlots(canids[id])
      {
        DecodedListed(info, canids[id]);
        DecodedSlots(info, canids[id]);
      }
      forall n | n in properties
        ensures Agrees(n)
      {
        DecodedNames(info, n);
      }
    }

    /** Whatever happens elsewhere, untouched dictionaries stay valid. */
    twostate lemma StaysValid()
      requires old(Valid()) && canids == old(canids) && properties == old(properties) && support == old(support)
      requires forall r :: r in canids.Values ==> SameRecord(r) && forall q :: q in old(r.nodes) ==> Same(q)
      ensures Valid()
    {
      hide Listed, Agrees, Supports, OwnFrames, OwnsSlots;
      if r :| r in canids.Values {
        assert old(Listed(r));
        RecordKept(r);
        ListedIsReady(r);
        ValuesKeepValid(r);
      } else {
        NoNames();
      }
    }

    /** Without records there are no names. */
    twostate lemma NoNames()
      requires old(Valid()) && old(canids) == map[]
      ensures old(properties) == map[]
    {
      hide Valid;
      forall n | n in old(properties)
        ensures old(properties[n].mycanid) in old(canids.Values)
      {
        OldOwner(n);
      }
    }

    lemma ListedIsReady(r: CanidInfo)
      requires Listed(r)
      ensures r.Ready()
    {
    }

    /** getCANID_dict */
    function GetCanid(canid: UInt32): (info: CanidInfo?)
      reads this`canids
      ensures info != null <==> canid in canids
      ensures info != null ==> info == canids[canid]
    {
      if canid in canids then canids[canid] else null
    }

    /** Where the property of a name lives. */
    lemma SlotOf(name: string) returns (i: nat)
      requires Valid() && name in properties
      ensures var p := properties[name];
              && p.def.name == name && p.mycanid != null && p.mycanid.canid in canids && canids[p.mycanid.canid] == p.mycanid
              && i < p.mycanid.nData && i < |p.mycanid.property| && p.mycanid.property[i] == p
    {
      hide Listed, OwnFrames, Supports;
      assert Agrees(name);
      var p := properties[name];
      i :| 0 <= i < p.mycanid.nData && i < |p.mycanid.property| && p.mycanid.property[i] == p;
    }

    /** A live slot is the one its name leads to if and only if its CAN-ID owns the name. */
    lemma SlotIsIndexedIff(info: CanidInfo, i: nat)
      requires Valid() && info in canids.Values && i < info.nData && i < |info.property|
      ensures info.property[i].def.name in properties && properties[info.property[i].def.name].mycanid != null
      ensures properties[info.property[i].def.name] == info.property[i] <==>
              properties[info.property[i].def.name].mycanid.canid == info.canid
    {
      hide OwnFrames, Supports;
      var id :| id in canids && canids[id] == info;
      assert Listed(info) && OwnsSlots(info);
      assert Agrees(info.property[i].def.name);
    }

    /** Records share no members and no frame buffer. */
    lemma RecordsApart(info: CanidInfo)
      requires Valid() && info in canids.Values
      ensures forall r, q :: r in canids.Values && r != info && q in r.nodes ==> q !in info.nodes
      ensures forall r :: r in canids.Values && r != info ==> r.data != info.data
    {
      assert OwnFrames();
      forall r, q | r in canids.Values && r != info && q in r.nodes
        ensures q !in info.nodes
      {
        assert Listed(r) && Listed(info);
      }
    }

    lemma ReadyRecord(id: UInt32)
      requires Valid() && id in canids
      ensures canids[id].Ready() && canids[id].data.Length == 8 && canids[id].canid == id
    {
      assert Listed(canids[id]);
    }

    /** The list of supported properties holds every indexed name if and only if they are at most 512. */
    lemma SupportIsCompleteIff()
      requires Valid()
      ensures Lists(support, properties.Keys)
      ensures NameSet(support) == properties.Keys <==> |properties| <= SUPPORT_PROPERTY_LIMIT
    {
      hide Listed, Agrees, OwnsSlots, OwnFrames;
      ListsAllIff(support, properties.Keys);
      assert |properties| == |properties.Keys|;
    }

    lemma ValidSupports()
      requires Valid()
      ensures Supports(support, properties)
    {
    }
  }
}
