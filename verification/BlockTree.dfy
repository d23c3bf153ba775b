/**
  Merging in a real block tree, where a block hash determines the parent: a merge never mixes two
  branches, with or without `prev_blockhash` data.
 */
module BlockTree {
  import opened Wrappers
  import opened CheckPoints
  import opened CheckPointUpdates
  import opened CheckPointEntries
  import opened ChangeSets
  import opened ChainMerge
  import opened MergeMeaning

  /** A path from the root: the hash at each height is the parent of the one above. */
  ghost predicate RootPath(parent: Hash -> Hash, path: seq<Hash>) {
    forall h :: 0 < h < |path| ==> parent(path[h]) == path[h - 1]
  }

  /** Every block that is held or implied lies on the path. */
  ghost predicate LiesOn(s: Slots, path: seq<Hash>) {
    forall h :: h in s ==> h < |path| && s[h].hash == path[h]
  }

  /** Two paths that share a block share all blocks below. */
  lemma {:induction false} PathsShareBelow(parent: Hash -> Hash, p: seq<Hash>, q: seq<Hash>, a: nat, h: nat)
    requires RootPath(parent, p) && RootPath(parent, q)
    requires h <= a < |p| && a < |q| && p[a] == q[a]
    ensures p[h] == q[h]
    decreases a - h
  {
    if h < a {
      PathsShareBelow(parent, p, q, a, h + 1);
      assert parent(p[h + 1]) == p[h] && parent(q[h + 1]) == q[h];
    }
  }

  /** A stored block lies on a path together with the predecessor it names. */
  ghost predicate BlockOn(path: seq<Hash>, h: Height, data: BlockData) {
    h < |path| && data.hash == path[h] && (h > 0 && data.prev.Some? ==> data.prev.value == path[h - 1])
  }

  ghost predicate ChainOn(m: Chain, path: seq<Hash>) {
    forall h :: h in m ==> BlockOn(path, h, m[h])
  }

  lemma BlocksOnPath(m: Chain, path: seq<Hash>)
    requires Linked(m)
    ensures LiesOn(SlotsOf(m), path) <==> ChainOn(m, path)
  {
    if LiesOn(SlotsOf(m), path) {
      forall h | h in m ensures BlockOn(path, h, m[h]) {
        assert h in SlotsOf(m) && LinkedAt(m, h);
        if h > 0 && m[h].prev.Some? { assert h - 1 in SlotsOf(m); }
      }
    }
    if ChainOn(m, path) {
      forall h | h in SlotsOf(m) ensures h < |path| && SlotsOf(m)[h].hash == path[h] {
        if h !in m { assert BlockOn(path, h + 1, m[h + 1]); }
      }
    }
  }

  lemma OnPathLinked(m: Chain, path: seq<Hash>)
    requires ChainOn(m, path)
    ensures Linked(m)
  {
    forall h | h in m ensures LinkedAt(m, h) {
      assert BlockOn(path, h, m[h]);
      if h > 0 && h - 1 in m { assert BlockOn(path, h - 1, m[h - 1]); }
    }
  }

  /** Blocks up to a shared height lie on both paths. */
  lemma OnBothPaths(parent: Hash -> Hash, p: seq<Hash>, q: seq<Hash>, a: nat, h: Height, data: BlockData)
    requires RootPath(parent, p) && RootPath(parent, q)
    requires h <= a < |p| && a < |q| && p[a] == q[a] && BlockOn(p, h, data)
    ensures BlockOn(q, h, data)
  {
    PathsShareBelow(parent, p, q, a, h);
    if h > 0 { PathsShareBelow(parent, p, q, a, h - 1); }
  }

  /**
    If both chains lie on root paths and connect, the changed original lies wholly on one of the
    two paths, links, and keeps genesis. So `finish` cannot fail.
   */
  lemma MergeStaysOnOnePath(parent: Hash -> Hash, o: Chain, u: Chain, p: seq<Hash>, q: seq<Hash>)
    requires Linked(o) && Linked(u) && 0 in o
    requires RootPath(parent, p) && RootPath(parent, q)
    requires LiesOn(SlotsOf(o), p) && LiesOn(SlotsOf(u), q)
    requires Connects(SlotsOf(o), SlotsOf(u))
    ensures var merged := Applied(o, MergeChanges(SlotsOf(o), SlotsOf(u)));
            && (LiesOn(SlotsOf(merged), p) || LiesOn(SlotsOf(merged), q))
            && 0 in merged && merged[0].hash == o[0].hash
            && Applies(o, MergeChanges(SlotsOf(o), SlotsOf(u)))
  {
    var so, su := SlotsOf(o), SlotsOf(u);
    var cs := MergeChanges(so, su);
    var merged := Applied(o, cs);
    BlocksOnPath(o, p);
    BlocksOnPath(u, q);
    GenesisNeedsJunction(so, su);
    var a :| Junction(so, su, a) && Unambiguous(so, su, a);
    GenesisKept(o, u);
    if forall h :: h in su ==> h <= a {
      forall h | h in merged ensures BlockOn(p, h, merged[h]) {
        if h in cs { OnBothPaths(parent, q, p, a, h, u[h]); }
      }
      OnPathLinked(merged, p);
      BlocksOnPath(merged, p);
    } else {
      forall h | h in merged ensures BlockOn(q, h, merged[h]) {
        if h !in cs {
          if h > a { ChangedAboveJunction(o, u, a, h); }
          OnBothPaths(parent, p, q, a, h, o[h]);
        }
      }
      OnPathLinked(merged, q);
      BlocksOnPath(merged, q);
    }
  }

  lemma GenesisKept(o: Chain, u: Chain)
    requires 0 in o && !GenesisReplaced(SlotsOf(o), SlotsOf(u))
    ensures var cs := MergeChanges(SlotsOf(o), SlotsOf(u));
            0 !in cs && 0 in Applied(o, cs)
  {
    var so, su := SlotsOf(o), SlotsOf(u);
    assert 0 in so && so[0].data.Some?;
    assert !Changes(so, su, 0, 0);
  }

  /** Unless the update ends at the junction, every original block above the junction changes. */
  lemma ChangedAboveJunction(o: Chain, u: Chain, a: int, h: Height)
    requires Junction(SlotsOf(o), SlotsOf(u), a) && Unambiguous(SlotsOf(o), SlotsOf(u), a)
    requires exists k :: k in SlotsOf(u) && k > a
    requires h in o && h > a
    ensures h in MergeChanges(SlotsOf(o), SlotsOf(u))
  {
    var so, su := SlotsOf(o), SlotsOf(u);
    assert h in so && so[h].data.Some?;
    var l: Height :| LowestFrom(so, a + 1, l) && Conflict(so, su, l);
    assert l <= h;
    if h in su {
      assert !Agree(so, su, h);
    } else {
      assert 0 <= l < h && Conflict(so, su, l);
    }
    assert Changes(so, su, 0, h);
  }

  /**
    `merge_chains` in a block tree: it succeeds exactly if the chains connect, the mismatch that
    `finish` reports as a bug cannot occur, and the new tip lies on the original's path or on the
    update's.
   */
  method MergeInTree(
    originalTip: CheckPoint, updateTip: CheckPoint, eqPtr: (CheckPoint, CheckPoint) -> bool,
    ghost parent: Hash -> Hash, ghost p: seq<Hash>, ghost q: seq<Hash>)
    returns (r: MergeResult)
    requires Valid(originalTip) && Valid(updateTip) && PointerEquality(eqPtr)
    requires 0 in Blocks(originalTip)
    requires RootPath(parent, p) && RootPath(parent, q)
    requires LiesOn(SlotsOf(Blocks(originalTip)), p) && LiesOn(SlotsOf(Blocks(updateTip)), q)
    ensures r.Merged? <==> Connects(SlotsOf(Blocks(originalTip)), SlotsOf(Blocks(updateTip)))
    ensures r.Merged? ==> LiesOn(SlotsOf(Blocks(r.tip)), p) || LiesOn(SlotsOf(Blocks(r.tip)), q)
    ensures r.Merged? && HashFixesData(Blocks(originalTip), Blocks(updateTip)) ==>
              (Blocks(r.tip) == Applied(Blocks(originalTip), r.changeset)
               <==> !(FastReturns(originalTip, updateTip, eqPtr)
                      && exists h: Height :: ImpliedOnly(Blocks(originalTip), Blocks(updateTip), h)))
  {
    hide Connects, LiesOn, Linked, Applies, Applied, Blocks, Suggested, SlotsOf, MergeChanges, FastReturns,
         ImpliedOnly, HashFixesData;
    BlocksLinked(originalTip);
    BlocksLinked(updateTip);
    if Connects(SlotsOf(Blocks(originalTip)), SlotsOf(Blocks(updateTip))) {
      MergeStaysOnOnePath(parent, Blocks(originalTip), Blocks(updateTip), p, q);
    }
    r := MergeChains(originalTip, updateTip, eqPtr);
    if r.Merged? && HashFixesData(Blocks(originalTip), Blocks(updateTip)) {
      MergedTipIsChangedOriginal(originalTip, updateTip, eqPtr, r.changeset, r.tip);
    }
  }

  // --- When the returned update is the changed original ---

  /** Stored blocks with the same hash carry the same data, as for hashes and headers. */
  ghost predicate HashFixesData(o: Chain, u: Chain) {
    forall h: Height :: Shared(o, u, h) ==> o[h] == u[h]
  }

  /** The original stores a block that the update only implies. */
  predicate ImpliedOnly(o: Chain, u: Chain, h: Height) {
    h in o && h !in u && h in SlotsOf(u) && SlotsOf(u)[h].hash == o[h].hash
  }

  /**
    The fast return hands back the update although the change set describes the changed original.
    The two are the same exactly if the update stores every original block that it implies.
   */
  lemma FastReturnIsChangedOriginal(o: Chain, u: Chain)
    requires SlotsOf(o).Keys <= SlotsOf(u).Keys && HashFixesData(o, u)
    ensures u == Applied(o, MergeChanges(SlotsOf(o), SlotsOf(u))) <==> forall h: Height :: !ImpliedOnly(o, u, h)
  {
    var so, su := SlotsOf(o), SlotsOf(u);
    var applied := Applied(o, MergeChanges(so, su));
    forall h: Height
      ensures h in applied <==> h in u || ImpliedOnly(o, u, h)
      ensures h in u ==> h in applied && applied[h] == u[h]
    {
      ChangeOfCovered(o, u, h);
    }
    if h: Height :| ImpliedOnly(o, u, h) { assert h in applied && h !in u; }
  }

  lemma ChangeOfCovered(o: Chain, u: Chain, h: Height)
    requires SlotsOf(o).Keys <= SlotsOf(u).Keys && HashFixesData(o, u)
    ensures var applied := Applied(o, MergeChanges(SlotsOf(o), SlotsOf(u)));
            && (h in applied <==> h in u || ImpliedOnly(o, u, h))
            && (h in u ==> applied[h] == u[h])
  {
    var so, su := SlotsOf(o), SlotsOf(u);
    assert h in o ==> h in so && h in su && so[h] == Slot(o[h].hash, Some(o[h]));
    assert h in u ==> h in su && su[h] == Slot(u[h].hash, Some(u[h]));
    assert h !in o && h in so ==> so[h].data.None?;
    assert h !in u && h in su ==> su[h].data.None?;
    assert h in u && h in o && so[h].hash == su[h].hash ==> Shared(o, u, h);
  }

  /** What a successful merge returns is the changed original, unless a fast return drops an implied block. */
  lemma MergedTipIsChangedOriginal(
    originalTip: CheckPoint, updateTip: CheckPoint, eqPtr: (CheckPoint, CheckPoint) -> bool, cs: ChangeSet,
    tip: CheckPoint)
    requires var o, u := Blocks(originalTip), Blocks(updateTip);
             HashFixesData(o, u) && cs == MergeChanges(SlotsOf(o), SlotsOf(u))
    requires MergedTip(originalTip, updateTip, eqPtr, cs, tip)
    ensures Blocks(tip) == Applied(Blocks(originalTip), cs)
       <==> !(FastReturns(originalTip, updateTip, eqPtr)
              && exists h: Height :: ImpliedOnly(Blocks(originalTip), Blocks(updateTip), h))
  {
    hide FastReturns, HashFixesData, ImpliedOnly, Applied, Applies, MergeChanges, SlotsOf, Blocks;
    if FastReturns(originalTip, updateTip, eqPtr) {
      FastReturnIsChangedOriginal(Blocks(originalTip), Blocks(updateTip));
    }
  }

  /**
    Three linked headers, and an update that was grown from the same genesis node and only implies
    the middle one: the merge changes nothing and yet hands back the shorter list.
   */
  method FastReturnDropsHeader() returns (originalTip: CheckPoint, r: MergeResult)
    ensures Valid(originalTip) && 1 in Blocks(originalTip)
    ensures r.Merged? && r.changeset == map[] && 1 !in Blocks(r.tip)
    ensures Blocks(r.tip) != Applied(Blocks(originalTip), r.changeset)
  {
    hide Connects, Applies, Blocks, SlotsOf, MergeChanges, FastReturns, SourceAt, Pushed, Fits, Valid, Suggested;
    var genesis := New(0, BlockData(100, None));
    HeadersFit(genesis);
    var first := Push(genesis, 1, BlockData(101, Some(100)));
    var second := Push(first.value, 2, BlockData(102, Some(101)));
    var update := Push(genesis, 2, BlockData(102, Some(101)));
    originalTip := second.value;
    var eqPtr := (a: CheckPoint, b: CheckPoint) => a == genesis && b == genesis;
    HeaderLists(genesis, first.value, originalTip, update.value);
    HeadersShared(genesis, originalTip, update.value, eqPtr);
    HeadersConnect(SlotsOf(HEADERS), SlotsOf(UPDATED_HEADERS));
    NothingToChange();
    r := MergeChains(originalTip, update.value, eqPtr);
  }

  const HEADERS: Chain := map[0 := BlockData(100, None), 1 := BlockData(101, Some(100)), 2 := BlockData(102, Some(101))]

  const UPDATED_HEADERS: Chain := map[0 := BlockData(100, None), 2 := BlockData(102, Some(101))]

  lemma HeaderSlots()
    ensures SlotsOf(HEADERS)
         == map[0 := Slot(100, Some(HEADERS[0])), 1 := Slot(101, Some(HEADERS[1])), 2 := Slot(102, Some(HEADERS[2]))]
    ensures SlotsOf(UPDATED_HEADERS)
         == map[0 := Slot(100, Some(HEADERS[0])), 1 := Slot(101, None), 2 := Slot(102, Some(HEADERS[2]))]
  {
    assert HasSlot(UPDATED_HEADERS, 1);
  }

  /** The two header lists connect, and the merge has nothing to change. */
  lemma HeadersConnect(so: Slots, su: Slots)
    requires so == SlotsOf(HEADERS) && su == SlotsOf(UPDATED_HEADERS)
    ensures Connects(so, su) && MergeChanges(so, su) == map[]
  {
    HeaderSlots();
    hide SlotsOf;
    assert Junction(so, su, 2);
    assert Unambiguous(so, su, 2);
    forall h ensures !Changes(so, su, 0, h) {}
  }

  lemma NothingToChange()
    ensures Applies(HEADERS, map[])
  {
    assert Applied(HEADERS, map[]) == HEADERS;
    forall h | h in HEADERS ensures LinkedAt(HEADERS, h) {}
  }

  /** The walk stops at the shared genesis node. */
  lemma HeadersShared(
    genesis: CheckPoint, originalTip: CheckPoint, updateTip: CheckPoint, eqPtr: (CheckPoint, CheckPoint) -> bool)
    requires Blocks(originalTip) == HEADERS && Blocks(updateTip) == UPDATED_HEADERS && eqPtr(genesis, genesis)
    requires SourceAt(originalTip, 0) == genesis && SourceAt(updateTip, 0) == genesis
    ensures FastReturns(originalTip, updateTip, eqPtr)
  {
    HeaderSlots();
    hide SlotsOf, SourceAt, Blocks;
    var so, su := SlotsOf(HEADERS), SlotsOf(UPDATED_HEADERS);
    assert SharedAt(originalTip, updateTip, eqPtr, so, su, 0);
    assert FastReturnAt(originalTip, updateTip, eqPtr, so, su, 0);
  }

  lemma PushedSource(cp: CheckPoint, item: Item, h: Height)
    requires Valid(cp) && Fits(cp, item) && h <= cp.height
    ensures SourceAt(Pushed(cp, item), h) == SourceAt(cp, h)
  {
    hide Valid, Ancestor;
  }

  lemma HeaderLists(genesis: CheckPoint, first: CheckPoint, second: CheckPoint, updateTip: CheckPoint)
    requires genesis == New(0, HEADERS[0])
    requires Fits(genesis, (1, HEADERS[1])) && first == Pushed(genesis, (1, HEADERS[1]))
    requires Fits(first, (2, HEADERS[2])) && second == Pushed(first, (2, HEADERS[2]))
    requires Fits(genesis, (2, HEADERS[2])) && updateTip == Pushed(genesis, (2, HEADERS[2]))
    ensures Blocks(second) == HEADERS && Blocks(updateTip) == UPDATED_HEADERS
    ensures SourceAt(second, 0) == genesis && SourceAt(updateTip, 0) == genesis
  {
    hide Valid, Ancestor, Blocks, Pushed, Fits;
    PushedSource(genesis, (1, HEADERS[1]), 0);
    PushedSource(first, (2, HEADERS[2]), 0);
    PushedSource(genesis, (2, HEADERS[2]), 0);
  }

  lemma HeadersFit(genesis: CheckPoint)
    requires genesis == New(0, HEADERS[0])
    ensures Fits(genesis, (1, HEADERS[1])) && Fits(genesis, (2, HEADERS[2]))
    ensures Fits(Pushed(genesis, (1, HEADERS[1])), (2, HEADERS[2]))
  {
    hide Ancestor, Blocks;
  }
}
