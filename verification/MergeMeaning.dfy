/**
  What a merge means: exactly which blocks survive when blocks carry only their hash, that real
  block trees never mix two branches, and when the returned tip is the changed original.
 */
module MergeMeaning {
  import opened Wrappers
  import opened CheckPoints
  import opened CheckPointEntries
  import opened ChangeSets
  import opened ChainMerge

  // --- Blocks that carry only their hash ---

  predicate HashesOnly(m: Chain) {
    forall h :: h in m ==> m[h].prev.None?
  }

  /** The two chains hold different blocks at a height. */
  predicate Differ(o: Chain, u: Chain, h: Height) {
    h in o && h in u && o[h].hash != u[h].hash
  }

  predicate Shared(o: Chain, u: Chain, h: Height) {
    h in o && h in u && o[h].hash == u[h].hash
  }

  ghost predicate HighestShared(o: Chain, u: Chain, a: Height) {
    Shared(o, u, a) && forall h: Height :: Shared(o, u, h) ==> h <= a
  }

  /** Above `a` one chain ends, or the lowest original block is replaced. */
  ghost predicate JoinsAt(o: Chain, u: Chain, a: Height) {
    || (forall h :: h in o ==> h <= a)
    || (forall h :: h in u ==> h <= a)
    || (exists h: Height :: FirstAbove(o, a, h) && Differ(o, u, h))
  }

  /** `h` is the lowest height of a chain above `a`. */
  ghost predicate FirstAbove(m: Chain, a: Height, h: Height) {
    h in m && a < h && forall k :: k in m && a < k ==> h <= k
  }

  ghost predicate ChainsConnect(o: Chain, u: Chain) {
    !Differ(o, u, 0) && exists a :: HighestShared(o, u, a) && JoinsAt(o, u, a)
  }

  lemma SlotsOfHashes(m: Chain)
    requires HashesOnly(m)
    ensures SlotsOf(m).Keys == m.Keys
    ensures forall h :: h in m ==> SlotsOf(m)[h] == Slot(m[h].hash, Some(m[h]))
  {
  }

  /** For hash-only data and an original that stores genesis, the connection rule on blocks. */
  lemma ConnectsByBlocks(o: Chain, u: Chain)
    requires HashesOnly(o) && HashesOnly(u) && 0 in o
    ensures Connects(SlotsOf(o), SlotsOf(u)) <==> ChainsConnect(o, u)
  {
    var so, su := SlotsOf(o), SlotsOf(u);
    SlotsOfHashes(o);
    SlotsOfHashes(u);
    hide SlotsOf;
    GenesisNeedsJunction(so, su);
    assert forall h: Height :: Agree(so, su, h) <==> Shared(o, u, h);
    assert forall h: Height :: Conflict(so, su, h) <==> Differ(o, u, h);
    forall a: Height
      ensures Junction(so, su, a) <==> HighestShared(o, u, a)
      ensures Unambiguous(so, su, a) <==> JoinsAt(o, u, a)
    {
      forall h: Height { LowestIsFirst(so, o, a, h); }
    }
  }

  lemma LowestIsFirst(so: Slots, o: Chain, a: Height, h: Height)
    requires so.Keys == o.Keys
    ensures LowestFrom(so, a as int + 1, h) <==> FirstAbove(o, a, h)
  {
    assert forall k :: k in so <==> k in o;
  }

  /** With genesis in the original, chains that share no block do not connect. */
  lemma GenesisNeedsJunction(so: Slots, su: Slots)
    requires 0 in so && so[0].data.Some?
    ensures Connects(so, su) ==> !Junction(so, su, -1)
  {
    assert forall h :: LowestFrom(so, 0, h) ==> h == 0;
    assert forall a :: Junction(so, su, a) && Junction(so, su, -1) ==> a == -1;
  }

  /** `h` is only stored by the original and lies above a replaced block. */
  ghost predicate Evicted(o: Chain, u: Chain, h: Height) {
    h in o && h !in u && exists c: Height :: Differ(o, u, c) && c < h
  }

  /** Every block of the update, and the original blocks above no replaced block. */
  ghost function MergedBlocks(o: Chain, u: Chain): Chain {
    map h | h in o.Keys + u.Keys && !Evicted(o, u, h) :: if h in u then u[h] else o[h]
  }

  /**
    For hash-only data the change set turns the original into exactly the merged blocks, and if the
    update covers every original height, the update is the merged chain.
   */
  lemma ExactMerge(o: Chain, u: Chain)
    requires HashesOnly(o) && HashesOnly(u) && 0 in o
    requires Connects(SlotsOf(o), SlotsOf(u))
    ensures Applied(o, MergeChanges(SlotsOf(o), SlotsOf(u))) == MergedBlocks(o, u)
    ensures Applies(o, MergeChanges(SlotsOf(o), SlotsOf(u)))
    ensures SlotsOf(o).Keys <= SlotsOf(u).Keys ==> u == MergedBlocks(o, u)
    ensures 0 in MergedBlocks(o, u) && MergedBlocks(o, u)[0] == o[0]
    ensures HashesOnly(MergedBlocks(o, u))
  {
    hide SlotsOf, MergeChanges, Connects, Applied, Linked, HasBase;
    ChangesByBlocks(o, u);
    SameHashSameBlock(o, u);
    ChangedIsMerged(o, u, MergeChanges(SlotsOf(o), SlotsOf(u)));
    LinkedHashes(MergedBlocks(o, u));
  }

  lemma SameHashSameBlock(o: Chain, u: Chain)
    requires HashesOnly(o) && HashesOnly(u)
    ensures SlotsOf(o).Keys == o.Keys && SlotsOf(u).Keys == u.Keys
    ensures forall h: Height :: Shared(o, u, h) ==> o[h] == u[h]
  {
    SlotsOfHashes(o);
    SlotsOfHashes(u);
  }

  /** The change set in terms of the blocks. */
  lemma ChangesByBlocks(o: Chain, u: Chain)
    requires HashesOnly(o) && HashesOnly(u) && 0 in o
    requires Connects(SlotsOf(o), SlotsOf(u))
    ensures ReplacesAndEvicts(o, u, MergeChanges(SlotsOf(o), SlotsOf(u)))
    ensures !Differ(o, u, 0)
  {
    var so, su := SlotsOf(o), SlotsOf(u);
    SlotsOfHashes(o);
    SlotsOfHashes(u);
    hide SlotsOf;
    assert !GenesisReplaced(so, su);
    forall h: Height { ChangeByBlocks(o, u, so, su, h); }
  }

  /** A change set that stores the update's new blocks and removes the evicted ones. */
  ghost predicate ReplacesAndEvicts(o: Chain, u: Chain, cs: ChangeSet) {
    && (forall h: Height :: h in cs <==> (h in u && !Shared(o, u, h)) || Evicted(o, u, h))
    && (forall h: Height :: h in cs ==> cs[h] == if h in u then Some(u[h]) else None)
  }

  lemma ChangedIsMerged(o: Chain, u: Chain, cs: ChangeSet)
    requires ReplacesAndEvicts(o, u, cs)
    requires forall h: Height :: Shared(o, u, h) ==> o[h] == u[h]
    ensures Applied(o, cs) == MergedBlocks(o, u)
  {
    assert forall h: Height :: Evicted(o, u, h) ==> h in o && h !in u;
    hide Evicted;
  }

  lemma LinkedHashes(m: Chain)
    requires HashesOnly(m)
    ensures Linked(m)
  {
  }

  lemma ChangeByBlocks(o: Chain, u: Chain, so: Slots, su: Slots, h: Height)
    requires so.Keys == o.Keys && su.Keys == u.Keys
    requires forall h :: h in o ==> so[h] == Slot(o[h].hash, Some(o[h]))
    requires forall h :: h in u ==> su[h] == Slot(u[h].hash, Some(u[h]))
    ensures Changes(so, su, 0, h) && (h in o || h in u)
       <==> (h in u && !Shared(o, u, h)) || Evicted(o, u, h)
  {
    assert forall c: Height :: Conflict(so, su, c) <==> Differ(o, u, c);
    if c: Height :| Differ(o, u, c) && c < h { assert 0 <= c < h && Conflict(so, su, c); }
  }
}
