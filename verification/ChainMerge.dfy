/**
  Merging an update into the local chain (crates/chain/src/local_chain.rs, `merge_chains`): two
  lists are walked backwards in tandem to decide whether they connect and what has to change.
 */
module ChainMerge {
  import opened Wrappers
  import opened CheckPoints
  import opened CheckPointEntries
  import opened CheckPointUpdates
  import opened ChangeSets

  // --- What the merge has to decide, on the blocks both chains hold or imply ---

  predicate Agree(so: Slots, su: Slots, h: Height) {
    h in so && h in su && so[h].hash == su[h].hash
  }

  predicate Conflict(so: Slots, su: Slots, h: Height) {
    h in so && h in su && so[h].hash != su[h].hash
  }

  /** The original stores a block that the update neither holds nor implies. */
  predicate OnlyStored(so: Slots, su: Slots, h: Height) {
    h in so && so[h].data.Some? && h !in su
  }

  /** Some block below `h`, at height `from` or above, is replaced. */
  ghost predicate ConflictBetween(so: Slots, su: Slots, from: int, h: int) {
    exists c: Height :: from <= c < h && Conflict(so, su, c)
  }

  /** The update stores a block that the original does not store. */
  predicate Introduces(so: Slots, su: Slots, h: Height) {
    h in su && su[h].data.Some? && (h !in so || (Agree(so, su, h) && so[h].data.None?))
  }

  ghost predicate Changes(so: Slots, su: Slots, from: int, h: Height) {
    from <= h && (Introduces(so, su, h) || Conflict(so, su, h)
                  || (OnlyStored(so, su, h) && ConflictBetween(so, su, from, h)))
  }

  /** The changes to heights at or above `from`, given the conflicts at or above `from`. */
  ghost function ChangesFrom(so: Slots, su: Slots, from: int): ChangeSet {
    map h | h in so.Keys + su.Keys && Changes(so, su, from, h) :: if h in su then su[h].data else None
  }

  /** The change set of a merge: new and replaced blocks, and removals above a replaced block. */
  ghost function MergeChanges(so: Slots, su: Slots): ChangeSet {
    ChangesFrom(so, su, 0)
  }

  /** `a` is the highest height both chains agree on, or -1 if there is none. */
  ghost predicate Junction(so: Slots, su: Slots, a: int) {
    && a >= -1
    && (a >= 0 ==> a <= MAX_U32 && Agree(so, su, a))
    && forall h: Height :: Agree(so, su, h) ==> h <= a
  }

  /** `h` is the lowest height of `s` at or above `from`. */
  ghost predicate LowestFrom(s: Slots, from: int, h: Height) {
    h in s && from <= h && forall k :: k in s && from <= k ==> h <= k
  }

  /** The lowest original block at or above `from` is replaced by the update. */
  ghost predicate Invalidated(so: Slots, su: Slots, from: int) {
    exists h :: LowestFrom(so, from, h) && Conflict(so, su, h)
  }

  /**
    Above the junction there is no doubt which original blocks stay: one of the chains ends there,
    or the next original block is replaced.
   */
  ghost predicate Unambiguous(so: Slots, su: Slots, a: int) {
    || (forall h :: h in so ==> h <= a)
    || (a >= 0 && forall h :: h in su ==> h <= a)
    || Invalidated(so, su, a + 1)
  }

  predicate GenesisReplaced(so: Slots, su: Slots) {
    Conflict(so, su, 0) && so[0].data.Some?
  }

  ghost predicate Connects(so: Slots, su: Slots) {
    !GenesisReplaced(so, su) && exists a :: Junction(so, su, a) && Unambiguous(so, su, a)
  }

  /** Some block of the update is at or below a height. */
  ghost predicate Reaches(su: Slots, h: Height) {
    exists l :: l in su && l <= h
  }

  /**
    The height suggested when chains do not connect: the original block above an ambiguous junction,
    a replaced genesis, or, without any agreement, the first original block below the whole update
    (the lowest one if the update reaches down to it).
   */
  ghost predicate Suggested(so: Slots, su: Slots, h: Height) {
    || (exists a :: a >= 0 && Junction(so, su, a) && !Unambiguous(so, su, a) && LowestFrom(so, a + 1, h))
    || (GenesisReplaced(so, su) && h == 0)
    || (Junction(so, su, -1) && h in so
        && (if Reaches(su, h) then LowestFrom(so, 0, h) else forall k :: k in so && k > h ==> Reaches(su, k)))
  }

  lemma JunctionUnique(so: Slots, su: Slots, a: int, b: int)
    requires Junction(so, su, a) && Junction(so, su, b)
    ensures a == b
  {
  }

  // --- How each step of the walk extends what has been decided ---

  /** All heights of both chains from `from` up are at `k` or above; `k` is the next one visited. */
  ghost predicate NextHeight(so: Slots, su: Slots, from: int, k: Height) {
    && k < from && (k in so || k in su)
    && (forall h :: h in so && h < from ==> h <= k)
    && (forall h :: h in su && h < from ==> h <= k)
  }

  /** The original heights whose removal depends on a conflict further down. */
  ghost predicate Pending(so: Slots, su: Slots, from: int, h: Height) {
    from <= h && OnlyStored(so, su, h) && !ConflictBetween(so, su, from, h)
  }

  ghost predicate IsPending(so: Slots, su: Slots, from: int, heights: seq<Height>) {
    forall h :: h in heights <==> Pending(so, su, from, h)
  }

  lemma ConflictStep(so: Slots, su: Slots, from: int, k: Height, h: int)
    requires NextHeight(so, su, from, k) && from <= h
    ensures ConflictBetween(so, su, k, h) <==> Conflict(so, su, k) || ConflictBetween(so, su, from, h)
  {
    if ConflictBetween(so, su, k, h) {
      var c: Height :| k <= c < h && Conflict(so, su, c);
      if c != k { assert from <= c; }
    }
    if ConflictBetween(so, su, from, h) {
      var c: Height :| from <= c < h && Conflict(so, su, c);
      assert k <= c < h;
    }
  }

  /** Visiting a height that holds no conflict adds at most what is introduced there. */
  lemma QuietStep(so: Slots, su: Slots, from: int, k: Height, heights: seq<Height>)
    requires NextHeight(so, su, from, k) && !Conflict(so, su, k)
    requires IsPending(so, su, from, heights)
    ensures ChangesFrom(so, su, k)
         == if Introduces(so, su, k) then ChangesFrom(so, su, from)[k := su[k].data] else ChangesFrom(so, su, from)
    ensures IsPending(so, su, k, if OnlyStored(so, su, k) then heights + [k] else heights)
  {
    forall h: Height
      ensures Changes(so, su, k, h) <==> Changes(so, su, from, h) || (h == k && Introduces(so, su, k))
      ensures Pending(so, su, k, h) <==> Pending(so, su, from, h) || (h == k && OnlyStored(so, su, k))
    {
      if from <= h { ConflictStep(so, su, from, k, h); }
      assert h == k ==> !ConflictBetween(so, su, k, h);
    }
  }

  /** Visiting a conflict replaces the block there and removes all that was pending. */
  lemma ConflictVisited(so: Slots, su: Slots, from: int, k: Height, heights: seq<Height>)
    requires NextHeight(so, su, from, k) && Conflict(so, su, k)
    requires IsPending(so, su, from, heights)
    ensures ChangesFrom(so, su, k)
         == ChangesFrom(so, su, from)[k := su[k].data] + map h | h in heights :: None
    ensures IsPending(so, su, k, [])
  {
    forall h: Height
      ensures Changes(so, su, k, h) <==> Changes(so, su, from, h) || h == k || h in heights
      ensures !Pending(so, su, k, h)
    {
      if from <= h { ConflictStep(so, su, from, k, h); }
    }
  }

  /** The state of the walk once every height from `from` up has been visited. */
  ghost predicate Decided(
    so: Slots, su: Slots, from: int, cs: ChangeSet, pending: seq<Height>,
    prevOrig: Option<Entry>, prevUpdate: Option<Entry>, invalidated: bool, found: bool, superset: bool)
  {
    && cs == ChangesFrom(so, su, from)
    && IsPending(so, su, from, pending)
    && (if prevOrig.None? then forall h :: h in so ==> h < from else LowestFrom(so, from, prevOrig.value.Height()))
    && (prevUpdate.None? <==> forall h :: h in su ==> h < from)
    && (invalidated <==> Invalidated(so, su, from))
    && (if found then exists a :: from <= a && Junction(so, su, a) && Unambiguous(so, su, a)
        else forall h: Height :: Agree(so, su, h) ==> h < from)
    && (superset <==> forall h :: h in so && from <= h ==> h in su)
    && (from <= 0 ==> !GenesisReplaced(so, su))
  }

  lemma Undecided(so: Slots, su: Slots, from: int)
    requires from > 0 && (forall h :: h in so ==> h < from) && forall h :: h in su ==> h < from
    ensures Decided(so, su, from, map[], [], None, None, false, false, true)
  {
  }

  lemma VisitUpdateOnly(
    so: Slots, su: Slots, from: int, cs: ChangeSet, pending: seq<Height>,
    prevOrig: Option<Entry>, prevUpdate: Option<Entry>, invalidated: bool, found: bool, superset: bool, u: Entry)
    requires Decided(so, su, from, cs, pending, prevOrig, prevUpdate, invalidated, found, superset)
    requires NextHeight(so, su, from, u.Height())
    requires u.Height() !in so && u.Height() in su && su[u.Height()] == SlotOf(u)
    ensures Decided(so, su, u.Height(), if u.Data().Some? then cs[u.Height() := u.Data()] else cs,
                    pending, prevOrig, Some(u), invalidated, found, superset)
  {
    var k := u.Height();
    QuietStep(so, su, from, k, pending);
    assert forall h :: LowestFrom(so, k, h) <==> LowestFrom(so, from, h);
  }

  lemma VisitOriginalOnly(
    so: Slots, su: Slots, from: int, cs: ChangeSet, pending: seq<Height>,
    prevOrig: Option<Entry>, prevUpdate: Option<Entry>, invalidated: bool, found: bool, superset: bool, o: Entry)
    requires Decided(so, su, from, cs, pending, prevOrig, prevUpdate, invalidated, found, superset)
    requires NextHeight(so, su, from, o.Height())
    requires o.Height() !in su && o.Height() in so && so[o.Height()] == SlotOf(o)
    ensures Decided(so, su, o.Height(), cs, if o.Occupied? then pending + [o.Height()] else pending,
                    Some(o), prevUpdate, false, found, false)
  {
    var k := o.Height();
    QuietStep(so, su, from, k, pending);
    assert LowestFrom(so, k, k);
  }

  lemma VisitAgreement(
    so: Slots, su: Slots, from: int, cs: ChangeSet, pending: seq<Height>,
    prevOrig: Option<Entry>, prevUpdate: Option<Entry>, invalidated: bool, found: bool, superset: bool, o: Entry,
    u: Entry)
    requires Decided(so, su, from, cs, pending, prevOrig, prevUpdate, invalidated, found, superset)
    requires NextHeight(so, su, from, o.Height()) && u.Height() == o.Height() && Agree(so, su, o.Height())
    requires so[o.Height()] == SlotOf(o) && su[u.Height()] == SlotOf(u)
    ensures Junction(so, su, o.Height()) || found
    ensures !found ==> (Unambiguous(so, su, o.Height()) <==> invalidated || prevOrig.None? || prevUpdate.None?)
    ensures prevOrig.Some? ==> LowestFrom(so, o.Height() as int + 1, prevOrig.value.Height())
    ensures found || Unambiguous(so, su, o.Height()) ==>
              Decided(so, su, o.Height(), if u.Data().Some? && o.Placeholder? then cs[u.Height() := u.Data()] else cs,
                      pending, Some(o), Some(u), false, true, superset)
  {
    var k: int := o.Height();
    QuietStep(so, su, from, k, pending);
    assert LowestFrom(so, k, k);
    assert forall h :: LowestFrom(so, k + 1, h) <==> LowestFrom(so, from, h);
    if !found {
      assert Junction(so, su, k);
    }
  }

  lemma VisitConflict(
    so: Slots, su: Slots, from: int, cs: ChangeSet, pending: seq<Height>,
    prevOrig: Option<Entry>, prevUpdate: Option<Entry>, invalidated: bool, found: bool, superset: bool, o: Entry,
    u: Entry)
    requires Decided(so, su, from, cs, pending, prevOrig, prevUpdate, invalidated, found, superset)
    requires NextHeight(so, su, from, o.Height()) && u.Height() == o.Height() && Conflict(so, su, o.Height())
    requires so[o.Height()] == SlotOf(o) && su[u.Height()] == SlotOf(u)
    requires !(o.Height() == 0 && o.Occupied?)
    ensures Decided(so, su, o.Height(), cs[u.Height() := u.Data()] + map h | h in pending :: None,
                    [], Some(o), Some(u), true, found, superset)
  {
    var k := o.Height();
    ConflictVisited(so, su, from, k, pending);
    assert LowestFrom(so, k, k);
  }

  // --- The walk ---

  /** The slots below a height. */
  function Below(s: Slots, from: int): Slots {
    map h | h in s && h < from :: s[h]
  }

  /** A list being walked: the entry to visit next, if already fetched, and the iterator behind it. */
  ghost predicate Cursor(s: Slots, from: int, curr: Option<Entry>, next: Option<Entry>) {
    && (curr.Some? ==> ValidEntry(curr.value) && next == Prev(curr.value))
    && (next.Some? ==> ValidEntry(next.value))
    && Visited(if curr.Some? then curr else next) == Below(s, from)
  }

  /** The entry under a cursor is the highest one left. */
  lemma CursorTop(s: Slots, from: int, curr: Option<Entry>, next: Option<Entry>)
    requires Cursor(s, from, curr, next)
    ensures curr.None? && next.None? ==> forall h :: h in s ==> from <= h
    ensures curr.Some? ==>
              var k := curr.value.Height();
              k in s && k < from && s[k] == SlotOf(curr.value) && (forall h :: h in s && h < from ==> h <= k)
  {
    if curr.Some? {
      VisitedTop(curr.value);
      assert curr.value.Height() in Below(s, from);
    }
    forall h | h in s && h < from ensures h in Visited(if curr.Some? then curr else next) {
      assert h in Below(s, from);
    }
  }

  /** Moving past the highest entry left. */
  lemma CursorPast(s: Slots, from: int, curr: Option<Entry>, next: Option<Entry>)
    requires Cursor(s, from, curr, next) && curr.Some?
    ensures Cursor(s, curr.value.Height(), None, next)
  {
    var e := curr.value;
    CursorTop(s, from, curr, next);
    PrevLower(e);
    if next.Some? { VisitedTop(next.value); }
    assert Below(s, e.Height()) == Below(s, from) - {e.Height()};
    assert Visited(next) == Visited(curr) - {e.Height()};
  }

  /** A cursor stays put when the other list is moved past a higher entry. */
  lemma CursorStays(s: Slots, from: int, k: Height, curr: Option<Entry>, next: Option<Entry>)
    requires Cursor(s, from, curr, next) && k <= from
    requires forall h :: h in s && h < from ==> h < k
    ensures Cursor(s, k, curr, next)
  {
    assert Below(s, k) == Below(s, from);
  }

  datatype MergeResult = Merged(tip: CheckPoint, changeset: ChangeSet) | CannotConnect(tryIncludeHeight: Height)

  /** Two checkpoints with the same pointer are the same list; equal lists may have two pointers. */
  ghost predicate PointerEquality(eqPtr: (CheckPoint, CheckPoint) -> bool) {
    forall a, b :: eqPtr(a, b) ==> a == b
  }

  /**
    The walk hands back the update at an agreed height: both lists have the block there from the
    same checkpoint, and the update has every original height from there up.
   */
  ghost predicate FastReturnAt(
    originalTip: CheckPoint, updateTip: CheckPoint, eqPtr: (CheckPoint, CheckPoint) -> bool, so: Slots, su: Slots,
    h: Height)
  {
    && SharedAt(originalTip, updateTip, eqPtr, so, su, h)
    && forall k :: k in so && h <= k ==> k in su
  }

  ghost predicate SharedAt(
    originalTip: CheckPoint, updateTip: CheckPoint, eqPtr: (CheckPoint, CheckPoint) -> bool, so: Slots, su: Slots,
    h: Height)
  {
    Agree(so, su, h) && eqPtr(SourceAt(originalTip, h), SourceAt(updateTip, h))
  }

  ghost predicate FastReturns(originalTip: CheckPoint, updateTip: CheckPoint, eqPtr: (CheckPoint, CheckPoint) -> bool) {
    var so, su := SlotsOf(Blocks(originalTip)), SlotsOf(Blocks(updateTip));
    exists h: Height :: FastReturnAt(originalTip, updateTip, eqPtr, so, su, h)
  }

  /** The tip of a successful merge: the update itself on a fast return, and otherwise the changed original. */
  ghost predicate MergedTip(
    originalTip: CheckPoint, updateTip: CheckPoint, eqPtr: (CheckPoint, CheckPoint) -> bool, cs: ChangeSet,
    tip: CheckPoint)
  {
    var so, su := SlotsOf(Blocks(originalTip)), SlotsOf(Blocks(updateTip));
    if FastReturns(originalTip, updateTip, eqPtr) then
      tip == updateTip && so.Keys <= su.Keys && SameGenesis(so, su)
    else
      Applies(Blocks(originalTip), cs) && Blocks(tip) == Applied(Blocks(originalTip), cs)
  }

  /** No visited height is shared. */
  ghost predicate NoneShared(
    originalTip: CheckPoint, updateTip: CheckPoint, eqPtr: (CheckPoint, CheckPoint) -> bool, so: Slots, su: Slots,
    from: int)
  {
    forall h: Height :: from <= h ==> !SharedAt(originalTip, updateTip, eqPtr, so, su, h)
  }

  lemma NoneSharedStep(
    originalTip: CheckPoint, updateTip: CheckPoint, eqPtr: (CheckPoint, CheckPoint) -> bool, so: Slots, su: Slots,
    from: int, k: Height)
    requires NoneShared(originalTip, updateTip, eqPtr, so, su, from) && NextHeight(so, su, from, k)
    requires !SharedAt(originalTip, updateTip, eqPtr, so, su, k)
    ensures NoneShared(originalTip, updateTip, eqPtr, so, su, k)
  {
  }

  lemma NoFastReturn(
    originalTip: CheckPoint, updateTip: CheckPoint, eqPtr: (CheckPoint, CheckPoint) -> bool, so: Slots, su: Slots,
    from: int)
    requires so == SlotsOf(Blocks(originalTip)) && su == SlotsOf(Blocks(updateTip))
    requires NoneShared(originalTip, updateTip, eqPtr, so, su, from)
    requires (forall h :: h in su ==> from <= h) || (exists h :: h in so && from <= h && h !in su)
    ensures !FastReturns(originalTip, updateTip, eqPtr)
  {
  }

  lemma FastReturnHere(
    originalTip: CheckPoint, updateTip: CheckPoint, eqPtr: (CheckPoint, CheckPoint) -> bool, so: Slots, su: Slots,
    k: Height,
    from: int, superset: bool)
    requires so == SlotsOf(Blocks(originalTip)) && su == SlotsOf(Blocks(updateTip))
    requires NoneShared(originalTip, updateTip, eqPtr, so, su, from) && NextHeight(so, su, from, k)
    requires SharedAt(originalTip, updateTip, eqPtr, so, su, k)
    requires superset <==> forall h :: h in so && k <= h ==> h in su
    ensures FastReturns(originalTip, updateTip, eqPtr) <==> superset
  {
    if superset { assert FastReturnAt(originalTip, updateTip, eqPtr, so, su, k); }
  }

  lemma SupersetSoFar(
    so: Slots, su: Slots, from: int, cs: ChangeSet, pending: seq<Height>,
    prevOrig: Option<Entry>, prevUpdate: Option<Entry>, invalidated: bool, found: bool, superset: bool)
    requires Decided(so, su, from, cs, pending, prevOrig, prevUpdate, invalidated, found, superset)
    ensures superset <==> forall h :: h in so && from <= h ==> h in su
  {
  }

  /** `finish` */
  /** What the final step points at: genesis if it would be lost, or else the lowest block that breaks the links. */
  ghost predicate FailsAt(o: Chain, cs: ChangeSet, h: Height) {
    if LosesGenesis(o, cs) then h == 0 else exists id :: FirstMismatch(Applied(o, cs), id) && id.height == h
  }

  method Finish(originalTip: CheckPoint, changeset: ChangeSet) returns (r: MergeResult)
    requires Valid(originalTip)
    ensures r.Merged? <==> Applies(Blocks(originalTip), changeset)
    ensures r.Merged? ==> Valid(r.tip) && Blocks(r.tip) == Applied(Blocks(originalTip), changeset)
                          && r.changeset == changeset
    ensures r.CannotConnect? ==> FailsAt(Blocks(originalTip), changeset, r.tryIncludeHeight)
  {
    hide FirstMismatch, Applied;
    var tip := ApplyChangesetToCheckpoint(originalTip, changeset);
    match tip {
      case Ok(cp) => return Merged(cp, changeset);
      case Err(MissingGenesis) => return CannotConnect(0);
      case Err(PrevBlockhashMismatch(expected)) => return CannotConnect(expected.height);
    }
  }

  /** The drain of `potentially_invalidated_heights` into the change set. */
  method RemoveAll(cs: ChangeSet, heights: seq<Height>) returns (r: ChangeSet)
    ensures r == cs + map h | h in heights :: None
  {
    r := cs;
    for i := 0 to |heights|
      invariant r == cs + map h | h in heights[..i] :: None
    {
      assert heights[..i + 1] == heights[..i] + [heights[i]];
      r := r[heights[i] := None];
    }
    assert heights[..|heights|] == heights;
  }

  /** Once both lists are the same from here down, nothing further down changes. */
  lemma SameBelow(so: Slots, su: Slots, from: int)
    requires Below(so, from) == Below(su, from) && from >= 0
    ensures ChangesFrom(so, su, from) == MergeChanges(so, su)
    ensures !GenesisReplaced(so, su) || from <= 0
    ensures forall h :: h in so && h < from ==> h in su
  {
    forall h | h < from && (h in so || h in su)
      ensures h in so && h in su && so[h] == su[h]
    {
      assert h in Below(so, from) || h in Below(su, from);
      assert Below(so, from)[h] == Below(su, from)[h];
    }
    NoConflictBelow(so, su, from);
  }

  lemma NoConflictBelow(so: Slots, su: Slots, from: int)
    requires from >= 0
    requires forall h: Height :: h < from ==> !Conflict(so, su, h) && !Introduces(so, su, h)
    ensures ChangesFrom(so, su, from) == MergeChanges(so, su)
    ensures !GenesisReplaced(so, su) || from <= 0
  {
    forall h: Height ensures Changes(so, su, 0, h) <==> Changes(so, su, from, h) {
      if c: Height :| 0 <= c < h && Conflict(so, su, c) { assert from <= c; }
      if c: Height :| from <= c < h && Conflict(so, su, c) { assert 0 <= c; }
    }
  }

  /** The walk ends with no agreement: the whole original chain has to be replaced. */
  lemma WithoutAgreement(
    so: Slots, su: Slots, from: int, cs: ChangeSet, pending: seq<Height>,
    prevOrig: Option<Entry>, prevUpdate: Option<Entry>, invalidated: bool, found: bool, superset: bool)
    requires Decided(so, su, from, cs, pending, prevOrig, prevUpdate, invalidated, found, superset)
    requires from >= 0 && so != map[] && su != map[]
    requires forall h :: h in su ==> from <= h
    requires (forall h :: h in so ==> from <= h) || (!invalidated && prevOrig.Some?)
    requires if prevOrig.Some? && prevOrig.value.Height() !in su && !Reaches(su, prevOrig.value.Height())
             then forall h :: h in so && prevOrig.value.Height() < h ==> Reaches(su, h)
             else forall h :: h in so ==> from <= h
    ensures cs == MergeChanges(so, su) && !GenesisReplaced(so, su)
    ensures prevOrig.Some?
    ensures Connects(so, su) <==> invalidated || found
    ensures !invalidated && !found ==> Suggested(so, su, prevOrig.value.Height())
  {
    NoConflictBelow(so, su, from);
    var h :| h in so;
    var l :| l in su;
    if !found {
      assert Junction(so, su, -1);
      assert Unambiguous(so, su, -1) <==> Invalidated(so, su, 0);
      if a :| Junction(so, su, a) && Unambiguous(so, su, a) {
        JunctionUnique(so, su, a, -1);
      }
      if k :| LowestFrom(so, 0, k) && Conflict(so, su, k) {
        assert LowestFrom(so, from, k);
      }
      if k :| LowestFrom(so, from, k) && Conflict(so, su, k) {
        assert forall h :: h in so ==> from <= h;
        assert LowestFrom(so, 0, k);
      }
    }
  }

  lemma StartWalk(tip: CheckPoint)
    requires Valid(tip)
    ensures Cursor(SlotsOf(Blocks(tip)), MAX_U32 + 1, None, Some(Occupied(tip)))
    ensures SlotsOf(Blocks(tip)) != map[]
  {
    VisitedAll(tip);
    VisitedTop(Occupied(tip));
    var s := SlotsOf(Blocks(tip));
    assert Below(s, MAX_U32 + 1) == s;
  }

  /** The entries at hand are of the walk from `tip`. */
  ghost predicate Under(tip: CheckPoint, curr: Option<Entry>, next: Option<Entry>) {
    && (curr.Some? ==> Located(tip, curr.value))
    && (next.Some? ==> Located(tip, next.value))
  }

  lemma NothingShared(
    originalTip: CheckPoint, updateTip: CheckPoint, eqPtr: (CheckPoint, CheckPoint) -> bool, so: Slots, su: Slots)
    requires Valid(originalTip) && Valid(updateTip)
    ensures Under(originalTip, None, Some(Occupied(originalTip))) && Under(updateTip, None, Some(Occupied(updateTip)))
    ensures NoneShared(originalTip, updateTip, eqPtr, so, su, MAX_U32 + 1)
  {
    TopLocated(originalTip);
    TopLocated(updateTip);
  }

  /** The walk compares the pointers of the two sources of a common height. */
  lemma SharedHere(
    originalTip: CheckPoint, updateTip: CheckPoint, eqPtr: (CheckPoint, CheckPoint) -> bool, so: Slots, su: Slots,
    o: Entry, u: Entry)
    requires Located(originalTip, o) && Located(updateTip, u) && o.Height() == u.Height() && Agree(so, su, o.Height())
    ensures SharedAt(originalTip, updateTip, eqPtr, so, su, o.Height()) <==> eqPtr(o.Source(), u.Source())
  {
  }

  lemma NotAgreed(
    originalTip: CheckPoint, updateTip: CheckPoint, eqPtr: (CheckPoint, CheckPoint) -> bool, so: Slots, su: Slots,
    h: Height)
    requires !Agree(so, su, h)
    ensures !SharedAt(originalTip, updateTip, eqPtr, so, su, h)
  {
  }

  /** Fetching the next entry of an iterator, unless one is already at hand. */
  method Fetch(curr: Option<Entry>, next: Option<Entry>, ghost s: Slots, ghost from: int, ghost tip: CheckPoint)
    returns (curr': Option<Entry>, next': Option<Entry>)
    requires Cursor(s, from, curr, next) && Under(tip, curr, next)
    ensures Cursor(s, from, curr', next') && (curr'.None? ==> next'.None?) && Under(tip, curr', next')
  {
    hide Located;
    curr', next' := curr, next;
    if curr.None? && next.Some? {
      PrevLower(next.value);
      PrevLocated(tip, next.value);
      curr', next' := next, Prev(next.value);
    }
  }

  /** Where the highest entries left under both cursors are. */
  lemma Heads(
    so: Slots, su: Slots, from: int, o: Option<Entry>, orig: Option<Entry>, u: Option<Entry>, update: Option<Entry>)
    requires Cursor(so, from, o, orig) && Cursor(su, from, u, update)
    requires (o.None? ==> orig.None?) && (u.None? ==> update.None?)
    ensures o.None? ==> forall h :: h in so ==> from <= h
    ensures u.None? ==> forall h :: h in su ==> from <= h
    ensures o.Some? ==> o.value.Height() in so && so[o.value.Height()] == SlotOf(o.value)
    ensures u.Some? ==> u.value.Height() in su && su[u.value.Height()] == SlotOf(u.value)
    ensures o.Some? && (u.None? || u.value.Height() <= o.value.Height()) ==>
              NextHeight(so, su, from, o.value.Height())
    ensures u.Some? && (o.None? || o.value.Height() <= u.value.Height()) ==>
              NextHeight(so, su, from, u.value.Height())
    ensures o.Some? && (u.None? || u.value.Height() < o.value.Height()) ==>
              o.value.Height() !in su && Cursor(su, o.value.Height(), u, update)
    ensures u.Some? && (o.None? || o.value.Height() < u.value.Height()) ==>
              u.value.Height() !in so && Cursor(so, u.value.Height(), o, orig)
    ensures o.Some? ==> Cursor(so, o.value.Height(), None, orig)
    ensures u.Some? ==> Cursor(su, u.value.Height(), None, update)
  {
    CursorTop(so, from, o, orig);
    CursorTop(su, from, u, update);
    if o.Some? {
      CursorPast(so, from, o, orig);
      if u.None? || u.value.Height() < o.value.Height() { CursorStays(su, from, o.value.Height(), u, update); }
    }
    if u.Some? {
      CursorPast(su, from, u, update);
      if o.None? || o.value.Height() < u.value.Height() { CursorStays(so, from, u.value.Height(), o, orig); }
    }
  }

  predicate SameGenesis(so: Slots, su: Slots) {
    0 in so ==> 0 in su && su[0] == so[0]
  }

  /** At an agreement between entries of the same checkpoint both lists are the same from here down. */
  lemma SameSource(
    so: Slots, su: Slots, from: int, o: Entry, orig: Option<Entry>, u: Entry, update: Option<Entry>)
    requires Cursor(so, from, Some(o), orig) && Cursor(su, from, Some(u), update)
    requires o.Source() == u.Source() && o.Height() == u.Height()
    ensures Below(so, o.Height()) == Below(su, o.Height())
    ensures SameGenesis(so, su)
  {
    assert o == u;
    CursorTop(so, from, Some(o), orig);
    CursorTop(su, from, Some(u), update);
    assert 0 in so && 0 < o.Height() ==> 0 in Below(so, o.Height());
    assert 0 in su && 0 < o.Height() ==> 0 in Below(su, o.Height());
    CursorPast(so, from, Some(o), orig);
    CursorPast(su, from, Some(u), update);
  }

  /** What is known when the walk has reached an agreement below which nothing differs. */
  lemma StopAtAgreement(
    so: Slots, su: Slots, k: Height, cs: ChangeSet, pending: seq<Height>,
    prevOrig: Option<Entry>, prevUpdate: Option<Entry>, superset: bool)
    requires Decided(so, su, k, cs, pending, prevOrig, prevUpdate, false, true, superset)
    requires Below(so, k) == Below(su, k)
    ensures Connects(so, su) && cs == MergeChanges(so, su)
    ensures superset ==> so.Keys <= su.Keys
  {
    SameBelow(so, su, k);
  }

  lemma AmbiguousJunction(so: Slots, su: Slots, a: int, h: Height)
    requires Junction(so, su, a) && !Unambiguous(so, su, a) && a >= 0 && LowestFrom(so, a + 1, h)
    ensures !Connects(so, su) && Suggested(so, su, h)
  {
  }

  ghost predicate AllReached(so: Slots, su: Slots, from: int) {
    forall h :: h in so && from <= h ==> Reaches(su, h)
  }

  lemma NoneVisited(so: Slots, su: Slots, from: int)
    requires forall h :: h in so ==> h < from
    ensures AllReached(so, su, from)
  {
  }

  lemma AllVisited(so: Slots, su: Slots, from: int)
    requires AllReached(so, su, from) && forall h :: h in so ==> from <= h
    ensures forall h :: h in so ==> Reaches(su, h)
  {
  }

  /** The first original block below the whole update. */
  lemma BelowUpdate(so: Slots, su: Slots, from: int, k: Height)
    requires NextHeight(so, su, from, k) && k !in su && forall h :: h in su ==> from <= h
    requires AllReached(so, su, from)
    ensures !Reaches(su, k) && forall h :: h in so && k < h ==> Reaches(su, h)
  {
  }

  /** While the update has blocks left, it reaches below every original block visited. */
  lemma StillReached(so: Slots, su: Slots, from: int, o: Option<Entry>, u: Option<Entry>)
    requires AllReached(so, su, from)
    requires u.Some? ==> u.value.Height() in su
    requires o.None? ==> forall h :: h in so ==> from <= h
    ensures u.Some? && (o.None? || o.value.Height() <= u.value.Height()) ==> AllReached(so, su, u.value.Height())
    ensures u.Some? && o.Some? && u.value.Height() <= o.value.Height() ==> AllReached(so, su, o.value.Height())
  {
  }

  /**
    `merge_chains`. A merge succeeds only if the chains connect, and then returns the change set
    and either the changed original or the update itself. It fails only if the chains do not
    connect or the changed original does not link.
   */
  method MergeChains(originalTip: CheckPoint, updateTip: CheckPoint, eqPtr: (CheckPoint, CheckPoint) -> bool)
    returns (r: MergeResult)
    requires Valid(originalTip) && Valid(updateTip) && PointerEquality(eqPtr)
    ensures var so, su := SlotsOf(Blocks(originalTip)), SlotsOf(Blocks(updateTip));
            && (r.Merged? ==> Connects(so, su) && r.changeset == MergeChanges(so, su) && Valid(r.tip))
            && (r.Merged? ==> MergedTip(originalTip, updateTip, eqPtr, r.changeset, r.tip))
            && (r.CannotConnect? ==>
                  !Connects(so, su) || !Applies(Blocks(originalTip), MergeChanges(so, su)))
            && (r.CannotConnect? && !Connects(so, su) ==> Suggested(so, su, r.tryIncludeHeight))
            && (r.CannotConnect? && Connects(so, su) ==>
                  FailsAt(Blocks(originalTip), MergeChanges(so, su), r.tryIncludeHeight))
  {
    hide FailsAt, FastReturns, NoneShared, SharedAt, Located, SourceAt, Suggested, Reaches, AllReached, LowestFrom,
         Decided, Cursor, ChangesFrom, MergeChanges, Connects, Unambiguous, Junction, Visited, Applies, Applied,
         NextHeight, SlotsOf, Blocks, Valid, ValidEntry, Prev;
    ghost var so, su := SlotsOf(Blocks(originalTip)), SlotsOf(Blocks(updateTip));
    var changeset: ChangeSet := map[];
    var orig: Option<Entry>, update: Option<Entry> := Some(Occupied(originalTip)), Some(Occupied(updateTip));
    var currOrig: Option<Entry>, currUpdate: Option<Entry> := None, None;
    var prevOrig: Option<Entry>, prevUpdate: Option<Entry> := None, None;
    var pointOfAgreementFound, prevOrigWasInvalidated := false, false;
    var potentiallyInvalidated: seq<Height> := [];
    var isSuperset := true;

    ghost var from: int := MAX_U32 + 1;
    StartWalk(originalTip);
    StartWalk(updateTip);
    NothingShared(originalTip, updateTip, eqPtr, so, su);
    Undecided(so, su, from);
    assert AllReached(so, su, from) by { NoneVisited(so, su, from); }
    while true
      invariant 0 <= from
      invariant Decided(so, su, from, changeset, potentiallyInvalidated, prevOrig, prevUpdate,
                        prevOrigWasInvalidated, pointOfAgreementFound, isSuperset)
      invariant Cursor(so, from, currOrig, orig) && Cursor(su, from, currUpdate, update)
      invariant AllReached(so, su, from)
      invariant Under(originalTip, currOrig, orig) && Under(updateTip, currUpdate, update)
      invariant NoneShared(originalTip, updateTip, eqPtr, so, su, from)
      decreases from
    {
      currOrig, orig := Fetch(currOrig, orig, so, from, originalTip);
      currUpdate, update := Fetch(currUpdate, update, su, from, updateTip);
      Heads(so, su, from, currOrig, orig, currUpdate, update);
      StillReached(so, su, from, currOrig, currUpdate);

      if currUpdate.Some? && (currOrig.None? || currUpdate.value.Height() > currOrig.value.Height()) {
        // an update block that the original does not have
        var u := currUpdate.value;
        NotAgreed(originalTip, updateTip, eqPtr, so, su, u.Height());
        NoneSharedStep(originalTip, updateTip, eqPtr, so, su, from, u.Height());
        VisitUpdateOnly(so, su, from, changeset, potentiallyInvalidated, prevOrig, prevUpdate,
                        prevOrigWasInvalidated, pointOfAgreementFound, isSuperset, u);
        if u.Data().Some? {
          changeset := changeset[u.Height() := u.Data()];
        }
        prevUpdate, currUpdate := currUpdate, None;
        from := u.Height();
      } else if currOrig.Some? && (currUpdate.None? || currOrig.value.Height() > currUpdate.value.Height()) {
        // an original block that the update does not have
        var o := currOrig.value;
        NotAgreed(originalTip, updateTip, eqPtr, so, su, o.Height());
        NoneSharedStep(originalTip, updateTip, eqPtr, so, su, from, o.Height());
        VisitOriginalOnly(so, su, from, changeset, potentiallyInvalidated, prevOrig, prevUpdate,
                          prevOrigWasInvalidated, pointOfAgreementFound, isSuperset, o);
        if !o.Placeholder? {
          potentiallyInvalidated := potentiallyInvalidated + [o.Height()];
        }
        prevOrigWasInvalidated := false;
        prevOrig, currOrig := currOrig, None;
        isSuperset := false;
        if currUpdate.None? {
          BelowUpdate(so, su, from, o.Height());
          from := o.Height();
          break;
        }
        from := o.Height();
      } else if currOrig.Some? && currUpdate.Some? {
        var o, u := currOrig.value, currUpdate.value;
        if o.Id().hash == u.Id().hash {
          VisitAgreement(so, su, from, changeset, potentiallyInvalidated, prevOrig, prevUpdate,
                         prevOrigWasInvalidated, pointOfAgreementFound, isSuperset, o, u);
          if !prevOrigWasInvalidated && !pointOfAgreementFound {
            if prevOrig.Some? && prevUpdate.Some? {
              AmbiguousJunction(so, su, o.Height(), prevOrig.value.Height());
              return CannotConnect(prevOrig.value.Height());
            }
          }
          pointOfAgreementFound := true;
          prevOrigWasInvalidated := false;
          SupersetSoFar(so, su, o.Height(),
                        if u.Data().Some? && o.Placeholder? then changeset[u.Height() := u.Data()] else changeset,
                        potentiallyInvalidated, Some(o), Some(u), false, true, isSuperset);
          SharedHere(originalTip, updateTip, eqPtr, so, su, o, u);
          if eqPtr(o.Source(), u.Source()) {
            SameSource(so, su, from, o, orig, u, update);
            SourceIntroducesNothing(so, su, from, o, orig, u, update);
            StopAtAgreement(so, su, o.Height(), changeset, potentiallyInvalidated, Some(o), Some(u), isSuperset);
            FastReturnHere(originalTip, updateTip, eqPtr, so, su, o.Height(), from, isSuperset);
            if isSuperset {
              return Merged(updateTip, changeset);
            } else {
              r := Finish(originalTip, changeset);
              return;
            }
          }
          if u.Data().Some? {
            if o.Placeholder? {
              changeset := changeset[u.Height() := u.Data()];
            }
          }
        } else {
          if o.Height() == 0 && !o.Placeholder? {
            NoConnection(so, su);
            return CannotConnect(0);
          }
          VisitConflict(so, su, from, changeset, potentiallyInvalidated, prevOrig, prevUpdate,
                        prevOrigWasInvalidated, pointOfAgreementFound, isSuperset, o, u);
          changeset := changeset[u.Height() := u.Data()];
          changeset := RemoveAll(changeset, potentiallyInvalidated);
          potentiallyInvalidated := [];
          prevOrigWasInvalidated := true;
          NotAgreed(originalTip, updateTip, eqPtr, so, su, o.Height());
        }
        NoneSharedStep(originalTip, updateTip, eqPtr, so, su, from, o.Height());
        prevUpdate, currUpdate := currUpdate, None;
        prevOrig, currOrig := currOrig, None;
        from := o.Height();
      } else {
        AllVisited(so, su, from);
        break;
      }
    }
    NoFastReturn(originalTip, updateTip, eqPtr, so, su, from);
    WithoutAgreement(so, su, from, changeset, potentiallyInvalidated, prevOrig, prevUpdate,
                     prevOrigWasInvalidated, pointOfAgreementFound, isSuperset);
    if !prevOrigWasInvalidated && !pointOfAgreementFound {
      if prevOrig.Some? {
        return CannotConnect(prevOrig.value.Height());
      }
    }
    r := Finish(originalTip, changeset);
  }

  lemma SourceIntroducesNothing(
    so: Slots, su: Slots, from: int, o: Entry, orig: Option<Entry>, u: Entry, update: Option<Entry>)
    requires Cursor(so, from, Some(o), orig) && Cursor(su, from, Some(u), update)
    requires o.Source() == u.Source() && o.Height() == u.Height()
    ensures o.Placeholder? <==> u.Placeholder?
  {
  }

  lemma NoConnection(so: Slots, su: Slots)
    requires GenesisReplaced(so, su)
    ensures !Connects(so, su) && Suggested(so, su, 0)
  {
  }
}
