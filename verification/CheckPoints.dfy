/**
  The checkpoint list (crates/core/src/checkpoint.rs): an immutable linked list of blocks, each
  node also holding a skip pointer to a deterministically chosen ancestor.
 */
module CheckPoints {
  import opened Wrappers
  import opened SkipPointers

  type Hash = nat

  type Height = U32

  datatype BlockId = BlockId(height: Height, hash: Hash)

  /** What a checkpoint stores: a bare block hash (`prev` is None) or a header linking back. */
  datatype BlockData = BlockData(hash: Hash, prev: Option<Hash>)

  datatype CheckPoint = CheckPoint(
    height: Height,
    data: BlockData,
    prev: Option<CheckPoint>,
    skip: Option<CheckPoint>,
    index: U32)
  {
    function Id(): BlockId { BlockId(height, data.hash) }
  }

  type Chain = map<Height, BlockData>

  // --- The plain list ---

  /** The blocks of the list, by height. */
  function Blocks(cp: CheckPoint): Chain {
    (if cp.prev.None? then map[] else Blocks(cp.prev.value))[cp.height := cp.data]
  }

  /** The ancestor at an index, by following `prev` only. */
  function Ancestor(cp: CheckPoint, target: nat): CheckPoint {
    if cp.index <= target || cp.prev.None? then cp else Ancestor(cp.prev.value, target)
  }

  /** The highest checkpoint at or below a height, by following `prev` only. */
  function Floor(cp: CheckPoint, height: nat): Option<CheckPoint> {
    if cp.height <= height then Some(cp)
    else if cp.prev.None? then None
    else Floor(cp.prev.value, height)
  }

  /** Data at `height` names another block than `below` as its direct predecessor. */
  predicate LinkConflict(below: CheckPoint, height: Height, data: BlockData) {
    below.height + 1 == height && data.prev.Some? && data.prev.value != below.data.hash
  }

  /**
    A well-formed list: heights ascend, adjacent blocks link, indices count from the base, and
    each skip pointer is the ancestor at `SkipIndex(index)`.
   */
  predicate Valid(cp: CheckPoint) {
    match cp.prev
    case None => cp.index == 0 && cp.skip == None
    case Some(p) =>
      && Valid(p)
      && p.height < cp.height
      && !LinkConflict(p, cp.height, cp.data)
      && cp.index == p.index + 1
      && cp.skip == Some(Ancestor(p, SkipIndex(cp.index)))
  }

  /** The block at a height, if it names its predecessor, links to the block stored directly below. */
  predicate LinkedAt(m: Chain, height: Height)
    requires height in m
  {
    height > 0 && height - 1 in m && m[height].prev.Some? ==> m[height].prev.value == m[height - 1].hash
  }

  /** Adjacent blocks of a chain link. */
  predicate Linked(m: Chain) {
    forall h :: h in m ==> LinkedAt(m, h)
  }

  // --- Facts about the plain list ---

  lemma {:induction false} AncestorValid(cp: CheckPoint, target: nat)
    requires Valid(cp) && target <= cp.index
    ensures Valid(Ancestor(cp, target)) && Ancestor(cp, target).index == target
    ensures Ancestor(cp, target).height <= cp.height
  {
    if cp.index > target { AncestorValid(cp.prev.value, target); }
  }

  lemma {:induction false} AncestorTwice(cp: CheckPoint, mid: nat, target: nat)
    requires Valid(cp) && target <= mid <= cp.index
    ensures Ancestor(Ancestor(cp, mid), target) == Ancestor(cp, target)
  {
    if cp.index > mid { AncestorTwice(cp.prev.value, mid, target); }
  }

  /** The index counts predecessors, so it cannot exceed the height. */
  lemma {:induction false} IndexWithinHeight(cp: CheckPoint)
    requires Valid(cp)
    ensures cp.index <= cp.height
  {
    if cp.prev.Some? { IndexWithinHeight(cp.prev.value); }
  }

  lemma {:induction false} BlocksTop(cp: CheckPoint)
    requires Valid(cp)
    ensures cp.height in Blocks(cp) && Blocks(cp)[cp.height] == cp.data
    ensures forall h :: h in Blocks(cp) ==> h <= cp.height
  {
    if cp.prev.Some? { BlocksTop(cp.prev.value); }
  }

  lemma {:induction false} BlocksLinked(cp: CheckPoint)
    requires Valid(cp)
    ensures Linked(Blocks(cp))
  {
    if cp.prev.Some? {
      var p := cp.prev.value;
      BlocksLinked(p);
      BlocksTop(p);
    }
  }

  /** A well-formed list is determined by its blocks. */
  lemma {:induction false} SameBlocksSameList(a: CheckPoint, b: CheckPoint)
    requires Valid(a) && Valid(b) && Blocks(a) == Blocks(b)
    ensures a == b
  {
    BlocksTop(a);
    BlocksTop(b);
    assert a.height == b.height && a.data == b.data;
    if a.prev.Some? { BlocksTop(a.prev.value); }
    if b.prev.Some? { BlocksTop(b.prev.value); }
    var below := Blocks(a) - {a.height};
    assert below == if a.prev.None? then map[] else Blocks(a.prev.value);
    assert below == if b.prev.None? then map[] else Blocks(b.prev.value);
    assert a.prev.Some? ==> a.prev.value.height in below;
    assert b.prev.Some? ==> b.prev.value.height in below;
    if a.prev.Some? {
      SameBlocksSameList(a.prev.value, b.prev.value);
    }
  }

  function UpTo(m: Chain, height: int): Chain {
    map h | h in m && h <= height :: m[h]
  }

  function Above(m: Chain, height: int): Chain {
    map h | h in m && h > height :: m[h]
  }

  /** The floor holds exactly the blocks at or below the height. */
  lemma {:induction false} FloorBlocks(cp: CheckPoint, height: nat)
    requires Valid(cp)
    ensures Floor(cp, height).None? <==> UpTo(Blocks(cp), height) == map[]
    ensures Floor(cp, height).Some? ==>
              var f := Floor(cp, height).value;
              && Valid(f)
              && f.height <= height
              && Blocks(f) == UpTo(Blocks(cp), height)
  {
    BlocksTop(cp);
    if cp.height <= height {
      assert UpTo(Blocks(cp), height) == Blocks(cp);
      assert cp.height in UpTo(Blocks(cp), height);
    } else if cp.prev.Some? {
      FloorBlocks(cp.prev.value, height);
      assert UpTo(Blocks(cp), height) == UpTo(Blocks(cp.prev.value), height);
    } else {
      assert UpTo(Blocks(cp), height) == map[];
    }
  }

  /** The floor below an ancestor is the floor below the list, if the ancestor is not too low. */
  lemma {:induction false} FloorOfAncestor(cp: CheckPoint, target: nat, height: nat)
    requires Valid(cp) && target <= cp.index && Ancestor(cp, target).height >= height
    ensures Floor(Ancestor(cp, target), height) == Floor(cp, height)
  {
    if cp.index > target {
      AncestorValid(cp.prev.value, target);
      FloorOfAncestor(cp.prev.value, target, height);
    }
  }

  // --- Walks that ride the skip pointers ---

  /** `ancestor_by_index`: reaches the ancestor at `target` within a quadratic number of hops. */
  method AncestorByIndex(start: CheckPoint, target: U32) returns (r: CheckPoint, ghost hops: nat)
    requires Valid(start) && target <= start.index
    ensures r == Ancestor(start, target)
    ensures hops <= HopBound(start.index)
  {
    hide SkipIndex, HopRank, PopCount, HopBound, UsesSkip;
    var curr := start;
    hops := 0;
    ghost var bits := BitLen(start.index);
    InitialRank(start.index, target);
    while curr.index > target
      invariant Valid(curr) && target <= curr.index <= start.index
      invariant Ancestor(curr, target) == Ancestor(start, target)
      invariant hops + HopRank(curr.index, target, bits) <= HopBound(start.index)
      decreases curr.index
    {
      var useSkip := curr.skip.Some? && UsesSkip(curr.index, target);
      PopCountBound(curr.index, start.index);
      HopDecreases(curr.index, target, bits);
      AncestorValid(curr.prev.value, SkipIndex(curr.index));
      if useSkip {
        AncestorTwice(curr.prev.value, SkipIndex(curr.index), target);
      }
      curr := if useSkip then curr.skip.value else curr.prev.value;
      hops := hops + 1;
    }
    r := curr;
  }

  /** `walk_to_floor`: the heuristics on heights never step past the floor. */
  method WalkToFloor(start: CheckPoint, height: Height) returns (r: Option<CheckPoint>)
    requires Valid(start)
    ensures r == Floor(start, height)
  {
    hide SkipIndex;
    var curr := start;
    while curr.height > height
      invariant Valid(curr) && Floor(curr, height) == Floor(start, height)
      decreases curr.index
    {
      var takeSkip := false;
      if curr.skip.Some? {
        var skip := curr.skip.value;
        AncestorValid(curr.prev.value, SkipIndex(curr.index));
        if skip.height < height {
          takeSkip := false;
        } else if skip.height == height {
          takeSkip := true;
        } else if curr.prev.Some? && curr.prev.value.skip.Some? {
          var prevSkip := curr.prev.value.skip.value;
          var gap := SaturatingSub(skip.height, prevSkip.height);
          takeSkip := !(gap > 2 && prevSkip.height >= height);
        } else {
          takeSkip := true;
        }
      }
      if takeSkip {
        FloorOfAncestor(curr.prev.value, SkipIndex(curr.index), height);
        curr := curr.skip.value;
      } else {
        if curr.prev.None? { return None; }
        curr := curr.prev.value;
      }
    }
    return Some(curr);
  }

  /** `get`. */
  method Get(cp: CheckPoint, height: Height) returns (r: Option<CheckPoint>)
    requires Valid(cp)
    ensures r.Some? <==> height in Blocks(cp)
    ensures r.Some? ==>
              && Valid(r.value)
              && r.value.height == height
              && r.value.data == Blocks(cp)[height]
              && Blocks(r.value) == UpTo(Blocks(cp), height)
  {
    BlocksTop(cp);
    if cp.height < height { return None; }
    FloorBlocks(cp, height);
    var floor := WalkToFloor(cp, height);
    if floor.None? {
      assert height in Blocks(cp) ==> height in UpTo(Blocks(cp), height);
      return None;
    }
    BlocksTop(floor.value);
    assert height in Blocks(cp) ==> height in Blocks(floor.value);
    return if floor.value.height == height then floor else None;
  }

  // --- Ranges ---

  datatype Bound = Included(height: Height) | Excluded(height: Height) | Unbounded

  predicate AboveStart(lo: Bound, height: Height) {
    match lo
    case Included(b) => height >= b
    case Excluded(b) => height > b
    case Unbounded => true
  }

  predicate BelowEnd(hi: Bound, height: Height) {
    match hi
    case Included(b) => height <= b
    case Excluded(b) => height < b
    case Unbounded => true
  }

  /** The checkpoints of the list within both bounds, highest first. */
  function InRangeOf(cp: Option<CheckPoint>, lo: Bound, hi: Bound): seq<CheckPoint> {
    if cp.None? then [] else InRange(cp.value, lo, hi)
  }

  function InRange(cp: CheckPoint, lo: Bound, hi: Bound): seq<CheckPoint> {
    (if AboveStart(lo, cp.height) && BelowEnd(hi, cp.height) then [cp] else [])
    + InRangeOf(cp.prev, lo, hi)
  }

  lemma {:induction false} RangeBelowStart(cp: CheckPoint, lo: Bound, hi: Bound)
    requires Valid(cp) && !AboveStart(lo, cp.height)
    ensures InRange(cp, lo, hi) == []
  {
    if cp.prev.Some? { RangeBelowStart(cp.prev.value, lo, hi); }
  }

  /** Nothing above the floor of the end bound is in range. */
  lemma {:induction false} RangeFromFloor(cp: CheckPoint, lo: Bound, hi: Bound, last: nat)
    requires Valid(cp)
    requires forall h: Height :: BelowEnd(hi, h) <==> h <= last
    ensures InRange(cp, lo, hi) == InRangeOf(Floor(cp, last), lo, hi)
  {
    if cp.height > last && cp.prev.Some? { RangeFromFloor(cp.prev.value, lo, hi, last); }
  }

  lemma {:induction false} EmptyRange(cp: CheckPoint, lo: Bound)
    ensures InRange(cp, lo, Excluded(0)) == []
  {
    if cp.prev.Some? { EmptyRange(cp.prev.value, lo); }
  }

  /** Where `range` starts: the floor of the end bound. */
  method RangeStart(cp: CheckPoint, lo: Bound, hi: Bound) returns (r: Option<CheckPoint>)
    requires Valid(cp)
    ensures hi.Included? ==> r == Floor(cp, hi.height)
    ensures hi.Excluded? ==> r == if hi.height == 0 then None else Floor(cp, hi.height - 1)
    ensures hi.Unbounded? ==> r == Some(cp)
    ensures r.Some? ==> Valid(r.value) && BelowEnd(hi, r.value.height)
    ensures InRange(cp, lo, hi) == InRangeOf(r, lo, hi)
  {
    if hi == Unbounded { return Some(cp); }
    if hi == Excluded(0) {
      EmptyRange(cp, lo);
      return None;
    }
    var last := if hi.Included? then hi.height else hi.height - 1;
    RangeFromFloor(cp, lo, hi, last);
    FloorBlocks(cp, last);
    r := WalkToFloor(cp, last);
  }

  /** The height lies within the bounds. */
  predicate Within(lo: Bound, hi: Bound, h: Height) {
    && (lo.Included? ==> lo.height <= h) && (lo.Excluded? ==> lo.height < h)
    && (hi.Included? ==> h <= hi.height) && (hi.Excluded? ==> h < hi.height)
  }

  /** The heights of the list within the bounds, descending, each with the checkpoint at it. */
  ghost predicate ListsWithin(cp: CheckPoint, lo: Bound, hi: Bound, r: seq<CheckPoint>) {
    && (forall i, j :: 0 <= i < j < |r| ==> r[i].height > r[j].height)
    && (forall k :: 0 <= k < |r| ==> IsAtWithin(cp, lo, hi, r[k]))
    && (forall h: Height :: h in Blocks(cp) && Within(lo, hi, h) ==> exists k :: 0 <= k < |r| && r[k].height == h)
  }

  /** The checkpoint is the one of the list at its height, and that lies within the bounds. */
  predicate IsAtWithin(cp: CheckPoint, lo: Bound, hi: Bound, x: CheckPoint) {
    x.height in Blocks(cp) && Within(lo, hi, x.height) && Floor(cp, x.height) == Some(x)
  }

  lemma {:induction false} InRangeLists(cp: CheckPoint, lo: Bound, hi: Bound)
    requires Valid(cp)
    ensures ListsWithin(cp, lo, hi, InRange(cp, lo, hi))
  {
    hide Valid, ListsWithin, Within, InRange, InRangeOf, Blocks;
    BlocksTop(cp);
    if cp.prev.None? {
      InRangeBase(cp, lo, hi);
    } else {
      ValidBelow(cp);
      InRangeLists(cp.prev.value, lo, hi);
      InRangeParts(cp, lo, hi);
      var rest := InRange(cp.prev.value, lo, hi);
      if Within(lo, hi, cp.height) {
        ListedOnTop(cp, lo, hi, rest);
      } else {
        ListedBelow(cp, lo, hi, rest);
        assert [] + rest == rest;
      }
    }
  }

  lemma ValidBelow(cp: CheckPoint)
    requires Valid(cp) && cp.prev.Some?
    ensures Valid(cp.prev.value) && cp.prev.value.height < cp.height
    ensures forall h :: h in Blocks(cp.prev.value) ==> h < cp.height
  {
    BlocksTop(cp.prev.value);
  }

  lemma InRangeBase(cp: CheckPoint, lo: Bound, hi: Bound)
    requires cp.prev.None?
    ensures ListsWithin(cp, lo, hi, InRange(cp, lo, hi))
  {
    BaseAlone(cp, lo, hi);
    hide InRange, InRangeOf, Within, Blocks, Floor;
    var r := InRange(cp, lo, hi);
    if Within(lo, hi, cp.height) { assert r[0].height == cp.height; }
  }

  lemma BaseAlone(cp: CheckPoint, lo: Bound, hi: Bound)
    requires cp.prev.None?
    ensures InRange(cp, lo, hi) == if Within(lo, hi, cp.height) then [cp] else []
    ensures Floor(cp, cp.height) == Some(cp) && forall h :: h in Blocks(cp) <==> h == cp.height
  {
  }

  lemma InRangeParts(cp: CheckPoint, lo: Bound, hi: Bound)
    requires cp.prev.Some?
    ensures InRange(cp, lo, hi)
         == (if Within(lo, hi, cp.height) then [cp] else []) + InRange(cp.prev.value, lo, hi)
  {
    assert InRangeOf(cp.prev, lo, hi) == InRange(cp.prev.value, lo, hi);
  }

  lemma TopAndBelow(cp: CheckPoint, lo: Bound, hi: Bound)
    requires cp.prev.Some? && forall h :: h in Blocks(cp.prev.value) ==> h < cp.height
    ensures Within(lo, hi, cp.height) ==> IsAtWithin(cp, lo, hi, cp)
    ensures forall x :: IsAtWithin(cp.prev.value, lo, hi, x) ==> IsAtWithin(cp, lo, hi, x) && x.height < cp.height
    ensures forall h: Height :: h in Blocks(cp) && h != cp.height ==> h in Blocks(cp.prev.value)
  {
  }

  /** A checkpoint within the bounds on top of those below it. */
  lemma ListedOnTop(cp: CheckPoint, lo: Bound, hi: Bound, rest: seq<CheckPoint>)
    requires cp.prev.Some? && forall h :: h in Blocks(cp.prev.value) ==> h < cp.height
    requires Within(lo, hi, cp.height) && ListsWithin(cp.prev.value, lo, hi, rest)
    ensures ListsWithin(cp, lo, hi, [cp] + rest)
  {
    hide Within, Blocks, Floor, IsAtWithin;
    TopAndBelow(cp, lo, hi);
    var r := [cp] + rest;
    forall h: Height | h in Blocks(cp) && Within(lo, hi, h) ensures exists k :: 0 <= k < |r| && r[k].height == h {
      if h == cp.height {
        assert r[0].height == h;
      } else {
        var k :| 0 <= k < |rest| && rest[k].height == h;
        assert r[k + 1].height == h;
      }
    }
  }

  lemma ListedBelow(cp: CheckPoint, lo: Bound, hi: Bound, rest: seq<CheckPoint>)
    requires cp.prev.Some? && forall h :: h in Blocks(cp.prev.value) ==> h < cp.height
    requires !Within(lo, hi, cp.height) && ListsWithin(cp.prev.value, lo, hi, rest)
    ensures ListsWithin(cp, lo, hi, rest)
  {
    hide Within, Blocks, Floor, IsAtWithin;
    TopAndBelow(cp, lo, hi);
  }

  /** `range`, collected: the walk starts at the floor of the end bound and stops at the start. */
  method Range(cp: CheckPoint, lo: Bound, hi: Bound) returns (r: seq<CheckPoint>)
    requires Valid(cp)
    ensures r == InRange(cp, lo, hi) && ListsWithin(cp, lo, hi, r)
  {
    hide ListsWithin, Blocks, Ancestor, SkipIndex, Valid, Floor, InRange, InRangeOf;
    InRangeLists(cp, lo, hi);
    var curr := RangeStart(cp, lo, hi);
    r := [];
    assert InRange(cp, lo, hi) == [] + InRangeOf(curr, lo, hi);
    while curr.Some? && AboveStart(lo, curr.value.height)
      invariant curr.Some? ==> Valid(curr.value) && BelowEnd(hi, curr.value.height)
      invariant InRange(cp, lo, hi) == r + InRangeOf(curr, lo, hi)
      decreases curr
    {
      InRangeOne(curr.value, lo, hi);
      ghost var rest := InRangeOf(curr.value.prev, lo, hi);
      assert r + ([curr.value] + rest) == r + [curr.value] + rest;
      r := r + [curr.value];
      curr := curr.value.prev;
    }
    RangeEnds(curr, lo, hi);
    assert r + [] == r;
  }

  lemma InRangeOne(cp: CheckPoint, lo: Bound, hi: Bound)
    requires Valid(cp) && AboveStart(lo, cp.height) && BelowEnd(hi, cp.height)
    ensures InRangeOf(Some(cp), lo, hi) == [cp] + InRangeOf(cp.prev, lo, hi)
    ensures cp.prev.Some? ==> Valid(cp.prev.value) && BelowEnd(hi, cp.prev.value.height)
  {
  }

  lemma RangeEnds(cp: Option<CheckPoint>, lo: Bound, hi: Bound)
    requires cp.Some? ==> Valid(cp.value) && !AboveStart(lo, cp.value.height)
    ensures InRangeOf(cp, lo, hi) == []
  {
    if cp.Some? { RangeBelowStart(cp.value, lo, hi); }
  }

  /** `floor_at` is the first of `range(..=height)`. */
  method FloorAt(cp: CheckPoint, height: Height) returns (r: Option<CheckPoint>)
    requires Valid(cp)
    ensures r == Floor(cp, height)
  {
    RangeFromFloor(cp, Unbounded, Included(height), height);
    FloorBlocks(cp, height);
    var cps := Range(cp, Unbounded, Included(height));
    r := if cps == [] then None else Some(cps[0]);
  }

  // --- Iteration ---

  /** All checkpoints from the tip down. */
  function Nodes(cp: CheckPoint): (r: seq<CheckPoint>)
    ensures |r| > 0 && r[0] == cp
  {
    [cp] + NodesOf(cp.prev)
  }

  function NodesOf(cp: Option<CheckPoint>): seq<CheckPoint> {
    if cp.None? then [] else Nodes(cp.value)
  }

  /** Position `k` from the tip holds the ancestor `k` indices below, and the rest follow it. */
  lemma {:induction false} NodesByIndex(cp: CheckPoint, k: nat)
    requires Valid(cp)
    ensures |Nodes(cp)| == cp.index + 1
    ensures k <= cp.index ==>
              var a := Ancestor(cp, cp.index - k);
              Nodes(cp)[k] == a && Nodes(cp)[k + 1..] == NodesOf(a.prev)
  {
    if cp.prev.Some? {
      var p := cp.prev.value;
      NodesByIndex(p, if k == 0 then 0 else k - 1);
      assert Nodes(cp) == [cp] + Nodes(p);
      if 0 < k <= cp.index {
        assert Nodes(cp)[k + 1..] == Nodes(p)[k..];
      }
    }
  }

  /** `CheckPointIter`. */
  class CheckPointIter {
    var next: Option<CheckPoint>

    ghost predicate Consistent() reads this {
      next.Some? ==> Valid(next.value)
    }

    /** What is still to be yielded. */
    ghost function Remaining(): seq<CheckPoint> reads this {
      NodesOf(next)
    }

    constructor (cp: CheckPoint)
      requires Valid(cp)
      ensures Consistent() && Remaining() == Nodes(cp)
    {
      next := Some(cp);
    }

    method Next() returns (r: Option<CheckPoint>)
      requires Consistent()
      modifies this
      ensures Consistent()
      ensures old(Remaining()) == [] ==> r == None && Remaining() == []
      ensures old(Remaining()) != [] ==>
                r == Some(old(Remaining())[0]) && Remaining() == old(Remaining())[1..]
    {
      r := next;
      if r.Some? {
        assert Nodes(r.value)[1..] == NodesOf(r.value.prev);
        next := r.value.prev;
      }
    }

    method Nth(n: nat) returns (r: Option<CheckPoint>)
      requires Consistent()
      modifies this
      ensures Consistent()
      ensures n < |old(Remaining())| ==>
                r == Some(old(Remaining())[n]) && Remaining() == old(Remaining())[n + 1..]
      ensures n >= |old(Remaining())| ==> r == None && Remaining() == []
    {
      if next.None? { return None; }
      var current := next.value;
      next := None;
      NodesByIndex(current, n);
      if n > MAX_U32 || n > current.index { return None; }
      var inner, _ := AncestorByIndex(current, current.index - n);
      AncestorValid(current, current.index - n);
      next := inner.prev;
      return Some(inner);
    }

    method Last() returns (r: Option<CheckPoint>)
      requires Consistent()
      ensures r == if Remaining() == [] then None else Some(Remaining()[|Remaining()| - 1])
    {
      if next.None? { return None; }
      NodesByIndex(next.value, next.value.index);
      var base, _ := AncestorByIndex(next.value, 0);
      return Some(base);
    }

    method Count() returns (n: nat)
      requires Consistent()
      ensures n == |Remaining()|
    {
      if next.None? { return 0; }
      NodesByIndex(next.value, 0);
      return next.value.index + 1;
    }
  }
}
