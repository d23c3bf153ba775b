/**
  The view of a checkpoint list that `merge_chains` walks (crates/core/src/checkpoint_entry.rs):
  stored checkpoints, and placeholders for blocks known only as the predecessor of a stored one.
 */
module CheckPointEntries {
  import opened Wrappers
  import opened SkipPointers
  import opened CheckPoints

  datatype Entry =
    | Placeholder(id: BlockId, above: CheckPoint)
    | Occupied(cp: CheckPoint)
  {
    function Id(): BlockId { if Placeholder? then id else cp.Id() }

    function Height(): Height { Id().height }

    function Data(): Option<BlockData> { if Placeholder? then None else Some(cp.data) }

    /** `source_checkpoint` */
    function Source(): CheckPoint { if Placeholder? then above else cp }
  }

  predicate ValidEntry(e: Entry) {
    && Valid(e.Source())
    && (e.Placeholder? ==> e.above.height > 0 && e.above.data.prev == Some(e.id.hash)
                           && e.id.height == e.above.height - 1
                           && (e.above.prev.Some? ==> e.above.prev.value.height < e.id.height))
  }

  function Lift(cp: Option<CheckPoint>): Option<Entry> {
    if cp.None? then None else Some(Occupied(cp.value))
  }

  /** `prev` */
  function Prev(e: Entry): Option<Entry> {
    match e
    case Placeholder(_, above) => Lift(above.prev)
    case Occupied(cp) =>
      if cp.height == 0 then None
      else if cp.data.prev.None? then Lift(cp.prev)
      else if cp.prev.Some? && cp.prev.value.height == cp.height - 1 then Some(Occupied(cp.prev.value))
      else Some(Placeholder(BlockId(cp.height - 1, cp.data.prev.value), cp))
  }

  /** The checkpoint that stores the block at a height of the list, or else implies it from above. */
  function SourceAt(cp: CheckPoint, height: Height): CheckPoint {
    if cp.prev.Some? && cp.prev.value.height >= height then SourceAt(cp.prev.value, height) else cp
  }

  /** An entry of the walk from `tip`. */
  ghost predicate Located(tip: CheckPoint, e: Entry) {
    ValidEntry(e) && e.Source() == SourceAt(tip, e.Height())
  }

  lemma {:induction false} SourceBelow(tip: CheckPoint, height: Height, lower: Height)
    requires lower <= height
    ensures SourceAt(tip, lower) == SourceAt(SourceAt(tip, height), lower)
  {
    if tip.prev.Some? && tip.prev.value.height >= height { SourceBelow(tip.prev.value, height, lower); }
  }

  lemma TopLocated(tip: CheckPoint)
    requires Valid(tip)
    ensures Located(tip, Occupied(tip))
  {
  }

  lemma PrevLocated(tip: CheckPoint, e: Entry)
    requires Located(tip, e)
    ensures Prev(e).Some? ==> Located(tip, Prev(e).value)
  {
    PrevLower(e);
    if Prev(e).Some? { SourceBelow(tip, e.Height(), Prev(e).value.Height()); }
  }

  /** What is known of a height: the block hash, and its data if a checkpoint is stored. */
  datatype Slot = Slot(hash: Hash, data: Option<BlockData>)

  type Slots = map<Height, Slot>

  /** A chain holds or implies a block at a height. */
  predicate HasSlot(m: Chain, height: Height) {
    height in m || (height < MAX_U32 && height + 1 in m && m[height + 1].prev.Some?)
  }

  function SlotAt(m: Chain, height: Height): Slot
    requires HasSlot(m, height)
  {
    if height in m then Slot(m[height].hash, Some(m[height])) else Slot(m[height + 1].prev.value, None)
  }

  /** All blocks that a chain holds or implies. */
  function SlotsOf(m: Chain): Slots {
    map h: Height | 0 <= h <= MAX_U32 && HasSlot(m, h) :: SlotAt(m, h)
  }

  function SlotOf(e: Entry): Slot { Slot(e.Id().hash, e.Data()) }

  function Depth(cp: CheckPoint): nat {
    1 + if cp.prev.None? then 0 else Depth(cp.prev.value)
  }

  function Rank(e: Option<Entry>): nat {
    match e
    case None => 0
    case Some(Placeholder(_, above)) => 2 * Depth(above)
    case Some(Occupied(cp)) => 2 * Depth(cp) + 1
  }

  lemma PrevRank(e: Entry)
    ensures Rank(Prev(e)) < Rank(Some(e))
  {
  }

  /** The blocks that iterating from an entry visits. */
  function Visited(e: Option<Entry>): Slots
    decreases Rank(e)
  {
    if e.None? then map[]
    else
      PrevRank(e.value);
      Visited(Prev(e.value))[e.value.Height() := SlotOf(e.value)]
  }

  /** Iteration moves to lower heights. */
  lemma PrevLower(e: Entry)
    requires ValidEntry(e)
    ensures Prev(e).Some? ==> ValidEntry(Prev(e).value) && Prev(e).value.Height() < e.Height()
  {
  }

  lemma {:induction false} VisitedTop(e: Entry)
    requires ValidEntry(e)
    ensures e.Height() in Visited(Some(e)) && Visited(Some(e))[e.Height()] == SlotOf(e)
    ensures forall h :: h in Visited(Some(e)) ==> h <= e.Height()
    decreases Rank(Some(e))
  {
    PrevLower(e);
    PrevRank(e);
    if Prev(e).Some? { VisitedTop(Prev(e).value); }
  }

  /** Whether a block with this data implies a block that is not stored right below it. */
  predicate Implies(lower: Chain, height: Height, data: BlockData) {
    height > 0 && data.prev.Some? && height - 1 !in lower
  }

  /** What a block on top of a chain adds to the slots. */
  lemma SlotsOnTop(lower: Chain, height: Height, data: BlockData)
    requires forall h :: h in lower ==> h < height
    ensures SlotsOf(lower[height := data])
         == (if Implies(lower, height, data) then SlotsOf(lower)[height - 1 := Slot(data.prev.value, None)]
             else SlotsOf(lower))[height := Slot(data.hash, Some(data))]
  {
    hide HasSlot, SlotAt;
    var m := lower[height := data];
    var below := SlotsOf(lower);
    var implied := if Implies(lower, height, data) then below[height - 1 := Slot(data.prev.value, None)] else below;
    var top := implied[height := Slot(data.hash, Some(data))];
    forall h: Height
      ensures h in SlotsOf(m) <==> h in top
      ensures h in SlotsOf(m) ==> SlotsOf(m)[h] == top[h]
    {
      SlotOnTop(lower, height, data, h);
    }
  }

  lemma SlotOnTop(lower: Chain, height: Height, data: BlockData, h: Height)
    requires forall k :: k in lower ==> k < height
    ensures var m := lower[height := data];
            && (HasSlot(m, h) <==>
                HasSlot(lower, h) || h == height || (Implies(lower, height, data) && h == height - 1))
            && (h == height ==> SlotAt(m, h) == Slot(data.hash, Some(data)))
            && (h < height && HasSlot(lower, h) ==> SlotAt(m, h) == SlotAt(lower, h))
            && (Implies(lower, height, data) && h == height - 1 ==> SlotAt(m, h) == Slot(data.prev.value, None))
            && (Implies(lower, height, data) && h == height - 1 ==> !HasSlot(lower, h))
            && (h >= height ==> !HasSlot(lower, h))
  {
    if h < MAX_U32 && h + 1 == height { assert h + 1 in lower[height := data]; }
  }

  lemma NoSlots()
    ensures SlotsOf(map[]) == map[]
  {
  }

  /** Iterating a list visits exactly the blocks its checkpoints hold or imply. */
  lemma {:induction false} VisitedAll(cp: CheckPoint)
    requires Valid(cp)
    ensures Visited(Some(Occupied(cp))) == SlotsOf(Blocks(cp))
  {
    hide SlotsOf;
    var lower := if cp.prev.None? then map[] else Blocks(cp.prev.value);
    if cp.prev.Some? {
      BlocksTop(cp.prev.value);
      VisitedAll(cp.prev.value);
    }
    NoSlots();
    assert Visited(Lift(cp.prev)) == SlotsOf(lower);
    SlotsOnTop(lower, cp.height, cp.data);
    if Implies(lower, cp.height, cp.data) {
      var below := Placeholder(BlockId(cp.height - 1, cp.data.prev.value), cp);
      assert Prev(Occupied(cp)) == Some(below);
      assert Visited(Some(below)) == Visited(Lift(cp.prev))[below.Height() := SlotOf(below)];
    } else {
      assert Prev(Occupied(cp)) == Lift(cp.prev);
    }
  }
}
