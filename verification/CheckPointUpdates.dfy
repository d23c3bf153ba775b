/**
  Growing and editing a checkpoint list: `new`, `push`, `extend`, `from_blocks` and `insert`
  (crates/core/src/checkpoint.rs).
 */
module CheckPointUpdates {
  import opened Wrappers
  import opened SkipPointers
  import opened CheckPoints

  type Item = (Height, BlockData)

  function New(height: Height, data: BlockData): (cp: CheckPoint)
    ensures Valid(cp) && Blocks(cp) == map[height := data]
  {
    CheckPoint(height, data, None, None, 0)
  }

  /** A block fits on top of a list if it is higher and does not contradict the link to the tip. */
  predicate Fits(cp: CheckPoint, item: Item) {
    cp.height < item.0 && !LinkConflict(cp, item.0, item.1)
  }

  /** The list with one more block on top. */
  function Pushed(cp: CheckPoint, item: Item): (r: CheckPoint)
    requires Valid(cp) && Fits(cp, item)
    ensures Valid(r) && r.height == item.0 && r.data == item.1
    ensures Blocks(r) == Blocks(cp)[item.0 := item.1]
  {
    IndexWithinHeight(cp);
    CheckPoint(item.0, item.1, Some(cp), Some(Ancestor(cp, SkipIndex(cp.index + 1))), cp.index + 1)
  }

  /** `push`: the new index cannot overflow, because indices stay within heights. */
  method Push(cp: CheckPoint, height: Height, data: BlockData) returns (r: Result<CheckPoint, CheckPoint>)
    requires Valid(cp)
    ensures r == if Fits(cp, (height, data)) then Ok(Pushed(cp, (height, data))) else Err(cp)
  {
    if height <= cp.height { return Err(cp); }
    if data.prev.Some? {
      if cp.height + 1 == height && cp.data.hash != data.prev.value {
        return Err(cp);
      }
    }
    IndexWithinHeight(cp);
    var newIndex: U32 := cp.index + 1;
    var skip, _ := AncestorByIndex(cp, SkipIndex(newIndex));
    return Ok(CheckPoint(height, data, Some(cp), Some(skip), newIndex));
  }

  /** Pushing items one by one until one does not fit. */
  function Extended(cp: CheckPoint, items: seq<Item>): (r: Result<CheckPoint, CheckPoint>)
    requires Valid(cp)
    ensures r.Ok? ==> Valid(r.value)
    ensures r.Err? ==> Valid(r.error)
    decreases |items|
  {
    if items == [] then Ok(cp)
    else if Fits(cp, items[0]) then Extended(Pushed(cp, items[0]), items[1..])
    else Err(cp)
  }

  /** `extend`. */
  method Extend(start: CheckPoint, items: seq<Item>) returns (r: Result<CheckPoint, CheckPoint>)
    requires Valid(start)
    ensures r == Extended(start, items)
  {
    var cp := start;
    for i := 0 to |items|
      invariant Valid(cp) && Extended(cp, items[i..]) == Extended(start, items)
    {
      assert items[i..][1..] == items[i + 1..];
      var next := Push(cp, items[i].0, items[i].1);
      if next.Err? { return next; }
      cp := next.value;
    }
    return Ok(cp);
  }

  function FromItems(items: seq<Item>): Result<CheckPoint, Option<CheckPoint>> {
    if items == [] then Err(None)
    else match Extended(New(items[0].0, items[0].1), items[1..])
      case Ok(cp) => Ok(cp)
      case Err(cp) => Err(Some(cp))
  }

  /** `from_blocks`. */
  method FromBlocks(items: seq<Item>) returns (r: Result<CheckPoint, Option<CheckPoint>>)
    ensures r == FromItems(items)
  {
    if items == [] { return Err(None); }
    var e := Extend(New(items[0].0, items[0].1), items[1..]);
    match e {
      case Ok(cp) => return Ok(cp);
      case Err(cp) => return Err(Some(cp));
    }
  }

  // --- What extending amounts to on the blocks ---

  /** `items` lists the blocks of `m` from the lowest up. */
  ghost predicate Lists(items: seq<Item>, m: Chain) {
    if items == [] then m == map[]
    else
      var (h, data) := items[0];
      h in m && m[h] == data && (forall k :: k in m ==> h <= k) && Lists(items[1..], m - {h})
  }

  /** The block is the lowest that the one directly above it does not name as its predecessor. */
  predicate FirstMismatch(m: Chain, id: BlockId) {
    && id.height in m && m[id.height].hash == id.hash
    && id.height < MAX_U32 && id.height + 1 in m
    && m[id.height + 1].prev.Some? && m[id.height + 1].prev.value != id.hash
    && forall h :: h in m && h <= id.height ==> LinkedAt(m, h)
  }

  /** Extending adds the listed blocks exactly if all adjacent blocks then link. */
  lemma {:induction false} ExtendedBlocks(cp: CheckPoint, items: seq<Item>, m: Chain)
    requires Valid(cp) && Lists(items, m) && forall h :: h in m ==> cp.height < h
    ensures Extended(cp, items).Ok? <==> Linked(Blocks(cp) + m)
    ensures Extended(cp, items).Ok? ==> Blocks(Extended(cp, items).value) == Blocks(cp) + m
    ensures Extended(cp, items).Err? ==> FirstMismatch(Blocks(cp) + m, Extended(cp, items).error.Id())
    decreases |items|
  {
    if items == [] {
      assert Blocks(cp) + m == Blocks(cp);
      BlocksLinked(cp);
    } else if Fits(cp, items[0]) {
      var (h, data) := items[0];
      assert Blocks(cp) + m == Blocks(Pushed(cp, items[0])) + (m - {h});
      ExtendedBlocks(Pushed(cp, items[0]), items[1..], m - {h});
    } else {
      FirstUnlinked(cp, items[0], m);
    }
  }

  lemma FirstUnlinked(cp: CheckPoint, item: Item, m: Chain)
    requires Valid(cp) && LinkConflict(cp, item.0, item.1)
    requires item.0 in m && m[item.0] == item.1 && forall h :: h in m ==> cp.height < h
    ensures !Linked(Blocks(cp) + m) && FirstMismatch(Blocks(cp) + m, cp.Id())
  {
    BlocksTop(cp);
    BlocksLinked(cp);
    var all := Blocks(cp) + m;
    assert item.0 in all && item.0 - 1 in all && all[item.0 - 1] == cp.data;
    assert !LinkedAt(all, item.0);
    forall h | h in all && h <= cp.height ensures LinkedAt(all, h) {
      assert h in Blocks(cp) && LinkedAt(Blocks(cp), h);
    }
  }

  /** Listed blocks build a list exactly if they link. */
  lemma ListBuilds(items: seq<Item>, m: Chain)
    requires Lists(items, m) && items != []
    ensures FromItems(items).Ok? <==> Linked(m)
    ensures FromItems(items).Ok? ==> Valid(FromItems(items).value) && Blocks(FromItems(items).value) == m
    ensures FromItems(items).Err? ==>
              FromItems(items).error.Some? && FirstMismatch(m, FromItems(items).error.value.Id())
  {
    var (h0, d0) := items[0];
    assert Blocks(New(h0, d0)) + (m - {h0}) == m;
    ExtendedBlocks(New(h0, d0), items[1..], m - {h0});
  }

  // --- Insertion ---

  predicate SameBlock(m: Chain, height: Height, data: BlockData) {
    height in m && m[height].hash == data.hash
  }

  predicate ConflictAt(m: Chain, height: Height, data: BlockData) {
    height in m && m[height].hash != data.hash
  }

  /** The inserted data links to another block than the one stored directly below. */
  predicate ConflictBelow(m: Chain, height: Height, data: BlockData) {
    height > 0 && height - 1 in m && data.prev.Some? && data.prev.value != m[height - 1].hash
  }

  /** The block stored directly above links to another block than the inserted one. */
  predicate ConflictAbove(m: Chain, height: Height, data: BlockData) {
    height < MAX_U32 && height + 1 in m && m[height + 1].prev.Some? && m[height + 1].prev.value != data.hash
  }

  /** The insertion would replace, or link to another block than, the stored genesis. */
  predicate ReplacesGenesis(m: Chain, height: Height, data: BlockData) {
    && 0 in m && !SameBlock(m, height, data)
    && ((height == 0 && ConflictAt(m, height, data)) || (height == 1 && ConflictBelow(m, height, data)))
  }

  function Lower(m: Chain, height: Height, data: BlockData): Chain {
    map h | h in m && h < height && !(h + 1 == height && ConflictBelow(m, height, data)) :: m[h]
  }

  /** The blocks after inserting. */
  function WithInserted(m: Chain, height: Height, data: BlockData): Chain {
    if SameBlock(m, height, data) then m
    else
      var lower := Lower(m, height, data)[height := data];
      if ConflictAt(m, height, data) || ConflictBelow(m, height, data) || ConflictAbove(m, height, data) then lower
      else lower + Above(m, height)
  }

  datatype Insertion = Panicked | Inserted(cp: CheckPoint)

  function Reverse<T>(s: seq<T>): seq<T> {
    if s == [] then [] else [s[|s| - 1]] + Reverse(s[..|s| - 1])
  }

  /** The blocks to put back on top, once all blocks from height `from` up have been visited. */
  function Kept(m: Chain, from: nat, height: Height, data: BlockData): Chain {
    if (from <= height && ConflictAt(m, height, data)) || (from < height && ConflictBelow(m, height, data)) then map[]
    else map h | h in m && h >= from && h > height :: m[h]
  }

  lemma PrevBlocks(cp: CheckPoint, m: Chain)
    requires Valid(cp) && Blocks(cp) == UpTo(m, cp.height)
    ensures cp.prev.Some? ==> Blocks(cp.prev.value) == UpTo(m, cp.prev.value.height)
    ensures forall h :: h in m && h < cp.height ==> cp.prev.Some? && h <= cp.prev.value.height
  {
    forall h | h in m && h < cp.height
      ensures cp.prev.Some? && h in Blocks(cp.prev.value) && h <= cp.prev.value.height
    {
      assert h in UpTo(m, cp.height);
      assert h in Blocks(cp);
      if cp.prev.Some? { BlocksTop(cp.prev.value); }
    }
    if cp.prev.Some? {
      BlocksTop(cp.prev.value);
      assert forall h :: h in Blocks(cp.prev.value) ==> h in Blocks(cp);
    }
  }

  /** Visiting a block above the insertion collects it below all the others. */
  lemma CollectAbove(tail: seq<Item>, m: Chain, cp: CheckPoint, height: Height, data: BlockData)
    requires height < cp.height && cp.height in m && m[cp.height] == cp.data
    requires Lists(Reverse(tail), Kept(m, cp.height + 1, height, data))
    ensures Lists(Reverse(tail + [(cp.height, cp.data)]), Kept(m, cp.height, height, data))
  {
    var item := (cp.height, cp.data);
    RebuiltItems(tail, item);
    assert ([item] + Reverse(tail))[1..] == Reverse(tail);
    assert Kept(m, cp.height, height, data) - {cp.height} == Kept(m, cp.height + 1, height, data);
  }

  lemma NothingVisited(m: Chain, from: nat, height: Height, data: BlockData)
    requires forall h :: h in m ==> h < from
    ensures Lists(Reverse([]), Kept(m, from, height, data))
  {
  }

  /** Once a conflict has been visited nothing above the insertion is kept. */
  lemma KeptNothing(m: Chain, from: nat, height: Height, data: BlockData)
    requires (from == height && ConflictAt(m, height, data)) || (from + 1 == height && ConflictBelow(m, height, data))
    ensures Lists(Reverse([]), Kept(m, from, height, data))
  {
  }

  /** Between two stored heights nothing is left to collect. */
  lemma KeptBetween(m: Chain, lo: nat, hi: nat, height: Height, data: BlockData)
    requires lo <= hi
    requires forall h :: h in m ==> !(lo <= h < hi)
    ensures Kept(m, lo, height, data) == Kept(m, hi, height, data)
  {
  }

  lemma BaseFound(m: Chain, position: Height, height: Height, data: BlockData)
    requires position < height && !(position + 1 == height && ConflictBelow(m, height, data))
    requires forall h :: h in m && position < h < height ==> h + 1 == height && ConflictBelow(m, height, data)
    ensures Kept(m, position + 1, height, data) == Kept(m, 0, height, data)
    ensures Lower(m, height, data) == UpTo(m, position)
    ensures position > 0 ==> !ReplacesGenesis(m, height, data)
  {
  }

  lemma NothingBelow(m: Chain, position: Height, height: Height, data: BlockData)
    requires forall h :: h in m ==> h >= position
    requires position >= height || (position + 1 == height && ConflictBelow(m, height, data))
    ensures Lower(m, height, data) == map[]
    ensures position > 0 ==> !ReplacesGenesis(m, height, data)
  {
  }

  lemma GenesisCheck(m: Chain, height: Height, data: BlockData)
    ensures ReplacesGenesis(m, height, data)
       <==> 0 in m && !SameBlock(m, height, data)
            && ((height == 0 && data.hash != m[0].hash)
                || (height == 1 && data.prev.Some? && data.prev.value != m[0].hash))
  {
  }

  /** The traversal of `insert`: where to insert, and what to put back on top. */
  datatype Split = GenesisChanged | Unchanged | At(base: Option<CheckPoint>, tail: seq<Item>)

  method FindBase(start: CheckPoint, height: Height, data: BlockData) returns (r: Split)
    requires Valid(start)
    ensures r.GenesisChanged? <==> ReplacesGenesis(Blocks(start), height, data)
    ensures r.Unchanged? <==> SameBlock(Blocks(start), height, data)
    ensures r.At? ==>
              && Lists(Reverse(r.tail), Kept(Blocks(start), 0, height, data))
              && (r.base.None? ==> Lower(Blocks(start), height, data) == map[])
              && (r.base.Some? ==> Valid(r.base.value) && r.base.value.height < height
                                   && Blocks(r.base.value) == Lower(Blocks(start), height, data))
  {
    hide Blocks, Kept, Lists, Reverse, Linked, ReplacesGenesis, Lower;
    ghost var m := Blocks(start);
    var cp := start;
    var tail: seq<Item> := [];
    BlocksTop(start);
    assert UpTo(m, start.height) == m;
    NothingVisited(m, start.height + 1, height, data);
    while true
      invariant Valid(cp) && Blocks(cp) == UpTo(m, cp.height)
      invariant SameBlock(m, height, data) ==> cp.height >= height
      invariant forall h :: h in m && cp.height < h < height ==> h + 1 == height && ConflictBelow(m, height, data)
      invariant Lists(Reverse(tail), Kept(m, cp.height + 1, height, data))
      decreases cp
    {
      BlocksTop(cp);
      PrevBlocks(cp, m);
      if cp.height == 0 {
        if (height == 0 && data.hash != cp.data.hash)
           || (height == 1 && data.prev.Some? && data.prev.value != cp.data.hash)
        {
          assert ReplacesGenesis(m, height, data) by { GenesisCheck(m, height, data); }
          return GenesisChanged;
        }
      }
      assert cp.height == 0 ==> !ReplacesGenesis(m, height, data) by { GenesisCheck(m, height, data); }
      if cp.height > height {
        CollectAbove(tail, m, cp, height, data);
        tail := tail + [(cp.height, cp.data)];
      } else if cp.height == height {
        if cp.data.hash == data.hash {
          GenesisCheck(m, height, data);
          return Unchanged;
        }
        KeptNothing(m, cp.height, height, data);
        tail := [];
      } else if cp.height + 1 == height && data.prev.Some? && data.prev.value != cp.data.hash {
        KeptNothing(m, cp.height, height, data);
        tail := [];
      } else if cp.height < height {
        BaseFound(m, cp.height, height, data);
        return At(Some(cp), tail);
      }
      assert Lists(Reverse(tail), Kept(m, cp.height, height, data));
      if cp.prev.None? {
        KeptBetween(m, 0, cp.height, height, data);
        NothingBelow(m, cp.height, height, data);
        return At(None, tail);
      }
      KeptBetween(m, cp.prev.value.height + 1, cp.height, height, data);
      cp := cp.prev.value;
    }
  }

  /** `insert`, with the panic on a changed genesis as a result. */
  method Insert(start: CheckPoint, height: Height, data: BlockData) returns (r: Insertion)
    requires Valid(start)
    ensures r.Panicked? <==> ReplacesGenesis(Blocks(start), height, data)
    ensures r.Inserted? ==> Valid(r.cp) && Blocks(r.cp) == WithInserted(Blocks(start), height, data)
    ensures SameBlock(Blocks(start), height, data) ==> r == Inserted(start)
  {
    hide Blocks, ReplacesGenesis, Lists;
    var split := FindBase(start, height, data);
    match split {
      case GenesisChanged =>
        return Panicked;
      case Unchanged =>
        return Inserted(start);
      case At(base, tail) =>
        var items := Reverse(tail + [(height, data)]);
        RebuiltItems(tail, (height, data));
        Rebuilt(start, base, tail, height, data);
        if base.Some? {
          var extended := Extend(base.value, items);
          return Inserted(if extended.Ok? then extended.value else extended.error);
        } else {
          var built := FromBlocks(items);
          return Inserted(if built.Ok? then built.value else built.error.value);
        }
    }
  }

  lemma RebuiltItems(tail: seq<Item>, item: Item)
    ensures Reverse(tail + [item]) == [item] + Reverse(tail)
  {
    assert (tail + [item])[..|tail|] == tail;
  }

  /** What is kept ends up on top of the inserted block, unless its lowest block links elsewhere. */
  lemma Rebuilt(start: CheckPoint, base: Option<CheckPoint>, tail: seq<Item>, height: Height, data: BlockData)
    requires Valid(start) && !SameBlock(Blocks(start), height, data)
    requires Lists(Reverse(tail), Kept(Blocks(start), 0, height, data))
    requires base.None? ==> Lower(Blocks(start), height, data) == map[]
    requires base.Some? ==> Valid(base.value) && base.value.height < height
                            && Blocks(base.value) == Lower(Blocks(start), height, data)
    ensures var items := [(height, data)] + Reverse(tail);
            var e := if base.Some? then Extended(base.value, items) else Extended(New(height, data), items[1..]);
            var cp := if e.Ok? then e.value else e.error;
            Valid(cp) && Blocks(cp) == WithInserted(Blocks(start), height, data)
  {
    var m := Blocks(start);
    var items := [(height, data)] + Reverse(tail);
    assert items[1..] == Reverse(tail);
    var pushed: CheckPoint;
    if base.Some? {
      BlocksTop(base.value);
      assert Fits(base.value, (height, data));
      pushed := Pushed(base.value, (height, data));
    } else {
      pushed := New(height, data);
    }
    RebuiltOnTop(start, pushed, tail, height, data);
  }

  lemma RebuiltOnTop(start: CheckPoint, pushed: CheckPoint, tail: seq<Item>, height: Height, data: BlockData)
    requires Valid(start) && !SameBlock(Blocks(start), height, data)
    requires Lists(Reverse(tail), Kept(Blocks(start), 0, height, data))
    requires Valid(pushed) && pushed.height == height && pushed.data == data
    requires Blocks(pushed) == Lower(Blocks(start), height, data)[height := data]
    ensures var e := Extended(pushed, Reverse(tail));
            Blocks(if e.Ok? then e.value else e.error) == WithInserted(Blocks(start), height, data)
  {
    hide Blocks, Linked;
    var m := Blocks(start);
    var up := Reverse(tail);
    KeptAll(m, height, data);
    if up != [] {
      if ConflictAbove(m, height, data) {
        assert height + 1 in Above(m, height);
        assert LinkConflict(pushed, up[0].0, up[0].1);
      } else {
        BlocksLinked(start);
        BlocksLinked(pushed);
        BlocksTop(pushed);
        LinkedAcross(m, Blocks(pushed), height, data);
        ExtendedBlocks(pushed, up, Above(m, height));
      }
    }
  }

  lemma KeptAll(m: Chain, height: Height, data: BlockData)
    ensures Kept(m, 0, height, data)
         == if ConflictAt(m, height, data) || ConflictBelow(m, height, data) then map[] else Above(m, height)
  {
  }

  lemma LinkedAcross(m: Chain, lower: Chain, height: Height, data: BlockData)
    requires Linked(m) && Linked(lower) && !ConflictAbove(m, height, data)
    requires height in lower && lower[height] == data && forall h :: h in lower ==> h <= height
    ensures Linked(lower + Above(m, height))
  {
  }

  /** What survives an insertion: all blocks below but a contradicted predecessor, and all above or none. */
  lemma InsertSurvivors(m: Chain, height: Height, data: BlockData)
    requires Linked(m)
    ensures var r := WithInserted(m, height, data);
            && height in r && r[height].hash == data.hash
            && (forall h :: h in m && h < height ==>
                  (h in r && r[h] == m[h]) || (h + 1 == height && ConflictBelow(m, height, data)))
            && (!SameBlock(m, height, data) && (exists h :: h in m && h > height) ==>
                  ((forall h :: h in m && h > height ==> h in r && r[h] == m[h]) <==>
                   !ConflictAt(m, height, data) && !ConflictBelow(m, height, data) && !ConflictAbove(m, height, data))
                  && ((exists h :: h in r && h > height) ==>
                      (forall h :: h in m && h > height ==> h in r && r[h] == m[h])))
            && (forall h :: h in r ==> h == height || (h in m && r[h] == m[h]))
            && Linked(r)
  {
    hide LinkedAt, ConflictBelow, ConflictAbove;
    InsertLinked(m, height, data);
  }

  lemma InsertLinked(m: Chain, height: Height, data: BlockData)
    requires Linked(m)
    ensures Linked(WithInserted(m, height, data))
  {
    var r := WithInserted(m, height, data);
    forall h | h in r ensures LinkedAt(r, h) {
      assert h in m ==> LinkedAt(m, h);
    }
  }

  /** Inserting a block again changes nothing. */
  lemma InsertTwice(m: Chain, height: Height, data: BlockData)
    ensures WithInserted(WithInserted(m, height, data), height, data) == WithInserted(m, height, data)
  {
    assert SameBlock(WithInserted(m, height, data), height, data);
  }
}
