/**
  Change sets of the local chain and how they are applied to a checkpoint list
  (crates/chain/src/local_chain.rs, `ChangeSet` and `apply_changeset_to_checkpoint`).
 */
module ChangeSets {
  import opened Wrappers
  import opened CheckPoints
  import opened CheckPointUpdates

  /** For each height, a block to store or (None) the removal of the stored block. */
  type ChangeSet = map<Height, Option<BlockData>>

  datatype ApplyBlockError = MissingGenesis | PrevBlockhashMismatch(expected: BlockId)

  /** The blocks after applying a change set. */
  function Applied(m: Chain, cs: ChangeSet): Chain {
    map h | h in m.Keys + cs.Keys && (h in cs ==> cs[h].Some?) :: if h in cs then cs[h].value else m[h]
  }

  /** Some block stays below everything that changes. */
  predicate HasBase(m: Chain, cs: ChangeSet) {
    exists h :: h in m && forall k :: k in cs ==> h < k
  }

  predicate LosesGenesis(m: Chain, cs: ChangeSet) {
    cs != map[] && !HasBase(m, cs) && 0 !in Applied(m, cs)
  }

  /** Applying succeeds exactly if genesis is not lost and adjacent blocks still link. */
  predicate Applies(m: Chain, cs: ChangeSet) {
    cs == map[] || (!LosesGenesis(m, cs) && Linked(Applied(m, cs)))
  }

  // --- Iterating a BTreeMap ---

  lemma {:induction false} LowestExists<T>(m: map<Height, T>)
    requires m != map[]
    ensures exists h :: h in m && forall k :: k in m ==> h <= k
  {
    var h :| h in m;
    if k :| k in m && k < h {
      LowestBelow(m, h);
    }
  }

  lemma {:induction false} LowestBelow<T>(m: map<Height, T>, h: Height)
    requires h in m
    ensures exists l :: l in m && forall k :: k in m ==> l <= k
    decreases h
  {
    if k :| k in m && k < h {
      LowestBelow(m, k);
    }
  }

  function Lowest<T>(m: map<Height, T>): (h: Height)
    requires m != map[]
    ensures h in m && forall k :: k in m ==> h <= k
  {
    LowestExists(m);
    var h :| h in m && forall k :: k in m ==> h <= k;
    h
  }

  /** The blocks in ascending height. */
  function SortedItems(m: Chain): (r: seq<Item>)
    ensures Lists(r, m)
    decreases |m|
  {
    if m == map[] then []
    else
      var h := Lowest(m);
      assert |m - {h}| < |m| by { assert m.Keys == (m - {h}).Keys + {h}; }
      [(h, m[h])] + SortedItems(m - {h})
  }

  // --- Applying ---

  /** The loop over the change set: insertions and removals on a map. */
  method ApplyToMap(m: Chain, cs: ChangeSet) returns (r: Chain)
    ensures r == Applied(m, cs)
  {
    hide Applied;
    r := m;
    var todo := cs.Keys;
    NothingToApply(m, cs - todo);
    while todo != {}
      invariant todo <= cs.Keys && r == Applied(m, cs - todo)
    {
      var height :| height in todo;
      OneMoreApplied(m, cs, todo, height);
      match cs[height] {
        case Some(data) => r := r[height := data];
        case None => r := r - {height};
      }
      todo := todo - {height};
    }
    assert cs - todo == cs;
  }

  lemma NothingToApply(m: Chain, cs: ChangeSet)
    requires cs == map[]
    ensures Applied(m, cs) == m
  {
  }

  lemma OneMoreApplied(m: Chain, cs: ChangeSet, todo: set<Height>, height: Height)
    requires height in todo && todo <= cs.Keys
    ensures var before := Applied(m, cs - todo);
            Applied(m, cs - (todo - {height}))
            == match cs[height]
               case Some(data) => before[height := data]
               case None => before - {height}
  {
    assert cs - (todo - {height}) == (cs - todo)[height := cs[height]];
  }

  /** `LocalChain::from_blocks` */
  method ChainFromBlocks(blocks: Chain) returns (r: Result<CheckPoint, ApplyBlockError>)
    ensures r.Ok? <==> 0 in blocks && Linked(blocks)
    ensures r.Ok? ==> Valid(r.value) && Blocks(r.value) == blocks
    ensures r == Err(MissingGenesis) <==> 0 !in blocks
    ensures r.Err? && r.error.PrevBlockhashMismatch? ==> FirstMismatch(blocks, r.error.expected)
  {
    if 0 !in blocks { return Err(MissingGenesis); }
    var items := SortedItems(blocks);
    ListBuilds(items, blocks);
    var cp := FromBlocks(items);
    match cp {
      case Ok(tip) => return Ok(tip);
      case Err(last) => return Err(PrevBlockhashMismatch(last.value.Id()));
    }
  }

  /** The first loop of `apply_changeset_to_checkpoint`: what may change, and the base below it. */
  method SplitAt(init: CheckPoint, startHeight: Height) returns (base: Option<CheckPoint>, extension: Chain)
    requires Valid(init)
    ensures base.Some? ==> Valid(base.value) && base.value.height < startHeight
                           && Blocks(base.value) == UpTo(Blocks(init), startHeight - 1)
    ensures base.None? ==> forall h :: h in Blocks(init) ==> h >= startHeight
    ensures extension == Above(Blocks(init), startHeight - 1)
  {
    hide Blocks;
    ghost var m := Blocks(init);
    extension := map[];
    base := Some(init);
    BlocksTop(init);
    assert UpTo(m, init.height) == m;
    while base.Some? && base.value.height >= startHeight
      invariant base.Some? ==> Valid(base.value) && Blocks(base.value) == UpTo(m, base.value.height)
      invariant extension == if base.None? then m else Above(m, base.value.height)
      invariant base.None? ==> forall h :: h in m ==> h >= startHeight
      invariant base.Some? ==> forall h :: h in m && h > base.value.height ==> h >= startHeight
      decreases base
    {
      var cp := base.value;
      PrevBlocks(cp, m);
      BlocksTop(cp);
      extension := extension[cp.height := cp.data];
      base := cp.prev;
      if base.None? { assert extension == m; }
    }
  }

  /** Applying a change set only touches what is above the base. */
  lemma AppliedOnBase(m: Chain, cs: ChangeSet, start: Height)
    requires start in cs && forall k :: k in cs ==> start <= k
    ensures Applied(m, cs) == UpTo(m, start - 1) + Applied(Above(m, start - 1), cs)
    ensures HasBase(m, cs) <==> UpTo(m, start - 1) != map[]
  {
    var below := UpTo(m, start - 1);
    if HasBase(m, cs) {
      var h :| h in m && forall k :: k in cs ==> h < k;
      assert h in below;
    }
    if below != map[] {
      var h :| h in below;
      assert h in m && forall k :: k in cs ==> h < k;
    }
  }

  /** `apply_changeset_to_checkpoint` */
  method ApplyChangesetToCheckpoint(init: CheckPoint, cs: ChangeSet) returns (r: Result<CheckPoint, ApplyBlockError>)
    requires Valid(init)
    ensures r.Ok? <==> Applies(Blocks(init), cs)
    ensures r.Ok? ==> Valid(r.value) && Blocks(r.value) == Applied(Blocks(init), cs)
    ensures r == Err(MissingGenesis) <==> LosesGenesis(Blocks(init), cs)
    ensures r.Err? && r.error.PrevBlockhashMismatch? ==> FirstMismatch(Applied(Blocks(init), cs), r.error.expected)
  {
    hide Blocks, HasBase, Linked, FirstMismatch;
    ghost var m := Blocks(init);
    if cs == map[] {
      assert Applied(m, cs) == m;
      return Ok(init);
    }
    var start := Lowest(cs);
    var base, extension := SplitAt(init, start);
    AppliedOnBase(m, cs, start);
    extension := ApplyToMap(extension, cs);
    match base {
      case None =>
        assert UpTo(m, start - 1) == map[];
        assert Applied(m, cs) == extension;
        r := ChainFromBlocks(extension);
      case Some(b) =>
        BlocksTop(b);
        var items := SortedItems(extension);
        ExtendedBlocks(b, items, extension);
        var e := Extend(b, items);
        match e {
          case Ok(tip) => return Ok(tip);
          case Err(last) => return Err(PrevBlockhashMismatch(last.Id()));
        }
    }
  }
}
