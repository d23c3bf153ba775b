/**
  The local chain (crates/chain/src/local_chain.rs): a checkpoint tip updated in place, each
  update returning a change set from which the chain can be rebuilt.
 */
module LocalChains {
  import opened Wrappers
  import opened SkipPointers
  import opened CheckPoints
  import opened CheckPointUpdates
  import opened CheckPointEntries
  import opened ChangeSets
  import opened ChainMerge
  import opened MergeMeaning

  datatype AlterCheckPointError = AlterCheckPointError(height: Height, originalHash: Hash, updateHash: Option<Hash>)

  datatype ApplyHeaderError = InconsistentBlocks | CannotConnectHeader(tryIncludeHeight: Height)

  /** A block header, as far as the chain is concerned. */
  datatype Header = Header(hash: Hash, prevHash: Hash)

  /** All blocks of a chain as a change set. */
  function Initial(m: Chain): ChangeSet {
    map h | h in m :: Some(m[h])
  }

  /** `Merge::merge`: later entries win. */
  function MergeChangeSets(log: ChangeSet, cs: ChangeSet): ChangeSet {
    log + cs
  }

  /** The chain that a merged log of change sets describes. */
  function Replayed(log: ChangeSet): Chain {
    Applied(map[], log)
  }

  /** Appending a change set to the log applies it to the chain the log describes. */
  lemma ReplayStep(log: ChangeSet, cs: ChangeSet)
    ensures Replayed(MergeChangeSets(log, cs)) == Applied(Replayed(log), cs)
  {
  }

  class LocalChain {
    var tip: CheckPoint

    ghost predicate Consistent() reads this {
      Valid(tip) && 0 in Blocks(tip)
    }

    ghost function View(): Chain reads this {
      Blocks(tip)
    }

    /** `from_genesis` */
    constructor FromGenesis(data: BlockData)
      ensures Consistent() && View() == map[0 := data]
    {
      tip := New(0, data);
    }

    constructor WithTip(cp: CheckPoint)
      requires Valid(cp) && 0 in Blocks(cp)
      ensures Consistent() && tip == cp
    {
      tip := cp;
    }

    /** `from_tip`: the base of the list must be genesis. */
    static method FromTip(cp: CheckPoint) returns (r: Result<LocalChain, ()>)
      requires Valid(cp)
      ensures r.Ok? <==> 0 in Blocks(cp)
      ensures r.Ok? ==> fresh(r.value) && r.value.Consistent() && r.value.tip == cp
    {
      var blocks := new CheckPointIter(cp);
      var base := blocks.Last();
      BaseOfList(cp);
      if base.value.height != 0 {
        return Err(());
      }
      var chain := new LocalChain.WithTip(cp);
      return Ok(chain);
    }

    /** `initial_changeset` */
    method InitialChangeset() returns (cs: ChangeSet)
      requires Consistent()
      ensures cs == Initial(View()) && Replayed(cs) == View()
    {
      hide Blocks, Initial, Replayed;
      cs := map[];
      var cur := Some(tip);
      ghost var m, done: Chain := Blocks(tip), map[];
      BlocksTop(tip);
      InitialNothing();
      assert UpTo(m, tip.height) == m;
      while cur.Some?
        invariant cur.Some? ==> Valid(cur.value) && Blocks(cur.value) == UpTo(m, cur.value.height)
        invariant done == Above(m, if cur.Some? then cur.value.height as int else -1)
        invariant cs == Initial(done)
        decreases cur
      {
        var cp := cur.value;
        BlocksTop(cp);
        PrevBlocks(cp, m);
        InitialOneMore(done, cp.height, cp.data);
        cs := cs[cp.height := Some(cp.data)];
        done := done[cp.height := cp.data];
        cur := cp.prev;
      }
      assert done == m;
      InitialReplays(m);
    }

    /** `apply_changeset` */
    method ApplyChangeset(cs: ChangeSet) returns (r: Result<(), ApplyBlockError>)
      requires Consistent()
      modifies this
      ensures r.Ok? <==> Applies(old(View()), cs)
      ensures r.Ok? ==> Valid(tip) && View() == Applied(old(View()), cs)
      ensures r.Err? ==> tip == old(tip)
      ensures Consistent()
    {
      AppliedKeepsGenesis(View(), cs);
      var newTip := ApplyChangesetToCheckpoint(tip, cs);
      match newTip {
        case Ok(cp) =>
          tip := cp;
          return Ok(());
        case Err(e) =>
          return Err(e);
      }
    }

    /** `apply_update`, on any data. */
    method ApplyUpdate(update: CheckPoint, eqPtr: (CheckPoint, CheckPoint) -> bool)
      returns (r: Result<ChangeSet, Height>)
      requires Consistent() && Valid(update) && PointerEquality(eqPtr)
      modifies this
      ensures r.Err? ==> tip == old(tip)
      ensures r.Err? ==>
                var so, su := SlotsOf(old(View())), SlotsOf(Blocks(update));
                if Connects(so, su) then FailsAt(old(View()), MergeChanges(so, su), r.error)
                else Suggested(so, su, r.error)
      ensures r.Ok? ==>
                && Consistent() && View()[0].hash == old(View())[0].hash
                && Connects(SlotsOf(old(View())), SlotsOf(Blocks(update)))
                && r.value == MergeChanges(SlotsOf(old(View())), SlotsOf(Blocks(update)))
                && MergedTip(old(tip), update, eqPtr, r.value, tip)
      ensures HashesOnly(old(View())) && HashesOnly(Blocks(update)) ==>
                && (r.Ok? <==> ChainsConnect(old(View()), Blocks(update)))
                && (r.Ok? ==> View() == MergedBlocks(old(View()), Blocks(update))
                              && View() == Applied(old(View()), r.value))
    {
      hide FailsAt, Connects, MergeChanges, MergedBlocks, ChainsConnect, Applied, Applies, Suggested, SlotsOf;
      ghost var m, u := Blocks(tip), Blocks(update);
      ApplyUpdateMeaning(m, u);
      var merged := MergeChains(tip, update, eqPtr);
      match merged {
        case Merged(newTip, changeset) =>
          tip := newTip;
          return Ok(changeset);
        case CannotConnect(h) =>
          return Err(h);
      }
    }

    /** `from_changeset` */
    static method FromChangeset(cs: ChangeSet) returns (r: Result<LocalChain, ApplyBlockError>)
      ensures r.Ok? <==> 0 in cs && cs[0].Some? && Linked(Replayed(cs))
      ensures r.Ok? ==> fresh(r.value) && r.value.Consistent() && r.value.View() == Replayed(cs)
    {
      if 0 !in cs || cs[0].None? { return Err(MissingGenesis); }
      var chain := new LocalChain.FromGenesis(cs[0].value);
      assert !HasBase(chain.View(), cs);
      assert Applied(chain.View(), cs) == Replayed(cs);
      var applied := chain.ApplyChangeset(cs);
      match applied {
        case Ok(_) => return Ok(chain);
        case Err(e) => return Err(e);
      }
    }

    /** `insert_block` */
    method InsertBlock(height: Height, data: BlockData) returns (r: Result<ChangeSet, AlterCheckPointError>)
      requires Consistent()
      modifies this
      ensures Consistent()
      ensures var m := old(View());
              match r
              case Ok(cs) =>
                && View() == Applied(m, cs)
                && (if height in m then m[height].hash == data.hash && cs == map[] && tip == old(tip)
                    else cs == map[height := Some(data)] && View() == m[height := data])
              case Err(e) =>
                && tip == old(tip)
                && (if height in m
                    then m[height].hash != data.hash
                         && e == AlterCheckPointError(height, m[height].hash, Some(data.hash))
                    else !Linked(m[height := data]) && e == AlterCheckPointError(0, m[0].hash, None))
    {
      ghost var m := View();
      BlocksLinked(tip);
      var original := Get(tip, height);
      if original.Some? {
        if original.value.data.hash != data.hash {
          return Err(AlterCheckPointError(height, original.value.data.hash, Some(data.hash)));
        }
        assert Applied(m, map[]) == m;
        return Ok(map[]);
      }
      var cs := map[height := Some(data)];
      assert Applied(m, cs) == m[height := data];
      var applied := ApplyChangeset(cs);
      match applied {
        case Ok(_) => return Ok(cs);
        case Err(_) =>
          var genesis := Get(tip, 0);
          return Err(AlterCheckPointError(0, genesis.value.data.hash, None));
      }
    }

    /** `disconnect_from` */
    method DisconnectFrom(id: BlockId) returns (r: Result<ChangeSet, ()>)
      requires Consistent()
      modifies this
      ensures Consistent()
      ensures var m := old(View());
              var stored := id.height in m && m[id.height].hash == id.hash;
              match r
              case Ok(cs) =>
                && View() == Applied(m, cs)
                && (if stored
                    then id.height > 0 && View() == UpTo(m, id.height - 1) && cs.Keys == Above(m, id.height - 1).Keys
                    else cs == map[] && tip == old(tip))
              case Err(_) => stored && id.height == 0 && tip == old(tip)
    {
      hide Blocks, Applied;
      ghost var m := View();
      var removeFrom, cs := CollectFrom(tip, id);
      NothingApplied(m);
      if removeFrom.None? {
        return Ok(map[]);
      }
      RemovedFrom(m, cs, id.height);
      var cp := removeFrom.value;
      PrevBlocks(cp, m);
      if cp.prev.None? { return Err(()); }
      BlocksTop(cp.prev.value);
      tip := cp.prev.value;
      assert UpTo(m, id.height - 1) == Blocks(tip);
      assert 0 in UpTo(m, id.height - 1);
      return Ok(cs);
    }

    /** `apply_header_connected_to` */
    method ApplyHeaderConnectedTo(
      header: Header, height: Height, connectedTo: BlockId, eqPtr: (CheckPoint, CheckPoint) -> bool)
      returns (r: Result<ChangeSet, ApplyHeaderError>)
      requires Consistent() && HashesOnly(View()) && PointerEquality(eqPtr)
      modifies this
      ensures Consistent() && HashesOnly(View())
      ensures r.Err? ==> tip == old(tip)
      ensures View()[0].hash == old(View())[0].hash
      ensures r == Err(InconsistentBlocks) <==> !ConsistentHeader(header, height, connectedTo)
      ensures ConsistentHeader(header, height, connectedTo) ==>
                var u := HeaderBlocks(header, height, connectedTo);
                && (r.Ok? <==> ChainsConnect(old(View()), u))
                && (r.Ok? ==> View() == MergedBlocks(old(View()), u) && View() == Applied(old(View()), r.value))
                && (r.Err? ==>
                      r.error.CannotConnectHeader?
                      && Suggested(SlotsOf(old(View())), SlotsOf(u), r.error.tryIncludeHeight))
    {
      hide Connects, MergeChanges, MergedBlocks, ChainsConnect, Applied, Suggested, FailsAt, MergedTip, SlotsOf;
      ApplyUpdateMeaning(View(), HeaderBlocks(header, height, connectedTo));
      MergedHashesOnly(View(), HeaderBlocks(header, height, connectedTo));
      var this' := BlockId(height, header.hash);
      var prev := if height > 0 then Some(BlockId(height - 1, header.prevHash)) else None;
      var items: seq<Item> := [];
      if !(connectedTo == this' || Some(connectedTo) == prev) {
        if connectedTo.height >= SaturatingSub(height, 1) {
          return Err(InconsistentBlocks);
        }
        items := [(connectedTo.height, BlockData(connectedTo.hash, None))];
      }
      if prev.Some? { items := items + [(prev.value.height, BlockData(prev.value.hash, None))]; }
      items := items + [(height, BlockData(header.hash, None))];

      HeaderList(header, height, connectedTo, items);
      var update := FromBlocks(items);
      var changed := ApplyUpdate(update.value, eqPtr);
      match changed {
        case Ok(cs) => return Ok(cs);
        case Err(h) => return Err(CannotConnectHeader(h));
      }
    }
  }

  lemma MergedHashesOnly(m: Chain, u: Chain)
    requires HashesOnly(m) && HashesOnly(u)
    ensures HashesOnly(MergedBlocks(m, u))
  {
  }

  /** The loop of `disconnect_from`: removals down to the block, and the block if it is stored. */
  method CollectFrom(tip: CheckPoint, id: BlockId) returns (removeFrom: Option<CheckPoint>, cs: ChangeSet)
    requires Valid(tip)
    ensures removeFrom.Some? <==> id.height in Blocks(tip) && Blocks(tip)[id.height].hash == id.hash
    ensures removeFrom.Some? ==> Valid(removeFrom.value) && removeFrom.value.height == id.height
                                 && Blocks(removeFrom.value) == UpTo(Blocks(tip), id.height)
    ensures cs == map h | h in Blocks(tip) && h >= id.height :: None
  {
    hide Blocks;
    ghost var m := Blocks(tip);
    removeFrom := None;
    cs := map[];
    var cur := Some(tip);
    BlocksTop(tip);
    assert UpTo(m, tip.height) == m;
    while cur.Some? && cur.value.height >= id.height
      invariant cur.Some? ==> Valid(cur.value) && Blocks(cur.value) == UpTo(m, cur.value.height)
      invariant cs == map h | h in m && (cur.None? || h > cur.value.height) :: None
      invariant forall h :: h in cs ==> h >= id.height
      invariant removeFrom.Some? <==> id.height in cs && m[id.height].hash == id.hash
      invariant removeFrom.Some? ==> Valid(removeFrom.value) && removeFrom.value.height == id.height
                                     && Blocks(removeFrom.value) == UpTo(m, id.height)
      decreases cur
    {
      var cp := cur.value;
      BlocksTop(cp);
      PrevBlocks(cp, m);
      cs := cs[cp.height := None];
      if cp.Id() == id { removeFrom := Some(cp); }
      cur := cp.prev;
    }
    assert id.height in m ==> id.height in cs;
  }

  /** Genesis is in a list exactly if the last node is at height zero. */
  lemma {:induction false} BaseOfList(cp: CheckPoint)
    requires Valid(cp)
    ensures var nodes := Nodes(cp); nodes != [] && (nodes[|nodes| - 1].height == 0 <==> 0 in Blocks(cp))
  {
    if cp.prev.Some? { BaseOfList(cp.prev.value); }
  }

  lemma InitialNothing()
    ensures Initial(map[]) == map[]
  {
  }

  lemma InitialOneMore(m: Chain, h: Height, data: BlockData)
    ensures Initial(m)[h := Some(data)] == Initial(m[h := data])
  {
  }

  lemma InitialReplays(m: Chain)
    ensures Replayed(Initial(m)) == m
  {
  }

  lemma NothingApplied(m: Chain)
    ensures Applied(m, map[]) == m
  {
  }

  /** Removing everything from a height on. */
  lemma RemovedFrom(m: Chain, cs: ChangeSet, height: Height)
    requires cs == map h | h in m && h >= height :: None
    ensures cs.Keys == Above(m, height - 1).Keys && Applied(m, cs) == UpTo(m, height - 1)
  {
    assert forall h: Height :: h in m ==> (h in cs <==> h > height - 1);
  }

  lemma AppliedKeepsGenesis(m: Chain, cs: ChangeSet)
    requires 0 in m
    ensures Applies(m, cs) ==> 0 in Applied(m, cs)
  {
    if HasBase(m, cs) {
      var h :| h in m && forall k :: k in cs ==> h < k;
      assert 0 !in cs;
    }
  }

  // --- The update made from a header ---

  /** `connected_to` names the header's own block or its predecessor, or lies strictly below both. */
  predicate ConsistentHeader(header: Header, height: Height, connectedTo: BlockId) {
    || connectedTo == BlockId(height, header.hash)
    || (height > 0 && connectedTo == BlockId(height - 1, header.prevHash))
    || (height > 0 && connectedTo.height < height - 1)
  }

  /** The blocks such a header implies. */
  function HeaderBlocks(header: Header, height: Height, connectedTo: BlockId): Chain {
    map[connectedTo.height := BlockData(connectedTo.hash, None)]
    + (if height > 0 then map[height - 1 := BlockData(header.prevHash, None)] else map[])
    + map[height := BlockData(header.hash, None)]
  }

  /** The items list the blocks in order, so building the update never fails. */
  lemma HeaderList(header: Header, height: Height, connectedTo: BlockId, items: seq<Item>)
    requires ConsistentHeader(header, height, connectedTo)
    requires items ==
             (if connectedTo == BlockId(height, header.hash)
                 || (height > 0 && connectedTo == BlockId(height - 1, header.prevHash)) then []
              else [(connectedTo.height, BlockData(connectedTo.hash, None))])
             + (if height > 0 then [(height - 1, BlockData(header.prevHash, None))] else [])
             + [(height, BlockData(header.hash, None))]
    ensures FromItems(items).Ok? && Valid(FromItems(items).value)
    ensures Blocks(FromItems(items).value) == HeaderBlocks(header, height, connectedTo)
    ensures HashesOnly(HeaderBlocks(header, height, connectedTo))
  {
    var u := HeaderBlocks(header, height, connectedTo);
    var top: Item := (height, BlockData(header.hash, None));
    var list, m: Chain := [top], map[top.0 := top.1];
    assert Lists(list, m) by { assert m - {height} == map[]; }
    if height > 0 {
      var prev: Item := (height - 1, BlockData(header.prevHash, None));
      ListsBelow(list, m, prev);
      list, m := [prev] + list, m[prev.0 := prev.1];
    }
    if list != items {
      var conn: Item := (connectedTo.height, BlockData(connectedTo.hash, None));
      ListsBelow(list, m, conn);
      list, m := [conn] + list, m[conn.0 := conn.1];
    }
    assert list == items;
    assert m == u;
    LinkedHashes(u);
    ListBuilds(items, u);
  }

  lemma ListsBelow(items: seq<Item>, m: Chain, item: Item)
    requires Lists(items, m) && forall h :: h in m ==> item.0 < h
    ensures Lists([item] + items, m[item.0 := item.1])
  {
    assert m[item.0 := item.1] - {item.0} == m;
    assert ([item] + items)[1..] == items;
  }

  /** What a successful or failing merge says about the blocks. */
  lemma ApplyUpdateMeaning(m: Chain, u: Chain)
    requires 0 in m
    ensures var so, su := SlotsOf(m), SlotsOf(u); var cs := MergeChanges(so, su);
            && (Connects(so, su) ==> 0 in Applied(m, cs) && Applied(m, cs)[0].hash == m[0].hash)
            && (SameGenesis(so, su) ==> 0 in u && u[0].hash == m[0].hash)
            && (HashesOnly(m) && HashesOnly(u) ==>
                  && (Connects(so, su) <==> ChainsConnect(m, u))
                  && (Connects(so, su) ==>
                        && Applies(m, cs) && Applied(m, cs) == MergedBlocks(m, u)
                        && (so.Keys <= su.Keys ==> u == MergedBlocks(m, u))))
  {
    var so, su := SlotsOf(m), SlotsOf(u);
    if HashesOnly(m) && HashesOnly(u) {
      ConnectsByBlocks(m, u);
      if Connects(so, su) { ExactMerge(m, u); }
    }
    GenesisStays(m, u);
  }

  lemma GenesisStays(m: Chain, u: Chain)
    requires 0 in m
    ensures var so, su := SlotsOf(m), SlotsOf(u); var cs := MergeChanges(so, su);
            && (Connects(so, su) ==> 0 in Applied(m, cs) && Applied(m, cs)[0] == m[0])
            && (SameGenesis(so, su) ==> 0 in u && u[0].hash == m[0].hash)
  {
    var so, su := SlotsOf(m), SlotsOf(u);
    assert 0 in so && so[0] == Slot(m[0].hash, Some(m[0]));
    assert Connects(so, su) ==> !Changes(so, su, 0, 0);
  }

  // --- Rebuilding a chain from its log ---

  /** One call on the chain. */
  datatype Operation =
    | Update(update: CheckPoint)
    | InsertBlock(height: Height, hash: Hash)
    | Disconnect(id: BlockId)
    | ConnectHeader(header: Header, headerHeight: Height, connectedTo: BlockId)

  predicate ValidOperation(op: Operation) {
    op.Update? ==> Valid(op.update) && HashesOnly(Blocks(op.update))
  }

  /** The blocks after one call on a chain of hash-only blocks. */
  ghost function After(m: Chain, op: Operation): Chain {
    match op
    case Update(update) => if ChainsConnect(m, Blocks(update)) then MergedBlocks(m, Blocks(update)) else m
    case InsertBlock(height, hash) => if height in m then m else m[height := BlockData(hash, None)]
    case Disconnect(id) =>
      if id.height > 0 && id.height in m && m[id.height].hash == id.hash then UpTo(m, id.height - 1) else m
    case ConnectHeader(header, height, connectedTo) =>
      var u := HeaderBlocks(header, height, connectedTo);
      if ConsistentHeader(header, height, connectedTo) && ChainsConnect(m, u) then MergedBlocks(m, u) else m
  }

  ghost function AfterAll(m: Chain, ops: seq<Operation>): Chain {
    if ops == [] then m else After(AfterAll(m, ops[..|ops| - 1]), ops[|ops| - 1])
  }

  /** Performs one call; a failed call leaves the chain alone and logs nothing. */
  method Perform(chain: LocalChain, op: Operation, eqPtr: (CheckPoint, CheckPoint) -> bool) returns (cs: ChangeSet)
    requires chain.Consistent() && HashesOnly(chain.View()) && ValidOperation(op) && PointerEquality(eqPtr)
    modifies chain
    ensures chain.Consistent() && HashesOnly(chain.View())
    ensures chain.View() == After(old(chain.View()), op)
    ensures chain.View() == Applied(old(chain.View()), cs)
    ensures chain.View()[0] == old(chain.View())[0]
  {
    hide MergedBlocks, ChainsConnect, Connects, MergeChanges, SlotsOf, Applied, ConsistentHeader, HeaderBlocks, Linked;
    ghost var m := chain.View();
    NothingApplied(m);
    LinkedHashes(m);
    match op {
      case Update(update) =>
        var r := chain.ApplyUpdate(update, eqPtr);
        if r.Err? { return map[]; }
        MergeKeepsHashes(m, Blocks(update));
        cs := r.value;
      case InsertBlock(height, hash) =>
        LinkedHashes(m[height := BlockData(hash, None)]);
        var r := chain.InsertBlock(height, BlockData(hash, None));
        cs := if r.Ok? then r.value else map[];
      case Disconnect(id) =>
        var r := chain.DisconnectFrom(id);
        cs := if r.Ok? then r.value else map[];
      case ConnectHeader(header, height, connectedTo) =>
        var r := chain.ApplyHeaderConnectedTo(header, height, connectedTo, eqPtr);
        cs := if r.Ok? then r.value else map[];
    }
    GenesisByHash(m, chain.View());
  }

  lemma GenesisByHash(m: Chain, m': Chain)
    requires HashesOnly(m) && HashesOnly(m') && 0 in m && 0 in m' && m[0].hash == m'[0].hash
    ensures m[0] == m'[0]
  {
  }

  lemma MergeKeepsHashes(o: Chain, u: Chain)
    requires HashesOnly(o) && HashesOnly(u)
    ensures HashesOnly(MergedBlocks(o, u))
  {
  }

  /**
    Over any run from genesis, merging the returned change sets and rebuilding from the merged log
    gives the current chain, and genesis never changes.
   */
  method RunAndRebuild(genesis: Hash, ops: seq<Operation>, eqPtr: (CheckPoint, CheckPoint) -> bool)
    returns (chain: LocalChain, log: ChangeSet, rebuilt: LocalChain)
    requires (forall op :: op in ops ==> ValidOperation(op)) && PointerEquality(eqPtr)
    ensures chain.Consistent() && chain.View() == AfterAll(map[0 := BlockData(genesis, None)], ops)
    ensures chain.View()[0].hash == genesis
    ensures Replayed(log) == chain.View()
    ensures rebuilt.tip == chain.tip
  {
    chain := new LocalChain.FromGenesis(BlockData(genesis, None));
    ghost var start := chain.View();
    log := chain.InitialChangeset();
    assert ops[..0] == [];
    for i := 0 to |ops|
      invariant fresh(chain) && chain.Consistent() && HashesOnly(chain.View())
      invariant chain.View() == AfterAll(start, ops[..i])
      invariant chain.View() == Replayed(log)
      invariant chain.View()[0].hash == genesis
    {
      var cs := Perform(chain, ops[i], eqPtr);
      ReplayStep(log, cs);
      log := MergeChangeSets(log, cs);
      assert ops[..i + 1][..i] == ops[..i];
    }
    assert ops[..|ops|] == ops;
    assert 0 in Replayed(log);
    BlocksLinked(chain.tip);
    var r := LocalChain.FromChangeset(log);
    rebuilt := r.value;
    SameBlocksSameList(rebuilt.tip, chain.tip);
  }
}
