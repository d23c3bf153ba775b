/**
  The chain update of an Esplora sync (crates/esplora/src/blocking_ext.rs, `chain_update`), with
  the server as a fixed function from heights to block hashes, and why applying it never fails.
 */
module EsploraSync {
  import opened Wrappers
  import opened CheckPoints
  import opened CheckPointUpdates
  import opened CheckPointEntries
  import opened ChangeSets
  import opened ChainMerge
  import opened MergeMeaning
  import opened LocalChains

  type Hashes = map<Height, Hash>

  type Server = Height -> Hash

  function Block(hash: Hash): BlockData { BlockData(hash, None) }

  function Highest(s: set<Height>): (h: Height)
    requires s != {}
    ensures h in s && forall k :: k in s ==> k <= h
  {
    HighestExists(s);
    var h :| h in s && forall k :: k in s ==> k <= h;
    h
  }

  lemma {:induction false} HighestExists(s: set<Height>)
    requires s != {}
    ensures exists h :: h in s && forall k :: k in s ==> k <= h
  {
    var h :| h in s;
    if s != {h} {
      HighestExists(s - {h});
      var k :| k in s - {h} && forall l :: l in s - {h} ==> l <= k;
      assert forall l :: l in s ==> l == h || l in s - {h};
    }
  }

  /** `fetch_block`: nothing above the latest blocks is asked for. */
  function FetchBlock(server: Server, latest: Hashes, height: Height): Option<Hash> {
    if height in latest then Some(latest[height])
    else if latest == map[] || height > Highest(latest.Keys) then None
    else Some(server(height))
  }

  /** The latest blocks come first, the server is asked below them, and nothing is known above. */
  lemma FetchPrefersLatest(server: Server, latest: Hashes, height: Height)
    ensures var r := FetchBlock(server, latest, height);
            && (height in latest ==> r == Some(latest[height]))
            && ((forall h :: h in latest ==> h < height) ==> r == None)
            && (height !in latest && (exists h :: h in latest && h > height) ==> r == Some(server(height)))
  {
    if latest != map[] { HighestExists(latest.Keys); }
  }

  predicate AgreesAt(m: Chain, server: Server, latest: Hashes, h: Height) {
    h in m && FetchBlock(server, latest, h) == Some(m[h].hash)
  }

  /** The server's blocks at the local heights above `a`. */
  function ConflictsAbove(m: Chain, server: Server, latest: Hashes, a: int): Chain {
    map h | h in m && h > a && FetchBlock(server, latest, h).Some? :: Block(FetchBlock(server, latest, h).value)
  }

  datatype Search = NotFound | Found(base: CheckPoint, conflicts: seq<Item>)

  /** The search for the point of agreement, collecting the conflicting heights above it. */
  method FindAgreement(server: Server, latest: Hashes, localTip: CheckPoint) returns (r: Search)
    requires Valid(localTip)
    ensures r.NotFound? <==> forall h: Height :: !AgreesAt(Blocks(localTip), server, latest, h)
    ensures r.Found? ==>
              var m, a := Blocks(localTip), r.base.height;
              && Valid(r.base) && Blocks(r.base) == UpTo(m, a) && AgreesAt(m, server, latest, a)
              && (forall h: Height :: AgreesAt(m, server, latest, h) ==> h <= a)
              && Lists(Reverse(r.conflicts), ConflictsAbove(m, server, latest, a))
  {
    hide Blocks, Lists, Reverse, ConflictsAbove, FetchBlock;
    ghost var m := Blocks(localTip);
    var cur := Some(localTip);
    var conflicts: seq<Item> := [];
    BlocksTop(localTip);
    assert UpTo(m, localTip.height) == m;
    ghost var above: int := localTip.height;
    NoConflicts(m, server, latest, above);
    while cur.Some?
      invariant cur.Some? ==> Valid(cur.value) && Blocks(cur.value) == UpTo(m, cur.value.height)
      invariant cur.None? ==> forall h :: h in m ==> h > above
      invariant cur.Some? ==> cur.value.height == above
      invariant forall h: Height :: AgreesAt(m, server, latest, h) ==> h <= above
      invariant Lists(Reverse(conflicts), ConflictsAbove(m, server, latest, above))
      decreases cur
    {
      var cp := cur.value;
      BlocksTop(cp);
      PrevBlocks(cp, m);
      var remote := FetchBlock(server, latest, cp.height);
      if remote == Some(cp.data.hash) {
        assert AgreesAt(m, server, latest, cp.height);
        return Found(cp, conflicts);
      }
      ghost var next := if cp.prev.Some? then cp.prev.value.height as int else -1;
      NextConflict(m, server, latest, cp.height, next, conflicts);
      if remote.Some? {
        conflicts := conflicts + [(cp.height, Block(remote.value))];
      }
      cur := cp.prev;
      above := next;
    }
    return NotFound;
  }

  lemma NoConflicts(m: Chain, server: Server, latest: Hashes, a: int)
    requires forall h :: h in m ==> h <= a
    ensures Lists(Reverse([]), ConflictsAbove(m, server, latest, a))
  {
  }

  lemma NextConflict(m: Chain, server: Server, latest: Hashes, h: Height, next: int, conflicts: seq<Item>)
    requires h in m && next < h && forall k :: k in m && k < h ==> k <= next
    requires Lists(Reverse(conflicts), ConflictsAbove(m, server, latest, h))
    ensures var remote := FetchBlock(server, latest, h);
            Lists(Reverse(if remote.Some? then conflicts + [(h, Block(remote.value))] else conflicts),
                  ConflictsAbove(m, server, latest, next))
  {
    var remote := FetchBlock(server, latest, h);
    var old' := ConflictsAbove(m, server, latest, h);
    hide Reverse, Lists, FetchBlock;
    if remote.Some? {
      var item := (h, Block(remote.value));
      RebuiltItems(conflicts, item);
      ListsBelow(Reverse(conflicts), old', item);
      assert ConflictsAbove(m, server, latest, next) == old'[h := item.1];
    } else {
      assert ConflictsAbove(m, server, latest, next) == old';
    }
  }

  /** Inserting blocks one after another; None once one would replace genesis. */
  function InsertedAll(m: Chain, items: seq<Item>): Option<Chain>
    decreases |items|
  {
    if items == [] then Some(m)
    else if ReplacesGenesis(m, items[0].0, items[0].1) then None
    else InsertedAll(WithInserted(m, items[0].0, items[0].1), items[1..])
  }

  method InsertAll(start: CheckPoint, items: seq<Item>) returns (r: Insertion)
    requires Valid(start)
    ensures r.Panicked? <==> InsertedAll(Blocks(start), items).None?
    ensures r.Inserted? ==> Valid(r.cp) && InsertedAll(Blocks(start), items) == Some(Blocks(r.cp))
  {
    hide Blocks, WithInserted, ReplacesGenesis;
    var cp := start;
    for i := 0 to |items|
      invariant Valid(cp) && InsertedAll(Blocks(cp), items[i..]) == InsertedAll(Blocks(start), items)
    {
      assert items[i..][1..] == items[i + 1..];
      var inserted := Insert(cp, items[i].0, items[i].1);
      if inserted.Panicked? { return Panicked; }
      cp := inserted.cp;
    }
    return Inserted(cp);
  }

  /** The server's blocks at the anchor heights that the chain does not hold yet. */
  function AnchorBlocks(m: Chain, server: Server, latest: Hashes, anchors: seq<Height>): Chain {
    map h | h in anchors && h !in m && FetchBlock(server, latest, h).Some? ::
      Block(FetchBlock(server, latest, h).value)
  }

  method InsertAnchors(start: CheckPoint, server: Server, latest: Hashes, anchors: seq<Height>) returns (cp: CheckPoint)
    requires Valid(start) && HashesOnly(Blocks(start))
    ensures Valid(cp) && Blocks(cp) == Blocks(start) + AnchorBlocks(Blocks(start), server, latest, anchors)
  {
    hide Blocks, FetchBlock, AnchorBlocks, HashesOnly, WithInserted, ReplacesGenesis;
    ghost var m := Blocks(start);
    cp := start;
    NoAnchors(m, server, latest);
    for i := 0 to |anchors|
      invariant Valid(cp) && Blocks(cp) == m + AnchorBlocks(m, server, latest, anchors[..i])
    {
      var h := anchors[i];
      OneMoreAnchor(m, server, latest, anchors, i);
      var held := Get(cp, h);
      if held.None? {
        var hash := FetchBlock(server, latest, h);
        if hash.Some? {
          InsertNewHash(Blocks(cp), h, Block(hash.value));
          var inserted := Insert(cp, h, Block(hash.value));
          cp := inserted.cp;
        }
      }
    }
    assert anchors[..|anchors|] == anchors;
  }

  lemma NoAnchors(m: Chain, server: Server, latest: Hashes)
    ensures m + AnchorBlocks(m, server, latest, []) == m
  {
  }

  lemma OneMoreAnchor(m: Chain, server: Server, latest: Hashes, anchors: seq<Height>, i: nat)
    requires i < |anchors| && HashesOnly(m)
    ensures var (before, after) := (m + AnchorBlocks(m, server, latest, anchors[..i]),
                                    m + AnchorBlocks(m, server, latest, anchors[..i + 1]));
            var fetched := FetchBlock(server, latest, anchors[i]);
            && after == (if anchors[i] in before || fetched.None? then before
                         else before[anchors[i] := Block(fetched.value)])
            && HashesOnly(before)
  {
    assert anchors[..i + 1] == anchors[..i] + [anchors[i]];
    hide FetchBlock;
  }

  lemma InsertNewHash(m: Chain, h: Height, data: BlockData)
    requires HashesOnly(m) && h !in m && data.prev.None?
    ensures !ReplacesGenesis(m, h, data) && WithInserted(m, h, data) == m[h := data]
  {
  }

  function AsBlocks(latest: Hashes): Chain {
    map h | h in latest :: Block(latest[h])
  }

  datatype ChainUpdate = Updated(cp: CheckPoint) | HeaderHashNotFound | UpdatePanicked

  ghost predicate HighestAgreement(m: Chain, server: Server, latest: Hashes, a: Height) {
    && AgreesAt(m, server, latest, a)
    && forall h: Height :: AgreesAt(m, server, latest, h) ==> h <= a
  }

  /** The chain before the latest blocks are inserted, given the height of agreement. */
  function Collected(m: Chain, server: Server, latest: Hashes, anchors: seq<Height>, a: Height): Chain {
    var base := UpTo(m, a) + ConflictsAbove(m, server, latest, a);
    base + AnchorBlocks(base, server, latest, anchors)
  }

  /** `chain_update` */
  method UpdateFromServer(server: Server, latest: Hashes, localTip: CheckPoint, anchors: seq<Height>)
    returns (r: ChainUpdate)
    requires Valid(localTip) && HashesOnly(Blocks(localTip))
    ensures r.HeaderHashNotFound? <==> forall h: Height :: !AgreesAt(Blocks(localTip), server, latest, h)
    ensures r.Updated? ==> Valid(r.cp)
    ensures forall a: Height | HighestAgreement(Blocks(localTip), server, latest, a) ::
              InsertedAll(Collected(Blocks(localTip), server, latest, anchors, a), SortedItems(AsBlocks(latest)))
              == if r.Updated? then Some(Blocks(r.cp)) else None
  {
    hide Blocks, FetchBlock, ConflictsAbove, AnchorBlocks, InsertedAll, Lists, Reverse, FirstMismatch;
    ghost var m := Blocks(localTip);
    var found := FindAgreement(server, latest, localTip);
    if found.NotFound? { return HeaderHashNotFound; }
    ghost var a := found.base.height;
    HashesOnlyConflicts(m, server, latest, a);
    var items := Reverse(found.conflicts);
    ExtendedBlocks(found.base, items, ConflictsAbove(m, server, latest, a));
    LinkedHashes(UpTo(m, a) + ConflictsAbove(m, server, latest, a));
    BlocksTop(found.base);
    var extended := Extend(found.base, items);
    var tip := InsertAnchors(extended.value, server, latest, anchors);
    var inserted := InsertAll(tip, SortedItems(AsBlocks(latest)));
    if inserted.Panicked? { return UpdatePanicked; }
    return Updated(inserted.cp);
  }

  lemma HashesOnlyConflicts(m: Chain, server: Server, latest: Hashes, a: int)
    requires HashesOnly(m)
    ensures HashesOnly(UpTo(m, a) + ConflictsAbove(m, server, latest, a))
    ensures forall h :: h in ConflictsAbove(m, server, latest, a) ==> h > a
  {
  }

  // --- Why the update always connects ---

  /** The local chain and the server's chain are two paths of one block tree. */
  ghost predicate OneTree(m: Chain, server: Server) {
    forall h, k :: h in m && k in m && k < h && m[h].hash == server(h) ==> m[k].hash == server(k)
  }

  /** The latest blocks are the server's, and the local chain starts at the server's genesis. */
  ghost predicate Synced(m: Chain, server: Server, latest: Hashes) {
    && latest != map[] && (forall h :: h in latest ==> latest[h] == server(h))
    && HashesOnly(m) && 0 in m && m[0].hash == server(0)
    && OneTree(m, server)
  }

  function ServerBlocks(server: Server, heights: set<Height>): Chain {
    map h | h in heights :: Block(server(h))
  }

  /** All heights of the update: the local and anchor heights up to the remote tip, and the latest. */
  function UpdateHeights(m: Chain, latest: Hashes, anchors: seq<Height>): set<Height>
    requires latest != map[]
  {
    var top := Highest(latest.Keys);
    (set h | h in m && h <= top) + (set h | h in anchors && h <= top) + latest.Keys
  }

  lemma FetchedIsServer(server: Server, latest: Hashes, h: Height)
    requires latest != map[] && forall h :: h in latest ==> latest[h] == server(h)
    ensures FetchBlock(server, latest, h) == if h <= Highest(latest.Keys) then Some(server(h)) else None
  {
  }

  /** With a consistent server the update holds exactly the server's blocks. */
  lemma UpdateIsServer(m: Chain, server: Server, latest: Hashes, anchors: seq<Height>, a: Height)
    requires Synced(m, server, latest) && HighestAgreement(m, server, latest, a)
    ensures InsertedAll(Collected(m, server, latest, anchors, a), SortedItems(AsBlocks(latest)))
         == Some(ServerBlocks(server, UpdateHeights(m, latest, anchors)))
  {
    hide FetchBlock, Highest, InsertedAll, Collected, HighestAgreement, SortedItems, Lists;
    var top := Highest(latest.Keys);
    forall h: Height { FetchedIsServer(server, latest, h); }
    var collected := Collected(m, server, latest, anchors, a);
    CollectedIsServer(m, server, latest, anchors, a);
    InsertedServerBlocks(server, collected, SortedItems(AsBlocks(latest)), AsBlocks(latest));
    assert collected + AsBlocks(latest) == ServerBlocks(server, UpdateHeights(m, latest, anchors));
  }

  lemma CollectedIsServer(m: Chain, server: Server, latest: Hashes, anchors: seq<Height>, a: Height)
    requires Synced(m, server, latest) && HighestAgreement(m, server, latest, a)
    requires forall h: Height ::
               FetchBlock(server, latest, h) == if h <= Highest(latest.Keys) then Some(server(h)) else None
    ensures Collected(m, server, latest, anchors, a)
         == ServerBlocks(server, (set h | h in m && h <= Highest(latest.Keys))
                                 + (set h | h in anchors && h <= Highest(latest.Keys)))
  {
    hide FetchBlock, Highest;
    var top := Highest(latest.Keys);
    assert a <= top && m[a].hash == server(a);
    var base := UpTo(m, a) + ConflictsAbove(m, server, latest, a);
    BaseIsServer(m, server, latest, a, top);
    hide UpTo, ConflictsAbove;
    var anchored := AnchorBlocks(base, server, latest, anchors);
    forall h: Height
      ensures h in base + anchored <==> (h in m && h <= top) || (h in anchors && h <= top)
      ensures h in base + anchored ==> (base + anchored)[h] == Block(server(h))
    {
    }
  }

  lemma BaseIsServer(m: Chain, server: Server, latest: Hashes, a: Height, top: Height)
    requires HashesOnly(m) && OneTree(m, server) && HighestAgreement(m, server, latest, a) && a <= top
    requires forall h: Height :: FetchBlock(server, latest, h) == if h <= top then Some(server(h)) else None
    ensures var base := UpTo(m, a) + ConflictsAbove(m, server, latest, a);
            forall h: Height ::
              (h in base <==> h in m && h <= top) && (h in base ==> base[h] == Block(server(h)))
  {
    hide FetchBlock;
    assert m[a].hash == server(a);
  }

  /** Inserting the server's blocks into a chain of the server's blocks only adds them. */
  lemma {:induction false} InsertedServerBlocks(server: Server, m: Chain, items: seq<Item>, added: Chain)
    requires forall h :: h in m ==> m[h] == Block(server(h))
    requires Lists(items, added) && forall h :: h in added ==> added[h] == Block(server(h))
    ensures InsertedAll(m, items) == Some(m + added)
    decreases |items|
  {
    if items == [] {
      assert m + added == m;
    } else {
      var (h, data) := items[0];
      InsertServerBlock(server, m, h);
      InsertedServerBlocks(server, m[h := data], items[1..], added - {h});
      assert m[h := data] + (added - {h}) == m + added;
    }
  }

  lemma InsertServerBlock(server: Server, m: Chain, h: Height)
    requires forall k :: k in m ==> m[k] == Block(server(k))
    ensures !ReplacesGenesis(m, h, Block(server(h)))
    ensures WithInserted(m, h, Block(server(h))) == m[h := Block(server(h))]
  {
    if h !in m {
      assert Lower(m, h, Block(server(h)))[h := Block(server(h))] + Above(m, h) == m[h := Block(server(h))];
    }
  }

  /** Local blocks above the remote tip are certain to go, or the update adds nothing above them. */
  ghost predicate NothingLeftAbove(m: Chain, server: Server, top: Height) {
    || (forall h :: h in m ==> h <= top)
    || (exists h :: h in m && h <= top && m[h].hash != server(h))
    || top in m
  }

  /** The update connects exactly if no local block above the remote tip is left in doubt. */
  lemma UpdateConnects(m: Chain, server: Server, latest: Hashes, anchors: seq<Height>, a: Height)
    requires Synced(m, server, latest) && HighestAgreement(m, server, latest, a)
    ensures ChainsConnect(m, ServerBlocks(server, UpdateHeights(m, latest, anchors)))
       <==> NothingLeftAbove(m, server, Highest(latest.Keys))
  {
    var top := Highest(latest.Keys);
    var u := ServerBlocks(server, UpdateHeights(m, latest, anchors));
    forall h: Height { FetchedIsServer(server, latest, h); }
    hide FetchBlock;
    assert top in u;
    assert forall h: Height :: h in m && h <= top ==> h in u && u[h].hash == server(h);
    assert forall h :: h in u ==> h <= top;
    assert forall h: Height :: Shared(m, u, h) <==> AgreesAt(m, server, latest, h);
    assert HighestShared(m, u, a);
    JoinsIffNothingLeft(m, u, server, top, a);
  }

  lemma JoinsIffNothingLeft(m: Chain, u: Chain, server: Server, top: Height, a: Height)
    requires forall h: Height :: h in m && h <= top ==> h in u && u[h].hash == server(h)
    requires top in u && (forall h :: h in u ==> h <= top)
    requires HighestShared(m, u, a) && OneTree(m, server)
    ensures JoinsAt(m, u, a) <==> NothingLeftAbove(m, server, top)
  {
    if NothingLeftAbove(m, server, top) && !JoinsAt(m, u, a) {
      var h :| h in m && h > a;
      var k := if top in m then top else if exists k :: k in m && k <= top && m[k].hash != server(k)
               then var k :| k in m && k <= top && m[k].hash != server(k); k else h;
      assert k <= top && k > a;
      LowestAbove(m, a, k);
      var l: Height :| FirstAbove(m, a, l) && l <= k;
      assert !Shared(m, u, l);
    }
    if h: Height :| FirstAbove(m, a, h) && Differ(m, u, h) {
      assert h <= top && m[h].hash != server(h);
    }
    if (forall h :: h in u ==> h <= a) { assert a == top; }
  }

  lemma {:induction false} LowestAbove(m: Chain, a: Height, k: Height)
    requires k in m && k > a
    ensures exists l: Height :: FirstAbove(m, a, l) && l <= k
    decreases k
  {
    if l :| l in m && a < l < k {
      LowestAbove(m, a, l);
    } else {
      assert FirstAbove(m, a, k);
    }
  }

  lemma {:induction false} HighestAgreementExists(m: Chain, server: Server, latest: Hashes, h: Height)
    requires AgreesAt(m, server, latest, h)
    ensures exists a: Height :: HighestAgreement(m, server, latest, a)
    decreases MAX_U32 - h
  {
    if k: Height :| AgreesAt(m, server, latest, k) && k > h {
      HighestAgreementExists(m, server, latest, k);
    } else {
      assert HighestAgreement(m, server, latest, h);
    }
  }

  /** The blocks after a sync: the update's heights all hold the server's blocks. */
  lemma SyncedBlocks(m: Chain, server: Server, latest: Hashes, anchors: seq<Height>)
    requires Synced(m, server, latest)
    ensures var top := Highest(latest.Keys);
            var u := ServerBlocks(server, UpdateHeights(m, latest, anchors));
            var merged := MergedBlocks(m, u);
            && (forall h: Height :: h in m && h <= top ==> h in merged)
            && (forall h: Height :: h in anchors && h <= top ==> h in merged)
            && (forall h: Height :: h in latest ==> h in merged)
            && (forall h: Height :: h in merged && h <= top ==> merged[h] == Block(server(h)))
  {
    var top := Highest(latest.Keys);
    var u := ServerBlocks(server, UpdateHeights(m, latest, anchors));
    assert forall h: Height :: (h in m || h in anchors || h in latest) && h <= top ==> h in u;
  }

  /**
    One sync: build the update and apply it. With a server on the same block tree and the same
    genesis nothing panics or fails to connect, unless a local block above the remote tip is left
    in doubt; and the chain keeps its heights up to the remote tip and gains the anchor heights.
   */
  method SyncChain(
    chain: LocalChain, server: Server, latest: Hashes, anchors: seq<Height>, eqPtr: (CheckPoint, CheckPoint) -> bool)
    returns (update: ChainUpdate, applied: bool)
    requires chain.Consistent() && HashesOnly(chain.View()) && PointerEquality(eqPtr)
    modifies chain
    ensures chain.Consistent()
    ensures !applied ==> chain.tip == old(chain.tip)
    ensures Synced(old(chain.View()), server, latest) ==>
              var m, top := old(chain.View()), Highest(latest.Keys);
              && update.Updated?
              && Blocks(update.cp) == ServerBlocks(server, UpdateHeights(m, latest, anchors))
              && (applied <==> NothingLeftAbove(m, server, top))
              && (applied ==>
                    && (forall h: Height :: h in m && h <= top ==> h in chain.View())
                    && (forall h: Height :: h in anchors && h <= top ==> h in chain.View())
                    && (forall h: Height :: h in latest ==> h in chain.View())
                    && (forall h: Height :: h in chain.View() && h <= top ==> chain.View()[h] == Block(server(h))))
  {
    ghost var m := chain.View();
    update := UpdateFromServer(server, latest, chain.tip, anchors);
    if Synced(m, server, latest) {
      UpdateUnderSync(m, server, latest, anchors);
      SyncedBlocks(m, server, latest, anchors);
    }
    hide MergedBlocks, ChainsConnect, Connects, MergeChanges, SlotsOf, InsertedAll, UpdateHeights, ServerBlocks,
         HighestAgreement, AgreesAt, Blocks, Collected, NothingLeftAbove, Suggested, HashesOnly;
    if !update.Updated? { return update, false; }
    var r := chain.ApplyUpdate(update.cp, eqPtr);
    applied := r.Ok?;
  }

  /** What the search, the inserts and the connection rule amount to for a consistent server. */
  lemma UpdateUnderSync(m: Chain, server: Server, latest: Hashes, anchors: seq<Height>)
    requires Synced(m, server, latest)
    ensures var u := ServerBlocks(server, UpdateHeights(m, latest, anchors));
            && HashesOnly(u)
            && (ChainsConnect(m, u) <==> NothingLeftAbove(m, server, Highest(latest.Keys)))
            && exists a: Height ::
                 && HighestAgreement(m, server, latest, a) && AgreesAt(m, server, latest, a)
                 && InsertedAll(Collected(m, server, latest, anchors, a), SortedItems(AsBlocks(latest))) == Some(u)
  {
    FetchedIsServer(server, latest, 0);
    HighestAgreementExists(m, server, latest, 0);
    var a: Height :| HighestAgreement(m, server, latest, a);
    UpdateIsServer(m, server, latest, anchors, a);
    UpdateConnects(m, server, latest, anchors, a);
  }
}
