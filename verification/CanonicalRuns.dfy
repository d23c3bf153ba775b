/**
  Two runs of canonicalization (crates/chain/src/canonical_task.rs, canonical_view_task.rs): two
  conflicting transactions in the mempool, and one transaction anchored on both sides of a reorg.
 */
module CanonicalRuns {
  import opened Wrappers
  import opened CheckPoints
  import opened TxGraphs
  import opened Ancestry
  import opened CanonicalMarking
  import opened CanonicalOffers
  import opened CanonicalTasks
  import opened CanonicalViewTasks

  const TIP := BlockId(101, 7)

  // --- Two rivals ---

  const COIN := OutPoint(9, 0)

  const OLDER := Transaction(1, [TxIn(COIN, InputWitness([], 0))], [5])

  const NEWER := Transaction(2, [TxIn(COIN, InputWitness([], 0))], [6])

  /** Two transactions that spend one output, last seen at 10 and at 20. */
  const RIVALS := Graph(
    map[1 := Whole(OLDER), 2 := Whole(NEWER)], map[COIN := {1, 2}], map[], map[1 := 10, 2 := 20],
    map[1 := 10, 2 := 20], map[], {}, {(10, 1), (20, 2)})

  lemma RivalsSpend(t: Txid, op: OutPoint)
    ensures RIVALS.IsWhole(t) <==> t == 1 || t == 2
    ensures RIVALS.IsWhole(t) ==> (RIVALS.Tx(t).Spends(op) <==> op == COIN)
  {
    assert OLDER.inputs[0].prev == COIN && NEWER.inputs[0].prev == COIN;
  }

  lemma RivalsExact()
    ensures RIVALS.Exact()
  {
    forall t, op ensures RIVALS.IsWhole(t) ==> (RIVALS.Tx(t).Spends(op) <==> op == COIN) {
      RivalsSpend(t, op);
    }
  }

  lemma RivalsAre()
    ensures Rivals(RIVALS, 1, 2, 10, 20)
  {
    RivalsExact();
    ConflictIsDoubleSpend(RIVALS, 2, 1);
    RivalsSpend(1, COIN);
    RivalsSpend(2, COIN);
  }

  /** The later one is canonical and the earlier one excluded, whatever the chain source says. */
  method LaterSightingWins(respond: seq<BlockId> -> Option<BlockId>) returns (r: CanonicalTxs, task: CanonicalTask)
    ensures task.graph == RIVALS && 2 in r.txs && 1 !in r.txs && 1 in task.notCanonical
  {
    hide *;
    RivalsExact();
    RivalsAre();
    task := new CanonicalTask(RIVALS, TIP, []);
    ghost var asked;
    r, asked := Canonicalize(task, respond);
    LaterRivalWins(RIVALS, task.answered, task.winners, task.canonical.Keys, task.notCanonical, 1, 2, 10, 20);
    NotBoth(RIVALS, [], task.answered, task.winners, task.canonical.Keys, task.notCanonical, 1);
  }

  lemma NotBoth(
    g: Graph, assumptions: seq<Txid>, answered: map<Txid, Option<Anchor>>, winners: Winners, canonical: set<Txid>,
    excluded: set<Txid>, t: Txid)
    requires Outcome(g, assumptions, answered, winners, canonical, excluded)
    ensures t in canonical ==> t !in excluded
  {
  }

  /** In the view the later one is unconfirmed, last seen at 20, and the earlier one is missing. */
  method LaterSightingShown(respond: seq<BlockId> -> Option<BlockId>) returns (view: CanonicalView)
    ensures 2 in view.txs && 1 !in view.txs
  {
    hide *;
    RivalsExact();
    RivalsAre();
    var task;
    view, task := ResolveView(RIVALS, TIP, respond);
    LaterRivalWins(RIVALS, task.answered, task.winners, view.txs.Keys, task.notCanonical, 1, 2, 10, 20);
    NotBoth(RIVALS, [], task.answered, task.winners, view.txs.Keys, task.notCanonical, 1);
  }

  // --- A reorg ---

  const ORPHAN := Anchor(BlockId(100, 3), 0)

  const CURRENT := Anchor(BlockId(101, 7), 0)

  /** A transaction anchored in a block that was reorganised away and in the tip. */
  const REORGED := Graph(
    map[1 := Whole(OLDER)], map[COIN := {1}], map[1 := [ORPHAN, CURRENT]], map[], map[], map[], {(101, 1)}, {})

  lemma ReorgedSpend(t: Txid, op: OutPoint)
    ensures REORGED.IsWhole(t) <==> t == 1
    ensures REORGED.IsWhole(t) ==> (REORGED.Tx(t).Spends(op) <==> op == COIN)
  {
    assert OLDER.inputs[0].prev == COIN;
  }

  lemma ReorgedExact()
    ensures REORGED.Exact() && IsAnchored(REORGED, 1)
  {
    forall t, op ensures REORGED.IsWhole(t) ==> (REORGED.Tx(t).Spends(op) <==> op == COIN) {
      ReorgedSpend(t, op);
    }
    ReorgedSpend(1, COIN);
    assert REORGED.SpendsExact();
    assert ORPHAN.Less(CURRENT);
  }

  lemma ReorgedOffered(answered: map<Txid, Option<Anchor>>, respond: seq<BlockId> -> Option<BlockId>)
    requires AnswersFrom(REORGED, respond, answered) && 1 in answered && forall ids :: respond(ids) == Some(TIP)
    ensures answered[1] == Some(CURRENT) && OfferOf(REORGED, [], answered, 1, ByAnchor(101, 1))
  {
    assert REORGED.anchors[1][1] == CURRENT;
  }

  lemma Alone(
    answered: map<Txid, Option<Anchor>>, winners: Winners, canonical: set<Txid>, excluded: set<Txid>)
    requires Outcome(REORGED, [], answered, winners, canonical, excluded)
    requires OfferOf(REORGED, [], answered, 1, ByAnchor(101, 1))
    ensures 1 in canonical
  {
    ReorgedExact();
    forall a, b ensures !InConflict(REORGED, a, b) {
      ConflictIsDoubleSpend(REORGED, a, b);
    }
    hide OfferOf, IsAncestor, InConflict, Graph.Exact;
    CanonicalExactly(REORGED, [], answered, winners, canonical, excluded, 1, ByAnchor(101, 1));
  }

  /** With a chain source that names the tip the transaction is confirmed there and not in the lost block. */
  method ConfirmedInTip(respond: seq<BlockId> -> Option<BlockId>) returns (view: CanonicalView)
    requires forall ids :: respond(ids) == Some(TIP)
    ensures 1 in view.txs && view.txs[1].1.Confirmed? && view.txs[1].1.anchor == CURRENT
  {
    hide *;
    ReorgedExact();
    var task;
    view, task := ResolveView(REORGED, TIP, respond);
    ReorgedOffered(task.answered, respond);
    Alone(task.answered, task.winners, view.txs.Keys, task.notCanonical);
    AnchorsOfOne(respond, view.txs[1].1);
  }

  lemma AnchorsOfOne(respond: seq<BlockId> -> Option<BlockId>, position: ChainPosition)
    requires forall ids :: respond(ids) == Some(TIP)
    requires Backed(REORGED, respond, 1, position) && Sighted(REORGED, respond, 1, position)
    ensures position.Confirmed? && position.anchor == CURRENT
  {
    assert REORGED.anchors[1][1] == CURRENT;
  }
}
