/**
  The second phase of canonicalization (crates/chain/src/canonical_view_task.rs): resolving the
  reason of each canonical transaction into a position in the chain.
 */
module CanonicalViewTasks {
  import opened Wrappers
  import opened CheckPoints
  import opened TxGraphs
  import opened Ancestry
  import opened CanonicalMarking
  import opened CanonicalOffers
  import opened CanonicalTasks

  datatype ChainPosition =
    | Confirmed(anchor: Anchor, transitively: Option<Txid>)
    | Unconfirmed(firstSeen: Option<Timestamp>, lastSeen: Option<Timestamp>)

  type PositionMap = map<Txid, (Transaction, ChainPosition)>

  datatype CanonicalView = CanonicalView(
    tip: BlockId, order: seq<Txid>, txs: PositionMap, spends: map<OutPoint, Txid>)

  function Lookup(m: map<Txid, Timestamp>, t: Txid): (r: Option<Timestamp>)
    ensures r.Some? <==> t in m
    ensures r.Some? ==> r.value == m[t]
  {
    if t in m then Some(m[t]) else None
  }

  /** Whether a transaction's own anchors have to be checked. */
  predicate NeedsCheck(g: Graph, txs: CanonicalMap, t: Txid) {
    && t in txs && t in g.anchors
    && match txs[t].1
       case ObservedIn(_, _) => false
       case Assumed(_) => true
       case Anchored(_, d) => d.Some?
  }

  /** A descendant reached through canonical transactions only. */
  ghost predicate CanonicalDescendant(g: Graph, txs: set<Txid>, t: Txid, d: Txid) {
    forall s: set<Txid> ::
      Children(g, t) * txs <= s && (forall x :: x in s ==> Children(g, x) * txs <= s) ==> d in s
  }

  /** The position of a canonical transaction, given the anchors found for individual ones. */
  ghost predicate PositionFits(
    g: Graph, txs: CanonicalMap, direct: map<Txid, Anchor>, t: Txid, position: ChainPosition)
    requires t in txs
  {
    match txs[t].1
    case Assumed(_) =>
      if t in direct then position == Confirmed(direct[t], None)
      else
        || (exists d :: d in direct && d in txs && CanonicalDescendant(g, txs.Keys, t, d)
                        && position == Confirmed(direct[d], Some(d)))
        || (position == Unconfirmed(Lookup(g.firstSeen, t), Lookup(g.lastSeen, t))
            && forall d :: CanonicalDescendant(g, txs.Keys, t, d) ==> d !in direct)
    case Anchored(anchor, descendant) =>
      position == if descendant.Some? && t in direct then Confirmed(direct[t], None) else Confirmed(anchor, descendant)
    case ObservedIn(InMempool(lastSeen), _) =>
      position == Unconfirmed(Lookup(g.firstSeen, t), Some(lastSeen))
    case ObservedIn(InBlock(_), _) =>
      position == Unconfirmed(Lookup(g.firstSeen, t), None)
  }

  /** The first anchored transaction among the canonical descendants, searching breadth first. */
  method FindAnchoredDescendant(g: Graph, txs: CanonicalMap, direct: map<Txid, Anchor>, t: Txid)
    returns (r: Option<Txid>)
    requires direct.Keys <= txs.Keys
    ensures r.Some? ==> r.value in direct && CanonicalDescendant(g, txs.Keys, t, r.value)
    ensures r.None? ==> forall d :: CanonicalDescendant(g, txs.Keys, t, d) ==> d !in direct
  {
    var visited: set<Txid> := {};
    var queue := SpendersOf(g, t);
    ghost var all := Known(g);
    while queue != []
      invariant visited <= all && forall x :: x in queue ==> x in all
      invariant forall x :: x in queue && x in txs ==> CanonicalDescendant(g, txs.Keys, t, x)
      invariant forall x :: x in visited && x in txs ==> x !in direct
      invariant forall x :: x in Children(g, t) ==> x in visited || x in queue
      invariant forall x, c :: x in visited && x in txs && c in Children(g, x) ==> c in visited || c in queue
      decreases all - visited, |queue|
    {
      var d := queue[0];
      ghost var queue0 := queue;
      queue := queue[1..];
      assert forall x :: x in queue0 <==> x == d || x in queue;
      if d !in visited {
        visited := visited + {d};
        if d in txs {
          if d in direct { return Some(d); }
          var spenders := SpendersOf(g, d);
          forall c | c in spenders && c in txs ensures CanonicalDescendant(g, txs.Keys, t, c) {
            DescendThrough(g, txs.Keys, t, d, c);
          }
          queue := queue + spenders;
        }
      }
    }
    ReachedAll(g, txs.Keys, t, visited);
    return None;
  }

  lemma DescendThrough(g: Graph, txs: set<Txid>, t: Txid, d: Txid, c: Txid)
    requires CanonicalDescendant(g, txs, t, d) && c in Children(g, d) && c in txs
    ensures CanonicalDescendant(g, txs, t, c)
  {
    forall s: set<Txid> | Children(g, t) * txs <= s && (forall x :: x in s ==> Children(g, x) * txs <= s)
      ensures c in s
    {
      assert d in s;
      assert c in Children(g, d) * txs;
    }
  }

  lemma ReachedAll(g: Graph, txs: set<Txid>, t: Txid, visited: set<Txid>)
    requires forall x :: x in Children(g, t) ==> x in visited
    requires forall x, c :: x in visited && x in txs && c in Children(g, x) ==> c in visited
    ensures forall d :: CanonicalDescendant(g, txs, t, d) ==> d in visited && d in txs
  {
    var s := visited * txs;
    assert Children(g, t) * txs <= s && forall x :: x in s ==> Children(g, x) * txs <= s;
  }

  /** The anchors found so far: those of the checked transactions that the chain source confirms. */
  ghost predicate DirectSoFar(
    g: Graph, txs: CanonicalMap, respond: seq<BlockId> -> Option<BlockId>,
    checks: seq<(Txid, seq<Anchor>)>, direct: map<Txid, Anchor>)
  {
    && (forall e :: e in checks ==> NeedsCheck(g, txs, e.0) && e.1 == g.anchors[e.0])
    && (forall t :: t in direct ==> NeedsCheck(g, txs, t) && Answer(g, respond, t) == Some(direct[t]))
    && (forall t :: NeedsCheck(g, txs, t) && Answer(g, respond, t).Some? ==>
          t in direct || exists e :: e in checks && e.0 == t)
  }

  lemma CheckAnswered(
    g: Graph, txs: CanonicalMap, respond: seq<BlockId> -> Option<BlockId>,
    checks: seq<(Txid, seq<Anchor>)>, direct: map<Txid, Anchor>)
    requires DirectSoFar(g, txs, respond, checks, direct) && checks != []
    ensures var (t, anchors) := checks[0];
            var best := BestAnchor(anchors, respond(AnchorBlocks(anchors)));
            DirectSoFar(g, txs, respond, checks[1..], if best.Some? then direct[t := best.value] else direct)
  {
    assert checks[0] in checks;
    assert forall e :: e in checks ==> e == checks[0] || e in checks[1..];
  }

  class CanonicalViewTask {
    const graph: Graph
    const tip: BlockId

    var canonicalOrder: seq<Txid>
    var canonicalTxs: CanonicalMap
    var spends: map<OutPoint, Txid>
    var unprocessedAnchorChecks: seq<(Txid, seq<Anchor>)>
    var directAnchors: map<Txid, Anchor>

    ghost predicate Consistent()
      reads this
    {
      && (forall t :: t in canonicalTxs ==> graph.IsWhole(t))
      && ListsOnce(canonicalOrder, canonicalTxs.Keys)
      && directAnchors.Keys <= canonicalTxs.Keys
    }

    /** `new` */
    constructor (graph: Graph, txs: CanonicalTxs, ghost respond: seq<BlockId> -> Option<BlockId>)
      requires ListsOnce(txs.order, txs.txs.Keys) && forall t :: t in txs.txs ==> graph.IsWhole(t)
      ensures this.graph == graph && tip == txs.tip && canonicalOrder == txs.order && canonicalTxs == txs.txs
      ensures spends == txs.spends
      ensures Consistent() && DirectSoFar(graph, canonicalTxs, respond, unprocessedAnchorChecks, directAnchors)
    {
      var checks: seq<(Txid, seq<Anchor>)> := [];
      for i := 0 to |txs.order|
        invariant forall e :: e in checks ==> NeedsCheck(graph, txs.txs, e.0) && e.1 == graph.anchors[e.0]
        invariant forall k :: 0 <= k < i && NeedsCheck(graph, txs.txs, txs.order[k]) ==>
                    exists e :: e in checks && e.0 == txs.order[k]
      {
        var t := txs.order[i];
        if t in txs.txs && !txs.txs[t].1.ObservedIn? {
          var reason := txs.txs[t].1;
          if reason.descendant.Some? || reason.Assumed? {
            if t in graph.anchors {
              var entry := (t, graph.anchors[t]);
              assert entry in checks + [entry];
              checks := checks + [entry];
            }
          }
        }
      }
      this.graph, tip := graph, txs.tip;
      canonicalOrder, canonicalTxs, spends := txs.order, txs.txs, txs.spends;
      unprocessedAnchorChecks, directAnchors := checks, map[];
    }

    /** `next_query` */
    method NextQuery() returns (r: Option<seq<BlockId>>)
      ensures r.None? <==> unprocessedAnchorChecks == []
      ensures r.Some? ==> r.value == AnchorBlocks(unprocessedAnchorChecks[0].1)
    {
      return if unprocessedAnchorChecks == [] then None else Some(AnchorBlocks(unprocessedAnchorChecks[0].1));
    }

    /** `resolve_query` */
    method ResolveQuery(response: Option<BlockId>)
      requires unprocessedAnchorChecks != []
      modifies this`unprocessedAnchorChecks, this`directAnchors
      ensures unprocessedAnchorChecks == old(unprocessedAnchorChecks)[1..]
      ensures var (t, anchors) := old(unprocessedAnchorChecks[0]); var best := BestAnchor(anchors, response);
              directAnchors == if best.Some? then old(directAnchors)[t := best.value] else old(directAnchors)
    {
      var (txid, anchors) := unprocessedAnchorChecks[0];
      unprocessedAnchorChecks := unprocessedAnchorChecks[1..];
      var bestAnchor := BestAnchor(anchors, response);
      if bestAnchor.Some? {
        directAnchors := directAnchors[txid := bestAnchor.value];
      }
    }

    /** The position of one transaction, as `finish` determines it. */
    method Position(txid: Txid) returns (position: ChainPosition)
      requires Consistent() && txid in canonicalTxs
      ensures PositionFits(graph, canonicalTxs, directAnchors, txid, position)
    {
      match canonicalTxs[txid].1 {
        case Assumed(_) =>
          if txid in directAnchors {
            return Confirmed(directAnchors[txid], None);
          }
          var descendant := FindAnchoredDescendant(graph, canonicalTxs, directAnchors, txid);
          match descendant {
            case Some(d) =>
              return Confirmed(directAnchors[d], Some(d));
            case None =>
              return Unconfirmed(Lookup(graph.firstSeen, txid), Lookup(graph.lastSeen, txid));
          }
        case Anchored(anchor, descendant) =>
          if descendant.Some? && txid in directAnchors {
            return Confirmed(directAnchors[txid], None);
          }
          return Confirmed(anchor, descendant);
        case ObservedIn(InMempool(lastSeen), _) =>
          return Unconfirmed(Lookup(graph.firstSeen, txid), Some(lastSeen));
        case ObservedIn(InBlock(_), _) =>
          return Unconfirmed(Lookup(graph.firstSeen, txid), None);
      }
    }

    /** `finish`: no canonical transaction is lost. */
    method Finish() returns (view: CanonicalView)
      requires Consistent()
      ensures view.tip == tip && view.order == canonicalOrder && view.spends == spends
      ensures view.txs.Keys == canonicalTxs.Keys
      ensures forall t :: t in view.txs ==>
                view.txs[t].0 == canonicalTxs[t].0 && PositionFits(graph, canonicalTxs, directAnchors, t, view.txs[t].1)
    {
      var order: seq<Txid>, txs: PositionMap := [], map[];
      for i := 0 to |canonicalOrder|
        invariant order == canonicalOrder[..i]
        invariant forall t :: t in txs <==> t in canonicalOrder[..i]
        invariant forall t :: t in txs ==> t in canonicalTxs
        invariant forall t :: t in txs ==>
                    txs[t].0 == canonicalTxs[t].0 && PositionFits(graph, canonicalTxs, directAnchors, t, txs[t].1)
      {
        var txid := canonicalOrder[i];
        assert txid in canonicalOrder;
        assert canonicalOrder[..i + 1] == canonicalOrder[..i] + [txid];
        order := order + [txid];
        var position := Position(txid);
        txs := txs[txid := (canonicalTxs[txid].0, position)];
      }
      assert canonicalOrder[..|canonicalOrder|] == canonicalOrder;
      view := CanonicalView(tip, order, txs, spends);
    }
  }

  // --- Both phases ---

  /** Every confirmation is backed by an anchor that the chain source confirms. */
  ghost predicate Backed(g: Graph, respond: seq<BlockId> -> Option<BlockId>, t: Txid, position: ChainPosition) {
    position.Confirmed? ==>
      var source := if position.transitively.Some? then position.transitively.value else t;
      && source in g.anchors && position.anchor in g.anchors[source]
      && respond(AnchorBlocks(g.anchors[source])) == Some(position.anchor.block)
      && Answer(g, respond, source) == Some(position.anchor) && IsAncestor(g, source, t)
  }

  /** Every unconfirmed position tells when the transaction, or a descendant that made it canonical, was last seen. */
  ghost predicate Sighted(g: Graph, respond: seq<BlockId> -> Option<BlockId>, t: Txid, position: ChainPosition) {
    position.Unconfirmed? ==>
      && position.firstSeen == Lookup(g.firstSeen, t)
      && if position.lastSeen.Some? then
           exists source :: InMempoolAt(g, source, position.lastSeen.value) && IsAncestor(g, source, t)
         else
           exists source :: IsAnchored(g, source) && Answer(g, respond, source).None? && IsAncestor(g, source, t)
  }

  lemma SeenIsInMempool(g: Graph, t: Txid)
    ensures IsSeen(g, t) ==> InMempoolAt(g, t, g.lastSeen[t])
  {
  }

  /** With nothing assumed, the reason alone decides whether a transaction is confirmed. */
  lemma PositionByReason(
    g: Graph, txs: CanonicalMap, respond: seq<BlockId> -> Option<BlockId>, answered: map<Txid, Option<Anchor>>,
    direct: map<Txid, Anchor>, t: Txid, position: ChainPosition)
    requires ReasonsGrounded(g, [], answered, txs) && AnswersFrom(g, respond, answered)
    requires DirectSoFar(g, txs, respond, [], direct)
    requires t in txs && PositionFits(g, txs, direct, t, position)
    ensures position.Confirmed? <==> !txs[t].1.ObservedIn?
    ensures Backed(g, respond, t, position) && Sighted(g, respond, t, position)
  {
    hide IsTop, IsAncestor, CanonicalDescendant;
    AncestorOfItself(g, t);
    if txs[t].1.ObservedIn? {
      var source := if txs[t].1.descendant.Some? then txs[t].1.descendant.value else t;
      SeenIsInMempool(g, source);
    }
  }

  /** Confirmation is inherited by all whole ancestors. */
  lemma ConfirmedAncestors(g: Graph, stage: Stage, txs: CanonicalMap, t: Txid, a: Txid)
    requires AncestorClosed(g, txs.Keys) && ReasonsOrdered(g, stage, txs)
    requires t in txs && !txs[t].1.ObservedIn? && IsAncestor(g, t, a)
    ensures a in txs && !txs[a].1.ObservedIn?
  {
    var s := set x | x in txs && !txs[x].1.ObservedIn?;
    assert t in s && AncestorClosed(g, s);
  }

  /** The query loop of the second phase. */
  method AnswerChecks(task: CanonicalViewTask, respond: seq<BlockId> -> Option<BlockId>)
    requires task.Consistent()
    requires DirectSoFar(task.graph, task.canonicalTxs, respond, task.unprocessedAnchorChecks, task.directAnchors)
    modifies task`unprocessedAnchorChecks, task`directAnchors
    ensures task.Consistent()
    ensures DirectSoFar(task.graph, task.canonicalTxs, respond, [], task.directAnchors)
  {
    var query := task.NextQuery();
    while query.Some?
      invariant DirectSoFar(task.graph, task.canonicalTxs, respond, task.unprocessedAnchorChecks, task.directAnchors)
      invariant task.Consistent()
      invariant query == if task.unprocessedAnchorChecks == [] then None
                         else Some(AnchorBlocks(task.unprocessedAnchorChecks[0].1))
      decreases |task.unprocessedAnchorChecks|
    {
      CheckAnswered(task.graph, task.canonicalTxs, respond, task.unprocessedAnchorChecks, task.directAnchors);
      assert task.unprocessedAnchorChecks[0] in task.unprocessedAnchorChecks;
      task.ResolveQuery(respond(query.value));
      query := task.NextQuery();
    }
  }

  /** `canonical_view` without assumptions: both phases against the same chain source. */
  method ResolveView(g: Graph, chainTip: BlockId, respond: seq<BlockId> -> Option<BlockId>)
    returns (view: CanonicalView, task: CanonicalTask)
    requires g.Exact()
    ensures task.graph == g && task.Valid()
    ensures view.order == task.canonicalOrder && view.txs.Keys == task.canonical.Keys
    ensures Maximal(g, [], respond, view.txs.Keys, task.notCanonical)
    ensures Outcome(g, [], task.answered, task.winners, view.txs.Keys, task.notCanonical)
    ensures AnswersFrom(g, respond, task.answered) && forall t :: t in task.answered <==> IsAnchored(g, t)
    ensures forall t :: t in view.txs ==>
              && view.txs[t].0 == task.canonical[t].0
              && Backed(g, respond, t, view.txs[t].1) && Sighted(g, respond, t, view.txs[t].1)
    ensures forall t :: t in task.anchoredCanonical <==> t in view.txs && view.txs[t].1.Confirmed?
    ensures ConfirmedFirst(view)
    ensures forall t, a :: t in view.txs && view.txs[t].1.Confirmed? && IsAncestor(g, t, a) ==>
              a in view.txs && view.txs[a].1.Confirmed?
  {
    hide Outcome, Arranged, ConfirmedFirst, Sighted, WinnersFit, Judging, QueuesOrdered, Maximal, OffersTracked,
         QueuesMatch, AnswersTracked, ReasonsGrounded, ReasonsOrdered, Backed, DirectSoFar, AnswersFrom, Justified,
         PositionFits, IsAncestor, SpendsRecorded, AnchoredRecorded, ListsOnce, IsAnchored;
    task := new CanonicalTask(g, chainTip, []);
    var txs, _ := Canonicalize(task, respond);
    var viewTask := new CanonicalViewTask(g, txs, respond);
    AnswerChecks(viewTask, respond);
    view := viewTask.Finish();
    ViewMeaning(g, respond, task.currentStage, task.canonical, task.answered, task.anchoredCanonical,
                viewTask.directAnchors, view.txs);
    OrderOfView(g, respond, task.canonical, task.answered, viewTask.directAnchors, task.winners, view);
  }

  /** In the order of the view, confirmed transactions come before unconfirmed ones. */
  ghost predicate ConfirmedFirst(view: CanonicalView) {
    && ListsOnce(view.order, view.txs.Keys)
    && forall i, j :: 0 <= i < j < |view.order| && view.order[i] in view.txs && view.order[j] in view.txs ==>
         view.txs[view.order[j]].1.Confirmed? ==> view.txs[view.order[i]].1.Confirmed?
  }

  lemma OrderOfView(
    g: Graph, respond: seq<BlockId> -> Option<BlockId>, txs: CanonicalMap, answered: map<Txid, Option<Anchor>>,
    direct: map<Txid, Anchor>, winners: Winners, view: CanonicalView)
    requires ReasonsGrounded(g, [], answered, txs) && AnswersFrom(g, respond, answered)
    requires DirectSoFar(g, txs, respond, [], direct) && Arranged(view.order, txs, winners)
    requires view.txs.Keys == txs.Keys && forall t :: t in view.txs ==> PositionFits(g, txs, direct, t, view.txs[t].1)
    ensures ConfirmedFirst(view)
  {
    hide Backed, Sighted, PositionFits, DirectSoFar, AnswersFrom, ReasonsGrounded, ListsOnce;
    forall t | t in view.txs ensures view.txs[t].1.Confirmed? <==> !txs[t].1.ObservedIn? {
      PositionByReason(g, txs, respond, answered, direct, t, view.txs[t].1);
    }
  }

  lemma ViewMeaning(
    g: Graph, respond: seq<BlockId> -> Option<BlockId>, stage: Stage, txs: CanonicalMap,
    answered: map<Txid, Option<Anchor>>, anchoredCanonical: set<Txid>, direct: map<Txid, Anchor>, view: PositionMap)
    requires AncestorClosed(g, txs.Keys) && ReasonsOrdered(g, stage, txs) && ReasonsGrounded(g, [], answered, txs)
    requires AnswersFrom(g, respond, answered) && DirectSoFar(g, txs, respond, [], direct)
    requires stage == Finished && AnchoredRecorded(stage, txs, anchoredCanonical)
    requires view.Keys == txs.Keys && forall t :: t in view ==> PositionFits(g, txs, direct, t, view[t].1)
    ensures forall t :: t in view ==> Backed(g, respond, t, view[t].1) && Sighted(g, respond, t, view[t].1)
    ensures forall t :: t in anchoredCanonical <==> t in view && view[t].1.Confirmed?
    ensures forall t, a :: t in view && view[t].1.Confirmed? && IsAncestor(g, t, a) ==>
              a in view && view[a].1.Confirmed?
  {
    hide Backed, Sighted, PositionFits, DirectSoFar, AnswersFrom, ReasonsGrounded, ReasonsOrdered, IsAncestor;
    forall t | t in view
      ensures view[t].1.Confirmed? <==> !txs[t].1.ObservedIn?
      ensures Backed(g, respond, t, view[t].1) && Sighted(g, respond, t, view[t].1)
    {
      PositionByReason(g, txs, respond, answered, direct, t, view[t].1);
    }
    forall t, a | t in view && view[t].1.Confirmed? && IsAncestor(g, t, a) ensures a in view && view[a].1.Confirmed? {
      ConfirmedAncestors(g, stage, txs, t, a);
    }
  }
}
