/**
  The first phase of canonicalization (crates/chain/src/canonical_task.rs): picking a conflict-free
  set of transactions from a graph that may hold conflicting ones.
 */
module CanonicalTasks {
  import opened Wrappers
  import opened CheckPoints
  import opened TxGraphs
  import opened Ancestry
  import opened CanonicalMarking
  import opened CanonicalOffers

  datatype Stage = AssumedTxs | AnchoredTxs | SeenTxs | LeftOverTxs | Finished
  {
    /** `advance` */
    function Advance(): Stage {
      match this
      case AssumedTxs => AnchoredTxs
      case AnchoredTxs => SeenTxs
      case SeenTxs => LeftOverTxs
      case LeftOverTxs => Finished
      case Finished => Finished
    }

    function Left(): nat {
      match this
      case AssumedTxs => 4
      case AnchoredTxs => 3
      case SeenTxs => 2
      case LeftOverTxs => 1
      case Finished => 0
    }
  }

  /** A transaction offered by a stage has been dealt with. */
  ghost predicate Resolved(g: Graph, canonical: set<Txid>, excluded: set<Txid>, t: Txid) {
    t in canonical || t in excluded || Blocked(g, excluded, t)
  }

  /** Excluding more transactions leaves the resolved ones resolved. */
  lemma StaysResolved(g: Graph, c: set<Txid>, x: set<Txid>, c': set<Txid>, x': set<Txid>)
    requires c <= c' && x <= x'
    ensures forall t :: Resolved(g, c, x, t) ==> Resolved(g, c', x', t)
  {
    forall t | Resolved(g, c, x, t) ensures Resolved(g, c', x', t) {
      if t !in c && t !in x && !SelfConflicting(g, t) {
        var a :| IsAncestor(g, t, a) && a in x;
        assert a in x';
      }
    }
  }

  // --- What the stages offer ---

  type AssumedEntry = (Txid, Transaction)
  type AnchoredEntry = (Txid, Transaction, seq<Anchor>)
  type SeenEntry = (Txid, Transaction, Timestamp)
  type LeftoverEntry = (Txid, Transaction, Height)

  /** The queues hold transactions of the graph with their data. */
  ghost predicate QueuesMatch(
    g: Graph, assumptions: seq<Txid>, assumed: seq<AssumedEntry>, anchored: seq<AnchoredEntry>, seen: seq<SeenEntry>,
    leftover: seq<LeftoverEntry>)
  {
    && (forall e :: e in assumed ==> e.0 in assumptions && g.IsWhole(e.0) && e.1 == g.Tx(e.0))
    && (forall e :: e in anchored ==> IsAnchored(g, e.0) && e.1 == g.Tx(e.0) && e.2 == g.anchors[e.0])
    && (forall e :: e in seen ==> IsSeen(g, e.0) && e.1 == g.Tx(e.0) && e.2 == g.lastSeen[e.0])
    && (forall e :: e in leftover ==> IsAnchored(g, e.0) && e.1 == g.Tx(e.0)
                                      && g.anchors[e.0] != [] && e.2 == TopHeight(g.anchors[e.0]))
  }

  /** The anchored transactions still to be asked about, each once, and those already answered. */
  ghost predicate AnswersTracked(g: Graph, anchored: seq<AnchoredEntry>, answered: map<Txid, Option<Anchor>>) {
    && (forall i, j :: 0 <= i < j < |anchored| ==> anchored[i].0 != anchored[j].0)
    && (forall e :: e in anchored ==> e.0 !in answered)
    && (forall t :: IsAnchored(g, t) <==> t in answered || exists e :: e in anchored && e.0 == t)
  }

  /** Every offered transaction is resolved or still queued; leftovers may also be dropped. */
  ghost predicate OffersTracked(
    g: Graph, assumptions: seq<Txid>, assumed: seq<AssumedEntry>, seen: seq<SeenEntry>, leftover: seq<LeftoverEntry>,
    answered: map<Txid, Option<Anchor>>, canonical: set<Txid>, excluded: set<Txid>, exempt: Option<Txid>)
  {
    && (forall t :: t in assumptions && g.IsWhole(t) ==>
          Resolved(g, canonical, excluded, t) || exists e :: e in assumed && e.0 == t)
    && (forall t :: IsSeen(g, t) ==> Resolved(g, canonical, excluded, t) || exists e :: e in seen && e.0 == t)
    && (forall t :: t in answered && answered[t].Some? && exempt != Some(t) ==> Resolved(g, canonical, excluded, t))
    && (forall t :: t in answered && answered[t].None? ==>
          || Resolved(g, canonical, excluded, t) || g.IsEvicted(t) || (g.IsWhole(t) && g.Tx(t).IsCoinbase())
          || exists e :: e in leftover && e.0 == t)
  }

  /** Nothing is left of the stages before the current one. */
  ghost predicate StagesDone(
    stage: Stage, assumed: seq<AssumedEntry>, anchored: seq<AnchoredEntry>, seen: seq<SeenEntry>,
    leftover: seq<LeftoverEntry>)
  {
    && (stage.Left() < 4 ==> assumed == [])
    && (stage.Left() < 3 ==> anchored == [])
    && (stage.Left() < 2 ==> seen == [])
    && (stage.Left() < 1 ==> leftover == [])
  }

  /**
    Observation is a reason only in the last stages, so a transaction that is canonical for a
    stronger reason has only such parents.
   */
  ghost predicate ReasonsOrdered(g: Graph, stage: Stage, canonical: CanonicalMap) {
    && (stage.Left() >= 3 ==> forall t :: t in canonical ==> !canonical[t].1.ObservedIn?)
    && (forall t, p :: t in canonical && p in Parents(g, t) && p in canonical && !canonical[t].1.ObservedIn? ==>
          !canonical[p].1.ObservedIn?)
  }

  /** After the stage of anchored transactions, its canonical set is told by the reasons. */
  ghost predicate AnchoredRecorded(stage: Stage, canonical: CanonicalMap, anchoredCanonical: set<Txid>) {
    stage.Left() < 3 ==> forall t :: t in anchoredCanonical <==> t in canonical && !canonical[t].1.ObservedIn?
  }

  /** Where the reasons come from. */
  ghost predicate ReasonsGrounded(
    g: Graph, assumptions: seq<Txid>, answered: map<Txid, Option<Anchor>>, canonical: CanonicalMap)
  {
    forall t :: t in canonical ==>
      match canonical[t].1
      case Assumed(d) =>
        (if d.Some? then d.value else t) in assumptions && IsAncestor(g, if d.Some? then d.value else t, t)
      case Anchored(a, d) =>
        var source := if d.Some? then d.value else t;
        source in answered && answered[source] == Some(a) && IsAncestor(g, source, t)
      case ObservedIn(InMempool(s), d) =>
        var source := if d.Some? then d.value else t;
        IsSeen(g, source) && g.lastSeen[source] == s && IsAncestor(g, source, t)
      case ObservedIn(InBlock(h), d) =>
        var source := if d.Some? then d.value else t;
        && IsAnchored(g, source) && IsTop(g.anchors[source], h) && IsAncestor(g, source, t)
        && source in answered && answered[source].None?
  }

  lemma SettledIsClosed(g: Graph, canonical: set<Txid>, excluded: set<Txid>)
    requires Settled(g, canonical, excluded)
    ensures AncestorClosed(g, canonical)
  {
  }

  lemma AncestorOfItself(g: Graph, t: Txid)
    ensures IsAncestor(g, t, t)
  {
  }

  /** Making an ancestry canonical for a reason keeps the reasons ordered. */
  lemma ReasonsAfterMark(
    g: Graph, stage: Stage, before: CanonicalMap, canonical: CanonicalMap, root: Txid, reason: Reason,
    anchoredCanonical: set<Txid>)
    requires ReasonsOrdered(g, stage, before) && AncestorClosed(g, before.Keys)
    requires AnchoredRecorded(stage, before, anchoredCanonical)
    requires reason.ObservedIn? ==> stage.Left() < 3
    requires !reason.ObservedIn? ==> stage.Left() >= 3
    requires before.Keys <= canonical.Keys
    requires forall t :: t in canonical ==>
               g.IsWhole(t) && canonical[t] == if t in before then before[t] else Reasoned(g, root, reason, t)
    ensures ReasonsOrdered(g, stage, canonical) && AnchoredRecorded(stage, canonical, anchoredCanonical)
  {
    forall t, p | t in canonical && p in Parents(g, t) && p in canonical && !canonical[t].1.ObservedIn?
      ensures !canonical[p].1.ObservedIn?
    {
      if t in before {
        assert p in before;
      }
    }
  }

  /** The reason for which a stage offers a transaction. */
  ghost predicate ReasonFits(
    g: Graph, assumptions: seq<Txid>, answered: map<Txid, Option<Anchor>>, t: Txid, reason: Reason)
  {
    match reason
    case Assumed(d) => d.None? && t in assumptions
    case Anchored(a, d) => d.None? && t in answered && answered[t] == Some(a)
    case ObservedIn(InMempool(s), d) => d.None? && IsSeen(g, t) && g.lastSeen[t] == s
    case ObservedIn(InBlock(h), d) =>
      d.None? && IsAnchored(g, t) && IsTop(g.anchors[t], h) && t in answered && answered[t].None?
  }

  lemma ReasonsStayGrounded(
    g: Graph, assumptions: seq<Txid>, answered: map<Txid, Option<Anchor>>, before: CanonicalMap,
    canonical: CanonicalMap,
    root: Txid, reason: Reason)
    requires ReasonsGrounded(g, assumptions, answered, before)
    requires forall t :: t in canonical ==>
               g.IsWhole(t) && canonical[t] == if t in before then before[t] else Reasoned(g, root, reason, t)
    requires forall t :: t in canonical && t !in before ==> IsAncestor(g, root, t)
    requires ReasonFits(g, assumptions, answered, root, reason)
    ensures ReasonsGrounded(g, assumptions, answered, canonical)
  {
  }

  lemma OffersStayTracked(
    g: Graph, assumptions: seq<Txid>, assumed: seq<AssumedEntry>, seen: seq<SeenEntry>, leftover: seq<LeftoverEntry>,
    answered: map<Txid, Option<Anchor>>, c: set<Txid>, x: set<Txid>, c': set<Txid>, x': set<Txid>, exempt: Option<Txid>)
    requires OffersTracked(g, assumptions, assumed, seen, leftover, answered, c, x, exempt) && c <= c' && x <= x'
    requires exempt.Some? ==> Resolved(g, c', x', exempt.value)
    ensures OffersTracked(g, assumptions, assumed, seen, leftover, answered, c', x', None)
  {
    StaysResolved(g, c, x, c', x');
  }

  lemma PopAssumed(
    g: Graph, assumptions: seq<Txid>, assumed: seq<AssumedEntry>, anchored: seq<AnchoredEntry>, seen: seq<SeenEntry>,
    leftover: seq<LeftoverEntry>, answered: map<Txid, Option<Anchor>>, c: set<Txid>, x: set<Txid>)
    requires assumed != [] && Resolved(g, c, x, assumed[0].0)
    requires OffersTracked(g, assumptions, assumed, seen, leftover, answered, c, x, None)
    requires QueuesMatch(g, assumptions, assumed, anchored, seen, leftover)
    ensures OffersTracked(g, assumptions, assumed[1..], seen, leftover, answered, c, x, None)
    ensures QueuesMatch(g, assumptions, assumed[1..], anchored, seen, leftover)
  {
    assert forall e :: e in assumed ==> e == assumed[0] || e in assumed[1..];
  }

  lemma PopSeen(
    g: Graph, assumptions: seq<Txid>, assumed: seq<AssumedEntry>, anchored: seq<AnchoredEntry>, seen: seq<SeenEntry>,
    leftover: seq<LeftoverEntry>, answered: map<Txid, Option<Anchor>>, c: set<Txid>, x: set<Txid>)
    requires seen != [] && Resolved(g, c, x, seen[0].0)
    requires OffersTracked(g, assumptions, assumed, seen, leftover, answered, c, x, None)
    requires QueuesMatch(g, assumptions, assumed, anchored, seen, leftover)
    ensures OffersTracked(g, assumptions, assumed, seen[1..], leftover, answered, c, x, None)
    ensures QueuesMatch(g, assumptions, assumed, anchored, seen[1..], leftover)
  {
    assert forall e :: e in seen ==> e == seen[0] || e in seen[1..];
  }

  lemma PopLeftover(
    g: Graph, assumptions: seq<Txid>, assumed: seq<AssumedEntry>, anchored: seq<AnchoredEntry>, seen: seq<SeenEntry>,
    leftover: seq<LeftoverEntry>, answered: map<Txid, Option<Anchor>>, c: set<Txid>, x: set<Txid>)
    requires leftover != []
    requires var t := leftover[0].0; Resolved(g, c, x, t) || g.IsEvicted(t) || (g.IsWhole(t) && g.Tx(t).IsCoinbase())
    requires OffersTracked(g, assumptions, assumed, seen, leftover, answered, c, x, None)
    requires QueuesMatch(g, assumptions, assumed, anchored, seen, leftover)
    ensures OffersTracked(g, assumptions, assumed, seen, leftover[1..], answered, c, x, None)
    ensures QueuesMatch(g, assumptions, assumed, anchored, seen, leftover[1..])
  {
    assert forall e :: e in leftover ==> e == leftover[0] || e in leftover[1..];
  }

  /** Taking the front anchored transaction and recording its answer. */
  lemma PopAnchored(g: Graph, anchored: seq<AnchoredEntry>, answered: map<Txid, Option<Anchor>>, best: Option<Anchor>)
    requires AnswersTracked(g, anchored, answered) && anchored != []
    ensures AnswersTracked(g, anchored[1..], answered[anchored[0].0 := best])
    ensures anchored[0].0 !in answered
  {
    assert forall e :: e in anchored ==> e == anchored[0] || e in anchored[1..];
    forall e | e in anchored[1..] ensures e.0 != anchored[0].0 {
      var k :| 0 <= k < |anchored[1..]| && anchored[1..][k] == e;
      assert anchored[k + 1] == e;
    }
  }

  // --- The order of the offers ---

  /** The queues hold what is still to be offered in the order of the offers. */
  ghost predicate QueuesOrdered(
    assumptions: seq<Txid>, assumed: seq<AssumedEntry>, assumedAt: seq<nat>, anchored: seq<AnchoredEntry>,
    seen: seq<SeenEntry>, leftover: seq<LeftoverEntry>)
  {
    && |assumedAt| == |assumed|
    && (forall i :: 0 <= i < |assumed| ==>
          assumedAt[i] < |assumptions| && assumptions[assumedAt[i]] == assumed[i].0)
    && (forall i, j :: 0 <= i < j < |assumedAt| ==> assumedAt[i] > assumedAt[j])
    && (forall i :: 0 <= i < |anchored| ==> anchored[i].2 != [])
    && (forall i, j :: 0 <= i < j < |anchored| ==> AnchorOffer(anchored[i]).Before(AnchorOffer(anchored[j])))
    && (forall i, j :: 0 <= i < j < |seen| ==> SightingOffer(seen[i]).Before(SightingOffer(seen[j])))
    && (forall i, j :: 0 <= i < j < |leftover| ==> LeftoverOffer(leftover[i]).Before(LeftoverOffer(leftover[j])))
    && (forall i, j :: 0 <= i < |leftover| && 0 <= j < |anchored| ==>
          ByAnchor(leftover[i].2, leftover[i].0).Before(AnchorOffer(anchored[j])))
  }

  function AnchorOffer(e: AnchoredEntry): Offer
    requires e.2 != []
  {
    ByAnchor(TopHeight(e.2), e.0)
  }

  function SightingOffer(e: SeenEntry): Offer { BySighting(e.2, e.0) }

  function LeftoverOffer(e: LeftoverEntry): Offer { ByOldAnchor(e.2, e.0) }

  /** The offer comes before everything in the queues. */
  ghost predicate Ahead(
    o: Offer, assumedAt: seq<nat>, anchored: seq<AnchoredEntry>, seen: seq<SeenEntry>, leftover: seq<LeftoverEntry>)
  {
    && (forall i :: 0 <= i < |assumedAt| ==> o.Before(ByAssumption(assumedAt[i])))
    && (forall i :: 0 <= i < |anchored| && anchored[i].2 != [] ==> o.Before(AnchorOffer(anchored[i])))
    && (forall i :: 0 <= i < |seen| ==> o.Before(SightingOffer(seen[i])))
    && (forall i :: 0 <= i < |leftover| ==> o.Before(LeftoverOffer(leftover[i])))
  }

  /** The offer is still to be made. */
  ghost predicate Waiting(
    o: Offer, t: Txid, assumedAt: seq<nat>, seen: seq<SeenEntry>, leftover: seq<LeftoverEntry>)
  {
    match o
    case ByAssumption(i) => i in assumedAt
    case ByAnchor(_, _) => false
    case BySighting(_, _) => exists e :: e in seen && e.0 == t
    case ByOldAnchor(_, _) => exists e :: e in leftover && e.0 == t
  }

  /** The winners come before the queues, and every offer was judged or is still to be made. */
  ghost predicate Judging(
    g: Graph, assumptions: seq<Txid>, answered: map<Txid, Option<Anchor>>, winners: Winners, canonical: set<Txid>,
    assumedAt: seq<nat>, anchored: seq<AnchoredEntry>, seen: seq<SeenEntry>, leftover: seq<LeftoverEntry>)
  {
    && (forall r :: r in winners ==> Ahead(winners[r], assumedAt, anchored, seen, leftover))
    && (forall e :: e in leftover ==> e.0 in answered && answered[e.0].None?)
    && (forall t, o :: OfferOf(g, assumptions, answered, t, o) && !Waiting(o, t, assumedAt, seen, leftover) ==>
          Judged(g, winners, canonical, o, t))
  }

  ghost predicate WinnersBefore(winners: Winners, o: Offer) {
    forall r :: r in winners ==> winners[r].Before(o)
  }

  /** An offer either adds its transaction to the winners or leaves them as they are. */
  ghost predicate MayWin(winners: Winners, winners': Winners, t: Txid, o: Offer) {
    winners' == winners || (t !in winners && winners' == winners[t := o])
  }

  /** The front of the assumed queue is the next offer. */
  lemma AssumedIsNext(
    g: Graph, assumptions: seq<Txid>, answered: map<Txid, Option<Anchor>>, winners: Winners, canonical: set<Txid>,
    assumed: seq<AssumedEntry>, assumedAt: seq<nat>, anchored: seq<AnchoredEntry>, seen: seq<SeenEntry>,
    leftover: seq<LeftoverEntry>)
    requires QueuesOrdered(assumptions, assumed, assumedAt, anchored, seen, leftover) && assumed != []
    requires Judging(g, assumptions, answered, winners, canonical, assumedAt, anchored, seen, leftover)
    requires g.IsWhole(assumed[0].0)
    ensures OfferOf(g, assumptions, answered, assumed[0].0, ByAssumption(assumedAt[0]))
    ensures WinnersBefore(winners, ByAssumption(assumedAt[0]))
  {
  }

  lemma AssumedIsJudged(
    g: Graph, assumptions: seq<Txid>, answered: map<Txid, Option<Anchor>>, winners: Winners, canonical: set<Txid>,
    assumed: seq<AssumedEntry>, assumedAt: seq<nat>, anchored: seq<AnchoredEntry>, seen: seq<SeenEntry>,
    leftover: seq<LeftoverEntry>, winners': Winners, canonical': set<Txid>)
    requires QueuesOrdered(assumptions, assumed, assumedAt, anchored, seen, leftover) && assumed != []
    requires Judging(g, assumptions, answered, winners, canonical, assumedAt, anchored, seen, leftover)
    requires canonical <= canonical' && MayWin(winners, winners', assumed[0].0, ByAssumption(assumedAt[0]))
    requires Judged(g, winners', canonical', ByAssumption(assumedAt[0]), assumed[0].0)
    ensures QueuesOrdered(assumptions, assumed[1..], assumedAt[1..], anchored, seen, leftover)
    ensures Judging(g, assumptions, answered, winners', canonical', assumedAt[1..], anchored, seen, leftover)
  {
    hide Judged, OfferOf;
    forall t, o | OfferOf(g, assumptions, answered, t, o) && !Waiting(o, t, assumedAt[1..], seen, leftover)
      ensures Judged(g, winners', canonical', o, t)
    {
      if o == ByAssumption(assumedAt[0]) {
        AssumptionOffers(g, assumptions, answered, t, assumedAt[0]);
      } else {
        assert assumedAt == [assumedAt[0]] + assumedAt[1..];
        JudgedLater(g, winners, canonical, winners', canonical', o, t);
      }
    }
  }

  lemma AssumptionOffers(g: Graph, assumptions: seq<Txid>, answered: map<Txid, Option<Anchor>>, t: Txid, i: nat)
    requires OfferOf(g, assumptions, answered, t, ByAssumption(i))
    ensures i < |assumptions| && assumptions[i] == t
  {
  }

  lemma NoneLeftAssumed(
    assumptions: seq<Txid>, assumed: seq<AssumedEntry>, assumedAt: seq<nat>, anchored: seq<AnchoredEntry>,
    seen: seq<SeenEntry>, leftover: seq<LeftoverEntry>)
    requires QueuesOrdered(assumptions, assumed, assumedAt, anchored, seen, leftover)
    ensures |assumedAt| == |assumed|
  {
  }

  lemma WinsNothing(winners: Winners, t: Txid, o: Offer)
    ensures MayWin(winners, winners, t, o)
  {
  }

  lemma SeenIsNext(
    g: Graph, assumptions: seq<Txid>, answered: map<Txid, Option<Anchor>>, winners: Winners, canonical: set<Txid>,
    assumedAt: seq<nat>, anchored: seq<AnchoredEntry>, seen: seq<SeenEntry>, leftover: seq<LeftoverEntry>)
    requires Judging(g, assumptions, answered, winners, canonical, assumedAt, anchored, seen, leftover) && seen != []
    requires IsSeen(g, seen[0].0) && seen[0].2 == g.lastSeen[seen[0].0]
    ensures OfferOf(g, assumptions, answered, seen[0].0, SightingOffer(seen[0]))
    ensures WinnersBefore(winners, SightingOffer(seen[0]))
  {
  }

  lemma SeenIsJudged(
    g: Graph, assumptions: seq<Txid>, answered: map<Txid, Option<Anchor>>, winners: Winners, canonical: set<Txid>,
    seen: seq<SeenEntry>, leftover: seq<LeftoverEntry>, winners': Winners, canonical': set<Txid>)
    requires QueuesOrdered(assumptions, [], [], [], seen, leftover) && seen != []
    requires Judging(g, assumptions, answered, winners, canonical, [], [], seen, leftover)
    requires canonical <= canonical' && MayWin(winners, winners', seen[0].0, SightingOffer(seen[0]))
    requires Judged(g, winners', canonical', SightingOffer(seen[0]), seen[0].0)
    requires seen[0].0 in g.lastSeen && seen[0].2 == g.lastSeen[seen[0].0]
    ensures QueuesOrdered(assumptions, [], [], [], seen[1..], leftover)
    ensures Judging(g, assumptions, answered, winners', canonical', [], [], seen[1..], leftover)
  {
    hide Judged;
    forall t, o | OfferOf(g, assumptions, answered, t, o) && !Waiting(o, t, [], seen[1..], leftover)
      ensures Judged(g, winners', canonical', o, t)
    {
      assert forall e :: e in seen ==> e == seen[0] || e in seen[1..];
      if !(o.BySighting? && t == seen[0].0) {
        JudgedLater(g, winners, canonical, winners', canonical', o, t);
      }
    }
  }

  lemma LeftoverIsNext(
    g: Graph, assumptions: seq<Txid>, answered: map<Txid, Option<Anchor>>, winners: Winners, canonical: set<Txid>,
    assumedAt: seq<nat>, anchored: seq<AnchoredEntry>, seen: seq<SeenEntry>, leftover: seq<LeftoverEntry>)
    requires Judging(g, assumptions, answered, winners, canonical, assumedAt, anchored, seen, leftover)
    requires g.Exact() && leftover != [] && IsAnchored(g, leftover[0].0)
    requires leftover[0].2 == TopHeight(g.anchors[leftover[0].0])
    ensures leftover[0].0 in answered && answered[leftover[0].0].None?
    ensures IsTop(g.anchors[leftover[0].0], leftover[0].2)
    ensures !g.Tx(leftover[0].0).IsCoinbase() && !g.IsEvicted(leftover[0].0) ==>
              OfferOf(g, assumptions, answered, leftover[0].0, LeftoverOffer(leftover[0]))
    ensures WinnersBefore(winners, LeftoverOffer(leftover[0]))
  {
    TopIsTop(g, leftover[0].0, leftover[0].2);
    assert leftover[0] in leftover;
  }

  lemma LeftoverIsJudged(
    g: Graph, assumptions: seq<Txid>, answered: map<Txid, Option<Anchor>>, winners: Winners, canonical: set<Txid>,
    leftover: seq<LeftoverEntry>, winners': Winners, canonical': set<Txid>)
    requires QueuesOrdered(assumptions, [], [], [], [], leftover) && leftover != []
    requires Judging(g, assumptions, answered, winners, canonical, [], [], [], leftover)
    requires canonical <= canonical' && MayWin(winners, winners', leftover[0].0, LeftoverOffer(leftover[0]))
    requires g.Exact() && IsAnchored(g, leftover[0].0) && leftover[0].2 == TopHeight(g.anchors[leftover[0].0])
    requires Judged(g, winners', canonical', LeftoverOffer(leftover[0]), leftover[0].0)
          || g.Tx(leftover[0].0).IsCoinbase() || g.IsEvicted(leftover[0].0)
    ensures QueuesOrdered(assumptions, [], [], [], [], leftover[1..])
    ensures Judging(g, assumptions, answered, winners', canonical', [], [], [], leftover[1..])
  {
    hide Judged, Graph.Exact, IsTop;
    forall t, o | OfferOf(g, assumptions, answered, t, o) && !Waiting(o, t, [], [], leftover[1..])
      ensures Judged(g, winners', canonical', o, t)
    {
      assert forall e :: e in leftover ==> e == leftover[0] || e in leftover[1..];
      if o.ByOldAnchor? && t == leftover[0].0 {
        TopIsTop(g, t, o.height);
      } else {
        JudgedLater(g, winners, canonical, winners', canonical', o, t);
      }
    }
  }

  lemma AnchoredIsNext(
    g: Graph, assumptions: seq<Txid>, answered: map<Txid, Option<Anchor>>, winners: Winners, canonical: set<Txid>,
    assumedAt: seq<nat>, anchored: seq<AnchoredEntry>, seen: seq<SeenEntry>, leftover: seq<LeftoverEntry>,
    best: Option<Anchor>)
    requires Judging(g, assumptions, answered, winners, canonical, assumedAt, anchored, seen, leftover)
    requires g.Exact() && anchored != [] && IsAnchored(g, anchored[0].0) && anchored[0].2 == g.anchors[anchored[0].0]
    ensures anchored[0].2 != [] && IsTop(anchored[0].2, TopHeight(anchored[0].2))
    ensures best.Some? ==>
              OfferOf(g, assumptions, answered[anchored[0].0 := best], anchored[0].0, AnchorOffer(anchored[0]))
    ensures WinnersBefore(winners, AnchorOffer(anchored[0]))
  {
    TopIsTop(g, anchored[0].0, TopHeight(g.anchors[anchored[0].0]));
  }

  lemma AnchoredIsJudged(
    g: Graph, assumptions: seq<Txid>, answered: map<Txid, Option<Anchor>>, winners: Winners, canonical: set<Txid>,
    anchored: seq<AnchoredEntry>, seen: seq<SeenEntry>, leftover: seq<LeftoverEntry>, best: Anchor,
    winners': Winners, canonical': set<Txid>)
    requires QueuesOrdered(assumptions, [], [], anchored, seen, leftover) && anchored != []
    requires Judging(g, assumptions, answered, winners, canonical, [], anchored, seen, leftover)
    requires g.Exact() && anchored[0].0 in g.anchors && anchored[0].2 == g.anchors[anchored[0].0]
    requires canonical <= canonical' && MayWin(winners, winners', anchored[0].0, AnchorOffer(anchored[0]))
    requires Judged(g, winners', canonical', AnchorOffer(anchored[0]), anchored[0].0) && anchored[0].0 !in answered
    ensures QueuesOrdered(assumptions, [], [], anchored[1..], seen, leftover)
    ensures Judging(g, assumptions, answered[anchored[0].0 := Some(best)], winners', canonical', [], anchored[1..],
              seen, leftover)
  {
    hide Judged, Graph.Exact, IsTop;
    var answered' := answered[anchored[0].0 := Some(best)];
    forall t, o | OfferOf(g, assumptions, answered', t, o) && !Waiting(o, t, [], seen, leftover)
      ensures Judged(g, winners', canonical', o, t)
    {
      if t == anchored[0].0 && o.ByAnchor? {
        TopIsTop(g, t, o.height);
      } else {
        assert OfferOf(g, assumptions, answered, t, o);
        JudgedLater(g, winners, canonical, winners', canonical', o, t);
      }
    }
  }

  lemma AnchoredIsLeftOver(
    g: Graph, assumptions: seq<Txid>, answered: map<Txid, Option<Anchor>>, winners: Winners, canonical: set<Txid>,
    anchored: seq<AnchoredEntry>, seen: seq<SeenEntry>, leftover: seq<LeftoverEntry>, entry: LeftoverEntry)
    requires QueuesOrdered(assumptions, [], [], anchored, seen, leftover) && anchored != []
    requires Judging(g, assumptions, answered, winners, canonical, [], anchored, seen, leftover)
    requires anchored[0].2 != [] && entry.0 == anchored[0].0 && entry.2 == TopHeight(anchored[0].2)
    requires anchored[0].0 !in answered
    ensures QueuesOrdered(assumptions, [], [], anchored[1..], seen, leftover + [entry])
    ensures Judging(g, assumptions, answered[entry.0 := None], winners, canonical, [], anchored[1..], seen,
              leftover + [entry])
  {
    hide Judged, IsTop;
    var answered' := answered[entry.0 := None];
    forall t, o | OfferOf(g, assumptions, answered', t, o) && !Waiting(o, t, [], seen, leftover + [entry])
      ensures Judged(g, winners, canonical, o, t)
    {
      assert entry in leftover + [entry];
      assert forall e :: e in leftover ==> e in leftover + [entry];
      assert OfferOf(g, assumptions, answered, t, o);
    }
    forall r | r in winners ensures Ahead(winners[r], [], anchored[1..], seen, leftover + [entry]) {
      assert winners[r].Before(AnchorOffer(anchored[0]));
    }
  }

  lemma PlacesMean(g: Graph, assumptions: seq<Txid>, assumed: seq<AssumedEntry>, at: seq<nat>)
    requires PlacesFrom(g, assumptions, 0, assumed, at)
    ensures forall i: nat :: i < |assumptions| && g.IsWhole(assumptions[i]) ==> i in at
  {
  }

  lemma QueuesBegin(
    g: Graph, assumptions: seq<Txid>, assumed: seq<AssumedEntry>, at: seq<nat>, anchored: seq<AnchoredEntry>,
    seen: seq<SeenEntry>)
    requires PlacesFrom(g, assumptions, 0, assumed, at)
    requires forall e :: e in anchored ==> e.2 != []
    requires forall i, j :: 0 <= i < j < |anchored| ==>
               PairLess((TopHeight(anchored[j].2), anchored[j].0), (TopHeight(anchored[i].2), anchored[i].0))
    requires forall i, j :: 0 <= i < j < |seen| ==> PairLess((seen[j].2, seen[j].0), (seen[i].2, seen[i].0))
    ensures QueuesOrdered(assumptions, assumed, at, anchored, seen, [])
  {
    forall i | 0 <= i < |anchored| ensures anchored[i].2 != [] { assert anchored[i] in anchored; }
  }

  /** Before anything is decided, everything that the stages offer is queued. */
  lemma NothingDecided(
    g: Graph, assumptions: seq<Txid>, assumed: seq<AssumedEntry>, anchored: seq<AnchoredEntry>, seen: seq<SeenEntry>)
    requires g.Exact() && AnswersTracked(g, anchored, map[])
    requires forall e :: e in assumed ==> e.0 in assumptions && g.IsWhole(e.0) && e.1 == g.Tx(e.0)
    requires forall t :: t in assumptions && g.IsWhole(t) ==> exists e :: e in assumed && e.0 == t
    requires forall e :: e in anchored ==> IsAnchored(g, e.0) && e.1 == g.Tx(e.0) && e.2 == g.anchors[e.0]
    requires forall e :: e in seen ==> IsSeen(g, e.0) && e.1 == g.Tx(e.0) && e.2 == g.lastSeen[e.0]
    requires forall t :: IsSeen(g, t) ==> exists e :: e in seen && e.0 == t
    ensures QueuesMatch(g, assumptions, assumed, anchored, seen, [])
    ensures OffersTracked(g, assumptions, assumed, seen, [], map[], {}, {}, None)
    ensures StagesDone(AssumedTxs, assumed, anchored, seen, [])
    ensures ReasonsOrdered(g, AssumedTxs, map[]) && ReasonsGrounded(g, assumptions, map[], map[])
    ensures Settled(g, {}, {}) && Justified(g, {}, {}) && ListsOnce([], {}) && EntriesMatch(g, map[])
    ensures forall anchoredCanonical :: AnchoredRecorded(AssumedTxs, map[], anchoredCanonical)
  {
    hide Graph.Exact, IsSeen, IsAnchored;
  }

  lemma NothingJudged(
    g: Graph, assumptions: seq<Txid>, assumedAt: seq<nat>, anchored: seq<AnchoredEntry>, seen: seq<SeenEntry>)
    requires forall i: nat :: i < |assumptions| && g.IsWhole(assumptions[i]) ==> i in assumedAt
    requires forall t :: IsSeen(g, t) ==> exists e :: e in seen && e.0 == t
    ensures Judging(g, assumptions, map[], map[], {}, assumedAt, anchored, seen, [])
    ensures WinnersFit(g, assumptions, map[], map[], {}, {}) && Arranged([], map[], map[])
  {
    hide Judged, IsTop;
    forall t, o | OfferOf(g, assumptions, map[], t, o) ensures Waiting(o, t, assumedAt, seen, []) {
      match o
      case ByAssumption(i) => assert i in assumedAt;
      case BySighting(_, _) => assert IsSeen(g, t);
      case _ =>
    }
  }

  /** An answer takes back no offer. */
  lemma WinnersStillFit(
    g: Graph, assumptions: seq<Txid>, answered: map<Txid, Option<Anchor>>, winners: Winners, canonical: set<Txid>,
    excluded: set<Txid>, t: Txid, best: Option<Anchor>)
    requires WinnersFit(g, assumptions, answered, winners, canonical, excluded) && t !in answered
    ensures WinnersFit(g, assumptions, answered[t := best], winners, canonical, excluded)
  {
    hide IsAncestor, Beats, OfferOf, AllWon, AllBeaten;
    forall r | r in winners ensures OfferOf(g, assumptions, answered[t := best], r, winners[r]) {
      OfferStays(g, assumptions, answered, r, winners[r], t, best);
    }
  }

  lemma OfferStays(
    g: Graph, assumptions: seq<Txid>, answered: map<Txid, Option<Anchor>>, r: Txid, o: Offer, t: Txid,
    best: Option<Anchor>)
    requires OfferOf(g, assumptions, answered, r, o) && t !in answered
    ensures OfferOf(g, assumptions, answered[t := best], r, o)
  {
    hide IsTop;
  }

  /** What `mark_canonical` makes of the winners. */
  lemma WinnersAfterMark(
    g: Graph, assumptions: seq<Txid>, answered: map<Txid, Option<Anchor>>, winners: Winners, canonical: set<Txid>,
    excluded: set<Txid>, t: Txid, o: Offer, canonical': set<Txid>, excluded': set<Txid>)
    requires WinnersFit(g, assumptions, answered, winners, canonical, excluded)
    requires OfferOf(g, assumptions, answered, t, o) && t !in winners
    requires forall a :: a in canonical' <==> a in canonical || IsAncestor(g, t, a)
    requires forall x :: x in excluded' <==> x in excluded || Beats(g, t, x)
    ensures WinnersFit(g, assumptions, answered, winners[t := o], canonical', excluded') && t in canonical'
  {
    hide IsAncestor, Beats, OfferOf, AllOffered, AllWon, AllBeaten;
    AncestorOfItself(g, t);
    OfferedWithOneMore(g, assumptions, answered, winners, canonical, t, o, canonical');
    WonByOneMore(g, winners, canonical, t, o, canonical');
    BeatenByOneMore(g, winners, excluded, t, o, excluded');
  }

  lemma OfferedWithOneMore(
    g: Graph, assumptions: seq<Txid>, answered: map<Txid, Option<Anchor>>, winners: Winners, canonical: set<Txid>,
    t: Txid, o: Offer, canonical': set<Txid>)
    requires AllOffered(g, assumptions, answered, winners, canonical) && OfferOf(g, assumptions, answered, t, o)
    requires canonical <= canonical' && t in canonical'
    ensures AllOffered(g, assumptions, answered, winners[t := o], canonical')
  {
    hide OfferOf;
  }

  lemma OneMoreWinner(winners: Winners, t: Txid, o: Offer)
    ensures t in winners[t := o] && forall r :: r in winners ==> r in winners[t := o]
  {
  }

  lemma WonByOneMore(g: Graph, winners: Winners, canonical: set<Txid>, t: Txid, o: Offer, canonical': set<Txid>)
    requires AllWon(g, winners, canonical) && forall x :: x in canonical' <==> x in canonical || IsAncestor(g, t, x)
    ensures AllWon(g, winners[t := o], canonical')
  {
    hide IsAncestor;
    forall x | x in canonical' ensures IsWon(g, winners[t := o], x) {
      OneMoreWinner(winners, t, o);
      if x in canonical {
        assert IsWon(g, winners, x);
        var r :| r in winners && IsAncestor(g, r, x);
        assert r in winners[t := o];
      }
    }
  }

  lemma BeatenByOneMore(g: Graph, winners: Winners, excluded: set<Txid>, t: Txid, o: Offer, excluded': set<Txid>)
    requires AllBeaten(g, winners, excluded) && forall x :: x in excluded' <==> x in excluded || Beats(g, t, x)
    ensures AllBeaten(g, winners[t := o], excluded')
  {
    hide Beats;
    forall x | x in excluded' ensures exists r :: r in winners[t := o] && Beats(g, r, x) {
      OneMoreWinner(winners, t, o);
      if x in excluded {
        var r :| r in winners && Beats(g, r, x);
        assert r in winners[t := o];
      }
    }
  }

  /** What the last stages observed comes after everything else, and winners come in the order of their offers. */
  ghost predicate Arranged(order: seq<Txid>, canonical: CanonicalMap, winners: Winners) {
    && ListsOnce(order, canonical.Keys)
    && (forall i, j :: 0 <= i < j < |order| && order[i] in canonical && order[j] in canonical ==>
          canonical[order[i]].1.ObservedIn? ==> canonical[order[j]].1.ObservedIn?)
    && (forall i, j :: 0 <= i < j < |order| && order[i] in winners && order[j] in winners ==>
          winners[order[i]].Before(winners[order[j]]))
  }

  lemma ArrangedAfterMark(
    before: CanonicalMap, order: seq<Txid>, winners: Winners, canonical: CanonicalMap, added: seq<Txid>, t: Txid,
    reason: Reason, o: Offer)
    requires Arranged(order, before, winners) && WinnersBefore(winners, o) && winners.Keys <= before.Keys
    requires before.Keys <= canonical.Keys && ListsOnce(added, canonical.Keys - before.Keys) && t !in before
    requires ListsOnce(order + added, canonical.Keys)
    requires forall x :: x in before ==> canonical[x] == before[x]
    requires forall x :: x in canonical && x !in before ==>
               canonical[x].1 == if x == t then reason else reason.ToTransitive(t)
    requires reason.ObservedIn? || forall x :: x in before ==> !before[x].1.ObservedIn?
    ensures Arranged(order + added, canonical, winners[t := o])
  {
    var all := order + added;
    forall k | 0 <= k < |all|
      ensures all[k] in canonical && (all[k] in before <==> k < |order|)
      ensures k >= |order| ==> canonical[all[k]].1.ObservedIn? == reason.ObservedIn?
    {
      if k < |order| { assert order[k] in order; } else { assert added[k - |order|] in added; }
    }
    assert forall i, j :: 0 <= i < j < |all| ==> all[i] != all[j];
    hide ListsOnce;
    forall i, j | 0 <= i < j < |all| && all[i] in winners[t := o] && all[j] in winners[t := o]
      ensures winners[t := o][all[i]].Before(winners[t := o][all[j]])
    {
      if j >= |order| { assert all[j] == t; }
    }
  }

  lemma NothingObserved(g: Graph, stage: Stage, canonical: CanonicalMap)
    requires ReasonsOrdered(g, stage, canonical)
    ensures stage.Left() >= 3 ==> forall t :: t in canonical ==> !canonical[t].1.ObservedIn?
  {
  }

  lemma WinnersCanonical(
    g: Graph, assumptions: seq<Txid>, answered: map<Txid, Option<Anchor>>, winners: Winners, canonical: set<Txid>,
    excluded: set<Txid>)
    requires WinnersFit(g, assumptions, answered, winners, canonical, excluded)
    ensures winners.Keys <= canonical
  {
  }

  lemma CanonicalIsJudged(g: Graph, winners: Winners, canonical: set<Txid>, o: Offer, t: Txid)
    requires t in canonical
    ensures Judged(g, winners, canonical, o, t)
  {
  }

  /** A transaction that is decided or blocked is judged. */
  lemma DecidedIsJudged(
    g: Graph, assumptions: seq<Txid>, answered: map<Txid, Option<Anchor>>, winners: Winners, canonical: set<Txid>,
    excluded: set<Txid>, t: Txid, o: Offer)
    requires WinnersFit(g, assumptions, answered, winners, canonical, excluded) && WinnersBefore(winners, o)
    requires t in canonical || t in excluded || Blocked(g, excluded, t)
    ensures Judged(g, winners, canonical, o, t)
  {
    hide OfferOf, IsAncestor, Beats, SelfConflicting, AllOffered, AllWon;
    AncestorOfItself(g, t);
    if t !in canonical && !SelfConflicting(g, t) {
      var a :| IsAncestor(g, t, a) && a in excluded;
      var r :| r in winners && Beats(g, r, a);
      assert winners[r].Before(o);
    }
  }

  /** The anchor that a response confirms, if any. */
  function FindAnchor(anchors: seq<Anchor>, id: BlockId): (r: Option<Anchor>)
    ensures r.Some? ==>
              exists i :: 0 <= i < |anchors| && r.value == anchors[i] && anchors[i].block == id
                          && forall j :: 0 <= j < i ==> anchors[j].block != id
    ensures r.None? ==> forall a :: a in anchors ==> a.block != id
  {
    if anchors == [] then None
    else if anchors[0].block == id then Some(anchors[0])
    else FindAnchor(anchors[1..], id)
  }

  /** The first anchor in the block that the response names, if it names one and there is such an anchor. */
  function BestAnchor(anchors: seq<Anchor>, response: Option<BlockId>): (r: Option<Anchor>)
    ensures r.Some? ==> r.value in anchors && response == Some(r.value.block)
    ensures r.None? ==> response.None? || forall a :: a in anchors ==> a.block != response.value
    ensures r.Some? ==>
              exists i :: 0 <= i < |anchors| && r.value == anchors[i]
                          && forall j :: 0 <= j < i ==> anchors[j].block != r.value.block
  {
    if response.None? then None else FindAnchor(anchors, response.value)
  }

  /** The query for a transaction: the blocks of its anchors. */
  function AnchorBlocks(anchors: seq<Anchor>): (r: seq<BlockId>)
    ensures |r| == |anchors| && forall i :: 0 <= i < |r| ==> r[i] == anchors[i].block
  {
    seq(|anchors|, i requires 0 <= i < |anchors| => anchors[i].block)
  }

  /** What canonicalization has found out when it is finished. */
  datatype CanonicalTxs = CanonicalTxs(
    tip: BlockId, order: seq<Txid>, txs: CanonicalMap, spends: map<OutPoint, Txid>)

  /** The anchored whole transactions, by descending anchor height. */
  method AnchoredQueue(g: Graph) returns (r: seq<AnchoredEntry>)
    requires g.Exact()
    ensures AnswersTracked(g, r, map[])
    ensures forall e :: e in r ==> IsAnchored(g, e.0) && e.1 == g.Tx(e.0) && e.2 == g.anchors[e.0] && e.2 != []
    ensures forall i, j :: 0 <= i < j < |r| ==> PairLess((TopHeight(r[j].2), r[j].0), (TopHeight(r[i].2), r[i].0))
  {
    var pairs := DescendingOrder(g.byConfHeight);
    r := [];
    for i := 0 to |pairs|
      invariant forall e :: e in r ==> IsAnchored(g, e.0) && e.1 == g.Tx(e.0) && e.2 == g.anchors[e.0] && e.2 != []
      invariant forall e :: e in r ==> (TopHeight(e.2), e.0) in pairs[..i]
      invariant forall k :: 0 <= k < i && IsAnchored(g, pairs[k].1) ==> exists e :: e in r && e.0 == pairs[k].1
      invariant forall k, l :: 0 <= k < l < |r| ==> PairLess((TopHeight(r[l].2), r[l].0), (TopHeight(r[k].2), r[k].0))
    {
      var (h, t) := pairs[i];
      assert pairs[i] in g.byConfHeight;
      assert pairs[..i + 1] == pairs[..i] + [pairs[i]];
      if g.IsWhole(t) && t in g.anchors {
        var entry := (t, g.Tx(t), g.anchors[t]);
        assert (TopHeight(entry.2), entry.0) == pairs[i];
        r := r + [entry];
      }
    }
    assert pairs[..|pairs|] == pairs;
    forall t | IsAnchored(g, t) ensures exists e :: e in r && e.0 == t {
      assert (TopHeight(g.anchors[t]), t) in g.byConfHeight;
      assert (TopHeight(g.anchors[t]), t) in pairs;
    }
  }

  /** The seen and not evicted transactions, most recently seen first. */
  method SeenQueue(g: Graph) returns (r: seq<SeenEntry>)
    requires g.Exact()
    ensures forall e :: e in r ==> IsSeen(g, e.0) && e.1 == g.Tx(e.0) && e.2 == g.lastSeen[e.0]
    ensures forall t :: IsSeen(g, t) ==> exists e :: e in r && e.0 == t
    ensures forall i, j :: 0 <= i < j < |r| ==> PairLess((r[j].2, r[j].0), (r[i].2, r[i].0))
  {
    var pairs := DescendingOrder(g.byLastSeen);
    r := [];
    for i := 0 to |pairs|
      invariant forall e :: e in r ==> IsSeen(g, e.0) && e.1 == g.Tx(e.0) && e.2 == g.lastSeen[e.0]
      invariant forall e :: e in r ==> (e.2, e.0) in pairs[..i]
      invariant forall k :: 0 <= k < i && IsSeen(g, pairs[k].1) ==> exists e :: e in r && e.0 == pairs[k].1
      invariant forall k, l :: 0 <= k < l < |r| ==> PairLess((r[l].2, r[l].0), (r[k].2, r[k].0))
    {
      var (lastSeen, t) := pairs[i];
      assert pairs[i] in g.byLastSeen;
      assert pairs[..i + 1] == pairs[..i] + [pairs[i]];
      if !(t in g.lastEvicted && g.lastEvicted[t] >= lastSeen) && g.IsWhole(t) {
        var entry := (t, g.Tx(t), lastSeen);
        r := r + [entry];
      }
    }
    assert pairs[..|pairs|] == pairs;
    forall t | IsSeen(g, t) ensures exists e :: e in r && e.0 == t {
      assert (g.lastSeen[t], t) in g.byLastSeen;
      assert (g.lastSeen[t], t) in pairs;
    }
  }

  /** The assumed transactions that are whole, later ones first. */
  function AssumedEntries(g: Graph, assumptions: seq<Txid>): seq<AssumedEntry> {
    if assumptions == [] then []
    else
      (if g.IsWhole(assumptions[0]) then AssumedEntries(g, assumptions[1..]) + [(assumptions[0], g.Tx(assumptions[0]))]
       else AssumedEntries(g, assumptions[1..]))
  }

  /** The places of the queued assumptions: those of all whole ones, descending. */
  ghost predicate PlacesFrom(g: Graph, assumptions: seq<Txid>, from: nat, entries: seq<AssumedEntry>, at: seq<nat>) {
    && |at| == |entries|
    && (forall i :: 0 <= i < |at| ==> from <= at[i] < |assumptions| && assumptions[at[i]] == entries[i].0)
    && (forall i, j :: 0 <= i < j < |at| ==> at[i] > at[j])
    && (forall i: nat :: from <= i < |assumptions| && g.IsWhole(assumptions[i]) ==> i in at)
  }

  lemma {:induction false} AssumedPlaces(g: Graph, assumptions: seq<Txid>, from: nat) returns (at: seq<nat>)
    requires from <= |assumptions|
    ensures PlacesFrom(g, assumptions, from, AssumedEntries(g, assumptions[from..]), at)
    decreases |assumptions| - from
  {
    if from == |assumptions| { return []; }
    var rest := AssumedPlaces(g, assumptions, from + 1);
    assert assumptions[from..][1..] == assumptions[from + 1..];
    at := if g.IsWhole(assumptions[from]) then rest + [from] else rest;
  }

  method AssumedQueue(g: Graph, assumptions: seq<Txid>) returns (r: seq<AssumedEntry>)
    ensures r == AssumedEntries(g, assumptions)
    ensures forall e :: e in r ==> e.0 in assumptions && g.IsWhole(e.0) && e.1 == g.Tx(e.0)
    ensures forall t :: t in assumptions && g.IsWhole(t) ==> exists e :: e in r && e.0 == t
  {
    r := [];
    for i := |assumptions| downto 0
      invariant r == AssumedEntries(g, assumptions[i..])
      invariant forall e :: e in r ==> e.0 in assumptions && g.IsWhole(e.0) && e.1 == g.Tx(e.0)
      invariant forall k :: i <= k < |assumptions| && g.IsWhole(assumptions[k]) ==>
                  exists e :: e in r && e.0 == assumptions[k]
    {
      var t := assumptions[i];
      assert assumptions[i..][1..] == assumptions[i + 1..];
      if g.IsWhole(t) {
        var entry := (t, g.Tx(t));
        assert entry in r + [entry];
        r := r + [entry];
      }
    }
  }

  /** Each non-null spent output of a non-coinbase transaction is recorded with its spender. */
  ghost predicate SpendsRecorded(txs: CanonicalMap, spends: map<OutPoint, Txid>) {
    && (forall t, op: OutPoint :: t in txs && !txs[t].0.IsCoinbase() && txs[t].0.Spends(op) && !op.IsNull() ==>
          op in spends && spends[op] == t)
    && (forall op :: op in spends ==>
          spends[op] in txs && !txs[spends[op]].0.IsCoinbase() && txs[spends[op]].0.Spends(op))
  }

  method RecordSpends(spends: map<OutPoint, Txid>, txid: Txid, tx: Transaction) returns (r: map<OutPoint, Txid>)
    ensures forall op :: op in r <==> op in spends || (!tx.IsCoinbase() && tx.Spends(op))
    ensures forall op :: op in r ==> r[op] == if !tx.IsCoinbase() && tx.Spends(op) then txid else spends[op]
  {
    r := spends;
    if !tx.IsCoinbase() {
      for i := 0 to |tx.inputs|
        invariant forall op :: op in r <==> op in spends || exists k :: 0 <= k < i && tx.inputs[k].prev == op
        invariant forall op :: op in r ==>
                    r[op] == if exists k :: 0 <= k < i && tx.inputs[k].prev == op then txid else spends[op]
      {
        r := r[tx.inputs[i].prev := txid];
      }
    }
  }

  /** Canonical transactions spend distinct outputs, so recording one overwrites no other. */
  lemma NoOverwrite(
    g: Graph, canonical: CanonicalMap, excluded: set<Txid>, txs: CanonicalMap,
    spends: map<OutPoint, Txid>, recorded: map<OutPoint, Txid>, txid: Txid)
    requires g.Exact() && EntriesMatch(g, canonical) && Settled(g, canonical.Keys, excluded)
    requires txid in canonical && txs.Keys <= canonical.Keys && forall t :: t in txs ==> txs[t] == canonical[t]
    requires SpendsRecorded(txs, spends)
    requires var tx := canonical[txid].0;
             && (forall op :: op in recorded <==> op in spends || (!tx.IsCoinbase() && tx.Spends(op)))
             && (forall op :: op in recorded ==>
                   recorded[op] == if !tx.IsCoinbase() && tx.Spends(op) then txid else spends[op])
    ensures SpendsRecorded(txs[txid := canonical[txid]], recorded)
  {
    forall t, op: OutPoint | t in txs && txs[t].0.Spends(op) && !op.IsNull() && canonical[txid].0.Spends(op)
      ensures t == txid
    {
      SettledSpendsOnce(g, canonical.Keys, excluded, t, txid, op);
    }
    AddsRecords(txs, spends, recorded, txid, canonical[txid]);
  }

  lemma AddsRecords(
    txs: CanonicalMap, spends: map<OutPoint, Txid>, recorded: map<OutPoint, Txid>, txid: Txid,
    entry: (Transaction, Reason))
    requires SpendsRecorded(txs, spends)
    requires txid in txs ==> txs[txid] == entry
    requires forall t, op: OutPoint :: t in txs && txs[t].0.Spends(op) && !op.IsNull() && entry.0.Spends(op) ==>
              t == txid
    requires forall op :: op in recorded <==> op in spends || (!entry.0.IsCoinbase() && entry.0.Spends(op))
    requires forall op :: op in recorded ==>
               recorded[op] == if !entry.0.IsCoinbase() && entry.0.Spends(op) then txid else spends[op]
    ensures SpendsRecorded(txs[txid := entry], recorded)
  {
  }

  class CanonicalTask {
    const graph: Graph
    const chainTip: BlockId
    ghost const assumptions: seq<Txid>

    var unprocessedAssumed: seq<AssumedEntry>
    var unprocessedAnchored: seq<AnchoredEntry>
    var unprocessedSeen: seq<SeenEntry>
    var unprocessedLeftover: seq<LeftoverEntry>

    var canonical: CanonicalMap
    var notCanonical: set<Txid>
    var canonicalOrder: seq<Txid>
    var currentStage: Stage

    /** The anchored transactions asked about so far, with the anchor found to be confirmed. */
    ghost var answered: map<Txid, Option<Anchor>>

    /** The canonical transactions at the end of the stage of anchored transactions. */
    ghost var anchoredCanonical: set<Txid>

    /** The transactions that won on an offer of their own, and where the queued assumptions stand. */
    ghost var winners: Winners
    ghost var assumedAt: seq<nat>

    /** `new` */
    constructor (graph: Graph, chainTip: BlockId, assumptions: seq<Txid>)
      requires graph.Exact()
      ensures Valid() && currentStage == AssumedTxs && answered == map[]
      ensures this.graph == graph && this.assumptions == assumptions && this.chainTip == chainTip
    {
      hide Consistent, QueuesMatch, AnswersTracked, OffersTracked, Judging, QueuesOrdered, Arranged, WinnersFit,
           PlacesFrom, ReasonsGrounded, ReasonsOrdered, AnchoredRecorded, Settled, Justified, Graph.Exact;
      var assumed := AssumedQueue(graph, assumptions);
      ghost var at := AssumedPlaces(graph, assumptions, 0);
      assert assumptions[0..] == assumptions;
      var anchored := AnchoredQueue(graph);
      var seen := SeenQueue(graph);
      PlacesMean(graph, assumptions, assumed, at);
      QueuesBegin(graph, assumptions, assumed, at, anchored, seen);
      NothingJudged(graph, assumptions, at, anchored, seen);
      NothingDecided(graph, assumptions, assumed, anchored, seen);
      this.graph, this.chainTip, this.assumptions := graph, chainTip, assumptions;
      unprocessedAssumed, unprocessedAnchored, unprocessedSeen, unprocessedLeftover := assumed, anchored, seen, [];
      canonical, notCanonical, canonicalOrder := map[], {}, [];
      currentStage := AssumedTxs;
      answered, winners, assumedAt := map[], map[], at;
      new;
      assert canonical.Keys == {};
      assert Consistent() by { StartsConsistent(); }
    }

    /** Nothing decided is consistent. */
    lemma StartsConsistent()
      requires graph.Exact() && EntriesMatch(graph, canonical) && Settled(graph, canonical.Keys, notCanonical)
      requires Justified(graph, canonical.Keys, notCanonical) && ListsOnce(canonicalOrder, canonical.Keys)
      ensures Consistent()
    {
    }

    predicate IsCanonicalized(txid: Txid)
      reads this
    {
      txid in canonical || txid in notCanonical
    }

    /** The canonical and excluded transactions are consistent and justified. */
    ghost predicate Consistent()
      reads this`canonical, this`notCanonical, this`canonicalOrder
    {
      && graph.Exact()
      && EntriesMatch(graph, canonical)
      && Settled(graph, canonical.Keys, notCanonical)
      && Justified(graph, canonical.Keys, notCanonical)
      && ListsOnce(canonicalOrder, canonical.Keys)
    }

    /**
      `mark_canonical` is all-or-nothing: if the ancestry is blocked nothing changes, and otherwise
      exactly the undecided ancestors become canonical and exactly the descendants of their
      conflicts are excluded.
     */
    method MarkCanonical(txid: Txid, tx: Transaction, reason: Reason)
      requires Consistent() && graph.IsWhole(txid) && tx == graph.Tx(txid) && !IsCanonicalized(txid)
      modifies this`canonical, this`notCanonical, this`canonicalOrder
      ensures Consistent()
      ensures Blocked(graph, old(notCanonical), txid) ==>
                canonical == old(canonical) && notCanonical == old(notCanonical)
                    && canonicalOrder == old(canonicalOrder)
      ensures !Blocked(graph, old(notCanonical), txid) ==>
                && (forall a :: a in canonical <==> a in old(canonical) || IsAncestor(graph, txid, a))
                && (forall t :: t in old(canonical) ==> canonical[t] == old(canonical)[t])
                && (forall a :: a in canonical && a !in old(canonical) ==>
                    canonical[a] == Reasoned(graph, txid, reason, a))
                && (forall x ::
                      x in notCanonical <==>
                        x in old(notCanonical)
                        || exists a, c :: IsAncestor(graph, txid, a) && InConflict(graph, a, c)
                            && IsDescendant(graph, c, x))
                && (exists added :: canonicalOrder == old(canonicalOrder) + added
                                    && ListsOnce(added, canonical.Keys - old(canonical).Keys))
      ensures !graph.IsWhole(NULL_TXID) ==> (Blocked(graph, old(notCanonical), txid) <==> SelfConflicting(graph, txid))
    {
      hide SelfConflicting, Blocked, Settled, Justified, Walking, Frontier, EntriesMatch, ListsOnce,
           ExcludedByAncestry, IsAncestor, IsDescendant, InConflict;
      ghost var before, excludedBefore := canonical, notCanonical;
      if !graph.IsWhole(NULL_TXID) { BlockedMeansSelfConflicting(graph, canonical.Keys, notCanonical, txid); }
      var marked, excluded, staged, undo, doubleSpend, visited :=
        WalkAncestors(graph, canonical, notCanonical, txid, tx, reason);
      canonical, notCanonical := marked, excluded;
      if doubleSpend {
        for i := 0 to |staged|
          invariant notCanonical == excluded && canonicalOrder == old(canonicalOrder)
          invariant canonical == marked - set k | 0 <= k < i :: staged[k]
        {
          canonical := canonical - {staged[i]};
        }
        UndoRestores(graph, txid, reason, before, excludedBefore, marked, excluded, staged, undo);
        for i := 0 to |undo|
          invariant canonical == before && canonicalOrder == old(canonicalOrder)
          invariant notCanonical == excluded - set k | 0 <= k < i :: undo[k]
        {
          notCanonical := notCanonical - {undo[i]};
        }
        return;
      }
      WalkSettles(graph, txid, reason, before, excludedBefore, canonical, notCanonical, staged, undo, visited);
      StaysJustified(graph, txid, before.Keys, excludedBefore, canonical.Keys, notCanonical);
      AppendOnce(canonicalOrder, before.Keys, staged, canonical.Keys - before.Keys);
      assert before.Keys + (canonical.Keys - before.Keys) == canonical.Keys;
      for i := 0 to |staged|
        invariant canonical == marked && notCanonical == excluded
        invariant canonicalOrder == old(canonicalOrder) + staged[..i]
      {
        canonicalOrder := canonicalOrder + [staged[i]];
      }
      assert staged[..|staged|] == staged;
    }

    /** The invariant of every run. */
    ghost predicate Valid()
      reads this
    {
      ValidBut(None) && Fitting() && Ranked()
    }

    /** The winners account for what is canonical and what is excluded. */
    ghost predicate Fitting()
      reads this
    {
      && WinnersFit(graph, assumptions, answered, winners, canonical.Keys, notCanonical)
      && Arranged(canonicalOrder, canonical, winners)
    }

    /** Offers are made in their order, and those made were judged. */
    ghost predicate Ranked()
      reads this
    {
      && QueuesOrdered(assumptions, unprocessedAssumed, assumedAt, unprocessedAnchored, unprocessedSeen,
                       unprocessedLeftover)
      && Judging(graph, assumptions, answered, winners, canonical.Keys, assumedAt, unprocessedAnchored,
                 unprocessedSeen, unprocessedLeftover)
    }

    /** The invariant, except that one confirmed transaction may still have to be offered. */
    ghost predicate ValidBut(exempt: Option<Txid>)
      reads this
    {
      && graph.Exact() && Consistent()
      && QueuesMatch(graph, assumptions, unprocessedAssumed, unprocessedAnchored, unprocessedSeen, unprocessedLeftover)
      && AnswersTracked(graph, unprocessedAnchored, answered)
      && OffersTracked(graph, assumptions, unprocessedAssumed, unprocessedSeen, unprocessedLeftover, answered,
                       canonical.Keys, notCanonical, exempt)
      && StagesDone(currentStage, unprocessedAssumed, unprocessedAnchored, unprocessedSeen, unprocessedLeftover)
      && ReasonsOrdered(graph, currentStage, canonical)
      && ReasonsGrounded(graph, assumptions, answered, canonical)
      && AnchoredRecorded(currentStage, canonical, anchoredCanonical)
    }

    /** `mark_canonical` for an offer: it is judged, and the transaction wins unless it is blocked. */
    method MarkOffered(txid: Txid, tx: Transaction, reason: Reason, ghost o: Offer)
      requires Consistent() && graph.IsWhole(txid) && tx == graph.Tx(txid) && !IsCanonicalized(txid)
      requires Fitting() && WinnersBefore(winners, o) && OfferOf(graph, assumptions, answered, txid, o)
      requires reason.ObservedIn? || forall t :: t in canonical ==> !canonical[t].1.ObservedIn?
      modifies this`canonical, this`notCanonical, this`canonicalOrder, this`winners
      ensures Consistent() && Fitting()
      ensures MayWin(old(winners), winners, txid, o) && Judged(graph, winners, canonical.Keys, o, txid)
      ensures old(canonical).Keys <= canonical.Keys && old(notCanonical) <= notCanonical
      ensures Blocked(graph, old(notCanonical), txid) ==>
                canonical == old(canonical) && notCanonical == old(notCanonical)
      ensures !Blocked(graph, old(notCanonical), txid) ==>
                && (forall t :: t in old(canonical) ==> canonical[t] == old(canonical)[t])
                && (forall a :: a in canonical && a !in old(canonical) ==>
                    IsAncestor(graph, txid, a) && canonical[a] == Reasoned(graph, txid, reason, a))
                && txid in canonical
    {
      hide Blocked, Settled, Justified, ListsOnce, IsAncestor, IsDescendant, InConflict, OfferOf, WinnersFit,
           WinnersBefore, Judged, EntriesMatch, Graph.Exact, SelfConflicting, Arranged;
      ghost var before, decided, excluded := canonical, canonical.Keys, notCanonical;
      ghost var order := canonicalOrder;
      WinnersCanonical(graph, assumptions, answered, winners, canonical.Keys, notCanonical);
      if Blocked(graph, notCanonical, txid) {
        DecidedIsJudged(graph, assumptions, answered, winners, canonical.Keys, notCanonical, txid, o);
      }
      MarkCanonical(txid, tx, reason);
      if !Blocked(graph, excluded, txid) {
        WinnersAfterMark(graph, assumptions, answered, winners, decided, excluded, txid, o, canonical.Keys,
                         notCanonical);
        ghost var added :| canonicalOrder == order + added && ListsOnce(added, canonical.Keys - before.Keys);
        ArrangedAfterMark(before, order, winners, canonical, added, txid, reason, o);
        winners := winners[txid := o];
        CanonicalIsJudged(graph, winners, canonical.Keys, o, txid);
      }
    }

    /** The call of `mark_canonical` in each stage, unless the transaction is decided already. */
    method MakeOffer(txid: Txid, tx: Transaction, reason: Reason, ghost exempt: Option<Txid>, ghost o: Offer)
      requires ValidBut(exempt) && (exempt.Some? ==> exempt.value == txid)
      requires Fitting() && WinnersBefore(winners, o) && OfferOf(graph, assumptions, answered, txid, o)
      requires graph.IsWhole(txid) && tx == graph.Tx(txid)
      requires reason.ObservedIn? <==> currentStage.Left() < 3
      requires ReasonFits(graph, assumptions, answered, txid, reason)
      modifies this`canonical, this`notCanonical, this`canonicalOrder, this`winners
      ensures ValidBut(None) && Fitting()
      ensures MayWin(old(winners), winners, txid, o) && Judged(graph, winners, canonical.Keys, o, txid)
      ensures Resolved(graph, canonical.Keys, notCanonical, txid)
      ensures old(canonical).Keys <= canonical.Keys && old(notCanonical) <= notCanonical
    {
      hide Blocked, Settled, Justified, ListsOnce, IsAncestor, OffersTracked, OfferOf, WinnersFit, WinnersBefore,
           Judged, MayWin, ReasonFits, QueuesMatch, AnswersTracked, ReasonsGrounded, ReasonsOrdered, StagesDone,
           Arranged, AncestorClosed, AnchoredRecorded, Graph.Exact;
      SettledIsClosed(graph, canonical.Keys, notCanonical);
      WinsNothing(winners, txid, o);
      NothingObserved(graph, currentStage, canonical);
      if IsCanonicalized(txid) {
        DecidedIsJudged(graph, assumptions, answered, winners, canonical.Keys, notCanonical, txid, o);
      } else {
        MarkOffered(txid, tx, reason, o);
        if !Blocked(graph, old(notCanonical), txid) {
          ReasonsAfterMark(graph, currentStage, old(canonical), canonical, txid, reason, anchoredCanonical);
          ReasonsStayGrounded(graph, assumptions, answered, old(canonical), canonical, txid, reason);
        }
      }
      OffersStayTracked(graph, assumptions, unprocessedAssumed, unprocessedSeen, unprocessedLeftover, answered,
                        old(canonical).Keys, old(notCanonical), canonical.Keys, notCanonical, exempt);
    }

    /** One turn of the stage of assumed transactions. */
    method OfferAssumed()
      requires Valid() && currentStage == AssumedTxs && unprocessedAssumed != []
      modifies this`canonical, this`notCanonical, this`canonicalOrder, this`unprocessedAssumed, this`winners,
               this`assumedAt
      ensures Valid() && unprocessedAssumed == old(unprocessedAssumed)[1..]
    {
      hide Consistent, WinnersFit, WinnersBefore, QueuesOrdered, Arranged, Judging, OfferOf, Judged, MayWin,
           OffersTracked, QueuesMatch, AnswersTracked, ReasonsGrounded, ReasonsOrdered, Resolved, AnchoredRecorded,
           Graph.Exact;
      ghost var before, decided := winners, canonical.Keys;
      var (txid, tx) := unprocessedAssumed[0];
      NoneLeftAssumed(assumptions, unprocessedAssumed, assumedAt, unprocessedAnchored, unprocessedSeen,
                      unprocessedLeftover);
      FrontAssumed(graph, assumptions, unprocessedAssumed, unprocessedAnchored, unprocessedSeen, unprocessedLeftover);
      AssumedIsNext(graph, assumptions, answered, winners, canonical.Keys, unprocessedAssumed, assumedAt,
                    unprocessedAnchored, unprocessedSeen, unprocessedLeftover);
      MakeOffer(txid, tx, Assumed(None), None, ByAssumption(assumedAt[0]));
      AssumedIsJudged(graph, assumptions, answered, before, decided, unprocessedAssumed, assumedAt,
                      unprocessedAnchored, unprocessedSeen, unprocessedLeftover, winners, canonical.Keys);
      PopAssumed(graph, assumptions, unprocessedAssumed, unprocessedAnchored, unprocessedSeen, unprocessedLeftover,
                 answered, canonical.Keys, notCanonical);
      unprocessedAssumed, assumedAt := unprocessedAssumed[1..], assumedAt[1..];
    }

    /** One turn of the stage of seen transactions. */
    method OfferSeen()
      requires Valid() && currentStage == SeenTxs && unprocessedSeen != []
      modifies this`canonical, this`notCanonical, this`canonicalOrder, this`unprocessedSeen, this`winners
      ensures Valid() && unprocessedSeen == old(unprocessedSeen)[1..]
    {
      hide Consistent, WinnersFit, WinnersBefore, QueuesOrdered, Arranged, Judging, OfferOf, Judged, MayWin,
           OffersTracked, QueuesMatch, AnswersTracked, ReasonsGrounded, ReasonsOrdered, Resolved, AnchoredRecorded,
           Graph.Exact;
      ghost var before, decided := winners, canonical.Keys;
      var (txid, tx, lastSeen) := unprocessedSeen[0];
      NoneLeftAssumed(assumptions, unprocessedAssumed, assumedAt, unprocessedAnchored, unprocessedSeen,
                      unprocessedLeftover);
      FrontSeen(graph, assumptions, unprocessedAssumed, unprocessedAnchored, unprocessedSeen, unprocessedLeftover);
      SeenIsNext(graph, assumptions, answered, winners, canonical.Keys, assumedAt, unprocessedAnchored,
                 unprocessedSeen, unprocessedLeftover);
      MakeOffer(txid, tx, ObservedIn(InMempool(lastSeen), None), None, SightingOffer(unprocessedSeen[0]));
      SeenIsJudged(graph, assumptions, answered, before, decided, unprocessedSeen, unprocessedLeftover, winners,
                   canonical.Keys);
      PopSeen(graph, assumptions, unprocessedAssumed, unprocessedAnchored, unprocessedSeen, unprocessedLeftover,
              answered, canonical.Keys, notCanonical);
      unprocessedSeen := unprocessedSeen[1..];
    }

    /** One turn of the stage of leftover transactions, which drops coinbases and evicted ones. */
    method OfferLeftover()
      requires Valid() && currentStage == LeftOverTxs && unprocessedLeftover != []
      modifies this`canonical, this`notCanonical, this`canonicalOrder, this`unprocessedLeftover, this`winners
      ensures Valid() && unprocessedLeftover == old(unprocessedLeftover)[1..]
    {
      hide Consistent, WinnersFit, WinnersBefore, QueuesOrdered, Arranged, Judging, OfferOf, Judged, MayWin,
           OffersTracked, QueuesMatch, AnswersTracked, ReasonsGrounded, ReasonsOrdered, Resolved, AnchoredRecorded,
           Graph.Exact;
      ghost var before, decided := winners, canonical.Keys;
      var (txid, tx, height) := unprocessedLeftover[0];
      NoneLeftAssumed(assumptions, unprocessedAssumed, assumedAt, unprocessedAnchored, unprocessedSeen,
                      unprocessedLeftover);
      FrontLeftover(graph, assumptions, unprocessedAssumed, unprocessedAnchored, unprocessedSeen,
                    unprocessedLeftover);
      LeftoverIsNext(graph, assumptions, answered, winners, canonical.Keys, assumedAt, unprocessedAnchored,
                     unprocessedSeen, unprocessedLeftover);
      WinsNothing(winners, txid, LeftoverOffer(unprocessedLeftover[0]));
      if !tx.IsCoinbase() && !graph.IsEvicted(txid) {
        MakeOffer(txid, tx, ObservedIn(InBlock(height), None), None, LeftoverOffer(unprocessedLeftover[0]));
      }
      LeftoverIsJudged(graph, assumptions, answered, before, decided, unprocessedLeftover, winners, canonical.Keys);
      PopLeftover(graph, assumptions, unprocessedAssumed, unprocessedAnchored, unprocessedSeen, unprocessedLeftover,
                  answered, canonical.Keys, notCanonical);
      unprocessedLeftover := unprocessedLeftover[1..];
    }

    /** One turn of the loop of `next_query` in a stage that asks nothing. */
    method Turn() returns (progress: bool)
      requires Valid() && currentStage != Finished
      requires currentStage.AnchoredTxs? ==> unprocessedAnchored == []
      modifies this`canonical, this`notCanonical, this`canonicalOrder, this`unprocessedAssumed, this`unprocessedSeen,
               this`unprocessedLeftover, this`currentStage, this`anchoredCanonical, this`winners, this`assumedAt
      ensures Valid()
      ensures Work() < old(Work())
    {
      hide Consistent, WinnersFit, QueuesOrdered, Judging, OffersTracked, QueuesMatch, AnswersTracked, StagesDone,
           ReasonsGrounded, ReasonsOrdered, AnchoredRecorded, Graph.Exact;
      progress := false;
      match currentStage {
        case AssumedTxs =>
          if unprocessedAssumed != [] {
            OfferAssumed();
            progress := true;
          }
        case AnchoredTxs =>
        case SeenTxs =>
          if unprocessedSeen != [] {
            OfferSeen();
            progress := true;
          }
        case LeftOverTxs =>
          if unprocessedLeftover != [] {
            OfferLeftover();
            progress := true;
          }
      }
      if !progress {
        AdvanceStage();
      }
    }

    /** The end of a stage with nothing left to offer. */
    method AdvanceStage()
      requires Valid() && currentStage != Finished
      requires currentStage.AssumedTxs? ==> unprocessedAssumed == []
      requires currentStage.AnchoredTxs? ==> unprocessedAnchored == []
      requires currentStage.SeenTxs? ==> unprocessedSeen == []
      requires currentStage.LeftOverTxs? ==> unprocessedLeftover == []
      modifies this`currentStage, this`anchoredCanonical
      ensures Valid() && currentStage == old(currentStage).Advance()
    {
      hide Consistent, WinnersFit, QueuesOrdered, Judging, OffersTracked, QueuesMatch, AnswersTracked, ReasonsGrounded,
           ReasonsOrdered, AnchoredRecorded, Graph.Exact;
      NextStage(graph, currentStage, canonical, anchoredCanonical);
      if currentStage == AnchoredTxs { anchoredCanonical := canonical.Keys; }
      currentStage := currentStage.Advance();
    }

    /** `next_query` */
    method NextQuery() returns (r: Option<seq<BlockId>>)
      requires Valid()
      modifies this`canonical, this`notCanonical, this`canonicalOrder, this`unprocessedAssumed, this`unprocessedSeen,
               this`unprocessedLeftover, this`currentStage, this`anchoredCanonical, this`winners, this`assumedAt
      ensures Valid()
      ensures r.None? ==> currentStage == Finished
      ensures r.Some? ==>
                currentStage == AnchoredTxs && unprocessedAnchored != []
                    && r.value == AnchorBlocks(unprocessedAnchored[0].2)
    {
      while currentStage != Finished
        invariant Valid()
        decreases Work()
      {
        if currentStage == AnchoredTxs && unprocessedAnchored != [] {
          return Some(AnchorBlocks(unprocessedAnchored[0].2));
        }
        var _ := Turn();
      }
      return None;
    }

    /** `resolve_query` */
    method ResolveQuery(response: Option<BlockId>)
      requires Valid() && currentStage == AnchoredTxs && unprocessedAnchored != []
      modifies this`canonical, this`notCanonical, this`canonicalOrder, this`unprocessedAnchored,
               this`unprocessedLeftover, this`answered, this`winners
      ensures Valid()
      ensures unprocessedAnchored == old(unprocessedAnchored)[1..]
      ensures var (txid, _, anchors) := old(unprocessedAnchored[0]);
              txid !in old(answered) && answered == old(answered)[txid := BestAnchor(anchors, response)]
    {
      hide Consistent, WinnersFit, WinnersBefore, QueuesOrdered, Arranged, Judging, OfferOf, Judged, MayWin, IsTop,
           OffersTracked, QueuesMatch, AnswersTracked, ReasonsGrounded, ReasonsOrdered, Resolved, IsAnchored, IsSeen,
           AnchoredRecorded, Graph.Exact, BestAnchor;
      var (txid, tx, anchors) := unprocessedAnchored[0];
      var bestAnchor := BestAnchor(anchors, response);
      FrontAnchored(graph, assumptions, unprocessedAssumed, unprocessedAnchored, unprocessedSeen, unprocessedLeftover);
      PopAnchored(graph, unprocessedAnchored, answered, bestAnchor);
      GroundedLater(graph, assumptions, answered, canonical, txid, bestAnchor);
      NoneLeftAssumed(assumptions, unprocessedAssumed, assumedAt, unprocessedAnchored, unprocessedSeen,
                      unprocessedLeftover);
      AnchoredIsNext(graph, assumptions, answered, winners, canonical.Keys, assumedAt, unprocessedAnchored,
                     unprocessedSeen, unprocessedLeftover, bestAnchor);
      WinnersStillFit(graph, assumptions, answered, winners, canonical.Keys, notCanonical, txid, bestAnchor);
      ghost var before, decided, known, queue := winners, canonical.Keys, answered, unprocessedAnchored;
      if bestAnchor.Some? {
        AnswerConfirmed(graph, assumptions, unprocessedAssumed, unprocessedSeen, unprocessedLeftover, answered,
                        canonical.Keys, notCanonical, txid, bestAnchor);
        answered := answered[txid := bestAnchor];
        unprocessedAnchored := unprocessedAnchored[1..];
        MakeOffer(txid, tx, Anchored(bestAnchor.value, None), Some(txid), AnchorOffer(queue[0]));
        AnchoredIsJudged(graph, assumptions, known, before, decided, queue, unprocessedSeen, unprocessedLeftover,
                         bestAnchor.value, winners, canonical.Keys);
      } else {
        var entry := (txid, tx, TopHeight(anchors));
        AnswerLeftover(graph, assumptions, unprocessedAssumed, unprocessedAnchored[1..], unprocessedSeen,
                       unprocessedLeftover, answered, canonical.Keys, notCanonical, entry);
        AnchoredIsLeftOver(graph, assumptions, answered, winners, canonical.Keys, unprocessedAnchored, unprocessedSeen,
                           unprocessedLeftover, entry);
        answered := answered[txid := bestAnchor];
        unprocessedAnchored := unprocessedAnchored[1..];
        unprocessedLeftover := unprocessedLeftover + [entry];
      }
    }

    /** The transaction asked about next. */
    lemma Front()
      requires Valid() && unprocessedAnchored != []
      ensures var (t, tx, anchors) := unprocessedAnchored[0];
              IsAnchored(graph, t) && tx == graph.Tx(t) && anchors == graph.anchors[t]
    {
      FrontAnchored(graph, assumptions, unprocessedAssumed, unprocessedAnchored, unprocessedSeen, unprocessedLeftover);
    }

    /** `finish`: no spend entry is ever overwritten by another transaction. */
    method Finish() returns (r: CanonicalTxs)
      requires Consistent()
      ensures r.tip == chainTip && r.order == canonicalOrder && r.txs == canonical
      ensures SpendsRecorded(canonical, r.spends)
    {
      hide EntriesMatch, Settled, Justified, ListsOnce, SpendsRecorded, Among, Graph.Exact;
      var order: seq<Txid>, txs: CanonicalMap, spends: map<OutPoint, Txid> := [], map[], map[];
      NothingRecorded(canonical);
      for i := 0 to |canonicalOrder|
        invariant order == canonicalOrder[..i]
        invariant txs == Among(canonical, canonicalOrder[..i])
        invariant SpendsRecorded(txs, spends)
      {
        var txid := canonicalOrder[i];
        OneMoreAmong(canonical, canonicalOrder, i);
        order := order + [txid];
        var (tx, reason) := canonical[txid];
        var recorded := RecordSpends(spends, txid, tx);
        NoOverwrite(graph, canonical, notCanonical, txs, spends, recorded, txid);
        spends := recorded;
        txs := txs[txid := (tx, reason)];
      }
      AllAmong(canonical, canonicalOrder);
      r := CanonicalTxs(chainTip, order, txs, spends);
    }

    ghost function Work(): nat
      reads this
    {
      currentStage.Left() + |unprocessedAssumed| + |unprocessedSeen| + |unprocessedLeftover|
    }
  }

  /** The entries of the listed transactions. */
  function Among(canonical: CanonicalMap, order: seq<Txid>): CanonicalMap {
    map t | t in canonical && t in order :: canonical[t]
  }

  lemma NothingRecorded(canonical: CanonicalMap)
    ensures Among(canonical, []) == map[] && SpendsRecorded(map[], map[])
  {
  }

  lemma OneMoreAmong(canonical: CanonicalMap, order: seq<Txid>, i: nat)
    requires i < |order| && ListsOnce(order, canonical.Keys)
    ensures order[i] in canonical && order[..i + 1] == order[..i] + [order[i]]
    ensures Among(canonical, order[..i + 1]) == Among(canonical, order[..i])[order[i] := canonical[order[i]]]
    ensures Among(canonical, order[..i]).Keys <= canonical.Keys
    ensures forall t :: t in Among(canonical, order[..i]) ==> Among(canonical, order[..i])[t] == canonical[t]
  {
    assert order[i] in order;
    assert order[..i + 1] == order[..i] + [order[i]];
  }

  lemma AllAmong(canonical: CanonicalMap, order: seq<Txid>)
    requires ListsOnce(order, canonical.Keys)
    ensures order[..|order|] == order && Among(canonical, order) == canonical
  {
  }

  lemma FrontAssumed(
    g: Graph, assumptions: seq<Txid>, assumed: seq<AssumedEntry>, anchored: seq<AnchoredEntry>, seen: seq<SeenEntry>,
    leftover: seq<LeftoverEntry>)
    requires QueuesMatch(g, assumptions, assumed, anchored, seen, leftover) && assumed != []
    ensures assumed[0].0 in assumptions && g.IsWhole(assumed[0].0) && assumed[0].1 == g.Tx(assumed[0].0)
  {
    assert assumed[0] in assumed;
  }

  lemma FrontSeen(
    g: Graph, assumptions: seq<Txid>, assumed: seq<AssumedEntry>, anchored: seq<AnchoredEntry>, seen: seq<SeenEntry>,
    leftover: seq<LeftoverEntry>)
    requires QueuesMatch(g, assumptions, assumed, anchored, seen, leftover) && seen != []
    ensures g.IsWhole(seen[0].0) && seen[0].1 == g.Tx(seen[0].0)
    ensures IsSeen(g, seen[0].0) && seen[0].2 == g.lastSeen[seen[0].0]
  {
    assert seen[0] in seen;
  }

  lemma FrontLeftover(
    g: Graph, assumptions: seq<Txid>, assumed: seq<AssumedEntry>, anchored: seq<AnchoredEntry>, seen: seq<SeenEntry>,
    leftover: seq<LeftoverEntry>)
    requires QueuesMatch(g, assumptions, assumed, anchored, seen, leftover) && leftover != []
    ensures g.IsWhole(leftover[0].0) && leftover[0].1 == g.Tx(leftover[0].0)
    ensures IsAnchored(g, leftover[0].0) && leftover[0].2 == TopHeight(g.anchors[leftover[0].0])
  {
    assert leftover[0] in leftover;
  }

  lemma FrontAnchored(
    g: Graph, assumptions: seq<Txid>, assumed: seq<AssumedEntry>, anchored: seq<AnchoredEntry>, seen: seq<SeenEntry>,
    leftover: seq<LeftoverEntry>)
    requires QueuesMatch(g, assumptions, assumed, anchored, seen, leftover) && anchored != []
    requires g.Exact()
    ensures var (t, tx, anchors) := anchored[0];
            IsAnchored(g, t) && g.IsWhole(t) && tx == g.Tx(t) && anchors == g.anchors[t] && anchors != []
    ensures QueuesMatch(g, assumptions, assumed, anchored[1..], seen, leftover)
  {
    assert anchored[0] in anchored;
  }

  lemma GroundedLater(
    g: Graph, assumptions: seq<Txid>, answered: map<Txid, Option<Anchor>>, canonical: CanonicalMap, t: Txid,
    best: Option<Anchor>)
    requires ReasonsGrounded(g, assumptions, answered, canonical) && t !in answered
    ensures ReasonsGrounded(g, assumptions, answered[t := best], canonical)
  {
  }

  lemma AnswerConfirmed(
    g: Graph, assumptions: seq<Txid>, assumed: seq<AssumedEntry>, seen: seq<SeenEntry>, leftover: seq<LeftoverEntry>,
    answered: map<Txid, Option<Anchor>>, c: set<Txid>, x: set<Txid>, t: Txid, best: Option<Anchor>)
    requires OffersTracked(g, assumptions, assumed, seen, leftover, answered, c, x, None)
    requires best.Some?
    ensures OffersTracked(g, assumptions, assumed, seen, leftover, answered[t := best], c, x, Some(t))
  {
  }

  lemma AnswerLeftover(
    g: Graph, assumptions: seq<Txid>, assumed: seq<AssumedEntry>, anchored: seq<AnchoredEntry>, seen: seq<SeenEntry>,
    leftover: seq<LeftoverEntry>, answered: map<Txid, Option<Anchor>>, c: set<Txid>, x: set<Txid>, entry: LeftoverEntry)
    requires OffersTracked(g, assumptions, assumed, seen, leftover, answered, c, x, None)
    requires QueuesMatch(g, assumptions, assumed, anchored, seen, leftover)
    requires IsAnchored(g, entry.0) && entry.1 == g.Tx(entry.0) && g.anchors[entry.0] != []
    requires entry.2 == TopHeight(g.anchors[entry.0])
    ensures OffersTracked(g, assumptions, assumed, seen, leftover + [entry], answered[entry.0 := None], c, x, None)
    ensures QueuesMatch(g, assumptions, assumed, anchored, seen, leftover + [entry])
  {
    assert forall e :: e in leftover + [entry] <==> e in leftover || e == entry;
  }

  lemma NextStage(g: Graph, stage: Stage, canonical: CanonicalMap, anchoredCanonical: set<Txid>)
    requires ReasonsOrdered(g, stage, canonical) && AnchoredRecorded(stage, canonical, anchoredCanonical)
    ensures ReasonsOrdered(g, stage.Advance(), canonical)
    ensures AnchoredRecorded(stage.Advance(), canonical,
                             if stage == AnchoredTxs then canonical.Keys else anchoredCanonical)
  {
  }

  // --- A whole run ---

  /** What a run against a chain source that answers queries by `respond` has to achieve. */
  ghost predicate Maximal(
    g: Graph, assumptions: seq<Txid>, respond: seq<BlockId> -> Option<BlockId>, canonical: set<Txid>,
    excluded: set<Txid>)
  {
    && (forall t :: t in assumptions && g.IsWhole(t) ==> Resolved(g, canonical, excluded, t))
    && (forall t :: IsAnchored(g, t) && Answer(g, respond, t).Some? ==> Resolved(g, canonical, excluded, t))
    && (forall t :: IsSeen(g, t) ==> Resolved(g, canonical, excluded, t))
    && (forall t :: IsAnchored(g, t) && Answer(g, respond, t).None? && !g.Tx(t).IsCoinbase() && !g.IsEvicted(t) ==>
          Resolved(g, canonical, excluded, t))
  }

  /** A transaction that some stage offers. */
  ghost predicate Offered(g: Graph, assumptions: seq<Txid>, respond: seq<BlockId> -> Option<BlockId>, t: Txid) {
    || (t in assumptions && g.IsWhole(t))
    || IsSeen(g, t)
    || (IsAnchored(g, t) && (Answer(g, respond, t).Some? || (!g.Tx(t).IsCoinbase() && !g.IsEvicted(t))))
  }

  /** As no transaction hashes to the null txid, every offer is canonical, excluded or conflicts with itself. */
  lemma MaximalMeansDecided(
    g: Graph, assumptions: seq<Txid>, respond: seq<BlockId> -> Option<BlockId>, canonical: set<Txid>,
    excluded: set<Txid>)
    requires g.Exact() && Settled(g, canonical, excluded) && !g.IsWhole(NULL_TXID)
    requires Maximal(g, assumptions, respond, canonical, excluded)
    ensures forall t :: Offered(g, assumptions, respond, t) ==> t in canonical || t in excluded || SelfConflicting(g, t)
  {
    hide Graph.Exact, Settled, Answer, Blocked, SelfConflicting;
    forall t | Offered(g, assumptions, respond, t) && t !in canonical && t !in excluded ensures SelfConflicting(g, t) {
      BlockedMeansSelfConflicting(g, canonical, excluded, t);
    }
  }

  /** The anchor that the chain source confirms for a transaction. */
  function Answer(g: Graph, respond: seq<BlockId> -> Option<BlockId>, t: Txid): Option<Anchor>
    requires t in g.anchors
  {
    BestAnchor(g.anchors[t], respond(AnchorBlocks(g.anchors[t])))
  }

  lemma FinishedIsMaximal(
    g: Graph, assumptions: seq<Txid>, respond: seq<BlockId> -> Option<BlockId>,
    answered: map<Txid, Option<Anchor>>, canonical: set<Txid>, excluded: set<Txid>)
    requires AnswersTracked(g, [], answered)
    requires OffersTracked(g, assumptions, [], [], [], answered, canonical, excluded, None)
    requires AnswersFrom(g, respond, answered)
    ensures Maximal(g, assumptions, respond, canonical, excluded)
  {
    assert forall e: AssumedEntry :: e !in [];
    assert forall e: SeenEntry :: e !in [];
    assert forall e: LeftoverEntry :: e !in [];
    assert forall e: AnchoredEntry :: e !in [];
  }

  /** Every answer so far is the chain source's. */
  ghost predicate AnswersFrom(
    g: Graph, respond: seq<BlockId> -> Option<BlockId>, answered: map<Txid, Option<Anchor>>)
  {
    forall t :: t in answered ==> IsAnchored(g, t) && answered[t] == Answer(g, respond, t)
  }

  lemma NothingAsked(g: Graph, respond: seq<BlockId> -> Option<BlockId>)
    ensures ListsOnce([], {}) && AnswersFrom(g, respond, map[])
  {
  }

  lemma AnswersFromOneMore(
    g: Graph, respond: seq<BlockId> -> Option<BlockId>, answered: map<Txid, Option<Anchor>>, t: Txid)
    requires AnswersFrom(g, respond, answered) && IsAnchored(g, t)
    ensures AnswersFrom(g, respond, answered[t := BestAnchor(g.anchors[t], respond(AnchorBlocks(g.anchors[t])))])
  {
  }

  /** The query loop of `LocalChain::canonicalize`: it ends after one query per anchored transaction. */
  method AnswerQueries(task: CanonicalTask, respond: seq<BlockId> -> Option<BlockId>) returns (ghost asked: seq<Txid>)
    requires task.Valid() && task.currentStage == AssumedTxs && task.answered == map[]
    modifies task
    ensures task.Valid() && task.currentStage == Finished
    ensures AnswersFrom(task.graph, respond, task.answered)
    ensures ListsOnce(asked, task.answered.Keys)
  {
    hide *;
    asked := [];
    NothingAsked(task.graph, respond);
    assert task.answered.Keys == {};
    var query := task.NextQuery();
    while query.Some?
      invariant task.Valid()
      invariant query.None? ==> task.currentStage == Finished
      invariant query.Some? ==>
                  && task.currentStage == AnchoredTxs && task.unprocessedAnchored != []
                  && query.value == AnchorBlocks(task.unprocessedAnchored[0].2)
      invariant AnswersFrom(task.graph, respond, task.answered)
      invariant ListsOnce(asked, task.answered.Keys)
      decreases |task.unprocessedAnchored|
    {
      task.Front();
      ghost var t := task.unprocessedAnchored[0].0;
      ghost var before := task.answered;
      AnswersFromOneMore(task.graph, respond, before, t);
      task.ResolveQuery(respond(query.value));
      ListsOneMore(asked, before.Keys, t);
      assert task.answered.Keys == before.Keys + {t};
      asked := asked + [t];
      query := task.NextQuery();
    }
  }

  /** `LocalChain::canonicalize` on this task. */
  method Canonicalize(task: CanonicalTask, respond: seq<BlockId> -> Option<BlockId>)
    returns (r: CanonicalTxs, ghost asked: seq<Txid>)
    requires task.Valid() && task.currentStage == AssumedTxs && task.answered == map[]
    modifies task
    ensures task.Valid() && task.currentStage == Finished
    ensures r.tip == task.chainTip && r.order == task.canonicalOrder && r.txs == task.canonical
    ensures SpendsRecorded(r.txs, r.spends) && Arranged(r.order, r.txs, task.winners)
    ensures Maximal(task.graph, task.assumptions, respond, task.canonical.Keys, task.notCanonical)
    ensures !task.graph.IsWhole(NULL_TXID) ==>
              forall t :: Offered(task.graph, task.assumptions, respond, t) ==>
                t in r.txs || t in task.notCanonical || SelfConflicting(task.graph, t)
    ensures AnswersFrom(task.graph, respond, task.answered)
    ensures forall t :: t in task.answered <==> IsAnchored(task.graph, t)
    ensures Outcome(task.graph, task.assumptions, task.answered, task.winners, task.canonical.Keys, task.notCanonical)
    ensures forall i, j :: 0 <= i < j < |asked| ==> asked[i] != asked[j]
    ensures forall t :: t in asked <==> IsAnchored(task.graph, t)
  {
    hide Arranged, Outcome, Judging, QueuesOrdered, WinnersFit, Offered, SelfConflicting, Settled, Justified,
         EntriesMatch, Resolved, AnswersTracked, OffersTracked, ReasonsGrounded, ReasonsOrdered, Maximal, Answer,
         IsAnchored, AnswersFrom;
    asked := AnswerQueries(task, respond);
    assert AnswersTracked(task.graph, [], task.answered);
    FinishedIsMaximal(task.graph, task.assumptions, respond, task.answered, task.canonical.Keys, task.notCanonical);
    AllAsked(task.graph, task.answered, asked);
    EverythingJudged(task.graph, task.assumptions, task.answered, task.winners, task.canonical.Keys,
                     task.notCanonical, task.unprocessedAssumed, task.assumedAt);
    if !task.graph.IsWhole(NULL_TXID) {
      MaximalMeansDecided(task.graph, task.assumptions, respond, task.canonical.Keys, task.notCanonical);
    }
    r := task.Finish();
  }

  lemma EverythingJudged(
    g: Graph, assumptions: seq<Txid>, answered: map<Txid, Option<Anchor>>, winners: Winners, canonical: set<Txid>,
    excluded: set<Txid>, assumed: seq<AssumedEntry>, assumedAt: seq<nat>)
    requires Settled(g, canonical, excluded)
    requires WinnersFit(g, assumptions, answered, winners, canonical, excluded)
    requires QueuesOrdered(assumptions, assumed, assumedAt, [], [], []) && assumed == []
    requires Judging(g, assumptions, answered, winners, canonical, assumedAt, [], [], [])
    ensures Outcome(g, assumptions, answered, winners, canonical, excluded)
  {
    hide OfferOf, Judged, WinnersFit, Settled;
  }

  lemma AllAsked(g: Graph, answered: map<Txid, Option<Anchor>>, asked: seq<Txid>)
    requires AnswersTracked(g, [], answered) && ListsOnce(asked, answered.Keys)
    ensures forall i, j :: 0 <= i < j < |asked| ==> asked[i] != asked[j]
    ensures forall t :: t in asked <==> IsAnchored(g, t)
    ensures forall t :: t in answered <==> IsAnchored(g, t)
  {
    assert forall e: AnchoredEntry :: e !in [];
  }
}
