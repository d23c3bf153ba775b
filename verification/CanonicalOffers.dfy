/**
  Which of conflicting transactions wins (crates/chain/src/canonical_task.rs): the offers that the
  stages make, in the order in which they are made, and what a run decides about them.
 */
module CanonicalOffers {
  import opened Wrappers
  import opened CheckPoints
  import opened TxGraphs
  import opened Ancestry

  /** A whole transaction with anchors. */
  predicate IsAnchored(g: Graph, t: Txid) { g.IsWhole(t) && t in g.anchors }

  /** A whole transaction last seen in the mempool after its last eviction. */
  predicate IsSeen(g: Graph, t: Txid) { g.IsWhole(t) && t in g.lastSeen && !g.IsEvicted(t) }

  /** The height of an anchor that no other one exceeds. */
  predicate IsTop(anchors: seq<Anchor>, height: Height) {
    && (exists i :: 0 <= i < |anchors| && anchors[i].block.height == height)
    && (forall i :: 0 <= i < |anchors| ==> anchors[i].block.height <= height)
  }

  lemma TopIsTop(g: Graph, t: Txid, height: Height)
    requires g.Exact() && t in g.anchors
    ensures g.anchors[t] != [] && (IsTop(g.anchors[t], height) <==> height == TopHeight(g.anchors[t]))
  {
    var anchors := g.anchors[t];
    forall i | 0 <= i < |anchors| ensures anchors[i].block.height <= TopHeight(anchors) {
      TopIsHighest(anchors, anchors[i]);
    }
    assert anchors[|anchors| - 1].block.height == TopHeight(anchors);
  }

  /**
    The occasion on which a stage offers a transaction: its place among the assumptions, its top anchor
    height if an anchor is confirmed, its last sighting, or its top anchor height if none is.
   */
  datatype Offer =
    | ByAssumption(index: nat)
    | ByAnchor(height: Height, txid: Txid)
    | BySighting(time: Timestamp, txid: Txid)
    | ByOldAnchor(height: Height, txid: Txid)
  {
    /** Later assumptions, higher anchors and later sightings come first, and then higher txids. */
    predicate Before(o: Offer) {
      match this
      case ByAssumption(i) => o.ByAssumption? ==> i > o.index
      case ByAnchor(h, t) =>
        !o.ByAssumption? && (o.ByAnchor? ==> h > o.height || (h == o.height && t > o.txid))
      case BySighting(s, t) =>
        !o.ByAssumption? && !o.ByAnchor? && (o.BySighting? ==> s > o.time || (s == o.time && t > o.txid))
      case ByOldAnchor(h, t) => o.ByOldAnchor? && (h > o.height || (h == o.height && t > o.txid))
    }
  }

  /** The transaction is offered on that occasion, given the anchors found to be confirmed. */
  ghost predicate OfferOf(
    g: Graph, assumptions: seq<Txid>, answered: map<Txid, Option<Anchor>>, t: Txid, o: Offer)
  {
    match o
    case ByAssumption(i) => i < |assumptions| && assumptions[i] == t && g.IsWhole(t)
    case ByAnchor(h, u) =>
      u == t && IsAnchored(g, t) && t in answered && answered[t].Some? && IsTop(g.anchors[t], h)
    case BySighting(s, u) =>
      && u == t && g.IsWhole(t) && t in g.lastSeen && g.lastSeen[t] == s
      && (t in g.lastEvicted ==> g.lastEvicted[t] < s)
    case ByOldAnchor(h, u) =>
      && u == t && IsAnchored(g, t) && t in answered && answered[t].None? && IsTop(g.anchors[t], h)
      && !g.Tx(t).IsCoinbase()
      && (t in g.lastEvicted ==> t in g.lastSeen && g.lastEvicted[t] < g.lastSeen[t])
  }

  /** `x` is or descends from a conflict of `r` or of one of its ancestors. */
  ghost predicate Beats(g: Graph, r: Txid, x: Txid) {
    exists a, c :: IsAncestor(g, r, a) && InConflict(g, a, c) && IsDescendant(g, c, x)
  }

  /** The transactions that were made canonical on an offer of their own. */
  type Winners = map<Txid, Offer>

  /** Everything canonical is a winner or its ancestor, and everything excluded is beaten by one. */
  ghost predicate WinnersFit(
    g: Graph, assumptions: seq<Txid>, answered: map<Txid, Option<Anchor>>, winners: Winners, canonical: set<Txid>,
    excluded: set<Txid>)
  {
    && AllOffered(g, assumptions, answered, winners, canonical)
    && AllWon(g, winners, canonical)
    && AllBeaten(g, winners, excluded)
  }

  ghost predicate AllOffered(
    g: Graph, assumptions: seq<Txid>, answered: map<Txid, Option<Anchor>>, winners: Winners, canonical: set<Txid>)
  {
    forall r :: r in winners ==> r in canonical && OfferOf(g, assumptions, answered, r, winners[r])
  }

  ghost predicate AllWon(g: Graph, winners: Winners, canonical: set<Txid>) {
    forall t {:trigger IsWon(g, winners, t)} :: t in canonical ==> IsWon(g, winners, t)
  }

  /** The transaction is a winner or the ancestor of one. */
  ghost predicate IsWon(g: Graph, winners: Winners, t: Txid) {
    exists r :: r in winners && IsAncestor(g, r, t)
  }

  ghost predicate AllBeaten(g: Graph, winners: Winners, excluded: set<Txid>) {
    forall x :: x in excluded ==> exists r :: r in winners && Beats(g, r, x)
  }

  /** An earlier winner beats the transaction or one of its ancestors. */
  ghost predicate Beaten(g: Graph, winners: Winners, o: Offer, t: Txid) {
    exists r, a :: r in winners && winners[r].Before(o) && IsAncestor(g, t, a) && Beats(g, r, a)
  }

  ghost predicate Judged(g: Graph, winners: Winners, canonical: set<Txid>, o: Offer, t: Txid) {
    t in canonical || SelfConflicting(g, t) || Beaten(g, winners, o, t)
  }

  /** Every offer was judged. */
  ghost predicate AllJudged(
    g: Graph, assumptions: seq<Txid>, answered: map<Txid, Option<Anchor>>, winners: Winners, canonical: set<Txid>)
  {
    forall t, o :: OfferOf(g, assumptions, answered, t, o) ==> Judged(g, winners, canonical, o, t)
  }

  /** What a run ends with. */
  ghost predicate Outcome(
    g: Graph, assumptions: seq<Txid>, answered: map<Txid, Option<Anchor>>, winners: Winners, canonical: set<Txid>,
    excluded: set<Txid>)
  {
    && Settled(g, canonical, excluded)
    && WinnersFit(g, assumptions, answered, winners, canonical, excluded)
    && AllJudged(g, assumptions, answered, winners, canonical)
  }

  /** A judgement stands when more becomes canonical. */
  lemma JudgedLater(
    g: Graph, winners: Winners, canonical: set<Txid>, winners': Winners, canonical': set<Txid>, o: Offer, t: Txid)
    requires Judged(g, winners, canonical, o, t) && canonical <= canonical'
    requires forall r :: r in winners ==> r in winners' && winners'[r] == winners[r]
    ensures Judged(g, winners', canonical', o, t)
  {
    if t !in canonical && !SelfConflicting(g, t) {
      var r, a :| r in winners && winners[r].Before(o) && IsAncestor(g, t, a) && Beats(g, r, a);
      assert winners'[r].Before(o);
    }
  }

  /** Excluded is what is beaten by something canonical. */
  lemma BeatenIsExcluded(g: Graph, canonical: set<Txid>, excluded: set<Txid>, r: Txid, x: Txid)
    requires Settled(g, canonical, excluded) && r in canonical && Beats(g, r, x)
    ensures x in excluded
  {
    var a, c :| IsAncestor(g, r, a) && InConflict(g, a, c) && IsDescendant(g, c, x);
    assert a in canonical && c in excluded;
  }

  lemma CanonicalUnbeaten(g: Graph, canonical: set<Txid>, excluded: set<Txid>, t: Txid, a: Txid, r: Txid)
    requires Settled(g, canonical, excluded) && t in canonical && IsAncestor(g, t, a) && r in canonical
    ensures !Beats(g, r, a)
  {
    hide Beats;
    if Beats(g, r, a) { BeatenIsExcluded(g, canonical, excluded, r, a); }
  }

  lemma CanonicalAgreesWithItself(g: Graph, canonical: set<Txid>, excluded: set<Txid>, t: Txid)
    requires Settled(g, canonical, excluded) && t in canonical
    ensures !SelfConflicting(g, t)
  {
    forall a, b | IsAncestor(g, t, a) && IsAncestor(g, t, b) ensures !InConflict(g, a, b) {
      assert a in canonical && b in canonical;
    }
  }

  /** An offered transaction is canonical exactly if it does not conflict with itself and nothing beats it. */
  lemma CanonicalExactly(
    g: Graph, assumptions: seq<Txid>, answered: map<Txid, Option<Anchor>>, winners: Winners, canonical: set<Txid>,
    excluded: set<Txid>, t: Txid, o: Offer)
    requires Outcome(g, assumptions, answered, winners, canonical, excluded)
    requires OfferOf(g, assumptions, answered, t, o)
    ensures t in canonical <==> !SelfConflicting(g, t) && !Beaten(g, winners, o, t)
  {
    hide OfferOf, Beats, Settled, SelfConflicting, IsAncestor, AllWon, AllBeaten;
    if t in canonical {
      CanonicalAgreesWithItself(g, canonical, excluded, t);
      forall r, a | r in winners && IsAncestor(g, t, a) ensures !Beats(g, r, a) {
        CanonicalUnbeaten(g, canonical, excluded, t, a, r);
      }
    }
  }

  // --- The outcome is determined ---

  lemma BeforeIsStrict(a: Offer, b: Offer, c: Offer)
    ensures !a.Before(a)
    ensures a.Before(b) && b.Before(c) ==> a.Before(c)
  {
  }

  /** A finite set of offers has one that no other is before. */
  lemma {:induction false} EarliestExists(s: set<Offer>) returns (o: Offer)
    requires s != {}
    ensures o in s && forall x :: x in s ==> !x.Before(o)
  {
    var y :| y in s;
    var rest := s - {y};
    assert forall x :: x in s <==> x == y || x in rest;
    BeforeIsStrict(y, y, y);
    if rest == {} { return y; }
    o := EarliestExists(rest);
    if y.Before(o) {
      forall x | x in rest ensures !x.Before(y) {
        BeforeIsStrict(x, y, o);
      }
      return y;
    }
  }

  /** A winner of one outcome that the other leaves out is beaten there by an earlier one that the first leaves out. */
  lemma LeftOutMeansEarlier(
    g: Graph, assumptions: seq<Txid>, answered: map<Txid, Option<Anchor>>,
    w: Winners, c: set<Txid>, x: set<Txid>, w': Winners, c': set<Txid>, x': set<Txid>, r: Txid) returns (r': Txid)
    requires Outcome(g, assumptions, answered, w, c, x) && Outcome(g, assumptions, answered, w', c', x')
    requires r in w && r !in c'
    ensures r' in w' && r' !in c && w'[r'].Before(w[r])
  {
    hide OfferOf, Beats, Settled, SelfConflicting, IsAncestor, AllJudged, AllWon, AllBeaten;
    CanonicalExactly(g, assumptions, answered, w, c, x, r, w[r]);
    CanonicalExactly(g, assumptions, answered, w', c', x', r, w[r]);
    var r0, a :| r0 in w' && w'[r0].Before(w[r]) && IsAncestor(g, r, a) && Beats(g, r0, a);
    r' := r0;
    if r' in c { CanonicalUnbeaten(g, c, x, r, a, r'); }
  }

  /** The offers of the winners that the other outcome leaves out. */
  ghost function LeftOut(w: Winners, c: set<Txid>): set<Offer> {
    set r | r in w && r !in c :: w[r]
  }

  lemma NobodyLeftOut(
    g: Graph, assumptions: seq<Txid>, answered: map<Txid, Option<Anchor>>,
    w: Winners, c: set<Txid>, x: set<Txid>, w': Winners, c': set<Txid>, x': set<Txid>)
    requires Outcome(g, assumptions, answered, w, c, x) && Outcome(g, assumptions, answered, w', c', x')
    ensures LeftOut(w, c') == {}
  {
    hide Outcome;
    var all := LeftOut(w, c') + LeftOut(w', c);
    if all != {} {
      var o := EarliestExists(all);
      if o in LeftOut(w, c') {
        var r :| r in w && r !in c' && w[r] == o;
        var r' := LeftOutMeansEarlier(g, assumptions, answered, w, c, x, w', c', x', r);
        EarlierLeftOut(w', c, r', all);
      } else {
        var r :| r in w' && r !in c && w'[r] == o;
        var r' := LeftOutMeansEarlier(g, assumptions, answered, w', c', x', w, c, x, r);
        EarlierLeftOut(w, c', r', all);
      }
    }
  }

  lemma EarlierLeftOut(w: Winners, c: set<Txid>, r: Txid, all: set<Offer>)
    requires r in w && r !in c && LeftOut(w, c) <= all
    ensures w[r] in all
  {
    assert w[r] in LeftOut(w, c);
  }

  /** The graph, the assumptions and the answers determine which transactions are canonical. */
  lemma OutcomeUnique(
    g: Graph, assumptions: seq<Txid>, answered: map<Txid, Option<Anchor>>,
    w: Winners, c: set<Txid>, x: set<Txid>, w': Winners, c': set<Txid>, x': set<Txid>)
    requires Outcome(g, assumptions, answered, w, c, x) && Outcome(g, assumptions, answered, w', c', x')
    ensures c == c'
  {
    hide *;
    NobodyLeftOut(g, assumptions, answered, w, c, x, w', c', x');
    NobodyLeftOut(g, assumptions, answered, w', c', x', w, c, x);
    WinnersWithin(g, assumptions, answered, w, c, x, w', c', x');
    WinnersWithin(g, assumptions, answered, w', c', x', w, c, x);
  }

  lemma WinnersWithin(
    g: Graph, assumptions: seq<Txid>, answered: map<Txid, Option<Anchor>>,
    w: Winners, c: set<Txid>, x: set<Txid>, w': Winners, c': set<Txid>, x': set<Txid>)
    requires Outcome(g, assumptions, answered, w, c, x) && Outcome(g, assumptions, answered, w', c', x')
    requires LeftOut(w, c') == {}
    ensures c <= c'
  {
    hide OfferOf, Beats, AllJudged, Settled, IsAncestor, LeftOut, AllOffered, AllBeaten;
    forall t | t in c ensures t in c' {
      assert IsWon(g, w, t);
      var r :| r in w && IsAncestor(g, r, t);
      if r !in c' { EarlierLeftOut(w, c', r, {}); }
      Inherited(g, c', x', r, t);
    }
  }

  lemma Inherited(g: Graph, canonical: set<Txid>, excluded: set<Txid>, r: Txid, t: Txid)
    requires Settled(g, canonical, excluded) && r in canonical && IsAncestor(g, r, t)
    ensures t in canonical
  {
  }

  // --- Who wins, in numbers ---

  /** The transaction is seen and was not evicted since. */
  predicate InMempoolAt(g: Graph, t: Txid, time: Timestamp) {
    && g.IsWhole(t) && t in g.lastSeen && g.lastSeen[t] == time
    && (t in g.lastEvicted ==> g.lastEvicted[t] < time)
  }

  /** The chain source confirmed an anchor of the transaction, or the source did not; its anchors reach the height. */
  predicate AnchoredUpTo(
    g: Graph, answered: map<Txid, Option<Anchor>>, t: Txid, confirmed: bool, height: Height)
  {
    && g.IsWhole(t) && t in g.anchors && t in answered && answered[t].Some? == confirmed
    && IsTop(g.anchors[t], height)
  }

  /** The transaction is assumed after the given place in the list. */
  predicate AssumedAfter(assumptions: seq<Txid>, i: nat, r: Txid) {
    exists j :: i < j < |assumptions| && assumptions[j] == r
  }

  /** A sighting after the given one, or at the same time with a higher txid. */
  predicate SeenAfter(g: Graph, r: Txid, time: Timestamp, t: Txid) {
    r in g.lastSeen && InMempoolAt(g, r, g.lastSeen[r])
    && (g.lastSeen[r] > time || (g.lastSeen[r] == time && r > t))
  }

  /** Neither a coinbase nor evicted since it was last seen. */
  predicate MayReturn(g: Graph, t: Txid) {
    && g.IsWhole(t) && !(|g.Tx(t).inputs| == 1 && g.Tx(t).inputs[0].prev == OutPoint(0, 0xFFFF_FFFF))
    && (t in g.lastEvicted ==> t in g.lastSeen && g.lastEvicted[t] < g.lastSeen[t])
  }

  /** The transaction is in the mempool. */
  predicate InMempool(g: Graph, r: Txid) {
    r in g.lastSeen && InMempoolAt(g, r, g.lastSeen[r])
  }

  lemma BeatsDescendant(g: Graph, r: Txid, a: Txid, t: Txid)
    requires g.Exact() && !g.IsWhole(NULL_TXID) && g.IsWhole(t) && Beats(g, r, a) && IsAncestor(g, t, a)
    ensures Beats(g, r, t)
  {
    hide InConflict, Graph.Exact;
    var b, c :| IsAncestor(g, r, b) && InConflict(g, b, c) && IsDescendant(g, c, a);
    AncestorHasDescendant(g, t, a);
    assert IsDescendant(g, c, t);
  }

  /** An offered transaction that is excluded lost to an earlier winner, unless it conflicts with itself. */
  lemma ExcludedByEarlier(
    g: Graph, assumptions: seq<Txid>, answered: map<Txid, Option<Anchor>>, winners: Winners, canonical: set<Txid>,
    excluded: set<Txid>, t: Txid, o: Offer)
    returns (r: Txid)
    requires Outcome(g, assumptions, answered, winners, canonical, excluded)
    requires g.Exact() && !g.IsWhole(NULL_TXID) && t in excluded && !SelfConflicting(g, t)
    requires OfferOf(g, assumptions, answered, t, o)
    ensures r in winners && r in canonical && Beats(g, r, t) && winners[r].Before(o)
    ensures OfferOf(g, assumptions, answered, r, winners[r])
  {
    hide OfferOf, Beats, SelfConflicting, IsAncestor, Graph.Exact, AllWon, AllBeaten;
    OfferedIsWhole(g, assumptions, answered, t, o);
    assert t !in canonical;
    var r', a :| r' in winners && winners[r'].Before(o) && IsAncestor(g, t, a) && Beats(g, r', a);
    r := r';
    BeatsDescendant(g, r, a, t);
  }

  lemma OfferedIsWhole(
    g: Graph, assumptions: seq<Txid>, answered: map<Txid, Option<Anchor>>, t: Txid, o: Offer)
    requires OfferOf(g, assumptions, answered, t, o)
    ensures g.IsWhole(t)
  {
  }

  /** What an offer says about its transaction. */
  lemma OfferInNumbers(
    g: Graph, assumptions: seq<Txid>, answered: map<Txid, Option<Anchor>>, r: Txid, o: Offer)
    requires OfferOf(g, assumptions, answered, r, o)
    ensures o.ByAssumption? ==> o.index < |assumptions| && assumptions[o.index] == r && r in assumptions
    ensures o.ByAnchor? ==> o.txid == r && AnchoredUpTo(g, answered, r, true, o.height)
    ensures o.BySighting? ==> o.txid == r && r in g.lastSeen && g.lastSeen[r] == o.time && InMempoolAt(g, r, o.time)
    ensures o.ByOldAnchor? ==> o.txid == r && AnchoredUpTo(g, answered, r, false, o.height)
  {
    hide IsTop;
  }

  ghost predicate OfferedAs(
    g: Graph, assumptions: seq<Txid>, answered: map<Txid, Option<Anchor>>, t: Txid, o: Offer)
  {
    match o
    case ByAssumption(i) => i < |assumptions| && assumptions[i] == t && g.IsWhole(t)
    case ByAnchor(h, u) => u == t && AnchoredUpTo(g, answered, t, true, h)
    case BySighting(s, u) => u == t && InMempoolAt(g, t, s)
    case ByOldAnchor(h, u) => u == t && AnchoredUpTo(g, answered, t, false, h) && MayReturn(g, t)
  }

  /** The offer of a transaction that is in the mempool, anchored or assumed. */
  lemma OwnOffer(g: Graph, assumptions: seq<Txid>, answered: map<Txid, Option<Anchor>>, t: Txid, o: Offer)
    requires OfferedAs(g, assumptions, answered, t, o)
    ensures OfferOf(g, assumptions, answered, t, o)
  {
    hide IsTop;
  }

  /** A seen transaction only loses to one that is assumed, confirmed, or seen later. */
  lemma SeenLosesTo(
    g: Graph, assumptions: seq<Txid>, answered: map<Txid, Option<Anchor>>, winners: Winners, canonical: set<Txid>,
    excluded: set<Txid>, t: Txid, time: Timestamp)
    returns (r: Txid)
    requires Outcome(g, assumptions, answered, winners, canonical, excluded)
    requires g.Exact() && !g.IsWhole(NULL_TXID) && t in excluded && !SelfConflicting(g, t)
    requires InMempoolAt(g, t, time)
    ensures r in canonical && Beats(g, r, t)
    ensures || r in assumptions
            || (exists h: Height :: AnchoredUpTo(g, answered, r, true, h))
            || SeenAfter(g, r, time, t)
  {
    hide Beats, SelfConflicting, Graph.Exact, Outcome, OfferOf, AnchoredUpTo, InMempoolAt;
    OwnOffer(g, assumptions, answered, t, BySighting(time, t));
    r := ExcludedByEarlier(g, assumptions, answered, winners, canonical, excluded, t, BySighting(time, t));
    OfferInNumbers(g, assumptions, answered, r, winners[r]);
  }

  /** A confirmed transaction only loses to one that is assumed, or confirmed with a higher top anchor. */
  lemma ConfirmedLosesTo(
    g: Graph, assumptions: seq<Txid>, answered: map<Txid, Option<Anchor>>, winners: Winners, canonical: set<Txid>,
    excluded: set<Txid>, t: Txid, height: Height)
    returns (r: Txid)
    requires Outcome(g, assumptions, answered, winners, canonical, excluded)
    requires g.Exact() && !g.IsWhole(NULL_TXID) && t in excluded && !SelfConflicting(g, t)
    requires AnchoredUpTo(g, answered, t, true, height)
    ensures r in canonical && Beats(g, r, t)
    ensures || r in assumptions
            || exists h: Height ::
                 AnchoredUpTo(g, answered, r, true, h) && (h > height || (h == height && r > t))
  {
    hide Beats, SelfConflicting, Graph.Exact, Outcome, OfferOf, AnchoredUpTo, InMempoolAt;
    OwnOffer(g, assumptions, answered, t, ByAnchor(height, t));
    r := ExcludedByEarlier(g, assumptions, answered, winners, canonical, excluded, t, ByAnchor(height, t));
    OfferInNumbers(g, assumptions, answered, r, winners[r]);
  }

  /** An assumed transaction only loses to one that is assumed later in the list. */
  lemma AssumedLosesTo(
    g: Graph, assumptions: seq<Txid>, answered: map<Txid, Option<Anchor>>, winners: Winners, canonical: set<Txid>,
    excluded: set<Txid>, t: Txid, i: nat)
    returns (r: Txid)
    requires i < |assumptions| && assumptions[i] == t && g.IsWhole(t)
    requires Outcome(g, assumptions, answered, winners, canonical, excluded)
    requires g.Exact() && !g.IsWhole(NULL_TXID) && t in excluded && !SelfConflicting(g, t)
    ensures r in canonical && Beats(g, r, t) && AssumedAfter(assumptions, i, r)
  {
    hide Beats, SelfConflicting, Graph.Exact, Outcome, OfferOf;
    OwnOffer(g, assumptions, answered, t, ByAssumption(i));
    r := ExcludedByEarlier(g, assumptions, answered, winners, canonical, excluded, t, ByAssumption(i));
    OfferInNumbers(g, assumptions, answered, r, winners[r]);
    AssumedThere(assumptions, i, winners[r].index);
  }

  lemma AssumedThere(assumptions: seq<Txid>, i: nat, j: nat)
    requires i < j < |assumptions|
    ensures AssumedAfter(assumptions, i, assumptions[j])
  {
  }

  /**
    A transaction whose anchors are not confirmed, that is neither a coinbase nor evicted, loses to any
    that is assumed, confirmed or seen, and otherwise to one with a higher top anchor.
   */
  lemma LeftoverLosesTo(
    g: Graph, assumptions: seq<Txid>, answered: map<Txid, Option<Anchor>>, winners: Winners, canonical: set<Txid>,
    excluded: set<Txid>, t: Txid, height: Height)
    returns (r: Txid)
    requires Outcome(g, assumptions, answered, winners, canonical, excluded)
    requires g.Exact() && !g.IsWhole(NULL_TXID) && t in excluded && !SelfConflicting(g, t)
    requires AnchoredUpTo(g, answered, t, false, height) && MayReturn(g, t)
    ensures r in canonical && Beats(g, r, t)
    ensures || r in assumptions
            || (exists h: Height :: AnchoredUpTo(g, answered, r, true, h))
            || InMempool(g, r)
            || exists h: Height ::
                 AnchoredUpTo(g, answered, r, false, h) && (h > height || (h == height && r > t))
  {
    hide Beats, SelfConflicting, Graph.Exact, Outcome, OfferOf, AnchoredUpTo, InMempoolAt;
    OwnOffer(g, assumptions, answered, t, ByOldAnchor(height, t));
    r := ExcludedByEarlier(g, assumptions, answered, winners, canonical, excluded, t, ByOldAnchor(height, t));
    OfferInNumbers(g, assumptions, answered, r, winners[r]);
  }

  // --- Two rivals ---

  /** The graph holds just two whole transactions, which conflict and are unanchored and in the mempool. */
  ghost predicate Rivals(g: Graph, t: Txid, u: Txid, timeT: Timestamp, timeU: Timestamp) {
    && (forall x :: g.IsWhole(x) <==> x == t || x == u)
    && InConflict(g, u, t) && u !in Parents(g, t) && t !in Parents(g, u)
    && t !in g.anchors && u !in g.anchors && InMempoolAt(g, t, timeT) && InMempoolAt(g, u, timeU)
  }

  lemma OwnAncestor(g: Graph, u: Txid, a: Txid)
    requires Parents(g, u) <= {u} && IsAncestor(g, u, a)
    ensures a == u
  {
    assert AncestorClosed(g, {u});
  }

  /** Of two rivals the one seen later wins, and of two seen at once the one with the higher txid. */
  lemma LaterRivalWins(
    g: Graph, answered: map<Txid, Option<Anchor>>, winners: Winners, canonical: set<Txid>, excluded: set<Txid>,
    t: Txid, u: Txid, timeT: Timestamp, timeU: Timestamp)
    requires g.Exact() && Outcome(g, [], answered, winners, canonical, excluded) && Rivals(g, t, u, timeT, timeU)
    requires timeU > timeT || (timeU == timeT && u > t)
    ensures u in canonical && t in excluded
  {
    var o := BySighting(timeU, u);
    ConflictIsDoubleSpend(g, u, t);
    RivalUnbeaten(g, answered, winners, canonical, excluded, t, u, timeT, timeU);
    forall a | IsAncestor(g, u, a) ensures a == u {
      ParentsWhole(g, u);
      OwnAncestor(g, u, a);
    }
    NoConflictWithItself(g, u);
    hide Graph.Exact, IsAncestor, IsDescendant, InConflict, Beats, IsTop;
    CanonicalExactly(g, [], answered, winners, canonical, excluded, u, o);
    assert InConflict(g, u, t);
  }

  lemma NoConflictWithItself(g: Graph, u: Txid)
    requires g.Exact()
    ensures !InConflict(g, u, u)
  {
  }

  lemma RivalOffer(
    g: Graph, answered: map<Txid, Option<Anchor>>, t: Txid, u: Txid, timeT: Timestamp, timeU: Timestamp, r: Txid,
    o: Offer)
    requires Rivals(g, t, u, timeT, timeU) && OfferOf(g, [], answered, r, o)
    ensures (r == t && o == BySighting(timeT, t)) || (r == u && o == BySighting(timeU, u))
  {
    hide InConflict, IsTop, Parents;
    OfferedIsWhole(g, [], answered, r, o);
  }

  lemma RivalUnbeaten(
    g: Graph, answered: map<Txid, Option<Anchor>>, winners: Winners, canonical: set<Txid>, excluded: set<Txid>,
    t: Txid, u: Txid, timeT: Timestamp, timeU: Timestamp)
    requires Outcome(g, [], answered, winners, canonical, excluded) && Rivals(g, t, u, timeT, timeU)
    requires timeU > timeT || (timeU == timeT && u > t)
    ensures !Beaten(g, winners, BySighting(timeU, u), u)
  {
    hide Settled, AllJudged, Beats, IsAncestor, Rivals, OfferOf, AllWon, AllBeaten;
    forall r | r in winners ensures !winners[r].Before(BySighting(timeU, u)) {
      RivalOffer(g, answered, t, u, timeT, timeU, r, winners[r]);
    }
  }
}
