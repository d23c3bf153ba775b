/**
  What a transaction graph knows (crates/chain/src/tx_graph.rs, `ChangeSet` and the order in which
  `insert_tx` prefers witnesses; crates/core/src/tx_update.rs). A graph only ever gains knowledge:
  updates and change sets are described by the facts they add, and the facts determine the graph.
 */
module TxKnowledge {
  import opened Wrappers
  import opened CheckPoints
  import opened TxGraphs

  // --- The order on witnesses ---

  predicate LexLeq(a: seq<nat>, b: seq<nat>) {
    a == [] || (b != [] && (a[0] < b[0] || (a[0] == b[0] && LexLeq(a[1..], b[1..]))))
  }

  lemma {:induction false} LexTotal(a: seq<nat>, b: seq<nat>)
    ensures LexLeq(a, b) || LexLeq(b, a)
    ensures LexLeq(a, b) && LexLeq(b, a) ==> a == b
  {
    if a != [] && b != [] {
      LexTotal(a[1..], b[1..]);
      assert a == [a[0]] + a[1..] && b == [b[0]] + b[1..];
    }
  }

  lemma {:induction false} LexTransitive(a: seq<nat>, b: seq<nat>, c: seq<nat>)
    requires LexLeq(a, b) && LexLeq(b, c)
    ensures LexLeq(a, c)
  {
    if a != [] && a[0] == b[0] && b[0] == c[0] {
      LexTransitive(a[1..], b[1..], c[1..]);
    }
  }

  /** The length of a compact size prefix. */
  function CompactSizeLength(n: nat): nat {
    if n < 0xFD then 1 else if n <= 0xFFFF then 3 else if n <= 0xFFFF_FFFF then 5 else 9
  }

  function SerializedSize(w: InputWitness): nat {
    CompactSizeLength(w.elements) + |w.content|
  }

  /** `a` is at least as preferable: non-empty before empty, smaller before larger, then lexicographic. */
  predicate Preferable(a: InputWitness, b: InputWitness) {
    var emptyA, emptyB := a.elements == 0, b.elements == 0;
    if emptyA != emptyB then emptyB
    else if SerializedSize(a) != SerializedSize(b) then SerializedSize(a) < SerializedSize(b)
    else if a.content != b.content then LexLeq(a.content, b.content)
    else a.elements <= b.elements
  }

  lemma PreferableTotal(a: InputWitness, b: InputWitness)
    ensures Preferable(a, b) || Preferable(b, a)
    ensures Preferable(a, b) && Preferable(b, a) ==> a == b
  {
    LexTotal(a.content, b.content);
  }

  lemma PreferableTransitive(a: InputWitness, b: InputWitness, c: InputWitness)
    requires Preferable(a, b) && Preferable(b, c)
    ensures Preferable(a, c)
  {
    LexTotal(a.content, b.content);
    LexTotal(b.content, c.content);
    if LexLeq(a.content, b.content) && LexLeq(b.content, c.content) {
      LexTransitive(a.content, b.content, c.content);
    }
  }

  /** The merge of two inputs: the original only if strictly preferable. */
  function MergedInput(original: TxIn, other: TxIn): TxIn {
    if Preferable(original.proof, other.proof) && original.proof != other.proof then original else other
  }

  /** The merged witness is the minimum of the two: it is as good as whatever one of them beats. */
  lemma MergedInputIsMinimum(original: TxIn, other: TxIn, w: InputWitness)
    ensures Preferable(MergedInput(original, other).proof, w)
       <==> Preferable(original.proof, w) || Preferable(other.proof, w)
  {
    PreferableTotal(original.proof, other.proof);
    if Preferable(original.proof, other.proof) && Preferable(other.proof, w) {
      PreferableTransitive(original.proof, other.proof, w);
    }
    if Preferable(other.proof, original.proof) && Preferable(original.proof, w) {
      PreferableTransitive(other.proof, original.proof, w);
    }
  }

  /** `a` comes first in dictionary order: it ends, or is lower, where the two part. */
  ghost predicate ComesFirst(a: seq<nat>, b: seq<nat>) {
    exists k :: 0 <= k <= |a| && k < |b| && a[..k] == b[..k] && (k == |a| || a[k] < b[k])
  }

  lemma {:induction false} LexMeans(a: seq<nat>, b: seq<nat>)
    ensures ComesFirst(a, b) ==> LexLeq(a, b) && a != b
  {
    if k :| 0 <= k <= |a| && k < |b| && a[..k] == b[..k] && (k == |a| || a[k] < b[k]) {
      if k > 0 {
        assert a[0] == a[..k][0] == b[..k][0] == b[0];
        assert a[1..][..k - 1] == a[..k][1..] == b[..k][1..] == b[1..][..k - 1];
        assert ComesFirst(a[1..], b[1..]) by {
          assert k - 1 == |a[1..]| || a[1..][k - 1] < b[1..][k - 1];
        }
        LexMeans(a[1..], b[1..]);
      }
    }
  }

  /**
    Of two witnesses for an input, a non-empty one is kept over an empty one, then the one with fewer
    serialized bytes, and then the one that comes first in dictionary order.
   */
  ghost predicate Prevails(a: InputWitness, b: InputWitness, w: InputWitness) {
    && (w == a || w == b)
    && (a.elements > 0 && b.elements == 0 ==> w == a) && (b.elements > 0 && a.elements == 0 ==> w == b)
    && (a.elements > 0 && b.elements > 0 ==>
          && (SerializedSize(a) < SerializedSize(b) ==> w == a)
          && (SerializedSize(b) < SerializedSize(a) ==> w == b)
          && (a.elements < 0xFD && b.elements < 0xFD && |a.content| < |b.content| ==> w == a)
          && (a.elements < 0xFD && b.elements < 0xFD && |b.content| < |a.content| ==> w == b)
          && (SerializedSize(a) == SerializedSize(b) ==>
                && (ComesFirst(a.content, b.content) ==> w == a)
                && (ComesFirst(b.content, a.content) ==> w == b)))
  }

  lemma MergedInputPrevails(original: TxIn, other: TxIn)
    ensures Prevails(original.proof, other.proof, MergedInput(original, other).proof)
  {
    LexMeans(original.proof.content, other.proof.content);
    LexMeans(other.proof.content, original.proof.content);
    LexTotal(original.proof.content, other.proof.content);
  }

  // --- What hashes fix, and what a graph knows ---

  /** The world behind the graph: a txid fixes the transaction up to witnesses, an outpoint its output. */
  datatype World = World(prevs: Txid -> seq<OutPoint>, outputs: Txid -> seq<TxOut>, outAt: OutPoint -> TxOut)

  ghost predicate TxFits(w: World, tx: Transaction) {
    && |tx.inputs| == |w.prevs(tx.txid)|
    && (forall i :: 0 <= i < |tx.inputs| ==> tx.inputs[i].prev == w.prevs(tx.txid)[i])
    && tx.outputs == w.outputs(tx.txid)
  }

  ghost predicate Fits(w: World, txs: map<Txid, TxNode>) {
    forall t :: t in txs ==>
      match txs[t]
      case Whole(tx) => tx.txid == t && TxFits(w, tx)
      case Partial(outs) => outs != map[] && forall v :: v in outs ==> outs[v] == w.outAt(OutPoint(t, v))
  }

  /** An atomic piece of knowledge. */
  datatype Fact =
    | HasTx(txid: Txid)
    | HasWitness(txid: Txid, vin: nat, bound: InputWitness)
    | HasTxOut(outpoint: OutPoint)
    | IsAnchoredIn(txid: Txid, anchor: Anchor)
    | SeenBy(txid: Txid, at: Timestamp)
    | SeenSince(txid: Txid, at: Timestamp)
    | EvictedSince(txid: Txid, at: Timestamp)

  ghost predicate NodeKnows(txs: map<Txid, TxNode>, f: Fact) {
    match f
    case HasTx(t) => t in txs && txs[t].Whole?
    case HasWitness(t, i, b) =>
      t in txs && txs[t].Whole? && i < |txs[t].tx.inputs| && Preferable(txs[t].tx.inputs[i].proof, b)
    case HasTxOut(op) => op.txid in txs && (txs[op.txid].Whole? || op.vout in txs[op.txid].outs)
    case _ => false
  }

  ghost predicate Knows(g: Graph, f: Fact) {
    match f
    case IsAnchoredIn(t, a) => t in g.anchors && a in g.anchors[t]
    case SeenBy(t, at) => t in g.firstSeen && g.firstSeen[t] <= at
    case SeenSince(t, at) => t in g.lastSeen && at <= g.lastSeen[t]
    case EvictedSince(t, at) => t in g.lastEvicted && at <= g.lastEvicted[t]
    case _ => NodeKnows(g.txs, f)
  }

  // --- Change sets ---

  datatype ChangeSet = ChangeSet(
    txs: set<Transaction>,
    txouts: map<OutPoint, TxOut>,
    anchors: set<(Anchor, Txid)>,
    lastSeen: map<Txid, Timestamp>,
    lastEvicted: map<Txid, Timestamp>,
    firstSeen: map<Txid, Timestamp>)

  const NO_CHANGE := ChangeSet({}, map[], {}, map[], map[], map[])

  ghost predicate TxGives(tx: Transaction, f: Fact) {
    match f
    case HasTx(t) => t == tx.txid
    case HasWitness(t, i, b) => t == tx.txid && i < |tx.inputs| && Preferable(tx.inputs[i].proof, b)
    case HasTxOut(op) => op.txid == tx.txid
    case _ => false
  }

  /** The facts a change set adds. */
  ghost predicate Gives(cs: ChangeSet, f: Fact) {
    || (exists tx :: tx in cs.txs && TxGives(tx, f))
    || match f
       case HasTxOut(op) => op in cs.txouts
       case IsAnchoredIn(t, a) => (a, t) in cs.anchors
       case SeenBy(t, at) => t in cs.firstSeen && cs.firstSeen[t] <= at
       case SeenSince(t, at) => t in cs.lastSeen && at <= cs.lastSeen[t]
       case EvictedSince(t, at) => t in cs.lastEvicted && at <= cs.lastEvicted[t]
       case _ => false
  }

  ghost predicate ChangeFits(w: World, cs: ChangeSet) {
    && (forall tx :: tx in cs.txs ==> TxFits(w, tx))
    && (forall op :: op in cs.txouts ==> cs.txouts[op] == w.outAt(op))
  }

  function MergeMax(a: map<Txid, Timestamp>, b: map<Txid, Timestamp>): map<Txid, Timestamp> {
    a + map t | t in b && (t in a ==> a[t] < b[t]) :: b[t]
  }

  function MergeMin(a: map<Txid, Timestamp>, b: map<Txid, Timestamp>): map<Txid, Timestamp> {
    a + map t | t in b && (t in a ==> b[t] < a[t]) :: b[t]
  }

  /** `ChangeSet::merge` */
  function Merge(a: ChangeSet, b: ChangeSet): ChangeSet {
    ChangeSet(a.txs + b.txs, a.txouts + b.txouts, a.anchors + b.anchors,
              MergeMax(a.lastSeen, b.lastSeen), MergeMax(a.lastEvicted, b.lastEvicted),
              MergeMin(a.firstSeen, b.firstSeen))
  }

  /** A merged change set adds exactly what both parts add. */
  lemma MergeGivesBoth(a: ChangeSet, b: ChangeSet, f: Fact)
    ensures Gives(Merge(a, b), f) <==> Gives(a, f) || Gives(b, f)
  {
    hide TxGives;
  }

  // --- Updates ---

  datatype TxUpdate = TxUpdate(
    txs: seq<Transaction>,
    txouts: map<OutPoint, TxOut>,
    anchors: set<(Anchor, Txid)>,
    seenAts: set<(Txid, Timestamp)>,
    evictedAts: set<(Txid, Timestamp)>)

  const EMPTY_UPDATE := TxUpdate([], map[], {}, {}, {})

  /** The facts an update adds. */
  ghost predicate UpdateGives(u: TxUpdate, f: Fact) {
    || (exists tx :: tx in u.txs && TxGives(tx, f))
    || match f
       case HasTxOut(op) => op in u.txouts
       case IsAnchoredIn(t, a) => (a, t) in u.anchors
       case SeenBy(t, at) => exists s :: (t, s) in u.seenAts && s <= at
       case SeenSince(t, at) => exists s :: (t, s) in u.seenAts && at <= s
       case EvictedSince(t, at) => exists s :: (t, s) in u.evictedAts && at <= s
       case _ => false
  }

  ghost predicate UpdateFits(w: World, u: TxUpdate) {
    && (forall tx :: tx in u.txs ==> TxFits(w, tx))
    && (forall op :: op in u.txouts ==> u.txouts[op] == w.outAt(op))
  }

  // --- Knowledge determines the graph ---

  ghost predicate SameKnowledge(g: Graph, h: Graph) {
    forall f :: Knows(g, f) <==> Knows(h, f)
  }

  /** Agreement on everything but when transactions were first seen. */
  ghost predicate SameLastingKnowledge(g: Graph, h: Graph) {
    forall f: Fact :: !f.SeenBy? ==> (Knows(g, f) <==> Knows(h, f))
  }

  lemma SameLastingTxs(w: World, g: Graph, h: Graph)
    requires Fits(w, g.txs) && Fits(w, h.txs) && SameLastingKnowledge(g, h)
    ensures g.txs == h.txs
  {
    forall t | t in g.txs ensures t in h.txs && g.txs[t] == h.txs[t] { SameNode(w, g, h, t); }
    forall t | t in h.txs ensures t in g.txs { SameNode(w, h, g, t); }
  }

  lemma SameNode(w: World, g: Graph, h: Graph, t: Txid)
    requires Fits(w, g.txs) && Fits(w, h.txs) && SameLastingKnowledge(g, h) && t in g.txs
    ensures t in h.txs && g.txs[t] == h.txs[t]
  {
    assert Knows(g, HasTx(t)) <==> Knows(h, HasTx(t));
    match g.txs[t] {
      case Whole(tx) =>
        var other := h.txs[t].tx;
        forall i | 0 <= i < |tx.inputs| ensures tx.inputs[i] == other.inputs[i] {
          var a, b := tx.inputs[i].proof, other.inputs[i].proof;
          PreferableTotal(a, a);
          PreferableTotal(b, b);
          assert Knows(g, HasWitness(t, i, a)) && Knows(h, HasWitness(t, i, b));
          assert Knows(h, HasWitness(t, i, a)) && Knows(g, HasWitness(t, i, b));
          PreferableTotal(a, b);
        }
        assert tx.inputs == other.inputs;
      case Partial(outs) =>
        var v :| v in outs;
        assert Knows(g, HasTxOut(OutPoint(t, v)));
        assert Knows(h, HasTxOut(OutPoint(t, v)));
        forall v: U32 ensures v in outs <==> v in h.txs[t].outs {
          assert Knows(g, HasTxOut(OutPoint(t, v))) <==> Knows(h, HasTxOut(OutPoint(t, v)));
        }
        assert outs == h.txs[t].outs;
    }
  }

  lemma SameLastingTimes(g: Graph, h: Graph)
    requires SameLastingKnowledge(g, h)
    ensures g.lastSeen == h.lastSeen && g.lastEvicted == h.lastEvicted
  {
    forall t
      ensures t in g.lastSeen <==> t in h.lastSeen
      ensures t in g.lastSeen ==> g.lastSeen[t] == h.lastSeen[t]
      ensures t in g.lastEvicted <==> t in h.lastEvicted
      ensures t in g.lastEvicted ==> g.lastEvicted[t] == h.lastEvicted[t]
    {
      assert Knows(g, SeenSince(t, 0)) <==> Knows(h, SeenSince(t, 0));
      assert Knows(g, EvictedSince(t, 0)) <==> Knows(h, EvictedSince(t, 0));
      if t in g.lastSeen && t in h.lastSeen {
        assert Knows(g, SeenSince(t, g.lastSeen[t])) && Knows(h, SeenSince(t, h.lastSeen[t]));
      }
      if t in g.lastEvicted && t in h.lastEvicted {
        assert Knows(g, EvictedSince(t, g.lastEvicted[t])) && Knows(h, EvictedSince(t, h.lastEvicted[t]));
      }
    }
  }

  lemma {:induction false} SortedSameElements(a: seq<Anchor>, b: seq<Anchor>)
    requires Sorted(a) && Sorted(b) && forall x :: x in a <==> x in b
    ensures a == b
    decreases |a|
  {
    assert a != [] ==> a[0] in b;
    assert b != [] ==> b[0] in a;
    if a != [] {
      assert a[0] == b[0];
      assert a == [a[0]] + a[1..] && b == [b[0]] + b[1..];
      forall x ensures x in a[1..] <==> x in b[1..] {
        if x in a[1..] { assert x in a && a[0].Less(x) && x != b[0]; }
        if x in b[1..] { assert x in b && b[0].Less(x) && x != a[0]; }
      }
      SortedSameElements(a[1..], b[1..]);
    }
  }

  lemma SameLastingAnchors(g: Graph, h: Graph)
    requires g.ConfHeightsExact() && h.ConfHeightsExact() && SameLastingKnowledge(g, h)
    ensures g.anchors == h.anchors && g.byConfHeight == h.byConfHeight
  {
    forall t ensures t in g.anchors <==> t in h.anchors {
      if t in g.anchors { assert Knows(g, IsAnchoredIn(t, g.anchors[t][0])); }
      if t in h.anchors { assert Knows(h, IsAnchoredIn(t, h.anchors[t][0])); }
    }
    forall t | t in g.anchors ensures g.anchors[t] == h.anchors[t] {
      forall a ensures a in g.anchors[t] <==> a in h.anchors[t] {
        assert Knows(g, IsAnchoredIn(t, a)) <==> Knows(h, IsAnchoredIn(t, a));
      }
      SortedSameElements(g.anchors[t], h.anchors[t]);
    }
  }

  lemma SpendsFromTxs(g: Graph, h: Graph, op: OutPoint, t: Txid)
    requires g.txs == h.txs && g.SpendsExact() && h.SpendsExact()
    requires op in g.spends && t in g.spends[op]
    ensures op in h.spends && t in h.spends[op]
  {
    assert g.IsWhole(t) && g.Tx(t).Spends(op);
    assert h.IsWhole(t) && h.Tx(t) == g.Tx(t) && h.Tx(t).Spends(op);
  }

  lemma SameTxsSameSpends(g: Graph, h: Graph)
    requires g.txs == h.txs && g.SpendsExact() && h.SpendsExact()
    ensures g.spends == h.spends
  {
    forall op, t
      ensures op in g.spends && t in g.spends[op] <==> op in h.spends && t in h.spends[op]
    {
      if op in g.spends && t in g.spends[op] { SpendsFromTxs(g, h, op, t); }
      if op in h.spends && t in h.spends[op] { SpendsFromTxs(h, g, op, t); }
    }
    forall op ensures op in g.spends <==> op in h.spends {
      if op in g.spends { var t :| t in g.spends[op]; }
      if op in h.spends { var t :| t in h.spends[op]; }
    }
    forall op | op in g.spends ensures g.spends[op] == h.spends[op] {
      assert forall t :: t in g.spends[op] <==> t in h.spends[op];
    }
  }

  /** Exact graphs over the same world that agree on lasting facts agree in everything but `firstSeen`. */
  lemma KnowledgeDeterminesGraph(w: World, g: Graph, h: Graph)
    requires g.Exact() && h.Exact() && Fits(w, g.txs) && Fits(w, h.txs) && SameLastingKnowledge(g, h)
    ensures g.(firstSeen := h.firstSeen) == h
    ensures SameKnowledge(g, h) ==> g == h
  {
    SameLastingTxs(w, g, h);
    SameLastingTimes(g, h);
    SameLastingAnchors(g, h);
    SameTxsSameSpends(g, h);
    if SameKnowledge(g, h) { SameFirstSeen(g, h); }
  }

  lemma SameFirstSeen(g: Graph, h: Graph)
    requires SameKnowledge(g, h)
    ensures g.firstSeen == h.firstSeen
  {
    forall t
      ensures t in g.firstSeen <==> t in h.firstSeen
      ensures t in g.firstSeen ==> g.firstSeen[t] == h.firstSeen[t]
    {
      if t in g.firstSeen { assert Knows(g, SeenBy(t, g.firstSeen[t])); }
      if t in h.firstSeen { assert Knows(h, SeenBy(t, h.firstSeen[t])); }
      if t in g.firstSeen && t in h.firstSeen {
        assert Knows(h, SeenBy(t, g.firstSeen[t])) && Knows(g, SeenBy(t, h.firstSeen[t]));
      }
    }
  }
}
