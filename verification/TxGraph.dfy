/**
  The transaction graph (crates/chain/src/tx_graph.rs): transactions that may conflict, the index
  of who spends what, and the timestamps and anchors that decide between conflicting ones.
 */
module TxGraphs {
  import opened Wrappers
  import opened CheckPoints

  type Txid = nat

  type Timestamp = nat

  const NULL_TXID: Txid := 0

  datatype OutPoint = OutPoint(txid: Txid, vout: U32)
  {
    /** The previous output of a coinbase input. */
    predicate IsNull() { txid == NULL_TXID && vout == MAX_U32 }
  }

  /** The data that satisfies an input: its serialized bytes and its number of elements. */
  datatype InputWitness = InputWitness(content: seq<nat>, elements: nat)

  datatype TxIn = TxIn(prev: OutPoint, proof: InputWitness)

  type TxOut = nat

  datatype Transaction = Transaction(txid: Txid, inputs: seq<TxIn>, outputs: seq<TxOut>)
  {
    predicate IsCoinbase() { |inputs| == 1 && inputs[0].prev.IsNull() }

    predicate Spends(op: OutPoint) { exists i :: 0 <= i < |inputs| && inputs[i].prev == op }
  }

  datatype TxNode = Whole(tx: Transaction) | Partial(outs: map<U32, TxOut>)

  datatype Anchor = Anchor(block: BlockId, time: Timestamp)
  {
    /** Anchors are ordered by block first. */
    predicate Less(a: Anchor) {
      || block.height < a.block.height
      || (block.height == a.block.height
          && (block.hash < a.block.hash || (block.hash == a.block.hash && time < a.time)))
    }
  }

  /** An ordered set of anchors, in iteration order. */
  predicate Sorted(s: seq<Anchor>) {
    forall i, j :: 0 <= i < j < |s| ==> s[i].Less(s[j])
  }

  /** Anchors are listed by height, then by hash, then by time. */
  lemma SortedInNumbers(s: seq<Anchor>, i: nat, j: nat)
    requires Sorted(s) && i < j < |s|
    ensures s[i].block.height <= s[j].block.height
    ensures s[i].block.height == s[j].block.height ==> s[i].block.hash <= s[j].block.hash
    ensures s[i].block == s[j].block ==> s[i].time < s[j].time
  {
  }

  function InsertSorted(s: seq<Anchor>, a: Anchor): (r: seq<Anchor>)
    requires Sorted(s)
    ensures |r| > 0 && Sorted(r)
    ensures forall x :: x in r <==> x in s || x == a
    ensures a in s ==> r == s
  {
    if s == [] then [a]
    else
      assert s == [s[0]] + s[1..];
      if s[0] == a then s
      else if a.Less(s[0]) then [a] + s
      else
        var rest := InsertSorted(s[1..], a);
        assert forall x :: x in rest ==> s[0].Less(x);
        [s[0]] + rest
  }

  /** The height of the last, and so highest, anchor. */
  function TopHeight(s: seq<Anchor>): Height
    requires s != []
  {
    s[|s| - 1].block.height
  }

  lemma TopIsHighest(s: seq<Anchor>, a: Anchor)
    requires Sorted(s) && a in s
    ensures a.block.height <= TopHeight(s)
  {
    var i :| 0 <= i < |s| && s[i] == a;
    assert i < |s| - 1 ==> s[i].Less(s[|s| - 1]);
  }

  lemma TopHeightAfterInsert(s: seq<Anchor>, a: Anchor)
    requires Sorted(s)
    ensures TopHeight(InsertSorted(s, a))
         == if s != [] && TopHeight(s) > a.block.height then TopHeight(s) else a.block.height
  {
    hide Sorted, InsertSorted;
    var r := InsertSorted(s, a);
    var top := r[|r| - 1];
    TopIsHighest(r, a);
    if s != [] { TopIsHighest(r, s[|s| - 1]); }
    assert top in s || top == a by { assert top in r; }
    if top in s { TopIsHighest(s, top); }
  }

  // --- The graph ---

  datatype Graph = Graph(
    txs: map<Txid, TxNode>,
    spends: map<OutPoint, set<Txid>>,
    anchors: map<Txid, seq<Anchor>>,
    firstSeen: map<Txid, Timestamp>,
    lastSeen: map<Txid, Timestamp>,
    lastEvicted: map<Txid, Timestamp>,
    byConfHeight: set<(Height, Txid)>,
    byLastSeen: set<(Timestamp, Txid)>)
  {
    /** A full transaction is known for a txid. */
    predicate IsWhole(txid: Txid) { txid in txs && txs[txid].Whole? }

    function Tx(txid: Txid): Transaction
      requires IsWhole(txid)
    {
      txs[txid].tx
    }

    /** `is_evicted`: evicted at least as recently as last seen. */
    predicate IsEvicted(txid: Txid) {
      txid in lastEvicted && (txid in lastSeen ==> lastEvicted[txid] >= lastSeen[txid])
    }

    /** `spends` is precisely the inverse of the non-null inputs of whole transactions. */
    ghost predicate SpendsExact() {
      && (forall op :: op in spends ==> spends[op] != {})
      && (forall op, t :: op in spends && t in spends[op] ==> IsWhole(t) && !op.IsNull() && Tx(t).Spends(op))
      && (forall op, t :: IsWhole(t) && Tx(t).Spends(op) && !op.IsNull() ==> op in spends && t in spends[op])
    }

    /** One entry for each anchored txid, at its highest anchor. */
    ghost predicate ConfHeightsExact() {
      && (forall t :: t in anchors ==> anchors[t] != [] && Sorted(anchors[t]))
      && forall e :: e in byConfHeight <==> e.1 in anchors && e.0 == TopHeight(anchors[e.1])
    }

    ghost predicate SeenExact() {
      && (forall e :: e in byLastSeen <==> e.1 in lastSeen && e.0 == lastSeen[e.1])
      && firstSeen.Keys == lastSeen.Keys
      && forall t :: t in lastSeen ==> firstSeen[t] <= lastSeen[t]
    }

    ghost predicate TxidsExact() {
      forall t :: IsWhole(t) ==> Tx(t).txid == t
    }

    /** All indexes agree with the data. */
    ghost predicate Exact() {
      TxidsExact() && SpendsExact() && ConfHeightsExact() && SeenExact()
    }
  }

  const EMPTY_GRAPH := Graph(map[], map[], map[], map[], map[], map[], {}, {})

  // --- Relations between transactions ---

  /** The whole transactions that a whole transaction spends from. */
  function Parents(g: Graph, t: Txid): set<Txid> {
    if !g.IsWhole(t) then {}
    else set i | 0 <= i < |g.Tx(t).inputs| && g.IsWhole(g.Tx(t).inputs[i].prev.txid) :: g.Tx(t).inputs[i].prev.txid
  }

  /** The transactions spending an output of `t`, by the index. */
  function Children(g: Graph, t: Txid): set<Txid> {
    set op, d | op in g.spends && op.txid == t && d in g.spends[op] :: d
  }

  /** `direct_conflicts` */
  function Conflicts(g: Graph, tx: Transaction): set<Txid> {
    set i, d | 0 <= i < |tx.inputs| && tx.inputs[i].prev in g.spends
               && d in g.spends[tx.inputs[i].prev] && d != tx.txid :: d
  }

  predicate InConflict(g: Graph, a: Txid, b: Txid) {
    g.IsWhole(a) && b in Conflicts(g, g.Tx(a))
  }

  /** What coinbase inputs refer to is spent by nobody, so coinbases do not conflict. */
  lemma NullIsUnspent(g: Graph)
    requires g.Exact()
    ensures OutPoint(0, 0xFFFF_FFFF) !in g.spends
  {
    var op := OutPoint(0, 0xFFFF_FFFF);
    assert g.SpendsExact() && op.IsNull();
    forall t | op in g.spends ensures t !in g.spends[op] {
      assert g.IsWhole(t) ==> !op.IsNull() || t !in g.spends[op];
    }
  }

  /** Conflicting means spending a common output. */
  lemma ConflictIsDoubleSpend(g: Graph, a: Txid, b: Txid)
    requires g.Exact()
    ensures InConflict(g, a, b)
       <==> a != b && g.IsWhole(a) && g.IsWhole(b)
            && exists op: OutPoint :: !op.IsNull() && g.Tx(a).Spends(op) && g.Tx(b).Spends(op)
  {
    if InConflict(g, a, b) {
      var i :| 0 <= i < |g.Tx(a).inputs| && g.Tx(a).inputs[i].prev in g.spends && b in g.spends[g.Tx(a).inputs[i].prev];
      var op := g.Tx(a).inputs[i].prev;
      assert g.Tx(a).Spends(op) && g.Tx(b).Spends(op) && !op.IsNull();
    }
    if a != b && g.IsWhole(a) && g.IsWhole(b) {
      if op: OutPoint :| !op.IsNull() && g.Tx(a).Spends(op) && g.Tx(b).Spends(op) {
        var i :| 0 <= i < |g.Tx(a).inputs| && g.Tx(a).inputs[i].prev == op;
        assert b in g.spends[op];
      }
    }
  }

  /** Conflicts go both ways and only concern whole transactions. */
  lemma ConflictSymmetric(g: Graph, a: Txid, b: Txid)
    requires g.Exact() && InConflict(g, a, b)
    ensures InConflict(g, b, a)
  {
    ConflictIsDoubleSpend(g, a, b);
    ConflictIsDoubleSpend(g, b, a);
  }

  /** A child is whole and has its parent among its parents, if the parent is whole. */
  lemma ChildHasParent(g: Graph, t: Txid, d: Txid)
    requires g.Exact() && d in Children(g, t)
    ensures g.IsWhole(d)
    ensures g.IsWhole(t) ==> t in Parents(g, d)
  {
    var op :| op in g.spends && op.txid == t && d in g.spends[op];
    assert g.Tx(d).Spends(op);
    var i :| 0 <= i < |g.Tx(d).inputs| && g.Tx(d).inputs[i].prev == op;
  }

  /** A parent has its child among its children, unless the parent has the null txid. */
  lemma ParentHasChild(g: Graph, t: Txid, d: Txid)
    requires g.Exact() && t in Parents(g, d) && t != NULL_TXID
    ensures d in Children(g, t)
  {
    var i :| 0 <= i < |g.Tx(d).inputs| && g.Tx(d).inputs[i].prev.txid == t;
    var op := g.Tx(d).inputs[i].prev;
    assert g.Tx(d).Spends(op);
    assert !op.IsNull();
    assert op in g.spends && d in g.spends[op];
  }

  lemma ParentsWhole(g: Graph, t: Txid)
    ensures forall p :: p in Parents(g, t) ==> g.IsWhole(p)
  {
  }

  // --- Iterating an index from the highest entry down ---

  predicate PairLess(a: (nat, Txid), b: (nat, Txid)) {
    a.0 < b.0 || (a.0 == b.0 && a.1 < b.1)
  }

  predicate Descending(s: seq<(nat, Txid)>) {
    forall i, j :: 0 <= i < j < |s| ==> PairLess(s[j], s[i])
  }

  function InsertDescending(s: seq<(nat, Txid)>, x: (nat, Txid)): (r: seq<(nat, Txid)>)
    requires Descending(s) && x !in s
    ensures Descending(r) && forall y :: y in r <==> y in s || y == x
  {
    if s == [] then [x]
    else
      assert s == [s[0]] + s[1..];
      if PairLess(s[0], x) then [x] + s
      else
        var rest := InsertDescending(s[1..], x);
        assert forall y :: y in rest ==> PairLess(y, s[0]);
        [s[0]] + rest
  }

  /** The reverse iteration of an ordered set of pairs. */
  method DescendingOrder(s: set<(nat, Txid)>) returns (r: seq<(nat, Txid)>)
    ensures Descending(r) && forall x :: x in r <==> x in s
  {
    r := [];
    var rest := s;
    while rest != {}
      invariant rest <= s
      invariant Descending(r) && forall x :: x in r <==> x in s && x !in rest
    {
      var x :| x in rest;
      r := InsertDescending(r, x);
      rest := rest - {x};
    }
  }
}
