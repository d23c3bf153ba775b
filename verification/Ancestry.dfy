/**
  Ancestors and descendants in a transaction graph, and what a conflict-free choice of
  transactions has to satisfy.
 */
module Ancestry {
  import opened TxGraphs

  /** With each whole transaction, the whole transactions it spends from. */
  predicate AncestorClosed(g: Graph, s: set<Txid>) {
    forall t :: t in s ==> Parents(g, t) <= s
  }

  /** With each transaction, all that spend from it. */
  predicate DescendantClosed(g: Graph, s: set<Txid>) {
    forall t :: t in s ==> Children(g, t) <= s
  }

  /** `a` is `t` or one of its ancestors: it belongs to every ancestor-closed set around `t`. */
  ghost predicate IsAncestor(g: Graph, t: Txid, a: Txid) {
    forall s: set<Txid> :: t in s && AncestorClosed(g, s) ==> a in s
  }

  /** `d` is `t` or one of its descendants. */
  ghost predicate IsDescendant(g: Graph, t: Txid, d: Txid) {
    forall s: set<Txid> :: t in s && DescendantClosed(g, s) ==> d in s
  }

  lemma AncestorStep(g: Graph, t: Txid, a: Txid, p: Txid)
    requires IsAncestor(g, t, a) && p in Parents(g, a)
    ensures IsAncestor(g, t, p)
  {
  }

  lemma DescendantStep(g: Graph, t: Txid, d: Txid, c: Txid)
    requires IsDescendant(g, t, d) && c in Children(g, d)
    ensures IsDescendant(g, t, c)
  {
  }

  lemma AncestorTransitive(g: Graph, t: Txid, a: Txid, b: Txid)
    requires IsAncestor(g, t, a) && IsAncestor(g, a, b)
    ensures IsAncestor(g, t, b)
  {
  }

  /** All transactions that are whole and have `a` as an ancestor. */
  ghost function WithAncestor(g: Graph, a: Txid): set<Txid> {
    set t | t in g.txs && g.IsWhole(t) && IsAncestor(g, t, a)
  }

  /** A descendant of a whole transaction has it as an ancestor. */
  lemma DescendantHasAncestor(g: Graph, t: Txid, d: Txid)
    requires g.Exact() && g.IsWhole(t) && IsDescendant(g, t, d)
    ensures IsAncestor(g, d, t)
  {
    var s := WithAncestor(g, t);
    assert t in s;
    forall x, c | x in s && c in Children(g, x) ensures c in s {
      ChildHasParent(g, x, c);
      assert IsAncestor(g, c, c);
      AncestorStep(g, c, c, x);
      AncestorTransitive(g, c, x, t);
    }
    assert DescendantClosed(g, s);
  }

  /** An ancestor, unless it has the null txid, has the transaction as a descendant. */
  lemma AncestorHasDescendant(g: Graph, t: Txid, a: Txid)
    requires g.Exact() && !g.IsWhole(NULL_TXID) && g.IsWhole(t) && IsAncestor(g, t, a)
    ensures IsDescendant(g, a, t)
  {
    var s := set x | x in g.txs && g.IsWhole(x) && IsDescendant(g, x, t);
    forall x, p | x in s && p in Parents(g, x) ensures p in s {
      ParentsWhole(g, x);
      ParentHasChild(g, p, x);
      assert IsDescendant(g, p, p);
      DescendantStep(g, p, p, x);
      assert forall r: set<Txid> :: p in r && DescendantClosed(g, r) ==> t in r;
    }
    assert AncestorClosed(g, s);
  }

  // --- A conflict-free choice ---

  /** Two transactions of the set conflict directly. */
  ghost predicate HasConflict(g: Graph, s: set<Txid>) {
    exists a, b :: a in s && b in s && InConflict(g, a, b)
  }

  /** The ancestry of a transaction, itself included, holds two conflicting transactions. */
  ghost predicate SelfConflicting(g: Graph, t: Txid) {
    exists a, b :: IsAncestor(g, t, a) && IsAncestor(g, t, b) && InConflict(g, a, b)
  }

  /**
    The state of canonicalization: `canonical` is closed under ancestors, `excluded` under
    descendants, they share no transaction, and all conflicts of the first are in the second.
   */
  ghost predicate Settled(g: Graph, canonical: set<Txid>, excluded: set<Txid>) {
    && canonical !! excluded
    && AncestorClosed(g, canonical)
    && DescendantClosed(g, excluded)
    && (forall t :: t in canonical ==> g.IsWhole(t))
    && (forall t, c :: t in canonical && InConflict(g, t, c) ==> c in excluded)
  }

  /** No two canonical transactions spend the same output. */
  lemma SettledSpendsOnce(g: Graph, canonical: set<Txid>, excluded: set<Txid>, a: Txid, b: Txid, op: OutPoint)
    requires g.Exact() && Settled(g, canonical, excluded)
    requires a in canonical && b in canonical && !op.IsNull() && g.Tx(a).Spends(op) && g.Tx(b).Spends(op)
    ensures a == b
  {
    if a != b { ConflictIsDoubleSpend(g, a, b); }
  }

  /** `x` descends from a transaction that conflicts with a member of `s`. */
  ghost predicate ExcludedBy(g: Graph, s: set<Txid>, x: Txid) {
    exists t, c :: t in s && InConflict(g, t, c) && IsDescendant(g, c, x)
  }

  /**
    The path argument: if a member of an ancestor-closed set descends from a conflict of a member,
    the conflict itself is an ancestor, so the set holds two conflicting transactions.
   */
  lemma ExcludedMemberMeansConflict(g: Graph, s: set<Txid>, x: Txid)
    requires g.Exact() && AncestorClosed(g, s)
    requires x in s && ExcludedBy(g, s, x)
    ensures HasConflict(g, s)
  {
    var t, c :| t in s && InConflict(g, t, c) && IsDescendant(g, c, x);
    ConflictIsDoubleSpend(g, t, c);
    DescendantHasAncestor(g, c, x);
    assert c in s;
  }
}
