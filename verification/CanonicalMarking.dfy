/**
  The heart of canonicalization (crates/chain/src/canonical_task.rs, `mark_canonical`): walking the
  ancestors of a transaction while excluding all descendants of their conflicts.
 */
module CanonicalMarking {
  import opened Wrappers
  import opened CheckPoints
  import opened TxGraphs
  import opened Ancestry

  datatype Observed = InBlock(height: Height) | InMempool(time: Timestamp)

  datatype Reason =
    | Assumed(descendant: Option<Txid>)
    | Anchored(anchor: Anchor, descendant: Option<Txid>)
    | ObservedIn(observed: Observed, descendant: Option<Txid>)
  {
    /** `to_transitive` */
    function ToTransitive(txid: Txid): Reason { this.(descendant := Some(txid)) }
  }

  type CanonicalMap = map<Txid, (Transaction, Reason)>

  // --- Excluding the descendants of a conflict ---

  /** The elements of a sequence, which holds none twice. */
  ghost predicate ListsOnce(s: seq<Txid>, elements: set<Txid>) {
    && (forall x :: x in elements <==> x in s)
    && (forall i, j :: 0 <= i < j < |s| ==> s[i] != s[j])
  }

  lemma ListsOneMore(s: seq<Txid>, elements: set<Txid>, x: Txid)
    requires ListsOnce(s, elements) && x !in elements
    ensures ListsOnce(s + [x], elements + {x})
  {
  }

  /** The spenders of a transaction's outputs, as `populate_queue` collects them. */
  method SpendersOf(g: Graph, txid: Txid) returns (r: seq<Txid>)
    ensures forall d :: d in r <==> d in Children(g, txid)
  {
    r := [];
    var ops := g.spends.Keys;
    while ops != {}
      invariant ops <= g.spends.Keys
      invariant forall d :: d in r <==>
                  exists op :: op in g.spends && op !in ops && op.txid == txid && d in g.spends[op]
    {
      var op :| op in ops;
      if op.txid == txid {
        var spenders := ToSeq(g.spends[op]);
        r := r + spenders;
      }
      ops := ops - {op};
    }
  }

  method ToSeq(s: set<Txid>) returns (r: seq<Txid>)
    ensures forall x :: x in r <==> x in s
  {
    r := [];
    var rest := s;
    while rest != {}
      invariant rest <= s
      invariant forall x :: x in r <==> x in s && x !in rest
    {
      var x :| x in rest;
      r := r + [x];
      rest := rest - {x};
    }
  }

  /** All txids that the walks can meet. */
  ghost function Known(g: Graph): set<Txid> {
    g.txs.Keys + set op, d | op in g.spends && d in g.spends[op] :: d
  }

  /** The walk over the descendants of a conflicting transaction, root included. */
  method ExcludeDescendants(g: Graph, excluded: set<Txid>, undo: seq<Txid>, root: Txid, ghost before: set<Txid>)
    returns (excluded': set<Txid>, undo': seq<Txid>)
    requires g.Exact() && DescendantClosed(g, excluded) && before <= excluded && ListsOnce(undo, excluded - before)
    ensures DescendantClosed(g, excluded') && excluded <= excluded' && ListsOnce(undo', excluded' - before)
    ensures forall x :: x in excluded' <==> x in excluded || IsDescendant(g, root, x)
  {
    excluded', undo' := excluded, undo;
    var visited: set<Txid> := {};
    var queue := [root];
    ghost var all := Known(g) + {root};
    while queue != []
      invariant visited <= all && forall x :: x in queue ==> x in all && IsDescendant(g, root, x)
      invariant excluded <= excluded' && ListsOnce(undo', excluded' - before)
      invariant forall x :: x in excluded' ==> x in excluded || IsDescendant(g, root, x)
      invariant forall x, c :: x in excluded' && c in Children(g, x) ==> c in excluded' || c in queue
      invariant root in excluded' || root in queue
      invariant visited <= excluded'
      decreases all - visited, |queue|
    {
      var txid := queue[0];
      ghost var queue0 := queue;
      queue := queue[1..];
      assert forall x :: x in queue0 <==> x == txid || x in queue;
      if txid !in visited {
        visited := visited + {txid};
        if txid !in excluded' {
          ListsOneMore(undo', excluded' - before, txid);
          assert excluded' + {txid} - before == excluded' - before + {txid};
          excluded' := excluded' + {txid};
          undo' := undo' + [txid];
          var spenders := SpendersOf(g, txid);
          forall c | c in spenders ensures c in all && IsDescendant(g, root, c) {
            DescendantStep(g, root, txid, c);
          }
          queue := queue + spenders;
        }
      }
    }
  }

  /** `direct_conflicts`, as iterated: for each input the other spenders of its output. */
  method ConflictsOf(g: Graph, tx: Transaction) returns (r: seq<Txid>)
    ensures forall c :: c in r <==> c in Conflicts(g, tx)
  {
    r := [];
    for i := 0 to |tx.inputs|
      invariant forall c :: c in r <==>
                  exists k :: (0 <= k < i && tx.inputs[k].prev in g.spends
                               && c in g.spends[tx.inputs[k].prev] && c != tx.txid)
    {
      var op := tx.inputs[i].prev;
      if op in g.spends {
        var spenders := ToSeq(g.spends[op] - {tx.txid});
        r := r + spenders;
      }
    }
  }

  /** Excludes all direct conflicts of a transaction together with their descendants. */
  method ExcludeConflicts(g: Graph, excluded: set<Txid>, undo: seq<Txid>, tx: Transaction, ghost before: set<Txid>)
    returns (excluded': set<Txid>, undo': seq<Txid>)
    requires g.Exact() && DescendantClosed(g, excluded) && before <= excluded && ListsOnce(undo, excluded - before)
    ensures DescendantClosed(g, excluded') && excluded <= excluded' && ListsOnce(undo', excluded' - before)
    ensures Conflicts(g, tx) <= excluded'
    ensures forall x :: x in excluded' ==> x in excluded || exists c :: c in Conflicts(g, tx) && IsDescendant(g, c, x)
  {
    excluded', undo' := excluded, undo;
    var conflicts := ConflictsOf(g, tx);
    for i := 0 to |conflicts|
      invariant DescendantClosed(g, excluded') && excluded <= excluded' && ListsOnce(undo', excluded' - before)
      invariant forall k :: 0 <= k < i ==> conflicts[k] in excluded'
      invariant forall x :: x in excluded' ==>
                  x in excluded || exists c :: c in Conflicts(g, tx) && IsDescendant(g, c, x)
    {
      assert conflicts[i] in conflicts;
      assert IsDescendant(g, conflicts[i], conflicts[i]);
      excluded', undo' := ExcludeDescendants(g, excluded', undo', conflicts[i], before);
    }
    forall c | c in Conflicts(g, tx) ensures c in excluded' {
      assert c in conflicts;
    }
  }

  // --- Walking the ancestors ---

  ghost function InputTxids(g: Graph): set<Txid> {
    set t, i | t in g.txs && g.IsWhole(t) && 0 <= i < |g.Tx(t).inputs| :: g.Tx(t).inputs[i].prev.txid
  }

  /** `TxAncestors::populate_queue`: queues the parents not visited before. */
  method QueueParents(g: Graph, tx: Transaction, visited: set<Txid>, queue: seq<Transaction>)
    returns (visited': set<Txid>, queue': seq<Transaction>)
    requires g.TxidsExact() && g.IsWhole(tx.txid) && g.Tx(tx.txid) == tx
    ensures visited <= visited' <= visited + InputTxids(g)
    ensures visited' == visited ==> queue' == queue
    ensures forall q :: q in queue' ==>
              q in queue || (q.txid in Parents(g, tx.txid) && g.IsWhole(q.txid) && g.Tx(q.txid) == q)
    ensures forall q :: q in queue ==> q in queue'
    ensures Parents(g, tx.txid) <= visited'
    ensures forall p :: p in visited' && g.IsWhole(p) ==> p in visited || g.Tx(p) in queue'
  {
    visited', queue' := visited, queue;
    for i := 0 to |tx.inputs|
      invariant visited <= visited' <= visited + InputTxids(g)
      invariant visited' == visited ==> queue' == queue
      invariant forall q :: q in queue' ==>
                  q in queue || (q.txid in Parents(g, tx.txid) && g.IsWhole(q.txid) && g.Tx(q.txid) == q)
      invariant forall q :: q in queue ==> q in queue'
      invariant forall k :: 0 <= k < i ==> tx.inputs[k].prev.txid in visited'
      invariant forall p :: p in visited' && g.IsWhole(p) ==> p in visited || g.Tx(p) in queue'
    {
      var p := tx.inputs[i].prev.txid;
      if p !in visited' {
        assert p in InputTxids(g);
        visited' := visited' + {p};
        if g.IsWhole(p) {
          assert p in Parents(g, tx.txid);
          queue' := queue' + [g.Tx(p)];
        }
      }
    }
  }

  /** Every canonical entry is the graph's transaction. */
  ghost predicate EntriesMatch(g: Graph, canonical: CanonicalMap) {
    forall t :: t in canonical ==> g.IsWhole(t) && canonical[t].0 == g.Tx(t)
  }

  /** The exact obstacle: the ancestry conflicts with itself, or reaches an excluded transaction. */
  ghost predicate Blocked(g: Graph, excluded: set<Txid>, t: Txid) {
    SelfConflicting(g, t) || exists a :: IsAncestor(g, t, a) && a in excluded
  }

  ghost function Reasoned(g: Graph, root: Txid, reason: Reason, t: Txid): (Transaction, Reason)
    requires g.IsWhole(t)
  {
    (g.Tx(t), if t == root then reason else reason.ToTransitive(root))
  }

  /** The state of the walk from `root`, given the state before it. */
  ghost predicate Walking(
    g: Graph, root: Txid, reason: Reason, before: CanonicalMap, excludedBefore: set<Txid>,
    canonical: CanonicalMap, excluded: set<Txid>, staged: seq<Txid>, undo: seq<Txid>)
  {
    && before.Keys <= canonical.Keys
    && (forall t :: t in before ==> canonical[t] == before[t])
    && ListsOnce(staged, canonical.Keys - before.Keys)
    && (forall t :: t in canonical && t !in before ==>
          g.IsWhole(t) && IsAncestor(g, root, t) && canonical[t] == Reasoned(g, root, reason, t))
    && excludedBefore <= excluded && DescendantClosed(g, excluded)
    && ListsOnce(undo, excluded - excludedBefore)
    && (forall t, c :: t in canonical && InConflict(g, t, c) ==> c in excluded)
  }

  /** All that has been excluded is excluded because of an ancestor of the root. */
  ghost predicate ExcludedByAncestry(g: Graph, root: Txid, excludedBefore: set<Txid>, excluded: set<Txid>) {
    forall x :: x in excluded ==>
      x in excludedBefore || exists a, c :: IsAncestor(g, root, a) && InConflict(g, a, c) && IsDescendant(g, c, x)
  }

  /** Meeting an excluded ancestor means the ancestry is blocked. */
  lemma ExcludedAncestor(g: Graph, root: Txid, excludedBefore: set<Txid>, excluded: set<Txid>, t: Txid)
    requires g.Exact() && ExcludedByAncestry(g, root, excludedBefore, excluded)
    requires IsAncestor(g, root, t) && t in excluded
    ensures Blocked(g, excludedBefore, root)
  {
    if t !in excludedBefore {
      var a, c :| IsAncestor(g, root, a) && InConflict(g, a, c) && IsDescendant(g, c, t);
      ConflictIsDoubleSpend(g, a, c);
      DescendantHasAncestor(g, c, t);
      AncestorTransitive(g, root, t, c);
    }
  }

  /** A transaction that is not excluded conflicts with no canonical one. */
  lemma NoNewConflict(g: Graph, canonical: set<Txid>, excluded: set<Txid>, t: Txid, a: Txid, b: Txid)
    requires g.Exact() && t !in excluded
    requires forall a, c :: a in canonical && InConflict(g, a, c) ==> c in excluded
    requires a in canonical + {t} && b in canonical + {t} && InConflict(g, a, b)
    ensures a in canonical && b in canonical
  {
    ConflictIsDoubleSpend(g, a, b);
    ConflictSymmetric(g, a, b);
  }

  lemma StagingKeepsPeace(g: Graph, canonical: set<Txid>, excluded: set<Txid>, t: Txid)
    requires g.Exact() && !HasConflict(g, canonical) && t !in excluded
    requires forall a, c :: a in canonical && InConflict(g, a, c) ==> c in excluded
    ensures !HasConflict(g, canonical + {t})
  {
    forall a, b | a in canonical + {t} && b in canonical + {t} && InConflict(g, a, b)
      ensures a in canonical && b in canonical
    {
      NoNewConflict(g, canonical, excluded, t, a, b);
    }
  }

  /** What is still to be visited of the ancestry, as long as nothing excluded was met. */
  ghost predicate Frontier(
    g: Graph, root: Txid, before: set<Txid>, excludedBefore: set<Txid>,
    canonical: set<Txid>, excluded: set<Txid>, visited: set<Txid>, queue: seq<Transaction>)
  {
    && g.IsWhole(root)
    && (root in canonical || g.Tx(root) in queue)
    && (forall p :: p in visited && g.IsWhole(p) ==> p in canonical || g.Tx(p) in queue)
    && (forall t :: t in canonical && t !in before ==> Parents(g, t) <= visited)
    && !HasConflict(g, canonical)
    && canonical !! excludedBefore
    && (forall x :: x in excluded ==> x in excludedBefore || ExcludedBy(g, canonical, x))
  }

  lemma StartsPeaceful(g: Graph, root: Txid, canonical: set<Txid>, excluded: set<Txid>)
    requires g.Exact() && Settled(g, canonical, excluded) && g.IsWhole(root)
    ensures Frontier(g, root, canonical, excluded, canonical, excluded, {}, [g.Tx(root)])
    ensures ExcludedByAncestry(g, root, excluded, excluded)
    ensures IsAncestor(g, root, root)
  {
  }

  /** Popping a transaction that is canonical already. */
  lemma PopCanonical(
    g: Graph, root: Txid, before: set<Txid>, excludedBefore: set<Txid>,
    canonical: set<Txid>, excluded: set<Txid>, visited: set<Txid>, queue: seq<Transaction>)
    requires Frontier(g, root, before, excludedBefore, canonical, excluded, visited, queue)
    requires g.TxidsExact() && queue != [] && queue[0].txid in canonical
    ensures Frontier(g, root, before, excludedBefore, canonical, excluded, visited, queue[1..])
  {
    assert forall q :: q in queue ==> q == queue[0] || q in queue[1..];
  }

  /** Excluding the conflicts of an ancestor. */
  lemma ExcludeStep(g: Graph, root: Txid, excludedBefore: set<Txid>, excluded: set<Txid>, excluded': set<Txid>, t: Txid)
    requires ExcludedByAncestry(g, root, excludedBefore, excluded)
    requires g.IsWhole(t) && IsAncestor(g, root, t)
    requires forall x :: x in excluded' ==>
               x in excluded || exists c :: c in Conflicts(g, g.Tx(t)) && IsDescendant(g, c, x)
    ensures ExcludedByAncestry(g, root, excludedBefore, excluded')
  {
    forall x | x in excluded' && x !in excluded
      ensures exists a, c :: IsAncestor(g, root, a) && InConflict(g, a, c) && IsDescendant(g, c, x)
    {
      var c :| c in Conflicts(g, g.Tx(t)) && IsDescendant(g, c, x);
      assert InConflict(g, t, c);
    }
  }

  /** Staging an ancestor whose conflicts are excluded and that is not excluded itself. */
  lemma StageFrontier(
    g: Graph, root: Txid, before: set<Txid>, excludedBefore: set<Txid>,
    canonical: set<Txid>, excluded: set<Txid>, excluded': set<Txid>,
    visited: set<Txid>, visited': set<Txid>, queue: seq<Transaction>, queue': seq<Transaction>)
    requires g.Exact() && queue != []
    requires Frontier(g, root, before, excludedBefore, canonical, excluded, visited, queue)
    requires var t := queue[0].txid;
             && g.IsWhole(t) && g.Tx(t) == queue[0] && t !in excluded' && excludedBefore <= excluded'
             && (forall a, c :: a in canonical && InConflict(g, a, c) ==> c in excluded')
             && (forall x :: x in excluded' ==>
                   x in excluded || exists c :: c in Conflicts(g, g.Tx(t)) && IsDescendant(g, c, x))
    requires forall q :: q in queue[1..] ==> q in queue'
    requires Parents(g, queue[0].txid) <= visited' && visited <= visited'
    requires forall p :: p in visited' && g.IsWhole(p) ==> p in visited || g.Tx(p) in queue'
    ensures Frontier(g, root, before, excludedBefore, canonical + {queue[0].txid}, excluded', visited', queue')
  {
    var t := queue[0].txid;
    var canonical' := canonical + {t};
    assert forall q :: q in queue ==> q == queue[0] || q in queue[1..];
    StagingKeepsPeace(g, canonical, excluded', t);
    forall x | x in excluded' ensures x in excludedBefore || ExcludedBy(g, canonical', x) {
      if x in excluded {
        if a, c :| a in canonical && InConflict(g, a, c) && IsDescendant(g, c, x) {
          assert a in canonical';
        }
      } else {
        var c :| c in Conflicts(g, g.Tx(t)) && IsDescendant(g, c, x);
        assert t in canonical' && InConflict(g, t, c);
      }
    }
  }

  /** Staging keeps the bookkeeping of the walk. */
  lemma StageWalking(
    g: Graph, root: Txid, reason: Reason, before: CanonicalMap, excludedBefore: set<Txid>,
    canonical: CanonicalMap, excluded: set<Txid>, excluded': set<Txid>, staged: seq<Txid>, undo: seq<Txid>,
    undo': seq<Txid>, t: Txid)
    requires Walking(g, root, reason, before, excludedBefore, canonical, excluded, staged, undo)
    requires g.IsWhole(t) && IsAncestor(g, root, t) && t !in canonical
    requires excluded <= excluded' && DescendantClosed(g, excluded') && ListsOnce(undo', excluded' - excludedBefore)
    requires Conflicts(g, g.Tx(t)) <= excluded'
    ensures Walking(g, root, reason, before, excludedBefore, canonical[t := Reasoned(g, root, reason, t)],
                    excluded', staged + [t], undo')
    ensures Walking(g, root, reason, before, excludedBefore, canonical, excluded', staged, undo')
  {
    ListsOneMore(staged, canonical.Keys - before.Keys, t);
    assert canonical[t := Reasoned(g, root, reason, t)].Keys - before.Keys == canonical.Keys - before.Keys + {t};
  }

  /** The queue of the walk holds whole transactions of the ancestry. */
  ghost predicate Queued(g: Graph, root: Txid, queue: seq<Transaction>) {
    forall q :: q in queue ==> g.IsWhole(q.txid) && g.Tx(q.txid) == q && IsAncestor(g, root, q.txid)
  }

  lemma PopQueued(g: Graph, root: Txid, queue: seq<Transaction>)
    requires Queued(g, root, queue) && queue != []
    ensures Queued(g, root, queue[1..])
    ensures var q := queue[0]; g.IsWhole(q.txid) && g.Tx(q.txid) == q && IsAncestor(g, root, q.txid)
  {
  }

  lemma QueuedParents(g: Graph, root: Txid, t: Txid, queue: seq<Transaction>, queue': seq<Transaction>)
    requires Queued(g, root, queue) && IsAncestor(g, root, t)
    requires forall q :: q in queue' ==>
               q in queue || (q.txid in Parents(g, t) && g.IsWhole(q.txid) && g.Tx(q.txid) == q)
    ensures Queued(g, root, queue')
  {
    forall q | q in queue' && q !in queue ensures IsAncestor(g, root, q.txid) {
      AncestorStep(g, root, t, q.txid);
    }
  }

  lemma WalkingExcluded(
    g: Graph, root: Txid, reason: Reason, before: CanonicalMap, excludedBefore: set<Txid>,
    canonical: CanonicalMap, excluded: set<Txid>, staged: seq<Txid>, undo: seq<Txid>)
    requires Walking(g, root, reason, before, excludedBefore, canonical, excluded, staged, undo)
    ensures excludedBefore <= excluded && DescendantClosed(g, excluded) && ListsOnce(undo, excluded - excludedBefore)
    ensures forall a, c :: a in canonical && InConflict(g, a, c) ==> c in excluded
  {
  }

  lemma WalkStarts(g: Graph, root: Txid, reason: Reason, before: CanonicalMap, excluded: set<Txid>)
    requires g.Exact() && Settled(g, before.Keys, excluded) && g.IsWhole(root)
    ensures Walking(g, root, reason, before, excluded, before, excluded, [], [])
    ensures Queued(g, root, [g.Tx(root)])
  {
  }

  /** The walk of `mark_canonical`. */
  method WalkAncestors(g: Graph, before: CanonicalMap, excludedBefore: set<Txid>, root: Txid, tx: Transaction,
                       reason: Reason)
    returns (canonical: CanonicalMap, excluded: set<Txid>, staged: seq<Txid>, undo: seq<Txid>, doubleSpend: bool,
             ghost visited: set<Txid>)
    requires g.Exact() && Settled(g, before.Keys, excludedBefore)
    requires g.IsWhole(root) && tx == g.Tx(root) && root !in before
    ensures Walking(g, root, reason, before, excludedBefore, canonical, excluded, staged, undo)
    ensures ExcludedByAncestry(g, root, excludedBefore, excluded)
    ensures doubleSpend ==> Blocked(g, excludedBefore, root)
    ensures !doubleSpend ==>
              Frontier(g, root, before.Keys, excludedBefore, canonical.Keys, excluded, visited, [])
  {
    hide Blocked, ExcludedByAncestry, HasConflict, ExcludedBy, DescendantClosed, AncestorClosed, Conflicts, Parents,
         Frontier, IsAncestor, IsDescendant, Walking, Queued, ListsOnce, InConflict, Settled,
         Graph.SpendsExact, Graph.ConfHeightsExact, Graph.SeenExact;
    canonical, excluded, staged, undo, doubleSpend := before, excludedBefore, [], [], false;
    var seen: set<Txid> := {};
    var queue := [tx];
    var isStartingTx := true;
    StartsPeaceful(g, root, before.Keys, excludedBefore);
    WalkStarts(g, root, reason, before, excludedBefore);
    while queue != []
      invariant seen <= InputTxids(g)
      invariant Walking(g, root, reason, before, excludedBefore, canonical, excluded, staged, undo)
      invariant ExcludedByAncestry(g, root, excludedBefore, excluded)
      invariant Queued(g, root, queue)
      invariant isStartingTx ==> queue == [tx]
      invariant !isStartingTx ==> root in canonical || queue == []
      invariant doubleSpend ==> Blocked(g, excludedBefore, root)
      invariant !doubleSpend ==>
                  Frontier(g, root, before.Keys, excludedBefore, canonical.Keys, excluded, seen, queue)
      decreases InputTxids(g) - seen, |queue|
    {
      ghost var queue0 := queue;
      var tx := queue[0];
      queue := queue[1..];
      PopQueued(g, root, queue0);
      var thisTxid := tx.txid;
      var thisReason := if isStartingTx then reason else reason.ToTransitive(root);
      isStartingTx := false;

      if thisTxid in canonical {
        if !doubleSpend { PopCanonical(g, root, before.Keys, excludedBefore, canonical.Keys, excluded, seen, queue0); }
        continue;
      }

      ghost var excluded0 := excluded;
      WalkingExcluded(g, root, reason, before, excludedBefore, canonical, excluded, staged, undo);
      var pruned, undo' := ExcludeConflicts(g, excluded, undo, tx, excludedBefore);
      ExcludeStep(g, root, excludedBefore, excluded, pruned, thisTxid);
      StageWalking(g, root, reason, before, excludedBefore, canonical, excluded, pruned, staged, undo, undo', thisTxid);
      excluded, undo := pruned, undo';

      if thisTxid in excluded {
        ExcludedAncestor(g, root, excludedBefore, excluded, thisTxid);
        doubleSpend := true;
        continue;
      }

      WalkingExcluded(g, root, reason, before, excludedBefore, canonical, excluded, staged, undo);
      ghost var seen0, canonical0, rest := seen, canonical, queue;
      staged := staged + [thisTxid];
      assert (tx, thisReason) == Reasoned(g, root, reason, thisTxid);
      canonical := canonical[thisTxid := (tx, thisReason)];
      seen, queue := QueueParents(g, tx, seen, queue);
      QueuedParents(g, root, thisTxid, rest, queue);
      assert canonical.Keys == canonical0.Keys + {thisTxid};
      if !doubleSpend {
        StageFrontier(g, root, before.Keys, excludedBefore, canonical0.Keys, excluded0, excluded, seen0, seen,
                      queue0, queue);
      }
    }
    visited := seen;
  }

  /** A walk that met nothing excluded has settled the whole ancestry. */
  lemma WalkSettles(
    g: Graph, root: Txid, reason: Reason, before: CanonicalMap, excludedBefore: set<Txid>,
    canonical: CanonicalMap, excluded: set<Txid>, staged: seq<Txid>, undo: seq<Txid>, visited: set<Txid>)
    requires g.Exact() && Settled(g, before.Keys, excludedBefore) && EntriesMatch(g, before)
    requires Walking(g, root, reason, before, excludedBefore, canonical, excluded, staged, undo)
    requires ExcludedByAncestry(g, root, excludedBefore, excluded)
    requires Frontier(g, root, before.Keys, excludedBefore, canonical.Keys, excluded, visited, [])
    ensures Settled(g, canonical.Keys, excluded) && EntriesMatch(g, canonical)
    ensures before.Keys <= canonical.Keys && excludedBefore <= excluded
    ensures ListsOnce(staged, canonical.Keys - before.Keys)
    ensures forall t :: t in canonical ==>
              g.IsWhole(t) && canonical[t] == if t in before then before[t] else Reasoned(g, root, reason, t)
    ensures !Blocked(g, excludedBefore, root)
    ensures forall a :: a in canonical <==> a in before || IsAncestor(g, root, a)
    ensures forall x ::
              x in excluded <==>
                x in excludedBefore ||
                exists a, c :: IsAncestor(g, root, a) && InConflict(g, a, c) && IsDescendant(g, c, x)
  {
    assert AncestorClosed(g, canonical.Keys) by {
      forall t, p | t in canonical && p in Parents(g, t) ensures p in canonical {
        ParentsWhole(g, t);
      }
    }
    forall x | x in canonical && x in excluded ensures false {
      ExcludedMemberMeansConflict(g, canonical.Keys, x);
    }
    forall a | IsAncestor(g, root, a) ensures a in canonical {}
    forall x, a, c | IsAncestor(g, root, a) && InConflict(g, a, c) && IsDescendant(g, c, x) ensures x in excluded {
      assert a in canonical;
    }
  }

  /** Every exclusion is justified by a conflict with a canonical transaction. */
  ghost predicate Justified(g: Graph, canonical: set<Txid>, excluded: set<Txid>) {
    forall x :: x in excluded ==> ExcludedBy(g, canonical, x)
  }

  /** Removing what was staged and excluded restores the state before the walk. */
  lemma UndoRestores(
    g: Graph, root: Txid, reason: Reason, before: CanonicalMap, excludedBefore: set<Txid>,
    canonical: CanonicalMap, excluded: set<Txid>, staged: seq<Txid>, undo: seq<Txid>)
    requires Walking(g, root, reason, before, excludedBefore, canonical, excluded, staged, undo)
    ensures canonical - (set k | 0 <= k < |staged| :: staged[k]) == before
    ensures excluded - (set k | 0 <= k < |undo| :: undo[k]) == excludedBefore
  {
    assert (set k | 0 <= k < |staged| :: staged[k]) == canonical.Keys - before.Keys;
    assert (set k | 0 <= k < |undo| :: undo[k]) == excluded - excludedBefore;
  }

  lemma StaysJustified(
    g: Graph, root: Txid, before: set<Txid>, excludedBefore: set<Txid>, canonical: set<Txid>, excluded: set<Txid>)
    requires Justified(g, before, excludedBefore) && before <= canonical
    requires forall a :: IsAncestor(g, root, a) ==> a in canonical
    requires forall x :: x in excluded ==>
               x in excludedBefore ||
               exists a, c :: IsAncestor(g, root, a) && InConflict(g, a, c) && IsDescendant(g, c, x)
    ensures Justified(g, canonical, excluded)
  {
    forall x | x in excludedBefore ensures ExcludedBy(g, canonical, x) {
      var t, c :| t in before && InConflict(g, t, c) && IsDescendant(g, c, x);
      assert t in canonical;
    }
  }

  lemma AppendOnce(s: seq<Txid>, elements: set<Txid>, t: seq<Txid>, more: set<Txid>)
    requires ListsOnce(s, elements) && ListsOnce(t, more) && elements !! more
    ensures ListsOnce(s + t, elements + more)
  {
    var r := s + t;
    forall i, j | 0 <= i < j < |r| ensures r[i] != r[j] {
      if i < |s| <= j {
        assert s[i] in elements && t[j - |s|] in more;
      } else if |s| <= i {
        assert t[i - |s|] != t[j - |s|];
      }
    }
  }

  /**
    For an undecided transaction, and as no transaction hashes to the null txid, the ancestry is
    blocked exactly if it holds two directly conflicting transactions.
   */
  lemma BlockedMeansSelfConflicting(g: Graph, canonical: set<Txid>, excluded: set<Txid>, t: Txid)
    requires g.Exact() && Settled(g, canonical, excluded) && !g.IsWhole(NULL_TXID)
    requires g.IsWhole(t) && t !in excluded
    ensures Blocked(g, excluded, t) <==> SelfConflicting(g, t)
  {
    forall a | IsAncestor(g, t, a) ensures a !in excluded {
      AncestorHasDescendant(g, t, a);
    }
  }
}
