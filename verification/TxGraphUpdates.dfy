/**
  Changing a transaction graph (crates/chain/src/tx_graph.rs, the `insert_*` and `apply_*`
  methods): every change keeps the indexes exact, adds exactly the facts it was given, and returns
  a change set that adds exactly the same facts.
 */
module TxGraphUpdates {
  import opened Wrappers
  import opened CheckPoints
  import opened TxGraphs
  import opened TxKnowledge

  /** The graph has learned exactly the facts of the update, and its indexes are exact. */
  ghost predicate Learned(w: World, g: Graph, g': Graph, u: TxUpdate) {
    && g'.Exact() && Fits(w, g'.txs)
    && forall f :: Knows(g', f) <==> Knows(g, f) || UpdateGives(u, f)
  }

  /** The graph has grown by exactly the facts of the change set, and its indexes are exact. */
  ghost predicate Grown(w: World, g: Graph, g': Graph, cs: ChangeSet) {
    && g'.Exact() && Fits(w, g'.txs) && ChangeFits(w, cs)
    && forall f :: Knows(g', f) <==> Knows(g, f) || Gives(cs, f)
  }

  function MergedInputs(original: seq<TxIn>, other: seq<TxIn>): seq<TxIn>
    requires |original| == |other|
  {
    seq(|original|, i requires 0 <= i < |original| => MergedInput(original[i], other[i]))
  }

  /** `_merge_tx_witnesses`: None if the original is best in every input. */
  function MergeWitnesses(original: Transaction, other: Transaction): Option<Transaction>
    requires |original.inputs| == |other.inputs|
  {
    var merged := MergedInputs(original.inputs, other.inputs);
    if merged == original.inputs then None
    else if merged == other.inputs then Some(other)
    else Some(original.(inputs := merged))
  }

  lemma MergeWitnessesFits(w: World, original: Transaction, other: Transaction)
    requires TxFits(w, original) && TxFits(w, other) && original.txid == other.txid
    ensures var merged := MergeWitnesses(original, other);
            var tx := if merged.Some? then merged.value else original;
            && tx.txid == original.txid && TxFits(w, tx) && tx.inputs == MergedInputs(original.inputs, other.inputs)
            && (merged.Some? ==> tx != original)
            && (forall op :: tx.Spends(op) <==> original.Spends(op))
  {
    var merged := MergeWitnesses(original, other);
    var tx := if merged.Some? then merged.value else original;
    assert forall i :: 0 <= i < |tx.inputs| ==> tx.inputs[i].prev == original.inputs[i].prev;
  }

  // --- Inserting a transaction ---

  /** `g'` is exact and knows what `g` knows together with what `tx` gives. */
  ghost predicate LearnedTx(w: World, g: Graph, g': Graph, tx: Transaction) {
    && g'.Exact() && Fits(w, g'.txs)
    && forall f :: Knows(g', f) <==> Knows(g, f) || TxGives(tx, f)
  }

  ghost predicate Spender(g: Graph, op: OutPoint, t: Txid) {
    g.IsWhole(t) && !op.IsNull() && g.Tx(t).Spends(op)
  }

  ghost predicate Indexed(spends: map<OutPoint, set<Txid>>, op: OutPoint, t: Txid) {
    op in spends && t in spends[op]
  }

  lemma SpendsExactPointwise(g: Graph)
    ensures g.SpendsExact()
       <==> (forall op :: op in g.spends ==> g.spends[op] != {})
            && (forall op, t :: Indexed(g.spends, op, t) <==> Spender(g, op, t))
  {
    if (forall op :: op in g.spends ==> g.spends[op] != {})
       && (forall op, t :: Indexed(g.spends, op, t) <==> Spender(g, op, t))
    {
      forall op, t | op in g.spends && t in g.spends[op]
        ensures g.IsWhole(t) && !op.IsNull() && g.Tx(t).Spends(op)
      {
        assert Indexed(g.spends, op, t);
      }
      forall op, t | g.IsWhole(t) && g.Tx(t).Spends(op) && !op.IsNull()
        ensures op in g.spends && t in g.spends[op]
      {
        assert Spender(g, op, t);
      }
      assert g.SpendsExact();
    }
  }

  /** Replacing witnesses leaves every index exact. */
  lemma ReplacingWitnessesKeepsExact(w: World, g: Graph, tx: Transaction)
    requires g.Exact() && Fits(w, g.txs) && g.IsWhole(tx.txid) && TxFits(w, tx)
    ensures var g' := g.(txs := g.txs[tx.txid := Whole(tx)]);
            g'.Exact() && Fits(w, g'.txs)
  {
    var g' := g.(txs := g.txs[tx.txid := Whole(tx)]);
    OtherIndexesKept(g, g');
    SpendsExactPointwise(g);
    SpendsExactPointwise(g');
    assert TxFits(w, g.Tx(tx.txid));
    SameInputsSpendTheSame(w, g.Tx(tx.txid), tx);
    hide Graph.SpendsExact, Graph.ConfHeightsExact, Graph.SeenExact, Transaction.Spends, Indexed;
    forall op, t ensures Spender(g', op, t) <==> Spender(g, op, t) {}
    assert g'.TxidsExact();
  }

  /** What every change does: the update's facts are added, and the change set records them. */
  ghost predicate Applied(w: World, g: Graph, g': Graph, u: TxUpdate, cs: ChangeSet) {
    && g.Exact() && Fits(w, g.txs)
    && Learned(w, g, g', u) && Grown(w, g, g', cs)
    && (cs == NO_CHANGE <==> g' == g)
  }

  lemma LearnedAndGrown(w: World, g: Graph, g': Graph, u: TxUpdate, cs: ChangeSet)
    requires g'.Exact() && Fits(w, g'.txs) && ChangeFits(w, cs)
    requires forall f :: Knows(g', f) <==> Knows(g, f) || UpdateGives(u, f)
    requires forall f :: UpdateGives(u, f) || Knows(g, f) <==> Gives(cs, f) || Knows(g, f)
    ensures Learned(w, g, g', u) && Grown(w, g, g', cs)
  {
    hide Knows, UpdateGives, Gives, Graph.Exact, Fits;
  }

  /** Each index only depends on the data it indexes. */
  lemma OtherIndexesKept(g: Graph, g': Graph)
    requires g.Exact()
    ensures g'.txs == g.txs ==> g'.TxidsExact()
    ensures g'.txs == g.txs && g'.spends == g.spends ==> g'.SpendsExact()
    ensures g'.anchors == g.anchors && g'.byConfHeight == g.byConfHeight ==> g'.ConfHeightsExact()
    ensures g'.firstSeen == g.firstSeen && g'.lastSeen == g.lastSeen && g'.byLastSeen == g.byLastSeen ==> g'.SeenExact()
  {
    SpendsExactPointwise(g);
    SpendsExactPointwise(g');
    hide Graph.SpendsExact, Indexed;
    assert g'.txs == g.txs ==> forall op, t :: Spender(g', op, t) <==> Spender(g, op, t);
    forall t | g'.txs == g.txs && g'.IsWhole(t) ensures g'.Tx(t).txid == t { assert g.IsWhole(t); }
  }

  lemma SameInputsSpendTheSame(w: World, a: Transaction, b: Transaction)
    requires TxFits(w, a) && TxFits(w, b) && a.txid == b.txid
    ensures forall op :: a.Spends(op) <==> b.Spends(op)
  {
    assert forall i :: 0 <= i < |a.inputs| ==> a.inputs[i].prev == b.inputs[i].prev;
  }

  /** Merging witnesses adds exactly what the other transaction gives, and so does the merged one. */
  lemma MergingWitnessesLearns(w: World, g: Graph, tx: Transaction, merged: Transaction)
    requires g.Exact() && Fits(w, g.txs) && g.IsWhole(tx.txid) && TxFits(w, tx)
    requires merged.txid == tx.txid && TxFits(w, merged)
    requires merged.inputs == MergedInputs(g.Tx(tx.txid).inputs, tx.inputs)
    ensures var g' := g.(txs := g.txs[tx.txid := Whole(merged)]);
            LearnedTx(w, g, g', tx) && LearnedTx(w, g, g', merged)
  {
    var g' := g.(txs := g.txs[tx.txid := Whole(merged)]);
    ReplacingWitnessesKeepsExact(w, g, merged);
    assert |merged.inputs| == |tx.inputs| == |g.Tx(tx.txid).inputs|;
    hide Graph.Exact, Fits, TxFits, Preferable, MergedInput;
    forall f
      ensures Knows(g', f) <==> Knows(g, f) || TxGives(tx, f)
      ensures Knows(g', f) <==> Knows(g, f) || TxGives(merged, f)
    {
      if f.HasWitness? && f.txid == tx.txid && f.vin < |merged.inputs| {
        var own, other := g.Tx(tx.txid).inputs[f.vin], tx.inputs[f.vin];
        MergedInputIsMinimum(own, other, f.bound);
        MergedInputIsMinimum(own, MergedInput(own, other), f.bound);
      }
    }
  }

  /** The index after recording the spends of the first `n` inputs. */
  ghost predicate Recorded(before: map<OutPoint, set<Txid>>, after: map<OutPoint, set<Txid>>, tx: Transaction, n: nat)
    requires n <= |tx.inputs|
  {
    && (forall op :: op in after <==> op in before || SpentBefore(tx, n, op))
    && (forall op :: op in after ==>
          after[op] == (if op in before then before[op] else {}) + (if SpentBefore(tx, n, op) then {tx.txid} else {}))
  }

  predicate SpentBefore(tx: Transaction, n: nat, op: OutPoint)
    requires n <= |tx.inputs|
  {
    !op.IsNull() && exists k :: 0 <= k < n && tx.inputs[k].prev == op
  }

  lemma RecordedAtStart(before: map<OutPoint, set<Txid>>, tx: Transaction)
    ensures Recorded(before, before, tx, 0)
  {
  }

  lemma RecordedStep(before: map<OutPoint, set<Txid>>, after: map<OutPoint, set<Txid>>, tx: Transaction, n: nat)
    requires n < |tx.inputs| && Recorded(before, after, tx, n)
    ensures var op := tx.inputs[n].prev;
            Recorded(before, if op.IsNull() then after
                             else after[op := (if op in after then after[op] else {}) + {tx.txid}], tx, n + 1)
  {
    forall op
      ensures SpentBefore(tx, n + 1, op) <==> SpentBefore(tx, n, op) || (op == tx.inputs[n].prev && !op.IsNull())
    {
      if op == tx.inputs[n].prev { assert tx.inputs[n].prev == op; }
    }
  }

  lemma RecordedSpendsExact(g: Graph, tx: Transaction, spends: map<OutPoint, set<Txid>>)
    requires g.SpendsExact() && !g.IsWhole(tx.txid)
    requires Recorded(g.spends, spends, tx, |tx.inputs|)
    ensures g.(txs := g.txs[tx.txid := Whole(tx)], spends := spends).SpendsExact()
  {
    var g' := g.(txs := g.txs[tx.txid := Whole(tx)], spends := spends);
    SpendsExactPointwise(g);
    SpendsExactPointwise(g');
    forall op ensures SpentBefore(tx, |tx.inputs|, op) <==> !op.IsNull() && tx.Spends(op) {}
    hide SpentBefore, Graph.SpendsExact, Transaction.Spends;
    forall op, t ensures Indexed(spends, op, t) <==> Spender(g', op, t) {
      assert Indexed(spends, op, t) <==> Indexed(g.spends, op, t) || (t == tx.txid && SpentBefore(tx, |tx.inputs|, op));
      assert Spender(g', op, t) <==> Spender(g, op, t) || (t == tx.txid && !op.IsNull() && tx.Spends(op));
    }
    forall op | op in spends ensures spends[op] != {} {
      if op in g.spends { assert g.spends[op] <= spends[op]; } else { assert tx.txid in spends[op]; }
    }
  }

  /** A transaction that was not known, or only in part, is learned as a whole. */
  lemma NewTransactionLearned(w: World, g: Graph, tx: Transaction, spends: map<OutPoint, set<Txid>>)
    requires g.Exact() && Fits(w, g.txs) && !g.IsWhole(tx.txid) && TxFits(w, tx)
    requires Recorded(g.spends, spends, tx, |tx.inputs|)
    ensures LearnedTx(w, g, g.(txs := g.txs[tx.txid := Whole(tx)], spends := spends), tx)
  {
    var g' := g.(txs := g.txs[tx.txid := Whole(tx)], spends := spends);
    RecordedSpendsExact(g, tx, spends);
    OtherIndexesKept(g, g');
    hide Recorded, Graph.SpendsExact, Graph.ConfHeightsExact, Graph.SeenExact;
    assert g'.TxidsExact();
    assert Fits(w, g'.txs);
    assert g'.Exact();
    hide Graph.Exact, Fits, TxFits, Preferable;
    forall f ensures Knows(g', f) <==> Knows(g, f) || TxGives(tx, f) {}
  }

  /** A transaction none of whose witnesses improve on the known ones adds nothing. */
  lemma NothingLearned(w: World, g: Graph, tx: Transaction)
    requires g.Exact() && Fits(w, g.txs) && g.IsWhole(tx.txid) && TxFits(w, tx)
    requires MergedInputs(g.Tx(tx.txid).inputs, tx.inputs) == g.Tx(tx.txid).inputs
    ensures LearnedTx(w, g, g, tx)
  {
    var known := g.Tx(tx.txid);
    MergingWitnessesLearns(w, g, tx, known);
    assert g.(txs := g.txs[tx.txid := Whole(known)]) == g;
  }

  lemma MergingWithItself(inputs: seq<TxIn>)
    ensures MergedInputs(inputs, inputs) == inputs
  {
  }

  lemma OneTransactionGives(tx: Transaction, f: Fact)
    ensures Gives(NO_CHANGE.(txs := {tx}), f) <==> TxGives(tx, f)
  {
  }

  lemma NoChangeGivesNothing(f: Fact)
    ensures !Gives(NO_CHANGE, f)
  {
  }

  lemma GrownByTx(w: World, g: Graph, g': Graph, tx: Transaction)
    requires LearnedTx(w, g, g', tx) && TxFits(w, tx)
    ensures Grown(w, g, g', NO_CHANGE.(txs := {tx}))
  {
    forall f ensures Gives(NO_CHANGE.(txs := {tx}), f) <==> TxGives(tx, f) { OneTransactionGives(tx, f); }
  }

  lemma LearnedByTx(w: World, g: Graph, g': Graph, tx: Transaction)
    requires LearnedTx(w, g, g', tx)
    ensures Learned(w, g, g', EMPTY_UPDATE.(txs := [tx]))
  {
    forall f ensures UpdateGives(EMPTY_UPDATE.(txs := [tx]), f) <==> TxGives(tx, f) {
      assert forall t :: t in [tx] <==> t == tx;
    }
  }

  lemma GrownByNothing(w: World, g: Graph)
    requires g.Exact() && Fits(w, g.txs)
    ensures Grown(w, g, g, NO_CHANGE)
  {
    forall f ensures !Gives(NO_CHANGE, f) { NoChangeGivesNothing(f); }
  }

  lemma InsertingWitnesses(w: World, g: Graph, tx: Transaction, merged: Transaction)
    requires g.Exact() && Fits(w, g.txs) && g.IsWhole(tx.txid) && TxFits(w, tx)
    requires MergeWitnesses(g.Tx(tx.txid), tx) == Some(merged)
    ensures var g' := g.(txs := g.txs[tx.txid := Whole(merged)]);
            && Learned(w, g, g', EMPTY_UPDATE.(txs := [tx])) && Grown(w, g, g', NO_CHANGE.(txs := {merged}))
            && g' != g
  {
    var g' := g.(txs := g.txs[tx.txid := Whole(merged)]);
    MergeWitnessesFits(w, g.Tx(tx.txid), tx);
    MergingWitnessesLearns(w, g, tx, merged);
    hide *;
    GrownByTx(w, g, g', merged);
    LearnedByTx(w, g, g', tx);
    assert g'.txs[tx.txid] != g.txs[tx.txid];
  }

  lemma InsertingKnown(w: World, g: Graph, tx: Transaction)
    requires g.Exact() && Fits(w, g.txs) && g.IsWhole(tx.txid) && TxFits(w, tx)
    requires g.Tx(tx.txid) == tx || MergeWitnesses(g.Tx(tx.txid), tx) == None
    ensures Learned(w, g, g, EMPTY_UPDATE.(txs := [tx])) && Grown(w, g, g, NO_CHANGE)
  {
    MergingWithItself(tx.inputs);
    NothingLearned(w, g, tx);
    LearnedByTx(w, g, g, tx);
    GrownByNothing(w, g);
  }

  lemma InsertingNew(w: World, g: Graph, tx: Transaction, spends: map<OutPoint, set<Txid>>)
    requires g.Exact() && Fits(w, g.txs) && !g.IsWhole(tx.txid) && TxFits(w, tx)
    requires Recorded(g.spends, spends, tx, |tx.inputs|)
    ensures var g' := g.(txs := g.txs[tx.txid := Whole(tx)], spends := spends);
            && Learned(w, g, g', EMPTY_UPDATE.(txs := [tx])) && Grown(w, g, g', NO_CHANGE.(txs := {tx}))
            && g' != g
  {
    var g' := g.(txs := g.txs[tx.txid := Whole(tx)], spends := spends);
    NewTransactionLearned(w, g, tx, spends);
    LearnedByTx(w, g, g', tx);
    GrownByTx(w, g, g', tx);
    hide Learned, LearnedTx, Grown;
    assert g'.IsWhole(tx.txid);
  }

  /**
    What is stored for a transaction and reported: a known one keeps for each input the witness that
    prevails, an unknown one is stored as it is, and no other transaction is touched.
   */
  ghost predicate Stored(g: Graph, g': Graph, tx: Transaction, cs: ChangeSet) {
    && g'.IsWhole(tx.txid) && g'.txs == g.txs[tx.txid := g'.txs[tx.txid]]
    && var stored := g'.Tx(tx.txid);
       if g.IsWhole(tx.txid) then
         var known := g.Tx(tx.txid);
         && stored.outputs == known.outputs && |stored.inputs| == |known.inputs| == |tx.inputs|
         && (forall i :: 0 <= i < |stored.inputs| ==>
               stored.inputs[i].prev == known.inputs[i].prev
               && Prevails(known.inputs[i].proof, tx.inputs[i].proof, stored.inputs[i].proof))
         && cs.txs == if stored == known then {} else {stored}
       else
         stored == tx && cs.txs == {tx}
  }

  lemma StoredMerged(w: World, g: Graph, tx: Transaction)
    requires Fits(w, g.txs) && g.IsWhole(tx.txid) && TxFits(w, tx)
    ensures var known := g.Tx(tx.txid);
            |known.inputs| == |tx.inputs|
            && var merged := MergeWitnesses(known, tx);
               var stored := if merged.Some? then merged.value else known;
               Stored(g, g.(txs := g.txs[tx.txid := Whole(stored)]), tx,
                      NO_CHANGE.(txs := if merged.Some? then {stored} else {}))
  {
    var known := g.Tx(tx.txid);
    MergeWitnessesFits(w, known, tx);
    var merged := MergeWitnesses(known, tx);
    var stored := if merged.Some? then merged.value else known;
    forall i | 0 <= i < |stored.inputs|
      ensures stored.inputs[i].prev == known.inputs[i].prev
           && Prevails(known.inputs[i].proof, tx.inputs[i].proof, stored.inputs[i].proof)
    {
      MergedInputPrevails(known.inputs[i], tx.inputs[i]);
    }
  }

  lemma StoredNew(g: Graph, tx: Transaction, spends: map<OutPoint, set<Txid>>)
    requires !g.IsWhole(tx.txid)
    ensures Stored(g, g.(txs := g.txs[tx.txid := Whole(tx)], spends := spends), tx, NO_CHANGE.(txs := {tx}))
  {
  }

  lemma StoredSame(w: World, g: Graph, tx: Transaction)
    requires Fits(w, g.txs) && g.IsWhole(tx.txid) && TxFits(w, tx)
    requires g.Tx(tx.txid) == tx || MergeWitnesses(g.Tx(tx.txid), tx) == None
    ensures Stored(g, g, tx, NO_CHANGE)
  {
    MergingWithItself(tx.inputs);
    StoredMerged(w, g, tx);
    assert g.txs[tx.txid := g.txs[tx.txid]] == g.txs;
  }

  // --- Inserting an output, an anchor or a time ---

  lemma OneTxoutGives(op: OutPoint, out: TxOut, f: Fact)
    ensures UpdateGives(EMPTY_UPDATE.(txouts := map[op := out]), f) <==> f == HasTxOut(op)
    ensures Gives(NO_CHANGE.(txouts := map[op := out]), f) <==> f == HasTxOut(op)
  {
  }

  lemma TxoutLearns(g: Graph, op: OutPoint, out: TxOut, outs: map<U32, TxOut>, f: Fact)
    requires if op.txid in g.txs then g.txs[op.txid] == Partial(outs) else outs == map[]
    ensures Knows(g.(txs := g.txs[op.txid := Partial(outs[op.vout := out])]), f)
       <==> Knows(g, f) || UpdateGives(EMPTY_UPDATE.(txouts := map[op := out]), f)
    ensures UpdateGives(EMPTY_UPDATE.(txouts := map[op := out]), f) <==> Gives(NO_CHANGE.(txouts := map[op := out]), f)
  {
    OneTxoutGives(op, out, f);
    hide UpdateGives, Gives, Preferable;
  }

  lemma InsertingTxout(w: World, g: Graph, op: OutPoint, out: TxOut, outs: map<U32, TxOut>)
    requires g.Exact() && Fits(w, g.txs) && w.outAt(op) == out
    requires if op.txid in g.txs then g.txs[op.txid] == Partial(outs) else outs == map[]
    requires op.vout !in outs
    ensures var g' := g.(txs := g.txs[op.txid := Partial(outs[op.vout := out])]);
            && Learned(w, g, g', EMPTY_UPDATE.(txouts := map[op := out]))
            && Grown(w, g, g', NO_CHANGE.(txouts := map[op := out])) && g' != g
  {
    var g' := g.(txs := g.txs[op.txid := Partial(outs[op.vout := out])]);
    PartialKeepsExact(w, g, g', op.txid);
    assert op.vout in g'.txs[op.txid].outs;
    assert OutPoint(op.txid, op.vout) == op;
    assert Fits(w, g'.txs);
    hide Graph.Exact, Fits, TxFits, Knows, UpdateGives, Gives, Learned, Grown;
    forall f { TxoutLearns(g, op, out, outs, f); }
    LearnedAndGrown(w, g, g', EMPTY_UPDATE.(txouts := map[op := out]), NO_CHANGE.(txouts := map[op := out]));
  }

  lemma PartialKeepsExact(w: World, g: Graph, g': Graph, t: Txid)
    requires g.Exact() && !g.IsWhole(t)
    requires t in g'.txs && g'.txs[t].Partial? && g' == g.(txs := g.txs[t := g'.txs[t]])
    ensures g'.Exact()
  {
    OtherIndexesKept(g, g');
    SpendsExactPointwise(g);
    SpendsExactPointwise(g');
    hide Graph.SpendsExact, Graph.ConfHeightsExact, Graph.SeenExact, Transaction.Spends, Indexed;
    forall op, x ensures Spender(g', op, x) <==> Spender(g, op, x) {}
    forall x | g'.IsWhole(x) ensures g'.Tx(x).txid == x { assert g.IsWhole(x); }
  }

  lemma KnownTxout(w: World, g: Graph, op: OutPoint, out: TxOut)
    requires g.Exact() && Fits(w, g.txs) && Knows(g, HasTxOut(op))
    ensures Learned(w, g, g, EMPTY_UPDATE.(txouts := map[op := out])) && Grown(w, g, g, NO_CHANGE)
    ensures op.txid in g.txs && g.txs[op.txid].Partial? ==> g.txs[op.txid].outs[op.vout] == w.outAt(op)
  {
    GrownByNothing(w, g);
    assert OutPoint(op.txid, op.vout) == op;
    hide Graph.Exact, TxFits, Preferable, Gives, UpdateGives;
    forall f ensures UpdateGives(EMPTY_UPDATE.(txouts := map[op := out]), f) <==> f == HasTxOut(op) {
      OneTxoutGives(op, out, f);
    }
  }

  /** The anchors of a txid, none before its first. */
  function AnchorsOf(g: Graph, t: Txid): seq<Anchor> {
    if t in g.anchors then g.anchors[t] else []
  }

  /** Moving one entry of the height index keeps it exact. */
  lemma AnchorKeepsExact(g: Graph, t: Txid, a: Anchor, byConfHeight: set<(Height, Txid)>)
    requires g.ConfHeightsExact()
    requires var had := AnchorsOf(g, t);
             var top := if had != [] && TopHeight(had) > a.block.height then TopHeight(had) else a.block.height;
             byConfHeight == g.byConfHeight - (if had == [] then {} else {(TopHeight(had), t)}) + {(top, t)}
    ensures g.(anchors := g.anchors[t := InsertSorted(AnchorsOf(g, t), a)],
              byConfHeight := byConfHeight).ConfHeightsExact()
  {
    var had := AnchorsOf(g, t);
    var next := g.anchors[t := InsertSorted(had, a)];
    TopHeightAfterInsert(had, a);
    hide Sorted, InsertSorted, TopHeight;
    assert forall x :: x in next ==> next[x] != [] && Sorted(next[x]);
    forall e ensures e in byConfHeight <==> e.1 in next && e.0 == TopHeight(next[e.1]) {
      if e.1 == t { assert e == (e.0, t); }
    }
  }

  lemma OneAnchorGives(t: Txid, a: Anchor, f: Fact)
    ensures UpdateGives(EMPTY_UPDATE.(anchors := {(a, t)}), f) <==> f == IsAnchoredIn(t, a)
    ensures Gives(NO_CHANGE.(anchors := {(a, t)}), f) <==> f == IsAnchoredIn(t, a)
  {
  }

  lemma AnchorLearns(g: Graph, t: Txid, a: Anchor, byConfHeight: set<(Height, Txid)>, f: Fact)
    requires Sorted(AnchorsOf(g, t))
    ensures Knows(g.(anchors := g.anchors[t := InsertSorted(AnchorsOf(g, t), a)], byConfHeight := byConfHeight), f)
       <==> Knows(g, f) || UpdateGives(EMPTY_UPDATE.(anchors := {(a, t)}), f)
    ensures UpdateGives(EMPTY_UPDATE.(anchors := {(a, t)}), f) <==> Gives(NO_CHANGE.(anchors := {(a, t)}), f)
  {
    OneAnchorGives(t, a, f);
    hide UpdateGives, Gives, NodeKnows, Sorted;
  }

  lemma InsertingAnchor(w: World, g: Graph, t: Txid, a: Anchor, byConfHeight: set<(Height, Txid)>)
    requires g.Exact() && Fits(w, g.txs)
    requires var had := AnchorsOf(g, t);
             var top := if had != [] && TopHeight(had) > a.block.height then TopHeight(had) else a.block.height;
             byConfHeight == g.byConfHeight - (if had == [] then {} else {(TopHeight(had), t)}) + {(top, t)}
    ensures var g' := g.(anchors := g.anchors[t := InsertSorted(AnchorsOf(g, t), a)], byConfHeight := byConfHeight);
            && Learned(w, g, g', EMPTY_UPDATE.(anchors := {(a, t)})) && Grown(w, g, g', NO_CHANGE.(anchors := {(a, t)}))
            && (a !in AnchorsOf(g, t) ==> g' != g)
  {
    var g' := g.(anchors := g.anchors[t := InsertSorted(AnchorsOf(g, t), a)], byConfHeight := byConfHeight);
    AnchorKeepsExact(g, t, a, byConfHeight);
    OtherIndexesKept(g, g');
    assert a in g'.anchors[t];
    hide Graph.TxidsExact, Graph.SpendsExact, Graph.ConfHeightsExact, Graph.SeenExact, Knows, UpdateGives, Gives,
         Fits, Learned, Grown, TopHeight;
    forall f { AnchorLearns(g, t, a, byConfHeight, f); }
    LearnedAndGrown(w, g, g', EMPTY_UPDATE.(anchors := {(a, t)}), NO_CHANGE.(anchors := {(a, t)}));
  }

  lemma KnownAnchor(w: World, g: Graph, t: Txid, a: Anchor)
    requires g.Exact() && Fits(w, g.txs) && a in AnchorsOf(g, t)
    ensures Learned(w, g, g, EMPTY_UPDATE.(anchors := {(a, t)})) && Grown(w, g, g, NO_CHANGE)
  {
    GrownByNothing(w, g);
    forall f { OneAnchorGives(t, a, f); }
  }

  predicate Earlier(times: map<Txid, Timestamp>, t: Txid, at: Timestamp) {
    t in times ==> times[t] > at
  }

  predicate Later(times: map<Txid, Timestamp>, t: Txid, at: Timestamp) {
    t in times ==> times[t] < at
  }

  function FirstSeenAfter(times: map<Txid, Timestamp>, t: Txid, at: Timestamp): map<Txid, Timestamp> {
    if Earlier(times, t, at) then times[t := at] else times
  }

  function LastTimeAfter(times: map<Txid, Timestamp>, t: Txid, at: Timestamp): map<Txid, Timestamp> {
    if Later(times, t, at) then times[t := at] else times
  }

  function ByLastSeenAfter(times: map<Txid, Timestamp>, index: set<(Timestamp, Txid)>, t: Txid, at: Timestamp)
    : set<(Timestamp, Txid)>
  {
    if !Later(times, t, at) then index
    else index - (if t in times then {(times[t], t)} else {}) + {(at, t)}
  }

  function FirstSeenChange(times: map<Txid, Timestamp>, t: Txid, at: Timestamp): map<Txid, Timestamp> {
    if Earlier(times, t, at) then map[t := at] else map[]
  }

  function LastTimeChange(times: map<Txid, Timestamp>, t: Txid, at: Timestamp): map<Txid, Timestamp> {
    if Later(times, t, at) then map[t := at] else map[]
  }

  /** The graph after recording that `t` was seen. */
  function AfterSeen(g: Graph, t: Txid, at: Timestamp): Graph {
    g.(firstSeen := FirstSeenAfter(g.firstSeen, t, at),
       lastSeen := LastTimeAfter(g.lastSeen, t, at),
       byLastSeen := ByLastSeenAfter(g.lastSeen, g.byLastSeen, t, at))
  }

  function SeenChange(g: Graph, t: Txid, at: Timestamp): ChangeSet {
    NO_CHANGE.(firstSeen := FirstSeenChange(g.firstSeen, t, at), lastSeen := LastTimeChange(g.lastSeen, t, at))
  }

  lemma SeenChangeMerged(first: map<Txid, Timestamp>, last: map<Txid, Timestamp>)
    ensures Merge(NO_CHANGE.(firstSeen := first), NO_CHANGE.(lastSeen := last))
         == NO_CHANGE.(firstSeen := first, lastSeen := last)
  {
  }

  lemma SeenKeepsExact(g: Graph, t: Txid, at: Timestamp)
    requires g.SeenExact()
    ensures AfterSeen(g, t, at).SeenExact()
  {
    var g' := AfterSeen(g, t, at);
    forall e ensures e in g'.byLastSeen <==> e.1 in g'.lastSeen && e.0 == g'.lastSeen[e.1] {
      if e.1 == t { assert e == (e.0, t); }
    }
  }

  lemma SeenChangeEmpty(g: Graph, t: Txid, at: Timestamp)
    ensures SeenChange(g, t, at) == NO_CHANGE <==> AfterSeen(g, t, at) == g
  {
    var cs, g' := SeenChange(g, t, at), AfterSeen(g, t, at);
    if Earlier(g.firstSeen, t, at) {
      assert t in cs.firstSeen && t in g'.firstSeen && g'.firstSeen[t] == at;
    }
    if Later(g.lastSeen, t, at) {
      assert t in cs.lastSeen && t in g'.lastSeen && g'.lastSeen[t] == at;
    }
  }

  lemma OneTimeGives(t: Txid, at: Timestamp, f: Fact)
    ensures UpdateGives(EMPTY_UPDATE.(seenAts := {(t, at)}), f)
       <==> (f.SeenBy? && f.txid == t && at <= f.at) || (f.SeenSince? && f.txid == t && f.at <= at)
    ensures UpdateGives(EMPTY_UPDATE.(evictedAts := {(t, at)}), f) <==> f.EvictedSince? && f.txid == t && f.at <= at
  {
    assert (t, at) in {(t, at)};
  }

  lemma SeenLearns(g: Graph, t: Txid, at: Timestamp, f: Fact)
    ensures Knows(AfterSeen(g, t, at), f) <==> Knows(g, f) || UpdateGives(EMPTY_UPDATE.(seenAts := {(t, at)}), f)
    ensures UpdateGives(EMPTY_UPDATE.(seenAts := {(t, at)}), f) || Knows(g, f)
       <==> Gives(SeenChange(g, t, at), f) || Knows(g, f)
  {
    OneTimeGives(t, at, f);
    hide UpdateGives, NodeKnows;
  }

  lemma InsertingSeen(w: World, g: Graph, t: Txid, at: Timestamp)
    requires g.Exact() && Fits(w, g.txs)
    ensures var g' := AfterSeen(g, t, at);
            && Learned(w, g, g', EMPTY_UPDATE.(seenAts := {(t, at)})) && Grown(w, g, g', SeenChange(g, t, at))
            && (SeenChange(g, t, at) == NO_CHANGE <==> g' == g)
  {
    var g' := AfterSeen(g, t, at);
    SeenKeepsExact(g, t, at);
    OtherIndexesKept(g, g');
    SeenChangeEmpty(g, t, at);
    hide Graph.TxidsExact, Graph.SpendsExact, Graph.ConfHeightsExact, Graph.SeenExact, Knows, UpdateGives, Gives,
         Fits, Learned, Grown;
    forall f { SeenLearns(g, t, at, f); }
    LearnedAndGrown(w, g, g', EMPTY_UPDATE.(seenAts := {(t, at)}), SeenChange(g, t, at));
  }

  lemma EvictedLearns(g: Graph, t: Txid, at: Timestamp, f: Fact)
    ensures Knows(g.(lastEvicted := LastTimeAfter(g.lastEvicted, t, at)), f)
       <==> Knows(g, f) || UpdateGives(EMPTY_UPDATE.(evictedAts := {(t, at)}), f)
    ensures UpdateGives(EMPTY_UPDATE.(evictedAts := {(t, at)}), f) || Knows(g, f)
       <==> Gives(NO_CHANGE.(lastEvicted := LastTimeChange(g.lastEvicted, t, at)), f) || Knows(g, f)
  {
    OneTimeGives(t, at, f);
    hide UpdateGives, NodeKnows;
  }

  lemma InsertingEvicted(w: World, g: Graph, t: Txid, at: Timestamp)
    requires g.Exact() && Fits(w, g.txs)
    ensures var g' := g.(lastEvicted := LastTimeAfter(g.lastEvicted, t, at));
            var cs := NO_CHANGE.(lastEvicted := LastTimeChange(g.lastEvicted, t, at));
            && Learned(w, g, g', EMPTY_UPDATE.(evictedAts := {(t, at)})) && Grown(w, g, g', cs)
            && (cs == NO_CHANGE <==> g' == g)
  {
    var g' := g.(lastEvicted := LastTimeAfter(g.lastEvicted, t, at));
    var cs := NO_CHANGE.(lastEvicted := LastTimeChange(g.lastEvicted, t, at));
    OtherIndexesKept(g, g');
    if Later(g.lastEvicted, t, at) {
      assert t in cs.lastEvicted && t in g'.lastEvicted && g'.lastEvicted[t] == at;
    }
    hide Graph.TxidsExact, Graph.SpendsExact, Graph.ConfHeightsExact, Graph.SeenExact, Knows, UpdateGives, Gives,
         Fits, Learned, Grown;
    forall f { EvictedLearns(g, t, at, f); }
    LearnedAndGrown(w, g, g', EMPTY_UPDATE.(evictedAts := {(t, at)}), cs);
  }

  // --- Composing changes ---

  function Plus(a: TxUpdate, b: TxUpdate): TxUpdate {
    TxUpdate(a.txs + b.txs, a.txouts + b.txouts, a.anchors + b.anchors, a.seenAts + b.seenAts,
             a.evictedAts + b.evictedAts)
  }

  lemma PlusGivesBoth(a: TxUpdate, b: TxUpdate, f: Fact)
    ensures UpdateGives(Plus(a, b), f) <==> UpdateGives(a, f) || UpdateGives(b, f)
  {
    hide TxGives;
  }

  lemma AppliedNothing(w: World, g: Graph)
    requires g.Exact() && Fits(w, g.txs)
    ensures Applied(w, g, g, EMPTY_UPDATE, NO_CHANGE)
  {
    GrownByNothing(w, g);
    hide Graph.Exact, Fits, Knows;
    forall f: Fact ensures !UpdateGives(EMPTY_UPDATE, f) {}
  }

  lemma AppliedInTurn(w: World, g: Graph, g1: Graph, g2: Graph, a: TxUpdate, b: TxUpdate, c: ChangeSet, d: ChangeSet)
    requires Applied(w, g, g1, a, c) && Applied(w, g1, g2, b, d)
    ensures Applied(w, g, g2, Plus(a, b), Merge(c, d))
  {
    hide Graph.Exact, Fits, Knows, Gives, UpdateGives;
    forall f
      ensures UpdateGives(Plus(a, b), f) <==> UpdateGives(a, f) || UpdateGives(b, f)
      ensures Gives(Merge(c, d), f) <==> Gives(c, f) || Gives(d, f)
    {
      PlusGivesBoth(a, b, f);
      MergeGivesBoth(c, d, f);
    }
    NoChangeMerged(c, d);
    hide Merge, Plus;
    if g2 == g {
      KnowledgeDeterminesGraph(w, g, g1);
    }
  }

  lemma AppliedIsFit(w: World, g: Graph, g': Graph, u: TxUpdate, cs: ChangeSet)
    requires Applied(w, g, g', u, cs)
    ensures g'.Exact() && Fits(w, g'.txs)
  {
  }

  lemma UpdateInParts(u: TxUpdate)
    ensures var u1 := EMPTY_UPDATE.(txs := u.txs);
            var u2 := u1.(txouts := u.txouts);
            var u3 := u2.(anchors := u.anchors);
            var u4 := u3.(seenAts := u.seenAts);
            && Plus(u1, EMPTY_UPDATE.(txouts := u.txouts)) == u2
            && Plus(u2, EMPTY_UPDATE.(anchors := u.anchors)) == u3
            && Plus(u3, EMPTY_UPDATE.(seenAts := u.seenAts)) == u4
            && Plus(u4, EMPTY_UPDATE.(evictedAts := u.evictedAts)) == u
  {
    assert u.txs + [] == u.txs;
  }

  lemma OneMoreTx(items: seq<Transaction>, i: nat)
    requires i < |items|
    ensures Plus(EMPTY_UPDATE.(txs := items[..i]), EMPTY_UPDATE.(txs := [items[i]]))
         == EMPTY_UPDATE.(txs := items[..i + 1])
  {
  }

  lemma OneMoreTxout(items: map<OutPoint, TxOut>, rest: set<OutPoint>, op: OutPoint)
    requires op in rest && rest <= items.Keys
    ensures Plus(EMPTY_UPDATE.(txouts := items - rest), EMPTY_UPDATE.(txouts := map[op := items[op]]))
         == EMPTY_UPDATE.(txouts := items - (rest - {op}))
  {
  }

  lemma OneMoreAnchor(items: set<(Anchor, Txid)>, rest: set<(Anchor, Txid)>, item: (Anchor, Txid))
    requires item in rest && rest <= items
    ensures Plus(EMPTY_UPDATE.(anchors := items - rest), EMPTY_UPDATE.(anchors := {item}))
         == EMPTY_UPDATE.(anchors := items - (rest - {item}))
  {
    assert items - rest + {item} == items - (rest - {item});
  }

  lemma OneMoreTime(items: set<(Txid, Timestamp)>, rest: set<(Txid, Timestamp)>, item: (Txid, Timestamp))
    requires item in rest && rest <= items
    ensures Plus(EMPTY_UPDATE.(seenAts := items - rest), EMPTY_UPDATE.(seenAts := {item}))
         == EMPTY_UPDATE.(seenAts := items - (rest - {item}))
    ensures Plus(EMPTY_UPDATE.(evictedAts := items - rest), EMPTY_UPDATE.(evictedAts := {item}))
         == EMPTY_UPDATE.(evictedAts := items - (rest - {item}))
  {
    assert items - rest + {item} == items - (rest - {item});
  }

  lemma NoChangeMerged(c: ChangeSet, d: ChangeSet)
    ensures Merge(c, d) == NO_CHANGE <==> c == NO_CHANGE && d == NO_CHANGE
  {
    var m := Merge(c, d);
    assert m.lastSeen.Keys == c.lastSeen.Keys + d.lastSeen.Keys;
    assert m.lastEvicted.Keys == c.lastEvicted.Keys + d.lastEvicted.Keys;
    assert m.firstSeen.Keys == c.firstSeen.Keys + d.firstSeen.Keys;
    assert m.txouts.Keys == c.txouts.Keys + d.txouts.Keys;
  }

  /** What replaying a change set adds: a replayed time is both a first and a last one. */
  ghost predicate ReplayGives(cs: ChangeSet, f: Fact) {
    if f.SeenBy? then f.txid in cs.lastSeen && cs.lastSeen[f.txid] <= f.at else Gives(cs, f)
  }

  ghost predicate Replayed(w: World, g: Graph, g': Graph, cs: ChangeSet) {
    && g'.Exact() && Fits(w, g'.txs)
    && forall f :: Knows(g', f) <==> Knows(g, f) || ReplayGives(cs, f)
  }

  lemma ReplayIsUpdate(cs: ChangeSet, txs: seq<Transaction>, f: Fact)
    requires forall tx :: tx in txs <==> tx in cs.txs
    ensures UpdateGives(TxUpdate(txs, cs.txouts, cs.anchors, cs.lastSeen.Items, cs.lastEvicted.Items), f)
       <==> ReplayGives(cs, f)
  {
    hide TxGives;
    if f.SeenBy? || f.SeenSince? {
      assert f.txid in cs.lastSeen ==> (f.txid, cs.lastSeen[f.txid]) in cs.lastSeen.Items;
    }
    if f.EvictedSince? {
      assert f.txid in cs.lastEvicted ==> (f.txid, cs.lastEvicted[f.txid]) in cs.lastEvicted.Items;
    }
    assert f.SeenBy? ==> forall tx :: !TxGives(tx, f) by { SeenNotByTx(f); }
  }

  lemma SeenNotByTx(f: Fact)
    ensures f.SeenBy? ==> forall tx :: !TxGives(tx, f)
  {
  }

  method Elements(s: set<Transaction>) returns (r: seq<Transaction>)
    ensures forall tx :: tx in r <==> tx in s
  {
    r := [];
    var rest := s;
    while rest != {}
      invariant rest <= s && forall tx :: tx in r <==> tx in s && tx !in rest
    {
      var tx :| tx in rest;
      r, rest := r + [tx], rest - {tx};
    }
  }

  class TxGraph {
    var txs: map<Txid, TxNode>
    var spends: map<OutPoint, set<Txid>>
    var anchors: map<Txid, seq<Anchor>>
    var firstSeen: map<Txid, Timestamp>
    var lastSeen: map<Txid, Timestamp>
    var lastEvicted: map<Txid, Timestamp>
    var byConfHeight: set<(Height, Txid)>
    var byLastSeen: set<(Timestamp, Txid)>

    /** The graph as a value. */
    function Borrow(): Graph
      reads this
    {
      Graph(txs, spends, anchors, firstSeen, lastSeen, lastEvicted, byConfHeight, byLastSeen)
    }

    constructor ()
      ensures Borrow() == EMPTY_GRAPH && Borrow().Exact()
    {
      txs, spends, anchors := map[], map[], map[];
      firstSeen, lastSeen, lastEvicted := map[], map[], map[];
      byConfHeight, byLastSeen := {}, {};
    }

    /** `insert_tx` */
    method InsertTx(tx: Transaction, ghost w: World) returns (cs: ChangeSet)
      requires Borrow().Exact() && Fits(w, Borrow().txs) && TxFits(w, tx)
      modifies this`txs, this`spends
      ensures Applied(w, old(Borrow()), Borrow(), EMPTY_UPDATE.(txs := [tx]), cs)
      ensures Stored(old(Borrow()), Borrow(), tx, cs)
    {
      ghost var g := Borrow();
      hide Prevails, Stored, Learned, Grown, Graph.Exact, Gives, MergedInput, Recorded;
      var txid := tx.txid;
      cs := NO_CHANGE;
      if txid in txs && txs[txid].Whole? {
        var existing := txs[txid].tx;
        assert TxFits(w, existing);
        var merged := if existing != tx then MergeWitnesses(existing, tx) else None;
        if merged.Some? {
          txs := txs[txid := Whole(merged.value)];
          cs := cs.(txs := {merged.value});
          InsertingWitnesses(w, g, tx, merged.value);
          StoredMerged(w, g, tx);
          assert Borrow() == g.(txs := g.txs[txid := Whole(merged.value)]);
        } else {
          InsertingKnown(w, g, tx);
          StoredSame(w, g, tx);
        }
      } else {
        RecordedAtStart(spends, tx);
        for i := 0 to |tx.inputs|
          invariant txs == g.txs && Recorded(g.spends, spends, tx, i)
        {
          RecordedStep(g.spends, spends, tx, i);
          var op := tx.inputs[i].prev;
          if !op.IsNull() {
            spends := spends[op := (if op in spends then spends[op] else {}) + {txid}];
          }
        }
        txs := txs[txid := Whole(tx)];
        cs := cs.(txs := {tx});
        InsertingNew(w, g, tx, spends);
        StoredNew(g, tx, spends);
        assert Borrow() == g.(txs := g.txs[txid := Whole(tx)], spends := spends);
      }
    }

    /** `insert_txout` */
    method InsertTxout(op: OutPoint, out: TxOut, ghost w: World) returns (cs: ChangeSet)
      requires Borrow().Exact() && Fits(w, Borrow().txs) && w.outAt(op) == out
      modifies this`txs
      ensures Applied(w, old(Borrow()), Borrow(), EMPTY_UPDATE.(txouts := map[op := out]), cs)
    {
      ghost var g := Borrow();
      hide Learned, Grown, Graph.Exact, Fits;
      cs := NO_CHANGE;
      var node := if op.txid in txs then txs[op.txid] else Partial(map[]);
      match node {
        case Whole(_) =>
          KnownTxout(w, g, op, out);
        case Partial(outs) =>
          if op.vout !in outs {
            InsertingTxout(w, g, op, out, outs);
            cs := cs.(txouts := map[op := out]);
            assert op in cs.txouts;
          } else {
            KnownTxout(w, g, op, out);
            assert outs[op.vout := out] == outs && g.txs[op.txid := Partial(outs)] == g.txs;
          }
          txs := txs[op.txid := Partial(outs[op.vout := out])];
          assert Borrow() == g.(txs := g.txs[op.txid := Partial(outs[op.vout := out])]);
      }
    }

    /** `insert_anchor` */
    method InsertAnchor(t: Txid, a: Anchor, ghost w: World) returns (cs: ChangeSet)
      requires Borrow().Exact() && Fits(w, Borrow().txs)
      modifies this`anchors, this`byConfHeight
      ensures Applied(w, old(Borrow()), Borrow(), EMPTY_UPDATE.(anchors := {(a, t)}), cs)
    {
      ghost var g := Borrow();
      assert t in anchors ==> anchors[t] != [] && Sorted(anchors[t]) && (TopHeight(anchors[t]), t) in byConfHeight;
      hide Learned, Grown, Graph.Exact, Fits, Sorted, InsertSorted, TopHeight;
      var oldTop: Option<Height>, newTop := None, a.block.height;
      var changed := true;
      if t in anchors {
        var top := TopHeight(anchors[t]);
        oldTop := Some(top);
        if top > newTop {
          newTop := top;
        }
        changed := a !in anchors[t];
        anchors := anchors[t := InsertSorted(anchors[t], a)];
      } else {
        anchors := anchors[t := InsertSorted([], a)];
      }
      cs := NO_CHANGE;
      if changed {
        if oldTop.None? || oldTop.value != newTop {
          if oldTop.Some? {
            byConfHeight := byConfHeight - {(oldTop.value, t)};
          }
          byConfHeight := byConfHeight + {(newTop, t)};
        }
        cs := cs.(anchors := {(a, t)});
        InsertingAnchor(w, g, t, a, byConfHeight);
        assert Borrow() == g.(anchors := g.anchors[t := InsertSorted(AnchorsOf(g, t), a)],
                              byConfHeight := byConfHeight);
        assert (a, t) in cs.anchors;
      } else {
        KnownAnchor(w, g, t, a);
        assert anchors == g.anchors;
      }
    }

    /** `update_first_seen` */
    method UpdateFirstSeen(t: Txid, at: Timestamp) returns (cs: ChangeSet)
      modifies this`firstSeen
      ensures firstSeen == FirstSeenAfter(old(firstSeen), t, at)
      ensures cs == NO_CHANGE.(firstSeen := FirstSeenChange(old(firstSeen), t, at))
    {
      var changed := true;
      if t in firstSeen {
        changed := firstSeen[t] > at;
        if changed {
          firstSeen := firstSeen[t := at];
        }
      } else {
        firstSeen := firstSeen[t := at];
      }
      cs := NO_CHANGE;
      if changed {
        cs := cs.(firstSeen := map[t := at]);
      }
    }

    /** `update_last_seen` */
    method UpdateLastSeen(t: Txid, at: Timestamp) returns (cs: ChangeSet)
      modifies this`lastSeen, this`byLastSeen
      ensures lastSeen == LastTimeAfter(old(lastSeen), t, at)
      ensures byLastSeen == ByLastSeenAfter(old(lastSeen), old(byLastSeen), t, at)
      ensures cs == NO_CHANGE.(lastSeen := LastTimeChange(old(lastSeen), t, at))
    {
      var oldLast: Option<Timestamp> := None;
      var changed := true;
      if t in lastSeen {
        oldLast := Some(lastSeen[t]);
        changed := lastSeen[t] < at;
        if changed {
          lastSeen := lastSeen[t := at];
        }
      } else {
        lastSeen := lastSeen[t := at];
      }
      cs := NO_CHANGE;
      if changed {
        if oldLast.Some? {
          byLastSeen := byLastSeen - {(oldLast.value, t)};
        }
        byLastSeen := byLastSeen + {(at, t)};
        cs := cs.(lastSeen := map[t := at]);
      }
    }

    /** `insert_seen_at` */
    method InsertSeenAt(t: Txid, at: Timestamp, ghost w: World) returns (cs: ChangeSet)
      requires Borrow().Exact() && Fits(w, Borrow().txs)
      modifies this`firstSeen, this`lastSeen, this`byLastSeen
      ensures Applied(w, old(Borrow()), Borrow(), EMPTY_UPDATE.(seenAts := {(t, at)}), cs)
    {
      ghost var g := Borrow();
      InsertingSeen(w, g, t, at);
      SeenChangeMerged(FirstSeenChange(g.firstSeen, t, at), LastTimeChange(g.lastSeen, t, at));
      hide Learned, Grown, Graph.Exact, Fits, FirstSeenAfter, FirstSeenChange, LastTimeAfter, LastTimeChange,
           ByLastSeenAfter, Merge;
      cs := UpdateFirstSeen(t, at);
      var last := UpdateLastSeen(t, at);
      cs := Merge(cs, last);
      assert Borrow() == AfterSeen(g, t, at);
      assert cs == SeenChange(g, t, at);
    }

    /** `insert_evicted_at` */
    method InsertEvictedAt(t: Txid, at: Timestamp, ghost w: World) returns (cs: ChangeSet)
      requires Borrow().Exact() && Fits(w, Borrow().txs)
      modifies this`lastEvicted
      ensures Applied(w, old(Borrow()), Borrow(), EMPTY_UPDATE.(evictedAts := {(t, at)}), cs)
    {
      InsertingEvicted(w, Borrow(), t, at);
      hide Learned, Grown, Graph.Exact, Fits;
      var changed := true;
      if t in lastEvicted {
        changed := lastEvicted[t] < at;
        if changed {
          lastEvicted := lastEvicted[t := at];
        }
      } else {
        lastEvicted := lastEvicted[t := at];
      }
      cs := NO_CHANGE;
      if changed {
        cs := cs.(lastEvicted := map[t := at]);
      }
    }

    method InsertTxs(items: seq<Transaction>, ghost w: World) returns (cs: ChangeSet)
      requires Borrow().Exact() && Fits(w, Borrow().txs) && forall tx :: tx in items ==> TxFits(w, tx)
      modifies this
      ensures Applied(w, old(Borrow()), Borrow(), EMPTY_UPDATE.(txs := items), cs)
    {
      cs := NO_CHANGE;
      ghost var g := Borrow();
      AppliedNothing(w, g);
      hide *;
      for i := 0 to |items|
        invariant Applied(w, g, Borrow(), EMPTY_UPDATE.(txs := items[..i]), cs)
      {
        ghost var g1 := Borrow();
        AppliedIsFit(w, g, g1, EMPTY_UPDATE.(txs := items[..i]), cs);
        var change := InsertTx(items[i], w);
        OneMoreTx(items, i);
        AppliedInTurn(w, g, g1, Borrow(), EMPTY_UPDATE.(txs := items[..i]), EMPTY_UPDATE.(txs := [items[i]]), cs,
                      change);
        cs := Merge(cs, change);
      }
      assert items[..|items|] == items;
    }

    method InsertTxouts(items: map<OutPoint, TxOut>, ghost w: World) returns (cs: ChangeSet)
      requires Borrow().Exact() && Fits(w, Borrow().txs) && forall op :: op in items ==> items[op] == w.outAt(op)
      modifies this
      ensures Applied(w, old(Borrow()), Borrow(), EMPTY_UPDATE.(txouts := items), cs)
    {
      cs := NO_CHANGE;
      ghost var g := Borrow();
      AppliedNothing(w, g);
      hide *;
      var rest := items.Keys;
      assert items - rest == map[];
      while rest != {}
        invariant rest <= items.Keys && Applied(w, g, Borrow(), EMPTY_UPDATE.(txouts := items - rest), cs)
      {
        var op :| op in rest;
        ghost var g1 := Borrow();
        AppliedIsFit(w, g, g1, EMPTY_UPDATE.(txouts := items - rest), cs);
        var change := InsertTxout(op, items[op], w);
        OneMoreTxout(items, rest, op);
        AppliedInTurn(w, g, g1, Borrow(), EMPTY_UPDATE.(txouts := items - rest),
                      EMPTY_UPDATE.(txouts := map[op := items[op]]), cs, change);
        cs := Merge(cs, change);
        rest := rest - {op};
      }
      assert items - rest == items;
    }

    method InsertAnchors(items: set<(Anchor, Txid)>, ghost w: World) returns (cs: ChangeSet)
      requires Borrow().Exact() && Fits(w, Borrow().txs)
      modifies this
      ensures Applied(w, old(Borrow()), Borrow(), EMPTY_UPDATE.(anchors := items), cs)
    {
      cs := NO_CHANGE;
      ghost var g := Borrow();
      AppliedNothing(w, g);
      hide *;
      var rest := items;
      assert items - rest == {};
      while rest != {}
        invariant rest <= items && Applied(w, g, Borrow(), EMPTY_UPDATE.(anchors := items - rest), cs)
      {
        var item :| item in rest;
        ghost var g1 := Borrow();
        AppliedIsFit(w, g, g1, EMPTY_UPDATE.(anchors := items - rest), cs);
        var change := InsertAnchor(item.1, item.0, w);
        OneMoreAnchor(items, rest, item);
        AppliedInTurn(w, g, g1, Borrow(), EMPTY_UPDATE.(anchors := items - rest), EMPTY_UPDATE.(anchors := {item}),
                      cs, change);
        cs := Merge(cs, change);
        rest := rest - {item};
      }
      assert items - rest == items;
    }

    method InsertSeenAts(items: set<(Txid, Timestamp)>, ghost w: World) returns (cs: ChangeSet)
      requires Borrow().Exact() && Fits(w, Borrow().txs)
      modifies this
      ensures Applied(w, old(Borrow()), Borrow(), EMPTY_UPDATE.(seenAts := items), cs)
    {
      cs := NO_CHANGE;
      ghost var g := Borrow();
      AppliedNothing(w, g);
      hide *;
      var rest := items;
      assert items - rest == {};
      while rest != {}
        invariant rest <= items && Applied(w, g, Borrow(), EMPTY_UPDATE.(seenAts := items - rest), cs)
      {
        var item :| item in rest;
        ghost var g1 := Borrow();
        AppliedIsFit(w, g, g1, EMPTY_UPDATE.(seenAts := items - rest), cs);
        var change := InsertSeenAt(item.0, item.1, w);
        OneMoreTime(items, rest, item);
        AppliedInTurn(w, g, g1, Borrow(), EMPTY_UPDATE.(seenAts := items - rest), EMPTY_UPDATE.(seenAts := {item}),
                      cs, change);
        cs := Merge(cs, change);
        rest := rest - {item};
      }
      assert items - rest == items;
    }

    method InsertEvictedAts(items: set<(Txid, Timestamp)>, ghost w: World) returns (cs: ChangeSet)
      requires Borrow().Exact() && Fits(w, Borrow().txs)
      modifies this
      ensures Applied(w, old(Borrow()), Borrow(), EMPTY_UPDATE.(evictedAts := items), cs)
    {
      cs := NO_CHANGE;
      ghost var g := Borrow();
      AppliedNothing(w, g);
      hide *;
      var rest := items;
      assert items - rest == {};
      while rest != {}
        invariant rest <= items && Applied(w, g, Borrow(), EMPTY_UPDATE.(evictedAts := items - rest), cs)
      {
        var item :| item in rest;
        ghost var g1 := Borrow();
        AppliedIsFit(w, g, g1, EMPTY_UPDATE.(evictedAts := items - rest), cs);
        var change := InsertEvictedAt(item.0, item.1, w);
        OneMoreTime(items, rest, item);
        AppliedInTurn(w, g, g1, Borrow(), EMPTY_UPDATE.(evictedAts := items - rest),
                      EMPTY_UPDATE.(evictedAts := {item}), cs, change);
        cs := Merge(cs, change);
        rest := rest - {item};
      }
      assert items - rest == items;
    }

    /** `apply_update` */
    method ApplyUpdate(u: TxUpdate, ghost w: World) returns (cs: ChangeSet)
      requires Borrow().Exact() && Fits(w, Borrow().txs) && UpdateFits(w, u)
      modifies this
      ensures Applied(w, old(Borrow()), Borrow(), u, cs)
    {
      ghost var g := Borrow();
      UpdateInParts(u);
      assert forall tx :: tx in u.txs ==> TxFits(w, tx);
      assert forall op :: op in u.txouts ==> u.txouts[op] == w.outAt(op);
      hide *;
      cs := InsertTxs(u.txs, w);
      ghost var g1, u1 := Borrow(), EMPTY_UPDATE.(txs := u.txs);
      AppliedIsFit(w, g, g1, u1, cs);
      var change := InsertTxouts(u.txouts, w);
      ghost var g2, u2 := Borrow(), u1.(txouts := u.txouts);
      AppliedInTurn(w, g, g1, g2, u1, EMPTY_UPDATE.(txouts := u.txouts), cs, change);
      cs := Merge(cs, change);
      AppliedIsFit(w, g, g2, u2, cs);
      change := InsertAnchors(u.anchors, w);
      ghost var g3, u3 := Borrow(), u2.(anchors := u.anchors);
      AppliedInTurn(w, g, g2, g3, u2, EMPTY_UPDATE.(anchors := u.anchors), cs, change);
      cs := Merge(cs, change);
      AppliedIsFit(w, g, g3, u3, cs);
      change := InsertSeenAts(u.seenAts, w);
      ghost var g4, u4 := Borrow(), u3.(seenAts := u.seenAts);
      AppliedInTurn(w, g, g3, g4, u3, EMPTY_UPDATE.(seenAts := u.seenAts), cs, change);
      cs := Merge(cs, change);
      AppliedIsFit(w, g, g4, u4, cs);
      change := InsertEvictedAts(u.evictedAts, w);
      AppliedInTurn(w, g, g4, Borrow(), u4, EMPTY_UPDATE.(evictedAts := u.evictedAts), cs, change);
      cs := Merge(cs, change);
    }

    /** `apply_changeset` */
    method ApplyChangeset(cs: ChangeSet, ghost w: World)
      requires Borrow().Exact() && Fits(w, Borrow().txs) && ChangeFits(w, cs)
      modifies this
      ensures Replayed(w, old(Borrow()), Borrow(), cs)
    {
      var items := Elements(cs.txs);
      var change := ApplyUpdate(TxUpdate(items, cs.txouts, cs.anchors, cs.lastSeen.Items, cs.lastEvicted.Items), w);
      hide Graph.Exact, Fits, Knows, UpdateGives, ReplayGives;
      forall f { ReplayIsUpdate(cs, items, f); }
    }
  }

  // --- Change sets form a join ---

  /** The change set an update returns, replayed on the graph it was applied to, gives the updated graph. */
  lemma ReplayGivesUpdated(w: World, g: Graph, g': Graph, h: Graph, u: TxUpdate, cs: ChangeSet)
    requires Applied(w, g, g', u, cs) && Replayed(w, g, h, cs)
    ensures h == g'.(firstSeen := h.firstSeen)
  {
    hide Graph.Exact, Fits, Knows, Gives, UpdateGives;
    KnowledgeDeterminesGraph(w, g', h);
  }

  /** Applying an update again changes nothing and returns an empty change set. */
  lemma ReapplyingIsEmpty(w: World, g: Graph, g1: Graph, g2: Graph, u: TxUpdate, c: ChangeSet, d: ChangeSet)
    requires Applied(w, g, g1, u, c) && Applied(w, g1, g2, u, d)
    ensures g2 == g1 && d == NO_CHANGE
  {
    hide Graph.Exact, Fits, Knows, Gives, UpdateGives;
    KnowledgeDeterminesGraph(w, g1, g2);
  }

  /** Two updates give the same graph in either order. */
  lemma OrderIrrelevant(w: World, g: Graph, ga: Graph, gab: Graph, gb: Graph, gba: Graph, a: TxUpdate, b: TxUpdate)
    requires g.Exact() && Fits(w, g.txs)
    requires Learned(w, g, ga, a) && Learned(w, ga, gab, b)
    requires Learned(w, g, gb, b) && Learned(w, gb, gba, a)
    ensures gab == gba
  {
    hide Graph.Exact, Fits, Knows, UpdateGives;
    KnowledgeDeterminesGraph(w, gab, gba);
  }

  /** Replaying a merged change set is the same as replaying its parts, in either order. */
  lemma MergeReplaysBoth(w: World, g: Graph, ga: Graph, gab: Graph, gm: Graph, a: ChangeSet, b: ChangeSet)
    requires Replayed(w, g, ga, a) && Replayed(w, ga, gab, b)
    requires Replayed(w, g, gm, Merge(a, b)) || Replayed(w, g, gm, Merge(b, a))
    ensures gm == gab.(firstSeen := gm.firstSeen)
  {
    forall f
      ensures Gives(Merge(a, b), f) <==> Gives(a, f) || Gives(b, f)
      ensures Gives(Merge(b, a), f) <==> Gives(a, f) || Gives(b, f)
    {
      MergeGivesBoth(a, b, f);
      MergeGivesBoth(b, a, f);
    }
    hide Graph.Exact, Fits, Knows, Gives, Merge;
    KnowledgeDeterminesGraph(w, gab, gm);
  }

  ghost predicate GivesAll(u: TxUpdate, updates: seq<TxUpdate>) {
    forall f :: UpdateGives(u, f) <==> exists i :: 0 <= i < |updates| && UpdateGives(updates[i], f)
  }

  lemma GivesOneMore(u: TxUpdate, updates: seq<TxUpdate>, n: nat)
    requires n < |updates| && GivesAll(u, updates[..n])
    ensures GivesAll(Plus(u, updates[n]), updates[..n + 1])
  {
    hide UpdateGives, Plus;
    var next := updates[..n + 1];
    forall f
      ensures UpdateGives(Plus(u, updates[n]), f) <==> exists i :: 0 <= i < |next| && UpdateGives(next[i], f)
    {
      PlusGivesBoth(u, updates[n], f);
      if UpdateGives(u, f) {
        var i :| 0 <= i < n && UpdateGives(updates[..n][i], f);
        assert UpdateGives(next[i], f);
      }
      if UpdateGives(updates[n], f) { assert UpdateGives(next[n], f); }
      if i :| 0 <= i < |next| && UpdateGives(next[i], f) {
        assert i < n ==> UpdateGives(updates[..n][i], f);
      }
    }
  }

  lemma RunKnows(w: World, g: Graph, u: TxUpdate, updates: seq<TxUpdate>, log: ChangeSet)
    requires Applied(w, EMPTY_GRAPH, g, u, log) && GivesAll(u, updates)
    ensures g.Exact() && Fits(w, g.txs) && ChangeFits(w, log)
    ensures forall f :: Knows(g, f) <==> exists i :: 0 <= i < |updates| && UpdateGives(updates[i], f)
    ensures forall f :: Knows(g, f) <==> Gives(log, f)
  {
    hide Graph.Exact, Fits, UpdateGives, Gives;
    forall f ensures !Knows(EMPTY_GRAPH, f) {}
  }

  /**
    Replaying a change set on an empty graph turns every first-seen time into the last-seen one:
    the change set's own first-seen times are never applied.
   */
  lemma ReplayFromEmpty(w: World, g: Graph, h: Graph, u: TxUpdate, log: ChangeSet)
    requires Applied(w, EMPTY_GRAPH, g, u, log) && Replayed(w, EMPTY_GRAPH, h, log)
    ensures h == g.(firstSeen := g.lastSeen)
    ensures h == g <==> g.firstSeen == g.lastSeen
  {
    ReplayGivesUpdated(w, EMPTY_GRAPH, g, h, u, log);
    ReplayedFirstSeen(w, h, log);
    AppliedLastSeen(w, g, u, log);
  }

  const TWO_SIGHTINGS := EMPTY_UPDATE.(seenAts := {(1, 3), (1, 5)})

  /** One transaction seen at 3 and at 5: the graph knows when it was first seen, the replayed one does not. */
  method ReplayLosesFirstSeen(ghost w: World) returns (graph: TxGraph, rebuilt: TxGraph, log: ChangeSet)
    ensures 1 in graph.firstSeen && graph.firstSeen[1] == 3
    ensures 1 in rebuilt.firstSeen && rebuilt.firstSeen[1] == 5
    ensures rebuilt.Borrow() != graph.Borrow()
  {
    graph, rebuilt, log := RunAndReplay([TWO_SIGHTINGS], w);
    SeenTwice(graph.Borrow());
  }

  lemma SeenTwice(g: Graph)
    requires forall f :: Knows(g, f) <==> exists i :: 0 <= i < 1 && UpdateGives([TWO_SIGHTINGS][i], f)
    ensures 1 in g.firstSeen && g.firstSeen[1] == 3 && 1 in g.lastSeen && g.lastSeen[1] == 5
  {
    hide NodeKnows, TxGives;
    assert [TWO_SIGHTINGS][0] == TWO_SIGHTINGS;
    assert (1, 3) in TWO_SIGHTINGS.seenAts && (1, 5) in TWO_SIGHTINGS.seenAts;
    assert Knows(g, SeenBy(1, 3)) && !Knows(g, SeenBy(1, 2));
    assert Knows(g, SeenSince(1, 5)) && !Knows(g, SeenSince(1, 6));
  }

  lemma ReplayedFirstSeen(w: World, h: Graph, log: ChangeSet)
    requires Replayed(w, EMPTY_GRAPH, h, log)
    ensures h.firstSeen == log.lastSeen
  {
    hide Graph.Exact, Fits, NodeKnows, TxGives;
    forall t
      ensures t in h.firstSeen <==> t in log.lastSeen
      ensures t in h.firstSeen ==> h.firstSeen[t] == log.lastSeen[t]
    {
      if t in h.firstSeen { assert Knows(h, SeenBy(t, h.firstSeen[t])); }
      if t in log.lastSeen { assert Knows(h, SeenBy(t, log.lastSeen[t])); }
    }
  }

  lemma AppliedLastSeen(w: World, g: Graph, u: TxUpdate, log: ChangeSet)
    requires Applied(w, EMPTY_GRAPH, g, u, log)
    ensures g.lastSeen == log.lastSeen
  {
    AppliedGrows(w, EMPTY_GRAPH, g, u, log);
    hide Applied, NodeKnows, TxGives;
    forall t
      ensures t in g.lastSeen <==> t in log.lastSeen
      ensures t in g.lastSeen ==> g.lastSeen[t] == log.lastSeen[t]
    {
      if t in g.lastSeen { assert Knows(g, SeenSince(t, g.lastSeen[t])); }
      if t in log.lastSeen { assert Knows(g, SeenSince(t, log.lastSeen[t])); }
    }
  }

  lemma AppliedGrows(w: World, g: Graph, g': Graph, u: TxUpdate, cs: ChangeSet)
    requires Applied(w, g, g', u, cs)
    ensures forall f :: Knows(g', f) <==> Knows(g, f) || Gives(cs, f)
  {
  }

  /** A graph after any run of updates, and the graph rebuilt from the merged change sets alone. */
  method RunAndReplay(updates: seq<TxUpdate>, ghost w: World) returns (graph: TxGraph, rebuilt: TxGraph, log: ChangeSet)
    requires forall i :: 0 <= i < |updates| ==> UpdateFits(w, updates[i])
    ensures graph.Borrow().Exact() && rebuilt.Borrow().Exact()
    ensures rebuilt.Borrow() == graph.Borrow().(firstSeen := graph.Borrow().lastSeen)
    ensures forall f :: Knows(graph.Borrow(), f) <==> exists i :: 0 <= i < |updates| && UpdateGives(updates[i], f)
    ensures forall f :: Knows(graph.Borrow(), f) <==> Gives(log, f)
  {
    graph := new TxGraph();
    rebuilt := new TxGraph();
    log := NO_CHANGE;
    ghost var u := EMPTY_UPDATE;
    AppliedNothing(w, EMPTY_GRAPH);
    assert GivesAll(u, updates[..0]) by { assert forall f: Fact :: !UpdateGives(EMPTY_UPDATE, f); }
    assert EMPTY_GRAPH.Exact() && Fits(w, EMPTY_GRAPH.txs);
    hide *;
    for i := 0 to |updates|
      invariant graph != rebuilt && fresh(graph) && fresh(rebuilt)
      invariant Applied(w, EMPTY_GRAPH, graph.Borrow(), u, log)
      invariant rebuilt.Borrow() == EMPTY_GRAPH
      invariant GivesAll(u, updates[..i])
    {
      ghost var g := graph.Borrow();
      AppliedIsFit(w, EMPTY_GRAPH, g, u, log);
      var change := graph.ApplyUpdate(updates[i], w);
      AppliedInTurn(w, EMPTY_GRAPH, g, graph.Borrow(), u, updates[i], log, change);
      GivesOneMore(u, updates, i);
      u := Plus(u, updates[i]);
      log := Merge(log, change);
    }
    assert updates[..|updates|] == updates;
    RunKnows(w, graph.Borrow(), u, updates, log);
    rebuilt.ApplyChangeset(log, w);
    ReplayFromEmpty(w, graph.Borrow(), rebuilt.Borrow(), u, log);
    ReplayedIsExact(w, EMPTY_GRAPH, rebuilt.Borrow(), log);
  }

  lemma ReplayedIsExact(w: World, g: Graph, h: Graph, cs: ChangeSet)
    requires Replayed(w, g, h, cs)
    ensures h.Exact()
  {
  }
}
