/**
  What the wallet holds after MWEB sync passes (crates/mweb/src/mweb_sync.rs, repeated calls of
  `run_once`): which owned outputs are among the unspent coins, and which coins are in the leafset.
 */
module MwebWallets {
  import opened Wrappers
  import opened Leafsets
  import opened MwebCoins
  import opened MwebDownload
  import opened MwebSyncs
  import opened MwebLogs
  import opened MwebRuns

  // --- What the wallet holds after a pass ---

  /** The output is among the unspent coins, at its leaf. */
  predicate Placed(coins: map<OutputId, Coin>, u: Utxo) {
    u.output in coins && coins[u.output].leafIndex == Some(u.leaf)
  }

  /** Verified replies only hold outputs of the chain, as inclusion proofs against its roots show. */
  ghost predicate Truthful(peer: Peer, outputs: Outputs, chain: Chain) {
    forall start, reply, u :: Answers(peer, start, reply) && u in reply.utxos ==>
      outputs(chain, u.leaf) == Some(u.output)
  }

  /** No output of the chain is at two leaves. */
  ghost predicate NoneTwice(outputs: Outputs, chain: Chain) {
    forall a, b :: outputs(chain, a).Some? && outputs(chain, a) == outputs(chain, b) ==> a == b
  }

  /** An output that the wallet owns at a leaf of the chain. */
  predicate OwnedAt(outputs: Outputs, chain: Chain, peer: Peer, u: Utxo) {
    && HasLeaf(chain.leafset, u.leaf) && outputs(chain, u.leaf) == Some(u.output) && peer.owned(u) == Ok(true)
  }

  /** Whatever the outcome of a pass, an owned output stays where it was. */
  lemma OwnedStays(
    peer: Peer, outputs: Outputs, chain: Chain, before: map<OutputId, Coin>, after: map<OutputId, Coin>, u: Utxo)
    requires Truthful(peer, outputs, chain) && NoneTwice(outputs, chain) && OwnedAt(outputs, chain, peer, u)
    requires Gains(peer, before, after)
    requires forall id :: id in before && id !in after && before[id].leafIndex.Some? ==>
               !HasLeaf(chain.leafset, before[id].leafIndex.value)
    ensures Placed(before, u) ==> Placed(after, u)
  {
    hide Answers, HasLeaf;
  }

  /** And one whose leaf was received is held. */
  lemma OwnedReceived(
    peer: Peer, outputs: Outputs, chain: Chain, accepted: seq<(nat, Reply)>, added: seq<nat>,
    after: map<OutputId, Coin>, u: Utxo)
    requires Truthful(peer, outputs, chain) && NoneTwice(outputs, chain) && OwnedAt(outputs, chain, peer, u)
    requires AllKept(peer, accepted, added, after) && AnsweredBy(peer, accepted)
    requires u.leaf in added && Received(accepted, u.leaf)
    ensures Placed(after, u)
  {
    hide Answers, HasLeaf;
    var k :| 0 <= k < |accepted| && Carries(accepted[k].1, u.leaf);
    var i :| 0 <= i < |accepted[k].1.utxos| && accepted[k].1.utxos[i].leaf == u.leaf;
    var v := accepted[k].1.utxos[i];
    assert Answers(peer, accepted[k].0, accepted[k].1) && v in accepted[k].1.utxos;
    assert v == u;
    assert Kept(peer, AddedEntries(accepted[k].1.utxos, added), added, after);
    assert Holds(peer, after, u.output, added);
  }

  /**
    After a successful pass the wallet holds an owned output of the leafset exactly if it held it before
    or the pass received its leaf.
   */
  lemma OwnedAfterPass(
    peer: Peer, outputs: Outputs, chain: Chain, accepted: seq<(nat, Reply)>, d: LeafsetDiff, saved: seq<Byte>,
    resumed: bool, before: map<OutputId, Coin>, after: map<OutputId, Coin>, found: seq<OutputId>, u: Utxo)
    requires Truthful(peer, outputs, chain) && NoneTwice(outputs, chain) && OwnedAt(outputs, chain, peer, u)
    requires Accomplished(peer, accepted, d, saved, chain.leafset, resumed, before, after, found)
    requires AnsweredBy(peer, accepted) && IsDiff(d, saved, chain.leafset)
    ensures Placed(after, u) <==>
            Placed(before, u) || (Adds(saved, chain.leafset, u.leaf) && Received(accepted, u.leaf))
  {
    hide Answers, HasLeaf, AllKept, Lists, Found, Seen, AddedEntries, Received;
    AddedIsDiff(d, saved, chain.leafset);
    if Adds(saved, chain.leafset, u.leaf) && Received(accepted, u.leaf) {
      OwnedReceived(peer, outputs, chain, accepted, d.added, after, u);
    }
    AcceptedGains(peer, accepted, d.added, before, after);
    OwnedStays(peer, outputs, chain, before, after, u);
    if Placed(after, u) && !Placed(before, u) {
      var k :| 0 <= k < |accepted| && From(peer, AddedEntries(accepted[k].1.utxos, d.added), u.output, after[u.output]);
      EntryReceived(accepted, d.added, k, u);
    }
  }

  /**
    So if every reply of a pass from the start is non-empty, without gaps, and opens with the leaf asked
    for, the wallet holds every owned output that the leafset added.
   */
  lemma OpenedPassHoldsAll(
    peer: Peer, outputs: Outputs, chain: Chain, accepted: seq<(nat, Reply)>, d: LeafsetDiff, saved: seq<Byte>,
    before: map<OutputId, Coin>, after: map<OutputId, Coin>, found: seq<OutputId>, u: Utxo)
    requires Truthful(peer, outputs, chain) && NoneTwice(outputs, chain) && OwnedAt(outputs, chain, peer, u)
    requires Accomplished(peer, accepted, d, saved, chain.leafset, false, before, after, found)
    requires AnsweredBy(peer, accepted) && IsDiff(d, saved, chain.leafset) && u.leaf in d.added
    requires Downloaded(saved, chain.leafset, None, accepted)
    requires forall k :: 0 <= k < |accepted| ==>
               GapFree(d.added, accepted[k].1)
               && accepted[k].1.utxos != [] && accepted[k].1.utxos[0].leaf == accepted[k].0
    ensures Placed(after, u)
  {
    hide *;
    AddedIsDiff(d, saved, chain.leafset);
    PassReceivesIfOpened(d, saved, chain.leafset, accepted);
    OwnedAfterPass(peer, outputs, chain, accepted, d, saved, false, before, after, found, u);
  }

  lemma EntryReceived(accepted: seq<(nat, Reply)>, added: seq<nat>, k: nat, u: Utxo)
    requires k < |accepted| && u in AddedEntries(accepted[k].1.utxos, added)
    ensures u.leaf in added && Received(accepted, u.leaf)
  {
    var i :| 0 <= i < |accepted[k].1.utxos| && accepted[k].1.utxos[i] == u;
    assert Carries(accepted[k].1, u.leaf);
  }

  lemma AcceptedGains(
    peer: Peer, accepted: seq<(nat, Reply)>, added: seq<nat>, before: map<OutputId, Coin>, after: map<OutputId, Coin>)
    requires GainsAccepted(peer, accepted, added, before, after) && AnsweredBy(peer, accepted)
    ensures Gains(peer, before, after)
  {
    hide Answers;
    forall id | id in after && !(id in before && after[id].leafIndex == before[id].leafIndex)
      ensures after[id].leafIndex.Some? && Got(peer, Utxo(after[id].leafIndex.value, id))
    {
      var k :| 0 <= k < |accepted| && From(peer, AddedEntries(accepted[k].1.utxos, added), id, after[id]);
      assert Answers(peer, accepted[k].0, accepted[k].1);
    }
  }

  // --- Complete wallets over runs ---

  /** An output of the wallet at a leaf of the chain. */
  predicate Mine(outputs: Outputs, chain: Chain, wallet: Utxo -> bool, u: Utxo) {
    HasLeaf(chain.leafset, u.leaf) && outputs(chain, u.leaf) == Some(u.output) && wallet(u)
  }

  /** Every output of the wallet on the chain is among the unspent coins. */
  ghost predicate Complete(coins: map<OutputId, Coin>, outputs: Outputs, chain: Chain, wallet: Utxo -> bool) {
    forall u :: Mine(outputs, chain, wallet, u) ==> Placed(coins, u)
  }

  /** The peer's verified replies hold outputs of the chain and carry all they pass; scanning finds the wallet's. */
  ghost predicate Faithful(peer: Peer, outputs: Outputs, chain: Chain, wallet: Utxo -> bool) {
    && (forall u :: peer.owned(u) == Ok(true) <==> wallet(u))
    && Truthful(peer, outputs, chain) && NoneTwice(outputs, chain)
    && forall start, reply :: Answers(peer, start, reply) && HasLeaf(chain.leafset, start) ==>
         forall leaf: nat :: HasLeaf(chain.leafset, leaf) && Accounts(start, reply, leaf) ==> Carries(reply, leaf)
  }

  /** The block of one tip is on the chain of the other. */
  predicate OnTop(below: Tip, above: Tip) {
    below.hash == above.hash || above.hashAt(below.height) == Some(below.hash)
  }

  /** Leaves that both chains have hold the same outputs. */
  ghost predicate KeepsOutputs(outputs: Outputs, below: Chain, above: Chain) {
    forall leaf: nat :: HasLeaf(below.leafset, leaf) && HasLeaf(above.leafset, leaf) ==>
      outputs(below, leaf) == outputs(above, leaf)
  }

  ghost predicate AppendOnly(outputs: Outputs, below: Tip, above: Tip) {
    Served(below) && Served(above) && OnTop(below, above) ==> KeepsOutputs(outputs, ChainOf(below), ChainOf(above))
  }

  /** The last pass was interrupted, and this one goes on with another chain without a rewind. */
  predicate Strays(t: Tip, m: Marks, left: Option<Chain>) {
    Served(t) && !Rewinds(t, m) && left.Some? && ChainOf(t) != left.value
  }

  /**
    What a sync state vouches for: the outputs at saved leaves that an interrupted pass has not spent, and
    the outputs at or below the cursor.
   */
  ghost predicate Vouched(
    m: Marks, left: Option<Chain>, base: Tip, coins: map<OutputId, Coin>, outputs: Outputs, wallet: Utxo -> bool)
  {
    && (m.leafset != [] ==>
          && Served(base) && ChainOf(base).leafset == m.leafset
          && m.tipHash == Some(base.hash) && m.tipHeight == Some(base.height)
          && forall u ::
               Mine(outputs, ChainOf(base), wallet, u) && (left.Some? ==> HasLeaf(left.value.leafset, u.leaf)) ==>
                 Placed(coins, u))
    && (m.cursor.Some? ==>
          && left.Some?
          && forall u ::
               Mine(outputs, left.value, wallet, u) && !HasLeaf(m.leafset, u.leaf) && u.leaf <= m.cursor.value ==>
                 Placed(coins, u))
  }

  /** At the start of a pass the wallet holds what the pass will not fetch. */
  lemma KnownBefore(
    t: Tip, m: Marks, left: Option<Chain>, base: Tip, coins: map<OutputId, Coin>, outputs: Outputs,
    wallet: Utxo -> bool, u: Utxo)
    requires Served(t) && Vouched(m, left, base, coins, outputs, wallet) && AppendOnly(outputs, base, t)
    requires !Strays(t, m, left) && Mine(outputs, ChainOf(t), wallet, u)
    requires HasLeaf(Started(t, m).leafset, u.leaf) || UpTo(Started(t, m).cursor, u.leaf)
    ensures Placed(coins, u)
  {
    NoLeaves(u.leaf);
    hide HasLeaf;
    if m.leafset != [] && HasLeaf(m.leafset, u.leaf) {
      assert OnTop(base, t);
      assert Mine(outputs, ChainOf(base), wallet, u);
    }
  }

  lemma NoLeaves(leaf: nat)
    ensures !HasLeaf([], leaf)
  {
  }

  /** After a pass it holds that as well, and what the pass went through. */
  lemma KnownAfter(
    peer: Peer, t: Tip, saved: seq<Byte>, accepted: seq<(nat, Reply)>, added: seq<nat>, resume: Option<nat>,
    bound: Option<nat>, before: map<OutputId, Coin>, after: map<OutputId, Coin>, outputs: Outputs,
    wallet: Utxo -> bool, u: Utxo)
    requires Served(t) && Faithful(peer, outputs, ChainOf(t), wallet) && Mine(outputs, ChainOf(t), wallet, u)
    requires AnsweredBy(peer, accepted) && AllKept(peer, accepted, added, after) && Gains(peer, before, after)
    requires forall id :: id in before && id !in after && before[id].leafIndex.Some? ==>
               !HasLeaf(ChainOf(t).leafset, before[id].leafIndex.value)
    requires forall leaf: nat :: leaf in added <==> Adds(saved, ChainOf(t).leafset, leaf)
    requires forall k :: 0 <= k < |accepted| ==> Adds(saved, ChainOf(t).leafset, accepted[k].0)
    requires HasLeaf(saved, u.leaf) || UpTo(resume, u.leaf) ==> Placed(before, u)
    ensures Placed(before, u) ==> Placed(after, u)
    ensures Through(saved, ChainOf(t).leafset, resume, accepted, bound) && (bound.Some? ==> u.leaf <= bound.value) ==>
              Placed(after, u)
  {
    hide Answers, HasLeaf, AllKept, AnsweredBy, Gains, Truthful, NoneTwice, Accounts, Carries;
    OwnedStays(peer, outputs, ChainOf(t), before, after, u);
    if Through(saved, ChainOf(t).leafset, resume, accepted, bound) && (bound.Some? ==> u.leaf <= bound.value)
       && !Placed(before, u) {
      CoveredIsReceived(peer, t, saved, accepted, outputs, wallet, u.leaf);
      OwnedReceived(peer, outputs, ChainOf(t), accepted, added, after, u);
    }
  }

  lemma CoveredIsReceived(
    peer: Peer, t: Tip, saved: seq<Byte>, accepted: seq<(nat, Reply)>, outputs: Outputs, wallet: Utxo -> bool,
    leaf: nat)
    requires Served(t) && Faithful(peer, outputs, ChainOf(t), wallet) && HasLeaf(ChainOf(t).leafset, leaf)
    requires AnsweredBy(peer, accepted) && Covered(accepted, leaf)
    requires forall k :: 0 <= k < |accepted| ==> Adds(saved, ChainOf(t).leafset, accepted[k].0)
    ensures Received(accepted, leaf)
  {
    hide Answers, HasLeaf, Truthful, NoneTwice, Accounts, Carries;
    var k :| 0 <= k < |accepted| && Accounts(accepted[k].0, accepted[k].1, leaf);
    assert Answers(peer, accepted[k].0, accepted[k].1);
    assert Carries(accepted[k].1, leaf);
  }

  /** So a successful pass completes the wallet, and a failed one keeps what is vouched for. */
  lemma VouchedAgain(
    peer: Peer, t: Tip, m: Marks, left: Option<Chain>, base: Tip, accepted: seq<(nat, Reply)>, d: LeafsetDiff,
    batchSize: nat, ok: bool, before: map<OutputId, Coin>, after: map<OutputId, Coin>, outputs: Outputs,
    wallet: Utxo -> bool)
    requires Served(t) && Faithful(peer, outputs, ChainOf(t), wallet) && AppendOnly(outputs, base, t)
    requires Vouched(m, left, base, before, outputs, wallet) && !Strays(t, m, left)
    requires AnsweredBy(peer, accepted) && Gains(peer, before, after)
    requires IsDiff(d, Started(t, m).leafset, ChainOf(t).leafset) && AllKept(peer, accepted, d.added, after)
    requires forall id :: id in before && id !in after && before[id].leafIndex.Some? ==>
               !HasLeaf(ChainOf(t).leafset, before[id].leafIndex.value)
    requires var m1 := Started(t, m);
             DownloadOutcome(Headed(t), m1.leafset, ChainOf(t).leafset, accepted, peer, batchSize,
               ResumeCursor(m1, t.hash), m1.cursor, CursorAfter(m1.cursor, accepted), ok)
    ensures ok ==> Complete(after, outputs, ChainOf(t), wallet)
    ensures Vouched(Started(t, m).(pendingTip := Some(t.hash), cursor := CursorAfter(Started(t, m).cursor, accepted)),
              Some(ChainOf(t)), base, after, outputs, wallet)
  {
    var m1, chain := Started(t, m), ChainOf(t);
    var resume, cursor' := ResumeCursor(m1, t.hash), CursorAfter(m1.cursor, accepted);
    AddedIsDiff(d, m1.leafset, chain.leafset);
    hide HasLeaf, IsDiff, Answers, AnsweredBy, AllKept, Gains, Faithful, Placed, Steps, Reliable, OpensWell,
         CursorAfter, StartAbove, Through, Rewinds;
    forall u | Mine(outputs, chain, wallet, u)
      ensures HasLeaf(m1.leafset, u.leaf) || UpTo(m1.cursor, u.leaf) ==> Placed(after, u)
      ensures ok || UpTo(cursor', u.leaf) ==> Placed(after, u)
    {
      if HasLeaf(m1.leafset, u.leaf) || UpTo(m1.cursor, u.leaf) {
        KnownBefore(t, m, left, base, before, outputs, wallet, u);
      }
      KnownAfter(peer, t, m1.leafset, accepted, d.added, resume, None, before, after, outputs, wallet, u);
      KnownAfter(peer, t, m1.leafset, accepted, d.added, resume, cursor', before, after, outputs, wallet, u);
    }
    StartedNotRewound(t, m);
    if m1.leafset != [] {
      assert OnTop(base, t);
      forall u | Mine(outputs, ChainOf(base), wallet, u) && HasLeaf(chain.leafset, u.leaf) ensures Placed(after, u) {
        assert Mine(outputs, chain, wallet, u);
      }
    }
  }

  /** A saved leafset that survives the start of a pass belongs to a block of its chain. */
  lemma StartedNotRewound(t: Tip, m: Marks)
    ensures Started(t, m).leafset != [] ==>
              Started(t, m) == m
              && (m.tipHash.Some? ==> m.tipHash.value == t.hash || t.hashAt(m.tipHeight.value) == m.tipHash)
  {
  }

  lemma NothingVouched(base: Tip, outputs: Outputs, wallet: Utxo -> bool)
    ensures Vouched(NEW_MARKS, None, base, map[], outputs, wallet)
  {
  }

  /** A pass that is not served keeps what is vouched for too. */
  lemma VouchedUnserved(
    t: Tip, m: Marks, left: Option<Chain>, base: Tip, before: map<OutputId, Coin>, after: map<OutputId, Coin>,
    outputs: Outputs, wallet: Utxo -> bool)
    requires Vouched(m, left, base, before, outputs, wallet) && SameLeaves(before, after)
    ensures Vouched(Started(t, m), left, base, after, outputs, wallet)
  {
    hide HasLeaf;
    forall u | Placed(before, u) ensures Placed(after, u) {
      assert u.output in after.Keys;
    }
  }

  lemma VouchedComplete(t: Tip, coins: map<OutputId, Coin>, outputs: Outputs, wallet: Utxo -> bool)
    requires Served(t) && Complete(coins, outputs, ChainOf(t), wallet)
    ensures Vouched(Finished(t, ChainOf(t).leafset), None, t, coins, outputs, wallet)
  {
  }

  /** With nothing interrupted, the wallet is complete for the chain whose leafset is saved. */
  ghost predicate CompleteAt(
    base: Tip, leafset: seq<Byte>, coins: map<OutputId, Coin>, outputs: Outputs, wallet: Utxo -> bool)
  {
    Served(base) && ChainOf(base).leafset == leafset && Complete(coins, outputs, ChainOf(base), wallet)
  }

  lemma VouchedMeans(
    m: Marks, base: Tip, coins: map<OutputId, Coin>, outputs: Outputs, wallet: Utxo -> bool)
    requires Vouched(m, None, base, coins, outputs, wallet) && m.leafset != []
    ensures CompleteAt(base, m.leafset, coins, outputs, wallet)
  {
  }

  /**
    Passes at any tips from a new state and an empty database, with peers whose replies are true and
    carry what they pass. As long as no interrupted download is left for another chain, the wallet holds
    every one of its outputs on the chain whose leafset is saved whenever a pass has succeeded.
   */
  method RunComplete(
    passes: seq<Pass>, batchSize: nat, fineWindow: nat, ghost outputs: Outputs, ghost wallet: Utxo -> bool)
    returns (state: SyncState, db: MwebCoinDatabase, ran: nat, left: Option<Chain>, ghost base: Tip)
    requires passes != []
    requires forall i :: 0 <= i < |passes| && Served(passes[i].tip) ==>
               Faithful(passes[i].peer, outputs, ChainOf(passes[i].tip), wallet)
    requires forall i, j :: 0 <= i < |passes| && 0 <= j < |passes| ==>
               AppendOnly(outputs, passes[i].tip, passes[j].tip)
    ensures db.Valid() && ran <= |passes|
    ensures ran < |passes| ==> Strays(passes[ran].tip, state.View(), left)
    ensures left.None? && state.leafset != [] ==> CompleteAt(base, state.leafset, db.coins, outputs, wallet)
    ensures state.leafset != [] && left.None? ==>
              state.View() == Finished(base, state.leafset) && exists i :: 0 <= i < ran && base == passes[i].tip
  {
    hide *;
    state := new SyncState();
    db := new MwebCoinDatabase();
    ran, left, base := 0, None, passes[0].tip;
    ghost var last := 0;
    NewIsEmpty();
    ViewIs(state);
    NothingVouched(base, outputs, wallet);
    while ran < |passes|
      invariant fresh(state) && fresh(db) && db.Valid() && ran <= |passes|
      invariant last < |passes| && base == passes[last].tip
      invariant Vouched(state.View(), left, base, db.coins, outputs, wallet)
      invariant left.None? && state.leafset != [] ==> last < ran && state.View() == Finished(base, state.leafset)
    {
      var t, peer := passes[ran].tip, passes[ran].peer;
      if Strays(t, state.View(), left) {
        StopsHere(state.View(), left, base, db.coins, outputs, wallet);
        ViewIs(state);
        return;
      }
      ghost var m, coins := state.View(), db.coins;
      ghost var m1 := Started(t, m);
      ViewIs(state);
      StartedLeafset(t, m);
      StartedSame(t, m);
      assert AppendOnly(outputs, passes[last].tip, passes[ran].tip);
      var served := if t.leafset.Ok? then t.leafset.value.1 else [];
      var d := DiffLeafsets(if Rewinds(t, state.View()) then [] else state.leafset, served);
      var outcome, requests, remaining;
      ghost var accepted;
      outcome, requests, remaining, accepted := RunOnce(state, db, t, peer, batchSize, fineWindow);
      ViewIs(state);
      if Served(t) {
        ChainIs(t);
        VouchedAgain(peer, t, m, left, base, accepted, d, batchSize, outcome.Ok?, coins, db.coins, outputs, wallet);
        if outcome.Ok? {
          VouchedComplete(t, db.coins, outputs, wallet);
          FinishedIs(t, served);
          left, base, last := None, t, ran;
        } else {
          left := Some(ChainOf(t));
        }
      } else {
        VouchedUnserved(t, m, left, base, coins, db.coins, outputs, wallet);
      }
      ran := ran + 1;
    }
    StopsHere(state.View(), left, base, db.coins, outputs, wallet);
    ViewIs(state);
  }

  lemma ChainIs(t: Tip)
    requires Served(t)
    ensures ChainOf(t) == Chain(t.hash, t.header.value, t.leafset.value.1) && t.leafset.Ok?
  {
  }

  lemma StopsHere(
    m: Marks, left: Option<Chain>, base: Tip, coins: map<OutputId, Coin>, outputs: Outputs, wallet: Utxo -> bool)
    requires Vouched(m, left, base, coins, outputs, wallet)
    ensures left.None? && m.leafset != [] ==> CompleteAt(base, m.leafset, coins, outputs, wallet)
  {
    if left.None? && m.leafset != [] { VouchedMeans(m, base, coins, outputs, wallet); }
  }

  lemma StartedSame(t: Tip, m: Marks)
    ensures Started(t, m).leafset == if Rewinds(t, m) then [] else m.leafset
    ensures Started(t, m).leafset != [] ==> Started(t, m) == m
  {
  }

  // --- Agreement over runs ---

  /** No two owned outputs share a leaf: the peer's owned outputs are where the owner says. */
  ghost predicate OwnedWhere(peer: Peer, owner: nat -> OutputId) {
    forall u :: peer.owned(u) == Ok(true) ==> u.output == owner(u.leaf)
  }

  ghost predicate Sited(coins: map<OutputId, Coin>, owner: nat -> OutputId) {
    forall id :: id in coins && coins[id].leafIndex.Some? ==> id == owner(coins[id].leafIndex.value)
  }

  lemma SitedStays(peer: Peer, owner: nat -> OutputId, before: map<OutputId, Coin>, after: map<OutputId, Coin>)
    requires OwnedWhere(peer, owner) && Sited(before, owner) && Gains(peer, before, after)
    ensures Sited(after, owner) && DistinctLeaves(after)
  {
    hide Answers;
  }

  lemma SitedDistinct(coins: map<OutputId, Coin>, owner: nat -> OutputId)
    requires Sited(coins, owner)
    ensures DistinctLeaves(coins)
  {
  }

  lemma ConsistentFrom(coins: map<OutputId, Coin>, leafset: seq<Byte>)
    ensures leafset == [] || (DistinctLeaves(coins) && Agreement(coins, leafset)) <==> Consistent(coins, leafset)
  {
  }

  lemma AgreementWithin(coins: map<OutputId, Coin>, saved: seq<Byte>, served: seq<Byte>)
    ensures Agreement(coins, saved) || Agreement(coins, served) ==> Within(coins, [], saved, served)
  {
  }

  /** Passes at one tip until one succeeds: coins in the saved or the served leafset end up in the served one. */
  method AgreesUntilDone(
    state: SyncState, db: MwebCoinDatabase, t: Tip, peers: seq<Peer>, batchSize: nat, fineWindow: nat,
    ghost owner: nat -> OutputId)
    returns (done: bool)
    requires db.Valid() && Served(t) && Sited(db.coins, owner)
    requires forall i :: 0 <= i < |peers| ==> OwnedWhere(peers[i], owner)
    modifies state, db
    ensures db.Valid() && Sited(db.coins, owner)
    ensures var saved := Started(t, old(state.View())).leafset;
            done && (saved == [] || Within(old(db.coins), [], saved, t.leafset.value.1)) ==>
              Agreement(db.coins, state.leafset)
  {
    hide *;
    ghost var m0, coins0 := state.View(), db.coins;
    ghost var saved := Started(t, m0).leafset;
    ChainIs(t);
    for i := 0 to |peers|
      invariant db.Valid() && Sited(db.coins, owner) && Started(t, state.View()).leafset == saved
      invariant saved == [] || Within(coins0, [], saved, t.leafset.value.1) ==>
                  saved == [] || Within(db.coins, [], saved, t.leafset.value.1)
    {
      ghost var m, coins := state.View(), db.coins;
      SitedDistinct(coins, owner);
      ConsistentFrom(coins, saved);
      var outcome, requests, remaining;
      ghost var accepted;
      outcome, requests, remaining, accepted := RunOnce(state, db, t, peers[i], batchSize, fineWindow);
      SitedStays(peers[i], owner, coins, db.coins);
      if outcome.Ok? {
        ViewIs(state);
        FinishedIs(t, t.leafset.value.1);
        return true;
      }
      StartedAgain(t, m, CursorAfter(Started(t, m).cursor, accepted));
      AgreementWithin(db.coins, saved, t.leafset.value.1);
    }
    return false;
  }

  /** A coin whose leaf is in neither leafset. */
  predicate LeftAlone(coin: Coin, saved: seq<Byte>, served: seq<Byte>) {
    coin.leafIndex.Some? && !HasLeaf(saved, coin.leafIndex.value) && !HasLeaf(served, coin.leafIndex.value)
  }

  lemma NoneLeftAlone(coins: map<OutputId, Coin>, saved: seq<Byte>, served: seq<Byte>)
    ensures (exists id :: id in coins && LeftAlone(coins[id], saved, served)) <==> !Within(coins, [], saved, served)
  {
    hide HasLeaf;
  }

  /** The leafset of the last pass that was served, if one is saved at all. */
  function Latest(interrupted: Option<seq<Byte>>, saved: seq<Byte>): seq<Byte> {
    if interrupted.Some? then interrupted.value else saved
  }

  /**
    Passes at any tips from a new state and an empty database, with peers whose owned outputs never share
    a leaf. While a leafset is saved, the coins agree with the latest leafset that was served. That can
    only end with a pass that finds a coin of an interrupted one in neither its own nor the saved leafset.
   */
  method RunAgrees(passes: seq<Pass>, batchSize: nat, fineWindow: nat, ghost owner: nat -> OutputId)
    returns (state: SyncState, db: MwebCoinDatabase, ran: nat, interrupted: Option<seq<Byte>>)
    requires forall i :: 0 <= i < |passes| ==> OwnedWhere(passes[i].peer, owner)
    ensures db.Valid() && ran <= |passes| && DistinctLeaves(db.coins)
    ensures state.leafset != [] ==> Agreement(db.coins, Latest(interrupted, state.leafset))
    ensures ran < |passes| ==>
              && Served(passes[ran].tip) && interrupted.Some? && !Rewinds(passes[ran].tip, state.View())
              && exists id :: id in db.coins
                              && LeftAlone(db.coins[id], state.leafset, passes[ran].tip.leafset.value.1)
  {
    hide *;
    state := new SyncState();
    db := new MwebCoinDatabase();
    ran, interrupted := 0, None;
    ViewIs(state);
    NewIsEmpty();
    NoCoins(owner);
    while ran < |passes|
      invariant fresh(state) && fresh(db)
      invariant db.Valid() && ran <= |passes| && Sited(db.coins, owner)
      invariant state.leafset != [] ==> Agreement(db.coins, Latest(interrupted, state.leafset))
    {
      var t := passes[ran].tip;
      ghost var m, coins := state.View(), db.coins;
      ViewIs(state);
      StartedSame(t, m);
      SitedDistinct(coins, owner);
      LatestIs(interrupted, state.leafset);
      ConsistentFrom(coins, Started(t, m).leafset);
      if Served(t) {
        ChainIs(t);
        NoneLeftAlone(coins, state.leafset, t.leafset.value.1);
        AgreementWithin(coins, state.leafset, t.leafset.value.1);
        if state.leafset != [] && !Rewinds(t, state.View())
           && exists id :: id in db.coins && LeftAlone(db.coins[id], state.leafset, t.leafset.value.1) {
          return;
        }
      }
      var outcome, requests, remaining;
      ghost var accepted;
      outcome, requests, remaining, accepted := RunOnce(state, db, t, passes[ran].peer, batchSize, fineWindow);
      ViewIs(state);
      SitedStays(passes[ran].peer, owner, coins, db.coins);
      if Served(t) {
        FinishedIs(t, t.leafset.value.1);
        interrupted := if outcome.Ok? then None else Some(t.leafset.value.1);
      } else {
        SameLeavesAgree(coins, db.coins, Latest(interrupted, state.leafset));
      }
      LatestIs(interrupted, state.leafset);
      ran := ran + 1;
    }
    SitedDistinct(db.coins, owner);
  }

  lemma LatestIs(interrupted: Option<seq<Byte>>, saved: seq<Byte>)
    ensures Latest(interrupted, saved) == if interrupted.Some? then interrupted.value else saved
  {
  }

  lemma NoCoins(owner: nat -> OutputId)
    ensures Sited(map[], owner)
  {
  }
}
