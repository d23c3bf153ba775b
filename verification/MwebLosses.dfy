/**
  Runs of MWEB sync passes (crates/mweb/src/mweb_sync.rs, repeated calls of `run_once`) that succeed
  and yet leave a leaf out or keep a coin too many, all with a header to verify against.
 */
module MwebLosses {
  import opened Wrappers
  import opened Leafsets
  import opened MwebCoins
  import opened MwebDownload
  import opened MwebSyncs
  import opened MwebLogs
  import opened MwebRuns
  import opened MwebWallets

  const ONE_LEAF: seq<Byte> := [0x80]
  const TWO_LEAVES: seq<Byte> := [0xC0]
  const THREE_LEAVES: seq<Byte> := [0x94]

  lemma TheirLeaves(leaf: nat)
    ensures HasLeaf(ONE_LEAF, leaf) <==> leaf == 0
    ensures HasLeaf(TWO_LEAVES, leaf) <==> leaf == 0 || leaf == 1
    ensures HasLeaf(THREE_LEAVES, leaf) <==> leaf == 0 || leaf == 3 || leaf == 5
    ensures !HasLeaf([], leaf)
  {
    if leaf < 8 {
      assert leaf / 8 == 0 && leaf % 8 == leaf;
      ThreeBytes(leaf);
    }
  }

  lemma ThreeBytes(bit: nat)
    requires bit < 8
    ensures BitOf(0x80, bit) <==> bit == 0
    ensures BitOf(0xC0, bit) <==> bit == 0 || bit == 1
    ensures BitOf(0x94, bit) <==> bit == 0 || bit == 3 || bit == 5
  {
    match bit {
      case 0 => assert (0x80 as Byte) & 0x80 != 0 && (0xC0 as Byte) & 0x80 != 0 && (0x94 as Byte) & 0x80 != 0;
      case 1 => assert (0x80 as Byte) & 0x40 == 0 && (0xC0 as Byte) & 0x40 != 0 && (0x94 as Byte) & 0x40 == 0;
      case 2 => assert (0x80 as Byte) & 0x20 == 0 && (0xC0 as Byte) & 0x20 == 0 && (0x94 as Byte) & 0x20 == 0;
      case 3 => assert (0x80 as Byte) & 0x10 == 0 && (0xC0 as Byte) & 0x10 == 0 && (0x94 as Byte) & 0x10 != 0;
      case 4 => assert (0x80 as Byte) & 0x08 == 0 && (0xC0 as Byte) & 0x08 == 0 && (0x94 as Byte) & 0x08 == 0;
      case 5 => assert (0x80 as Byte) & 0x04 == 0 && (0xC0 as Byte) & 0x04 == 0 && (0x94 as Byte) & 0x04 != 0;
      case 6 => assert (0x80 as Byte) & 0x02 == 0 && (0xC0 as Byte) & 0x02 == 0 && (0x94 as Byte) & 0x02 == 0;
      case _ => assert (0x80 as Byte) & 0x01 == 0 && (0xC0 as Byte) & 0x01 == 0 && (0x94 as Byte) & 0x01 == 0;
    }
  }

  /** A tip that is served with a header, on a chain that has block 1 at height 10. */
  function TipAt(hash: Hash, height: nat, roots: nat, leafset: seq<Byte>): (t: Tip)
    ensures Served(t) && Headed(t) && ChainOf(t) == Chain(hash, Some(Header(6, roots)), leafset)
  {
    Tip(hash, height, h => if h == 10 then Some(1) else None, map[], Ok(Some(Header(6, roots))), Ok((hash, leafset)),
        true)
  }

  lemma PassedEverything(
    saved: seq<Byte>, served: seq<Byte>, accepted: seq<(nat, Reply)>, peer: Peer, resume: Option<nat>,
    before: Option<nat>, after: Option<nat>, ok: bool)
    requires DownloadOutcome(true, saved, served, accepted, peer, 100, resume, before, after, ok)
    ensures ok ==> Through(saved, served, resume, accepted, None)
    ensures Yields(peer, true) || Reliable(peer, true) ==> ok
    ensures forall leaf ::
              FirstLeft(saved, served, resume, leaf) && OpensWell(peer, true, leaf, EffectiveBatchSize(100)) ==>
                accepted != []
    ensures (forall leaf: nat :: Adds(saved, served, leaf) ==> UpTo(resume, leaf)) ==> ok && accepted == []
  {
    hide Reliable, Yields, OpensWell, Through;
    ReliableYields(peer, true);
  }

  // --- Replies that miss leaves ---

  lemma LatePeerMissesFirst(accepted: seq<(nat, Reply)>)
    requires AnsweredBy(LATE_PEER, accepted)
    ensures Reliable(LATE_PEER, true) && !Received(accepted, 0)
  {
    forall k | 0 <= k < |accepted| ensures !Carries(accepted[k].1, 0) {
      assert Answers(LATE_PEER, accepted[k].0, accepted[k].1);
    }
  }

  lemma EmptyPeerCarriesNothing(accepted: seq<(nat, Reply)>, leaf: nat)
    requires AnsweredBy(EMPTY_PEER, accepted)
    ensures Reliable(EMPTY_PEER, true) && !Received(accepted, leaf)
  {
    forall k | 0 <= k < |accepted| ensures !Carries(accepted[k].1, leaf) {
      assert Answers(EMPTY_PEER, accepted[k].0, accepted[k].1);
    }
  }

  /** A reply that starts late: the first pass of all succeeds and saves leaf 0, which nobody sent. */
  method LateReplySkipsLeaf()
    returns (state: SyncState, r: Result<SyncResult, SyncError>, ghost accepted: seq<(nat, Reply)>)
    ensures r.Ok? && AnsweredBy(LATE_PEER, accepted)
    ensures HasLeaf(state.leafset, 0) && !Received(accepted, 0)
  {
    hide *;
    state := new SyncState();
    var db := new MwebCoinDatabase();
    var t := TipAt(1, 10, 0, TWO_LEAVES);
    ghost var m := Started(t, state.View());
    var requests, remaining;
    r, requests, remaining, accepted := RunOnce(state, db, t, LATE_PEER, 100, 1);
    ChainIs(t);
    LatePeerMissesFirst(accepted);
    PassedEverything(m.leafset, TWO_LEAVES, accepted, LATE_PEER, ResumeCursor(m, 1), m.cursor,
                     CursorAfter(m.cursor, accepted), r.Ok?);
    ViewIs(state);
    FinishedIs(t, TWO_LEAVES);
    TheirLeaves(0);
  }

  /** Empty replies: the first pass of all succeeds and saves leaves of which nobody sent any. */
  method EmptyReplySkipsLeaf()
    returns (state: SyncState, r: Result<SyncResult, SyncError>, ghost accepted: seq<(nat, Reply)>)
    ensures r.Ok? && AnsweredBy(EMPTY_PEER, accepted)
    ensures HasLeaf(state.leafset, 0) && !Received(accepted, 0)
  {
    hide *;
    state := new SyncState();
    var db := new MwebCoinDatabase();
    var t := TipAt(1, 10, 0, ONE_LEAF);
    ghost var m := Started(t, state.View());
    var requests, remaining;
    r, requests, remaining, accepted := RunOnce(state, db, t, EMPTY_PEER, 100, 1);
    ChainIs(t);
    EmptyPeerCarriesNothing(accepted, 0);
    PassedEverything(m.leafset, ONE_LEAF, accepted, EMPTY_PEER, ResumeCursor(m, 1), m.cursor,
                     CursorAfter(m.cursor, accepted), r.Ok?);
    ViewIs(state);
    FinishedIs(t, ONE_LEAF);
    TheirLeaves(0);
  }

  // --- Cursors that hide leaves ---

  const LEAF_THREE := Reply(true, [Utxo(3, 7)])

  /** A peer that serves leaf 3, which is owned, once and then goes away. */
  const BRIEF_PEER :=
    Peer((n: nat, _: nat, _: nat) => if n == 0 then Ok(LEAF_THREE) else Err(PeerFailed(0)), (_, _) => Accept,
         (u: Utxo) => Ok(u == Utxo(3, 7)), _ => true)

  lemma BriefPeerServesThree(start: nat, reply: Reply, size: nat)
    ensures Answers(BRIEF_PEER, start, reply) ==> reply == LEAF_THREE
    ensures start <= 3 ==> OpensWell(BRIEF_PEER, true, start, size)
  {
  }

  lemma {:induction false} BriefCursor(cursor: Option<nat>, accepted: seq<(nat, Reply)>)
    requires AnsweredBy(BRIEF_PEER, accepted) && accepted != []
    ensures CursorAfter(cursor, accepted) == Some(3) && !Covered(accepted, 5)
  {
    forall k | 0 <= k < |accepted| ensures accepted[k].1 == LEAF_THREE {
      BriefPeerServesThree(accepted[k].0, accepted[k].1, 0);
    }
  }

  /** A pass at a tip with leaves 0, 3 and 5 that is interrupted after leaf 3 keeps its output. */
  method InterruptedPass(state: SyncState, db: MwebCoinDatabase, t: Tip)
    requires db.Valid() && Served(t) && Headed(t) && t.leafset.value.1 == THREE_LEAVES
    requires Started(t, state.View()).cursor == None && Started(t, state.View()).leafset in {[], ONE_LEAF}
    modifies state, db
    ensures db.Valid() && Gains(BRIEF_PEER, old(db.coins), db.coins) && Placed(db.coins, Utxo(3, 7))
    ensures state.View() == Started(t, old(state.View())).(pendingTip := Some(t.hash), cursor := Some(3))
  {
    hide *;
    ghost var m, coins := Started(t, state.View()), db.coins;
    ghost var first := if m.leafset == [] then 0 else 3;
    ChainIs(t);
    forall leaf { TheirLeaves(leaf); }
    BriefPeerServesThree(first, LEAF_THREE, EffectiveBatchSize(100));
    FirstOfThree(m.leafset, first);
    var d := DiffLeafsets(if Rewinds(t, state.View()) then [] else state.leafset, THREE_LEAVES);
    ViewIs(state);
    StartedSame(t, state.View());
    var outcome, requests, remaining;
    ghost var accepted;
    outcome, requests, remaining, accepted := RunOnce(state, db, t, BRIEF_PEER, 100, 1);
    NoCursorNoResume(m, t.hash);
    PassedEverything(m.leafset, THREE_LEAVES, accepted, BRIEF_PEER, None, None, CursorAfter(None, accepted),
                     outcome.Ok?);
    BriefCursor(m.cursor, accepted);
    LeafFiveMissing(m.leafset, accepted);
    BriefKept(d, m.leafset, accepted, db.coins);
  }

  lemma BriefKept(d: LeafsetDiff, saved: seq<Byte>, accepted: seq<(nat, Reply)>, coins: map<OutputId, Coin>)
    requires IsDiff(d, saved, THREE_LEAVES) && saved in {[], ONE_LEAF}
    requires AnsweredBy(BRIEF_PEER, accepted) && accepted != [] && AllKept(BRIEF_PEER, accepted, d.added, coins)
    ensures Placed(coins, Utxo(3, 7))
  {
    hide Answers, HasLeaf;
    TheirLeaves(3);
    AddedIsDiff(d, saved, THREE_LEAVES);
    BriefPeerServesThree(accepted[0].0, accepted[0].1, 0);
    var entries := AddedEntries(accepted[0].1.utxos, d.added);
    assert Kept(BRIEF_PEER, entries, d.added, coins) && Utxo(3, 7) in accepted[0].1.utxos;
    assert Adds(saved, THREE_LEAVES, 3);
    assert Utxo(3, 7) in entries && Holds(BRIEF_PEER, coins, 7, d.added);
  }

  lemma FirstOfThree(saved: seq<Byte>, first: nat)
    requires saved in {[], ONE_LEAF} && first == if saved == [] then 0 else 3
    ensures FirstLeft(saved, THREE_LEAVES, None, first)
  {
    forall leaf { TheirLeaves(leaf); }
    hide HasLeaf;
  }

  lemma NoCursorNoResume(m: Marks, tip: Hash)
    requires m.cursor == None
    ensures ResumeCursor(m, tip) == None
  {
  }

  lemma LeafFiveMissing(saved: seq<Byte>, accepted: seq<(nat, Reply)>)
    requires saved in {[], ONE_LEAF} && !Covered(accepted, 5)
    ensures !Through(saved, THREE_LEAVES, None, accepted, None)
  {
    TheirLeaves(5);
    assert Adds(saved, THREE_LEAVES, 5);
  }

  /** Everything added lies at or below the cursor, so the pass succeeds without a request. */
  lemma NothingLeft(
    saved: seq<Byte>, accepted: seq<(nat, Reply)>, peer: Peer, after: Option<nat>, ok: bool)
    requires DownloadOutcome(true, saved, TWO_LEAVES, accepted, peer, 100, Some(3), Some(3), after, ok)
    ensures ok && accepted == []
  {
    forall leaf { TheirLeaves(leaf); }
    hide HasLeaf;
  }

  /** A pass at leaves 0 and 1 that resumes from leaf 3 succeeds without one accepted reply. */
  method SkippingPass(state: SyncState, db: MwebCoinDatabase, t: Tip, peer: Peer)
    returns (r: Result<SyncResult, SyncError>, ghost accepted: seq<(nat, Reply)>)
    requires db.Valid() && Served(t) && Headed(t) && t.leafset.value.1 == TWO_LEAVES
    requires Started(t, state.View()).cursor == Some(3) && ResumeCursor(Started(t, state.View()), t.hash) == Some(3)
    modifies state, db
    ensures r.Ok? && accepted == [] && state.leafset == TWO_LEAVES && HasLeaf(state.leafset, 1)
  {
    hide *;
    ghost var m := Started(t, state.View());
    ChainIs(t);
    var requests, remaining;
    r, requests, remaining, accepted := RunOnce(state, db, t, peer, 100, 1);
    NothingLeft(m.leafset, accepted, peer, CursorAfter(Some(3), accepted), r.Ok?);
    ViewIs(state);
    FinishedIs(t, TWO_LEAVES);
    TheirLeaves(1);
  }

  /**
    A first sync is interrupted after leaf 3 at block 2, and block 3 with leaves 0 and 1 takes its
    place. The next pass succeeds with any peer and without one accepted reply, although leaf 1 is new.
   */
  method FirstSyncSkipsLeaf(peer: Peer)
    returns (state: SyncState, ghost before: Marks, r: Result<SyncResult, SyncError>, ghost accepted: seq<(nat, Reply)>)
    ensures before == NEW_MARKS.(pendingTip := Some(2), cursor := Some(3)) && !HasLeaf(THREE_LEAVES, 1)
    ensures r.Ok? && accepted == [] && HasLeaf(state.leafset, 1) && !HasLeaf(before.leafset, 1)
  {
    state := new SyncState();
    var db := new MwebCoinDatabase();
    InterruptedPass(state, db, TipAt(2, 11, 0, THREE_LEAVES));
    before := state.View();
    TheirLeaves(1);
    r, accepted := SkippingPass(state, db, TipAt(3, 11, 0, TWO_LEAVES), peer);
  }

  /**
    The same at one and the same block, once its header is not anchored: another peer serves it with
    other roots and with leaves 0 and 1. The cursor counts as left at this tip, and is still foreign.
   */
  method SameTipSkipsLeaf(peer: Peer)
    returns (state: SyncState, ghost before: Marks, r: Result<SyncResult, SyncError>, ghost accepted: seq<(nat, Reply)>)
    ensures before == NEW_MARKS.(pendingTip := Some(2), cursor := Some(3)) && !HasLeaf(THREE_LEAVES, 1)
    ensures state.tipHash == before.pendingTip
    ensures Foreign(TipAt(2, 11, 1, TWO_LEAVES), before, ChainOf(TipAt(2, 11, 0, THREE_LEAVES)))
    ensures r.Ok? && accepted == [] && HasLeaf(state.leafset, 1) && !HasLeaf(before.leafset, 1)
  {
    state := new SyncState();
    var db := new MwebCoinDatabase();
    InterruptedPass(state, db, TipAt(2, 11, 0, THREE_LEAVES));
    before := state.View();
    TheirLeaves(1);
    var requests, remaining;
    hide HasLeaf, DownloadOutcome;
    r, requests, remaining, accepted := RunOnce(state, db, TipAt(2, 11, 1, TWO_LEAVES), peer, 100, 1);
    NothingLeft([], accepted, peer, CursorAfter(Some(3), accepted), r.Ok?);
  }

  /**
    The same after a finished sync: block 1 is saved with leaf 0, a pass at block 2 is interrupted
    after leaf 3, and block 3 takes the place of block 2 and adds leaf 1. After an outage at block 3,
    a pass with any peer succeeds without one accepted reply.
   */
  method StaleCursorSkipsLeaf(peer: Peer)
    returns (state: SyncState, ghost before: Marks, r: Result<SyncResult, SyncError>, ghost accepted: seq<(nat, Reply)>)
    ensures before == Marks(Some(1), Some(10), ONE_LEAF, Some(2), Some(3)) && !HasLeaf(THREE_LEAVES, 1)
    ensures r.Ok? && accepted == [] && HasLeaf(state.leafset, 1) && !HasLeaf(before.leafset, 1)
  {
    state := new SyncState();
    var db := new MwebCoinDatabase();
    SyncedPass(state, db, TipAt(1, 10, 0, ONE_LEAF));
    InterruptedPass(state, db, TipAt(2, 11, 0, THREE_LEAVES));
    before := state.View();
    OutagePass(state, db, TipAt(3, 11, 0, TWO_LEAVES));
    TheirLeaves(1);
    r, accepted := SkippingPass(state, db, TipAt(3, 11, 0, TWO_LEAVES), peer);
  }

  /** A first pass with a peer that serves everything and nothing owned. */
  method SyncedPass(state: SyncState, db: MwebCoinDatabase, t: Tip)
    requires db.Valid() && Served(t) && Headed(t)
    modifies state, db
    ensures db.Valid() && state.View() == Finished(t, t.leafset.value.1)
    ensures Gains(STEADY_PEER, old(db.coins), db.coins)
  {
    hide *;
    ChainIs(t);
    ghost var m := Started(t, state.View());
    SteadyPeerReliable(true);
    var outcome, requests, remaining;
    ghost var accepted;
    outcome, requests, remaining, accepted := RunOnce(state, db, t, STEADY_PEER, 100, 1);
    PassedEverything(m.leafset, t.leafset.value.1, accepted, STEADY_PEER, ResumeCursor(m, t.hash), m.cursor,
                     CursorAfter(m.cursor, accepted), outcome.Ok?);
  }

  /** A pass with nobody to ask, when leaf 1 is to be fetched from the start. */
  method OutagePass(state: SyncState, db: MwebCoinDatabase, t: Tip)
    requires db.Valid() && Served(t) && Headed(t) && t.leafset.value.1 == TWO_LEAVES
    requires Started(t, state.View()).leafset == ONE_LEAF && ResumeCursor(Started(t, state.View()), t.hash) == None
    modifies state, db
    ensures db.Valid()
    ensures state.View() == Started(t, old(state.View())).(pendingTip := Some(t.hash))
  {
    hide *;
    ChainIs(t);
    ghost var m := Started(t, state.View());
    var outcome, requests, remaining;
    ghost var accepted;
    outcome, requests, remaining, accepted := RunOnce(state, db, t, DEAD_PEER, 100, 1);
    DeadPeerAnswersNothing(accepted);
    CursorAfterNothing(m.cursor);
    PassedEverything(ONE_LEAF, TWO_LEAVES, accepted, DEAD_PEER, None, m.cursor, m.cursor, outcome.Ok?);
    LeafOneMissing();
  }

  lemma LeafOneMissing()
    ensures !Through(ONE_LEAF, TWO_LEAVES, None, [], None)
  {
    TheirLeaves(1);
    assert Adds(ONE_LEAF, TWO_LEAVES, 1);
  }

  // --- A coin too many ---

  /**
    Block 1 is saved with leaf 0, and a pass at block 2 is interrupted after the owned leaf 3. Block 3
    takes its place without that leaf, and after a successful pass there the coin is still unspent.
   */
  method InterruptedCoinStays() returns (state: SyncState, db: MwebCoinDatabase, r: Result<SyncResult, SyncError>)
    ensures r.Ok? && 7 in db.coins && db.coins[7].leafIndex == Some(3)
    ensures !HasLeaf(state.leafset, 3) && !Agreement(db.coins, state.leafset)
  {
    state := new SyncState();
    db := new MwebCoinDatabase();
    SyncedPass(state, db, TipAt(1, 10, 0, ONE_LEAF));
    InterruptedPass(state, db, TipAt(2, 11, 0, THREE_LEAVES));
    r := StrandingPass(state, db, TipAt(3, 11, 0, TWO_LEAVES));
  }

  method StrandingPass(state: SyncState, db: MwebCoinDatabase, t: Tip) returns (r: Result<SyncResult, SyncError>)
    requires db.Valid() && Served(t) && Headed(t) && t.leafset.value.1 == TWO_LEAVES
    requires Started(t, state.View()).leafset == ONE_LEAF && Placed(db.coins, Utxo(3, 7))
    modifies state, db
    ensures db.Valid() && r.Ok? && Placed(db.coins, Utxo(3, 7))
    ensures !HasLeaf(state.leafset, 3) && !Agreement(db.coins, state.leafset)
  {
    hide *;
    ChainIs(t);
    ghost var m, coins := Started(t, state.View()), db.coins;
    SteadyPeerReliable(true);
    ViewIs(state);
    StartedSame(t, state.View());
    var d := DiffLeafsets(ONE_LEAF, TWO_LEAVES);
    var requests, remaining;
    ghost var accepted;
    r, requests, remaining, accepted := RunOnce(state, db, t, STEADY_PEER, 100, 1);
    PassedEverything(ONE_LEAF, TWO_LEAVES, accepted, STEADY_PEER, ResumeCursor(m, t.hash), m.cursor,
                     CursorAfter(m.cursor, accepted), r.Ok?);
    ViewIs(state);
    FinishedIs(t, TWO_LEAVES);
    Stranded(d, accepted, ResumeCursor(m, t.hash).Some?, coins, db.coins, r.value.found);
  }

  lemma Stranded(
    d: LeafsetDiff, accepted: seq<(nat, Reply)>, resumed: bool, before: map<OutputId, Coin>,
    after: map<OutputId, Coin>, found: seq<OutputId>)
    requires Accomplished(STEADY_PEER, accepted, d, ONE_LEAF, TWO_LEAVES, resumed, before, after, found)
    requires Placed(before, Utxo(3, 7))
    ensures Placed(after, Utxo(3, 7)) && !HasLeaf(TWO_LEAVES, 3) && !Agreement(after, TWO_LEAVES)
  {
    TheirLeaves(3);
    hide HasLeaf;
    assert 7 in after;
  }
}
