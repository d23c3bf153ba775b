/**
  A differential MWEB sync pass (crates/mweb/src/mweb_sync.rs, `SyncState` and `run_once`): compare
  leafsets, spend what disappeared, download what appeared, and save the new leafset.
 */
module MwebSyncs {
  import opened Wrappers
  import opened Leafsets
  import opened MwebCoins
  import opened MwebDownload

  type Hash = nat

  /** What a sync state remembers between passes, apart from sampled heights. */
  datatype Marks = Marks(
    tipHash: Option<Hash>, tipHeight: Option<nat>, leafset: seq<Byte>, pendingTip: Option<Hash>, cursor: Option<nat>)

  const NEW_MARKS := Marks(None, None, [], None, None)

  class SyncState {
    var tipHash: Option<Hash>
    var tipHeight: Option<nat>
    var leafset: seq<Byte>
    var heightMap: map<nat, nat>
    var pendingTip: Option<Hash>
    var cursor: Option<nat>

    function View(): Marks
      reads this
    {
      Marks(tipHash, tipHeight, leafset, pendingTip, cursor)
    }

    constructor ()
      ensures View() == NEW_MARKS && heightMap == map[]
    {
      tipHash, tipHeight, leafset, heightMap, pendingTip, cursor := None, None, [], map[], None, None;
    }

    /** `invalidate_leafset` */
    method InvalidateLeafset()
      modifies this`leafset, this`tipHash, this`pendingTip, this`cursor
      ensures View() == NEW_MARKS.(tipHeight := tipHeight)
    {
      leafset, tipHash := [], None;
      ClearResume();
    }

    /** `clear_utxo_resume` */
    method ClearResume()
      modifies this`pendingTip, this`cursor
      ensures pendingTip == None && cursor == None
    {
      pendingTip, cursor := None, None;
    }
  }

  /** What a pass uses of an MWEB header: the number of leaves, and what the roots commit to. */
  datatype Header = Header(leaves: nat, roots: nat)

  /** The chain the caller trusts, and what the peer serves for its tip: a header unless the mode is `Trusted`. */
  datatype Tip = Tip(
    hash: Hash,
    height: nat,
    hashAt: nat -> Option<Hash>,
    sampled: map<nat, nat>,
    header: Result<Option<Header>, SyncError>,
    leafset: Result<(Hash, seq<Byte>), SyncError>,
    leafsetVerifies: bool)

  /** The previous tip is still on the chain. */
  predicate ExtendsPrevious(t: Tip, m: Marks) {
    && m.tipHash.Some? && m.tipHeight.Some? && m.tipHeight.value <= t.height
    && t.hashAt(m.tipHeight.value) == m.tipHash
  }

  function Sub(a: nat, b: nat): (r: nat)
    ensures b <= a ==> r + b == a
    ensures b > a ==> r == 0
  {
    if a < b then 0 else a - b
  }

  // --- Coins and leafsets ---

  /** Every unspent coin with a leaf index has its leaf in the leafset. */
  ghost predicate Agreement(coins: map<OutputId, Coin>, leafset: seq<Byte>) {
    forall id :: id in coins && coins[id].leafIndex.Some? ==> HasLeaf(leafset, coins[id].leafIndex.value)
  }

  ghost predicate DistinctLeaves(coins: map<OutputId, Coin>) {
    forall a, b ::
      a in coins && b in coins && coins[a].leafIndex.Some? && coins[a].leafIndex == coins[b].leafIndex ==> a == b
  }

  ghost predicate Remaining(before: map<OutputId, Coin>, after: map<OutputId, Coin>) {
    forall id :: id in after ==> id in before && after[id] == before[id]
  }

  /** No unspent coin has one of the leaves. */
  ghost predicate NoneOf(coins: map<OutputId, Coin>, leaves: seq<nat>) {
    forall id :: id in coins && coins[id].leafIndex.Some? ==> coins[id].leafIndex.value !in leaves
  }

  /** Spends one coin for each removed leaf: all of them if leaf indices are distinct. */
  method SpendRemoved(db: MwebCoinDatabase, removed: seq<nat>) returns (spent: seq<OutputId>)
    requires db.Valid()
    modifies db
    ensures db.Valid() && Remaining(old(db.coins), db.coins) && old(db.Known()) <= db.Known()
    ensures forall id :: id in old(db.coins) && id !in db.coins ==>
              id in spent && old(db.coins)[id].leafIndex.Some? && old(db.coins)[id].leafIndex.value in removed
    ensures DistinctLeaves(old(db.coins)) ==> NoneOf(db.coins, removed)
  {
    spent := [];
    for i := 0 to |removed|
      invariant db.Valid() && Remaining(old(db.coins), db.coins) && old(db.Known()) <= db.Known()
      invariant forall id :: id in old(db.coins) && id !in db.coins ==>
                  id in spent && old(db.coins)[id].leafIndex.Some? && old(db.coins)[id].leafIndex.value in removed
      invariant DistinctLeaves(old(db.coins)) ==> NoneOf(db.coins, removed[..i])
    {
      ghost var before := db.coins;
      var moved := db.MarkSpentByLeafIndex(removed[i]);
      if moved.Some? {
        spent := spent + [moved.value];
      }
      if DistinctLeaves(old(db.coins)) {
        LeafGone(old(db.coins), before, db.coins, removed, i);
      }
    }
    assert removed[..|removed|] == removed;
  }

  lemma LeafGone(all: map<OutputId, Coin>, before: map<OutputId, Coin>, after: map<OutputId, Coin>,
                 removed: seq<nat>, i: nat)
    requires i < |removed| && DistinctLeaves(all) && Remaining(all, before) && Remaining(before, after)
    requires NoneOf(before, removed[..i])
    requires (after == before && forall id :: id in before ==> before[id].leafIndex != Some(removed[i]))
          || (exists gone :: gone in before && before[gone].leafIndex == Some(removed[i]) && after == before - {gone})
    ensures NoneOf(after, removed[..i + 1])
  {
    forall id | id in after && after[id].leafIndex.Some? ensures after[id].leafIndex.value !in removed[..i + 1] {
      assert after[id].leafIndex.value !in removed[..i];
      assert removed[..i + 1] == removed[..i] + [removed[i]];
    }
  }

  /** Every coin with a leaf index carries the height its leaf is dated at; nothing else changes. */
  ghost predicate Redated(before: map<OutputId, Coin>, after: map<OutputId, Coin>, heightMap: map<nat, nat>, tip: nat) {
    && after.Keys == before.Keys
    && forall id :: id in after ==>
         && after[id] == before[id].(height := after[id].height)
         && match before[id].leafIndex
            case Some(leaf) => after[id].height.Some? && Dates(heightMap, leaf, tip, after[id].height.value)
            case None => after[id].height == before[id].height
  }

  method Redate(db: MwebCoinDatabase, heightMap: map<nat, nat>, tip: nat)
    requires db.Valid()
    modifies db`coins
    ensures db.Valid() && Redated(old(db.coins), db.coins, heightMap, tip) && old(db.Known()) <= db.Known()
  {
    var rest := db.coins.Keys;
    while rest != {}
      invariant db.Valid() && rest <= old(db.coins).Keys == db.coins.Keys
      invariant forall id :: id in rest ==> db.coins[id] == old(db.coins)[id]
      invariant forall id :: id in db.coins && id !in rest ==>
                  && db.coins[id] == old(db.coins)[id].(height := db.coins[id].height)
                  && match old(db.coins)[id].leafIndex
                     case Some(leaf) => db.coins[id].height.Some?
                         && Dates(heightMap, leaf, tip, db.coins[id].height.value)
                     case None => db.coins[id].height == old(db.coins)[id].height
    {
      var id :| id in rest;
      var coin := db.coins[id];
      if coin.leafIndex.Some? {
        var height := DateLeafIndex(heightMap, coin.leafIndex.value, tip);
        if coin.height != Some(height) {
          var _ := db.SetBlockHeight(id, height);
        }
      }
      rest := rest - {id};
    }
  }

  /** After a first sync, a coin is gone if its leaf is; one without a leaf, if a full download missed it. */
  predicate Gone(id: OutputId, leafIndex: Option<nat>, leafset: seq<Byte>, fetched: set<OutputId>, resumed: bool) {
    match leafIndex
    case Some(leaf) => !HasLeaf(leafset, leaf)
    case None => id !in fetched && !resumed
  }

  ghost predicate Cleaned(
    before: map<OutputId, Coin>, after: map<OutputId, Coin>, leafset: seq<Byte>, fetched: set<OutputId>, resumed: bool)
  {
    forall id :: id in after <==> id in before && !Gone(id, before[id].leafIndex, leafset, fetched, resumed)
  }

  method SpendGone(db: MwebCoinDatabase, leafset: seq<Byte>, fetched: set<OutputId>, resumed: bool,
                   spentBefore: seq<OutputId>)
    returns (spent: seq<OutputId>)
    requires db.Valid()
    modifies db
    ensures db.Valid() && old(db.Known()) <= db.Known()
    ensures Cleaned(old(db.coins), db.coins, leafset, fetched, resumed) && Remaining(old(db.coins), db.coins)
    ensures forall id :: id in spent <==> id in spentBefore || (id in old(db.coins) && id !in db.coins)
  {
    spent := spentBefore;
    var rest := db.coins.Keys;
    while rest != {}
      invariant db.Valid() && rest <= old(db.coins).Keys && Remaining(old(db.coins), db.coins)
      invariant old(db.Known()) <= db.Known()
      invariant forall id :: id in db.coins <==>
                  && id in old(db.coins)
                  && (id in rest || !Gone(id, old(db.coins)[id].leafIndex, leafset, fetched, resumed))
      invariant forall id :: id in spent <==> id in spentBefore || (id in old(db.coins) && id !in db.coins)
    {
      var id :| id in rest;
      if Gone(id, db.coins[id].leafIndex, leafset, fetched, resumed) {
        var moved := db.MarkSpent(id);
        if moved && id !in spent {
          spent := spent + [id];
        }
      }
      rest := rest - {id};
    }
  }

  // --- The start of a pass ---

  predicate TipShorter(t: Tip, m: Marks) {
    m.tipHeight.Some? && t.height + 1 < m.tipHeight.value
  }

  /** The tip went back or changed, and the previous one is not on the chain any more. */
  predicate Rewinds(t: Tip, m: Marks) {
    || TipShorter(t, m)
    || (m.tipHash.Some? && m.tipHash.value != t.hash
        && !(m.tipHeight.Some? && m.tipHeight.value <= t.height && t.hashAt(m.tipHeight.value) == m.tipHash))
  }

  /** What a pass starts from: after a rewind nothing is left but the height. */
  function Started(t: Tip, m: Marks): Marks {
    if Rewinds(t, m) then NEW_MARKS.(tipHeight := m.tipHeight) else m
  }

  function Finished(t: Tip, served: seq<Byte>): Marks {
    Marks(Some(t.hash), Some(t.height), served, None, None)
  }

  /** Where an interrupted download resumes: at the same tip, or anywhere in a first sync. */
  function ResumeCursor(m: Marks, tip: Hash): Option<nat> {
    if m.cursor.None? then None
    else if m.leafset == [] then m.cursor
    else if m.pendingTip == Some(tip) then m.cursor
    else None
  }

  /** The peer serves what a pass needs before it downloads. */
  predicate Served(t: Tip) {
    t.header.Ok? && t.leafset.Ok? && t.leafset.value.0 == t.hash && t.leafsetVerifies
  }

  /** There is a header that replies are verified against. */
  predicate Headed(t: Tip) {
    t.header.Ok? && t.header.value.Some?
  }

  ghost predicate SameLeaves(before: map<OutputId, Coin>, after: map<OutputId, Coin>) {
    after.Keys == before.Keys && forall id :: id in after ==> after[id].leafIndex == before[id].leafIndex
  }

  /** From where heights are forgotten: above a shorter tip, or ten blocks before a changed one. */
  function RewindHeight(t: Tip, m: Marks): nat {
    if TipShorter(t, m) then t.height + 1 else Sub(t.height, 10) + 1
  }

  /** The sampled heights that survive a rewind. */
  function HeightsBelow(heightMap: map<nat, nat>, t: Tip, fineWindow: nat): map<nat, nat> {
    var horizon := Sub(t.height, if fineWindow > 1 then fineWindow else 1);
    map h | h in heightMap && h < horizon :: heightMap[h]
  }

  /** The heights a pass dates with. */
  function HeightsWith(heightMap: map<nat, nat>, t: Tip): map<nat, nat> {
    var sampled := heightMap + t.sampled;
    if t.header.Ok? && t.header.value.Some? then sampled[t.height := t.header.value.value.leaves] else sampled
  }

  /** The heights a pass dates with, after a rewind or without one. */
  function HeightsAt(heightMap: map<nat, nat>, t: Tip, m: Marks, fineWindow: nat): map<nat, nat> {
    HeightsWith(if Rewinds(t, m) then HeightsBelow(heightMap, t, fineWindow) else heightMap, t)
  }

  lemma DisconnectedSameLeaves(coins: map<OutputId, Coin>, height: nat)
    ensures SameLeaves(coins, coins) && SameLeaves(coins, Disconnected(coins, height))
  {
  }

  /** What a reorganised chain invalidates is forgotten. */
  method Rewind(state: SyncState, db: MwebCoinDatabase, t: Tip, fineWindow: nat)
    requires db.Valid()
    modifies state, db
    ensures db.Valid() && SameLeaves(old(db.coins), db.coins) && old(db.Known()) <= db.Known()
    ensures Rewinds(t, old(state.View())) ==>
              && db.coins == Disconnected(old(db.coins), RewindHeight(t, old(state.View())))
              && db.spent == Disconnected(old(db.spent), RewindHeight(t, old(state.View())))
              && state.heightMap == HeightsBelow(old(state.heightMap), t, fineWindow)
    ensures !Rewinds(t, old(state.View())) ==>
              && db.coins == old(db.coins) && db.spent == old(db.spent)
              && state.heightMap == old(state.heightMap)
    ensures state.View() == Started(t, old(state.View()))
  {
    hide SameLeaves, Disconnected, Forgotten;
    DisconnectedSameLeaves(db.coins, RewindHeight(t, state.View()));
    DisconnectedKeys(db.coins, RewindHeight(t, state.View()));
    DisconnectedKeys(db.spent, RewindHeight(t, state.View()));
    var tipChanged := state.tipHash.Some? && state.tipHash.value != t.hash;
    var tipShorter := state.tipHeight.Some? && t.height + 1 < state.tipHeight.value;
    var extendsPrevious := !tipShorter && ExtendsPrevious(t, state.View());
    if (tipShorter || tipChanged) && !extendsPrevious {
      if tipShorter {
        db.DisconnectFrom(t.height + 1);
      } else {
        db.DisconnectFrom(Sub(t.height, 10) + 1);
      }
      state.InvalidateLeafset();
      var horizon := Sub(t.height, if fineWindow > 1 then fineWindow else 1);
      state.heightMap := map h | h in state.heightMap && h < horizon :: state.heightMap[h];
    }
  }

  lemma DisconnectedKeys(coins: map<OutputId, Coin>, height: nat)
    ensures Disconnected(coins, height).Keys == coins.Keys
  {
  }

  /** The start of a pass: forget what a reorganised chain invalidates, and sample heights. */
  method Prepare(state: SyncState, db: MwebCoinDatabase, t: Tip, fineWindow: nat)
    returns (r: Result<seq<Byte>, SyncError>)
    requires db.Valid()
    modifies state, db
    ensures db.Valid() && SameLeaves(old(db.coins), db.coins) && old(db.Known()) <= db.Known()
    ensures state.heightMap == HeightsAt(old(state.heightMap), t, old(state.View()), fineWindow)
    ensures Rewinds(t, old(state.View())) ==>
              && db.coins == Disconnected(old(db.coins), RewindHeight(t, old(state.View())))
              && db.spent == Disconnected(old(db.spent), RewindHeight(t, old(state.View())))
              && state.heightMap == HeightsWith(HeightsBelow(old(state.heightMap), t, fineWindow), t)
    ensures !Rewinds(t, old(state.View())) ==>
              && db.coins == old(db.coins) && db.spent == old(db.spent)
              && state.heightMap == HeightsWith(old(state.heightMap), t)
    ensures r.Ok? <==> Served(t)
    ensures r.Ok? ==> r.value == t.leafset.value.1
    ensures state.View() == Started(t, old(state.View()))
  {
    hide SameLeaves, Disconnected, Rewinds, Started, RewindHeight, HeightsBelow;
    Rewind(state, db, t, fineWindow);
    state.heightMap := state.heightMap + t.sampled;
    if t.header.Err? {
      return Err(t.header.error);
    }
    if t.header.value.Some? {
      state.heightMap := state.heightMap[t.height := t.header.value.value.leaves];
    }
    if t.leafset.Err? {
      return Err(t.leafset.error);
    }
    if t.leafset.value.0 != t.hash {
      return Err(WrongBlock);
    }
    if !t.leafsetVerifies {
      return Err(VerifyFailed(0));
    }
    return Ok(t.leafset.value.1);
  }

  lemma SameLeavesAgree(before: map<OutputId, Coin>, after: map<OutputId, Coin>, leafset: seq<Byte>)
    requires SameLeaves(before, after)
    ensures Agreement(before, leafset) <==> Agreement(after, leafset)
    ensures DistinctLeaves(before) ==> DistinctLeaves(after)
  {
  }

  lemma RedatedSameLeaves(before: map<OutputId, Coin>, after: map<OutputId, Coin>, heightMap: map<nat, nat>, tip: nat)
    requires Redated(before, after, heightMap, tip)
    ensures SameLeaves(before, after) && Dated(after, heightMap, tip)
  {
  }

  /** Every unspent coin with a leaf index carries the height its leaf is dated at. */
  ghost predicate Dated(coins: map<OutputId, Coin>, heightMap: map<nat, nat>, tip: nat) {
    forall id :: id in coins && coins[id].leafIndex.Some? ==>
      coins[id].height.Some? && Dates(heightMap, coins[id].leafIndex.value, tip, coins[id].height.value)
  }

  // --- The download of a pass ---

  /** The served leafset adds the leaf to the saved one. */
  predicate Adds(saved: seq<Byte>, served: seq<Byte>, leaf: nat) {
    HasLeaf(served, leaf) && !HasLeaf(saved, leaf)
  }

  predicate UpTo(cursor: Option<nat>, leaf: nat) {
    cursor.Some? && leaf <= cursor.value
  }

  lemma AddedIsDiff(d: LeafsetDiff, saved: seq<Byte>, served: seq<Byte>)
    requires IsDiff(d, saved, served)
    ensures Ascending(d.added) && forall leaf: nat :: leaf in d.added <==> Adds(saved, served, leaf)
  {
  }

  /** Every request that was answered started above the leaf. */
  ghost predicate StartAbove(accepted: seq<(nat, Reply)>, leaf: nat) {
    forall k :: 0 <= k < |accepted| ==> accepted[k].0 > leaf
  }

  /** The lowest added leaf that is left to fetch. */
  ghost predicate FirstLeft(saved: seq<Byte>, served: seq<Byte>, resume: Option<nat>, leaf: nat) {
    && Adds(saved, served, leaf) && !UpTo(resume, leaf)
    && forall l: nat :: Adds(saved, served, l) && l < leaf ==> UpTo(resume, l)
  }

  /** Every added leaf up to the bound was skipped by the resumed cursor or passed by a reply. */
  ghost predicate Through(
    saved: seq<Byte>, served: seq<Byte>, resume: Option<nat>, accepted: seq<(nat, Reply)>, bound: Option<nat>)
  {
    forall leaf: nat :: Adds(saved, served, leaf) && (bound.Some? ==> leaf <= bound.value) ==>
      UpTo(resume, leaf) || Covered(accepted, leaf)
  }

  /** The replies of a successful download with a header. */
  ghost predicate Downloaded(
    saved: seq<Byte>, served: seq<Byte>, resume: Option<nat>, accepted: seq<(nat, Reply)>)
  {
    && Steps(true, accepted) && (forall k :: 0 <= k < |accepted| ==> Adds(saved, served, accepted[k].0))
    && (resume.Some? ==> StartAbove(accepted, resume.value))
    && Through(saved, served, resume, accepted, None)
  }

  /** What a download owes its caller, whatever the peer does. */
  ghost predicate DownloadOutcome(
    headed: bool, saved: seq<Byte>, served: seq<Byte>, accepted: seq<(nat, Reply)>, peer: Peer, batchSize: nat,
    resume: Option<nat>, before: Option<nat>, after: Option<nat>, ok: bool)
  {
    && Steps(headed, accepted) && (forall k :: 0 <= k < |accepted| ==> Adds(saved, served, accepted[k].0))
    && (ok ==> Through(saved, served, resume, accepted, None))
    && (ok && headed ==> Downloaded(saved, served, resume, accepted))
    && (after == before || (after.Some? && Through(saved, served, resume, accepted, after)))
    && after == CursorAfter(before, accepted)
    && (resume.Some? ==> StartAbove(accepted, resume.value) && after.Some? && after.value >= resume.value)
    && ((forall leaf: nat :: Adds(saved, served, leaf) ==> UpTo(resume, leaf)) ==> ok && accepted == [])
    && (Yields(peer, headed) ==> ok)
    && (forall leaf ::
          FirstLeft(saved, served, resume, leaf) && OpensWell(peer, headed, leaf, EffectiveBatchSize(batchSize)) ==>
          accepted != [])
  }

  /** Everything before the leafset is saved: what was gained, and how far the cursor moved. */
  method DownloadAdded(
    state: SyncState, db: MwebCoinDatabase, t: Tip, peer: Peer, batchSize: nat, d: LeafsetDiff, ghost served: seq<Byte>)
    returns (
      r: Result<Progress, SyncError>, requests: nat, remaining: nat, resume: Option<nat>,
      ghost accepted: seq<(nat, Reply)>)
    requires db.Valid() && IsDiff(d, state.leafset, served)
    modifies state`pendingTip, state`cursor, db
    ensures db.Valid() && OnlyGained(peer, old(db.coins), db.coins, d.added) && old(db.Known()) <= db.Known()
    ensures GainedDated(old(db.coins), db.coins, state.heightMap, t.height)
    ensures resume == ResumeCursor(old(state.View()), t.hash)
    ensures state.pendingTip == Some(t.hash)
    ensures AllKept(peer, accepted, d.added, db.coins) && Asked(peer, d.added, accepted)
    ensures r.Ok? ==>
              && r.value.fetched == Seen(accepted, d.added) && Lists(r.value.found, Found(peer, accepted, d.added))
              && FromAccepted(peer, accepted, d.added, old(db.coins), db.coins)
    ensures requests <= 2 * remaining + Log2(EffectiveBatchSize(batchSize))
    ensures DownloadOutcome(Headed(t), old(state.leafset), served, accepted, peer, batchSize, resume,
              old(state.cursor), state.cursor, r.Ok?)
  {
    hide *;
    ghost var saved, cursor0 := state.leafset, state.cursor;
    AddedIsDiff(d, saved, served);
    resume := ResumeCursor(state.View(), t.hash);
    ResumeIsCursor(state.View(), t.hash);
    ViewIs(state);
    var start := 0;
    if resume.Some? {
      start := SkipUpTo(d.added, 0, resume.value);
    }
    remaining := |d.added| - start;
    state.pendingTip := Some(t.hash);
    var outcome, p;
    ghost var sizes;
    outcome, p, requests, accepted, sizes :=
      Download(db, peer, Headed(t), d.added, start, state.cursor, batchSize, state.heightMap, t.height);
    GatheredMeans(peer, Headed(t), d.added, start, cursor0, accepted, p, db.coins);
    state.cursor := p.cursor;
    AskedOfAll(peer, d.added, start, accepted);
    OutcomeThrough(saved, served, d.added, accepted, start, p.passed, resume, cursor0, p.cursor);
    OutcomeHolds(Headed(t), saved, served, accepted, peer, batchSize, d.added, start, resume, cursor0, p.cursor,
                 outcome.Ok?);
    if outcome.Err? {
      return Err(outcome.error), requests, remaining, resume, accepted;
    }
    return Ok(p), requests, remaining, resume, accepted;
  }

  lemma ResumeIsCursor(m: Marks, tip: Hash)
    ensures ResumeCursor(m, tip).Some? ==> ResumeCursor(m, tip) == m.cursor
  {
  }

  lemma GatheredMeans(
    peer: Peer, headed: bool, indices: seq<nat>, start: nat, cursor: Option<nat>, accepted: seq<(nat, Reply)>,
    p: Progress, coins: map<OutputId, Coin>)
    requires Gathered(peer, headed, indices, start, cursor, accepted, p, coins)
    ensures start <= |indices| && Passed(indices, start, p.passed, accepted) && Asked(peer, indices[start..], accepted)
    ensures AllKept(peer, accepted, indices, coins) && p.fetched == Seen(accepted, indices)
    ensures Lists(p.found, Found(peer, accepted, indices)) && Steps(headed, accepted)
    ensures p.cursor == CursorAfter(cursor, accepted) && CursorMoved(cursor, p.cursor, indices, start, p.passed)
  {
  }

  lemma AskedOfAll(peer: Peer, added: seq<nat>, start: nat, accepted: seq<(nat, Reply)>)
    requires start <= |added| && Asked(peer, added[start..], accepted)
    ensures Asked(peer, added, accepted)
    ensures forall k :: 0 <= k < |accepted| ==> accepted[k].0 in added[start..]
  {
    forall k | 0 <= k < |accepted| ensures accepted[k].0 in added {
      assert accepted[k].0 in added[start..];
    }
  }

  /** What was skipped and what was passed is all that lies at or below the new cursor. */
  lemma OutcomeThrough(
    saved: seq<Byte>, served: seq<Byte>, added: seq<nat>, accepted: seq<(nat, Reply)>, start: nat, passed: nat,
    resume: Option<nat>, before: Option<nat>, after: Option<nat>)
    requires forall leaf: nat :: leaf in added <==> Adds(saved, served, leaf)
    requires start <= |added| && Passed(added, start, passed, accepted)
    requires if resume.Some? then forall k :: 0 <= k < start ==> added[k] <= resume.value else start == 0
    requires CursorMoved(before, after, added, start, passed)
    ensures passed == |added| ==> Through(saved, served, resume, accepted, None)
    ensures after == before || (after.Some? && Through(saved, served, resume, accepted, after))
  {
    hide Adds, Covered;
    forall leaf: nat | Adds(saved, served, leaf)
      ensures UpTo(resume, leaf) || Covered(accepted, leaf)
           || (passed < |added| && (after == before || leaf > after.value))
    {
      assert leaf in added;
      var k :| 0 <= k < |added| && added[k] == leaf;
    }
  }

  lemma OutcomeHolds(
    headed: bool, saved: seq<Byte>, served: seq<Byte>, accepted: seq<(nat, Reply)>, peer: Peer, batchSize: nat,
    added: seq<nat>, start: nat, resume: Option<nat>, before: Option<nat>, after: Option<nat>, ok: bool)
    requires Ascending(added) && start <= |added| && forall leaf: nat :: leaf in added <==> Adds(saved, served, leaf)
    requires if resume.Some? then resume == before && forall k :: 0 <= k < start ==> added[k] <= resume.value
             else start == 0
    requires resume.Some? ==> forall k :: start <= k < |added| ==> added[k] > resume.value
    requires Steps(headed, accepted)
    requires ok ==> Through(saved, served, resume, accepted, None)
    requires after == before || (after.Some? && Through(saved, served, resume, accepted, after))
    requires after == CursorAfter(before, accepted)
    requires after == before || (start < |added| && after.Some? && added[start] <= after.value)
    requires forall k :: 0 <= k < |accepted| ==> accepted[k].0 in added[start..]
    requires start == |added| || Yields(peer, headed) ==> ok
    requires start < |added| && OpensWell(peer, headed, added[start], EffectiveBatchSize(batchSize)) ==> accepted != []
    ensures DownloadOutcome(headed, saved, served, accepted, peer, batchSize, resume, before, after, ok)
  {
    hide Adds, Through, Yields, OpensWell, EffectiveBatchSize, CursorAfter, Steps;
    forall leaf | FirstLeft(saved, served, resume, leaf) ensures start < |added| && leaf == added[start] {
      assert leaf in added;
      var k :| 0 <= k < |added| && added[k] == leaf;
      var first: nat := added[start];
      assert first in added;
    }
    FirstIsLeft(saved, served, added, resume, start);
    if accepted != [] {
      assert accepted[0].0 in added[start..];
      assert start < |added|;
    }
    forall k | 0 <= k < |accepted|
      ensures (resume.Some? ==> accepted[k].0 > resume.value) && Adds(saved, served, accepted[k].0)
    {
      var i :| 0 <= i < |added| - start && added[start..][i] == accepted[k].0;
      assert added[start + i] == accepted[k].0;
      var leaf: nat := added[start + i];
      assert leaf in added;
    }
  }

  lemma FirstIsLeft(saved: seq<Byte>, served: seq<Byte>, added: seq<nat>, resume: Option<nat>, start: nat)
    requires start <= |added| && forall leaf: nat :: leaf in added <==> Adds(saved, served, leaf)
    requires resume.Some? ==> forall k :: start <= k < |added| ==> added[k] > resume.value
    ensures start < |added| ==> Adds(saved, served, added[start]) && !UpTo(resume, added[start])
  {
    hide Adds;
    if start < |added| {
      var leaf: nat := added[start];
      assert leaf in added;
    }
  }

  /** The end of a pass: date the coins, clean up after a first sync, and save the leafset. */
  method FinishPass(
    state: SyncState, db: MwebCoinDatabase, t: Tip, served: seq<Byte>, fetched: set<OutputId>, resumed: bool,
    spentBefore: seq<OutputId>)
    returns (spent: seq<OutputId>, ghost dated: map<OutputId, Coin>)
    requires db.Valid()
    modifies state, db
    ensures db.Valid() && Redated(old(db.coins), dated, state.heightMap, t.height) && Remaining(dated, db.coins)
    ensures old(db.Known()) <= db.Known() && state.heightMap == old(state.heightMap)
    ensures Dated(db.coins, state.heightMap, t.height)
    ensures if old(state.leafset) == []
            then Cleaned(dated, db.coins, served, fetched, resumed)
            else db.coins == dated
    ensures forall id :: id in spent <==> id in spentBefore || (id in old(db.coins) && id !in db.coins)
    ensures state.View() == Finished(t, served)
  {
    Redate(db, state.heightMap, t.height);
    dated := db.coins;
    RedatedSameLeaves(old(db.coins), dated, state.heightMap, t.height);
    spent := spentBefore;
    if state.leafset == [] {
      spent := SpendGone(db, served, fetched, resumed, spent);
    }
    state.tipHash, state.tipHeight, state.leafset := Some(t.hash), Some(t.height), served;
    state.ClearResume();
  }

  /** The leaves of the unspent coins are distinct and all in the saved leafset, or none is saved. */
  ghost predicate Consistent(coins: map<OutputId, Coin>, leafset: seq<Byte>) {
    leafset == [] || (DistinctLeaves(coins) && Agreement(coins, leafset))
  }

  /** Every unspent coin with a leaf index, apart from the given ones, has its leaf in one of the leafsets. */
  ghost predicate Within(coins: map<OutputId, Coin>, found: seq<OutputId>, saved: seq<Byte>, served: seq<Byte>) {
    forall id :: id in coins && coins[id].leafIndex.Some? && id !in found ==>
      HasLeaf(saved, coins[id].leafIndex.value) || HasLeaf(served, coins[id].leafIndex.value)
  }

  datatype SyncResult = SyncResult(found: seq<OutputId>, spent: seq<OutputId>)

  /** Every unspent coin was there before with its leaf, or is an owned output that the peer gave. */
  ghost predicate Gains(peer: Peer, before: map<OutputId, Coin>, after: map<OutputId, Coin>) {
    forall id :: id in after ==>
      || (id in before && after[id].leafIndex == before[id].leafIndex)
      || (after[id].leafIndex.Some? && Got(peer, Utxo(after[id].leafIndex.value, id)))
  }

  /** Every unspent coin was there before with its leaf, or is an owned added output of an accepted reply. */
  ghost predicate GainsAccepted(
    peer: Peer, accepted: seq<(nat, Reply)>, added: seq<nat>, before: map<OutputId, Coin>, after: map<OutputId, Coin>)
  {
    forall id :: id in after ==>
      || (id in before && after[id].leafIndex == before[id].leafIndex)
      || exists k :: 0 <= k < |accepted| && From(peer, AddedEntries(accepted[k].1.utxos, added), id, after[id])
  }

  /** What a successful pass has to show for the replies it accepted. */
  ghost predicate Accomplished(
    peer: Peer, accepted: seq<(nat, Reply)>, d: LeafsetDiff, saved: seq<Byte>, served: seq<Byte>, resumed: bool,
    before: map<OutputId, Coin>, after: map<OutputId, Coin>, found: seq<OutputId>)
  {
    && AllKept(peer, accepted, d.added, after)
    && Lists(found, Found(peer, accepted, d.added))
    && GainsAccepted(peer, accepted, d.added, before, after)
    && SpentFor(before, after, saved, served, Seen(accepted, d.added), resumed)
  }

  /** `run_once` */
  method RunOnce(
    state: SyncState, db: MwebCoinDatabase, t: Tip, peer: Peer, batchSize: nat, fineWindow: nat)
    returns (r: Result<SyncResult, SyncError>, requests: nat, remaining: nat, ghost accepted: seq<(nat, Reply)>)
    requires db.Valid()
    modifies state, db
    ensures db.Valid() && Gains(peer, old(db.coins), db.coins) && old(db.Known()) <= db.Known()
    ensures state.heightMap == HeightsAt(old(state.heightMap), t, old(state.View()), fineWindow)
    ensures requests <= 2 * remaining + Log2(EffectiveBatchSize(batchSize))
    ensures AnsweredBy(peer, accepted)
    // the state afterwards
    ensures !Served(t) ==>
              && r.Err? && accepted == [] && state.View() == Started(t, old(state.View()))
              && SameLeaves(old(db.coins), db.coins)
    ensures Served(t) ==>
              var m := Started(t, old(state.View()));
              state.View() == if r.Ok? then Finished(t, t.leafset.value.1)
                              else m.(pendingTip := Some(t.hash), cursor := CursorAfter(m.cursor, accepted))
    // the coins after any pass
    ensures Served(t) ==>
              forall id :: id in old(db.coins) && id !in db.coins && old(db.coins)[id].leafIndex.Some? ==>
                !HasLeaf(t.leafset.value.1, old(db.coins)[id].leafIndex.value)
    ensures Served(t) && DistinctLeaves(old(db.coins))
              && Within(old(db.coins), [], Started(t, old(state.View())).leafset, t.leafset.value.1) ==>
              Agreement(db.coins, t.leafset.value.1)
    ensures NewDated(old(db.coins), db.coins, state.heightMap, t.height)
    ensures Served(t) ==>
              forall d :: IsDiff(d, Started(t, old(state.View())).leafset, t.leafset.value.1) ==>
                  AllKept(peer, accepted, d.added, db.coins)
    // the coins after a successful pass
    ensures r.Ok? ==> Dated(db.coins, state.heightMap, t.height)
    ensures r.Ok? && Consistent(old(db.coins), Started(t, old(state.View())).leafset) ==>
              Agreement(db.coins, state.leafset)
    ensures r.Ok? && Started(t, old(state.View())).leafset != [] && DistinctLeaves(old(db.coins)) ==>
              (Agreement(db.coins, state.leafset) <==>
               Within(old(db.coins), r.value.found, Started(t, old(state.View())).leafset, state.leafset))
    ensures r.Ok? ==> forall id :: id in old(db.coins) && id !in db.coins ==> id in r.value.spent
    ensures r.Ok? ==>
              var m := Started(t, old(state.View()));
              forall d :: IsDiff(d, m.leafset, state.leafset) ==>
                  Accomplished(peer, accepted, d, m.leafset, state.leafset, ResumeCursor(m, t.hash).Some?,
                               old(db.coins), db.coins, r.value.found)
    // what was downloaded
    ensures Served(t) ==>
              var m := Started(t, old(state.View()));
              DownloadOutcome(Headed(t), m.leafset, t.leafset.value.1, accepted, peer, batchSize,
                              ResumeCursor(m, t.hash), m.cursor, CursorAfter(m.cursor, accepted), r.Ok?)
  {
    hide *;
    ghost var m := Started(t, state.View());
    ghost var coins0 := db.coins;
    NothingAnswered(peer);
    SameLeavesSame(peer, db.coins);
    var prepared := Prepare(state, db, t, fineWindow);
    if prepared.Err? {
      GainsSame(peer, coins0, db.coins);
      NothingNew(coins0, db.coins, state.heightMap, t.height);
      return Err(prepared.error), 0, 0, [];
    }
    var served := prepared.value;
    ghost var rewound := db.coins;
    ViewIs(state);
    var d := DiffLeafsets(state.leafset, served);
    var spent := SpendRemoved(db, d.removed);
    ghost var unspent, spent2 := db.coins, spent;
    var outcome, resume;
    outcome, requests, remaining, resume, accepted := DownloadAdded(state, db, t, peer, batchSize, d, served);
    AskedAnswered(peer, d.added, accepted);
    ghost var loaded := db.coins;
    SameLeavesSame(peer, loaded);
    LoadedDated(coins0, rewound, unspent, loaded, state.heightMap, t.height);
    OutcomeCursor(Headed(t), m.leafset, served, accepted, peer, batchSize, resume, m.cursor, state.cursor, outcome.Ok?);
    ghost var s := Stages(coins0, rewound, unspent, loaded, loaded, loaded);
    LoadedRan(peer, d, m.leafset, served, s);
    OneDiff(d, m.leafset, served);
    if outcome.Err? {
      GainsRan(peer, d, m.leafset, served, s);
      SpentRan(peer, d, m.leafset, served, s);
      AgreesRan(peer, d, m.leafset, served, s);
      ViewIs(state);
      return Err(outcome.error), requests, remaining, accepted;
    }
    ghost var dated, fetched, resumed, found := loaded, outcome.value.fetched, resume.Some?, outcome.value.found;
    spent, dated := FinishPass(state, db, t, served, outcome.value.fetched, resume.Some?, spent);
    RedatedSameLeaves(loaded, dated, state.heightMap, t.height);
    EndDated(coins0, loaded, dated, db.coins, state.heightMap, t.height);
    s := s.(dated := dated, end := db.coins);
    EndedRan(peer, d, m.leafset, served, s, fetched, resumed);
    GainsRan(peer, d, m.leafset, served, s);
    SpentRan(peer, d, m.leafset, served, s);
    SpentReported(peer, d, m.leafset, served, s, spent2, spent);
    AgreesRan(peer, d, m.leafset, served, s);
    PassAgrees(peer, d, m.leafset, served, s, fetched, resumed);
    AgreesExactly(peer, d, m.leafset, served, s, fetched, resumed, accepted, found);
    SpentForPass(peer, d, m.leafset, served, s, fetched, resumed);
    KeptToTheEnd(peer, accepted, d, m.leafset, served, s, fetched, resumed);
    GainedToTheEnd(peer, accepted, d, m.leafset, served, s);
    ForAnyDiff(peer, accepted, d, m.leafset, served, coins0, db.coins, resumed, found);
    ViewIs(state);
    FinishedIs(t, served);
    return Ok(SyncResult(outcome.value.found, spent)), requests, remaining, accepted;
  }

  /** Coins that were not there before carry the height that their leaf is dated at. */
  ghost predicate NewDated(
    before: map<OutputId, Coin>, after: map<OutputId, Coin>, heightMap: map<nat, nat>, tip: nat)
  {
    forall id :: id in after && id !in before ==> DatedByLeaf(after[id], heightMap, tip)
  }

  lemma NothingNew(before: map<OutputId, Coin>, after: map<OutputId, Coin>, heightMap: map<nat, nat>, tip: nat)
    requires SameLeaves(before, after)
    ensures NewDated(before, after, heightMap, tip)
  {
  }

  lemma LoadedDated(
    start: map<OutputId, Coin>, rewound: map<OutputId, Coin>, unspent: map<OutputId, Coin>,
    loaded: map<OutputId, Coin>, heightMap: map<nat, nat>, tip: nat)
    requires SameLeaves(start, rewound) && Remaining(rewound, unspent)
    requires GainedDated(unspent, loaded, heightMap, tip)
    ensures NewDated(start, loaded, heightMap, tip)
  {
  }

  lemma EndDated(
    start: map<OutputId, Coin>, loaded: map<OutputId, Coin>, dated: map<OutputId, Coin>, end: map<OutputId, Coin>,
    heightMap: map<nat, nat>, tip: nat)
    requires NewDated(start, loaded, heightMap, tip) && Redated(loaded, dated, heightMap, tip) && Remaining(dated, end)
    ensures NewDated(start, end, heightMap, tip)
  {
  }

  lemma ViewIs(state: SyncState)
    ensures state.View() == Marks(state.tipHash, state.tipHeight, state.leafset, state.pendingTip, state.cursor)
  {
  }

  lemma FinishedIs(t: Tip, served: seq<Byte>)
    ensures Finished(t, served) == Marks(Some(t.hash), Some(t.height), served, None, None)
  {
  }

  lemma OutcomeCursor(
    headed: bool, saved: seq<Byte>, served: seq<Byte>, accepted: seq<(nat, Reply)>, peer: Peer, batchSize: nat,
    resume: Option<nat>, before: Option<nat>, after: Option<nat>, ok: bool)
    requires DownloadOutcome(headed, saved, served, accepted, peer, batchSize, resume, before, after, ok)
    ensures after == CursorAfter(before, accepted)
  {
  }

  /** Every accepted reply was given by the peer. */
  ghost predicate AnsweredBy(peer: Peer, accepted: seq<(nat, Reply)>) {
    forall k :: 0 <= k < |accepted| ==> Answers(peer, accepted[k].0, accepted[k].1)
  }

  lemma AskedAnswered(peer: Peer, leaves: seq<nat>, accepted: seq<(nat, Reply)>)
    requires Asked(peer, leaves, accepted)
    ensures AnsweredBy(peer, accepted)
  {
  }

  lemma NothingAnswered(peer: Peer)
    ensures AnsweredBy(peer, [])
  {
  }

  // --- The coins over a pass ---

  /** The unspent coins at the start of a pass and after each of its steps. */
  datatype Stages = Stages(
    start: map<OutputId, Coin>, rewound: map<OutputId, Coin>, unspent: map<OutputId, Coin>,
    loaded: map<OutputId, Coin>, dated: map<OutputId, Coin>, end: map<OutputId, Coin>)

  /** How the steps follow each other, whatever the outcome. */
  ghost predicate Ran(peer: Peer, d: LeafsetDiff, saved: seq<Byte>, served: seq<Byte>, s: Stages) {
    && IsDiff(d, saved, served)
    && SameLeaves(s.start, s.rewound) && Remaining(s.rewound, s.unspent)
    && (forall id :: id in s.rewound && id !in s.unspent ==>
          s.rewound[id].leafIndex.Some? && s.rewound[id].leafIndex.value in d.removed)
    && (DistinctLeaves(s.rewound) ==> NoneOf(s.unspent, d.removed))
    && OnlyGained(peer, s.unspent, s.loaded, d.added)
    && SameLeaves(s.loaded, s.dated) && Remaining(s.dated, s.end)
    && (forall id :: id in s.dated && id !in s.end && s.dated[id].leafIndex.Some? ==>
          !HasLeaf(served, s.dated[id].leafIndex.value))
  }

  /** How a successful pass ends. */
  ghost predicate Ended(saved: seq<Byte>, served: seq<Byte>, s: Stages, fetched: set<OutputId>, resumed: bool) {
    if saved == [] then Cleaned(s.dated, s.end, served, fetched, resumed) else s.end == s.dated
  }

  lemma LoadedRan(peer: Peer, d: LeafsetDiff, saved: seq<Byte>, served: seq<Byte>, s: Stages)
    requires IsDiff(d, saved, served)
    requires SameLeaves(s.start, s.rewound) && Remaining(s.rewound, s.unspent)
    requires forall id :: id in s.rewound && id !in s.unspent ==>
               s.rewound[id].leafIndex.Some? && s.rewound[id].leafIndex.value in d.removed
    requires DistinctLeaves(s.rewound) ==> NoneOf(s.unspent, d.removed)
    requires OnlyGained(peer, s.unspent, s.loaded, d.added)
    requires SameLeaves(s.loaded, s.loaded) && Remaining(s.loaded, s.loaded) && s.dated == s.loaded == s.end
    ensures Ran(peer, d, saved, served, s)
  {
    hide IsDiff, HasLeaf, OnlyGained, DistinctLeaves, NoneOf, SameLeaves, Remaining;
  }

  /** The end of a pass without coins of leaves that are still there being dropped. */
  lemma EndedRan(
    peer: Peer, d: LeafsetDiff, saved: seq<Byte>, served: seq<Byte>, s: Stages, fetched: set<OutputId>, resumed: bool)
    requires Ran(peer, d, saved, served, s.(dated := s.loaded, end := s.loaded))
    requires SameLeaves(s.loaded, s.dated) && Remaining(s.dated, s.end)
    requires if saved == [] then Cleaned(s.dated, s.end, served, fetched, resumed) else s.end == s.dated
    ensures Ran(peer, d, saved, served, s) && Ended(saved, served, s, fetched, resumed)
  {
    hide IsDiff, HasLeaf, OnlyGained, DistinctLeaves, NoneOf, SameLeaves, Remaining;
  }

  lemma SameLeavesSame(peer: Peer, coins: map<OutputId, Coin>)
    ensures SameLeaves(coins, coins) && Remaining(coins, coins) && Gains(peer, coins, coins)
  {
  }

  lemma GainsSame(peer: Peer, before: map<OutputId, Coin>, after: map<OutputId, Coin>)
    requires SameLeaves(before, after)
    ensures Gains(peer, before, after)
  {
  }

  /** A coin that a pass leaves with the leaf it had after the download, and one that it had before. */
  lemma CoinRan(peer: Peer, d: LeafsetDiff, saved: seq<Byte>, served: seq<Byte>, s: Stages, id: OutputId)
    requires Ran(peer, d, saved, served, s)
    ensures id in s.end ==> id in s.dated && s.end[id] == s.dated[id]
    ensures id in s.end ==> id in s.loaded && s.end[id].leafIndex == s.loaded[id].leafIndex
    ensures id in s.unspent ==> id in s.start && s.unspent[id].leafIndex == s.start[id].leafIndex && id in s.loaded
    ensures id in s.start && id !in s.unspent ==>
              s.start[id].leafIndex.Some? && s.start[id].leafIndex.value in d.removed
  {
    hide HasLeaf, IsDiff, Got, DistinctLeaves, NoneOf;
    if id in s.end { assert id in s.dated.Keys; }
    if id in s.unspent { assert id in s.rewound.Keys; }
    if id in s.start { assert id in s.rewound.Keys; }
  }

  lemma GainsRan(peer: Peer, d: LeafsetDiff, saved: seq<Byte>, served: seq<Byte>, s: Stages)
    requires Ran(peer, d, saved, served, s)
    ensures Gains(peer, s.start, s.end)
  {
    hide HasLeaf, IsDiff, Got, DistinctLeaves, NoneOf, SameLeaves, Remaining;
    forall id | id in s.end
      ensures (id in s.start && s.end[id].leafIndex == s.start[id].leafIndex)
           || (s.end[id].leafIndex.Some? && Got(peer, Utxo(s.end[id].leafIndex.value, id)))
    {
      CoinRan(peer, d, saved, served, s, id);
    }
  }

  /** No coin is spent while its leaf is there. */
  lemma SpentRan(peer: Peer, d: LeafsetDiff, saved: seq<Byte>, served: seq<Byte>, s: Stages)
    requires Ran(peer, d, saved, served, s)
    ensures forall id :: id in s.start && id !in s.end && s.start[id].leafIndex.Some? ==>
              !HasLeaf(served, s.start[id].leafIndex.value)
  {
    hide HasLeaf, Got, DistinctLeaves, NoneOf;
    forall id | id in s.start && id !in s.end && s.start[id].leafIndex.Some?
      ensures !HasLeaf(served, s.start[id].leafIndex.value)
    {
      CoinRan(peer, d, saved, served, s, id);
      if id in s.unspent { assert id in s.dated.Keys; }
    }
  }

  /** Coins with distinct leaves in the saved or the served leafset end up in the served one. */
  lemma AgreesRan(peer: Peer, d: LeafsetDiff, saved: seq<Byte>, served: seq<Byte>, s: Stages)
    requires Ran(peer, d, saved, served, s)
    ensures DistinctLeaves(s.start) && Within(s.start, [], saved, served) ==> Agreement(s.end, served)
  {
    hide HasLeaf, Got;
    if DistinctLeaves(s.start) && Within(s.start, [], saved, served) {
      SameLeavesAgree(s.start, s.rewound, served);
      forall id | id in s.end && s.end[id].leafIndex.Some? ensures HasLeaf(served, s.end[id].leafIndex.value) {
        CoinRan(peer, d, saved, served, s, id);
        if s.end[id].leafIndex.value !in d.added {
          assert id in s.unspent && s.unspent[id].leafIndex.value !in d.removed;
        }
      }
    }
  }

  lemma PassAgrees(
    peer: Peer, d: LeafsetDiff, saved: seq<Byte>, served: seq<Byte>, s: Stages, fetched: set<OutputId>, resumed: bool)
    requires Ran(peer, d, saved, served, s) && Ended(saved, served, s, fetched, resumed)
    ensures Consistent(s.start, saved) ==> Agreement(s.end, served)
  {
    hide HasLeaf, DistinctLeaves, Got, IsDiff, OnlyGained, NoneOf, SameLeaves;
    if saved != [] && Consistent(s.start, saved) { AgreesRan(peer, d, saved, served, s); }
  }

  lemma FoundIff(peer: Peer, accepted: seq<(nat, Reply)>, added: seq<nat>, id: OutputId)
    ensures id in Found(peer, accepted, added)
       <==> exists k :: 0 <= k < |accepted| && id in Owned(peer, AddedEntries(accepted[k].1.utxos, added))
  {
    hide Owned, AddedEntries;
    if accepted != [] {
      var init := accepted[..|accepted| - 1];
      FoundIff(peer, init, added, id);
      if k :| 0 <= k < |init| && id in Owned(peer, AddedEntries(init[k].1.utxos, added)) {
        assert id in Owned(peer, AddedEntries(accepted[k].1.utxos, added));
      }
      if k :| 0 <= k < |accepted| && id in Owned(peer, AddedEntries(accepted[k].1.utxos, added)) {
        if k < |init| { assert id in Owned(peer, AddedEntries(init[k].1.utxos, added)); }
      }
    }
  }

  /** What was found is held at an added leaf, and what was not found was there before. */
  lemma FoundOrOld(
    peer: Peer, accepted: seq<(nat, Reply)>, added: seq<nat>, before: map<OutputId, Coin>, after: map<OutputId, Coin>,
    found: seq<OutputId>, id: OutputId)
    requires AllKept(peer, accepted, added, after) && Lists(found, Found(peer, accepted, added))
    requires FromAccepted(peer, accepted, added, before, after)
    ensures id in found ==> Holds(peer, after, id, added)
    ensures id !in found && id in after ==> id in before && after[id] == before[id]
  {
    hide AddedEntries, Holds, Found;
    FoundIff(peer, accepted, added, id);
    if k :| 0 <= k < |accepted| && id in Owned(peer, AddedEntries(accepted[k].1.utxos, added)) {
      assert Kept(peer, AddedEntries(accepted[k].1.utxos, added), added, after);
    }
    if id in after {
      if k :| 0 <= k < |accepted| && From(peer, AddedEntries(accepted[k].1.utxos, added), id, after[id]) {
        assert id in Owned(peer, AddedEntries(accepted[k].1.utxos, added));
      }
    }
  }

  /** After a successful pass the coins agree exactly if no coin was left alone by both leafsets. */
  lemma AgreesExactly(
    peer: Peer, d: LeafsetDiff, saved: seq<Byte>, served: seq<Byte>, s: Stages, fetched: set<OutputId>, resumed: bool,
    accepted: seq<(nat, Reply)>, found: seq<OutputId>)
    requires Ran(peer, d, saved, served, s) && Ended(saved, served, s, fetched, resumed)
    requires AllKept(peer, accepted, d.added, s.loaded) && Lists(found, Found(peer, accepted, d.added))
    requires FromAccepted(peer, accepted, d.added, s.unspent, s.loaded)
    ensures saved != [] && DistinctLeaves(s.start) ==>
              (Agreement(s.end, served) <==> Within(s.start, found, saved, served))
  {
    hide HasLeaf, AllKept, Lists, FromAccepted, Got, OnlyGained;
    if saved != [] && DistinctLeaves(s.start) {
      SameLeavesAgree(s.start, s.rewound, served);
      if Within(s.start, found, saved, served) {
        forall id | id in s.end && s.end[id].leafIndex.Some? ensures HasLeaf(served, s.end[id].leafIndex.value) {
          CoinRan(peer, d, saved, served, s, id);
          FoundOrOld(peer, accepted, d.added, s.unspent, s.loaded, found, id);
          if id !in found { assert s.unspent[id].leafIndex.value !in d.removed; }
        }
      }
      if Agreement(s.end, served) {
        forall id | id in s.start && s.start[id].leafIndex.Some? && id !in found
          ensures HasLeaf(saved, s.start[id].leafIndex.value) || HasLeaf(served, s.start[id].leafIndex.value)
        {
          CoinRan(peer, d, saved, served, s, id);
          FoundOrOld(peer, accepted, d.added, s.unspent, s.loaded, found, id);
          if id in s.unspent { assert id in s.end.Keys; }
        }
      }
    }
  }

  lemma SpentReported(
    peer: Peer, d: LeafsetDiff, saved: seq<Byte>, served: seq<Byte>, s: Stages, spent2: seq<OutputId>,
    spent: seq<OutputId>)
    requires Ran(peer, d, saved, served, s)
    requires forall id :: id in s.rewound && id !in s.unspent ==> id in spent2
    requires forall id :: id in spent <==> id in spent2 || (id in s.loaded && id !in s.end)
    ensures forall id :: id in s.start && id !in s.end ==> id in spent
  {
    hide HasLeaf, IsDiff, Got, DistinctLeaves, NoneOf, OnlyGained;
    forall id | id in s.start && id !in s.end ensures id in spent {
      CoinRan(peer, d, saved, served, s, id);
      assert id in s.rewound.Keys;
    }
  }

  /**
    A coin is only spent if its leaf is gone, and was there when a leafset is saved, or if it has no leaf
    and a first sync from the start did not see it; and after such a sync every coin without a leaf was seen.
   */
  ghost predicate SpentFor(
    before: map<OutputId, Coin>, after: map<OutputId, Coin>, saved: seq<Byte>, served: seq<Byte>, seen: set<OutputId>,
    resumed: bool)
  {
    && (forall id :: id in before && id !in after ==>
          match before[id].leafIndex
          case Some(leaf) => !HasLeaf(served, leaf) && (saved != [] ==> HasLeaf(saved, leaf))
          case None => saved == [] && !resumed && id !in seen)
    && (saved == [] && !resumed ==> forall id :: id in after && after[id].leafIndex.None? ==> id in seen)
  }

  lemma SpentForPass(
    peer: Peer, d: LeafsetDiff, saved: seq<Byte>, served: seq<Byte>, s: Stages, seen: set<OutputId>, resumed: bool)
    requires Ran(peer, d, saved, served, s) && Ended(saved, served, s, seen, resumed)
    ensures SpentFor(s.start, s.end, saved, served, seen, resumed)
  {
    hide HasLeaf, Got, DistinctLeaves, NoneOf, Ran;
    SpentRan(peer, d, saved, served, s);
    forall id | id in s.start && id !in s.end
      ensures s.start[id].leafIndex.None? ==> saved == [] && !resumed && id !in seen
      ensures s.start[id].leafIndex.Some? && saved != [] ==> HasLeaf(saved, s.start[id].leafIndex.value)
    {
      CoinRan(peer, d, saved, served, s, id);
      SpentLate(peer, d, saved, served, s, id);
    }
    if saved == [] {
      forall id | id in s.end && s.end[id].leafIndex.None? ensures !Gone(id, None, served, seen, resumed) {
        CoinRan(peer, d, saved, served, s, id);
      }
    }
  }

  /** A coin that is spent after the download was there until then; one without a leaf was not changed. */
  lemma SpentLate(peer: Peer, d: LeafsetDiff, saved: seq<Byte>, served: seq<Byte>, s: Stages, id: OutputId)
    requires Ran(peer, d, saved, served, s) && id in s.start && id !in s.end
    ensures id in s.unspent ==> id in s.dated && s.end != s.dated
    ensures id !in s.unspent ==> s.start[id].leafIndex.Some? && HasLeaf(saved, s.start[id].leafIndex.value)
    ensures s.start[id].leafIndex.None? ==> id in s.dated && s.dated[id].leafIndex.None?
  {
    hide Got, HasLeaf;
    CoinRan(peer, d, saved, served, s, id);
    if id in s.unspent { assert id in s.dated.Keys; }
  }

  /** Coins of added leaves are kept by dating and by the clean-up of a first sync. */
  lemma KeptToTheEnd(
    peer: Peer, accepted: seq<(nat, Reply)>, d: LeafsetDiff, saved: seq<Byte>, served: seq<Byte>, s: Stages,
    fetched: set<OutputId>, resumed: bool)
    requires Ran(peer, d, saved, served, s) && Ended(saved, served, s, fetched, resumed)
    requires AllKept(peer, accepted, d.added, s.loaded)
    ensures AllKept(peer, accepted, d.added, s.end)
  {
    hide HasLeaf, Got, DistinctLeaves, NoneOf, OnlyGained, Kept, AddedEntries;
    forall k | 0 <= k < |accepted| ensures Kept(peer, AddedEntries(accepted[k].1.utxos, d.added), d.added, s.end) {
      KeptEnded(peer, AddedEntries(accepted[k].1.utxos, d.added), d, saved, served, s);
    }
  }

  lemma KeptEnded(
    peer: Peer, entries: seq<Utxo>, d: LeafsetDiff, saved: seq<Byte>, served: seq<Byte>, s: Stages)
    requires Ran(peer, d, saved, served, s) && Kept(peer, entries, d.added, s.loaded)
    ensures Kept(peer, entries, d.added, s.end)
  {
    hide HasLeaf, Got, DistinctLeaves, NoneOf, OnlyGained;
    forall u | u in entries && peer.owned(u) == Ok(true) ensures Holds(peer, s.end, u.output, d.added) {
      assert u.output in s.dated.Keys;
    }
  }

  lemma GainedToTheEnd(
    peer: Peer, accepted: seq<(nat, Reply)>, d: LeafsetDiff, saved: seq<Byte>, served: seq<Byte>, s: Stages)
    requires Ran(peer, d, saved, served, s) && FromAccepted(peer, accepted, d.added, s.unspent, s.loaded)
    ensures GainsAccepted(peer, accepted, d.added, s.start, s.end)
  {
    hide AddedEntries, Ran;
    forall id | id in s.end
      ensures (id in s.start && s.end[id].leafIndex == s.start[id].leafIndex)
           || exists k :: 0 <= k < |accepted| && From(peer, AddedEntries(accepted[k].1.utxos, d.added), id, s.end[id])
    {
      CoinRan(peer, d, saved, served, s, id);
    }
  }

  lemma OneDiff(d: LeafsetDiff, saved: seq<Byte>, served: seq<Byte>)
    requires IsDiff(d, saved, served)
    ensures forall e :: IsDiff(e, saved, served) ==> e.added == d.added
  {
    forall e | IsDiff(e, saved, served) ensures e.added == d.added {
      AscendingUnique(e.added, d.added);
    }
  }

  lemma ForAnyDiff(
    peer: Peer, accepted: seq<(nat, Reply)>, d: LeafsetDiff, saved: seq<Byte>, served: seq<Byte>,
    before: map<OutputId, Coin>, after: map<OutputId, Coin>, resumed: bool, found: seq<OutputId>)
    requires IsDiff(d, saved, served) && AllKept(peer, accepted, d.added, after)
    requires Lists(found, Found(peer, accepted, d.added))
    requires GainsAccepted(peer, accepted, d.added, before, after)
    requires SpentFor(before, after, saved, served, Seen(accepted, d.added), resumed)
    ensures forall e :: IsDiff(e, saved, served) ==>
                Accomplished(peer, accepted, e, saved, served, resumed, before, after, found)
  {
    OneDiff(d, saved, served);
  }
}
