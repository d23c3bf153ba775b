/**
  Runs of MWEB sync passes (crates/mweb/src/mweb_sync.rs, repeated calls of `run_once`): when a cursor
  left by an interrupted download hides a leaf, and when everything is received in the end.
 */
module MwebRuns {
  import opened Wrappers
  import opened Leafsets
  import opened MwebCoins
  import opened MwebDownload
  import opened MwebSyncs
  import opened MwebLogs

  /** The cursor that a pass begins with covers something that no reply has passed for this chain. */
  ghost predicate CursorHides(outputs: Outputs, t: Tip, m: Marks, log: seq<Taken>)
    requires Served(t)
  {
    !CursorSound(Started(t, m).cursor, log, GoalOf(outputs, t, m))
  }

  // --- When a cursor hides a leaf ---

  /** The pass keeps a cursor that was left by a download of another chain. */
  predicate Foreign(t: Tip, m: Marks, left: Chain)
    requires Served(t)
  {
    m.cursor.Some? && !Rewinds(t, m) && ChainOf(t) != left
  }

  /** The cursor is at or above only what was passed of the chain it was left at. */
  ghost predicate Earned(outputs: Outputs, left: Chain, m: Marks, log: seq<Taken>) {
    m.cursor.Some? ==> PassedUpTo(log, Goal(outputs, left, m.leafset), m.cursor.value)
  }

  /** The cursor is foreign, and a leaf added at or below it has not been passed for this chain. */
  ghost predicate ForeignHides(outputs: Outputs, left: Chain, t: Tip, m: Marks, log: seq<Taken>)
    requires Served(t)
  {
    var goal := GoalOf(outputs, t, m);
    Foreign(t, m, left) && exists leaf: nat :: leaf <= m.cursor.value && goal.Adds(leaf) && !PassedAt(log, goal, leaf)
  }

  /** A cursor that was earned can only hide a leaf from another chain. */
  lemma GuardIsExact(outputs: Outputs, left: Chain, t: Tip, m: Marks, log: seq<Taken>)
    requires Served(t) && Earned(outputs, left, m, log)
    ensures CursorHides(outputs, t, m, log) <==> ForeignHides(outputs, left, t, m, log)
  {
    hide PassedAt, Goal.Adds;
  }

  /** The block fixes what is served for it, as it does once headers are anchored. */
  ghost predicate Anchored(chainAt: Hash -> Chain, t: Tip) {
    Served(t) ==> ChainOf(t) == chainAt(t.hash)
  }

  /** Then only the block at which the cursor was left matters, and that is the pending tip. */
  lemma AnchoredGuard(outputs: Outputs, chainAt: Hash -> Chain, t: Tip, m: Marks, log: seq<Taken>)
    requires Served(t) && Anchored(chainAt, t) && m.pendingTip.Some?
    requires Earned(outputs, chainAt(m.pendingTip.value), m, log)
    ensures CursorHides(outputs, t, m, log) <==>
            && m.cursor.Some? && m.pendingTip != Some(t.hash) && !Rewinds(t, m)
            && exists leaf: nat :: leaf <= m.cursor.value && GoalOf(outputs, t, m).Adds(leaf)
                   && !PassedAt(log, GoalOf(outputs, t, m), leaf)
  {
    hide PassedAt, Goal.Adds;
    GuardIsExact(outputs, chainAt(m.pendingTip.value), t, m, log);
  }

  /**
    A cursor left at a chain that is extended hides nothing, as long as leaves are only ever appended:
    up to the cursor the new chain adds no leaf that the old one did not have, with the same output.
   */
  lemma ExtensionHidesNothing(outputs: Outputs, left: Chain, t: Tip, m: Marks, log: seq<Taken>)
    requires Served(t) && Earned(outputs, left, m, log)
    requires m.cursor.Some? ==>
               forall leaf: nat :: leaf <= m.cursor.value && HasLeaf(ChainOf(t).leafset, leaf) ==>
                 HasLeaf(left.leafset, leaf) && outputs(left, leaf) == outputs(ChainOf(t), leaf)
    ensures !CursorHides(outputs, t, m, log)
  {
    hide HasLeaf, Accounts;
    if Started(t, m).cursor.Some? {
      var goal := GoalOf(outputs, t, m);
      var old' := Goal(outputs, left, m.leafset);
      forall leaf: nat | leaf <= m.cursor.value && goal.Adds(leaf) ensures PassedAt(log, goal, leaf) {
        assert old'.Adds(leaf);
        var k :| 0 <= k < |log| && Accounts(log[k].start, log[k].reply, leaf) && About(log[k], old', leaf);
        assert About(log[k], goal, leaf);
      }
    }
  }

  // --- Passes for one chain ---

  /** The goal stays the same over failing passes, and so does where they resume. */
  lemma StartedAgain(t: Tip, m: Marks, cursor: Option<nat>)
    ensures var m' := Started(t, m).(pendingTip := Some(t.hash), cursor := cursor);
            && Started(t, m').leafset == Started(t, m).leafset
            && (Started(t, m').cursor == None || Started(t, m').cursor == cursor)
            && (Started(t, m).cursor.Some? ==>
                  Started(t, m') == m' && ResumeCursor(Started(t, m'), t.hash) == cursor)
  {
  }

  /** Below the bound, the later log passed what the earlier one did. */
  ghost predicate SameUpTo(before: seq<Taken>, after: seq<Taken>, goal: Goal, bound: nat) {
    forall leaf: nat :: leaf <= bound ==> (PassedAt(after, goal, leaf) <==> PassedAt(before, goal, leaf))
  }

  lemma SameUpToStep(
    before: seq<Taken>, log: seq<Taken>, accepted: seq<(nat, Reply)>, goal: Goal, bound: nat, resume: nat)
    requires SameUpTo(before, log, goal, bound) && bound <= resume && StartAbove(accepted, resume)
    ensures SameUpTo(before, log + Tagged(goal.chain, accepted), goal, bound)
  {
    hide About;
    forall leaf: nat | leaf <= bound
      ensures PassedAt(log + Tagged(goal.chain, accepted), goal, leaf) <==> PassedAt(before, goal, leaf)
    {
      PassedAtAppend(log, Tagged(goal.chain, accepted), goal, leaf);
      TaggedPasses(accepted, goal, leaf);
    }
  }

  /** What a pass makes of the log. */
  ghost predicate LogOutcome(
    goal: Goal, log: seq<Taken>, taken: seq<Taken>, accepted: seq<(nat, Reply)>, resume: Option<nat>,
    before: Option<nat>, after: Option<nat>, ok: bool)
  {
    && (ok && CursorSound(resume, log, goal) ==> PassedAll(taken, goal))
    && (CursorSound(before, log, goal) ==> CursorSound(after, taken, goal))
    && (resume.Some? ==> StartAbove(accepted, resume.value) && after.Some? && after.value >= resume.value)
  }

  lemma OutcomeLogged(
    headed: bool, goal: Goal, log: seq<Taken>, accepted: seq<(nat, Reply)>, peer: Peer, batchSize: nat,
    resume: Option<nat>, before: Option<nat>, after: Option<nat>, ok: bool)
    requires DownloadOutcome(
               headed, goal.saved, goal.chain.leafset, accepted, peer, batchSize, resume, before, after, ok)
    requires resume == None || resume == before
    ensures LogOutcome(goal, log, log + Tagged(goal.chain, accepted), accepted, resume, before, after, ok)
    ensures Yields(peer, headed) || Reliable(peer, headed) ==> ok
    ensures headed && Orderly(log) ==> Orderly(log + Tagged(goal.chain, accepted))
  {
    hide Steps, Reliable, Yields, OpensWell, StartAbove, CursorAfter, MwebSyncs.Adds;
    ReliableYields(peer, headed);
    var tagged := Tagged(goal.chain, accepted);
    PassedStays(log, tagged, goal);
    OutcomeThroughLog(goal, log, accepted, resume, None);
    OutcomeThroughLog(goal, log, accepted, resume, after);
    if headed && Orderly(log) { OrderlyMore(log, accepted, goal.chain); }
  }

  lemma OutcomeThroughLog(
    goal: Goal, log: seq<Taken>, accepted: seq<(nat, Reply)>, resume: Option<nat>, bound: Option<nat>)
    ensures Through(goal.saved, goal.chain.leafset, resume, accepted, bound) && CursorSound(resume, log, goal) ==>
              if bound.Some? then PassedUpTo(log + Tagged(goal.chain, accepted), goal, bound.value)
              else PassedAll(log + Tagged(goal.chain, accepted), goal)
  {
    hide Covered, PassedAt;
    if Through(goal.saved, goal.chain.leafset, resume, accepted, bound) && CursorSound(resume, log, goal) {
      forall leaf: nat | goal.Adds(leaf) && (bound.Some? ==> leaf <= bound.value)
        ensures PassedAt(log + Tagged(goal.chain, accepted), goal, leaf)
      {
        PassedAtAppend(log, Tagged(goal.chain, accepted), goal, leaf);
        TaggedPasses(accepted, goal, leaf);
      }
    }
  }

  /** The cursor covers nothing unpassed but what the first cursor covered. */
  ghost predicate Beyond(cursor: Option<nat>, first: Option<nat>, log: seq<Taken>, goal: Goal) {
    forall leaf: nat :: goal.Adds(leaf) && UpTo(cursor, leaf) && !UpTo(first, leaf) ==> PassedAt(log, goal, leaf)
  }

  /** Nothing is left out but what the first cursor covered. */
  ghost predicate AllBeyond(first: Option<nat>, log: seq<Taken>, goal: Goal) {
    forall leaf: nat :: goal.Adds(leaf) && !UpTo(first, leaf) ==> PassedAt(log, goal, leaf)
  }

  lemma BeyondStep(
    headed: bool, goal: Goal, log: seq<Taken>, accepted: seq<(nat, Reply)>, peer: Peer, batchSize: nat,
    resume: Option<nat>, before: Option<nat>, after: Option<nat>, ok: bool, first: Option<nat>)
    requires DownloadOutcome(
               headed, goal.saved, goal.chain.leafset, accepted, peer, batchSize, resume, before, after, ok)
    requires (resume == None || resume == before) && Beyond(before, first, log, goal)
    ensures Beyond(after, first, log + Tagged(goal.chain, accepted), goal)
    ensures ok ==> AllBeyond(first, log + Tagged(goal.chain, accepted), goal)
  {
    hide Steps, Reliable, OpensWell, StartAbove, CursorAfter, MwebSyncs.Adds, Covered, PassedAt;
    forall leaf: nat | goal.Adds(leaf)
      ensures PassedAt(log, goal, leaf) || Covered(accepted, leaf) ==>
                PassedAt(log + Tagged(goal.chain, accepted), goal, leaf)
    {
      PassedAtAppend(log, Tagged(goal.chain, accepted), goal, leaf);
      TaggedPasses(accepted, goal, leaf);
    }
  }

  lemma BeyondStart(cursor: Option<nat>, log: seq<Taken>, goal: Goal)
    ensures Beyond(cursor, cursor, log, goal) && Beyond(None, cursor, log, goal)
  {
  }

  lemma BeyondNone(first: Option<nat>, log: seq<Taken>, goal: Goal)
    ensures Beyond(None, first, log, goal)
  {
  }

  lemma NoCursorSound(log: seq<Taken>, goal: Goal)
    ensures CursorSound(None, log, goal)
  {
  }

  lemma ResumesFromCursor(m: Marks, tip: Hash)
    ensures ResumeCursor(m, tip) == None || ResumeCursor(m, tip) == m.cursor
  {
  }

  /**
    What a successful run owes for the log at its end: nothing is left out but what lies at or below the
    cursor it began with and was not passed since. If that cursor hid nothing at the start, or if the first
    pass resumed from it, the start alone decides.
   */
  ghost predicate RunOutcome(
    goal: Goal, log: seq<Taken>, cursor: Option<nat>, hides: bool, resumes: bool)
  {
    && (PassedAll(log, goal) <==> CursorSound(cursor, log, goal))
    && (Orderly(log) ==> (ReceivedAll(log, goal) <==> CursorSound(cursor, log, goal) && NothingLost(log, goal)))
    && (!hides ==> PassedAll(log, goal))
    && (hides && resumes ==> !PassedAll(log, goal))
    && (!hides ==> (ReceivedAll(log, goal) <==> NothingLost(log, goal)))
    && (Orderly(log) && (resumes || !hides) ==> (ReceivedAll(log, goal) <==> !hides && NothingLost(log, goal)))
  }

  /**
    Passes for one chain, each with another peer, until one succeeds. A success means that every added
    leaf was passed exactly if those at or below the first cursor were, and they are unless it hid one at
    the start, which an earned one can only do if it is foreign. Every added leaf was received exactly if,
    besides, no reply missed one that no other brought.
   */
  method RunUntilDone(
    state: SyncState, db: MwebCoinDatabase, t: Tip, peers: seq<Peer>, batchSize: nat, fineWindow: nat,
    ghost outputs: Outputs, ghost left: Chain, ghost before: seq<Taken>)
    returns (done: bool, ghost log: seq<Taken>)
    requires db.Valid() && Served(t)
    modifies state, db
    ensures db.Valid() && GrewAt(before, log, ChainOf(t), peers)
    ensures Headed(t) && Orderly(before) ==> Orderly(log)
    ensures done ==> state.View() == Finished(t, t.leafset.value.1)
    ensures var m := old(state.View()); var goal := GoalOf(outputs, t, m);
            var resumes := ResumeCursor(Started(t, m), t.hash).Some?;
            && (done ==> RunOutcome(goal, log, Started(t, m).cursor, CursorHides(outputs, t, m, before), resumes))
            && (done && Earned(outputs, left, m, before) ==>
                  RunOutcome(goal, log, Started(t, m).cursor, ForeignHides(outputs, left, t, m, before), resumes))
            && (resumes ==> SameUpTo(before, log, goal, ResumeCursor(Started(t, m), t.hash).value))
  {
    hide *;
    log := before;
    ghost var m0 := state.View();
    ghost var goal := GoalOf(outputs, t, m0);
    ghost var resume0 := ResumeCursor(Started(t, m0), t.hash);
    RunBegins(outputs, t, m0, before);
    GrewNot(before, ChainOf(t), peers);
    if Earned(outputs, left, m0, before) { GuardIsExact(outputs, left, t, m0, before); }
    ghost var first := Started(t, m0).cursor;
    BeyondStart(first, before, goal);
    for i := 0 to |peers|
      invariant db.Valid() && Started(t, state.View()).leafset == goal.saved
      invariant GrewAt(before, log, ChainOf(t), peers) && (Headed(t) && Orderly(before) ==> Orderly(log))
      invariant !CursorHides(outputs, t, m0, before) ==> CursorSound(Started(t, state.View()).cursor, log, goal)
      invariant Beyond(Started(t, state.View()).cursor, first, log, goal)
      invariant resume0.Some? ==>
                  && Started(t, state.View()).cursor.Some?
                  && ResumeCursor(Started(t, state.View()), t.hash).Some?
                  && resume0.value <= ResumeCursor(Started(t, state.View()), t.hash).value
                  && SameUpTo(before, log, goal, resume0.value)
    {
      ghost var m := state.View();
      ghost var resume := ResumeCursor(Started(t, m), t.hash);
      ghost var cursor := Started(t, m).cursor;
      ResumesFromCursor(Started(t, m), t.hash);
      var outcome, requests, remaining;
      ghost var accepted;
      outcome, requests, remaining, accepted := RunOnce(state, db, t, peers[i], batchSize, fineWindow);
      ghost var after := CursorAfter(cursor, accepted);
      ghost var taken := log + Tagged(ChainOf(t), accepted);
      OutcomeLogged(Headed(t), goal, log, accepted, peers[i], batchSize, resume, cursor, after, outcome.Ok?);
      OutcomeParts(goal, log, taken, accepted, resume, cursor, after, outcome.Ok?);
      BeyondStep(Headed(t), goal, log, accepted, peers[i], batchSize, resume, cursor, after, outcome.Ok?, first);
      NoCursorSound(log, goal);
      if resume0.Some? { SameUpToStep(before, log, accepted, goal, resume0.value, resume.value); }
      GrewMore(before, log, accepted, ChainOf(t), peers, i);
      log := taken;
      if outcome.Ok? {
        RunEnds(outputs, t, m0, before, log);
        return true, log;
      }
      StartedAgain(t, m, after);
      NoCursorSound(log, goal);
      BeyondNone(first, log, goal);
    }
    return false, log;
  }

  lemma OutcomeParts(
    goal: Goal, log: seq<Taken>, taken: seq<Taken>, accepted: seq<(nat, Reply)>, resume: Option<nat>,
    before: Option<nat>, after: Option<nat>, ok: bool)
    requires LogOutcome(goal, log, taken, accepted, resume, before, after, ok)
    ensures ok && CursorSound(resume, log, goal) ==> PassedAll(taken, goal)
    ensures CursorSound(before, log, goal) ==> CursorSound(after, taken, goal)
    ensures resume.Some? ==> StartAbove(accepted, resume.value) && after.Some? && after.value >= resume.value
  {
  }

  lemma RunBegins(outputs: Outputs, t: Tip, m: Marks, before: seq<Taken>)
    requires Served(t)
    ensures var goal := GoalOf(outputs, t, m); var resume := ResumeCursor(Started(t, m), t.hash);
            && goal == Goal(outputs, ChainOf(t), Started(t, m).leafset)
            && ChainOf(t) == Chain(t.hash, t.header.value, t.leafset.value.1)
            && (CursorHides(outputs, t, m, before) <==> !CursorSound(Started(t, m).cursor, before, goal))
            && (resume.Some? ==> Started(t, m).cursor == resume && SameUpTo(before, before, goal, resume.value))
  {
  }

  lemma RunEnds(outputs: Outputs, t: Tip, m: Marks, before: seq<Taken>, log: seq<Taken>)
    requires Served(t)
    requires var goal := GoalOf(outputs, t, m); var resume := ResumeCursor(Started(t, m), t.hash);
             && (!CursorHides(outputs, t, m, before) ==> PassedAll(log, goal))
             && AllBeyond(Started(t, m).cursor, log, goal)
             && (resume.Some? ==> SameUpTo(before, log, goal, resume.value))
    ensures RunOutcome(GoalOf(outputs, t, m), log, Started(t, m).cursor, CursorHides(outputs, t, m, before),
              ResumeCursor(Started(t, m), t.hash).Some?)
  {
    hide PassedAt, Orderly, NothingLost, ReceivedAll, Goal.Adds;
    ReceivedMeansPassed(log, GoalOf(outputs, t, m));
  }

  /** A peer that never answers. */
  const DEAD_PEER := Peer((_, _, _) => Err(PeerFailed(0)), (_, _) => Accept, _ => Ok(false), _ => true)

  /** A peer that answers every request with just the leaf asked for. */
  const STEADY_PEER :=
    Peer((_: nat, start: nat, _: nat) => Ok(Reply(true, [Utxo(start, start)])), (_, _) => Accept, _ => Ok(false),
         _ => true)

  lemma SteadyPeerReliable(headed: bool)
    ensures Reliable(STEADY_PEER, headed)
  {
  }

  lemma {:induction false} SteadyLogOrderly(log: seq<Taken>, accepted: seq<(nat, Reply)>, chain: Chain)
    requires AnsweredBy(STEADY_PEER, accepted)
    ensures Orderly(log) ==> Orderly(log + Tagged(chain, accepted))
  {
    forall k | 0 <= k < |accepted| ensures accepted[k].1 == Reply(true, [Utxo(accepted[k].0, accepted[k].0)]) {
      assert Answers(STEADY_PEER, accepted[k].0, accepted[k].1);
    }
  }

  lemma DeadPeerSilent(start: nat, reply: Reply)
    ensures !Answers(DEAD_PEER, start, reply)
  {
  }

  lemma DeadPeerAnswersNothing(accepted: seq<(nat, Reply)>)
    requires AnsweredBy(DEAD_PEER, accepted)
    ensures accepted == []
  {
    hide Answers;
    if accepted != [] { DeadPeerSilent(accepted[0].0, accepted[0].1); }
  }

  lemma NothingTagged(chain: Chain, log: seq<Taken>)
    ensures log + Tagged(chain, []) == log
  {
  }

  /**
    An outage followed by one pass with a peer that serves everything. The run succeeds, and whatever
    it began with, it receives every added leaf exactly if the cursor hid none at the start, which for
    an earned cursor is if it is not foreign or hid none, and nothing missed before is still lost.
   */
  method OutageThenSync(
    state: SyncState, db: MwebCoinDatabase, t: Tip, batchSize: nat, fineWindow: nat,
    ghost outputs: Outputs, ghost left: Chain, ghost before: seq<Taken>)
    returns (ghost log: seq<Taken>)
    requires db.Valid() && Served(t)
    modifies state, db
    ensures db.Valid() && state.View() == Finished(t, t.leafset.value.1)
    ensures GrewAt(before, log, ChainOf(t), [STEADY_PEER])
    ensures var m := old(state.View()); var goal := GoalOf(outputs, t, m);
            && RunOutcome(goal, log, Started(t, m).cursor, CursorHides(outputs, t, m, before), true)
            && (Earned(outputs, left, m, before) ==>
                  RunOutcome(goal, log, Started(t, m).cursor, ForeignHides(outputs, left, t, m, before), true))
    ensures Orderly(before) ==> Orderly(log)
  {
    hide *;
    ghost var m := state.View();
    ghost var goal := GoalOf(outputs, t, m);
    ghost var cursor, resume := Started(t, m).cursor, ResumeCursor(Started(t, m), t.hash);
    RunBegins(outputs, t, m, before);
    ResumesFromCursor(Started(t, m), t.hash);
    SteadyPeerReliable(Headed(t));
    GrewNot(before, ChainOf(t), [STEADY_PEER]);
    if Earned(outputs, left, m, before) { GuardIsExact(outputs, left, t, m, before); }
    NoCursorSound(before, goal);
    var outcome, requests, remaining;
    ghost var accepted;
    outcome, requests, remaining, accepted := RunOnce(state, db, t, DEAD_PEER, batchSize, fineWindow);
    DeadPeerAnswersNothing(accepted);
    NothingTagged(ChainOf(t), before);
    CursorAfterNothing(cursor);
    OutcomeLogged(Headed(t), goal, before, accepted, DEAD_PEER, batchSize, resume, cursor, cursor, outcome.Ok?);
    OutcomeParts(goal, before, before, accepted, resume, cursor, cursor, outcome.Ok?);
    log := before;
    if outcome.Ok? {
      OutcomeExact(goal, before, log, cursor);
      return;
    }
    ghost var m1 := state.View();
    StartedAgain(t, m, cursor);
    ghost var cursor1, resume1 := Started(t, m1).cursor, ResumeCursor(Started(t, m1), t.hash);
    RunBegins(outputs, t, m1, before);
    ResumesFromCursor(Started(t, m1), t.hash);
    outcome, requests, remaining, accepted := RunOnce(state, db, t, STEADY_PEER, batchSize, fineWindow);
    ghost var after, taken := CursorAfter(cursor1, accepted), before + Tagged(ChainOf(t), accepted);
    OutcomeLogged(Headed(t), goal, before, accepted, STEADY_PEER, batchSize, resume1, cursor1, after, outcome.Ok?);
    OutcomeParts(goal, before, taken, accepted, resume1, cursor1, after, outcome.Ok?);
    SteadyLogOrderly(before, accepted, ChainOf(t));
    GrewMore(before, before, accepted, ChainOf(t), [STEADY_PEER], 0);
    log := taken;
    if cursor.Some? {
      SameUpToStart(before, goal, cursor.value);
      SameUpToStep(before, before, accepted, goal, cursor.value, cursor.value);
    }
    OutcomeExact(goal, before, log, cursor);
  }

  lemma CursorAfterNothing(cursor: Option<nat>)
    ensures CursorAfter(cursor, []) == cursor
  {
  }

  lemma SameUpToStart(log: seq<Taken>, goal: Goal, bound: nat)
    ensures SameUpTo(log, log, goal, bound)
  {
  }

  /** What is not passed at or below the cursor stays so, if nothing is asked for there. */
  lemma OutcomeExact(goal: Goal, before: seq<Taken>, log: seq<Taken>, cursor: Option<nat>)
    requires cursor.Some? ==> SameUpTo(before, log, goal, cursor.value) || log == before
    requires CursorSound(cursor, before, goal) ==> PassedAll(log, goal)
    ensures RunOutcome(goal, log, cursor, !CursorSound(cursor, before, goal), true)
  {
    hide PassedAt, Orderly, NothingLost, ReceivedAll, Goal.Adds;
    ReceivedMeansPassed(log, goal);
  }

  // --- Guarded runs ---

  datatype Pass = Pass(tip: Tip, peer: Peer)

  /** Every reply in the log was given in one of the passes, for its chain and by its peer. */
  ghost predicate GivenIn(log: seq<Taken>, passes: seq<Pass>) {
    forall k :: 0 <= k < |log| ==>
      exists i :: 0 <= i < |passes| && Served(passes[i].tip) && GivenAt(log[k], ChainOf(passes[i].tip), passes[i].peer)
  }

  lemma GivenInMore(log: seq<Taken>, accepted: seq<(nat, Reply)>, passes: seq<Pass>, i: nat)
    requires GivenIn(log, passes) && i < |passes| && Served(passes[i].tip) && AnsweredBy(passes[i].peer, accepted)
    ensures GivenIn(log + Tagged(ChainOf(passes[i].tip), accepted), passes)
  {
    hide Answers;
    var chain := ChainOf(passes[i].tip);
    var log' := log + Tagged(chain, accepted);
    forall k | |log| <= k < |log'| ensures GivenAt(log'[k], chain, passes[i].peer) {
      assert log'[k] == Tagged(chain, accepted)[k - |log|];
    }
  }

  lemma NothingGiven(passes: seq<Pass>)
    ensures GivenIn([], passes)
  {
  }

  /** After a guarded pass the cursor is earned again. */
  lemma EarnedAgain(outputs: Outputs, t: Tip, m: Marks, log: seq<Taken>, after: Option<nat>)
    requires Served(t) && CursorSound(after, log, GoalOf(outputs, t, m))
    ensures Earned(outputs, ChainOf(t), Started(t, m).(pendingTip := Some(t.hash), cursor := after), log)
  {
  }

  lemma EarnedAtStart(outputs: Outputs, left: Chain, t: Tip, m: Marks, log: seq<Taken>)
    requires Earned(outputs, left, m, log)
    ensures Earned(outputs, left, Started(t, m), log)
    ensures Served(t) && !Foreign(t, m, left) ==>
              && CursorSound(Started(t, m).cursor, log, GoalOf(outputs, t, m))
              && CursorSound(ResumeCursor(Started(t, m), t.hash), log, GoalOf(outputs, t, m))
  {
  }

  lemma NothingToEarn(outputs: Outputs, left: Chain, m: Marks, log: seq<Taken>)
    requires m.cursor.None?
    ensures Earned(outputs, left, m, log)
  {
  }

  /** The goals of successful passes: all is passed, and received exactly if nothing missed is lost. */
  ghost predicate AllReached(goals: seq<Goal>, log: seq<Taken>) {
    forall i :: 0 <= i < |goals| ==>
      PassedAll(log, goals[i]) && (ReceivedAll(log, goals[i]) <==> NothingLost(log, goals[i]))
  }

  lemma ReachedLater(goals: seq<Goal>, log: seq<Taken>, more: seq<Taken>)
    requires AllReached(goals, log)
    ensures AllReached(goals, log + more)
  {
    hide PassedAll, ReceivedAll, NothingLost;
    forall i | 0 <= i < |goals|
      ensures PassedAll(log + more, goals[i])
           && (ReceivedAll(log + more, goals[i]) <==> NothingLost(log + more, goals[i]))
    {
      PassedStays(log, more, goals[i]);
      ReceivedMeansPassed(log + more, goals[i]);
    }
  }

  lemma ReachedOneMore(goals: seq<Goal>, log: seq<Taken>, goal: Goal)
    requires AllReached(goals, log) && PassedAll(log, goal)
    ensures AllReached(goals + [goal], log)
  {
    hide PassedAll, ReceivedAll, NothingLost;
    ReceivedMeansPassed(log, goal);
  }

  lemma NothingReached()
    ensures AllReached([], [])
  {
  }

  const NO_CHAIN := Chain(0, None, [])

  /**
    Passes at any tips and with any peers, from a new state. As long as no pass starts with a foreign
    cursor, every successful pass leaves all the leaves it had to fetch passed, and received exactly if
    no reply missed one for good.
   */
  method RunGuarded(passes: seq<Pass>, batchSize: nat, fineWindow: nat, ghost outputs: Outputs)
    returns (
      state: SyncState, db: MwebCoinDatabase, ran: nat, left: Chain, ghost log: seq<Taken>, ghost goals: seq<Goal>)
    ensures db.Valid() && ran <= |passes|
    ensures ran < |passes| ==> Served(passes[ran].tip) && Foreign(passes[ran].tip, state.View(), left)
    ensures AllReached(goals, log) && Earned(outputs, left, state.View(), log) && GivenIn(log, passes)
    ensures state.leafset == [] || (goals != [] && goals[|goals| - 1].chain.leafset == state.leafset)
  {
    hide *;
    state := new SyncState();
    db := new MwebCoinDatabase();
    ran, left, log, goals := 0, NO_CHAIN, [], [];
    NewIsEmpty();
    ViewIs(state);
    NothingToEarn(outputs, left, state.View(), log);
    NothingReached();
    NothingGiven(passes);
    while ran < |passes|
      invariant fresh(state) && fresh(db)
      invariant db.Valid() && ran <= |passes| && AllReached(goals, log)
      invariant Earned(outputs, left, state.View(), log) && GivenIn(log, passes)
      invariant state.leafset == [] || (goals != [] && goals[|goals| - 1].chain.leafset == state.leafset)
    {
      var t, peer := passes[ran].tip, passes[ran].peer;
      if Served(t) && Foreign(t, state.View(), left) {
        return;
      }
      ghost var m := state.View();
      ghost var cursor, resume := Started(t, m).cursor, ResumeCursor(Started(t, m), t.hash);
      ViewIs(state);
      StartedLeafset(t, m);
      EarnedAtStart(outputs, left, t, m, log);
      ResumesFromCursor(Started(t, m), t.hash);
      var outcome, requests, remaining;
      ghost var accepted;
      outcome, requests, remaining, accepted := RunOnce(state, db, t, peer, batchSize, fineWindow);
      ViewIs(state);
      if Served(t) {
        ghost var goal := GoalOf(outputs, t, m);
        ghost var after, taken := CursorAfter(cursor, accepted), log + Tagged(ChainOf(t), accepted);
        RunBegins(outputs, t, m, log);
        OutcomeLogged(Headed(t), goal, log, accepted, peer, batchSize, resume, cursor, after, outcome.Ok?);
        OutcomeParts(goal, log, taken, accepted, resume, cursor, after, outcome.Ok?);
        ReachedLater(goals, log, Tagged(ChainOf(t), accepted));
        EarnedAgain(outputs, t, m, taken, after);
        GivenInMore(log, accepted, passes, ran);
        log, left := taken, ChainOf(t);
        if outcome.Ok? {
          ReachedOneMore(goals, log, goal);
          goals := goals + [goal];
          FinishedIs(t, goal.chain.leafset);
          NothingToEarn(outputs, left, state.View(), log);
        }
      }
      ran := ran + 1;
    }
  }

  lemma NewIsEmpty()
    ensures NEW_MARKS == Marks(None, None, [], None, None)
  {
  }

  lemma StartedLeafset(t: Tip, m: Marks)
    ensures Started(t, m).leafset == [] || Started(t, m).leafset == m.leafset
  {
  }
}
