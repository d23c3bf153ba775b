/**
  What MWEB sync passes have downloaded (crates/mweb/src/mweb_sync.rs, repeated calls of `run_once`):
  which leaves of a chain the accepted replies passed, which they carried, and which they missed.
 */
module MwebLogs {
  import opened Wrappers
  import opened Leafsets
  import opened MwebCoins
  import opened MwebDownload
  import opened MwebSyncs

  /** What a pass downloads: the block, the header it was given for it, if any, and the leafset. */
  datatype Chain = Chain(tip: Hash, header: Option<Header>, leafset: seq<Byte>)

  function ChainOf(t: Tip): Chain
    requires Served(t)
  {
    Chain(t.hash, t.header.value, t.leafset.value.1)
  }

  /** The output at a leaf of a chain. */
  type Outputs = (Chain, nat) -> Option<OutputId>

  /** What a pass has to fetch: the leaves that the chain's leafset adds to the saved one. */
  datatype Goal = Goal(outputs: Outputs, chain: Chain, saved: seq<Byte>)
  {
    predicate Adds(leaf: nat) { MwebSyncs.Adds(saved, chain.leafset, leaf) }
  }

  /** The goal of a pass that begins with the given marks. */
  function GoalOf(outputs: Outputs, t: Tip, m: Marks): Goal
    requires Served(t)
  {
    Goal(outputs, ChainOf(t), Started(t, m).leafset)
  }

  // --- Logs ---

  /** An accepted reply, and the chain it was asked for. */
  datatype Taken = Taken(chain: Chain, start: nat, reply: Reply)

  function Tagged(chain: Chain, accepted: seq<(nat, Reply)>): (r: seq<Taken>)
    ensures |r| == |accepted|
    ensures forall k :: 0 <= k < |r| ==> r[k] == Taken(chain, accepted[k].0, accepted[k].1)
  {
    seq(|accepted|, k requires 0 <= k < |accepted| => Taken(chain, accepted[k].0, accepted[k].1))
  }

  /** The reply is about the output that the goal has at the leaf. */
  predicate About(taken: Taken, goal: Goal, leaf: nat) {
    goal.outputs(taken.chain, leaf) == goal.outputs(goal.chain, leaf)
  }

  ghost predicate PassedAt(log: seq<Taken>, goal: Goal, leaf: nat) {
    exists k :: 0 <= k < |log| && Accounts(log[k].start, log[k].reply, leaf) && About(log[k], goal, leaf)
  }

  ghost predicate ReceivedAt(log: seq<Taken>, goal: Goal, leaf: nat) {
    exists k :: 0 <= k < |log| && Carries(log[k].reply, leaf) && About(log[k], goal, leaf)
  }

  /** Some reply passed the leaf and did not carry it. */
  ghost predicate MissedAt(log: seq<Taken>, goal: Goal, leaf: nat) {
    exists k :: 0 <= k < |log|
      && Accounts(log[k].start, log[k].reply, leaf) && !Carries(log[k].reply, leaf) && About(log[k], goal, leaf)
  }

  ghost predicate PassedUpTo(log: seq<Taken>, goal: Goal, bound: nat) {
    forall leaf: nat :: leaf <= bound && goal.Adds(leaf) ==> PassedAt(log, goal, leaf)
  }

  ghost predicate PassedAll(log: seq<Taken>, goal: Goal) {
    forall leaf: nat :: goal.Adds(leaf) ==> PassedAt(log, goal, leaf)
  }

  ghost predicate ReceivedAll(log: seq<Taken>, goal: Goal) {
    forall leaf: nat :: goal.Adds(leaf) ==> ReceivedAt(log, goal, leaf)
  }

  /** What a reply missed came with another one. */
  ghost predicate NothingLost(log: seq<Taken>, goal: Goal) {
    forall leaf: nat :: goal.Adds(leaf) && MissedAt(log, goal, leaf) ==> ReceivedAt(log, goal, leaf)
  }

  /** Replies as they verify with a header. */
  ghost predicate Orderly(log: seq<Taken>) {
    forall k :: 0 <= k < |log| ==>
      InOrder(log[k].reply.utxos) && CheckAdvances(log[k].reply, log[k].start) == None
  }

  /** Everything is received exactly if everything is passed and nothing that was missed is lost. */
  lemma ReceivedMeansPassed(log: seq<Taken>, goal: Goal)
    ensures PassedAll(log, goal) ==> (ReceivedAll(log, goal) <==> NothingLost(log, goal))
    ensures Orderly(log) ==> (ReceivedAll(log, goal) <==> PassedAll(log, goal) && NothingLost(log, goal))
  {
    hide Accounts, Carries, InOrder, CheckAdvances, About, Goal.Adds;
    forall leaf: nat
      ensures PassedAt(log, goal, leaf) ==> ReceivedAt(log, goal, leaf) || MissedAt(log, goal, leaf)
      ensures Orderly(log) && ReceivedAt(log, goal, leaf) ==> PassedAt(log, goal, leaf)
    {
      if Orderly(log) && ReceivedAt(log, goal, leaf) {
        var k :| 0 <= k < |log| && Carries(log[k].reply, leaf) && About(log[k], goal, leaf);
        CarriedIsPassed(log[k].start, log[k].reply, leaf);
      }
    }
  }

  /** What a cursor would skip is passed. */
  ghost predicate CursorSound(cursor: Option<nat>, log: seq<Taken>, goal: Goal) {
    cursor.Some? ==> PassedUpTo(log, goal, cursor.value)
  }

  lemma PassedAtAppend(log: seq<Taken>, more: seq<Taken>, goal: Goal, leaf: nat)
    ensures PassedAt(log + more, goal, leaf) <==> PassedAt(log, goal, leaf) || PassedAt(more, goal, leaf)
  {
    hide Accounts, About;
    if k :| 0 <= k < |log| && Accounts(log[k].start, log[k].reply, leaf) && About(log[k], goal, leaf) {
      assert (log + more)[k] == log[k];
    }
    if k :| 0 <= k < |more| && Accounts(more[k].start, more[k].reply, leaf) && About(more[k], goal, leaf) {
      assert (log + more)[|log| + k] == more[k];
    }
    if k :| 0 <= k < |log + more| && Accounts((log + more)[k].start, (log + more)[k].reply, leaf)
            && About((log + more)[k], goal, leaf) {
      assert (log + more)[k] == if k < |log| then log[k] else more[k - |log|];
    }
  }

  /** A reply asked for the chain itself passes all that it accounts for. */
  lemma TaggedPasses(accepted: seq<(nat, Reply)>, goal: Goal, leaf: nat)
    ensures PassedAt(Tagged(goal.chain, accepted), goal, leaf) <==> Covered(accepted, leaf)
  {
    hide Accounts;
    var tagged := Tagged(goal.chain, accepted);
    if k :| 0 <= k < |accepted| && Accounts(accepted[k].0, accepted[k].1, leaf) {
      assert Accounts(tagged[k].start, tagged[k].reply, leaf) && About(tagged[k], goal, leaf);
    }
  }

  lemma PassedStays(log: seq<Taken>, more: seq<Taken>, goal: Goal)
    ensures PassedAll(log, goal) ==> PassedAll(log + more, goal)
    ensures forall cursor :: CursorSound(cursor, log, goal) ==> CursorSound(cursor, log + more, goal)
  {
    forall leaf: nat ensures PassedAt(log, goal, leaf) ==> PassedAt(log + more, goal, leaf) {
      PassedAtAppend(log, more, goal, leaf);
    }
  }

  /** The peer gave the reply when asked for the chain. */
  ghost predicate GivenAt(taken: Taken, chain: Chain, peer: Peer) {
    taken.chain == chain && Answers(peer, taken.start, taken.reply)
  }

  /** The log grew by replies that the peers gave for the chain, and by nothing else. */
  ghost predicate GrewAt(before: seq<Taken>, log: seq<Taken>, chain: Chain, peers: seq<Peer>) {
    && |before| <= |log| && log[..|before|] == before
    && forall k :: |before| <= k < |log| ==> exists i :: 0 <= i < |peers| && GivenAt(log[k], chain, peers[i])
  }

  lemma GrewNot(log: seq<Taken>, chain: Chain, peers: seq<Peer>)
    ensures GrewAt(log, log, chain, peers)
  {
  }

  lemma GrewMore(
    before: seq<Taken>, log: seq<Taken>, accepted: seq<(nat, Reply)>, chain: Chain, peers: seq<Peer>, i: nat)
    requires GrewAt(before, log, chain, peers) && i < |peers| && AnsweredBy(peers[i], accepted)
    ensures GrewAt(before, log + Tagged(chain, accepted), chain, peers)
  {
    hide Answers;
    var log' := log + Tagged(chain, accepted);
    forall k | |log| <= k < |log'| ensures GivenAt(log'[k], chain, peers[i]) {
      assert log'[k] == Tagged(chain, accepted)[k - |log|];
    }
  }

  /** With a header the log stays orderly. */
  lemma OrderlyMore(log: seq<Taken>, accepted: seq<(nat, Reply)>, chain: Chain)
    requires Orderly(log) && Steps(true, accepted)
    ensures Orderly(log + Tagged(chain, accepted))
  {
    hide InOrder, CheckAdvances;
  }

  // --- One pass ---

  /** What became of a leaf that a successful pass had to fetch: it was received, missed, or below the cursor. */
  lemma LeafFate(
    saved: seq<Byte>, served: seq<Byte>, resume: Option<nat>, accepted: seq<(nat, Reply)>, leaf: nat)
    requires Downloaded(saved, served, resume, accepted) && Adds(saved, served, leaf)
    ensures Received(accepted, leaf) <==> !UpTo(resume, leaf) && !Missed(accepted, leaf)
  {
    hide Adds, InOrder, CheckAdvances;
    ReceivedOrMissed(accepted, leaf);
    if Received(accepted, leaf) {
      assert Covered(accepted, leaf);
    }
  }

  /**
    So a pass without a cursor to resume from receives everything exactly if every reply carries each
    added leaf from the one asked for to its last.
   */
  lemma PassReceives(
    d: LeafsetDiff, saved: seq<Byte>, served: seq<Byte>, accepted: seq<(nat, Reply)>)
    requires Downloaded(saved, served, None, accepted) && IsDiff(d, saved, served)
    ensures (forall leaf :: leaf in d.added ==> Received(accepted, leaf))
       <==> (forall k :: 0 <= k < |accepted| ==> Whole(d.added, accepted[k].0, accepted[k].1))
  {
    hide Downloaded, Accounts, Carries, Adds;
    AddedIsDiff(d, saved, served);
    forall leaf | leaf in d.added ensures Received(accepted, leaf) <==> !Missed(accepted, leaf) {
      LeafFate(saved, served, None, accepted, leaf);
    }
    if forall leaf :: leaf in d.added ==> Received(accepted, leaf) {
      forall k, leaf | 0 <= k < |accepted| && leaf in d.added && Accounts(accepted[k].0, accepted[k].1, leaf)
        ensures Carries(accepted[k].1, leaf)
      {
        assert !Missed(accepted, leaf);
      }
    }
  }

  /** And if no reply has gaps, exactly if every reply is non-empty and opens with the leaf asked for. */
  lemma PassReceivesIfOpened(
    d: LeafsetDiff, saved: seq<Byte>, served: seq<Byte>, accepted: seq<(nat, Reply)>)
    requires Downloaded(saved, served, None, accepted) && IsDiff(d, saved, served)
    requires forall k :: 0 <= k < |accepted| ==> GapFree(d.added, accepted[k].1)
    ensures (forall leaf :: leaf in d.added ==> Received(accepted, leaf))
       <==> (forall k :: 0 <= k < |accepted| ==>
               accepted[k].1.utxos != [] && accepted[k].1.utxos[0].leaf == accepted[k].0)
  {
    hide Received, GapFree, Whole, InOrder, CheckAdvances, Reach;
    PassReceives(d, saved, served, accepted);
    AddedIsDiff(d, saved, served);
    forall k | 0 <= k < |accepted|
      ensures Whole(d.added, accepted[k].0, accepted[k].1)
         <==> accepted[k].1.utxos != [] && accepted[k].1.utxos[0].leaf == accepted[k].0
    {
      OpensWhole(d.added, accepted[k].0, accepted[k].1);
    }
  }
}
