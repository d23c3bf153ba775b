/**
  The one-shot UTXO sync (crates/mweb/src/lip0006.rs, `sync_mweb_utxos`): walk all unspent leaves,
  buffer every output, scan once, and spend the coins that were not seen.
 */
module MwebUtxoSyncs {
  import opened Wrappers
  import opened Leafsets
  import opened MwebCoins
  import opened MwebDownload

  const MAX_BUFFERED_ENTRIES: nat := 2_000_000

  /** The ids of all outputs in the accepted replies. */
  ghost predicate SeenIn(accepted: seq<(nat, Reply)>, id: OutputId) {
    exists k, u :: 0 <= k < |accepted| && u in accepted[k].1.utxos && u.output == id
  }

  /** The buffered entries are those of the accepted replies. */
  ghost predicate Buffers(accepted: seq<(nat, Reply)>, entries: seq<Utxo>) {
    forall u :: u in entries <==> exists k :: 0 <= k < |accepted| && u in accepted[k].1.utxos
  }

  lemma BuffersMore(accepted: seq<(nat, Reply)>, entries: seq<Utxo>, start: nat, reply: Reply)
    requires Buffers(accepted, entries)
    ensures Buffers(accepted + [(start, reply)], entries + reply.utxos)
  {
    var more := accepted + [(start, reply)];
    forall u ensures u in entries + reply.utxos <==> exists k :: 0 <= k < |more| && u in more[k].1.utxos {
      if u in entries {
        var k :| 0 <= k < |accepted| && u in accepted[k].1.utxos;
        assert u in more[k].1.utxos;
      }
      if u in reply.utxos { assert u in more[|accepted|].1.utxos; }
    }
  }

  /** How many entries the accepted replies have in all. */
  function Total(accepted: seq<(nat, Reply)>): nat {
    if accepted == [] then 0 else Total(accepted[..|accepted| - 1]) + |accepted[|accepted| - 1].1.utxos|
  }

  lemma TotalMore(accepted: seq<(nat, Reply)>, start: nat, reply: Reply)
    ensures Total(accepted + [(start, reply)]) == Total(accepted) + |reply.utxos|
  {
    var more := accepted + [(start, reply)];
    assert more[..|more| - 1] == accepted;
  }

  /** The peer claims too many entries itself, or another of its replies would make them too many. */
  ghost predicate TooMany(peer: Peer, accepted: seq<(nat, Reply)>) {
    || (exists n, start, size :: peer.utxos(n, start, size) == Err(TooManyEntries))
    || exists start, reply :: Answers(peer, start, reply) && Total(accepted) + |reply.utxos| > MAX_BUFFERED_ENTRIES
  }

  /** The walk ended at a leaf that an empty reply answered, with everything below it passed. */
  ghost predicate EndedAt(
    peer: Peer, indices: seq<nat>, batchSize: nat, accepted: seq<(nat, Reply)>, i: nat)
  {
    && i < |indices| && Passed(indices, 0, i, accepted) && Short(indices, i, accepted)
    && exists n, reply :: peer.utxos(n, indices[i], batchSize) == Ok(reply) && reply.utxos == []
  }

  /** The download: ends early at the first empty reply. */
  method DownloadAll(peer: Peer, headed: bool, indices: seq<nat>, batchSize: nat)
    returns (r: Result<seq<Utxo>, SyncError>, requests: nat, complete: bool, ghost accepted: seq<(nat, Reply)>)
    requires Ascending(indices)
    ensures |accepted| <= requests <= |indices|
    ensures Steps(headed, accepted) && Asked(peer, indices, accepted)
    ensures r.Ok? ==> Buffers(accepted, r.value) && |r.value| <= MAX_BUFFERED_ENTRIES
    ensures r.Ok? && complete ==> forall leaf :: leaf in indices ==> Covered(accepted, leaf)
    ensures r.Ok? && !complete ==> exists i :: EndedAt(peer, indices, batchSize, accepted, i)
    ensures Reliable(peer, headed) ==> r.Ok? || r.error == TooManyEntries
    ensures r == Err(TooManyEntries) ==> TooMany(peer, accepted)
  {
    hide Covered, Accounts, Steps, Short, Passed, Asked, Answers, InOrder, Reliable, Plain, Total;
    NothingAsked(peer, indices, None);
    NothingPassed(headed, indices);
    var i := 0;
    var entries := [];
    requests, complete, accepted := 0, true, [];
    while i < |indices|
      invariant |accepted| == requests <= i <= |indices| && Buffers(accepted, entries)
      invariant |entries| == Total(accepted) <= MAX_BUFFERED_ENTRIES && Passed(indices, 0, i, accepted)
      invariant Steps(headed, accepted) && Short(indices, i, accepted) && Asked(peer, indices, accepted)
    {
      var start := indices[i];
      ServedWell(peer, headed, requests, start, batchSize);
      PlainVerdict(peer, requests);
      var reply := peer.utxos(requests, start, batchSize);
      requests := requests + 1;
      if reply.Err? {
        return Err(reply.error), requests, false, accepted;
      }
      var batch := reply.value;
      if !batch.full {
        return Err(WrongFormat), requests, false, accepted;
      }
      match Verified(headed, batch, peer.verdict(requests - 1, batch)) {
        case Accept =>
        case Shrinkable(reason) => return Err(VerifyFailed(reason)), requests, false, accepted;
        case Fatal(reason) => return Err(VerifyFailed(reason)), requests, false, accepted;
      }
      if batch.utxos == [] {
        assert peer.utxos(requests - 1, indices[i], batchSize) == Ok(batch);
        assert EndedAt(peer, indices, batchSize, accepted, i);
        return Ok(entries), requests, false, accepted;
      }
      PeerAnswers(peer, headed, requests - 1, start, batchSize, batch);
      var fault := CheckAdvances(batch, start);
      if fault.Some? {
        return Err(fault.value), requests, false, accepted;
      }
      if |entries| + |batch.utxos| > MAX_BUFFERED_ENTRIES {
        return Err(TooManyEntries), requests, false, accepted;
      }
      BuffersMore(accepted, entries, start, batch);
      entries := entries + batch.utxos;
      var next := SkipUpTo(indices, i, LastLeaf(batch));
      if next == i {
        return Err(NotAdvancing), requests, false, accepted;
      }
      PassedMore(indices, 0, i, next, accepted, batch);
      StepsMore(headed, indices, i, next, accepted, batch);
      AskedMore(peer, indices, accepted, start, batch);
      TotalMore(accepted, start, batch);
      accepted := accepted + [(start, batch)];
      i := next;
    }
    PassedIsCovered(indices, accepted);
    return Ok(entries), requests, true, accepted;
  }

  lemma NothingPassed(headed: bool, indices: seq<nat>)
    ensures Steps(headed, []) && Short(indices, 0, []) && Passed(indices, 0, 0, []) && Total([]) == 0
  {
  }

  lemma PassedIsCovered(indices: seq<nat>, accepted: seq<(nat, Reply)>)
    requires Passed(indices, 0, |indices|, accepted)
    ensures forall leaf :: leaf in indices ==> Covered(accepted, leaf)
  {
  }

  lemma PlainVerdict(peer: Peer, n: nat)
    ensures Plain(peer) ==> forall reply :: peer.verdict(n, reply) == Accept
  {
  }

  /** How a download ended that did not fail. */
  ghost predicate WalkedAll(
    peer: Peer, indices: seq<nat>, batchSize: nat, accepted: seq<(nat, Reply)>, complete: bool)
  {
    && Steps(true, accepted)
    && if complete then forall leaf :: leaf in indices ==> Covered(accepted, leaf)
       else exists i :: EndedAt(peer, indices, batchSize, accepted, i)
  }

  /**
    With a header, every leaf is received exactly if no reply was empty and each carries all leaves from
    the one asked for to its last.
   */
  lemma AllReceived(peer: Peer, indices: seq<nat>, batchSize: nat, accepted: seq<(nat, Reply)>, complete: bool)
    requires WalkedAll(peer, indices, batchSize, accepted, complete)
    ensures (forall leaf :: leaf in indices ==> Received(accepted, leaf))
       <==> complete && forall k :: 0 <= k < |accepted| ==> Whole(indices, accepted[k].0, accepted[k].1)
  {
    hide Accounts, Carries, Passed, InOrder, CheckAdvances, Steps;
    forall leaf
      ensures Received(accepted, leaf) ==> Covered(accepted, leaf) && !Missed(accepted, leaf)
      ensures Covered(accepted, leaf) ==> Received(accepted, leaf) || Missed(accepted, leaf)
    {
      ReceivedOrMissed(accepted, leaf);
    }
    if !complete {
      var i :| EndedAt(peer, indices, batchSize, accepted, i);
      NotReached(indices, i, accepted);
    }
    if forall leaf :: leaf in indices ==> Received(accepted, leaf) {
      forall k, leaf | 0 <= k < |accepted| && leaf in indices && Accounts(accepted[k].0, accepted[k].1, leaf)
        ensures Carries(accepted[k].1, leaf)
      {
        assert !Missed(accepted, leaf);
      }
    }
  }

  lemma NotReached(indices: seq<nat>, i: nat, accepted: seq<(nat, Reply)>)
    requires i < |indices| && Short(indices, i, accepted)
    ensures !Covered(accepted, indices[i])
  {
    hide Reach;
  }

  /** If replies hold outputs of the chain, an output is seen exactly if its leaf is received. */
  lemma SeenMeansReceived(accepted: seq<(nat, Reply)>, outputs: nat -> Option<OutputId>, u: Utxo)
    requires forall k, v :: 0 <= k < |accepted| && v in accepted[k].1.utxos ==> outputs(v.leaf) == Some(v.output)
    requires forall a, b :: outputs(a).Some? && outputs(a) == outputs(b) ==> a == b
    requires outputs(u.leaf) == Some(u.output)
    ensures SeenIn(accepted, u.output) <==> Received(accepted, u.leaf)
  {
    if k, v :| 0 <= k < |accepted| && v in accepted[k].1.utxos && v.output == u.output {
      var i :| 0 <= i < |accepted[k].1.utxos| && accepted[k].1.utxos[i] == v;
      assert Carries(accepted[k].1, u.leaf);
    }
    if k :| 0 <= k < |accepted| && Carries(accepted[k].1, u.leaf) {
      var i :| 0 <= i < |accepted[k].1.utxos| && accepted[k].1.utxos[i].leaf == u.leaf;
      assert accepted[k].1.utxos[i] in accepted[k].1.utxos;
    }
  }

  /**
    `sync_mweb_utxos`, after its leafset has been fetched and checked. A coin is moved to the spent ones
    exactly if no reply showed it, whether or not its leaf is still set.
   */
  method SyncUtxos(db: MwebCoinDatabase, peer: Peer, headed: bool, indices: seq<nat>, batchSize: nat, tip: nat)
    returns (r: Result<seq<OutputId>, SyncError>, requests: nat, complete: bool, ghost accepted: seq<(nat, Reply)>)
    requires db.Valid() && Ascending(indices)
    modifies db
    ensures db.Valid() && requests <= |indices|
    ensures r.Ok? ==> forall id :: id in db.coins ==> SeenIn(accepted, id)
    ensures r.Ok? ==> forall id :: id in old(db.coins) ==> (id in db.coins <==> SeenIn(accepted, id))
    ensures r.Ok? ==> forall id :: id in old(db.coins) && id !in db.coins ==>
              id in db.spent && db.spent[id] == old(db.coins)[id]
    ensures r.Ok? ==> forall k, u :: 0 <= k < |accepted| && u in accepted[k].1.utxos && peer.owned(u) == Ok(true) ==>
              u.output in db.coins
    ensures r.Ok? && complete ==> forall leaf :: leaf in indices ==> Covered(accepted, leaf)
    ensures r.Ok? && headed ==> WalkedAll(peer, indices, batchSize, accepted, complete)
    ensures |accepted| <= requests && Asked(peer, indices, accepted)
    ensures Reliable(peer, headed) && r.Err? ==> TooMany(peer, accepted)
  {
    hide Covered, Steps, EndedAt, Reliable, Plain, Asked, Answers, Total;
    var downloaded;
    downloaded, requests, complete, accepted := DownloadAll(peer, headed, indices, batchSize);
    if downloaded.Err? {
      return Err(downloaded.error), requests, complete, accepted;
    }
    var entries := downloaded.value;
    ReliableScans(peer, headed, entries);
    var scanned := ScanEntries(db, peer, entries, map[], tip);
    if scanned.Err? {
      return Err(scanned.error), requests, complete, accepted;
    }
    ghost var loaded := db.coins;
    var seen := OutputsOf(entries);
    SeenIsSeen(accepted, entries, seen);
    var rest := db.coins.Keys;
    while rest != {}
      invariant db.Valid() && rest <= loaded.Keys
      invariant forall id :: id in db.coins <==> id in loaded && (id in rest || id in seen)
      invariant forall id :: id in db.coins ==> db.coins[id] == loaded[id]
      invariant forall id :: id in loaded && id !in db.coins ==> id in db.spent && db.spent[id] == loaded[id]
    {
      var id :| id in rest;
      if id !in seen {
        var _ := db.MarkSpent(id);
      }
      rest := rest - {id};
    }
    KeptSeen(peer, accepted, entries, loaded);
    return Ok(scanned.value), requests, complete, accepted;
  }

  lemma ReliableScans(peer: Peer, headed: bool, entries: seq<Utxo>)
    ensures Reliable(peer, headed) ==> forall u :: u in entries ==> peer.owned(u).Ok?
  {
  }

  lemma SeenIsSeen(accepted: seq<(nat, Reply)>, entries: seq<Utxo>, seen: set<OutputId>)
    requires Buffers(accepted, entries) && seen == OutputsOf(entries)
    ensures forall id :: id in seen <==> SeenIn(accepted, id)
  {
  }

  lemma KeptSeen(peer: Peer, accepted: seq<(nat, Reply)>, entries: seq<Utxo>, coins: map<OutputId, Coin>)
    requires Buffers(accepted, entries) && Scanned(peer, entries, coins)
    ensures forall k, u :: 0 <= k < |accepted| && u in accepted[k].1.utxos && peer.owned(u) == Ok(true) ==>
              u.output in coins && SeenIn(accepted, u.output)
  {
    forall k, u | 0 <= k < |accepted| && u in accepted[k].1.utxos && peer.owned(u) == Ok(true)
      ensures u.output in coins && SeenIn(accepted, u.output)
    {
      assert u in entries;
    }
  }

  // --- Coins spent by mistake ---

  lemma {:induction false} OneEach(peer: Peer, accepted: seq<(nat, Reply)>)
    requires peer in {EMPTY_PEER, LATE_PEER}
    requires forall k :: 0 <= k < |accepted| ==> Answers(peer, accepted[k].0, accepted[k].1)
    ensures Reliable(peer, true) && Total(accepted) <= |accepted|
    ensures |accepted| < MAX_BUFFERED_ENTRIES ==> !TooMany(peer, accepted)
  {
    if accepted != [] { OneEach(peer, accepted[..|accepted| - 1]); }
  }

  lemma SevenUnseen(peer: Peer, indices: seq<nat>, accepted: seq<(nat, Reply)>)
    requires peer in {EMPTY_PEER, LATE_PEER} && indices in {[0], [0, 1]} && Asked(peer, indices, accepted)
    ensures !SeenIn(accepted, 7)
    ensures forall k :: 0 <= k < |accepted| ==> Answers(peer, accepted[k].0, accepted[k].1)
  {
    forall k, u | 0 <= k < |accepted| && u in accepted[k].1.utxos ensures u.output != 7 {
      assert Answers(peer, accepted[k].0, accepted[k].1) && accepted[k].0 in indices;
    }
  }

  /** The coin 7 of a leaf that is still set is spent after an empty reply, and after one that starts late. */
  method UnseenCoinSpent(late: bool)
    returns (db: MwebCoinDatabase, r: Result<seq<OutputId>, SyncError>, indices: seq<nat>)
    ensures r.Ok? && 0 in indices && 7 !in db.coins && 7 in db.spent && db.spent[7].leafIndex == Some(0)
  {
    hide Asked, Answers, Reliable, TooMany, SeenIn, WalkedAll, Covered, Accounts;
    db := new MwebCoinDatabase();
    db.Insert(Coin(7, Some(0), None));
    indices := if late then [0, 1] else [0];
    var peer := if late then LATE_PEER else EMPTY_PEER;
    var requests, complete;
    ghost var accepted;
    r, requests, complete, accepted := SyncUtxos(db, peer, true, indices, 100, 0);
    SevenUnseen(peer, indices, accepted);
    OneEach(peer, accepted);
  }
}
