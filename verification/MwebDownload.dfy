/**
  The sequential UTXO download of a sync pass (crates/mweb/src/mweb_sync.rs, the request loop of
  `run_once`; crates/mweb/src/lip0006.rs, `check_batch_advances`; crates/mweb/src/scan.rs,
  `scan_utxo_entries_at`). The peer may answer any request in any way.
 */
module MwebDownload {
  import opened Wrappers
  import opened Leafsets
  import opened MwebCoins

  const MAX_REQUESTED_UTXOS: nat := 4096

  datatype Utxo = Utxo(leaf: nat, output: OutputId)

  datatype Reply = Reply(full: bool, utxos: seq<Utxo>)

  datatype SyncError =
    | PeerFailed(reason: nat)
    | WrongFormat
    | VerifyFailed(reason: nat)
    | PrecedesStart(leaf: nat)
    | NotAdvancing
    | ScanFailed(reason: nat)
    | RangeproofFailed
    | WrongBlock
    | TooManyEntries

  datatype Verdict = Accept | Shrinkable(reason: nat) | Fatal(reason: nat)

  /** The leaves ascend strictly. */
  predicate InOrder(utxos: seq<Utxo>) {
    forall i :: 0 < i < |utxos| ==> utxos[i - 1].leaf < utxos[i].leaf
  }

  /**
    `verify_utxo_batch` if there is a header to check against, and `verify_parent_hashes_present` if not:
    an empty batch always passes, and with a header one out of order never does. What the rest of the
    check finds, down to the roots, is the given verdict.
   */
  function Verified(headed: bool, reply: Reply, rest: Verdict): Verdict {
    if reply.utxos == [] then Accept
    else if headed && !InOrder(reply.utxos) then Fatal(0)
    else rest
  }

  /** The environment: replies and their verification by request number, ownership by output. */
  datatype Peer = Peer(
    utxos: (nat, nat, nat) -> Result<Reply, SyncError>,
    verdict: (nat, Reply) -> Verdict,
    owned: Utxo -> Result<bool, SyncError>,
    proven: seq<Utxo> -> bool)

  /** `effective_batch_size` */
  function EffectiveBatchSize(batchSize: nat): (r: nat)
    ensures 1 <= r <= MAX_REQUESTED_UTXOS
    ensures 1 <= batchSize <= MAX_REQUESTED_UTXOS ==> r == batchSize
    ensures batchSize == 0 ==> r == 1
    ensures batchSize > MAX_REQUESTED_UTXOS ==> r == MAX_REQUESTED_UTXOS
  {
    if batchSize < 1 then 1 else if batchSize > MAX_REQUESTED_UTXOS then MAX_REQUESTED_UTXOS else batchSize
  }

  // --- Logarithms ---

  function Log2(n: nat): nat
    requires n > 0
  {
    if n == 1 then 0 else 1 + Log2(n / 2)
  }

  lemma {:induction false} Log2Monotone(m: nat, n: nat)
    requires 0 < m <= n
    ensures Log2(m) <= Log2(n)
  {
    if m > 1 { Log2Monotone(m / 2, n / 2); }
  }

  /** Growing a request costs at most one halving. */
  lemma Log2OfGrown(r: nat, grown: nat)
    requires 0 < r && 0 < grown <= 2 * r
    ensures Log2(grown) <= Log2(r) + 1
  {
    Log2Monotone(grown, 2 * r);
    assert Log2(2 * r) == 1 + Log2(r);
  }

  // --- Peers that serve ---

  function LastLeaf(reply: Reply): nat
    requires reply.utxos != []
  {
    reply.utxos[|reply.utxos| - 1].leaf
  }

  /** `check_batch_advances` */
  function CheckAdvances(reply: Reply, start: nat): Option<SyncError> {
    if reply.utxos != [] && reply.utxos[0].leaf < start then Some(PrecedesStart(reply.utxos[0].leaf)) else None
  }

  /** Everything the peer serves verifies and can be scanned. */
  ghost predicate Plain(peer: Peer) {
    (forall n, reply :: peer.verdict(n, reply) == Accept) && Scannable(peer)
  }

  /** Everything can be scanned, and no range proof fails. */
  ghost predicate Scannable(peer: Peer) {
    (forall u :: peer.owned(u).Ok?) && (forall entries :: peer.proven(entries))
  }

  /** An empty batch, or one in order that starts at or after the leaf asked for and ends there too. */
  predicate Good(headed: bool, r: Result<Reply, SyncError>, start: nat) {
    && r.Ok? && r.value.full
    && (r.value.utxos != [] ==>
          && (headed ==> InOrder(r.value.utxos))
          && CheckAdvances(r.value, start) == None && start <= LastLeaf(r.value))
  }

  /** The peer answers every request well. */
  ghost predicate Reliable(peer: Peer, headed: bool) {
    Plain(peer) && forall n, start, size :: Good(headed, peer.utxos(n, start, size), start)
  }

  /**
    The peer answers every request well, or, as long as more than one utxo is asked for, with a reply whose
    check fails in a way that a smaller request can mend.
   */
  ghost predicate Yields(peer: Peer, headed: bool) {
    && Scannable(peer)
    && forall n, start, size :: size > 0 ==> YieldsAt(peer, headed, n, start, size)
  }

  predicate YieldsAt(peer: Peer, headed: bool, n: nat, start: nat, size: nat) {
    var reply := peer.utxos(n, start, size);
    && reply.Ok? && reply.value.full
    && match Verified(headed, reply.value, peer.verdict(n, reply.value))
       case Accept => Good(headed, reply, start)
       case Shrinkable(_) => size > 1
       case Fatal(_) => false
  }

  lemma ReliableYields(peer: Peer, headed: bool)
    ensures Reliable(peer, headed) ==> Yields(peer, headed)
  {
    if Reliable(peer, headed) {
      forall n, start, size ensures YieldsAt(peer, headed, n, start, size) {
        assert Good(headed, peer.utxos(n, start, size), start);
      }
    }
  }

  /** The peer answers the first request well. */
  ghost predicate OpensWell(peer: Peer, headed: bool, start: nat, size: nat) {
    Plain(peer) && Good(headed, peer.utxos(0, start, size), start)
  }

  /** A peer that answers every request with just the leaf after the one asked for. */
  const LATE_PEER :=
    Peer((_: nat, start: nat, _: nat) => Ok(Reply(true, [Utxo(start + 1, start)])), (_, _) => Accept, _ => Ok(false),
         _ => true)

  /** A peer that answers every request with nothing. */
  const EMPTY_PEER := Peer((_, _, _) => Ok(Reply(true, [])), (_, _) => Accept, _ => Ok(false), _ => true)

  // --- One leaf ---

  /** The size of the request after a number of halvings. */
  function Halved(size: nat, k: nat): nat {
    if k == 0 then size else Halved(size, k - 1) / 2
  }

  /** The verdict on the reply to the k-th request for a leaf, if there is one in the right format. */
  function Attempt(peer: Peer, headed: bool, start: nat, size: nat, sent: nat, k: nat): Result<Verdict, SyncError> {
    var reply := peer.utxos(sent + k, start, Halved(size, k));
    if reply.Err? then Err(reply.error)
    else if !reply.value.full then Err(WrongFormat)
    else Ok(Verified(headed, reply.value, peer.verdict(sent + k, reply.value)))
  }

  /** The request only shrinks because of a check that a smaller one can mend, and while there is a smaller one. */
  ghost predicate Shrunk(peer: Peer, headed: bool, start: nat, size: nat, sent: nat, k: nat) {
    forall j :: 0 <= j < k ==>
      Halved(size, j) > 1
      && Attempt(peer, headed, start, size, sent, j).Ok?
      && Attempt(peer, headed, start, size, sent, j).value.Shrinkable?
  }

  /** How the requests for one leaf end: with the first reply that verifies or the first fault that stays. */
  ghost predicate Fetched(
    peer: Peer, headed: bool, start: nat, size: nat, sent: nat, k: nat, r: Result<Reply, SyncError>)
  {
    && Shrunk(peer, headed, start, size, sent, k)
    && match Attempt(peer, headed, start, size, sent, k)
       case Err(e) => r == Err(e)
       case Ok(Accept) => r == peer.utxos(sent + k, start, Halved(size, k))
       case Ok(Fatal(reason)) => r == Err(VerifyFailed(reason))
       case Ok(Shrinkable(reason)) => r == Err(VerifyFailed(reason)) && Halved(size, k) == 1
  }

  /** The request loop for one start leaf: shrinks the request until a reply verifies. */
  method FetchVerified(peer: Peer, headed: bool, start: nat, size: nat, sent: nat)
    returns (r: Result<Reply, SyncError>, reqSize: nat, requests: nat)
    requires size > 0
    ensures 0 < reqSize <= size && sent < requests
    ensures requests + Log2(reqSize) == sent + 1 + Log2(size)
    ensures reqSize == Halved(size, requests - sent - 1)
    ensures Fetched(peer, headed, start, size, sent, requests - sent - 1, r)
    ensures r.Ok? ==>
              && peer.utxos(requests - 1, start, reqSize) == Ok(r.value) && r.value.full
              && Verified(headed, r.value, peer.verdict(requests - 1, r.value)) == Accept
    ensures Plain(peer) ==>
              && requests == sent + 1 && reqSize == size
              && (Good(headed, peer.utxos(sent, start, size), start) ==> r == peer.utxos(sent, start, size))
    ensures Yields(peer, headed) ==> r.Ok? && Good(headed, r, start)
  {
    hide Good, Verified, Scannable, Halved, Attempt, Shrunk, Fetched, Yields, Plain, Log2;
    NothingShrunk(peer, headed, start, size, sent);
    VerdictOfPlain(peer, headed);
    reqSize, requests := size, sent;
    while true
      invariant 0 < reqSize <= size && sent <= requests && reqSize == Halved(size, requests - sent)
      invariant requests + Log2(reqSize) == sent + Log2(size)
      invariant Shrunk(peer, headed, start, size, sent, requests - sent)
      invariant Plain(peer) ==> requests == sent && reqSize == size
      decreases reqSize
    {
      YieldsHere(peer, headed, requests, start, reqSize);
      EndsHere(peer, headed, start, size, sent, requests - sent);
      if reqSize > 1 { ShrinksHere(peer, headed, start, size, sent, requests - sent); }
      GoodVerifies(peer, headed, requests, start, reqSize);
      var reply := peer.utxos(requests, start, reqSize);
      requests := requests + 1;
      if reply.Err? {
        return Err(reply.error), reqSize, requests;
      }
      if !reply.value.full {
        return Err(WrongFormat), reqSize, requests;
      }
      match Verified(headed, reply.value, peer.verdict(requests - 1, reply.value)) {
        case Accept =>
          return Ok(reply.value), reqSize, requests;
        case Fatal(reason) =>
          return Err(VerifyFailed(reason)), reqSize, requests;
        case Shrinkable(reason) =>
          if reqSize <= 1 {
            return Err(VerifyFailed(reason)), reqSize, requests;
          }
          reqSize := reqSize / 2;
      }
    }
  }

  lemma NothingShrunk(peer: Peer, headed: bool, start: nat, size: nat, sent: nat)
    ensures Shrunk(peer, headed, start, size, sent, 0) && Halved(size, 0) == size
  {
  }

  lemma YieldsHere(peer: Peer, headed: bool, n: nat, start: nat, size: nat)
    requires size > 0
    ensures Yields(peer, headed) ==> YieldsAt(peer, headed, n, start, size)
  {
    hide YieldsAt;
  }

  /** What it means for the requests to end with the k-th, given the reply to it. */
  ghost predicate EndsAt(
    peer: Peer, headed: bool, start: nat, size: nat, sent: nat, k: nat, reply: Result<Reply, SyncError>)
  {
    if reply.Err? then Fetched(peer, headed, start, size, sent, k, Err(reply.error))
    else if !reply.value.full then Fetched(peer, headed, start, size, sent, k, Err(WrongFormat))
    else match Verified(headed, reply.value, peer.verdict(sent + k, reply.value))
      case Accept => Fetched(peer, headed, start, size, sent, k, Ok(reply.value))
      case Fatal(reason) => Fetched(peer, headed, start, size, sent, k, Err(VerifyFailed(reason)))
      case Shrinkable(reason) =>
        Halved(size, k) == 1 ==> Fetched(peer, headed, start, size, sent, k, Err(VerifyFailed(reason)))
  }

  lemma EndsHere(peer: Peer, headed: bool, start: nat, size: nat, sent: nat, k: nat)
    requires Shrunk(peer, headed, start, size, sent, k)
    ensures EndsAt(peer, headed, start, size, sent, k, peer.utxos(sent + k, start, Halved(size, k)))
  {
    hide Verified, Halved, Shrunk;
  }

  /** And to go on with half the size. */
  lemma ShrinksHere(peer: Peer, headed: bool, start: nat, size: nat, sent: nat, k: nat)
    requires Shrunk(peer, headed, start, size, sent, k) && Halved(size, k) > 1
    ensures var reply := peer.utxos(sent + k, start, Halved(size, k));
            reply.Ok? && reply.value.full
            && Verified(headed, reply.value, peer.verdict(sent + k, reply.value)).Shrinkable? ==>
              Shrunk(peer, headed, start, size, sent, k + 1)
    ensures Halved(size, k + 1) == Halved(size, k) / 2 && Log2(Halved(size, k)) == 1 + Log2(Halved(size, k) / 2)
  {
    hide Verified;
  }

  lemma VerdictOfPlain(peer: Peer, headed: bool)
    ensures Plain(peer) ==> forall n, reply :: !Verified(headed, reply, peer.verdict(n, reply)).Shrinkable?
  {
  }

  lemma GoodVerifies(peer: Peer, headed: bool, n: nat, start: nat, size: nat)
    ensures Plain(peer) && Good(headed, peer.utxos(n, start, size), start) ==>
              var reply := peer.utxos(n, start, size);
              reply.value.full && Verified(headed, reply.value, peer.verdict(n, reply.value)) == Accept
  {
  }

  /** The last leaf that a reply to a request from `start` passes. */
  function Reach(start: nat, reply: Reply): nat {
    if reply.utxos == [] then start else LastLeaf(reply)
  }

  /** The reply to a request from `start` passes `leaf`, whether or not it carries it. */
  predicate Accounts(start: nat, reply: Reply, leaf: nat) {
    start <= leaf <= Reach(start, reply)
  }

  predicate Carries(reply: Reply, leaf: nat) {
    exists i :: 0 <= i < |reply.utxos| && reply.utxos[i].leaf == leaf
  }

  /** Some reply passed the leaf. */
  ghost predicate Covered(accepted: seq<(nat, Reply)>, leaf: nat) {
    exists k :: 0 <= k < |accepted| && Accounts(accepted[k].0, accepted[k].1, leaf)
  }

  lemma CoveredGrows(a: seq<(nat, Reply)>, b: seq<(nat, Reply)>, leaf: nat)
    ensures Covered(a, leaf) || Covered(b, leaf) ==> Covered(a + b, leaf)
  {
    if Covered(a, leaf) {
      var k :| 0 <= k < |a| && Accounts(a[k].0, a[k].1, leaf);
      assert (a + b)[k] == a[k];
    }
    if Covered(b, leaf) {
      var k :| 0 <= k < |b| && Accounts(b[k].0, b[k].1, leaf);
      assert (a + b)[|a| + k] == b[k];
    }
  }

  // --- Scanning ---

  /** An owned output that the peer gave in a verified reply. */
  ghost predicate Got(peer: Peer, u: Utxo) {
    peer.owned(u) == Ok(true) && exists start, reply :: Answers(peer, start, reply) && u in reply.utxos
  }

  /** The coins only gained owned outputs of the given added leaves. */
  ghost predicate OnlyGained(peer: Peer, before: map<OutputId, Coin>, after: map<OutputId, Coin>, added: seq<nat>) {
    && before.Keys <= after.Keys
    && forall id :: id in after ==>
         || (id in before && after[id] == before[id])
         || (after[id].leafIndex.Some? && after[id].leafIndex.value in added
             && Got(peer, Utxo(after[id].leafIndex.value, id)))
  }

  lemma OnlyGainedInTurn(
    peer: Peer, a: map<OutputId, Coin>, b: map<OutputId, Coin>, c: map<OutputId, Coin>, added: seq<nat>)
    requires OnlyGained(peer, a, b, added) && OnlyGained(peer, b, c, added)
    ensures OnlyGained(peer, a, c, added)
  {
    hide Got;
  }

  /** An unspent coin of one of the given leaves. */
  ghost predicate Holds(peer: Peer, coins: map<OutputId, Coin>, id: OutputId, added: seq<nat>) {
    && id in coins && coins[id].leafIndex.Some? && coins[id].leafIndex.value in added
    && Got(peer, Utxo(coins[id].leafIndex.value, id))
  }

  /** Every owned one of the entries is among the coins. */
  ghost predicate Kept(peer: Peer, entries: seq<Utxo>, added: seq<nat>, coins: map<OutputId, Coin>) {
    forall u :: u in entries && peer.owned(u) == Ok(true) ==> Holds(peer, coins, u.output, added)
  }

  /** The coin is an owned one of the entries. */
  predicate From(peer: Peer, entries: seq<Utxo>, id: OutputId, coin: Coin) {
    && coin.leafIndex.Some? && Utxo(coin.leafIndex.value, id) in entries
    && peer.owned(Utxo(coin.leafIndex.value, id)) == Ok(true)
  }

  ghost predicate GainedFrom(
    peer: Peer, before: map<OutputId, Coin>, after: map<OutputId, Coin>, entries: seq<Utxo>)
  {
    && before.Keys <= after.Keys
    && forall id :: id in after ==> (id in before && after[id] == before[id]) || From(peer, entries, id, after[id])
  }

  ghost predicate Scanned(peer: Peer, entries: seq<Utxo>, coins: map<OutputId, Coin>) {
    forall u :: u in entries && peer.owned(u) == Ok(true) ==>
      u.output in coins && From(peer, entries, u.output, coins[u.output])
  }

  /** A coin of a leaf carries the height that its leaf is dated at. */
  ghost predicate DatedByLeaf(coin: Coin, heightMap: map<nat, nat>, tip: nat) {
    coin.leafIndex.Some? && coin.height.Some? && Dates(heightMap, coin.leafIndex.value, tip, coin.height.value)
  }

  /** Coins that were gained are dated. */
  ghost predicate GainedDated(
    before: map<OutputId, Coin>, after: map<OutputId, Coin>, heightMap: map<nat, nat>, tip: nat)
  {
    forall id :: id in after ==> (id in before && after[id] == before[id]) || DatedByLeaf(after[id], heightMap, tip)
  }

  lemma GainedDatedInTurn(
    a: map<OutputId, Coin>, b: map<OutputId, Coin>, c: map<OutputId, Coin>, heightMap: map<nat, nat>, tip: nat)
    requires GainedDated(a, b, heightMap, tip) && GainedDated(b, c, heightMap, tip)
    ensures GainedDated(a, c, heightMap, tip)
  {
    hide DatedByLeaf;
  }

  lemma NothingDated(coins: map<OutputId, Coin>, heightMap: map<nat, nat>, tip: nat)
    ensures GainedDated(coins, coins, heightMap, tip)
  {
  }

  lemma InsertedDated(
    before: map<OutputId, Coin>, coins: map<OutputId, Coin>, u: Utxo, height: nat, heightMap: map<nat, nat>, tip: nat)
    requires GainedDated(before, coins, heightMap, tip) && Dates(heightMap, u.leaf, tip, height)
    ensures GainedDated(before, coins[u.output := Coin(u.output, Some(u.leaf), Some(height))], heightMap, tip)
  {
    hide Dates;
  }

  /** `scan_utxo_entries_at`: inserts the owned entries, up to the first that cannot be scanned. */
  method ScanEntries(db: MwebCoinDatabase, peer: Peer, entries: seq<Utxo>, heightMap: map<nat, nat>, tip: nat)
    returns (r: Result<seq<OutputId>, SyncError>)
    requires db.Valid()
    modifies db
    ensures db.Valid() && GainedFrom(peer, old(db.coins), db.coins, entries) && old(db.Known()) <= db.Known()
    ensures GainedDated(old(db.coins), db.coins, heightMap, tip)
    ensures r.Ok? ==> Scanned(peer, entries, db.coins)
    ensures (forall u :: u in entries ==> peer.owned(u).Ok?) ==> r.Ok?
    ensures r.Ok? ==> forall id :: id in r.value <==>
              exists u :: u in entries && peer.owned(u) == Ok(true) && u.output == id
  {
    hide GainedDated, DatedByLeaf, Dates;
    NothingDated(db.coins, heightMap, tip);
    var found := [];
    for i := 0 to |entries|
      invariant db.Valid() && GainedFrom(peer, old(db.coins), db.coins, entries) && old(db.Known()) <= db.Known()
      invariant GainedDated(old(db.coins), db.coins, heightMap, tip)
      invariant forall k :: 0 <= k < i && peer.owned(entries[k]) == Ok(true) ==>
                entries[k].output in db.coins
                && From(peer, entries, entries[k].output, db.coins[entries[k].output])
      invariant forall id :: id in found <==>
                  exists k :: 0 <= k < i && peer.owned(entries[k]) == Ok(true) && entries[k].output == id
    {
      var mine := peer.owned(entries[i]);
      if mine.Err? {
        return Err(mine.error);
      }
      if mine.value {
        var height := DateLeafIndex(heightMap, entries[i].leaf, tip);
        assert entries[i] == Utxo(entries[i].leaf, entries[i].output);
        InsertedDated(old(db.coins), db.coins, entries[i], height, heightMap, tip);
        db.Insert(Coin(entries[i].output, Some(entries[i].leaf), Some(height)));
        found := found + [entries[i].output];
      }
    }
    forall id ensures id in found <==> exists u :: u in entries && peer.owned(u) == Ok(true) && u.output == id {
      if u :| u in entries && peer.owned(u) == Ok(true) && u.output == id {
        var k :| 0 <= k < |entries| && entries[k] == u;
      }
    }
    return Ok(found);
  }

  /** The utxos of added leaves. */
  function AddedEntries(utxos: seq<Utxo>, added: seq<nat>): (r: seq<Utxo>)
    ensures forall u :: u in r <==> u in utxos && u.leaf in added
  {
    if utxos == [] then []
    else
      assert utxos == [utxos[0]] + utxos[1..];
      (if utxos[0].leaf in added then [utxos[0]] else []) + AddedEntries(utxos[1..], added)
  }

  /** What the scan of an answer gained and kept. */
  lemma ScannedAnswer(
    peer: Peer, start: nat, reply: Reply, added: seq<nat>, before: map<OutputId, Coin>, after: map<OutputId, Coin>)
    requires Answers(peer, start, reply) && GainedFrom(peer, before, after, AddedEntries(reply.utxos, added))
    ensures OnlyGained(peer, before, after, added)
    ensures Scanned(peer, AddedEntries(reply.utxos, added), after) ==>
              Kept(peer, AddedEntries(reply.utxos, added), added, after)
  {
    hide Answers;
    var entries := AddedEntries(reply.utxos, added);
    forall id | id in after && From(peer, entries, id, after[id])
      ensures after[id].leafIndex.value in added && Got(peer, Utxo(after[id].leafIndex.value, id))
    {
      assert Utxo(after[id].leafIndex.value, id) in reply.utxos;
    }
  }

  // --- The loop ---

  /** The first index from `start` on past every leaf at or below `leaf`. */
  function Skipped(indices: seq<nat>, start: nat, leaf: nat): (i: nat)
    requires start <= |indices|
    ensures start <= i <= |indices|
    decreases |indices| - start
  {
    if start < |indices| && indices[start] <= leaf then Skipped(indices, start + 1, leaf) else start
  }

  method SkipUpTo(indices: seq<nat>, start: nat, leaf: nat) returns (i: nat)
    requires Ascending(indices) && start <= |indices|
    ensures i == Skipped(indices, start, leaf) && start <= i <= |indices|
    ensures forall k :: start <= k < i ==> indices[k] <= leaf
    ensures forall k :: i <= k < |indices| ==> indices[k] > leaf
  {
    i := start;
    while i < |indices| && indices[i] <= leaf
      invariant start <= i <= |indices| && Skipped(indices, i, leaf) == Skipped(indices, start, leaf)
      invariant forall k :: start <= k < i ==> indices[k] <= leaf
    {
      i := i + 1;
    }
  }

  /** A batch that advances by its first leaf moves the cursor exactly if its last leaf reaches the start too. */
  lemma ProgressNeedsLastLeaf(indices: seq<nat>, i: nat, reply: Reply)
    requires i < |indices| && reply.utxos != [] && CheckAdvances(reply, indices[i]) == None
    ensures Skipped(indices, i, LastLeaf(reply)) > i <==> LastLeaf(reply) >= indices[i]
  {
  }

  /** In order, a batch that advances by its first leaf always makes progress. */
  lemma OrderMakesProgress(indices: seq<nat>, i: nat, reply: Reply)
    requires i < |indices| && reply.utxos != [] && CheckAdvances(reply, indices[i]) == None && InOrder(reply.utxos)
    ensures Skipped(indices, i, LastLeaf(reply)) > i
  {
    Between(reply.utxos, 0, |reply.utxos| - 1);
  }

  /** Leaves in order ascend over any distance. */
  lemma {:induction false} Between(utxos: seq<Utxo>, i: nat, j: nat)
    requires InOrder(utxos) && i <= j < |utxos|
    ensures utxos[i].leaf <= utxos[j].leaf && (i < j ==> utxos[i].leaf < utxos[j].leaf)
    decreases j
  {
    if i < j { Between(utxos, i, j - 1); }
  }

  const UNORDERED_REPLY := Reply(true, [Utxo(5, 0), Utxo(2, 1)])

  /**
    Leaves 5 and 2 in answer to a request from leaf 4: accepted as advancing, and yet the cursor stays.
    Only without a header does it come that far.
   */
  lemma AdvancingWithoutProgress()
    ensures CheckAdvances(UNORDERED_REPLY, 4) == None && Skipped([4], 0, LastLeaf(UNORDERED_REPLY)) == 0
    ensures Verified(false, UNORDERED_REPLY, Accept) == Accept
    ensures forall rest :: Verified(true, UNORDERED_REPLY, rest).Fatal?
  {
    assert UNORDERED_REPLY.utxos[0].leaf > UNORDERED_REPLY.utxos[1].leaf;
  }

  /** What a download has to show for the leaves it passed. */
  ghost predicate Passed(indices: seq<nat>, start: nat, passed: nat, accepted: seq<(nat, Reply)>) {
    && start <= passed <= |indices|
    && forall k :: start <= k < passed ==> Covered(accepted, indices[k])
  }

  /** A reply passes the leaves up to its last one, and an empty one that asked for. */
  predicate MovesTo(indices: seq<nat>, passed: nat, next: nat, reply: Reply) {
    && passed < next <= |indices|
    && if reply.utxos == [] then next == passed + 1
       else && (forall k :: passed <= k < next ==> indices[k] <= LastLeaf(reply))
            && (forall k :: next <= k < |indices| ==> indices[k] > LastLeaf(reply))
  }

  lemma PassedMore(indices: seq<nat>, start: nat, passed: nat, next: nat, accepted: seq<(nat, Reply)>, reply: Reply)
    requires Ascending(indices) && Passed(indices, start, passed, accepted) && MovesTo(indices, passed, next, reply)
    ensures Passed(indices, start, next, accepted + [(indices[passed], reply)])
  {
    var more := accepted + [(indices[passed], reply)];
    forall k | start <= k < next ensures Covered(more, indices[k]) {
      if k < passed {
        CoveredGrows(accepted, [(indices[passed], reply)], indices[k]);
      } else {
        assert more[|accepted|] == (indices[passed], reply);
        assert Accounts(more[|accepted|].0, more[|accepted|].1, indices[k]);
      }
    }
  }

  /** Every accepted reply is an answer of the peer to a request that starts at one of the leaves. */
  ghost predicate Asked(peer: Peer, leaves: seq<nat>, accepted: seq<(nat, Reply)>) {
    forall k :: 0 <= k < |accepted| ==> accepted[k].0 in leaves && Answers(peer, accepted[k].0, accepted[k].1)
  }

  /** The peer gives the reply to some request, and it verifies unless it is empty. */
  ghost predicate Answers(peer: Peer, start: nat, reply: Reply) {
    exists n, size ::
      peer.utxos(n, start, size) == Ok(reply) && (reply.utxos != [] ==> peer.verdict(n, reply) == Accept)
  }

  lemma ServedWell(peer: Peer, headed: bool, n: nat, start: nat, size: nat)
    ensures Plain(peer) || Yields(peer, headed) ==> Scannable(peer)
    ensures Reliable(peer, headed) ==> Plain(peer) && Good(headed, peer.utxos(n, start, size), start)
    ensures n == 0 && OpensWell(peer, headed, start, size) ==>
              Plain(peer) && Good(headed, peer.utxos(n, start, size), start)
  {
  }

  lemma ScansAll(peer: Peer, entries: seq<Utxo>)
    requires Scannable(peer)
    ensures (forall u :: u in entries ==> peer.owned(u).Ok?) && peer.proven(entries)
  {
  }

  lemma PeerAnswers(peer: Peer, headed: bool, n: nat, start: nat, size: nat, reply: Reply)
    requires peer.utxos(n, start, size) == Ok(reply)
    requires Verified(headed, reply, peer.verdict(n, reply)) == Accept
    ensures Answers(peer, start, reply) && (headed ==> InOrder(reply.utxos))
  {
  }

  lemma AskedMore(peer: Peer, leaves: seq<nat>, accepted: seq<(nat, Reply)>, start: nat, reply: Reply)
    requires Asked(peer, leaves, accepted) && start in leaves && Answers(peer, start, reply)
    ensures Asked(peer, leaves, accepted + [(start, reply)])
  {
  }

  /** Replies that start at or after the leaf asked for, reach it, and follow each other without overlap. */
  ghost predicate Steps(headed: bool, accepted: seq<(nat, Reply)>) {
    && (forall k :: 0 <= k < |accepted| ==>
          && CheckAdvances(accepted[k].1, accepted[k].0) == None
          && accepted[k].0 <= Reach(accepted[k].0, accepted[k].1)
          && (headed ==> InOrder(accepted[k].1.utxos)))
    && (forall j, k :: 0 <= j < k < |accepted| ==> Reach(accepted[j].0, accepted[j].1) < accepted[k].0)
  }

  /** No reply reaches the leaves that are left. */
  ghost predicate Short(indices: seq<nat>, passed: nat, accepted: seq<(nat, Reply)>) {
    forall k, i :: 0 <= k < |accepted| && passed <= i < |indices| ==>
      Reach(accepted[k].0, accepted[k].1) < indices[i]
  }

  lemma StepsMore(
    headed: bool, indices: seq<nat>, passed: nat, next: nat, accepted: seq<(nat, Reply)>, reply: Reply)
    requires Ascending(indices) && passed < next <= |indices|
    requires Steps(headed, accepted) && Short(indices, passed, accepted)
    requires CheckAdvances(reply, indices[passed]) == None && (headed ==> InOrder(reply.utxos))
    requires indices[passed] <= Reach(indices[passed], reply)
    requires forall k :: next <= k < |indices| ==> indices[k] > Reach(indices[passed], reply)
    ensures Steps(headed, accepted + [(indices[passed], reply)])
    ensures Short(indices, next, accepted + [(indices[passed], reply)])
  {
    hide InOrder, CheckAdvances, Reach, Ascending;
  }

  // --- What a download receives ---

  /** Some reply carries the leaf. */
  ghost predicate Received(accepted: seq<(nat, Reply)>, leaf: nat) {
    exists k :: 0 <= k < |accepted| && Carries(accepted[k].1, leaf)
  }

  /** Some reply passes the leaf without carrying it. */
  ghost predicate Missed(accepted: seq<(nat, Reply)>, leaf: nat) {
    exists k :: 0 <= k < |accepted| && Accounts(accepted[k].0, accepted[k].1, leaf) && !Carries(accepted[k].1, leaf)
  }

  /** In order, a reply only carries leaves that it passes. */
  lemma CarriedIsPassed(start: nat, reply: Reply, leaf: nat)
    requires InOrder(reply.utxos) && CheckAdvances(reply, start) == None && Carries(reply, leaf)
    ensures Accounts(start, reply, leaf)
  {
    var i :| 0 <= i < |reply.utxos| && reply.utxos[i].leaf == leaf;
    Between(reply.utxos, 0, i);
    Between(reply.utxos, i, |reply.utxos| - 1);
  }

  /** With a header, a leaf that is passed is either received or missed, and never both. */
  lemma ReceivedOrMissed(accepted: seq<(nat, Reply)>, leaf: nat)
    requires Steps(true, accepted)
    ensures Received(accepted, leaf) ==> Covered(accepted, leaf) && !Missed(accepted, leaf)
    ensures Covered(accepted, leaf) ==> Received(accepted, leaf) || Missed(accepted, leaf)
  {
    hide Accounts, Carries, InOrder, CheckAdvances;
    if k :| 0 <= k < |accepted| && Carries(accepted[k].1, leaf) {
      CarriedIsPassed(accepted[k].0, accepted[k].1, leaf);
      forall j | 0 <= j < |accepted| && Accounts(accepted[j].0, accepted[j].1, leaf) ensures j == k {
        PassedOnce(accepted, j, k, leaf);
      }
    }
  }

  lemma PassedOnce(accepted: seq<(nat, Reply)>, j: nat, k: nat, leaf: nat)
    requires Steps(true, accepted) && j < |accepted| && k < |accepted|
    requires Accounts(accepted[j].0, accepted[j].1, leaf) && Accounts(accepted[k].0, accepted[k].1, leaf)
    ensures j == k
  {
  }

  /** The reply carries every one of the leaves that it passes. */
  ghost predicate Whole(leaves: seq<nat>, start: nat, reply: Reply) {
    forall leaf :: leaf in leaves && Accounts(start, reply, leaf) ==> Carries(reply, leaf)
  }

  /** The reply leaves out none of the leaves between its first and its last one, as a segment proof shows. */
  ghost predicate GapFree(leaves: seq<nat>, reply: Reply) {
    reply.utxos != [] ==>
      forall leaf :: leaf in leaves && reply.utxos[0].leaf <= leaf <= LastLeaf(reply) ==> Carries(reply, leaf)
  }

  /** So a reply in order carries all that it passes exactly if it opens with the leaf asked for. */
  lemma OpensWhole(leaves: seq<nat>, start: nat, reply: Reply)
    requires start in leaves && CheckAdvances(reply, start) == None && start <= Reach(start, reply)
    requires InOrder(reply.utxos) && GapFree(leaves, reply)
    ensures Whole(leaves, start, reply) <==> reply.utxos != [] && reply.utxos[0].leaf == start
  {
    if Whole(leaves, start, reply) {
      var i :| 0 <= i < |reply.utxos| && reply.utxos[i].leaf == start;
      Between(reply.utxos, 0, i);
    }
  }

  /** The last leaf of the last non-empty reply, if there is one. */
  function CursorAfter(cursor: Option<nat>, accepted: seq<(nat, Reply)>): Option<nat> {
    if accepted == [] then cursor
    else
      var reply := accepted[|accepted| - 1].1;
      if reply.utxos != [] then Some(LastLeaf(reply)) else CursorAfter(cursor, accepted[..|accepted| - 1])
  }

  lemma NothingAsked(peer: Peer, leaves: seq<nat>, cursor: Option<nat>)
    ensures Asked(peer, leaves, []) && CursorAfter(cursor, []) == cursor
  {
  }

  lemma CursorAfterMore(cursor: Option<nat>, accepted: seq<(nat, Reply)>, start: nat, reply: Reply)
    ensures CursorAfter(cursor, accepted + [(start, reply)])
         == if reply.utxos != [] then Some(LastLeaf(reply)) else CursorAfter(cursor, accepted)
  {
    var more := accepted + [(start, reply)];
    assert more[..|more| - 1] == accepted;
  }

  /** All added and owned outputs of the accepted replies are kept. */
  ghost predicate AllKept(peer: Peer, accepted: seq<(nat, Reply)>, added: seq<nat>, coins: map<OutputId, Coin>) {
    forall k :: 0 <= k < |accepted| ==> Kept(peer, AddedEntries(accepted[k].1.utxos, added), added, coins)
  }

  lemma AllKeptMore(
    peer: Peer, accepted: seq<(nat, Reply)>, added: seq<nat>, coins: map<OutputId, Coin>, next: (nat, Reply))
    requires AllKept(peer, accepted, added, coins) && Kept(peer, AddedEntries(next.1.utxos, added), added, coins)
    ensures AllKept(peer, accepted + [next], added, coins)
  {
  }

  lemma NothingGained(peer: Peer, coins: map<OutputId, Coin>, added: seq<nat>)
    ensures OnlyGained(peer, coins, coins, added) && AllKept(peer, [], added, coins)
  {
  }

  lemma AllKeptGrown(peer: Peer, accepted: seq<(nat, Reply)>, added: seq<nat>,
                     before: map<OutputId, Coin>, after: map<OutputId, Coin>)
    requires AllKept(peer, accepted, added, before) && OnlyGained(peer, before, after, added)
    ensures AllKept(peer, accepted, added, after)
  {
  }

  /** The outputs of the entries that are owned. */
  function Owned(peer: Peer, entries: seq<Utxo>): set<OutputId> {
    set u | u in entries && peer.owned(u) == Ok(true) :: u.output
  }

  /** The owned added outputs of the accepted replies. */
  function Found(peer: Peer, accepted: seq<(nat, Reply)>, added: seq<nat>): set<OutputId> {
    if accepted == [] then {}
    else
      Found(peer, accepted[..|accepted| - 1], added)
      + Owned(peer, AddedEntries(accepted[|accepted| - 1].1.utxos, added))
  }

  lemma FoundMore(peer: Peer, accepted: seq<(nat, Reply)>, added: seq<nat>, next: (nat, Reply))
    ensures Found(peer, accepted + [next], added)
         == Found(peer, accepted, added) + Owned(peer, AddedEntries(next.1.utxos, added))
  {
    var more := accepted + [next];
    assert more[..|more| - 1] == accepted;
  }

  ghost predicate Lists(found: seq<OutputId>, ids: set<OutputId>) {
    forall id :: id in found <==> id in ids
  }

  lemma ListsMore(found: seq<OutputId>, ids: set<OutputId>, more: seq<OutputId>, ids': set<OutputId>)
    requires Lists(found, ids) && Lists(more, ids')
    ensures Lists(found + more, ids + ids')
  {
  }

  lemma ScannedFound(peer: Peer, entries: seq<Utxo>, found: seq<OutputId>)
    requires forall id :: id in found <==> exists u :: u in entries && peer.owned(u) == Ok(true) && u.output == id
    ensures Lists(found, Owned(peer, entries))
  {
  }

  function OutputsOf(entries: seq<Utxo>): set<OutputId> {
    set u | u in entries :: u.output
  }

  /** The added outputs of the accepted replies. */
  function Seen(accepted: seq<(nat, Reply)>, added: seq<nat>): set<OutputId> {
    if accepted == [] then {}
    else Seen(accepted[..|accepted| - 1], added) + OutputsOf(AddedEntries(accepted[|accepted| - 1].1.utxos, added))
  }

  lemma NothingSeen(added: seq<nat>, reply: Reply)
    ensures Seen([], added) == {} && (reply.utxos == [] ==> OutputsOf(AddedEntries(reply.utxos, added)) == {})
  {
  }

  lemma SeenMore(accepted: seq<(nat, Reply)>, added: seq<nat>, next: (nat, Reply))
    ensures Seen(accepted + [next], added) == Seen(accepted, added) + OutputsOf(AddedEntries(next.1.utxos, added))
  {
    var more := accepted + [next];
    assert more[..|more| - 1] == accepted;
  }

  /** The cursor has only moved over leaves that were passed. */
  ghost predicate CursorBehind(cursor: Option<nat>, indices: seq<nat>, passed: nat) {
    cursor.Some? ==> forall k :: 0 <= k < |indices| && indices[k] <= cursor.value ==> k < passed
  }

  /** The cursor is the old one, or a leaf reached by the download behind which everything was passed. */
  ghost predicate CursorMoved(
    before: Option<nat>, cursor: Option<nat>, indices: seq<nat>, start: nat, passed: nat)
  {
    cursor == before
    || (start < |indices| && cursor.Some? && indices[start] <= cursor.value && CursorBehind(cursor, indices, passed))
  }

  lemma CursorStays(before: Option<nat>, cursor: Option<nat>, indices: seq<nat>, start: nat, passed: nat)
    requires cursor == before || CursorMoved(before, cursor, indices, start, passed)
    ensures CursorMoved(before, cursor, indices, start, passed)
         && CursorMoved(before, cursor, indices, start, passed + 1)
  {
  }

  lemma CursorMore(
    before: Option<nat>, cursor: Option<nat>, indices: seq<nat>, start: nat, passed: nat, next: nat, reply: Reply)
    requires Ascending(indices) && start <= passed && MovesTo(indices, passed, next, reply)
    requires CursorMoved(before, cursor, indices, start, passed)
    ensures CursorMoved(before, if reply.utxos == [] then cursor else Some(LastLeaf(reply)), indices, start, next)
  {
    hide LastLeaf, Ascending, CursorMoved;
    if reply.utxos == [] {
      CursorStays(before, cursor, indices, start, passed);
    } else {
      CursorAtLast(before, indices, start, passed, next, LastLeaf(reply));
    }
  }

  lemma CursorAtLast(before: Option<nat>, indices: seq<nat>, start: nat, passed: nat, next: nat, last: nat)
    requires Ascending(indices) && start <= passed < next <= |indices|
    requires forall k :: passed <= k < next ==> indices[k] <= last
    requires forall k :: next <= k < |indices| ==> indices[k] > last
    ensures CursorMoved(before, Some(last), indices, start, next)
  {
    assert indices[start] <= indices[passed];
  }

  datatype Progress = Progress(passed: nat, cursor: Option<nat>, fetched: set<OutputId>, found: seq<OutputId>)

  /** What a download has to show, given the replies it accepted, the cursor it began with and the coins. */
  ghost predicate Gathered(
    peer: Peer, headed: bool, indices: seq<nat>, start: nat, cursor: Option<nat>, accepted: seq<(nat, Reply)>,
    p: Progress, coins: map<OutputId, Coin>)
  {
    && Passed(indices, start, p.passed, accepted) && Asked(peer, indices[start..], accepted)
    && AllKept(peer, accepted, indices, coins) && Lists(p.found, Found(peer, accepted, indices))
    && p.fetched == Seen(accepted, indices)
    && Steps(headed, accepted) && Short(indices, p.passed, accepted)
    && p.cursor == CursorAfter(cursor, accepted) && CursorMoved(cursor, p.cursor, indices, start, p.passed)
  }

  lemma NothingGathered(
    peer: Peer, headed: bool, indices: seq<nat>, start: nat, cursor: Option<nat>, coins: map<OutputId, Coin>)
    requires start <= |indices|
    ensures Gathered(peer, headed, indices, start, cursor, [], Progress(start, cursor, {}, []), coins)
  {
    NothingAsked(peer, indices[start..], cursor);
    NothingSeen(indices, Reply(true, []));
  }

  lemma GatheredKept(
    peer: Peer, headed: bool, indices: seq<nat>, start: nat, cursor: Option<nat>, accepted: seq<(nat, Reply)>,
    p: Progress, before: map<OutputId, Coin>, after: map<OutputId, Coin>)
    requires Gathered(peer, headed, indices, start, cursor, accepted, p, before)
    requires OnlyGained(peer, before, after, indices)
    ensures Gathered(peer, headed, indices, start, cursor, accepted, p, after)
  {
    hide OnlyGained, AllKept, Lists, Owned, Found, Passed, Asked, Seen, CursorAfter, CursorMoved, Steps, Short;
    AllKeptGrown(peer, accepted, indices, before, after);
  }

  lemma GatheredMore(
    peer: Peer, headed: bool, indices: seq<nat>, start: nat, cursor: Option<nat>, accepted: seq<(nat, Reply)>,
    p: Progress, coins: map<OutputId, Coin>, reply: Reply, found: seq<OutputId>, next: nat)
    requires Gathered(peer, headed, indices, start, cursor, accepted, p, coins)
    requires Ascending(indices) && MovesTo(indices, p.passed, next, reply) && Answers(peer, indices[p.passed], reply)
    requires (headed ==> InOrder(reply.utxos)) && CheckAdvances(reply, indices[p.passed]) == None
    requires Kept(peer, AddedEntries(reply.utxos, indices), indices, coins)
    requires Lists(found, Owned(peer, AddedEntries(reply.utxos, indices)))
    ensures Gathered(
              peer, headed, indices, start, cursor, accepted + [(indices[p.passed], reply)],
              Progress(next, if reply.utxos == [] then p.cursor else Some(LastLeaf(reply)),
                       p.fetched + OutputsOf(AddedEntries(reply.utxos, indices)), p.found + found),
              coins)
  {
    hide Steps, Short, InOrder, CheckAdvances, Reach, Ascending, LastLeaf, Accounts, Covered, Asked, Answers, Holds,
         Kept, AllKept, Lists, Owned, Found, Seen, OutputsOf, AddedEntries, CursorAfter, CursorBehind, CursorMoved,
         Passed, MovesTo;
    Moved(indices, p.passed, next, reply);
    PassedWithin(indices, start, p.passed, accepted);
    var leaf := indices[p.passed];
    assert leaf == indices[start..][p.passed - start];
    PassedMore(indices, start, p.passed, next, accepted, reply);
    ReachOf(indices, p.passed, next, reply);
    StepsMore(headed, indices, p.passed, next, accepted, reply);
    AskedMore(peer, indices[start..], accepted, leaf, reply);
    AllKeptMore(peer, accepted, indices, coins, (leaf, reply));
    FoundMore(peer, accepted, indices, (leaf, reply));
    ListsMore(p.found, Found(peer, accepted, indices), found, Owned(peer, AddedEntries(reply.utxos, indices)));
    SeenMore(accepted, indices, (leaf, reply));
    CursorAfterMore(cursor, accepted, leaf, reply);
    CursorMore(cursor, p.cursor, indices, start, p.passed, next, reply);
  }

  lemma Moved(indices: seq<nat>, passed: nat, next: nat, reply: Reply)
    requires MovesTo(indices, passed, next, reply)
    ensures passed < next <= |indices|
  {
  }

  lemma ReachOf(indices: seq<nat>, passed: nat, next: nat, reply: Reply)
    requires Ascending(indices) && MovesTo(indices, passed, next, reply)
    ensures indices[passed] <= Reach(indices[passed], reply)
    ensures forall k :: next <= k < |indices| ==> indices[k] > Reach(indices[passed], reply)
  {
  }

  lemma PassedWithin(indices: seq<nat>, start: nat, passed: nat, accepted: seq<(nat, Reply)>)
    requires Passed(indices, start, passed, accepted)
    ensures start <= passed <= |indices|
  {
  }

  lemma EmptyReply(peer: Peer, indices: seq<nat>, reply: Reply, coins: map<OutputId, Coin>)
    requires reply.utxos == []
    ensures Kept(peer, AddedEntries(reply.utxos, indices), indices, coins)
    ensures Lists([], Owned(peer, AddedEntries(reply.utxos, indices)))
    ensures OutputsOf(AddedEntries(reply.utxos, indices)) == {}
  {
  }

  /** An empty reply passes the one leaf asked for. */
  lemma GatheredEmpty(
    peer: Peer, headed: bool, indices: seq<nat>, start: nat, cursor: Option<nat>, accepted: seq<(nat, Reply)>,
    p: Progress, coins: map<OutputId, Coin>, reply: Reply)
    requires Gathered(peer, headed, indices, start, cursor, accepted, p, coins) && reply.utxos == []
    requires Ascending(indices) && p.passed < |indices| && Answers(peer, indices[p.passed], reply)
    ensures Gathered(peer, headed, indices, start, cursor, accepted + [(indices[p.passed], reply)],
              p.(passed := p.passed + 1), coins)
  {
    hide Gathered, Answers, Kept, Lists, Owned, Found, OutputsOf, AddedEntries;
    EmptyReply(peer, indices, reply, coins);
    GatheredMore(peer, headed, indices, start, cursor, accepted, p, coins, reply, [], p.passed + 1);
    assert p.fetched + {} == p.fetched && p.found + [] == p.found;
  }

  /** Every coin was there before or is an owned added output of an accepted reply. */
  ghost predicate FromAccepted(
    peer: Peer, accepted: seq<(nat, Reply)>, added: seq<nat>, before: map<OutputId, Coin>, after: map<OutputId, Coin>)
  {
    forall id :: id in after ==>
      || (id in before && after[id] == before[id])
      || exists k :: 0 <= k < |accepted| && From(peer, AddedEntries(accepted[k].1.utxos, added), id, after[id])
  }

  lemma FromAcceptedMore(
    peer: Peer, accepted: seq<(nat, Reply)>, added: seq<nat>, first: map<OutputId, Coin>,
    before: map<OutputId, Coin>, after: map<OutputId, Coin>, next: (nat, Reply))
    requires FromAccepted(peer, accepted, added, first, before)
    requires GainedFrom(peer, before, after, AddedEntries(next.1.utxos, added))
    ensures FromAccepted(peer, accepted + [next], added, first, after)
  {
    hide From, AddedEntries;
    var more := accepted + [next];
    forall id | id in after && !(id in first && after[id] == first[id])
      ensures exists k :: 0 <= k < |more| && From(peer, AddedEntries(more[k].1.utxos, added), id, after[id])
    {
      if id in before && after[id] == before[id] {
        var k :| 0 <= k < |accepted| && From(peer, AddedEntries(accepted[k].1.utxos, added), id, before[id]);
        assert more[k] == accepted[k];
      } else {
        assert more[|accepted|] == next;
      }
    }
  }

  /** An empty reply changes nothing. */
  lemma FromAcceptedEmpty(
    peer: Peer, accepted: seq<(nat, Reply)>, added: seq<nat>, first: map<OutputId, Coin>,
    coins: map<OutputId, Coin>, next: (nat, Reply))
    requires FromAccepted(peer, accepted, added, first, coins)
    ensures FromAccepted(peer, accepted + [next], added, first, coins)
  {
    FromAcceptedMore(peer, accepted, added, first, coins, coins, next);
  }

  lemma NothingFrom(peer: Peer, added: seq<nat>, coins: map<OutputId, Coin>)
    ensures FromAccepted(peer, [], added, coins, coins)
  {
  }

  /** The scan of one batch: its owned added outputs are kept, and the range proofs of its entries checked. */
  method ScanBatch(
    db: MwebCoinDatabase, peer: Peer, ghost start: nat, batch: Reply, indices: seq<nat>, heightMap: map<nat, nat>,
    tip: nat)
    returns (r: Result<(set<OutputId>, seq<OutputId>), SyncError>)
    requires db.Valid() && Answers(peer, start, batch)
    modifies db
    ensures db.Valid() && OnlyGained(peer, old(db.coins), db.coins, indices) && old(db.Known()) <= db.Known()
    ensures GainedFrom(peer, old(db.coins), db.coins, AddedEntries(batch.utxos, indices))
    ensures GainedDated(old(db.coins), db.coins, heightMap, tip)
    ensures Scannable(peer) ==> r.Ok?
    ensures r.Ok? ==>
              && r.value.0 == OutputsOf(AddedEntries(batch.utxos, indices))
              && Kept(peer, AddedEntries(batch.utxos, indices), indices, db.coins)
              && Lists(r.value.1, Owned(peer, AddedEntries(batch.utxos, indices)))
  {
    hide Scannable, Kept, Holds, OnlyGained, GainedFrom, GainedDated, Scanned, Lists, Owned, Found, Answers;
    var entries := AddedEntries(batch.utxos, indices);
    if Scannable(peer) { ScansAll(peer, entries); }
    var scanned := ScanEntries(db, peer, entries, heightMap, tip);
    ScannedAnswer(peer, start, batch, indices, old(db.coins), db.coins);
    if scanned.Err? {
      return Err(scanned.error);
    }
    ScannedFound(peer, entries, scanned.value);
    if !peer.proven(entries) {
      return Err(RangeproofFailed);
    }
    return Ok((OutputsOf(entries), scanned.value));
  }

  ghost predicate AnswersSize(peer: Peer, start: nat, size: nat, reply: Reply) {
    exists n :: peer.utxos(n, start, size) == Ok(reply)
  }

  /**
    The size asked next: the ceiling at first, after an empty reply the size that it answered, and after
    another one twice that, up to the ceiling.
   */
  function NextSize(ceiling: nat, accepted: seq<(nat, Reply)>, sizes: seq<(nat, nat)>): nat
    requires |sizes| == |accepted|
  {
    if sizes == [] then ceiling
    else
      var size := sizes[|sizes| - 1].1;
      if accepted[|sizes| - 1].1.utxos == [] then size else if 2 * size < ceiling then 2 * size else ceiling
  }

  /** The sizes asked for each accepted reply, at first and in the end. */
  ghost predicate Sized(peer: Peer, ceiling: nat, accepted: seq<(nat, Reply)>, sizes: seq<(nat, nat)>) {
    && |sizes| == |accepted|
    && (sizes != [] ==>
          var last := |sizes| - 1;
          && Sized(peer, ceiling, accepted[..last], sizes[..last])
          && sizes[last].0 == NextSize(ceiling, accepted[..last], sizes[..last])
          && AnswersSize(peer, accepted[last].0, sizes[last].1, accepted[last].1))
  }

  ghost predicate SizedUpTo(
    peer: Peer, ceiling: nat, accepted: seq<(nat, Reply)>, sizes: seq<(nat, nat)>, next: nat)
  {
    Sized(peer, ceiling, accepted, sizes) && next == NextSize(ceiling, accepted, sizes)
  }

  lemma NothingSized(peer: Peer, ceiling: nat)
    ensures SizedUpTo(peer, ceiling, [], [], ceiling)
  {
  }

  lemma SizedMore(
    peer: Peer, ceiling: nat, accepted: seq<(nat, Reply)>, sizes: seq<(nat, nat)>, first: nat, n: nat, start: nat,
    size: nat, reply: Reply, next: nat)
    requires SizedUpTo(peer, ceiling, accepted, sizes, first) && peer.utxos(n, start, size) == Ok(reply)
    requires next == if reply.utxos == [] then size else if 2 * size < ceiling then 2 * size else ceiling
    ensures SizedUpTo(peer, ceiling, accepted + [(start, reply)], sizes + [(first, size)], next)
  {
    var accepted', sizes' := accepted + [(start, reply)], sizes + [(first, size)];
    assert accepted'[..|accepted|] == accepted && sizes'[..|sizes|] == sizes;
  }

  /** After a reply that verified, larger requests are restored. */
  function Grown(size: nat, ceiling: nat): nat {
    if size < ceiling then (if 2 * size < ceiling then 2 * size else ceiling) else size
  }

  lemma GrownCosts(size: nat, ceiling: nat)
    requires 0 < size <= ceiling
    ensures 0 < Grown(size, ceiling) <= ceiling && Log2(Grown(size, ceiling)) <= Log2(size) + 1
  {
    hide Log2;
    Log2OfGrown(size, Grown(size, ceiling));
  }

  lemma TakenEmpty(
    peer: Peer, indices: seq<nat>, ceiling: nat, accepted: seq<(nat, Reply)>, sizes: seq<(nat, nat)>, first: nat,
    n: nat, leaf: nat, size: nat, reply: Reply, coins0: map<OutputId, Coin>, coins: map<OutputId, Coin>)
    requires SizedUpTo(peer, ceiling, accepted, sizes, first) && peer.utxos(n, leaf, size) == Ok(reply)
    requires FromAccepted(peer, accepted, indices, coins0, coins) && reply.utxos == []
    ensures SizedUpTo(peer, ceiling, accepted + [(leaf, reply)], sizes + [(first, size)], size)
    ensures FromAccepted(peer, accepted + [(leaf, reply)], indices, coins0, coins)
  {
    hide SizedUpTo, FromAccepted;
    FromAcceptedEmpty(peer, accepted, indices, coins0, coins, (leaf, reply));
    SizedMore(peer, ceiling, accepted, sizes, first, n, leaf, size, reply, size);
  }

  lemma TakenBatch(
    peer: Peer, indices: seq<nat>, ceiling: nat, accepted: seq<(nat, Reply)>, sizes: seq<(nat, nat)>, first: nat,
    n: nat, leaf: nat, size: nat, reply: Reply, coins0: map<OutputId, Coin>, before: map<OutputId, Coin>,
    coins: map<OutputId, Coin>)
    requires SizedUpTo(peer, ceiling, accepted, sizes, first) && peer.utxos(n, leaf, size) == Ok(reply)
    requires FromAccepted(peer, accepted, indices, coins0, before) && reply.utxos != [] && size <= ceiling
    requires GainedFrom(peer, before, coins, AddedEntries(reply.utxos, indices))
    ensures SizedUpTo(peer, ceiling, accepted + [(leaf, reply)], sizes + [(first, size)], Grown(size, ceiling))
    ensures FromAccepted(peer, accepted + [(leaf, reply)], indices, coins0, coins)
  {
    hide SizedUpTo, FromAccepted, GainedFrom;
    FromAcceptedMore(peer, accepted, indices, coins0, before, coins, (leaf, reply));
    SizedMore(peer, ceiling, accepted, sizes, first, n, leaf, size, reply, Grown(size, ceiling));
  }

  /** The sequential download from index `start` on. */
  method Download(db: MwebCoinDatabase, peer: Peer, headed: bool, indices: seq<nat>, start: nat, cursor: Option<nat>,
                  batchSize: nat, heightMap: map<nat, nat>, tip: nat)
    returns (r: Result<(), SyncError>, p: Progress, requests: nat, ghost accepted: seq<(nat, Reply)>,
             ghost sizes: seq<(nat, nat)>)
    requires db.Valid() && Ascending(indices) && start <= |indices|
    modifies db
    ensures db.Valid() && OnlyGained(peer, old(db.coins), db.coins, indices) && old(db.Known()) <= db.Known()
    ensures GainedDated(old(db.coins), db.coins, heightMap, tip)
    ensures Gathered(peer, headed, indices, start, cursor, accepted, p, db.coins)
    ensures r.Ok? ==> p.passed == |indices| && FromAccepted(peer, accepted, indices, old(db.coins), db.coins)
    ensures start == |indices| || Yields(peer, headed) ==> r.Ok?
    ensures start < |indices| && OpensWell(peer, headed, indices[start], EffectiveBatchSize(batchSize)) ==>
              accepted != []
    ensures exists next :: SizedUpTo(peer, EffectiveBatchSize(batchSize), accepted, sizes, next)
    ensures requests <= 2 * (|indices| - start) + Log2(EffectiveBatchSize(batchSize))
  {
    hide NextSize, Sized, SizedUpTo, Grown, Gathered, Passed, FromAccepted, GainedFrom, InOrder, Yields, Scannable,
         Halved, Fetched, Shrunk, OpensWell, Plain, Skipped, Answers, Kept, OnlyGained, Lists, Owned, Found,
         GainedDated, AddedEntries, OutputsOf, Log2, EffectiveBatchSize;
    NothingGained(peer, db.coins, indices);
    NothingDated(db.coins, heightMap, tip);
    NothingFrom(peer, indices, db.coins);
    NothingGathered(peer, headed, indices, start, cursor, db.coins);
    var ceiling := EffectiveBatchSize(batchSize);
    var reqSize := ceiling;
    p, requests, accepted, sizes := Progress(start, cursor, {}, []), 0, [], [];
    NothingSized(peer, ceiling);
    while p.passed < |indices|
      invariant db.Valid() && OnlyGained(peer, old(db.coins), db.coins, indices) && old(db.Known()) <= db.Known()
      invariant GainedDated(old(db.coins), db.coins, heightMap, tip)
      invariant Gathered(peer, headed, indices, start, cursor, accepted, p, db.coins) && start <= p.passed <= |indices|
      invariant FromAccepted(peer, accepted, indices, old(db.coins), db.coins)
      invariant 0 < reqSize <= ceiling && SizedUpTo(peer, ceiling, accepted, sizes, reqSize)
      invariant requests + Log2(reqSize) <= 2 * (p.passed - start) + Log2(ceiling)
      invariant accepted == [] ==> p.passed == start && requests == 0 && reqSize == ceiling
      decreases |indices| - p.passed
    {
      var leaf := indices[p.passed];
      ghost var first := reqSize;
      ServedWell(peer, headed, requests, leaf, reqSize);
      var reply;
      reply, reqSize, requests := FetchVerified(peer, headed, leaf, reqSize, requests);
      if reply.Err? {
        return Err(reply.error), p, requests, accepted, sizes;
      }
      var batch := reply.value;
      PeerAnswers(peer, headed, requests - 1, leaf, reqSize, batch);
      if batch.utxos == [] {
        GatheredEmpty(peer, headed, indices, start, cursor, accepted, p, db.coins, batch);
        TakenEmpty(peer, indices, ceiling, accepted, sizes, first, requests - 1, leaf, reqSize, batch, old(db.coins),
                   db.coins);
        accepted, sizes := accepted + [(leaf, batch)], sizes + [(first, reqSize)];
        p := p.(passed := p.passed + 1);
      } else {
        var fault := CheckAdvances(batch, leaf);
        if fault.Some? {
          return Err(fault.value), p, requests, accepted, sizes;
        }
        ghost var before := db.coins;
        var scanned := ScanBatch(db, peer, leaf, batch, indices, heightMap, tip);
        GainedDatedInTurn(old(db.coins), before, db.coins, heightMap, tip);
        OnlyGainedInTurn(peer, old(db.coins), before, db.coins, indices);
        GatheredKept(peer, headed, indices, start, cursor, accepted, p, before, db.coins);
        if scanned.Err? {
          return Err(scanned.error), p, requests, accepted, sizes;
        }
        var last := LastLeaf(batch);
        var next := SkipUpTo(indices, p.passed, last);
        if next == p.passed {
          return Err(NotAdvancing), p, requests, accepted, sizes;
        }
        GatheredMore(peer, headed, indices, start, cursor, accepted, p, db.coins, batch, scanned.value.1, next);
        TakenBatch(peer, indices, ceiling, accepted, sizes, first, requests - 1, leaf, reqSize, batch, old(db.coins),
                   before, db.coins);
        accepted, sizes := accepted + [(leaf, batch)], sizes + [(first, reqSize)];
        p := Progress(next, Some(last), p.fetched + scanned.value.0, p.found + scanned.value.1);
        GrownCosts(reqSize, ceiling);
        reqSize := Grown(reqSize, ceiling);
      }
    }
    return Ok(()), p, requests, accepted, sizes;
  }
}
