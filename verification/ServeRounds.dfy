/**
  Re-issuing dropped requests (crates/mweb/src/lip0006_tcp.rs, `partition_round` and
  `drive_serve_rounds`). The peer may silently drop any request of any round, answer out of order,
  answer twice, answer what was not asked, or fail.
 */
module ServeRounds {
  import opened Wrappers

  datatype Request = Request(blockHash: nat, startIndex: nat, count: nat)

  datatype Batch = Batch(blockHash: nat, startIndex: nat, body: nat)

  datatype ServeError =
    | Unrequested(startIndex: nat)
    | Duplicate(startIndex: nat)
    | Throttled(outstanding: nat)
    | PeerFailed(reason: nat)
    | Rejected(batch: Batch)

  const SERVE_BURST: nat := 32
  const MAX_THROTTLED_ROUNDS: nat := 5

  // --- One round ---

  predicate Requested(reqs: seq<Request>, start: nat) {
    exists i :: 0 <= i < |reqs| && reqs[i].startIndex == start
  }

  /** Responses are matched to the first request with their start index. */
  predicate IsFirst(reqs: seq<Request>, i: nat)
    requires i < |reqs|
  {
    forall k :: 0 <= k < i ==> reqs[k].startIndex != reqs[i].startIndex
  }

  predicate Answered(responses: seq<Batch>, start: nat) {
    exists k :: 0 <= k < |responses| && responses[k].startIndex == start
  }

  /** What is wrong with the response at `k`, given those before it. */
  function Fault(reqs: seq<Request>, responses: seq<Batch>, k: nat): Option<ServeError>
    requires k < |responses|
  {
    var start := responses[k].startIndex;
    if !Requested(reqs, start) then Some(Unrequested(start))
    else if Answered(responses[..k], start) then Some(Duplicate(start))
    else None
  }

  predicate Faultless(reqs: seq<Request>, responses: seq<Batch>) {
    forall k :: 0 <= k < |responses| ==> Fault(reqs, responses, k) == None
  }

  predicate IsFirstFault(reqs: seq<Request>, responses: seq<Batch>, k: nat, e: ServeError) {
    && k < |responses| && Fault(reqs, responses, k) == Some(e)
    && forall j :: 0 <= j < k ==> Fault(reqs, responses, j) == None
  }

  predicate IsServed(reqs: seq<Request>, responses: seq<Batch>, i: nat)
    requires i < |reqs|
  {
    IsFirst(reqs, i) && Answered(responses, reqs[i].startIndex)
  }

  /** The response to a request that has one. */
  function AnswerTo(responses: seq<Batch>, start: nat): Batch
    requires Answered(responses, start)
  {
    if responses[0].startIndex == start then responses[0]
    else
      assert responses == [responses[0]] + responses[1..];
      AnswerTo(responses[1..], start)
  }

  /** The responses to the first `n` requests, in request order. */
  function Served(reqs: seq<Request>, responses: seq<Batch>, n: nat): seq<Batch>
    requires n <= |reqs|
  {
    if n == 0 then []
    else Served(reqs, responses, n - 1)
         + if IsServed(reqs, responses, n - 1) then [AnswerTo(responses, reqs[n - 1].startIndex)] else []
  }

  /** The unanswered ones among the first `n` requests, in request order. */
  function Unserved(reqs: seq<Request>, responses: seq<Batch>, n: nat): seq<Request>
    requires n <= |reqs|
  {
    if n == 0 then []
    else Unserved(reqs, responses, n - 1) + if IsServed(reqs, responses, n - 1) then [] else [reqs[n - 1]]
  }

  /** The first request with a start index. */
  ghost predicate FirstAt(reqs: seq<Request>, start: nat, i: nat) {
    i < |reqs| && reqs[i].startIndex == start && IsFirst(reqs, i)
  }

  lemma {:induction false} AnswerToIs(responses: seq<Batch>, k: nat)
    requires k < |responses| && !Answered(responses[..k], responses[k].startIndex)
    ensures AnswerTo(responses, responses[k].startIndex) == responses[k]
  {
    var start := responses[k].startIndex;
    assert Answered(responses, start);
    if k > 0 {
      assert responses[..k][0].startIndex != start;
      var rest := responses[1..][..k - 1];
      forall j | 0 <= j < |rest| ensures rest[j].startIndex != start {
        assert responses[..k][j + 1].startIndex != start;
      }
      assert responses[1..][k - 1] == responses[k];
      AnswerToIs(responses[1..], k - 1);
    }
  }

  /** The slots hold the responses seen so far. */
  ghost predicate Slotted(reqs: seq<Request>, responses: seq<Batch>, slots: seq<Option<Batch>>) {
    && |slots| == |reqs|
    && forall i :: 0 <= i < |reqs| ==>
         slots[i] == if IsServed(reqs, responses, i) then Some(AnswerTo(responses, reqs[i].startIndex)) else None
  }

  lemma {:induction false} AnswerToGrows(responses: seq<Batch>, next: Batch, start: nat)
    requires Answered(responses, start)
    ensures Answered(responses + [next], start) && AnswerTo(responses + [next], start) == AnswerTo(responses, start)
  {
    var k :| 0 <= k < |responses| && responses[k].startIndex == start;
    assert (responses + [next])[k].startIndex == start;
    if responses[0].startIndex != start {
      assert responses == [responses[0]] + responses[1..];
      assert (responses + [next])[1..] == responses[1..] + [next];
      AnswerToGrows(responses[1..], next, start);
    }
  }

  lemma SlottedStep(reqs: seq<Request>, responses: seq<Batch>, next: Batch, slots: seq<Option<Batch>>, i: nat)
    requires Slotted(reqs, responses, slots) && FirstAt(reqs, next.startIndex, i)
    requires !Answered(responses, next.startIndex)
    ensures Slotted(reqs, responses + [next], slots[i := Some(next)])
  {
    var after := responses + [next];
    assert after[..|responses|] == responses && after[|responses|] == next;
    AnswerToIs(after, |responses|);
    forall j | 0 <= j < |reqs|
      ensures slots[i := Some(next)][j]
           == if IsServed(reqs, after, j) then Some(AnswerTo(after, reqs[j].startIndex)) else None
    {
      var start := reqs[j].startIndex;
      if Answered(responses, start) { AnswerToGrows(responses, next, start); }
      if Answered(after, start) && !Answered(responses, start) {
        var k :| 0 <= k < |after| && after[k].startIndex == start;
        assert k == |responses|;
      }
      if start == next.startIndex && IsFirst(reqs, j) { assert j == i; }
    }
  }

  ghost predicate FaultlessUpTo(reqs: seq<Request>, responses: seq<Batch>, k: nat)
    requires k <= |responses|
  {
    forall j :: 0 <= j < k ==> Fault(reqs, responses, j) == None
  }

  /** The index from start index to slot. */
  ghost predicate Indexed(reqs: seq<Request>, byStart: map<nat, nat>, n: nat)
    requires n <= |reqs|
  {
    && (forall s :: s in byStart <==> Requested(reqs[..n], s))
    && (forall s :: s in byStart ==> FirstAt(reqs, s, byStart[s]))
  }

  lemma IndexedStep(reqs: seq<Request>, byStart: map<nat, nat>, n: nat)
    requires n < |reqs| && Indexed(reqs, byStart, n)
    ensures var start := reqs[n].startIndex;
            Indexed(reqs, if start in byStart then byStart else byStart[start := n], n + 1)
  {
    RequestedStep(reqs, n);
    var start := reqs[n].startIndex;
    if start !in byStart {
      forall k | 0 <= k < n ensures reqs[k].startIndex != start { assert reqs[..n][k] == reqs[k]; }
    }
  }

  lemma UnrequestedIsFault(reqs: seq<Request>, responses: seq<Batch>, byStart: map<nat, nat>, k: nat)
    requires k < |responses| && FaultlessUpTo(reqs, responses, k) && Indexed(reqs, byStart, |reqs|)
    requires responses[k].startIndex !in byStart
    ensures IsFirstFault(reqs, responses, k, Unrequested(responses[k].startIndex))
  {
    assert reqs[..|reqs|] == reqs;
  }

  lemma SlotTells(reqs: seq<Request>, responses: seq<Batch>, byStart: map<nat, nat>, k: nat, slots: seq<Option<Batch>>)
    requires k < |responses| && FaultlessUpTo(reqs, responses, k) && Indexed(reqs, byStart, |reqs|)
    requires responses[k].startIndex in byStart && Slotted(reqs, responses[..k], slots)
    ensures var i := byStart[responses[k].startIndex];
            && i < |slots|
            && (slots[i].Some? ==> IsFirstFault(reqs, responses, k, Duplicate(responses[k].startIndex)))
            && (slots[i].None? ==> FaultlessUpTo(reqs, responses, k + 1)
                                   && Slotted(reqs, responses[..k + 1], slots[i := Some(responses[k])]))
  {
    var i := byStart[responses[k].startIndex];
    assert reqs[..|reqs|] == reqs;
    assert FirstAt(reqs, responses[k].startIndex, i);
    if slots[i].None? {
      SlottedStep(reqs, responses[..k], responses[k], slots, i);
      assert responses[..k] + [responses[k]] == responses[..k + 1];
    }
  }

  /** `partition_round` */
  method PartitionRound(reqs: seq<Request>, responses: seq<Batch>)
    returns (r: Result<(seq<Batch>, seq<Request>), ServeError>)
    ensures match r
            case Ok(parts) =>
              && Faultless(reqs, responses)
              && parts == (Served(reqs, responses, |reqs|), Unserved(reqs, responses, |reqs|))
            case Err(e) => exists k :: IsFirstFault(reqs, responses, k, e)
    ensures r.Ok? ==> exists at :: Answers(reqs, r.value.0, at)
  {
    hide Answers, IsServed, Requested, FirstAt, IsFirst, Fault, Indexed, IsFirstFault, Answered, AnswerTo;
    var slots: seq<Option<Batch>> := seq(|reqs|, _ => None);
    var byStart: map<nat, nat> := map[];
    RoundStart(reqs, slots);
    for i := 0 to |reqs|
      invariant Indexed(reqs, byStart, i)
    {
      IndexedStep(reqs, byStart, i);
      if reqs[i].startIndex !in byStart {
        byStart := byStart[reqs[i].startIndex := i];
      }
    }
    for k := 0 to |responses|
      invariant Slotted(reqs, responses[..k], slots) && FaultlessUpTo(reqs, responses, k)
    {
      var response := responses[k];
      if response.startIndex !in byStart {
        UnrequestedIsFault(reqs, responses, byStart, k);
        return Err(Unrequested(response.startIndex));
      }
      SlotTells(reqs, responses, byStart, k, slots);
      var i := byStart[response.startIndex];
      if slots[i].Some? {
        return Err(Duplicate(response.startIndex));
      }
      slots := slots[i := Some(response)];
    }
    assert responses[..|responses|] == responses;
    var served, unserved := [], [];
    for i := 0 to |reqs|
      invariant served == Served(reqs, responses, i) && unserved == Unserved(reqs, responses, i)
    {
      match slots[i] {
        case Some(batch) => served := served + [batch];
        case None => unserved := unserved + [reqs[i]];
      }
    }
    ghost var at := ServedInOrder(reqs, responses, |reqs|);
    return Ok((served, unserved));
  }

  /** The batches answer requests at ascending places. */
  ghost predicate Answers(reqs: seq<Request>, served: seq<Batch>, at: seq<nat>) {
    && |at| == |served|
    && (forall k :: 0 <= k < |at| ==> at[k] < |reqs| && served[k].startIndex == reqs[at[k]].startIndex)
    && (forall k, l :: 0 <= k < l < |at| ==> at[k] < at[l])
  }

  lemma NoAnswers(reqs: seq<Request>)
    ensures Answers(reqs, [], [])
  {
  }

  lemma AnswersMore(reqs: seq<Request>, served: seq<Batch>, at: seq<nat>, i: nat, batch: Batch)
    requires Answers(reqs, served, at) && i < |reqs| && batch.startIndex == reqs[i].startIndex
    requires forall k :: 0 <= k < |at| ==> at[k] < i
    ensures Answers(reqs, served + [batch], at + [i])
  {
  }

  lemma ServedHere(reqs: seq<Request>, responses: seq<Batch>, i: nat)
    requires i < |reqs| && IsServed(reqs, responses, i)
    ensures Answered(responses, reqs[i].startIndex)
    ensures AnswerTo(responses, reqs[i].startIndex).startIndex == reqs[i].startIndex
  {
    AnswerToMatches(responses, reqs[i].startIndex);
  }

  /** Batches are served in the order of their requests. */
  lemma {:induction false} ServedInOrder(reqs: seq<Request>, responses: seq<Batch>, n: nat) returns (at: seq<nat>)
    requires n <= |reqs|
    ensures Answers(reqs, Served(reqs, responses, n), at) && forall k :: 0 <= k < |at| ==> at[k] < n
  {
    hide IsServed, AnswerTo, Answered, Answers;
    NoAnswers(reqs);
    if n == 0 { return []; }
    at := ServedInOrder(reqs, responses, n - 1);
    if IsServed(reqs, responses, n - 1) {
      ServedHere(reqs, responses, n - 1);
      AnswersMore(reqs, Served(reqs, responses, n - 1), at, n - 1, AnswerTo(responses, reqs[n - 1].startIndex));
      at := at + [n - 1];
    } else {
      assert Served(reqs, responses, n) == Served(reqs, responses, n - 1);
    }
  }

  lemma RoundStart(reqs: seq<Request>, slots: seq<Option<Batch>>)
    requires slots == seq(|reqs|, _ => None)
    ensures Indexed(reqs, map[], 0) && Slotted(reqs, [], slots)
  {
  }

  lemma RequestedStep(reqs: seq<Request>, n: nat)
    requires n < |reqs|
    ensures forall s :: Requested(reqs[..n + 1], s) <==> Requested(reqs[..n], s) || s == reqs[n].startIndex
  {
    forall s
      ensures Requested(reqs[..n + 1], s) <==> Requested(reqs[..n], s) || s == reqs[n].startIndex
    {
      if Requested(reqs[..n], s) {
        var i :| 0 <= i < n && reqs[..n][i].startIndex == s;
        assert reqs[..n + 1][i].startIndex == s;
      }
      assert reqs[..n + 1][n] == reqs[n];
      if Requested(reqs[..n + 1], s) {
        var i :| 0 <= i < |reqs[..n + 1]| && reqs[..n + 1][i].startIndex == s;
        assert i < n ==> reqs[..n][i].startIndex == s;
      }
    }
  }

  // --- What a round conserves ---

  function Starts(reqs: seq<Request>): (r: seq<nat>)
    ensures |r| == |reqs| && forall i :: 0 <= i < |r| ==> r[i] == reqs[i].startIndex
  {
    seq(|reqs|, i requires 0 <= i < |reqs| => reqs[i].startIndex)
  }

  function BatchStarts(batches: seq<Batch>): (r: seq<nat>)
    ensures |r| == |batches| && forall i :: 0 <= i < |r| ==> r[i] == batches[i].startIndex
  {
    seq(|batches|, i requires 0 <= i < |batches| => batches[i].startIndex)
  }

  /** How often each start index was asked for. */
  function Asked(reqs: seq<Request>): multiset<nat> {
    multiset(Starts(reqs))
  }

  /** How often each start index was delivered. */
  function Given(batches: seq<Batch>): multiset<nat> {
    multiset(BatchStarts(batches))
  }

  lemma AskedAppend(a: seq<Request>, b: seq<Request>)
    ensures Asked(a + b) == Asked(a) + Asked(b)
  {
    assert Starts(a + b) == Starts(a) + Starts(b);
  }

  lemma GivenAppend(a: seq<Batch>, b: seq<Batch>)
    ensures Given(a + b) == Given(a) + Given(b)
  {
    assert BatchStarts(a + b) == BatchStarts(a) + BatchStarts(b);
  }

  lemma OneAsked(req: Request, batch: Batch)
    ensures Asked([req]) == multiset{req.startIndex}
    ensures Given([batch]) == multiset{batch.startIndex}
  {
    assert Starts([req]) == [req.startIndex];
    assert BatchStarts([batch]) == [batch.startIndex];
  }

  /** `a` is `b` with some elements left out, in the same order. */
  predicate Subsequence(a: seq<Request>, b: seq<Request>) {
    || a == []
    || (b != [] && ((a[0] == b[0] && Subsequence(a[1..], b[1..])) || Subsequence(a, b[1..])))
  }

  lemma {:induction false} SubsequenceReflexive(a: seq<Request>)
    ensures Subsequence(a, a)
  {
    if a != [] { SubsequenceReflexive(a[1..]); }
  }

  lemma {:induction false} SubsequenceTransitive(a: seq<Request>, b: seq<Request>, c: seq<Request>)
    requires Subsequence(a, b) && Subsequence(b, c)
    ensures Subsequence(a, c)
  {
    if a != [] {
      if b[0] == c[0] && Subsequence(b[1..], c[1..]) {
        if a[0] == b[0] && Subsequence(a[1..], b[1..]) {
          SubsequenceTransitive(a[1..], b[1..], c[1..]);
        } else {
          SubsequenceTransitive(a, b[1..], c[1..]);
        }
      } else {
        SubsequenceTransitive(a, b, c[1..]);
      }
    }
  }

  lemma {:induction false} SubsequenceAppend(a: seq<Request>, b: seq<Request>, x: seq<Request>, y: seq<Request>)
    requires Subsequence(a, b) && Subsequence(x, y)
    ensures Subsequence(a + x, b + y)
    decreases |b|
  {
    if b == [] {
      assert a + x == x && b + y == y;
    } else {
      assert (b + y)[1..] == b[1..] + y && (b + y)[0] == b[0];
      if a != [] && a[0] == b[0] && Subsequence(a[1..], b[1..]) {
        assert (a + x)[1..] == a[1..] + x;
        SubsequenceAppend(a[1..], b[1..], x, y);
      } else {
        SubsequenceAppend(a, b[1..], x, y);
      }
    }
  }

  /** A round neither loses nor invents a request: each is delivered or kept, in order. */
  lemma {:induction false} RoundConserves(reqs: seq<Request>, responses: seq<Batch>, n: nat)
    requires n <= |reqs|
    ensures var served, unserved := Served(reqs, responses, n), Unserved(reqs, responses, n);
            && |served| + |unserved| == n
            && Given(served) + Asked(unserved) == Asked(reqs[..n])
            && Subsequence(unserved, reqs[..n])
  {
    if n > 0 {
      RoundConserves(reqs, responses, n - 1);
      var served, unserved := Served(reqs, responses, n - 1), Unserved(reqs, responses, n - 1);
      var before, req := reqs[..n - 1], reqs[n - 1];
      assert reqs[..n] == before + [req];
      AskedAppend(before, [req]);
      if IsServed(reqs, responses, n - 1) {
        var batch := AnswerTo(responses, req.startIndex);
        AnswerToMatches(responses, req.startIndex);
        OneAsked(req, batch);
        GivenAppend(served, [batch]);
        hide Asked, Given, Subsequence, IsServed, AnswerTo;
        assert Subsequence([], [req]) by { NothingIsSubsequence([req]); }
        SubsequenceAppend(unserved, before, [], [req]);
        assert unserved + [] == unserved;
      } else {
        AskedAppend(unserved, [req]);
        hide Asked, Given, Subsequence, IsServed, AnswerTo;
        assert served + [] == served;
        SubsequenceReflexive([req]);
        SubsequenceAppend(unserved, before, [req], [req]);
      }
    }
  }

  lemma NothingIsSubsequence(b: seq<Request>)
    ensures Subsequence([], b)
  {
  }

  lemma {:induction false} AnswerToMatches(responses: seq<Batch>, start: nat)
    requires Answered(responses, start)
    ensures AnswerTo(responses, start) in responses && AnswerTo(responses, start).startIndex == start
  {
    if responses[0].startIndex != start {
      assert responses == [responses[0]] + responses[1..];
      AnswerToMatches(responses[1..], start);
    }
  }

  /** Every response of a faultless round is delivered, and nothing else is. */
  lemma RoundDeliversResponses(reqs: seq<Request>, responses: seq<Batch>, b: Batch)
    requires Faultless(reqs, responses)
    ensures b in Served(reqs, responses, |reqs|) <==> b in responses
  {
    if b in Served(reqs, responses, |reqs|) { ServedIsResponse(reqs, responses, |reqs|, b); }
    if b in responses {
      var k :| 0 <= k < |responses| && responses[k] == b;
      assert Fault(reqs, responses, k) == None;
      AnswerToIs(responses, k);
      var i := FirstRequest(reqs, b.startIndex);
      ServedHolds(reqs, responses, |reqs|, i);
    }
  }

  lemma {:induction false} ServedIsResponse(reqs: seq<Request>, responses: seq<Batch>, n: nat, b: Batch)
    requires n <= |reqs| && b in Served(reqs, responses, n)
    ensures b in responses
  {
    if IsServed(reqs, responses, n - 1) && b == AnswerTo(responses, reqs[n - 1].startIndex) {
      AnswerToMatches(responses, reqs[n - 1].startIndex);
    } else {
      ServedIsResponse(reqs, responses, n - 1, b);
    }
  }

  lemma {:induction false} ServedHolds(reqs: seq<Request>, responses: seq<Batch>, n: nat, i: nat)
    requires i < n <= |reqs| && IsServed(reqs, responses, i)
    ensures AnswerTo(responses, reqs[i].startIndex) in Served(reqs, responses, n)
  {
    if i < n - 1 { ServedHolds(reqs, responses, n - 1, i); }
  }

  lemma FirstRequest(reqs: seq<Request>, start: nat) returns (i: nat)
    requires Requested(reqs, start)
    ensures i < |reqs| && reqs[i].startIndex == start && IsFirst(reqs, i)
  {
    i := 0;
    while reqs[i].startIndex != start
      invariant i < |reqs| && forall k :: 0 <= k < i ==> reqs[k].startIndex != start
      invariant exists k :: i <= k < |reqs| && reqs[k].startIndex == start
      decreases |reqs| - i
    {
      i := i + 1;
    }
  }

  // --- The loop ---

  /** The environment of a run: the peer, by round number, and the consumer, by what it was given. */
  datatype Environment = Environment(
    answer: (nat, seq<Request>) -> Result<seq<Batch>, ServeError>,
    accepts: seq<Batch> -> bool)

  /** Round `k` got no response at all. */
  ghost predicate Silent(env: Environment, issued: seq<seq<Request>>, k: nat) {
    k < |issued| && env.answer(k, issued[k]) == Ok([])
  }

  /** Why a round failed: the peer failed or misbehaved, or the consumer refused a batch. */
  ghost predicate RoundFailed(env: Environment, k: nat, round: seq<Request>, delivered: seq<Batch>, e: ServeError) {
    match env.answer(k, round)
    case Err(f) => e == f
    case Ok(responses) =>
      || (exists j :: IsFirstFault(round, responses, j, e))
      || (e.Rejected? && e.batch in responses && !env.accepts(delivered + [e.batch]))
  }

  /** Why a run failed: its last round did, or its last rounds got no response at all. */
  ghost predicate Explained(env: Environment, issued: seq<seq<Request>>, delivered: seq<Batch>, e: ServeError) {
    && issued != []
    && (|| RoundFailed(env, |issued| - 1, issued[|issued| - 1], delivered, e)
        || (e == Throttled(|issued[|issued| - 1]|) && SilentLately(env, issued, MAX_THROTTLED_ROUNDS)))
  }

  function Clamped(window: nat): (r: nat)
    ensures 1 <= r <= SERVE_BURST
    ensures 1 <= window <= SERVE_BURST ==> r == window
    ensures window > SERVE_BURST ==> r == SERVE_BURST
  {
    if window < 1 then 1 else if window > SERVE_BURST then SERVE_BURST else window
  }

  /** Hands over a round's batches until the consumer refuses one. */
  method Deliver(env: Environment, before: seq<Batch>, served: seq<Batch>)
    returns (delivered: seq<Batch>, refused: Option<Batch>)
    ensures refused.None? ==> delivered == before + served
    ensures refused.Some? ==>
              && refused.value in served && !env.accepts(delivered + [refused.value])
              && exists n :: 0 <= n < |served| && delivered == before + served[..n]
  {
    delivered := before;
    for i := 0 to |served|
      invariant delivered == before + served[..i]
    {
      if !env.accepts(delivered + [served[i]]) {
        return delivered, Some(served[i]);
      }
      delivered := delivered + [served[i]];
    }
    return delivered, None;
  }

  /** What a round may deliver, up to where it fails. */
  function Deliverable(env: Environment, k: nat, round: seq<Request>): seq<Batch> {
    match env.answer(k, round)
    case Ok(responses) => Served(round, responses, |round|)
    case Err(_) => []
  }

  ghost predicate PartlyDelivered(before: seq<Batch>, deliverable: seq<Batch>, delivered: seq<Batch>) {
    exists n :: 0 <= n <= |deliverable| && delivered == before + deliverable[..n]
  }

  /** One round: ask, match the answers, deliver them. */
  method ServeRound(env: Environment, k: nat, round: seq<Request>, before: seq<Batch>)
    returns (r: Result<(nat, seq<Request>), ServeError>, delivered: seq<Batch>)
    ensures PartlyDelivered(before, Deliverable(env, k, round), delivered)
    ensures r.Err? ==> RoundFailed(env, k, round, delivered, r.error)
    ensures r.Ok? ==>
              && env.answer(k, round).Ok?
              && delivered == before + Deliverable(env, k, round)
              && r.value == (|Deliverable(env, k, round)|, Unserved(round, env.answer(k, round).value, |round|))
              && (r.value.0 == 0 ==> env.answer(k, round) == Ok([]))
  {
    var answer := env.answer(k, round);
    if answer.Err? {
      assert before == before + [][..0];
      return Err(answer.error), before;
    }
    var parts := PartitionRound(round, answer.value);
    if parts.Err? {
      assert before == before + Deliverable(env, k, round)[..0];
      return Err(parts.error), before;
    }
    var (served, unserved) := parts.value;
    var refused;
    delivered, refused := Deliver(env, before, served);
    if refused.Some? {
      RoundDeliversResponses(round, answer.value, refused.value);
      return Err(Rejected(refused.value)), delivered;
    }
    NothingServed(round, answer.value);
    assert served[..|served|] == served;
    return Ok((|served|, unserved)), delivered;
  }

  /** Everything asked is either delivered or still pending, as often as it was asked. */
  ghost predicate Conserved(reqs: seq<Request>, delivered: seq<Batch>, pending: seq<Request>) {
    && Given(delivered) + Asked(pending) == Asked(reqs)
    && Subsequence(pending, reqs)
    && |delivered| + |pending| == |reqs|
  }

  lemma ConservedAtStart(reqs: seq<Request>)
    ensures Conserved(reqs, [], reqs)
  {
    SubsequenceReflexive(reqs);
    assert BatchStarts([]) == [];
  }

  lemma ConservedStep(reqs: seq<Request>, delivered: seq<Batch>, round: seq<Request>, rest: seq<Request>,
                      served: seq<Batch>, unserved: seq<Request>)
    requires Conserved(reqs, delivered, round + rest)
    requires Given(served) + Asked(unserved) == Asked(round) && Subsequence(unserved, round)
    requires |served| + |unserved| == |round|
    ensures Conserved(reqs, delivered + served, unserved + rest)
  {
    AskedAppend(round, rest);
    AskedAppend(unserved, rest);
    GivenAppend(delivered, served);
    SubsequenceReflexive(rest);
    hide Asked, Given, Subsequence;
    SubsequenceAppend(unserved, round, rest, rest);
    SubsequenceTransitive(unserved + rest, round + rest, reqs);
  }

  lemma PrefixIsSubsequence(reqs: seq<Request>, round: seq<Request>, rest: seq<Request>)
    requires Subsequence(round + rest, reqs)
    ensures Subsequence(round, reqs)
  {
    SubsequenceReflexive(round);
    NothingIsSubsequence(rest);
    hide Subsequence;
    SubsequenceAppend(round, round, [], rest);
    assert round + [] == round;
    SubsequenceTransitive(round, round + rest, reqs);
  }

  lemma ConservedByRound(reqs: seq<Request>, delivered: seq<Batch>, pending: seq<Request>, width: nat,
                         env: Environment, k: nat)
    requires width <= |pending| && Conserved(reqs, delivered, pending)
    ensures var round, rest := pending[..width], pending[width..];
            var served := Deliverable(env, k, round);
            && Subsequence(round, reqs)
            && (forall d :: PartlyDelivered(delivered, served, d) ==> Given(d) <= Asked(reqs))
            && (env.answer(k, round).Ok? ==>
                  var unserved := Unserved(round, env.answer(k, round).value, width);
                  Conserved(reqs, delivered + served, unserved + rest) && |served| + |unserved| == width)
  {
    var round, rest := pending[..width], pending[width..];
    var served := Deliverable(env, k, round);
    assert round[..width] == round && round + rest == pending;
    PrefixIsSubsequence(reqs, round, rest);
    var responses := if env.answer(k, round).Ok? then env.answer(k, round).value else [];
    var offered, unserved := Served(round, responses, width), Unserved(round, responses, width);
    RoundConserves(round, responses, width);
    assert served == offered || served == [];
    hide *;
    ConservedStep(reqs, delivered, round, rest, offered, unserved);
    forall d | PartlyDelivered(delivered, served, d) ensures Given(d) <= Asked(reqs) {
      DeliveredPartly(reqs, delivered, offered, served, unserved + rest, d);
    }
  }

  /** A partly delivered round delivers nothing more often than it was asked. */
  lemma DeliveredPartly(reqs: seq<Request>, before: seq<Batch>, offered: seq<Batch>, served: seq<Batch>,
                        pending: seq<Request>, delivered: seq<Batch>)
    requires Conserved(reqs, before + offered, pending) && (served == offered || served == [])
    requires PartlyDelivered(before, served, delivered)
    ensures Given(delivered) <= Asked(reqs)
  {
    var n :| 0 <= n <= |served| && delivered == before + served[..n];
    assert served[..n] == offered[..n];
    assert before + offered == delivered + offered[n..];
    GivenAppend(delivered, offered[n..]);
  }

  /** The last `n` rounds got no response at all. */
  ghost predicate SilentLately(env: Environment, issued: seq<seq<Request>>, n: nat) {
    n <= |issued| && forall k :: |issued| - n <= k < |issued| ==> Silent(env, issued, k)
  }

  /** Every round asks for between one and a burst of the requests, in schedule order. */
  ghost predicate WellIssued(reqs: seq<Request>, issued: seq<seq<Request>>) {
    forall k :: 0 <= k < |issued| ==> 1 <= |issued[k]| <= SERVE_BURST && Subsequence(issued[k], reqs)
  }

  /** What is still to be asked for, and how much at a time. */
  datatype Outlook = Outlook(pending: seq<Request>, window: nat)

  /** A round asks for as many of the first pending requests as the window allows. */
  ghost predicate IssuedFrom(o: Outlook, round: seq<Request>) {
    var width := if Clamped(o.window) < |o.pending| then Clamped(o.window) else |o.pending|;
    round == o.pending[..width]
  }

  /**
    After a clean round the window doubles, up to a burst; after another one it is what was served, and
    what was dropped comes first again.
   */
  ghost predicate Leads(env: Environment, k: nat, o: Outlook, round: seq<Request>, next: Outlook) {
    && env.answer(k, round).Ok? && |round| <= |o.pending|
    && var served := Served(round, env.answer(k, round).value, |round|);
       var unserved := Unserved(round, env.answer(k, round).value, |round|);
       if unserved == [] then
         next == Outlook(o.pending[|round|..], Clamped(2 * o.window))
       else
         next == Outlook(unserved + o.pending[|round|..], if |served| > 1 then |served| else 1)
  }

  /** The rounds of a run, and the outlook before each of them and after the last one that did not fail. */
  ghost predicate Scheduled(
    env: Environment, reqs: seq<Request>, startWindow: nat, issued: seq<seq<Request>>, outlooks: seq<Outlook>)
  {
    && |issued| <= |outlooks| <= |issued| + 1 && outlooks != [] && outlooks[0] == Outlook(reqs, startWindow)
    && (forall k :: 0 <= k < |issued| ==> IssuedFrom(outlooks[k], issued[k]))
    && (forall k :: 0 <= k < |outlooks| - 1 ==> Leads(env, k, outlooks[k], issued[k], outlooks[k + 1]))
  }

  lemma ScheduledAtStart(env: Environment, reqs: seq<Request>, startWindow: nat)
    ensures Scheduled(env, reqs, startWindow, [], [Outlook(reqs, startWindow)])
  {
  }

  lemma ScheduledRound(
    env: Environment, reqs: seq<Request>, startWindow: nat, issued: seq<seq<Request>>, outlooks: seq<Outlook>,
    round: seq<Request>)
    requires Scheduled(env, reqs, startWindow, issued, outlooks) && |outlooks| == |issued| + 1
    requires IssuedFrom(outlooks[|issued|], round)
    ensures Scheduled(env, reqs, startWindow, issued + [round], outlooks)
  {
    hide IssuedFrom, Leads;
    var issued' := issued + [round];
    forall k | 0 <= k < |issued'| ensures IssuedFrom(outlooks[k], issued'[k]) {
      assert k < |issued| ==> issued'[k] == issued[k];
    }
    forall k | 0 <= k < |outlooks| - 1 ensures Leads(env, k, outlooks[k], issued'[k], outlooks[k + 1]) {
      assert issued'[k] == issued[k];
    }
  }

  lemma ScheduledNext(
    env: Environment, reqs: seq<Request>, startWindow: nat, issued: seq<seq<Request>>, outlooks: seq<Outlook>,
    next: Outlook)
    requires Scheduled(env, reqs, startWindow, issued, outlooks) && |outlooks| == |issued| > 0
    requires Leads(env, |issued| - 1, outlooks[|issued| - 1], issued[|issued| - 1], next)
    ensures Scheduled(env, reqs, startWindow, issued, outlooks + [next])
  {
    hide IssuedFrom, Leads;
    var outlooks' := outlooks + [next];
    forall k | 0 <= k < |issued| ensures IssuedFrom(outlooks'[k], issued[k]) {
      assert outlooks'[k] == outlooks[k];
    }
    forall k | 0 <= k < |outlooks'| - 1 ensures Leads(env, k, outlooks'[k], issued[k], outlooks'[k + 1]) {
      assert outlooks'[k] == outlooks[k];
      assert k + 1 < |outlooks| ==> outlooks'[k + 1] == outlooks[k + 1];
    }
  }

  /** `drive_serve_rounds` */
  method DriveServeRounds(reqs: seq<Request>, startWindow: nat, env: Environment)
    returns (r: Result<(), ServeError>, delivered: seq<Batch>, window: nat, rounds: nat,
             ghost issued: seq<seq<Request>>, ghost outlooks: seq<Outlook>)
    ensures Scheduled(env, reqs, startWindow, issued, outlooks) && outlooks[|outlooks| - 1].window == window
    ensures r.Ok? ==> |outlooks| == |issued| + 1 && outlooks[|issued|].pending == []
    ensures Given(delivered) <= Asked(reqs)
    ensures r.Ok? ==> Given(delivered) == Asked(reqs)
    ensures r.Err? ==> Explained(env, issued, delivered, r.error)
    ensures rounds == |issued| <= 5 * |reqs|
    ensures window == startWindow || 1 <= window <= SERVE_BURST
    ensures WellIssued(reqs, issued)
  {
    hide Conserved, Asked, Given, Subsequence, Deliverable, PartlyDelivered, Unserved, Explained, RoundFailed,
         Silent, SilentLately, WellIssued, Scheduled, Served, Clamped;
    var pending := reqs;
    var stalled := 0;
    delivered, window, rounds, issued, outlooks := [], startWindow, 0, [], [Outlook(reqs, startWindow)];
    ScheduledAtStart(env, reqs, startWindow);
    ConservedAtStart(reqs);
    NeverSilent(env, []);
    NothingIssued(reqs);
    while pending != []
      invariant Conserved(reqs, delivered, pending) && |delivered| + |pending| == |reqs|
      invariant rounds == |issued| && |outlooks| == |issued| + 1
      invariant Scheduled(env, reqs, startWindow, issued, outlooks)
      invariant outlooks[|issued|] == Outlook(pending, window)
      invariant stalled < MAX_THROTTLED_ROUNDS && rounds <= 5 * |delivered| + stalled
      invariant pending == [] ==> stalled == 0
      invariant rounds > 0 ==> 1 <= window <= SERVE_BURST
      invariant rounds == 0 ==> window == startWindow
      invariant WellIssued(reqs, issued)
      invariant SilentLately(env, issued, stalled)
      decreases |pending|, MAX_THROTTLED_ROUNDS - stalled
    {
      var width := if Clamped(window) < |pending| then Clamped(window) else |pending|;
      var round, rest := pending[..width], pending[width..];
      ghost var past := issued;
      ScheduledRound(env, reqs, startWindow, issued, outlooks, round);
      issued, rounds := issued + [round], rounds + 1;
      ConservedByRound(reqs, delivered, pending, width, env, rounds - 1);
      WellIssuedAppend(reqs, past, round);
      ghost var before := delivered;
      var outcome;
      outcome, delivered := ServeRound(env, rounds - 1, round, delivered);
      assert Given(delivered) <= Asked(reqs);
      if outcome.Err? {
        RoundExplains(env, issued, delivered, outcome.error);
        return Err(outcome.error), delivered, window, rounds, issued, outlooks;
      }
      DeliverableIs(env, rounds - 1, round);
      var (served, unserved) := outcome.value;
      if unserved == [] {
        assert unserved + rest == rest;
        stalled := 0;
        NeverSilent(env, issued);
        window := Clamped(2 * window);
        pending := rest;
        ScheduledNext(env, reqs, startWindow, issued, outlooks, Outlook(pending, window));
        outlooks := outlooks + [Outlook(pending, window)];
      } else {
        if served == 0 {
          SilentAppend(env, past, round, stalled);
          stalled := stalled + 1;
          if stalled >= MAX_THROTTLED_ROUNDS {
            SilenceExplains(env, issued, delivered);
            return Err(Throttled(|unserved|)), delivered, window, rounds, issued, outlooks;
          }
        } else {
          stalled := 0;
          NeverSilent(env, issued);
        }
        window := if served > 1 then served else 1;
        pending := unserved + rest;
        ScheduledNext(env, reqs, startWindow, issued, outlooks, Outlook(pending, window));
        outlooks := outlooks + [Outlook(pending, window)];
      }
    }
    EverythingGiven(reqs, delivered);
    return Ok(()), delivered, window, rounds, issued, outlooks;
  }

  lemma DeliverableIs(env: Environment, k: nat, round: seq<Request>)
    ensures env.answer(k, round).Ok? ==>
              Deliverable(env, k, round) == Served(round, env.answer(k, round).value, |round|)
  {
  }

  lemma EverythingGiven(reqs: seq<Request>, delivered: seq<Batch>)
    requires Conserved(reqs, delivered, [])
    ensures Given(delivered) == Asked(reqs) && |delivered| == |reqs|
  {
    assert Starts([]) == [];
  }

  lemma NothingIssued(reqs: seq<Request>)
    ensures WellIssued(reqs, [])
  {
  }

  lemma WellIssuedAppend(reqs: seq<Request>, past: seq<seq<Request>>, round: seq<Request>)
    requires WellIssued(reqs, past) && 1 <= |round| <= SERVE_BURST && Subsequence(round, reqs)
    ensures WellIssued(reqs, past + [round])
  {
  }

  lemma NeverSilent(env: Environment, issued: seq<seq<Request>>)
    ensures SilentLately(env, issued, 0)
  {
  }

  lemma SilentAppend(env: Environment, past: seq<seq<Request>>, round: seq<Request>, n: nat)
    requires SilentLately(env, past, n) && env.answer(|past|, round) == Ok([])
    ensures SilentLately(env, past + [round], n + 1)
  {
    forall k | |past| - n <= k <= |past| ensures Silent(env, past + [round], k) {
      assert k < |past| ==> Silent(env, past, k);
    }
  }

  lemma NothingServed(round: seq<Request>, responses: seq<Batch>)
    requires Faultless(round, responses)
    ensures responses != [] ==> Served(round, responses, |round|) != []
  {
    if responses != [] { RoundDeliversResponses(round, responses, responses[0]); }
  }

  lemma RoundExplains(env: Environment, issued: seq<seq<Request>>, delivered: seq<Batch>, e: ServeError)
    requires issued != [] && RoundFailed(env, |issued| - 1, issued[|issued| - 1], delivered, e)
    ensures Explained(env, issued, delivered, e)
  {
  }

  lemma SilenceExplains(env: Environment, issued: seq<seq<Request>>, delivered: seq<Batch>)
    requires SilentLately(env, issued, MAX_THROTTLED_ROUNDS)
    ensures Explained(env, issued, delivered, Throttled(|issued[|issued| - 1]|))
  {
    assert Silent(env, issued, |issued| - 1);
  }

  predicate DistinctStarts(reqs: seq<Request>) {
    forall i, j :: 0 <= i < j < |reqs| ==> reqs[i].startIndex != reqs[j].startIndex
  }

  lemma {:induction false} DistinctCount(s: seq<nat>, x: nat)
    requires forall i, j :: 0 <= i < j < |s| ==> s[i] != s[j]
    ensures multiset(s)[x] <= 1
  {
    if s != [] {
      var init, last := s[..|s| - 1], s[|s| - 1];
      assert s == init + [last];
      DistinctCount(init, x);
      assert x == last ==> x !in init;
    }
  }

  lemma CountTwice(s: seq<nat>, i: nat, j: nat)
    requires i < j < |s| && s[i] == s[j]
    ensures multiset(s)[s[i]] >= 2
  {
    assert s == s[..i] + [s[i]] + s[i + 1..j] + [s[j]] + s[j + 1..];
  }

  /** With distinct start indices, no request is delivered twice, and a completed run delivers each once. */
  lemma ExactlyOnce(reqs: seq<Request>, delivered: seq<Batch>)
    requires DistinctStarts(reqs) && Given(delivered) <= Asked(reqs)
    ensures forall i, j :: 0 <= i < j < |delivered| ==> delivered[i].startIndex != delivered[j].startIndex
    ensures Given(delivered) == Asked(reqs) ==>
              forall r :: r in reqs ==> exists j :: 0 <= j < |delivered| && delivered[j].startIndex == r.startIndex
  {
    var starts, asked := BatchStarts(delivered), Starts(reqs);
    forall i, j | 0 <= i < j < |delivered| ensures delivered[i].startIndex != delivered[j].startIndex {
      DistinctCount(asked, starts[i]);
      if starts[i] == starts[j] { CountTwice(starts, i, j); }
    }
    if Given(delivered) == Asked(reqs) {
      forall r | r in reqs ensures exists j :: 0 <= j < |delivered| && delivered[j].startIndex == r.startIndex {
        var i :| 0 <= i < |reqs| && reqs[i] == r;
        assert asked[i] in multiset(asked);
        assert asked[i] in starts;
        var j :| 0 <= j < |starts| && starts[j] == asked[i];
      }
    }
  }
}
