/** Batched calls: responses put back in request order, batches split on shape failures, and what
    a batch costs in round trips. */
module Batching {
  import opened Sequences
  import opened Types

  // ----- calls, sends and what comes back -------------------------------------------------

  datatype Call = Call(name: string, params: string)

  /** An error by the classes the retry ladder tells apart, or the last one of a spent ladder. */
  datatype RpcError =
    | Fault(retryable: bool, protocol: bool, tooLarge: bool, serverError: bool)
    | RetryExhausted(last: RpcError)
  {
    predicate IsRetryable() {
      Fault? && retryable
    }

    /** Shrinks only by splitting, whatever else it is tagged. */
    predicate IsBatchShape() {
      Fault? && (protocol || tooLarge)
    }

    /** Retryable for a batch but not for a plain call. */
    predicate IsRetryableBatchOnly() {
      Fault? && (protocol || tooLarge || serverError) && !retryable
    }
  }

  const PROTOCOL_ERROR := Fault(false, true, false, false)

  /** A parsed response: the id it names, 0 when it cannot be read; the server's error object, if it
      is one; and the error the caller's hooks make of it, or none for a value. */
  datatype Response = Response(id: nat, refusal: Option<RpcError>, verdict: Option<RpcError>)

  /** What one send brings back: an error, one response, or an array of them. */
  datatype Wire = Dead(e: RpcError) | One(item: Response) | Many(items: seq<Response>)

  /** One send: where the request counter stood, which other calls advance too, and what came back. */
  datatype Exchange = Exchange(counter: nat, wire: Wire)

  /** Past the end of its script the transport fails for good. */
  const DOWN := Exchange(0, Dead(Fault(false, false, false, false)))

  function Next(script: seq<Exchange>, at: nat): Exchange {
    if at < |script| then script[at] else DOWN
  }

  /** Where a result comes from: the response to a call's own request, an error envelope that names
      no request of the send, or no response at all. */
  datatype Origin = Reply(call: Call) | Envelope | NoReply

  /** A result: a value, or an error. */
  datatype CallResult = CallResult(origin: Origin, error: Option<RpcError>)

  // ----- the transport's reordering -----------------------------------------------------

  function Ids(rs: seq<Response>): (r: seq<nat>)
    ensures |r| == |rs| && forall i :: 0 <= i < |r| ==> r[i] == rs[i].id
  {
    seq(|rs|, i requires 0 <= i < |rs| => rs[i].id)
  }

  /** Some response names `id`. */
  predicate Named(rs: seq<Response>, id: nat) {
    rs != [] && (rs[|rs| - 1].id == id || Named(rs[..|rs| - 1], id))
  }

  /** Among several responses that name `id`, the last. */
  function LastNamed(rs: seq<Response>, id: nat): Response
    requires Named(rs, id)
  {
    if rs[|rs| - 1].id == id then rs[|rs| - 1] else LastNamed(rs[..|rs| - 1], id)
  }

  lemma {:induction false} NamedIsMember(rs: seq<Response>, id: nat)
    ensures Named(rs, id) <==> id in Ids(rs)
    ensures Named(rs, id) ==> LastNamed(rs, id) in rs && LastNamed(rs, id).id == id
  {
    if rs != [] {
      var front := rs[..|rs| - 1];
      NamedIsMember(front, id);
      assert Ids(rs) == Ids(front) + [rs[|rs| - 1].id];
    }
  }

  /** The responses in the order of the ids asked for; none if one is missing. */
  function InOrder(rs: seq<Response>, ids: seq<nat>): (r: Option<seq<Response>>)
    ensures r.Some? ==> |r.value| == |ids|
  {
    if ids == [] then Some([])
    else
      var front, id := InOrder(rs, ids[..|ids| - 1]), ids[|ids| - 1];
      if front.None? || !Named(rs, id) then None else Some(front.value + [LastNamed(rs, id)])
  }

  lemma {:induction false} InOrderIsNamed(rs: seq<Response>, ids: seq<nat>)
    ensures InOrder(rs, ids).Some? <==> forall i :: 0 <= i < |ids| ==> Named(rs, ids[i])
    ensures InOrder(rs, ids).Some? ==>
      forall i :: 0 <= i < |ids| ==> Named(rs, ids[i]) && InOrder(rs, ids).value[i] == LastNamed(rs, ids[i])
  {
    if ids != [] {
      InOrderIsNamed(rs, ids[..|ids| - 1]);
    }
  }

  lemma EqualByInclusion(a: multiset<nat>, b: multiset<nat>)
    requires a <= b && |a| == |b|
    ensures a == b
  {
    assert b == a + (b - a);
    assert |b - a| == 0;
  }

  /** Distinct ids that all occur in a list no longer than theirs are a permutation of it. */
  lemma CoveredIsPermutation(ids: seq<nat>, others: seq<nat>)
    requires Distinct(ids) && |ids| == |others|
    requires forall i :: 0 <= i < |ids| ==> ids[i] in others
    ensures multiset(ids) == multiset(others)
  {
    forall x
      ensures multiset(ids)[x] <= multiset(others)[x]
    {
      DistinctOnce(ids, x);
      if x in multiset(ids) {
        assert x in ids;
      }
    }
    EqualByInclusion(multiset(ids), multiset(others));
  }

  /** The last response for each id answered. */
  method IndexById(rs: seq<Response>) returns (byId: map<nat, Response>)
    ensures forall id :: id in byId <==> Named(rs, id)
    ensures forall id :: id in byId ==> byId[id] == LastNamed(rs, id)
  {
    byId := map[];
    for i := 0 to |rs|
      invariant forall id :: id in byId <==> Named(rs[..i], id)
      invariant forall id :: id in byId ==> byId[id] == LastNamed(rs[..i], id)
    {
      TakeOneMore(rs, i);
      byId := byId[rs[i].id := rs[i]];
    }
    TakeAll(rs);
  }

  /** Take each requested id's response out of the map, in order; an id already taken is missing. */
  method TakeInOrder(ids: seq<nat>, rs: seq<Response>, responses: map<nat, Response>)
    returns (r: Option<seq<Response>>)
    requires Distinct(ids) && forall id :: id in responses <==> Named(rs, id)
    requires forall id :: id in responses ==> responses[id] == LastNamed(rs, id)
    ensures r == InOrder(rs, ids)
  {
    hide Named, LastNamed;
    InOrderIsNamed(rs, ids);
    var byId := responses;
    var ordered: seq<Response> := [];
    for i := 0 to |ids|
      invariant |ordered| == i && forall k :: 0 <= k < i ==>
        Named(rs, ids[k]) && ordered[k] == LastNamed(rs, ids[k])
      invariant forall id :: id in byId <==> Named(rs, id) && id !in ids[..i]
      invariant forall id :: id in byId ==> byId[id] == LastNamed(rs, id)
    {
      if ids[i] !in byId {
        assert ids[i] !in ids[..i];
        return None;
      }
      ordered := ordered + [byId[ids[i]]];
      TakeOneMore(ids, i);
      byId := byId - {ids[i]};
    }
    assert ordered == InOrder(rs, ids).value;
    r := Some(ordered);
  }

  lemma PermutationCovers(ids: seq<nat>, others: seq<nat>, i: nat)
    requires multiset(ids) == multiset(others) && i < |ids|
    ensures ids[i] in others
  {
    assert ids[i] in multiset(ids);
  }

  /** In a list as long as theirs, all ids are named exactly when the ids are a permutation. */
  lemma InOrderIffPermutation(rs: seq<Response>, ids: seq<nat>)
    requires Distinct(ids)
    ensures |rs| == |ids| && InOrder(rs, ids).Some? <==> multiset(Ids(rs)) == multiset(ids)
    ensures InOrder(rs, ids).Some? ==> Ids(InOrder(rs, ids).value) == ids
    ensures InOrder(rs, ids).Some? ==> forall i :: 0 <= i < |ids| ==> InOrder(rs, ids).value[i] in rs
  {
    hide InOrder, Named, LastNamed;
    InOrderIsNamed(rs, ids);
    forall i | 0 <= i < |ids|
      ensures Named(rs, ids[i]) <==> ids[i] in Ids(rs)
      ensures Named(rs, ids[i]) ==> LastNamed(rs, ids[i]) in rs && LastNamed(rs, ids[i]).id == ids[i]
    {
      NamedIsMember(rs, ids[i]);
    }
    if multiset(Ids(rs)) == multiset(ids) {
      SamePermutation(Ids(rs), ids);
    } else if |rs| == |ids| && InOrder(rs, ids).Some? {
      CoveredIsPermutation(ids, Ids(rs));
    }
  }

  lemma SamePermutation(a: seq<nat>, b: seq<nat>)
    requires multiset(a) == multiset(b)
    ensures |a| == |b| && forall i :: 0 <= i < |b| ==> b[i] in a
  {
    assert |multiset(a)| == |multiset(b)|;
    forall i | 0 <= i < |b|
      ensures b[i] in a
    {
      PermutationCovers(b, a, i);
    }
  }

  /** Put the responses of a parsed batch in request order. It succeeds exactly when their ids are
      a permutation of the requests'. */
  method SendBatch(ids: seq<nat>, rs: seq<Response>) returns (r: Option<seq<Response>>)
    requires Distinct(ids)
    ensures r == if |rs| == |ids| then InOrder(rs, ids) else None
    ensures r.Some? <==> multiset(Ids(rs)) == multiset(ids)
    ensures r.Some? ==> Ids(r.value) == ids && forall i :: 0 <= i < |r.value| ==> r.value[i] in rs
  {
    hide InOrder, Named, LastNamed;
    InOrderIffPermutation(rs, ids);
    if |rs| != |ids| {
      return None;
    }
    var byId := IndexById(rs);
    r := TakeInOrder(ids, rs, byId);
  }

  // ----- one round trip --------------------------------------------------------------------

  function RequestIds(n: nat, counter: nat): (r: seq<nat>)
    ensures |r| == n && forall i :: 0 <= i < n ==> r[i] == counter + 1 + i
  {
    seq(n, i => counter + 1 + i)
  }

  /** The result that a response to these calls' requests stands for: that of the call whose request
      it names. */
  function Judged(calls: seq<Call>, counter: nat, item: Response): CallResult {
    CallResult(if counter < item.id <= counter + |calls| then Reply(calls[item.id - counter - 1])
               else if item.refusal.Some? then Envelope else NoReply,
               item.verdict)
  }

  /** A batch's results in call order; an error unless exactly its own requests are answered. */
  function Executed(calls: seq<Call>, x: Exchange): Result<seq<CallResult>, RpcError> {
    match x.wire
    case Dead(e) => Err(e)
    case One(item) => Err(if item.refusal.Some? then item.refusal.value else PROTOCOL_ERROR)
    case Many(items) =>
      var ordered := InOrder(items, RequestIds(|calls|, x.counter));
      if |items| != |calls| || ordered.None? then Err(PROTOCOL_ERROR)
      else Ok(seq(|calls|, i requires 0 <= i < |calls| => Judged(calls, x.counter, ordered.value[i])))
  }

  /** `r` is the result of call `i` of these, as this exchange's response to its request has it. */
  ghost predicate RepliedIn(x: Exchange, calls: seq<Call>, i: nat, r: CallResult)
    requires i < |calls|
  {
    && r.origin == Reply(calls[i]) && x.wire.Many?
    && exists item :: item in x.wire.items && item.id == x.counter + 1 + i && r.error == item.verdict
  }

  /** A batch succeeds exactly when the ids that came back are a permutation of those sent; then
      result `i` is call `i`'s own, an error or not as its response was. */
  lemma ExecutedAnswers(calls: seq<Call>, x: Exchange)
    ensures var r := Executed(calls, x);
      && (r.Ok? <==> x.wire.Many? && multiset(Ids(x.wire.items)) == multiset(RequestIds(|calls|, x.counter)))
      && (r.Ok? ==> |r.value| == |calls| && forall i :: 0 <= i < |calls| ==> RepliedIn(x, calls, i, r.value[i]))
  {
    hide InOrder;
    if x.wire.Many? {
      var ids := RequestIds(|calls|, x.counter);
      InOrderIffPermutation(x.wire.items, ids);
      if |x.wire.items| == |calls| && InOrder(x.wire.items, ids).Some? {
        var ordered := InOrder(x.wire.items, ids).value;
        forall i | 0 <= i < |calls|
          ensures RepliedIn(x, calls, i, Judged(calls, x.counter, ordered[i]))
        {
          assert Ids(ordered)[i] == ids[i] && ordered[i] in x.wire.items;
        }
      }
    }
  }

  /** Send one batch under fresh ids and read its responses back in call order. */
  method ExecuteBatch(calls: seq<Call>, x: Exchange) returns (r: Result<seq<CallResult>, RpcError>)
    ensures r == Executed(calls, x)
    ensures r.Ok? <==> x.wire.Many? && multiset(Ids(x.wire.items)) == multiset(RequestIds(|calls|, x.counter))
    ensures r.Ok? ==> |r.value| == |calls| && forall i :: 0 <= i < |calls| ==> RepliedIn(x, calls, i, r.value[i])
  {
    hide InOrder, RepliedIn;
    ExecutedAnswers(calls, x);
    match x.wire
    case Dead(e) =>
      r := Err(e);
    case One(item) =>
      r := Err(if item.refusal.Some? then item.refusal.value else PROTOCOL_ERROR);
    case Many(items) =>
      var ordered := SendBatch(RequestIds(|calls|, x.counter), items);
      if ordered.None? {
        return Err(PROTOCOL_ERROR);
      }
      r := Ok(seq(|calls|, i requires 0 <= i < |calls| => Judged(calls, x.counter, ordered.value[i])));
  }

  /** One call sent alone: a response under another id counts only if it is an error envelope. */
  function Alone(call: Call, x: Exchange): CallResult {
    match x.wire
    case Dead(e) => CallResult(NoReply, Some(e))
    case Many(_) => CallResult(NoReply, Some(PROTOCOL_ERROR))
    case One(item) =>
      if item.id != x.counter + 1 && item.refusal.None? then CallResult(NoReply, Some(PROTOCOL_ERROR))
      else Judged([call], x.counter, item)
  }

  // ----- the ladders ---------------------------------------------------------------------------

  /** After a retry the last error is reported as what a spent ladder ended with. */
  function Spent(e: RpcError, attempt: nat): RpcError {
    if attempt > 0 then RetryExhausted(e) else e
  }

  function Settled(r: CallResult, attempt: nat): CallResult {
    if r.error.None? then r else r.(error := Some(Spent(r.error.value, attempt)))
  }

  /** A call's own ladder, from send number `at` on: its result, and the next send's number. */
  function Single(call: Call, retries: nat, script: seq<Exchange>, at: nat, attempt: nat): (CallResult, nat)
    requires attempt <= retries
    decreases retries - attempt
  {
    var r := Alone(call, Next(script, at));
    if r.error.Some? && attempt < retries && r.error.value.IsRetryable() then
      Single(call, retries, script, at + 1, attempt + 1)
    else (Settled(r, attempt), at + 1)
  }

  /** A batch tried whole, with its own retries. None when its shape failed and it is to be split. */
  function Whole(calls: seq<Call>, retries: nat, script: seq<Exchange>, at: nat, attempt: nat)
      : (Option<Result<seq<CallResult>, RpcError>>, nat)
    requires attempt <= retries
    decreases retries - attempt
  {
    var r := Executed(calls, Next(script, at));
    if r.Ok? then (Some(r), at + 1)
    else if r.error.IsBatchShape() then (None, at + 1)
    else if attempt < retries && r.error.IsRetryable() then Whole(calls, retries, script, at + 1, attempt + 1)
    else if r.error.IsRetryableBatchOnly() then (None, at + 1)
    else (Some(Err(Spent(r.error, attempt))), at + 1)
  }

  /** A batch reduced as it fails: whole, or in halves, down to single calls. */
  function Reduced(calls: seq<Call>, retries: nat, script: seq<Exchange>, at: nat)
      : (Result<seq<CallResult>, RpcError>, nat)
    decreases |calls|
  {
    if calls == [] then (Ok([]), at)
    else if |calls| == 1 then
      var one := Single(calls[0], retries, script, at, 0);
      (Ok([one.0]), one.1)
    else
      var whole := Whole(calls, retries, script, at, 0);
      if whole.0.Some? then (whole.0.value, whole.1)
      else
        var mid := (|calls| + 1) / 2;
        var left := Reduced(calls[..mid], retries, script, whole.1);
        var right := Reduced(calls[mid..], retries, script, left.1);
        (if left.0.Err? then left.0 else if right.0.Err? then right.0 else Ok(left.0.value + right.0.value), right.1)
  }

  /** The chunks from number `k` on, each reduced, after these results. */
  function Called(chunks: seq<seq<Call>>, k: nat, results: seq<CallResult>, retries: nat, script: seq<Exchange>,
      at: nat): (Result<seq<CallResult>, RpcError>, nat)
    requires k <= |chunks|
    decreases |chunks| - k
  {
    if k == |chunks| then (Ok(results), at)
    else
      var r := Reduced(chunks[k], retries, script, at);
      if r.0.Err? then r else Called(chunks, k + 1, results + r.0.value, retries, script, r.1)
  }

  // ----- whose result it is ---------------------------------------------------------------------

  /** Where a result of `call` comes from: a batch's response to its request, or its own ladder. */
  ghost predicate Explained(call: Call, r: CallResult, retries: nat, script: seq<Exchange>) {
    || (exists k, calls: seq<Call>, i :: 0 <= k < |script| && 0 <= i < |calls| && calls[i] == call
          && RepliedIn(script[k], calls, i, r))
    || (exists at :: r == Single(call, retries, script, at, 0).0)
  }

  ghost predicate AllExplained(calls: seq<Call>, results: seq<CallResult>, retries: nat, script: seq<Exchange>) {
    |results| == |calls| && forall i :: 0 <= i < |calls| ==> Explained(calls[i], results[i], retries, script)
  }

  /** A call's own ladder stops at the first send that is not a retryable failure, or when its
      retries are spent, and its result is that send's: an error exactly when that send's was. */
  lemma {:induction false} SingleIsItsLastSend(call: Call, retries: nat, script: seq<Exchange>, at: nat, attempt: nat)
    requires attempt <= retries
    ensures var (r, n) := Single(call, retries, script, at, attempt);
      && at < n <= at + retries - attempt + 1
      && (forall j :: at <= j < n - 1 ==>
            var e := Alone(call, Next(script, j)).error; e.Some? && e.value.IsRetryable())
      && var last := Alone(call, Next(script, n - 1));
         && r.origin == last.origin && (r.error.Some? <==> last.error.Some?)
         && (last.error.Some? ==>
               r.error.value == if attempt > 0 || n > at + 1 then RetryExhausted(last.error.value) else last.error.value)
         && (last.error.Some? && last.error.value.IsRetryable() ==> n == at + retries - attempt + 1)
    decreases retries - attempt
  {
    hide Alone;
    var r := Alone(call, Next(script, at));
    if r.error.Some? && attempt < retries && r.error.value.IsRetryable() {
      SingleIsItsLastSend(call, retries, script, at + 1, attempt + 1);
    }
  }

  lemma AloneIsOwn(call: Call, x: Exchange)
    ensures var r := Alone(call, x);
      (r.origin.Reply? ==> r.origin.call == call) && (r.origin == NoReply ==> r.error.Some?)
  {
  }

  /** So a result that names a call names its own; and a result without a response is an error. */
  lemma ExplainedIsOwn(call: Call, r: CallResult, retries: nat, script: seq<Exchange>)
    requires Explained(call, r, retries, script)
    ensures r.origin.Reply? ==> r.origin.call == call
    ensures r.origin == NoReply ==> r.error.Some?
  {
    if at :| r == Single(call, retries, script, at, 0).0 {
      SingleIsItsLastSend(call, retries, script, at, 0);
      AloneIsOwn(call, Next(script, Single(call, retries, script, at, 0).1 - 1));
    }
  }

  /** What a batch tried whole comes to: the results of its last send, within its retries. */
  lemma {:induction false} WholeIsItsLastSend(calls: seq<Call>, retries: nat, script: seq<Exchange>, at: nat, attempt: nat)
    requires attempt <= retries
    ensures var (r, n) := Whole(calls, retries, script, at, attempt);
      && at < n <= at + retries - attempt + 1
      && (r.Some? && r.value.Ok? ==> n <= |script| && r.value == Executed(calls, script[n - 1]))
    decreases retries - attempt
  {
    hide Executed;
    assert Executed(calls, DOWN).Err? by {
      DownFails(calls);
    }
    var r := Executed(calls, Next(script, at));
    if r.Err? && !r.error.IsBatchShape() && attempt < retries && r.error.IsRetryable() {
      WholeIsItsLastSend(calls, retries, script, at + 1, attempt + 1);
    }
  }

  lemma DownFails(calls: seq<Call>)
    ensures Executed(calls, DOWN).Err?
  {
  }

  /** The most round trips `n` calls may cost, each tried `retries + 1` times at every size. */
  function Cost(n: nat, retries: nat): nat {
    if n == 0 then 0 else (2 * n - 1) * (retries + 1)
  }

  lemma CostSplits(n: nat, m: nat, retries: nat)
    ensures n > 0 && m > 0 ==> retries + 1 + Cost(n, retries) + Cost(m, retries) == Cost(n + m, retries)
    ensures Cost(n, retries) + Cost(m, retries) <= Cost(n + m, retries)
  {
    if n > 0 && m > 0 {
      assert (2 * (n + m) - 1) * (retries + 1) == (2 * n - 1) * (retries + 1) + (2 * m - 1) * (retries + 1) + (retries + 1);
    }
  }

  lemma WholeAnswers(calls: seq<Call>, retries: nat, script: seq<Exchange>, at: nat)
    ensures var (r, n) := Whole(calls, retries, script, at, 0);
      && at < n <= at + retries + 1
      && (r.Some? && r.value.Ok? ==> AllExplained(calls, r.value.value, retries, script))
  {
    hide Whole, Executed, RepliedIn, Single;
    var (r, n) := Whole(calls, retries, script, at, 0);
    WholeIsItsLastSend(calls, retries, script, at, 0);
    if r.Some? && r.value.Ok? {
      ExecutedAnswers(calls, script[n - 1]);
    }
  }

  lemma SingleAnswers(call: Call, retries: nat, script: seq<Exchange>, at: nat)
    ensures var (r, n) := Single(call, retries, script, at, 0);
      at < n <= at + Cost(1, retries) && AllExplained([call], [r], retries, script)
  {
    hide Single, RepliedIn;
    SingleIsItsLastSend(call, retries, script, at, 0);
    var r := Single(call, retries, script, at, 0);
    assert Explained(call, r.0, retries, script);
  }

  lemma ExplainedConcat(a: seq<CallResult>, b: seq<CallResult>, x: seq<Call>, y: seq<Call>, retries: nat,
      script: seq<Exchange>)
    requires AllExplained(x, a, retries, script) && AllExplained(y, b, retries, script)
    ensures AllExplained(x + y, a + b, retries, script)
  {
    hide Explained;
  }

  /** Whatever fails: an Ok has one result per call and in call order, each from a response to its
      call's own request or from its call's own ladder, and `n` calls take at most
      `Cost(n, retries)` sends. */
  lemma {:induction false} ReducedAnswers(calls: seq<Call>, retries: nat, script: seq<Exchange>, at: nat)
    ensures var (r, n) := Reduced(calls, retries, script, at);
      && at <= n <= at + Cost(|calls|, retries)
      && (r.Ok? ==> AllExplained(calls, r.value, retries, script))
    decreases |calls|
  {
    hide Single, Whole, AllExplained, Cost;
    if calls == [] {
      NothingExplained(retries, script);
    } else if |calls| == 1 {
      SingleAnswers(calls[0], retries, script, at);
      assert calls == [calls[0]];
    } else {
      var mid := (|calls| + 1) / 2;
      CostSplits(mid, |calls| - mid, retries);
      WholeAnswers(calls, retries, script, at);
      WholeCosts(|calls|, retries);
      var whole := Whole(calls, retries, script, at, 0);
      if whole.0.None? {
        var left := Reduced(calls[..mid], retries, script, whole.1);
        var right := Reduced(calls[mid..], retries, script, left.1);
        ReducedAnswers(calls[..mid], retries, script, whole.1);
        ReducedAnswers(calls[mid..], retries, script, left.1);
        HalvesExplained(calls, mid, left.0, right.0, retries, script);
      }
    }
  }

  lemma HalvesExplained(calls: seq<Call>, mid: nat, left: Result<seq<CallResult>, RpcError>,
      right: Result<seq<CallResult>, RpcError>, retries: nat, script: seq<Exchange>)
    requires mid <= |calls|
    requires left.Ok? ==> AllExplained(calls[..mid], left.value, retries, script)
    requires right.Ok? ==> AllExplained(calls[mid..], right.value, retries, script)
    ensures left.Ok? && right.Ok? ==> AllExplained(calls, left.value + right.value, retries, script)
  {
    hide AllExplained;
    if left.Ok? && right.Ok? {
      ExplainedConcat(left.value, right.value, calls[..mid], calls[mid..], retries, script);
      assert calls == calls[..mid] + calls[mid..];
    }
  }

  lemma NothingExplained(retries: nat, script: seq<Exchange>)
    ensures AllExplained([], [], retries, script) && Cost(0, retries) == 0
  {
  }

  lemma WholeCosts(n: nat, retries: nat)
    requires n > 0
    ensures retries + 1 <= Cost(n, retries)
  {
    assert (2 * n - 1) * (retries + 1) == (2 * n - 2) * (retries + 1) + (retries + 1);
  }

  // ----- when it succeeds ------------------------------------------------------------------------

  /** A failure that only a smaller batch can cure. */
  predicate Splits(e: RpcError) {
    e.IsBatchShape() || e.IsRetryableBatchOnly()
  }

  /** A batch tried whole is sent again only after a retryable failure, while retries last. Its last
      send decides: it succeeds if that does, splits exactly on a failure that only a smaller batch
      can cure, and otherwise fails with that send's error. */
  lemma {:induction false} WholeDecides(calls: seq<Call>, retries: nat, script: seq<Exchange>, at: nat, attempt: nat)
    requires attempt <= retries
    ensures at < Whole(calls, retries, script, at, attempt).1
    ensures var (r, n) := Whole(calls, retries, script, at, attempt);
      var last := Executed(calls, Next(script, n - 1));
      && n <= at + retries - attempt + 1
      && (forall j :: at <= j < n - 1 ==>
            var x := Executed(calls, Next(script, j)); x.Err? && x.error.IsRetryable() && !x.error.IsBatchShape())
      && (last.Ok? ==> r == Some(last))
      && (r.None? <==> last.Err? && Splits(last.error))
      && (last.Err? && !Splits(last.error) ==>
            && r == Some(Err(if attempt > 0 || n > at + 1 then RetryExhausted(last.error) else last.error))
            && (last.error.IsRetryable() ==> n == at + retries - attempt + 1))
    decreases retries - attempt
  {
    hide Executed;
    var r := Executed(calls, Next(script, at));
    if r.Err? && !r.error.IsBatchShape() && attempt < retries && r.error.IsRetryable() {
      WholeDecides(calls, retries, script, at + 1, attempt + 1);
    }
  }

  predicate AllAnswered(calls: seq<Call>, x: Exchange) {
    x.wire.Many? && multiset(Ids(x.wire.items)) == multiset(RequestIds(|calls|, x.counter))
  }

  /** Several calls whose first send is answered by a permutation of its ids are done with it; so is
      one call that is answered by a value. */
  lemma AnsweredAtOnce(calls: seq<Call>, retries: nat, script: seq<Exchange>, at: nat)
    requires at < |script| && calls != []
    ensures |calls| > 1 && AllAnswered(calls, script[at]) ==>
      Executed(calls, script[at]).Ok? && Reduced(calls, retries, script, at) == (Executed(calls, script[at]), at + 1)
    ensures |calls| == 1 && Alone(calls[0], script[at]).error.None? ==>
      Reduced(calls, retries, script, at) == (Ok([Alone(calls[0], script[at])]), at + 1)
  {
    hide Executed, Alone;
    ExecutedAnswers(calls, script[at]);
  }

  /** A failed batch failed with the error of one of its sends, of all its calls or of a part of them,
      that no smaller batch could cure. */
  ghost predicate FailedWith(script: seq<Exchange>, at: nat, next: nat, e: RpcError) {
    exists k, part: seq<Call>, attempt :: at <= k < next && Executed(part, Next(script, k)).Err?
      && !Splits(Executed(part, Next(script, k)).error) && e == Spent(Executed(part, Next(script, k)).error, attempt)
  }

  lemma FailedWithin(script: seq<Exchange>, at: nat, next: nat, from: nat, to: nat, e: RpcError)
    requires FailedWith(script, from, to, e) && at <= from && to <= next
    ensures FailedWith(script, at, next, e)
  {
    hide Executed, Spent, Splits;
    var k, part: seq<Call>, attempt :| from <= k < to && Executed(part, Next(script, k)).Err?
      && !Splits(Executed(part, Next(script, k)).error) && e == Spent(Executed(part, Next(script, k)).error, attempt);
    assert at <= k < next;
  }

  lemma WholeFailsWith(calls: seq<Call>, retries: nat, script: seq<Exchange>, at: nat)
    ensures var (r, n) := Whole(calls, retries, script, at, 0);
      at < n && (r.Some? && r.value.Err? ==> FailedWith(script, at, n, r.value.error))
  {
    hide Executed, Splits, Whole;
    WholeDecides(calls, retries, script, at, 0);
    var (r, n) := Whole(calls, retries, script, at, 0);
    var last := Executed(calls, Next(script, n - 1));
    assert at <= n - 1 < n && (last.Err? && !Splits(last.error) && r.Some? && r.value.Err? ==>
      r.value.error == Spent(last.error, n - 1 - at));
  }

  lemma {:induction false} ReducedFailsWith(calls: seq<Call>, retries: nat, script: seq<Exchange>, at: nat)
    ensures var (r, n) := Reduced(calls, retries, script, at);
      at <= n && (r.Err? ==> FailedWith(script, at, n, r.error))
    decreases |calls|
  {
    hide Single, Whole, FailedWith;
    ReducedAnswers(calls, retries, script, at);
    if |calls| > 1 {
      WholeFailsWith(calls, retries, script, at);
      var whole := Whole(calls, retries, script, at, 0);
      if whole.0.None? {
        var mid := (|calls| + 1) / 2;
        var left := Reduced(calls[..mid], retries, script, whole.1);
        var right := Reduced(calls[mid..], retries, script, left.1);
        ReducedFailsWith(calls[..mid], retries, script, whole.1);
        ReducedFailsWith(calls[mid..], retries, script, left.1);
        if left.0.Err? {
          FailedWithin(script, at, right.1, whole.1, left.1, left.0.error);
        } else if right.0.Err? {
          FailedWithin(script, at, right.1, left.1, right.1, right.0.error);
        }
      }
    }
  }

  function Concat(chunks: seq<seq<Call>>): seq<Call> {
    if chunks == [] then [] else Concat(chunks[..|chunks| - 1]) + chunks[|chunks| - 1]
  }

  /** Chunks of `size` calls, the last one possibly shorter. */
  function Chunks(calls: seq<Call>, size: nat): seq<seq<Call>>
    requires size > 0
  {
    if calls == [] then []
    else if |calls| <= size then [calls]
    else [calls[..size]] + Chunks(calls[size..], size)
  }

  lemma {:induction false} CalledAnswers(chunks: seq<seq<Call>>, k: nat, results: seq<CallResult>,
      retries: nat, script: seq<Exchange>, at: nat)
    requires k <= |chunks| && AllExplained(Concat(chunks[..k]), results, retries, script)
    ensures |Concat(chunks[..k])| <= |Concat(chunks)|
    ensures var (r, n) := Called(chunks, k, results, retries, script, at);
      && at <= n <= at + Cost(|Concat(chunks)| - |Concat(chunks[..k])|, retries)
      && (r.Ok? ==> AllExplained(Concat(chunks), r.value, retries, script))
    decreases |chunks| - k
  {
    hide AllExplained, Reduced, Cost, Concat;
    ConcatPrefix(chunks, k);
    if k == |chunks| {
      TakeAll(chunks);
      NothingExplained(retries, script);
    } else {
      ConcatPrefix(chunks, k + 1);
      ConcatOneMore(chunks, k);
      ReducedAnswers(chunks[k], retries, script, at);
      var before, after := |Concat(chunks[..k + 1])|, |Concat(chunks)|;
      CostSplits(|chunks[k]|, after - before, retries);
      CostIsMonotone(|chunks[k]|, after - |Concat(chunks[..k])|, retries);
      var r := Reduced(chunks[k], retries, script, at);
      if r.0.Ok? {
        ExplainedConcat(results, r.0.value, Concat(chunks[..k]), chunks[k], retries, script);
        CalledAnswers(chunks, k + 1, results + r.0.value, retries, script, r.1);
      }
    }
  }

  lemma ConcatOneMore(chunks: seq<seq<Call>>, k: nat)
    requires k < |chunks|
    ensures Concat(chunks[..k + 1]) == Concat(chunks[..k]) + chunks[k]
  {
    TakeOneMore(chunks, k);
  }

  lemma CostIsMonotone(n: nat, m: nat, retries: nat)
    requires n <= m
    ensures Cost(n, retries) <= Cost(m, retries)
  {
    CostSplits(n, m - n, retries);
    assert Cost(m - n, retries) >= 0;
  }

  lemma {:induction false} ConcatPrefix(chunks: seq<seq<Call>>, n: nat)
    requires n <= |chunks|
    ensures |Concat(chunks[..n])| <= |Concat(chunks)|
  {
    if n < |chunks| {
      var front := chunks[..|chunks| - 1];
      assert front[..n] == chunks[..n];
      ConcatPrefix(front, n);
    } else {
      assert chunks[..n] == chunks;
    }
  }

  // ----- the loops ---------------------------------------------------------------------------------

  /** A single call through its own ladder: whatever happens becomes that call's result. */
  method SingleCall(call: Call, retries: nat, script: seq<Exchange>, at: nat) returns (r: CallResult, next: nat)
    ensures (r, next) == Single(call, retries, script, at, 0)
  {
    hide Alone;
    var attempt := 0;
    next := at;
    while true
      invariant attempt <= retries && Single(call, retries, script, next, attempt) == Single(call, retries, script, at, 0)
      decreases retries - attempt
    {
      r := Alone(call, Next(script, next));
      next := next + 1;
      if r.error.None? {
        return;
      }
      if attempt < retries && r.error.value.IsRetryable() {
        attempt := attempt + 1;
      } else {
        return r.(error := Some(Spent(r.error.value, attempt))), next;
      }
    }
  }

  /** Try a batch whole, with its own retries. None when its shape failed and it is to be split. */
  method TryWhole(calls: seq<Call>, retries: nat, script: seq<Exchange>, at: nat)
    returns (r: Option<Result<seq<CallResult>, RpcError>>, next: nat)
    ensures (r, next) == Whole(calls, retries, script, at, 0)
  {
    hide Executed, RepliedIn;
    var attempt := 0;
    next := at;
    while true
      invariant attempt <= retries && Whole(calls, retries, script, next, attempt) == Whole(calls, retries, script, at, 0)
      decreases retries - attempt
    {
      var result := ExecuteBatch(calls, Next(script, next));
      next := next + 1;
      if result.Ok? {
        return Some(result), next;
      }
      var e := result.error;
      if e.IsBatchShape() {
        return None, next;
      } else if attempt < retries && e.IsRetryable() {
        attempt := attempt + 1;
      } else if e.IsRetryableBatchOnly() {
        return None, next;
      } else {
        return Some(Err(Spent(e, attempt))), next;
      }
    }
  }

  /** Try a batch whole; on a shape failure split it in half, down to single calls. */
  method ReduceBatch(calls: seq<Call>, retries: nat, script: seq<Exchange>, at: nat)
    returns (r: Result<seq<CallResult>, RpcError>, next: nat)
    ensures (r, next) == Reduced(calls, retries, script, at)
    ensures at <= next <= at + Cost(|calls|, retries)
    ensures r.Ok? ==> AllExplained(calls, r.value, retries, script)
    ensures r.Err? ==> FailedWith(script, at, next, r.error)
    decreases |calls|
  {
    hide Single, Whole, AllExplained, Cost, FailedWith;
    ReducedAnswers(calls, retries, script, at);
    ReducedFailsWith(calls, retries, script, at);
    if calls == [] {
      return Ok([]), at;
    }
    if |calls| == 1 {
      var one;
      one, next := SingleCall(calls[0], retries, script, at);
      return Ok([one]), next;
    }
    var whole;
    whole, next := TryWhole(calls, retries, script, at);
    if whole.Some? {
      return whole.value, next;
    }
    var mid := (|calls| + 1) / 2;
    var left, right;
    left, next := ReduceBatch(calls[..mid], retries, script, next);
    right, next := ReduceBatch(calls[mid..], retries, script, next);
    if left.Err? {
      return left, next;
    }
    if right.Err? {
      return right, next;
    }
    r := Ok(left.value + right.value);
  }

  /** Split into chunks of `chunkSize`, the last one possibly shorter. */
  method SplitCalls(calls: seq<Call>, chunkSize: nat) returns (chunks: seq<seq<Call>>)
    requires chunkSize > 0
    ensures chunks == Chunks(calls, chunkSize) && Concat(chunks) == calls
    ensures forall k :: 0 <= k < |chunks| ==> 0 < |chunks[k]| <= chunkSize
    ensures forall k :: 0 <= k < |chunks| - 1 ==> |chunks[k]| == chunkSize
  {
    chunks := [];
    var at := 0;
    while at < |calls|
      invariant 0 <= at <= |calls| && Concat(chunks) == calls[..at]
      invariant chunks + Chunks(calls[at..], chunkSize) == Chunks(calls, chunkSize)
      invariant forall k :: 0 <= k < |chunks| ==> 0 < |chunks[k]| <= chunkSize
      invariant at < |calls| ==> forall k :: 0 <= k < |chunks| ==> |chunks[k]| == chunkSize
      invariant forall k :: 0 <= k < |chunks| - 1 ==> |chunks[k]| == chunkSize
    {
      var end := if at + chunkSize < |calls| then at + chunkSize else |calls|;
      var chunk := calls[at..end];
      ChunkTaken(calls, at, chunkSize);
      Associates(chunks, [chunk], Chunks(calls[end..], chunkSize));
      SnocFront(chunks, chunk);
      assert calls[..at] + chunk == calls[..end];
      chunks := chunks + [chunk];
      at := end;
    }
    assert calls[..|calls|] == calls;
  }

  lemma ChunkTaken(calls: seq<Call>, at: nat, chunkSize: nat)
    requires at < |calls| && chunkSize > 0
    ensures var end := if at + chunkSize < |calls| then at + chunkSize else |calls|;
      Chunks(calls[at..], chunkSize) == [calls[at..end]] + Chunks(calls[end..], chunkSize)
  {
    var left := calls[at..];
    if |left| > chunkSize {
      assert left[..chunkSize] == calls[at..at + chunkSize] && left[chunkSize..] == calls[at + chunkSize..];
    } else {
      assert calls[|calls|..] == [] && left == calls[at..|calls|];
    }
  }

  /** The whole batched call: chunks in order, each reduced as it fails. */
  method BatchCallReduceOnRetry(calls: seq<Call>, maxBatch: nat, retries: nat, script: seq<Exchange>)
    returns (r: Result<seq<CallResult>, RpcError>, sends: nat)
    requires maxBatch > 0
    ensures (r, sends) == Called(Chunks(calls, maxBatch), 0, [], retries, script, 0)
    ensures sends <= Cost(|calls|, retries)
    ensures r.Ok? ==> AllExplained(calls, r.value, retries, script)
  {
    hide AllExplained, Cost, Chunks, Reduced;
    var chunks := SplitCalls(calls, maxBatch);
    NothingExplained(retries, script);
    assert Concat(chunks[..0]) == [];
    CalledAnswers(chunks, 0, [], retries, script, 0);
    var results: seq<CallResult> := [];
    sends := 0;
    for k := 0 to |chunks|
      invariant Called(chunks, k, results, retries, script, sends) == Called(chunks, 0, [], retries, script, 0)
    {
      var result;
      result, sends := ReduceBatch(chunks[k], retries, script, sends);
      if result.Err? {
        return result, sends;
      }
      results := results + result.value;
    }
    r := Ok(results);
  }
}
