/** Batched collection with retries over a scripted transport (`backend/data/fixture_transport.py`). */
module Transport {
  import opened Results
  import opened Seqs

  datatype FixtureResponse = FixtureResponse(
    batch: int, records: string, continuation: Option<string>, hasMore: bool, checksum: string)

  /** One entry of the transport's script. Only a transport error can be retryable. */
  datatype Scripted =
    | Reply(response: FixtureResponse)
    | TransportError(message: string, retryable: bool)
    | OtherError(message: string)

  /** Why `collect_batches` raises. `NoAttempt` is the unbound response of a call with no attempts. */
  datatype Failure =
    | Cancelled
    | OutOfResponses
    | Raised(error: Scripted)
    | WrongBatch
    | DuplicateBatch
    | StalledContinuation
    | NoAttempt

  datatype Call = Call(batch: nat, continuation: Option<string>)

  // ----- What the script alone determines -----

  /** The responses without the errors, in order. */
  function Replies(script: seq<Scripted>): seq<FixtureResponse> {
    if script == [] then []
    else Replies(Front(script)) + if Last(script).Reply? then [Last(script).response] else []
  }

  function TrailingErrors(script: seq<Scripted>): nat {
    if script == [] || Last(script).Reply? then 0 else TrailingErrors(Front(script)) + 1
  }

  /** The request that follows once `consumed` has been answered. */
  function BatchAfter(consumed: seq<Scripted>): nat {
    |Replies(consumed)| + 1
  }

  function ContinuationAfter(consumed: seq<Scripted>): Option<string> {
    if Replies(consumed) == [] then None else Last(Replies(consumed)).continuation
  }

  function CallAfter(consumed: seq<Scripted>): Call {
    Call(BatchAfter(consumed), ContinuationAfter(consumed))
  }

  datatype Verdict = Go | Finish | Fail(failure: Failure, called: bool)

  /** What happens to request number `j`, where `cancelled(j)` is the answer of the cancellation
      callback it polls. */
  function Judge(script: seq<Scripted>, cancelled: nat -> bool, attempts: int, j: nat): Verdict
    requires j <= |script|
  {
    var consumed := script[..j];
    var attempt := TrailingErrors(consumed) + 1;
    if attempt > attempts then Fail(NoAttempt, false)
    else if cancelled(j) then Fail(Cancelled, false)
    else if j == |script| then Fail(OutOfResponses, true)
    else
      match script[j]
      case Reply(r) =>
        if r.batch != BatchAfter(consumed) then Fail(WrongBatch, true)
        else if !r.hasMore then Finish
        else if r.continuation == ContinuationAfter(consumed) then Fail(StalledContinuation, true)
        else Go
      case TransportError(_, retryable) =>
        if retryable && attempt < attempts then Go else Fail(Raised(script[j]), true)
      case OtherError(_) => Fail(Raised(script[j]), true)
  }

  /** `consumed` entries are popped, `calls` requests are recorded. */
  datatype Outcome = Outcome(result: Result<seq<FixtureResponse>, Failure>, consumed: nat, calls: nat)

  function CollectFrom(script: seq<Scripted>, cancelled: nat -> bool, attempts: int, j: nat): (o: Outcome)
    requires j <= |script|
    ensures j <= o.consumed <= |script| && j <= o.calls <= |script| + 1
    decreases |script| - j
  {
    match Judge(script, cancelled, attempts, j)
    case Go => CollectFrom(script, cancelled, attempts, j + 1)
    case Finish => Outcome(Ok(Replies(script[..j + 1])), j + 1, j + 1)
    case Fail(failure, called) =>
      Outcome(Err(failure), if called && j < |script| then j + 1 else j, if called then j + 1 else j)
  }

  function Collected(script: seq<Scripted>, cancelled: nat -> bool, attempts: int): Outcome {
    CollectFrom(script, cancelled, attempts, 0)
  }

  /** The calls of the first `n` requests. */
  function CallsMade(script: seq<Scripted>, n: nat): (r: seq<Call>)
    requires n <= |script| + 1
    ensures |r| == n
  {
    if n == 0 then [] else CallsMade(script, n - 1) + [CallAfter(script[..n - 1])]
  }

  // ----- The transport and the collector -----

  function Answer(responses: seq<Scripted>, isCancelled: bool): Result<FixtureResponse, Failure> {
    if isCancelled then Err(Cancelled)
    else if responses == [] then Err(OutOfResponses)
    else if responses[0].Reply? then Ok(responses[0].response)
    else Err(Raised(responses[0]))
  }

  class FixtureTransport {
    var responses: seq<Scripted>
    var calls: seq<Call>

    constructor (responses: seq<Scripted>)
      ensures this.responses == responses && calls == []
    {
      this.responses := responses;
      calls := [];
    }

    /** `isCancelled` is what the cancellation callback answers; it is polled before anything else. */
    method Request(batch: nat, continuation: Option<string>, isCancelled: bool)
      returns (r: Result<FixtureResponse, Failure>)
      modifies this
      ensures calls == if isCancelled then old(calls) else old(calls) + [Call(batch, continuation)]
      ensures responses == if isCancelled || old(responses) == [] then old(responses) else old(responses)[1..]
      ensures r == Answer(old(responses), isCancelled)
    {
      if isCancelled {
        return Err(Cancelled);
      }
      calls := calls + [Call(batch, continuation)];
      if responses == [] {
        return Err(OutOfResponses);
      }
      var response := responses[0];
      responses := responses[1..];
      if !response.Reply? {
        return Err(Raised(response));
      }
      return Ok(response.response);
    }
  }

  // ----- Collecting, response by response -----

  /** What is left of a collection: its result, the script it leaves behind and its calls. */
  datatype Run = Run(result: Result<seq<FixtureResponse>, Failure>, rest: seq<Scripted>, calls: seq<Call>)

  function After(made: seq<Call>, run: Run): Run {
    run.(calls := made + run.calls)
  }

  lemma AfterTwice(first: seq<Call>, second: seq<Call>, run: Run)
    ensures After(first, After(second, run)) == After(first + second, run)
  {
    assert first + (second + run.calls) == (first + second) + run.calls;
  }

  function Collect(
    script: seq<Scripted>, cancelled: nat -> bool, polls: nat, attempts: int, attempt: nat,
    batch: nat, continuation: Option<string>, output: seq<FixtureResponse>): Run
    decreases |script|, 1
  {
    var call := [Call(batch, continuation)];
    if attempt > attempts then Run(Err(NoAttempt), script, [])
    else if cancelled(polls) then Run(Err(Cancelled), script, [])
    else if script == [] then Run(Err(OutOfResponses), script, call)
    else if script[0].Reply? then
      After(call, OnReply(script[0].response, script[1..], cancelled, polls + 1, attempts, batch, continuation, output))
    else if IsRetryable(Raised(script[0])) && attempt < attempts then
      After(call, Collect(script[1..], cancelled, polls + 1, attempts, attempt + 1, batch, continuation, output))
    else Run(Err(Raised(script[0])), script[1..], call)
  }

  function OnReply(
    r: FixtureResponse, script: seq<Scripted>, cancelled: nat -> bool, polls: nat, attempts: int,
    batch: nat, continuation: Option<string>, output: seq<FixtureResponse>): Run
    decreases |script|, 2
  {
    if r.batch != batch then Run(Err(WrongBatch), script, [])
    else if !r.hasMore then Run(Ok(output + [r]), script, [])
    else if r.continuation == continuation then Run(Err(StalledContinuation), script, [])
    else Collect(script, cancelled, polls, attempts, 1, batch + 1, r.continuation, output + [r])
  }

  predicate IsRetryable(f: Failure) {
    f.Raised? && f.error.TransportError? && f.error.retryable
  }

  /** The whole collection: first attempt at batch 1, without a continuation. */
  function FullRun(script: seq<Scripted>, cancelled: nat -> bool, attempts: int): Run {
    Collect(script, cancelled, 0, attempts, 1, 1, None, [])
  }

  /** The retry loop for one batch. `made` are the calls it makes. */
  method RequestWithRetry(
    transport: FixtureTransport, batch: nat, continuation: Option<string>, cancelled: nat -> bool, attempts: int,
    start: nat, ghost output: seq<FixtureResponse>)
    returns (response: Result<FixtureResponse, Failure>, polls: nat, ghost made: seq<Call>)
    modifies transport
    ensures transport.calls == old(transport.calls) + made
    ensures |transport.responses| <= |old(transport.responses)|
    ensures response.Ok? ==> |transport.responses| < |old(transport.responses)|
    ensures Collect(old(transport.responses), cancelled, start, attempts, 1, batch, continuation, output) ==
      After(made,
            if response.Err? then Run(Err(response.error), transport.responses, [])
            else OnReply(response.value, transport.responses, cancelled, polls, attempts, batch, continuation, output))
  {
    polls, made := start, [];
    var attempt := 1;
    ghost var goal := Collect(transport.responses, cancelled, start, attempts, 1, batch, continuation, output);
    while attempt <= attempts
      invariant attempt >= 1
      invariant transport.calls == old(transport.calls) + made
      invariant |transport.responses| <= |old(transport.responses)|
      invariant goal == After(made, Collect(
        transport.responses, cancelled, polls, attempts, attempt, batch, continuation, output))
    {
      ghost var call := [Call(batch, continuation)];
      if !cancelled(polls) {
        AfterEach(made, call, goal, transport.responses, cancelled, polls, attempts, attempt, batch, continuation, output);
        made := made + call;
      }
      response := transport.Request(batch, continuation, cancelled(polls));
      polls := polls + 1;
      if response.Ok? || !IsRetryable(response.error) || attempt == attempts {
        return;
      }
      attempt := attempt + 1;
    }
    response := Err(NoAttempt);
  }

  lemma AfterEach(
    made: seq<Call>, call: seq<Call>, goal: Run, script: seq<Scripted>, cancelled: nat -> bool, polls: nat,
    attempts: int, attempt: nat, batch: nat, continuation: Option<string>, output: seq<FixtureResponse>)
    requires goal == After(made, Collect(script, cancelled, polls, attempts, attempt, batch, continuation, output))
    requires attempt <= attempts && !cancelled(polls) && call == [Call(batch, continuation)]
    ensures script == [] ==> goal == After(made + call, Run(Err(OutOfResponses), script, []))
    ensures script != [] && script[0].Reply? ==>
      goal == After(made + call, OnReply(
        script[0].response, script[1..], cancelled, polls + 1, attempts, batch, continuation, output))
    ensures script != [] && !script[0].Reply? ==>
      goal == After(made + call,
        if IsRetryable(Raised(script[0])) && attempt < attempts
        then Collect(script[1..], cancelled, polls + 1, attempts, attempt + 1, batch, continuation, output)
        else Run(Err(Raised(script[0])), script[1..], []))
  {
    var run := Collect(script, cancelled, polls, attempts, attempt, batch, continuation, output);
    assert run == After(call, run.(calls := run.calls[1..]));
    AfterTwice(made, call, run.(calls := run.calls[1..]));
    if script != [] && script[0].Reply? {
      AfterTwice(made, call, OnReply(
        script[0].response, script[1..], cancelled, polls + 1, attempts, batch, continuation, output));
    } else if script != [] && IsRetryable(Raised(script[0])) && attempt < attempts {
      AfterTwice(made, call, Collect(
        script[1..], cancelled, polls + 1, attempts, attempt + 1, batch, continuation, output));
    }
  }

  method CollectBatches(transport: FixtureTransport, cancelled: nat -> bool, attempts: int)
    returns (r: Result<seq<FixtureResponse>, Failure>)
    modifies transport
    ensures r == FullRun(old(transport.responses), cancelled, attempts).result
    ensures transport.responses == FullRun(old(transport.responses), cancelled, attempts).rest
    ensures transport.calls == old(transport.calls) + FullRun(old(transport.responses), cancelled, attempts).calls
  {
    ghost var goal := FullRun(transport.responses, cancelled, attempts);
    ghost var allMade: seq<Call> := [];
    var output: seq<FixtureResponse> := [];
    var continuation: Option<string> := None;
    var seen: set<(nat, string)> := {};
    var batch := 1;
    var polls := 0;  // how often the cancellation callback has been asked
    while true
      invariant goal == After(allMade, Collect(
        transport.responses, cancelled, polls, attempts, 1, batch, continuation, output))
      invariant transport.calls == old(transport.calls) + allMade
      invariant forall k :: k in seen ==> k.0 < batch
      decreases |transport.responses|
    {
      var response; ghost var made; ghost var before := allMade;
      response, polls, made := RequestWithRetry(
        transport, batch, continuation, cancelled, attempts, polls, output);
      allMade := allMade + made;
      AppendAssociative(old(transport.calls), before, made);
      if response.Err? {
        AfterTwice(before, made, Run(Err(response.error), transport.responses, []));
        r := Err(response.error);
        break;
      }
      ReplyCases(goal, before, made, response.value, transport.responses, cancelled, polls, attempts, batch,
                 continuation, output);
      if response.value.batch != batch {
        r := Err(WrongBatch);
        break;
      }
      var key := (batch, response.value.checksum);
      if key in seen {
        r := Err(DuplicateBatch);
        break;
      }
      seen := seen + {key};
      output := output + [response.value];
      if !response.value.hasMore {
        r := Ok(output);
        break;
      }
      if response.value.continuation == continuation {
        r := Err(StalledContinuation);
        break;
      }
      continuation := response.value.continuation;
      batch := batch + 1;
    }
    assert goal == Run(r, transport.responses, allMade);
  }

  lemma AppendAssociative(a: seq<Call>, b: seq<Call>, c: seq<Call>)
    ensures a + b + c == a + (b + c)
  {
  }

  lemma ReplyCases(
    goal: Run, before: seq<Call>, made: seq<Call>, r: FixtureResponse, script: seq<Scripted>,
    cancelled: nat -> bool, polls: nat, attempts: int, batch: nat, continuation: Option<string>,
    output: seq<FixtureResponse>)
    requires goal == After(before, After(made, OnReply(
      r, script, cancelled, polls, attempts, batch, continuation, output)))
    ensures r.batch != batch ==> goal == Run(Err(WrongBatch), script, before + made)
    ensures r.batch == batch && !r.hasMore ==> goal == Run(Ok(output + [r]), script, before + made)
    ensures r.batch == batch && r.hasMore && r.continuation == continuation ==>
      goal == Run(Err(StalledContinuation), script, before + made)
    ensures r.batch == batch && r.hasMore && r.continuation != continuation ==>
      goal == After(before + made, Collect(
        script, cancelled, polls, attempts, 1, batch + 1, r.continuation, output + [r]))
  {
    AfterTwice(before, made, OnReply(r, script, cancelled, polls, attempts, batch, continuation, output));
  }

  // ----- The run, read off the script -----

  /** The rest of the collection, with the collector's variables set to what the consumed part of
      the script says they are. */
  function CollectAt(script: seq<Scripted>, cancelled: nat -> bool, attempts: int, j: nat): Run
    requires j <= |script|
  {
    Collect(script[j..], cancelled, j, attempts, TrailingErrors(script[..j]) + 1,
            BatchAfter(script[..j]), ContinuationAfter(script[..j]), Replies(script[..j]))
  }

  lemma JudgedStep(script: seq<Scripted>, cancelled: nat -> bool, attempts: int, j: nat)
    requires j <= |script|
    ensures var run := CollectAt(script, cancelled, attempts, j);
      var call := [CallAfter(script[..j])];
      match Judge(script, cancelled, attempts, j)
      case Go => run == After(call, CollectAt(script, cancelled, attempts, j + 1))
      case Finish => run == Run(Ok(Replies(script[..j + 1])), script[j + 1..], call)
      case Fail(f, called) =>
        run == Run(Err(f), if called && j < |script| then script[j + 1..] else script[j..], if called then call else [])
  {
    var call := [CallAfter(script[..j])];
    assert call + [] == call;
    if j < |script| {
      TakeNext(script, j);
      assert script[j..][0] == script[j] && script[j..][1..] == script[j + 1..];
      var attempt := TrailingErrors(script[..j]) + 1;
      if attempt <= attempts && !cancelled(j) {
        var run := CollectAt(script, cancelled, attempts, j);
        if script[j].Reply? {
          assert run == After(call, OnReply(
            script[j].response, script[j + 1..], cancelled, j + 1, attempts,
            BatchAfter(script[..j]), ContinuationAfter(script[..j]), Replies(script[..j])));
        } else if IsRetryable(Raised(script[j])) && attempt < attempts {
          assert Replies(script[..j + 1]) == Replies(script[..j]);
        }
      }
    } else {
      assert script[j..] == [];
    }
  }

  lemma {:induction false} RunFollowsScript(script: seq<Scripted>, cancelled: nat -> bool, attempts: int, j: nat)
    requires j <= |script|
    ensures var o, run := CollectFrom(script, cancelled, attempts, j), CollectAt(script, cancelled, attempts, j);
      && run.result == o.result
      && run.rest == script[o.consumed..]
      && CallsMade(script, j) + run.calls == CallsMade(script, o.calls)
    decreases |script| - j
  {
    JudgedStep(script, cancelled, attempts, j);
    if Judge(script, cancelled, attempts, j) == Go {
      RunFollowsScript(script, cancelled, attempts, j + 1);
      AppendAssociative(
        CallsMade(script, j), [CallAfter(script[..j])], CollectAt(script, cancelled, attempts, j + 1).calls);
    }
  }

  /** The whole collection, with the calls it makes: request `i` asks for the batch after the
      replies so far, with the continuation of the last of them. */
  lemma CollectionFollowsScript(script: seq<Scripted>, cancelled: nat -> bool, attempts: int)
    ensures var o := Collected(script, cancelled, attempts);
      FullRun(script, cancelled, attempts) == Run(o.result, script[o.consumed..], CallsMade(script, o.calls))
  {
    RunFollowsScript(script, cancelled, attempts, 0);
    assert script[0..] == script && script[..0] == [];
    assert FullRun(script, cancelled, attempts) == CollectAt(script, cancelled, attempts, 0);
  }

  lemma {:induction false} CallIs(script: seq<Scripted>, n: nat, i: nat)
    requires i < n <= |script| + 1
    ensures CallsMade(script, n)[i] == Call(|Replies(script[..i])| + 1, ContinuationAfter(script[..i]))
  {
    if i < n - 1 {
      CallIs(script, n - 1, i);
    }
  }

  // ----- What a successful collection returns -----

  ghost predicate AllGo(script: seq<Scripted>, cancelled: nat -> bool, attempts: int, n: nat)
    requires n <= |script|
  {
    forall j :: 0 <= j < n ==> Judge(script, cancelled, attempts, j) == Go
  }

  lemma {:induction false} OutcomeFrom(script: seq<Scripted>, cancelled: nat -> bool, attempts: int, j: nat)
    requires j <= |script| && AllGo(script, cancelled, attempts, j)
    ensures var o := CollectFrom(script, cancelled, attempts, j);
      && (o.calls == 0 || AllGo(script, cancelled, attempts, o.calls - 1))
      && (o.result.Ok? ==>
        && 0 < o.consumed == o.calls
        && Judge(script, cancelled, attempts, o.consumed - 1) == Finish
        && o.result.value == Replies(script[..o.consumed]))
    decreases |script| - j
  {
    if Judge(script, cancelled, attempts, j) == Go {
      OutcomeFrom(script, cancelled, attempts, j + 1);
    }
  }

  lemma {:induction false} GoOn(script: seq<Scripted>, cancelled: nat -> bool, attempts: int, n: nat, j: nat)
    requires j <= n <= |script| && AllGo(script, cancelled, attempts, n)
    ensures CollectFrom(script, cancelled, attempts, j) == CollectFrom(script, cancelled, attempts, n)
    decreases n - j
  {
    if j < n {
      GoOn(script, cancelled, attempts, n, j + 1);
    }
  }

  /** A collection succeeds exactly when some request finishes it and all requests before go on. */
  lemma SucceedsExactlyWhen(script: seq<Scripted>, cancelled: nat -> bool, attempts: int)
    ensures Collected(script, cancelled, attempts).result.Ok? <==>
      exists n :: 0 <= n < |script| && AllGo(script, cancelled, attempts, n) &&
                  Judge(script, cancelled, attempts, n) == Finish
  {
    OutcomeFrom(script, cancelled, attempts, 0);
    if n :| 0 <= n < |script| && AllGo(script, cancelled, attempts, n) && Judge(script, cancelled, attempts, n) == Finish {
      GoOn(script, cancelled, attempts, n, 0);
    }
  }

  /** No call is made once the cancellation callback says so; the collection is cancelled exactly when it says so before
      a request that would have been made. */
  lemma {:induction false} CallsAreNotCancelled(script: seq<Scripted>, cancelled: nat -> bool, attempts: int, j: nat)
    requires j <= |script| && AllGo(script, cancelled, attempts, j)
    ensures var o := CollectFrom(script, cancelled, attempts, j);
      && (forall i: nat :: i < o.calls ==> !cancelled(i))
      && (o.result == Err(Cancelled) <==>
            (&& o.calls <= |script| && AllGo(script, cancelled, attempts, o.calls) && cancelled(o.calls)
             && TrailingErrors(script[..o.calls]) < attempts))
    decreases |script| - j
  {
    forall i: nat | i < j ensures !cancelled(i) {
      assert Judge(script, cancelled, attempts, i) == Go;
    }
    if Judge(script, cancelled, attempts, j) == Go {
      CallsAreNotCancelled(script, cancelled, attempts, j + 1);
    }
  }

  /** While attempts are left, a retryable error never ends the collection; any other error does, with itself. */
  lemma ErrorsAreRetried(script: seq<Scripted>, cancelled: nat -> bool, attempts: int, n: nat)
    requires n < |script| && AllGo(script, cancelled, attempts, n) && !script[n].Reply?
    requires !cancelled(n) && TrailingErrors(script[..n]) < attempts
    ensures script[n].TransportError? && script[n].retryable && TrailingErrors(script[..n]) + 1 < attempts ==>
              AllGo(script, cancelled, attempts, n + 1)
    ensures !(script[n].TransportError? && script[n].retryable && TrailingErrors(script[..n]) + 1 < attempts) ==>
              Collected(script, cancelled, attempts).result == Err(Raised(script[n]))
  {
    GoOn(script, cancelled, attempts, n, 0);
  }

  ghost predicate Linked(out: seq<FixtureResponse>, i: nat)
    requires i < |out|
  {
    var previous := if i == 0 then None else out[i - 1].continuation;
    out[i].batch == i + 1 && out[i].hasMore && out[i].continuation != previous
  }

  /** Batch numbers 1, 2, ...; every response announces more; no two neighbours share a continuation. */
  ghost predicate Chained(out: seq<FixtureResponse>) {
    forall i :: 0 <= i < |out| ==> Linked(out, i)
  }

  lemma ChainedNext(out: seq<FixtureResponse>, r: FixtureResponse)
    requires Chained(out) && Linked(out + [r], |out|)
    ensures Chained(out + [r])
  {
    forall i | 0 <= i < |out + [r]| ensures Linked(out + [r], i) {
      assert i < |out| ==> Linked(out, i);
    }
  }

  lemma GoingReply(script: seq<Scripted>, cancelled: nat -> bool, attempts: int, n: nat)
    requires n < |script| && script[n].Reply? && Judge(script, cancelled, attempts, n) == Go
    ensures Linked(Replies(script[..n]) + [script[n].response], |Replies(script[..n])|)
  {
    var out := Replies(script[..n]);
    assert out != [] ==> (out + [script[n].response])[|out| - 1] == Last(out);
  }

  lemma {:induction false} GoingIsChained(script: seq<Scripted>, cancelled: nat -> bool, attempts: int, n: nat)
    requires n <= |script| && AllGo(script, cancelled, attempts, n)
    ensures Chained(Replies(script[..n]))
  {
    if n > 0 {
      GoingIsChained(script, cancelled, attempts, n - 1);
      assert Judge(script, cancelled, attempts, n - 1) == Go;
      RepliesNext(script, n - 1);
      if script[n - 1].Reply? {
        GoingReply(script, cancelled, attempts, n - 1);
        ChainedNext(Replies(script[..n - 1]), script[n - 1].response);
      }
    }
  }

  lemma RepliesNext(script: seq<Scripted>, n: nat)
    requires n < |script|
    ensures Replies(script[..n + 1])
         == if script[n].Reply? then Replies(script[..n]) + [script[n].response] else Replies(script[..n])
  {
    TakeNext(script, n);
    assert Replies(script[..n]) + [] == Replies(script[..n]);
  }

  lemma DroppedAreRetryable(script: seq<Scripted>, cancelled: nat -> bool, attempts: int, n: nat)
    requires n <= |script| && AllGo(script, cancelled, attempts, n)
    ensures forall j :: 0 <= j < n && !script[j].Reply? ==> IsRetryable(Raised(script[j]))
  {
    forall j | 0 <= j < n && !script[j].Reply? ensures IsRetryable(Raised(script[j])) {
      assert Judge(script, cancelled, attempts, j) == Go;
    }
  }

  /** On success the output is the responses of the consumed entries, errors dropped, numbered
      1..n; only the last lacks `has_more`; the dropped errors were all retryable; every consumed
      entry took exactly one call. */
  lemma SuccessfulOutput(script: seq<Scripted>, cancelled: nat -> bool, attempts: int)
    requires Collected(script, cancelled, attempts).result.Ok?
    ensures var o := Collected(script, cancelled, attempts);
      var out := o.result.value;
      && out == Replies(script[..o.consumed]) && out != []
      && Chained(Front(out))
      && Last(out).batch == |out| && !Last(out).hasMore
      && (forall j :: 0 <= j < o.consumed && !script[j].Reply? ==> script[j].TransportError? && script[j].retryable)
      && o.calls == o.consumed
  {
    OutcomeFrom(script, cancelled, attempts, 0);
    var n := Collected(script, cancelled, attempts).consumed - 1;
    GoingIsChained(script, cancelled, attempts, n);
    DroppedAreRetryable(script, cancelled, attempts, n);
    TakeNext(script, n);
    assert Front(Replies(script[..n + 1])) == Replies(script[..n]);
  }

  lemma {:induction false} NeverDuplicateFrom(script: seq<Scripted>, cancelled: nat -> bool, attempts: int, j: nat)
    requires j <= |script|
    ensures CollectFrom(script, cancelled, attempts, j).result != Err(DuplicateBatch)
    decreases |script| - j
  {
    if Judge(script, cancelled, attempts, j) == Go {
      NeverDuplicateFrom(script, cancelled, attempts, j + 1);
    }
  }

  /** The guard against repeated batches never fires: a repeated batch number is rejected before it. */
  lemma DuplicateBatchIsUnreachable(script: seq<Scripted>, cancelled: nat -> bool, attempts: int)
    ensures FullRun(script, cancelled, attempts).result != Err(DuplicateBatch)
  {
    CollectionFollowsScript(script, cancelled, attempts);
    NeverDuplicateFrom(script, cancelled, attempts, 0);
  }

  // ----- Calls per batch -----

  function CallsFor(calls: seq<Call>, batch: nat): nat {
    if calls == [] then 0 else CallsFor(Front(calls), batch) + if Last(calls).batch == batch then 1 else 0
  }

  lemma {:induction false} CallsWhileGoing(
    script: seq<Scripted>, cancelled: nat -> bool, attempts: int, n: nat, batch: nat)
    requires n <= |script| && AllGo(script, cancelled, attempts, n) && batch >= 1
    ensures var c := CallsFor(CallsMade(script, n), batch);
      && (batch < BatchAfter(script[..n]) ==> 1 <= c <= attempts)
      && (batch == BatchAfter(script[..n]) ==> c == TrailingErrors(script[..n]))
      && (batch > BatchAfter(script[..n]) ==> c == 0)
  {
    if n > 0 {
      CallsWhileGoing(script, cancelled, attempts, n - 1, batch);
      TakeNext(script, n - 1);
      assert Judge(script, cancelled, attempts, n - 1) == Go;
      assert Front(CallsMade(script, n)) == CallsMade(script, n - 1);
    }
  }

  /** However the collection ends, no batch is asked for more than `attempts` times; on success
      every batch of the output has been asked for at least once. */
  lemma CallsPerBatch(script: seq<Scripted>, cancelled: nat -> bool, attempts: int, batch: nat)
    requires batch >= 1 && attempts >= 1
    ensures var o := Collected(script, cancelled, attempts);
      && CallsFor(CallsMade(script, o.calls), batch) <= attempts
      && (o.result.Ok? && batch <= |o.result.value| ==> CallsFor(CallsMade(script, o.calls), batch) >= 1)
  {
    var o := Collected(script, cancelled, attempts);
    OutcomeFrom(script, cancelled, attempts, 0);
    if o.calls > 0 {
      LastCallIsAnAttempt(script, cancelled, attempts, 0);
      CallsUpTo(script, cancelled, attempts, o.calls - 1, batch);
      if o.result.Ok? {
        RepliesNext(script, o.calls - 1);
      }
    }
  }

  /** The calls of the requests that go on, and one more. */
  lemma CallsUpTo(script: seq<Scripted>, cancelled: nat -> bool, attempts: int, n: nat, batch: nat)
    requires n <= |script| && AllGo(script, cancelled, attempts, n) && batch >= 1 && attempts >= 1
    requires TrailingErrors(script[..n]) < attempts
    ensures CallsFor(CallsMade(script, n + 1), batch) <= attempts
    ensures batch <= BatchAfter(script[..n]) ==> CallsFor(CallsMade(script, n + 1), batch) >= 1
  {
    CallsWhileGoing(script, cancelled, attempts, n, batch);
    assert Front(CallsMade(script, n + 1)) == CallsMade(script, n);
  }

  lemma {:induction false} LastCallIsAnAttempt(script: seq<Scripted>, cancelled: nat -> bool, attempts: int, j: nat)
    requires j <= |script| && AllGo(script, cancelled, attempts, j) && attempts >= 1
    ensures var o := CollectFrom(script, cancelled, attempts, j);
      j < o.calls ==> TrailingErrors(script[..o.calls - 1]) < attempts
    decreases |script| - j
  {
    if Judge(script, cancelled, attempts, j) == Go {
      LastCallIsAnAttempt(script, cancelled, attempts, j + 1);
    }
  }
}
