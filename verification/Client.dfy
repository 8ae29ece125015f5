/** The resilient HTTP client: the retry loop of `Do`, and what sequences of calls do to a breaker. */
module Client {
  import opened Prelude
  import opened Breaker
  import opened Retry

  const DEFAULT_MAX_RETRIES: nat := 3

  /** What one request brings back. */
  datatype Outcome = TransportError | Status(code: int)

  /** The environment of one loop iteration: whether the context is cancelled during the delay, the
      clock when the breaker is asked, the outcome of the request, the clock when it is recorded. */
  datatype Attempt = Attempt(cancelled: bool, askAt: int, outcome: Outcome, recordAt: int)

  datatype DoResult = Response(code: int) | Failed | Refused | Cancelled | NilDereference

  predicate Retryable(outcome: Outcome) {
    outcome.TransportError? || RetryableStatus(outcome.code)
  }

  function ResultOf(outcome: Outcome): DoResult {
    if outcome.TransportError? then Failed else Response(outcome.code)
  }

  /** What the code records for an outcome: a retryable status counts as a success on the last attempt. */
  function RecordOf(a: Attempt, last: bool): BreakerCall {
    if a.outcome.TransportError? || (Retryable(a.outcome) && !last) then BreakerCall.Failure(a.recordAt)
    else BreakerCall.Success(a.recordAt)
  }

  /** What a call leaves behind: the breaker's fields and history, when each request so far was
      sent, and the result. */
  datatype Trace = Trace(b: Fields, history: seq<BreakerCall>, sent: seq<int>, result: DoResult)

  /** The trace of the loop of `Do` from iteration `n` on. */
  function LoopTrace(cfg: BreakerConfig, maxRetries: int, script: seq<Attempt>, n: nat,
                     b: Fields, history: seq<BreakerCall>, sent: seq<int>): Trace
    requires |script| > maxRetries
    decreases maxRetries + 1 - n
  {
    if n > maxRetries then Trace(b, history, sent, NilDereference)
    else
      var a := script[n];
      var ask := BreakerCall.Allow(a.askAt);
      if n > 0 && a.cancelled then Trace(b, history, sent, Cancelled)
      else if !Grants(cfg, b, a.askAt) then Trace(Next(cfg, b, ask), history + [ask], sent, Refused)
      else
        var record := RecordOf(a, n == maxRetries);
        var b', history', sent' := Next(cfg, Next(cfg, b, ask), record), history + [ask] + [record], sent + [a.askAt];
        if n == maxRetries || !Retryable(a.outcome) then Trace(b', history', sent', ResultOf(a.outcome))
        else LoopTrace(cfg, maxRetries, script, n + 1, b', history', sent')
  }

  class HttpClient {
    const breaker: CircuitBreaker
    const maxRetries: int
    /** When each request was sent. */
    var sent: seq<int>

    constructor (breaker: CircuitBreaker, maxRetries: int)
      ensures this.breaker == breaker && this.maxRetries == maxRetries && sent == []
    {
      this.breaker, this.maxRetries := breaker, maxRetries;
      sent := [];
    }

    /** Makes exactly the breaker calls and requests of its trace and returns its result. */
    method Do(script: seq<Attempt>) returns (result: DoResult)
      requires breaker.Valid() && |script| > maxRetries
      modifies this, breaker
      ensures breaker.Valid()
      ensures Trace(breaker.View(), breaker.history, sent, result) ==
              LoopTrace(breaker.cfg, maxRetries, script, 0, old(breaker.View()), old(breaker.history), old(sent))
    {
      ghost var trace := LoopTrace(breaker.cfg, maxRetries, script, 0, breaker.View(), breaker.history, sent);
      var resp: Option<int> := None;
      var err := false;
      var attempt := 0;
      while attempt <= maxRetries
        invariant 0 <= attempt && (attempt > 0 ==> attempt <= maxRetries)
        invariant breaker.Valid()
        invariant trace == LoopTrace(breaker.cfg, maxRetries, script, attempt, breaker.View(), breaker.history, sent)
        invariant attempt == 0 ==> !err && resp.None?
        decreases maxRetries + 1 - attempt
      {
        var a := script[attempt];
        if attempt > 0 {
          if a.cancelled {
            return Cancelled;
          }
        }
        var granted := breaker.Allow(a.askAt);
        if !granted {
          return Refused;
        }
        sent := sent + [a.askAt];
        if a.outcome.TransportError? {
          err, resp := true, None;
          breaker.RecordFailure(a.recordAt);
          if attempt == maxRetries {
            break;
          }
          attempt := attempt + 1;
          continue;
        }
        err, resp := false, Some(a.outcome.code);
        if RetryableStatus(resp.value) && attempt < maxRetries {
          breaker.RecordFailure(a.recordAt);
          attempt := attempt + 1;
          continue;
        }
        breaker.RecordSuccess(a.recordAt);
        break;
      }
      if err {
        return Failed;
      }
      if resp.None? {
        return NilDereference;
      }
      return Response(resp.value);
    }
  }
}
