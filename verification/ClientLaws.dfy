/** What calls of the client, one after another, do: each call's requests, and the breaker over
    whole sessions. */
module ClientLaws {
  import opened Prelude
  import opened Breaker
  import opened Retry
  import opened Client

  // ----- the trace of one call ------------------------------------------------------------------

  /** The loop only appends to what was there before it. */
  lemma {:induction false} LoopAppends(cfg: BreakerConfig, maxRetries: int, script: seq<Attempt>, n: nat,
                                       b: Fields, history: seq<BreakerCall>, sent: seq<int>)
    requires |script| > maxRetries
    ensures var whole := LoopTrace(cfg, maxRetries, script, n, b, history, sent);
            var own := LoopTrace(cfg, maxRetries, script, n, b, [], []);
            && whole.b == own.b && whole.result == own.result
            && whole.history == history + own.history && whole.sent == sent + own.sent
    decreases maxRetries + 1 - n
  {
    if n <= maxRetries && !(n > 0 && script[n].cancelled) && Grants(cfg, b, script[n].askAt)
       && n < maxRetries && Retryable(script[n].outcome)
    {
      var ask, record := BreakerCall.Allow(script[n].askAt), RecordOf(script[n], false);
      var b' := Next(cfg, Next(cfg, b, ask), record);
      LoopAppends(cfg, maxRetries, script, n + 1, b', history + [ask] + [record], sent + [script[n].askAt]);
      LoopAppends(cfg, maxRetries, script, n + 1, b', [] + [ask] + [record], [] + [script[n].askAt]);
      var rest := LoopTrace(cfg, maxRetries, script, n + 1, b', [], []);
      assert history + [ask] + [record] + rest.history == history + ([] + [ask] + [record] + rest.history);
      assert sent + [script[n].askAt] + rest.sent == sent + ([] + [script[n].askAt] + rest.sent);
    } else {
      assert sent + [] == sent && history + [] == history;
    }
  }

  /** The trace of a call of `Do` on its own. */
  function Own(cfg: BreakerConfig, maxRetries: int, b: Fields, script: seq<Attempt>, n: nat): Trace
    requires |script| > maxRetries
  {
    LoopTrace(cfg, maxRetries, script, n, b, [], [])
  }

  /** The loop goes on after iteration `n`. */
  predicate GoesOn(cfg: BreakerConfig, maxRetries: int, b: Fields, script: seq<Attempt>, n: nat)
    requires |script| > maxRetries
  {
    n < maxRetries && !(n > 0 && script[n].cancelled) && Grants(cfg, b, script[n].askAt) && Retryable(script[n].outcome)
  }

  function AfterAttempt(cfg: BreakerConfig, b: Fields, a: Attempt, last: bool): Fields {
    Next(cfg, Next(cfg, b, BreakerCall.Allow(a.askAt)), RecordOf(a, last))
  }

  lemma OwnUnfolds(cfg: BreakerConfig, maxRetries: int, b: Fields, script: seq<Attempt>, n: nat)
    requires |script| > maxRetries && GoesOn(cfg, maxRetries, b, script, n)
    ensures var a := script[n];
            var rest := Own(cfg, maxRetries, AfterAttempt(cfg, b, a, false), script, n + 1);
            Own(cfg, maxRetries, b, script, n) ==
            Trace(rest.b, [BreakerCall.Allow(a.askAt), RecordOf(a, false)] + rest.history,
                  [a.askAt] + rest.sent, rest.result)
  {
    var a := script[n];
    var ask, record := BreakerCall.Allow(a.askAt), RecordOf(a, false);
    LoopAppends(cfg, maxRetries, script, n + 1, AfterAttempt(cfg, b, a, false), [] + [ask] + [record], [] + [a.askAt]);
    assert [] + [ask] + [record] == [ask, record] && [] + [a.askAt] == [a.askAt];
  }

  /** No answer, or one of the statuses that are worth another attempt. */
  predicate Transient(outcome: Outcome) {
    outcome.TransportError? || outcome.code == 429 || outcome.code >= 500
  }

  /** A request was sent, and its outcome is not worth another attempt or there is none left. */
  ghost predicate LastAnswer(maxRetries: int, script: seq<Attempt>, n: nat, sent: seq<int>)
    requires |script| > maxRetries && n + |sent| <= maxRetries + 1
  {
    |sent| > 0 && (n + |sent| - 1 == maxRetries || !Transient(script[n + |sent| - 1].outcome))
  }

  lemma TransientIsRetried(outcome: Outcome)
    ensures Retryable(outcome) <==> Transient(outcome)
  {
    if outcome.Status? {
      RetryableCodes(outcome.code);
    }
  }

  /** The requests and the result of iterations `n` on are those of the retry rule. */
  ghost predicate FollowsRetryRule(maxRetries: int, script: seq<Attempt>, n: nat, sent: seq<int>, result: DoResult)
    requires |script| > maxRetries >= n
  {
    && n + |sent| <= maxRetries + 1
    && (forall j :: n <= j < n + |sent| ==> sent[j - n] == script[j].askAt)
    && (forall j :: n <= j < n + |sent| - 1 ==> Transient(script[j].outcome))
    && (forall j :: n <= j < n + |sent| && j > 0 ==> !script[j].cancelled)
    && match result
       case NilDereference => false
       case Refused => Interrupted(maxRetries, script, n, sent) && !(script[n + |sent|].cancelled && n + |sent| > 0)
       case Cancelled => Interrupted(maxRetries, script, n, sent) && script[n + |sent|].cancelled && n + |sent| > 0
       case Failed => LastAnswer(maxRetries, script, n, sent) && script[n + |sent| - 1].outcome.TransportError?
       case Response(code) => LastAnswer(maxRetries, script, n, sent) && script[n + |sent| - 1].outcome == Status(code)
  }

  /** Stopped before the next request, with a retry still due. */
  ghost predicate Interrupted(maxRetries: int, script: seq<Attempt>, n: nat, sent: seq<int>)
    requires |script| > maxRetries
  {
    n + |sent| <= maxRetries && (|sent| > 0 ==> Transient(script[n + |sent| - 1].outcome))
  }

  lemma {:induction false} LoopFollowsRetryRule(cfg: BreakerConfig, maxRetries: int, b: Fields,
                                                script: seq<Attempt>, n: nat)
    requires |script| > maxRetries >= n
    ensures var own := Own(cfg, maxRetries, b, script, n);
            FollowsRetryRule(maxRetries, script, n, own.sent, own.result)
    decreases maxRetries + 1 - n
  {
    TransientIsRetried(script[n].outcome);
    if GoesOn(cfg, maxRetries, b, script, n) {
      OwnUnfolds(cfg, maxRetries, b, script, n);
      LoopFollowsRetryRule(cfg, maxRetries, AfterAttempt(cfg, b, script[n], false), script, n + 1);
    }
  }

  /** `Do` is the simple retry rule: it sends one request per attempt until the first outcome that
      is not retryable or the last attempt, and returns that outcome, unless it is refused or
      cancelled in between. A missing response is dereferenced exactly when no attempt is allowed. */
  lemma DoFollowsRetryRule(cfg: BreakerConfig, maxRetries: int, b: Fields, script: seq<Attempt>)
    requires |script| > maxRetries
    ensures var own := Own(cfg, maxRetries, b, script, 0);
            && (own.result == NilDereference <==> maxRetries < 0)
            && (maxRetries >= 0 ==> FollowsRetryRule(maxRetries, script, 0, own.sent, own.result))
  {
    if maxRetries >= 0 {
      LoopFollowsRetryRule(cfg, maxRetries, b, script, 0);
    }
  }

  /** What the breaker is told of the `j`-th request: a failure if and only if it brought no answer, or a
      status worth another attempt while there was one left. */
  predicate Told(maxRetries: int, a: Attempt, j: nat, ask: BreakerCall, record: BreakerCall) {
    && ask == BreakerCall.Allow(a.askAt)
    && record == if a.outcome.TransportError? || (j < maxRetries && (a.outcome.code == 429 || a.outcome.code >= 500))
                 then BreakerCall.Failure(a.recordAt) else BreakerCall.Success(a.recordAt)
  }

  ghost predicate AllTold(maxRetries: int, script: seq<Attempt>, n: nat, calls: seq<BreakerCall>, sent: seq<int>)
    requires |script| > maxRetries
  {
    && n + |sent| <= |script| && 2 * |sent| <= |calls|
    && forall j :: n <= j < n + |sent| ==> Told(maxRetries, script[j], j, calls[2 * (j - n)], calls[2 * (j - n) + 1])
  }

  lemma {:induction false} LoopTells(cfg: BreakerConfig, maxRetries: int, b: Fields, script: seq<Attempt>, n: nat)
    requires |script| > maxRetries >= n
    ensures var own := Own(cfg, maxRetries, b, script, n); AllTold(maxRetries, script, n, own.history, own.sent)
    decreases maxRetries + 1 - n
  {
    TransientIsRetried(script[n].outcome);
    if GoesOn(cfg, maxRetries, b, script, n) {
      OwnUnfolds(cfg, maxRetries, b, script, n);
      var b' := AfterAttempt(cfg, b, script[n], false);
      LoopTells(cfg, maxRetries, b', script, n + 1);
      var own, rest := Own(cfg, maxRetries, b, script, n), Own(cfg, maxRetries, b', script, n + 1);
      forall j | n <= j < n + |own.sent|
        ensures Told(maxRetries, script[j], j, own.history[2 * (j - n)], own.history[2 * (j - n) + 1])
      {
        if j > n {
          assert own.history[2 * (j - n)] == rest.history[2 * (j - n - 1)];
          assert own.history[2 * (j - n) + 1] == rest.history[2 * (j - n - 1) + 1];
        }
      }
    }
  }

  /** In every call of `Do`, the breaker is asked before each request and told after it what that request
      brought. */
  lemma EachOutcomeIsTold(cfg: BreakerConfig, maxRetries: nat, b: Fields, script: seq<Attempt>)
    requires |script| > maxRetries
    ensures var own := Own(cfg, maxRetries, b, script, 0); AllTold(maxRetries, script, 0, own.history, own.sent)
  {
    LoopTells(cfg, maxRetries, b, script, 0);
  }

  /** The breaker calls of a trace pair up with its requests: each request has one granting `Allow`
      before it and one record after it, and a last lone `Allow` is one that refused. */
  ghost predicate Paired(cfg: BreakerConfig, b: Fields, calls: seq<BreakerCall>, sent: seq<int>, refused: bool)
    decreases |sent|
  {
    if |sent| == 0 then
      if refused then |calls| == 1 && calls[0].Allow? && !Grants(cfg, b, calls[0].at) else calls == []
    else
      && |calls| >= 2
      && calls[0] == BreakerCall.Allow(sent[0]) && Grants(cfg, b, sent[0])
      && !calls[1].Allow?
      && Paired(cfg, Next(cfg, Next(cfg, b, calls[0]), calls[1]), calls[2..], sent[1..], refused)
  }

  lemma {:induction false} LoopPairs(cfg: BreakerConfig, maxRetries: int, b: Fields, script: seq<Attempt>, n: nat)
    requires |script| > maxRetries
    ensures var own := Own(cfg, maxRetries, b, script, n);
            Paired(cfg, b, own.history, own.sent, own.result == Refused)
    decreases maxRetries + 1 - n
  {
    if GoesOn(cfg, maxRetries, b, script, n) {
      OwnUnfolds(cfg, maxRetries, b, script, n);
      LoopPairs(cfg, maxRetries, AfterAttempt(cfg, b, script[n], false), script, n + 1);
      var own := Own(cfg, maxRetries, b, script, n);
      var rest := Own(cfg, maxRetries, AfterAttempt(cfg, b, script[n], false), script, n + 1);
      assert own.history[2..] == rest.history && own.sent[1..] == rest.sent;
    } else if n <= maxRetries && !(n > 0 && script[n].cancelled) && Grants(cfg, b, script[n].askAt) {
      var own := Own(cfg, maxRetries, b, script, n);
      assert own.history[2..] == [] && own.sent[1..] == [];
    }
  }

  /** In every call of `Do`, each request has one granting `Allow` before it and exactly one record
      after it, and nothing else reaches the breaker but the `Allow` that refused. */
  lemma EachRequestAskedAndRecorded(cfg: BreakerConfig, maxRetries: int, b: Fields, script: seq<Attempt>)
    requires |script| > maxRetries
    ensures var own := Own(cfg, maxRetries, b, script, 0);
            && Paired(cfg, b, own.history, own.sent, own.result == Refused)
            && |own.history| == 2 * |own.sent| + (if own.result == Refused then 1 else 0)
  {
    LoopPairs(cfg, maxRetries, b, script, 0);
    var own := Own(cfg, maxRetries, b, script, 0);
    PairedLength(cfg, b, own.history, own.sent, own.result == Refused);
  }

  lemma {:induction false} PairedLength(cfg: BreakerConfig, b: Fields, calls: seq<BreakerCall>,
                                        sent: seq<int>, refused: bool)
    requires Paired(cfg, b, calls, sent, refused)
    ensures |calls| == 2 * |sent| + (if refused then 1 else 0)
    decreases |sent|
  {
    if |sent| > 0 {
      PairedLength(cfg, Next(cfg, Next(cfg, b, calls[0]), calls[1]), calls[2..], sent[1..], refused);
    }
  }

  // ----- sessions -------------------------------------------------------------------------------

  /** A client after some calls: its breaker's fields and history, and when each request was sent. */
  datatype Line = Line(b: Fields, history: seq<BreakerCall>, sent: seq<int>)

  /** A new client after the calls `scripts`, one after another. */
  function Session(cfg: BreakerConfig, maxRetries: int, scripts: seq<seq<Attempt>>): Line
    requires forall k :: 0 <= k < |scripts| ==> |scripts[k]| > maxRetries
  {
    if |scripts| == 0 then Line(NEW, [], [])
    else
      var n := |scripts| - 1;
      var before := Session(cfg, maxRetries, scripts[..n]);
      var trace := LoopTrace(cfg, maxRetries, scripts[n], 0, before.b, before.history, before.sent);
      Line(trace.b, trace.history, trace.sent)
  }

  // ----- a dead backend -------------------------------------------------------------------------

  ghost predicate AllErrors(script: seq<Attempt>) {
    forall j :: 0 <= j < |script| ==> script[j].outcome.TransportError?
  }

  ghost predicate FromZero(h: seq<BreakerCall>) {
    Monotone(h) && forall j :: 0 <= j < |h| ==> h[j].at >= 0
  }

  /** With every request failing: closed while fewer than `TripAt` were sent, then open; and the
      requests after the trip are a timeout apart. */
  ghost predicate Dead(cfg: BreakerConfig, b: Fields, sent: seq<int>) {
    && (b.state == Closed <==> |sent| < TripAt(cfg))
    && (b.state == Closed ==> b.failures == |sent|)
    && (b.state != Closed ==> b.state == Open && b.lastFailure >= (|sent| - TripAt(cfg)) * cfg.openTimeout)
    && (forall k :: 0 <= k < |sent| && k + 1 >= TripAt(cfg) ==> sent[k] >= (k + 1 - TripAt(cfg)) * cfg.openTimeout)
  }

  /** One more failed request. */
  lemma DeadAttempt(cfg: BreakerConfig, b: Fields, sent: seq<int>, askAt: int, recordAt: int)
    requires Dead(cfg, b, sent) && Grants(cfg, b, askAt) && 0 <= askAt <= recordAt
    ensures Dead(cfg, Next(cfg, Next(cfg, b, BreakerCall.Allow(askAt)), BreakerCall.Failure(recordAt)), sent + [askAt])
  {
    var n, m, t := |sent|, TripAt(cfg), cfg.openTimeout;
    assert (n + 1 - m) * t == (n - m) * t + t;
    assert n + 1 == m ==> (n + 1 - m) * t == 0;
    forall k | 0 <= k < n + 1 && k + 1 >= m ensures (sent + [askAt])[k] >= (k + 1 - m) * t {
      if k < n {
        assert (sent + [askAt])[k] == sent[k];
      }
    }
  }

  lemma {:induction false} DeadLoop(cfg: BreakerConfig, maxRetries: int, script: seq<Attempt>, n: nat,
                                    b: Fields, history: seq<BreakerCall>, sent: seq<int>)
    requires |script| > maxRetries && AllErrors(script) && Dead(cfg, b, sent)
    requires FromZero(LoopTrace(cfg, maxRetries, script, n, b, history, sent).history)
    ensures var trace := LoopTrace(cfg, maxRetries, script, n, b, history, sent);
            Dead(cfg, trace.b, trace.sent)
    decreases maxRetries + 1 - n
  {
    if n <= maxRetries && !(n > 0 && script[n].cancelled) && Grants(cfg, b, script[n].askAt) {
      var a := script[n];
      var ask, record := BreakerCall.Allow(a.askAt), BreakerCall.Failure(a.recordAt);
      var b' := Next(cfg, Next(cfg, b, ask), record);
      var trace := LoopTrace(cfg, maxRetries, script, n, b, history, sent);
      if n < maxRetries {
        LoopAppends(cfg, maxRetries, script, n + 1, b', history + [ask] + [record], sent + [a.askAt]);
      }
      assert trace.history[|history|] == ask && trace.history[|history| + 1] == record;
      DeadAttempt(cfg, b, sent, a.askAt, a.recordAt);
      if n < maxRetries {
        DeadLoop(cfg, maxRetries, script, n + 1, b', history + [ask] + [record], sent + [a.askAt]);
      }
    }
  }

  lemma {:induction false} DeadSession(cfg: BreakerConfig, maxRetries: int, scripts: seq<seq<Attempt>>)
    requires forall k :: 0 <= k < |scripts| ==> |scripts[k]| > maxRetries && AllErrors(scripts[k])
    requires FromZero(Session(cfg, maxRetries, scripts).history)
    ensures Dead(cfg, Session(cfg, maxRetries, scripts).b, Session(cfg, maxRetries, scripts).sent)
  {
    if |scripts| > 0 {
      var n := |scripts| - 1;
      var before := Session(cfg, maxRetries, scripts[..n]);
      LoopAppends(cfg, maxRetries, scripts[n], 0, before.b, before.history, before.sent);
      FromZeroPrefix(before.history, Own(cfg, maxRetries, before.b, scripts[n], 0).history);
      DeadSession(cfg, maxRetries, scripts[..n]);
      DeadLoop(cfg, maxRetries, scripts[n], 0, before.b, before.history, before.sent);
    }
  }

  lemma FromZeroPrefix(h: seq<BreakerCall>, g: seq<BreakerCall>)
    requires FromZero(h + g)
    ensures FromZero(h)
  {
    forall i, j | 0 <= i <= j < |h| ensures h[i].at <= h[j].at {
      assert (h + g)[i].at <= (h + g)[j].at;
    }
    forall j | 0 <= j < |h| ensures h[j].at >= 0 {
      assert (h + g)[j].at >= 0;
    }
  }

  /** Against a dead backend any sequence of calls, from a new client at time 0, sends at most
      TripAt + time / openTimeout requests up to any time. */
  lemma DeadBackendRate(cfg: BreakerConfig, maxRetries: int, scripts: seq<seq<Attempt>>, k: nat, time: nat)
    requires cfg.openTimeout > 0
    requires forall k :: 0 <= k < |scripts| ==> |scripts[k]| > maxRetries && AllErrors(scripts[k])
    requires FromZero(Session(cfg, maxRetries, scripts).history)
    requires k < |Session(cfg, maxRetries, scripts).sent| && Session(cfg, maxRetries, scripts).sent[k] <= time
    ensures k + 1 <= TripAt(cfg) + time / cfg.openTimeout
  {
    DeadSession(cfg, maxRetries, scripts);
    if k + 1 >= TripAt(cfg) {
      AtMost(k + 1 - TripAt(cfg), cfg.openTimeout, time);
    }
  }

  /** Against a dead backend the breaker is closed until exactly `TripAt` requests were sent, counted
      across calls, and open from then on whenever no call is running. */
  lemma DeadBackendTrips(cfg: BreakerConfig, maxRetries: int, scripts: seq<seq<Attempt>>)
    requires forall k :: 0 <= k < |scripts| ==> |scripts[k]| > maxRetries && AllErrors(scripts[k])
    requires FromZero(Session(cfg, maxRetries, scripts).history)
    ensures var line := Session(cfg, maxRetries, scripts);
            line.b.state == if |line.sent| < TripAt(cfg) then Closed else Open
  {
    DeadSession(cfg, maxRetries, scripts);
  }

  // ----- a backend that answers with retryable statuses -------------------------------------------

  ghost predicate AllRetryableStatuses(script: seq<Attempt>) {
    forall j :: 0 <= j < |script| ==>
      script[j].outcome.Status? && (script[j].outcome.code == 429 || script[j].outcome.code >= 500)
      && !script[j].cancelled
  }

  /** Starting from `b0`, the breaker is closed after every call of `h`. */
  ghost predicate NeverLeavesClosed(cfg: BreakerConfig, b0: Fields, h: seq<BreakerCall>) {
    forall j :: 0 <= j <= |h| ==> From(cfg, b0, h[..j]).state == Closed
  }

  lemma ClosedSnoc(cfg: BreakerConfig, b0: Fields, h: seq<BreakerCall>, call: BreakerCall)
    requires NeverLeavesClosed(cfg, b0, h) && Next(cfg, From(cfg, b0, h), call).state == Closed
    ensures NeverLeavesClosed(cfg, b0, h + [call])
    ensures From(cfg, b0, h + [call]) == Next(cfg, From(cfg, b0, h), call)
  {
    assert (h + [call])[..|h|] == h;
    forall j | 0 <= j <= |h| + 1 ensures From(cfg, b0, (h + [call])[..j]).state == Closed {
      if j <= |h| {
        assert (h + [call])[..j] == h[..j];
      } else {
        assert (h + [call])[..j] == h + [call];
      }
    }
  }

  lemma {:induction false} LoopStaysClosed(cfg: BreakerConfig, maxRetries: int, script: seq<Attempt>, n: nat,
                                           b0: Fields, b: Fields, history: seq<BreakerCall>, sent: seq<int>)
    requires |script| > maxRetries >= n && AllRetryableStatuses(script) && maxRetries < TripAt(cfg)
    requires b.state == Closed && b.failures == n
    requires b == From(cfg, b0, history) && NeverLeavesClosed(cfg, b0, history)
    ensures var trace := LoopTrace(cfg, maxRetries, script, n, b, history, sent);
            && trace.b.state == Closed && trace.b.failures == 0
            && trace.b == From(cfg, b0, trace.history) && NeverLeavesClosed(cfg, b0, trace.history)
            && |trace.sent| == |sent| + maxRetries + 1 - n
    decreases maxRetries - n
  {
    var a := script[n];
    RetryableCodes(a.outcome.code);
    var ask, record := BreakerCall.Allow(a.askAt), RecordOf(a, n == maxRetries);
    ClosedSnoc(cfg, b0, history, ask);
    ClosedSnoc(cfg, b0, history + [ask], record);
    if n < maxRetries {
      LoopStaysClosed(cfg, maxRetries, script, n + 1, b0, AfterAttempt(cfg, b, a, false),
                      history + [ask] + [record], sent + [a.askAt]);
    }
  }

  lemma {:induction false} LoopTrips(cfg: BreakerConfig, maxRetries: int, script: seq<Attempt>, n: nat,
                                     b0: Fields, b: Fields, history: seq<BreakerCall>, sent: seq<int>)
    requires |script| > maxRetries && AllRetryableStatuses(script) && n < TripAt(cfg) <= maxRetries
    requires b.state == Closed && b.failures == n && b == From(cfg, b0, history)
    ensures !NeverLeavesClosed(cfg, b0, LoopTrace(cfg, maxRetries, script, n, b, history, sent).history)
    decreases maxRetries - n
  {
    var a := script[n];
    RetryableCodes(a.outcome.code);
    var ask, record := BreakerCall.Allow(a.askAt), RecordOf(a, false);
    var b' := AfterAttempt(cfg, b, a, false);
    var h := history + [ask] + [record];
    assert (history + [ask])[..|history|] == history && h[..|h| - 1] == history + [ask];
    assert From(cfg, b0, h) == b';
    if n + 1 < TripAt(cfg) {
      LoopTrips(cfg, maxRetries, script, n + 1, b0, b', h, sent + [a.askAt]);
    } else {
      LoopAppends(cfg, maxRetries, script, n + 1, b', h, sent + [a.askAt]);
      var trace := LoopTrace(cfg, maxRetries, script, n, b, history, sent);
      assert trace.history[..|h|] == h;
    }
  }

  /** A call answered by retryable statuses only leaves a closed breaker with no failures closed
      throughout exactly when the retries are fewer than the failures that trip it. */
  lemma RetryableOnlyTripsIff(cfg: BreakerConfig, maxRetries: nat, b: Fields, script: seq<Attempt>)
    requires |script| > maxRetries && AllRetryableStatuses(script)
    requires b.state == Closed && b.failures == 0
    ensures NeverLeavesClosed(cfg, b, Own(cfg, maxRetries, b, script, 0).history) <==> maxRetries < TripAt(cfg)
  {
    if maxRetries < TripAt(cfg) {
      LoopStaysClosed(cfg, maxRetries, script, 0, b, b, [], []);
    } else {
      LoopTrips(cfg, maxRetries, script, 0, b, b, [], []);
    }
  }

  /** With fewer retries than tripping failures, a backend that only ever answers with retryable
      statuses never trips the breaker of a new client, however many calls are made; every call
      ends with its failure count back at zero. */
  lemma {:induction false} RetryableOnlyNeverTrips(cfg: BreakerConfig, maxRetries: nat, scripts: seq<seq<Attempt>>)
    requires forall k :: 0 <= k < |scripts| ==> |scripts[k]| > maxRetries && AllRetryableStatuses(scripts[k])
    requires maxRetries < TripAt(cfg)
    ensures var line := Session(cfg, maxRetries, scripts);
            && line.b == After(cfg, line.history)
            && NeverLeavesClosed(cfg, NEW, line.history)
            && line.b.state == Closed && line.b.failures == 0
            && |line.sent| == (maxRetries + 1) * |scripts|
  {
    if |scripts| > 0 {
      var n := |scripts| - 1;
      assert (maxRetries + 1) * |scripts| == (maxRetries + 1) * n + maxRetries + 1;
      RetryableOnlyNeverTrips(cfg, maxRetries, scripts[..n]);
      var before := Session(cfg, maxRetries, scripts[..n]);
      LoopStaysClosed(cfg, maxRetries, scripts[n], 0, NEW, before.b, before.history, before.sent);
    }
  }

  // ----- a backend that answers well ---------------------------------------------------------------

  /** Every answer is a status that is not worth another attempt. */
  ghost predicate AllGood(script: seq<Attempt>) {
    forall j :: 0 <= j < |script| ==>
      script[j].outcome.Status? && script[j].outcome.code != 429 && script[j].outcome.code < 500
  }

  /** Against a backend whose answers are all of that kind every call sends one request and returns its
      answer, and the breaker of a new client never leaves closed and counts no failure. */
  lemma {:induction false} GoodBackend(cfg: BreakerConfig, maxRetries: nat, scripts: seq<seq<Attempt>>)
    requires forall k :: 0 <= k < |scripts| ==> |scripts[k]| > maxRetries && AllGood(scripts[k])
    ensures var line := Session(cfg, maxRetries, scripts);
            && line.b == After(cfg, line.history) && NeverLeavesClosed(cfg, NEW, line.history)
            && line.b.state == Closed && line.b.failures == 0
            && |line.sent| == |scripts|
            && forall k :: 0 <= k < |scripts| ==> line.sent[k] == scripts[k][0].askAt
  {
    if |scripts| > 0 {
      var n := |scripts| - 1;
      GoodBackend(cfg, maxRetries, scripts[..n]);
      var before := Session(cfg, maxRetries, scripts[..n]);
      GoodCall(cfg, maxRetries, before.b, before.history, before.sent, scripts[n]);
    }
  }

  lemma {:induction false} GoodCall(cfg: BreakerConfig, maxRetries: nat, b: Fields, history: seq<BreakerCall>,
                                    sent: seq<int>, script: seq<Attempt>)
    requires |script| > maxRetries && AllGood(script)
    requires b == After(cfg, history) && NeverLeavesClosed(cfg, NEW, history) && b.state == Closed && b.failures == 0
    ensures var trace := LoopTrace(cfg, maxRetries, script, 0, b, history, sent);
            && trace.b == After(cfg, trace.history) && NeverLeavesClosed(cfg, NEW, trace.history)
            && trace.b.state == Closed && trace.b.failures == 0
            && trace.sent == sent + [script[0].askAt] && trace.result == Response(script[0].outcome.code)
  {
    var a := script[0];
    RetryableCodes(a.outcome.code);
    ClosedSnoc(cfg, NEW, history, BreakerCall.Allow(a.askAt));
    ClosedSnoc(cfg, NEW, history + [BreakerCall.Allow(a.askAt)], BreakerCall.Success(a.recordAt));
  }

  /** With the default settings a backend that answers with retryable statuses only never trips the breaker,
      with four requests a call, and a dead one does after five requests. */
  lemma DefaultSettings(scripts: seq<seq<Attempt>>)
    requires forall k :: 0 <= k < |scripts| ==> |scripts[k]| > DEFAULT_MAX_RETRIES
    ensures var line := Session(DEFAULT_CONFIG, DEFAULT_MAX_RETRIES, scripts);
            && ((forall k :: 0 <= k < |scripts| ==> AllRetryableStatuses(scripts[k])) ==>
                NeverLeavesClosed(DEFAULT_CONFIG, NEW, line.history) && |line.sent| == 4 * |scripts|)
            && ((forall k :: 0 <= k < |scripts| ==> AllErrors(scripts[k])) && FromZero(line.history) ==>
                line.b.state == if |line.sent| < 5 then Closed else Open)
  {
    if forall k :: 0 <= k < |scripts| ==> AllRetryableStatuses(scripts[k]) {
      RetryableOnlyNeverTrips(DEFAULT_CONFIG, DEFAULT_MAX_RETRIES, scripts);
    }
    if (forall k :: 0 <= k < |scripts| ==> AllErrors(scripts[k]))
       && FromZero(Session(DEFAULT_CONFIG, DEFAULT_MAX_RETRIES, scripts).history)
    {
      DeadBackendTrips(DEFAULT_CONFIG, DEFAULT_MAX_RETRIES, scripts);
    }
  }
}
