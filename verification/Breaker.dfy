/** The circuit breaker: the class, and the laws of its histories. */
module Breaker {
  import opened Prelude

  datatype CbState = Closed | Open | HalfOpen

  datatype BreakerConfig = BreakerConfig(maxFailures: int, openTimeout: int, halfOpenProbes: int)

  const DEFAULT_CONFIG: BreakerConfig := BreakerConfig(5, 30_000_000_000, 2)

  /** The fields of a breaker. */
  datatype Fields = Fields(state: CbState, failures: nat, probes: nat, lastFailure: int)

  const NEW: Fields := Fields(Closed, 0, 0, 0)

  /** A call on the breaker and the time, in nanoseconds, the clock then reads. */
  datatype BreakerCall = Allow(at: int) | Success(at: int) | Failure(at: int)

  /** Failures that trip a closed breaker. */
  function TripAt(cfg: BreakerConfig): int {
    Max(1, cfg.maxFailures)
  }

  /** Successes that close a half-open breaker. */
  function CloseAt(cfg: BreakerConfig): int {
    Max(1, cfg.halfOpenProbes)
  }

  predicate Grants(cfg: BreakerConfig, b: Fields, at: int) {
    b.state != Open || at - b.lastFailure >= cfg.openTimeout
  }

  /** The fields after one call. */
  function Next(cfg: BreakerConfig, b: Fields, call: BreakerCall): Fields {
    match call
    case Allow(at) =>
      if b.state == Open && Grants(cfg, b, at) then Fields(HalfOpen, 0, 0, b.lastFailure) else b
    case Success(_) =>
      if b.state == Closed then b.(failures := 0)
      else if b.state == Open then b
      else if b.probes + 1 >= cfg.halfOpenProbes then Fields(Closed, 0, 0, b.lastFailure)
      else b.(probes := b.probes + 1)
    case Failure(at) =>
      if b.state == Closed && b.failures + 1 < cfg.maxFailures then b.(failures := b.failures + 1, lastFailure := at)
      else if b.state == Open then b.(lastFailure := at)
      else Fields(Open, 0, 0, at)
  }

  /** The fields after the calls `h`, starting from `b`. */
  function From(cfg: BreakerConfig, b: Fields, h: seq<BreakerCall>): Fields {
    if |h| == 0 then b else Next(cfg, From(cfg, b, h[..|h| - 1]), h[|h| - 1])
  }

  /** The fields after the history `h` of a new breaker. */
  function After(cfg: BreakerConfig, h: seq<BreakerCall>): Fields {
    From(cfg, NEW, h)
  }

  class CircuitBreaker {
    const cfg: BreakerConfig
    var state: CbState
    var failures: nat
    var probes: nat
    var lastFailure: int
    /** The state changes reported to `onChange`, in order. */
    var changes: seq<(CbState, CbState)>
    /** The calls so far. */
    ghost var history: seq<BreakerCall>

    constructor (cfg: BreakerConfig)
      ensures this.cfg == cfg && Valid() && history == [] && View() == NEW
    {
      this.cfg := cfg;
      state, failures, probes, lastFailure := Closed, 0, 0, 0;
      changes, history := [], [];
    }

    function View(): Fields
      reads this
    {
      Fields(state, failures, probes, lastFailure)
    }

    /** The fields are those of the history, and every state change has been reported. */
    ghost predicate Valid()
      reads this
    {
      View() == After(cfg, history) && changes == Changes(cfg, history)
    }

    method Allow(now: int) returns (granted: bool)
      requires Valid()
      modifies this
      ensures Valid() && history == old(history) + [BreakerCall.Allow(now)]
      ensures View() == Next(cfg, old(View()), BreakerCall.Allow(now))
      ensures granted == Grants(cfg, old(View()), now)
    {
      HistorySnoc(cfg, history, BreakerCall.Allow(now));
      history := history + [BreakerCall.Allow(now)];
      match state {
        case Closed =>
          granted := true;
        case Open =>
          if now - lastFailure >= cfg.openTimeout {
            Transition(HalfOpen);
            granted := true;
          } else {
            granted := false;
          }
        case HalfOpen =>
          granted := true;
      }
    }

    method RecordSuccess(ghost now: int)
      requires Valid()
      modifies this
      ensures Valid() && history == old(history) + [Success(now)]
      ensures View() == Next(cfg, old(View()), Success(now))
    {
      HistorySnoc(cfg, history, Success(now));
      history := history + [Success(now)];
      match state {
        case Closed =>
          failures := 0;
        case Open =>
        case HalfOpen =>
          probes := probes + 1;
          if probes >= cfg.halfOpenProbes {
            Transition(Closed);
          }
      }
    }

    method RecordFailure(now: int)
      requires Valid()
      modifies this
      ensures Valid() && history == old(history) + [Failure(now)]
      ensures View() == Next(cfg, old(View()), Failure(now))
    {
      HistorySnoc(cfg, history, Failure(now));
      history := history + [Failure(now)];
      lastFailure := now;
      match state {
        case Closed =>
          failures := failures + 1;
          if failures >= cfg.maxFailures {
            Transition(Open);
          }
        case Open =>
        case HalfOpen =>
          probes := 0;
          Transition(Open);
      }
    }

    method Transition(next: CbState)
      modifies this
      ensures history == old(history) && lastFailure == old(lastFailure)
      ensures if old(state) == next then View() == old(View()) && changes == old(changes)
              else View() == Fields(next, 0, 0, old(lastFailure)) && changes == old(changes) + [(old(state), next)]
    {
      if state == next {
        return;
      }
      var from := state;
      state := next;
      failures := 0;
      probes := 0;
      changes := changes + [(from, next)];
    }
  }

  // ----- the reported changes -------------------------------------------------------------------

  /** The state changes of history `h`. */
  function Changes(cfg: BreakerConfig, h: seq<BreakerCall>): seq<(CbState, CbState)> {
    if |h| == 0 then []
    else
      var before, after := After(cfg, h[..|h| - 1]).state, After(cfg, h).state;
      Changes(cfg, h[..|h| - 1]) + (if before == after then [] else [(before, after)])
  }

  lemma HistorySnoc(cfg: BreakerConfig, h: seq<BreakerCall>, call: BreakerCall)
    ensures After(cfg, h + [call]) == Next(cfg, After(cfg, h), call)
    ensures Changes(cfg, h + [call]) ==
            Changes(cfg, h) + (if After(cfg, h).state == Next(cfg, After(cfg, h), call).state then []
                               else [(After(cfg, h).state, Next(cfg, After(cfg, h), call).state)])
  {
    assert (h + [call])[..|h|] == h;
  }

  predicate Edge(from: CbState, to: CbState) {
    (from == Closed && to == Open) || (from == Open && to == HalfOpen)
    || (from == HalfOpen && to == Closed) || (from == HalfOpen && to == Open)
  }

  /** The reported changes are a path from closed to the current state along the four edges of the
      breaker. */
  lemma {:induction false} ChangesArePath(cfg: BreakerConfig, h: seq<BreakerCall>)
    ensures var path := Changes(cfg, h);
            && (forall k :: 0 <= k < |path| ==> Edge(path[k].0, path[k].1))
            && (forall k :: 0 <= k < |path| - 1 ==> path[k].1 == path[k + 1].0)
            && (|path| > 0 ==> path[0].0 == Closed)
            && After(cfg, h).state == if |path| == 0 then Closed else path[|path| - 1].1
  {
    if |h| > 0 {
      ChangesArePath(cfg, h[..|h| - 1]);
    }
  }

  // ----- counters and runs ----------------------------------------------------------------------

  /** Did the last call of `h` change the state? */
  predicate Changed(cfg: BreakerConfig, h: seq<BreakerCall>)
    requires |h| > 0
  {
    After(cfg, h[..|h| - 1]).state != After(cfg, h).state
  }

  /** Failures since the last success or state change. */
  function FailureRun(cfg: BreakerConfig, h: seq<BreakerCall>): nat {
    if |h| == 0 || Changed(cfg, h) || h[|h| - 1].Success? then 0
    else FailureRun(cfg, h[..|h| - 1]) + (if h[|h| - 1].Failure? then 1 else 0)
  }

  /** Successes since the last failure or state change. */
  function SuccessRun(cfg: BreakerConfig, h: seq<BreakerCall>): nat {
    if |h| == 0 || Changed(cfg, h) || h[|h| - 1].Failure? then 0
    else SuccessRun(cfg, h[..|h| - 1]) + (if h[|h| - 1].Success? then 1 else 0)
  }

  /** The counters after any history: a closed breaker counts its current run of failures, which is
      too short to trip it; a half-open one its run of successes, too short to close it; an open one
      has both counters at zero. */
  lemma {:induction false} CountersAreRuns(cfg: BreakerConfig, h: seq<BreakerCall>)
    ensures var b := After(cfg, h);
            match b.state
            case Closed => b.failures == FailureRun(cfg, h) < TripAt(cfg) && b.probes == 0
            case HalfOpen => b.probes == SuccessRun(cfg, h) < CloseAt(cfg) && b.failures == 0
            case Open => b.failures == 0 && b.probes == 0
  {
    if |h| > 0 {
      CountersAreRuns(cfg, h[..|h| - 1]);
    }
  }

  /** A failure trips a closed breaker exactly when it completes a run of `TripAt` failures; any
      failure reopens a half-open one. */
  lemma TripsExactlyAt(cfg: BreakerConfig, h: seq<BreakerCall>, at: int)
    requires After(cfg, h).state != Open
    ensures After(cfg, h + [Failure(at)]).state == Open <==>
            After(cfg, h).state == HalfOpen || FailureRun(cfg, h) + 1 == TripAt(cfg)
  {
    CountersAreRuns(cfg, h);
    HistorySnoc(cfg, h, Failure(at));
  }

  /** A success closes a half-open breaker exactly when it completes a run of `CloseAt` successes. */
  lemma ClosesExactlyAt(cfg: BreakerConfig, h: seq<BreakerCall>, at: int)
    requires After(cfg, h).state == HalfOpen
    ensures After(cfg, h + [Success(at)]).state == Closed <==> SuccessRun(cfg, h) + 1 == CloseAt(cfg)
  {
    CountersAreRuns(cfg, h);
    HistorySnoc(cfg, h, Success(at));
  }

  /** When the last failure of `h` was recorded, in whatever state. */
  function LastFailureAt(h: seq<BreakerCall>): int {
    if |h| == 0 then 0
    else if h[|h| - 1].Failure? then h[|h| - 1].at
    else LastFailureAt(h[..|h| - 1])
  }

  /** An open breaker lets a request through exactly when a full timeout has passed since the last
      failure was recorded, also one recorded while it was open; any other breaker always does. */
  lemma {:induction false} GrantsIff(cfg: BreakerConfig, h: seq<BreakerCall>, at: int)
    ensures After(cfg, h).lastFailure == LastFailureAt(h)
    ensures Grants(cfg, After(cfg, h), at) <==> After(cfg, h).state != Open || at - LastFailureAt(h) >= cfg.openTimeout
  {
    if |h| > 0 {
      GrantsIff(cfg, h[..|h| - 1], at);
    }
  }

  // ----- the state machine ----------------------------------------------------------------------

  /** The state after one more call, read off the history: a closed breaker opens at the failure that
      completes its run, an open one becomes half-open at an `Allow` a full timeout after the last recorded
      failure, and a half-open one closes at the success that completes its run and opens at any failure.
      No other call changes the state. */
  lemma StateAfterCall(cfg: BreakerConfig, h: seq<BreakerCall>, call: BreakerCall)
    ensures After(cfg, h + [call]).state ==
            match After(cfg, h).state
            case Closed => if call.Failure? && FailureRun(cfg, h) + 1 >= cfg.maxFailures then Open else Closed
            case Open => if call.Allow? && call.at - LastFailureAt(h) >= cfg.openTimeout then HalfOpen else Open
            case HalfOpen =>
              if call.Failure? then Open
              else if call.Success? && SuccessRun(cfg, h) + 1 >= cfg.halfOpenProbes then Closed
              else HalfOpen
  {
    CountersAreRuns(cfg, h);
    HistorySnoc(cfg, h, call);
    GrantsIff(cfg, h, call.at);
  }

  /** An `Allow` makes the breaker half-open if and only if it is so already, or is open and a full timeout
      has passed since the last recorded failure. A breaker that becomes half-open starts with both counters
      at zero; any other `Allow` changes nothing. */
  lemma AllowMeans(cfg: BreakerConfig, h: seq<BreakerCall>, at: int)
    ensures var b, b' := After(cfg, h), After(cfg, h + [BreakerCall.Allow(at)]);
            var turns := b.state == Open && at - LastFailureAt(h) >= cfg.openTimeout;
            && (b'.state == HalfOpen <==> b.state == HalfOpen || turns)
            && (if turns then b'.failures == 0 && b'.probes == 0 && b'.lastFailure == b.lastFailure else b' == b)
  {
    HistorySnoc(cfg, h, BreakerCall.Allow(at));
    GrantsIff(cfg, h, at);
  }

  function Successes(times: seq<int>): seq<BreakerCall> {
    if |times| == 0 then [] else Successes(times[..|times| - 1]) + [Success(times[|times| - 1])]
  }

  /** A half-open breaker with no successes yet counts them, and closes at the one that completes the run. */
  lemma {:induction false} ProbesCount(cfg: BreakerConfig, h: seq<BreakerCall>, times: seq<int>)
    requires After(cfg, h).state == HalfOpen && After(cfg, h).probes == 0 && |times| <= Max(1, cfg.halfOpenProbes)
    ensures var b := After(cfg, h + Successes(times));
            if |times| < Max(1, cfg.halfOpenProbes) then b.state == HalfOpen && b.probes == |times|
            else b.state == Closed && b.failures == 0 && b.probes == 0
  {
    if |times| == 0 {
      assert h + Successes(times) == h;
    } else {
      var n := |times| - 1;
      ProbesCount(cfg, h, times[..n]);
      HistorySnoc(cfg, h + Successes(times[..n]), Success(times[n]));
      assert h + Successes(times) == h + Successes(times[..n]) + [Success(times[n])];
    }
  }

  /** Recovery: an open breaker that is asked after the timeout and then sees max(1, HalfOpenProbes)
      successes is closed with both counters at zero; after fewer of them it is still half-open. */
  lemma Recovers(cfg: BreakerConfig, h: seq<BreakerCall>, at: int, times: seq<int>)
    requires After(cfg, h).state == Open && at - LastFailureAt(h) >= cfg.openTimeout
    requires |times| <= Max(1, cfg.halfOpenProbes)
    ensures var b := After(cfg, h + [BreakerCall.Allow(at)] + Successes(times));
            if |times| < Max(1, cfg.halfOpenProbes) then b.state == HalfOpen && b.probes == |times|
            else b.state == Closed && b.failures == 0 && b.probes == 0
  {
    AllowMeans(cfg, h, at);
    ProbesCount(cfg, h + [BreakerCall.Allow(at)], times);
  }

  /** With the default settings an open breaker lets a request through from 30 seconds after the last
      recorded failure on, and two successes then close it. */
  lemma DefaultRecovery(h: seq<BreakerCall>, at: int, t0: int, t1: int)
    requires After(DEFAULT_CONFIG, h).state == Open
    ensures Grants(DEFAULT_CONFIG, After(DEFAULT_CONFIG, h), at) <==> at - LastFailureAt(h) >= 30_000_000_000
    ensures at - LastFailureAt(h) >= 30_000_000_000 ==>
              After(DEFAULT_CONFIG, h + [BreakerCall.Allow(at)] + [Success(t0)]).state == HalfOpen
              && After(DEFAULT_CONFIG, h + [BreakerCall.Allow(at)] + [Success(t0)] + [Success(t1)]).state == Closed
  {
    GrantsIff(DEFAULT_CONFIG, h, at);
    AllowMeans(DEFAULT_CONFIG, h, at);
    var asked := h + [BreakerCall.Allow(at)];
    HistorySnoc(DEFAULT_CONFIG, asked, Success(t0));
    HistorySnoc(DEFAULT_CONFIG, asked + [Success(t0)], Success(t1));
  }

  /** Within the calls `from` to the end of `h`, the breaker was in `state` throughout. */
  ghost predicate Stays(cfg: BreakerConfig, h: seq<BreakerCall>, from: nat, state: CbState)
    requires from <= |h|
  {
    forall j :: from <= j <= |h| ==> After(cfg, h[..j]).state == state
  }

  function IsFailure(): BreakerCall -> bool {
    (call: BreakerCall) => call.Failure?
  }

  function IsSuccess(): BreakerCall -> bool {
    (call: BreakerCall) => call.Success?
  }

  lemma StaysLonger(cfg: BreakerConfig, h: seq<BreakerCall>, call: BreakerCall, from: nat, state: CbState)
    requires from <= |h| && Stays(cfg, h, from, state) && After(cfg, h + [call]).state == state
    ensures Stays(cfg, h + [call], from, state)
  {
    forall j | from <= j <= |h| + 1 ensures After(cfg, (h + [call])[..j]).state == state {
      if j <= |h| {
        assert (h + [call])[..j] == h[..j];
      } else {
        assert (h + [call])[..j] == h + [call];
      }
    }
  }

  lemma SuffixSnoc(h: seq<BreakerCall>, call: BreakerCall, from: nat, p: BreakerCall -> bool)
    requires from <= |h|
    ensures Count((h + [call])[from..], p) == Count(h[from..], p) + (if p(call) then 1 else 0)
  {
    assert (h + [call])[from..] == h[from..] + [call];
    CountSnoc(h[from..], call, p);
  }

  lemma EmptyStretch(cfg: BreakerConfig, h: seq<BreakerCall>)
    ensures Stays(cfg, h, |h|, After(cfg, h).state)
    ensures forall p :: Count(h[|h|..], p) == 0
  {
    assert h[..|h|] == h;
  }

  /** A run of failures is a stretch of the history of its own: the breaker is closed throughout,
      nothing in it succeeds, and it holds that many failures. */
  lemma {:induction false} FailureRunStretch(cfg: BreakerConfig, h: seq<BreakerCall>) returns (from: nat)
    requires After(cfg, h).state == Closed
    ensures from <= |h| && Stays(cfg, h, from, Closed)
    ensures Count(h[from..], IsFailure()) == FailureRun(cfg, h)
    ensures Count(h[from..], IsSuccess()) == 0
  {
    if |h| == 0 || Changed(cfg, h) || h[|h| - 1].Success? {
      from := |h|;
      EmptyStretch(cfg, h);
    } else {
      var n := |h| - 1;
      from := FailureRunStretch(cfg, h[..n]);
      assert h == h[..n] + [h[n]];
      StaysLonger(cfg, h[..n], h[n], from, Closed);
      SuffixSnoc(h[..n], h[n], from, IsFailure());
      SuffixSnoc(h[..n], h[n], from, IsSuccess());
    }
  }

  lemma {:induction false} SuccessRunStretch(cfg: BreakerConfig, h: seq<BreakerCall>) returns (from: nat)
    requires After(cfg, h).state == HalfOpen
    ensures from <= |h| && Stays(cfg, h, from, HalfOpen)
    ensures Count(h[from..], IsSuccess()) == SuccessRun(cfg, h)
    ensures Count(h[from..], IsFailure()) == 0
  {
    if |h| == 0 || Changed(cfg, h) || h[|h| - 1].Failure? {
      from := |h|;
      EmptyStretch(cfg, h);
    } else {
      var n := |h| - 1;
      from := SuccessRunStretch(cfg, h[..n]);
      assert h == h[..n] + [h[n]];
      StaysLonger(cfg, h[..n], h[n], from, HalfOpen);
      SuffixSnoc(h[..n], h[n], from, IsFailure());
      SuffixSnoc(h[..n], h[n], from, IsSuccess());
    }
  }

  /** A trip of a closed breaker ends a closed stretch that holds `TripAt` failures and no success. */
  lemma TripUsesItsFailures(cfg: BreakerConfig, h: seq<BreakerCall>, at: int) returns (from: nat)
    requires After(cfg, h).state == Closed && After(cfg, h + [Failure(at)]).state == Open
    ensures from <= |h| && Stays(cfg, h, from, Closed)
    ensures Count((h + [Failure(at)])[from..], IsFailure()) == TripAt(cfg)
    ensures Count((h + [Failure(at)])[from..], IsSuccess()) == 0
  {
    from := FailureRunStretch(cfg, h);
    TripsExactlyAt(cfg, h, at);
    CountersAreRuns(cfg, h);
    SuffixSnoc(h, Failure(at), from, IsFailure());
    SuffixSnoc(h, Failure(at), from, IsSuccess());
  }

  /** A recovery ends a half-open stretch that holds `CloseAt` successes and no failure. */
  lemma RecoveryUsesItsSuccesses(cfg: BreakerConfig, h: seq<BreakerCall>, at: int) returns (from: nat)
    requires After(cfg, h).state == HalfOpen && After(cfg, h + [Success(at)]).state == Closed
    ensures from <= |h| && Stays(cfg, h, from, HalfOpen)
    ensures Count((h + [Success(at)])[from..], IsSuccess()) == CloseAt(cfg)
    ensures Count((h + [Success(at)])[from..], IsFailure()) == 0
  {
    from := SuccessRunStretch(cfg, h);
    ClosesExactlyAt(cfg, h, at);
    SuffixSnoc(h, Success(at), from, IsSuccess());
    SuffixSnoc(h, Success(at), from, IsFailure());
  }

  /** How often the state changed from `from` to `to`. */
  function Moves(cfg: BreakerConfig, h: seq<BreakerCall>, from: CbState, to: CbState): nat {
    Count(Changes(cfg, h), Change(from, to))
  }

  function Change(from: CbState, to: CbState): ((CbState, CbState)) -> bool {
    (change: (CbState, CbState)) => change == (from, to)
  }

  lemma MovesSnoc(cfg: BreakerConfig, h: seq<BreakerCall>, from: CbState, to: CbState)
    requires |h| > 0 && from != to
    ensures Moves(cfg, h, from, to) ==
            Moves(cfg, h[..|h| - 1], from, to)
            + (if After(cfg, h[..|h| - 1]).state == from && After(cfg, h).state == to then 1 else 0)
  {
    var n := |h| - 1;
    var before, after := After(cfg, h[..n]).state, After(cfg, h).state;
    if before == after {
      assert Changes(cfg, h[..n]) + [] == Changes(cfg, h[..n]);
    } else {
      CountSnoc(Changes(cfg, h[..n]), (before, after), Change(from, to));
    }
  }

  lemma OneMore(n: int, t: int)
    ensures (n + 1) * t == n * t + t
  {
  }

  /** What one call adds to trips and counted failures it takes from that call being a failure. */
  lemma CallPaysForTrip(cfg: BreakerConfig, b: Fields, call: BreakerCall)
    requires b.failures < TripAt(cfg) && (b.state != Closed ==> b.failures == 0)
    ensures var b' := Next(cfg, b, call);
            (if b.state == Closed && b'.state == Open then TripAt(cfg) else 0) + b'.failures <=
            b.failures + (if call.Failure? then 1 else 0)
  {
  }

  lemma CallPaysForRecovery(cfg: BreakerConfig, b: Fields, call: BreakerCall)
    requires b.probes < CloseAt(cfg) && (b.state != HalfOpen ==> b.probes == 0)
    ensures var b' := Next(cfg, b, call);
            (if b.state == HalfOpen && b'.state == Closed then CloseAt(cfg) else 0) + b'.probes <=
            b.probes + (if call.Success? then 1 else 0)
  {
  }

  /** No failure pays for two trips: over any history the trips of a closed breaker, at `TripAt`
      failures each, and the failures counted now never exceed the failures recorded. */
  lemma {:induction false} TripsArePaidFor(cfg: BreakerConfig, h: seq<BreakerCall>)
    ensures Moves(cfg, h, Closed, Open) * TripAt(cfg) + After(cfg, h).failures <= Count(h, IsFailure())
  {
    if |h| > 0 {
      var n := |h| - 1;
      var trips := Moves(cfg, h[..n], Closed, Open);
      TripsArePaidFor(cfg, h[..n]);
      CountersAreRuns(cfg, h[..n]);
      CallPaysForTrip(cfg, After(cfg, h[..n]), h[n]);
      MovesSnoc(cfg, h, Closed, Open);
      OneMore(trips, TripAt(cfg));
    }
  }

  /** No success pays for two recoveries: over any history the recoveries, at `CloseAt` successes
      each, and the probes counted now never exceed the successes recorded. */
  lemma {:induction false} RecoveriesArePaidFor(cfg: BreakerConfig, h: seq<BreakerCall>)
    ensures Moves(cfg, h, HalfOpen, Closed) * CloseAt(cfg) + After(cfg, h).probes <= Count(h, IsSuccess())
  {
    if |h| > 0 {
      var n := |h| - 1;
      var recoveries := Moves(cfg, h[..n], HalfOpen, Closed);
      RecoveriesArePaidFor(cfg, h[..n]);
      CountersAreRuns(cfg, h[..n]);
      CallPaysForRecovery(cfg, After(cfg, h[..n]), h[n]);
      MovesSnoc(cfg, h, HalfOpen, Closed);
      OneMore(recoveries, CloseAt(cfg));
    }
  }

  // ----- opening rate ---------------------------------------------------------------------------

  ghost predicate Monotone(h: seq<BreakerCall>) {
    forall i, j :: 0 <= i <= j < |h| ==> h[i].at <= h[j].at
  }

  /** The times at which the breaker opened. */
  function Openings(cfg: BreakerConfig, h: seq<BreakerCall>): seq<int> {
    if |h| == 0 then []
    else
      Openings(cfg, h[..|h| - 1]) +
      (if Changed(cfg, h) && After(cfg, h).state == Open then [h[|h| - 1].at] else [])
  }

  /** After the last opening the breaker is open since at least then, or the timeout has passed. */
  lemma {:induction false} SinceLastOpening(cfg: BreakerConfig, h: seq<BreakerCall>)
    requires Monotone(h)
    ensures var times := Openings(cfg, h);
            var b := After(cfg, h);
            && (forall k :: 0 <= k < |times| - 1 ==> times[k + 1] - times[k] >= cfg.openTimeout)
            && (b.state == Open ==> |times| > 0 && b.lastFailure <= h[|h| - 1].at)
            && (|times| > 0 && b.state == Open ==> b.lastFailure >= times[|times| - 1])
            && (|times| > 0 && b.state != Open ==> h[|h| - 1].at - times[|times| - 1] >= cfg.openTimeout)
  {
    if |h| > 0 {
      var n := |h| - 1;
      SinceLastOpening(cfg, h[..n]);
      assert After(cfg, h) == Next(cfg, After(cfg, h[..n]), h[n]);
      assert n > 0 ==> h[..n][n - 1].at <= h[n].at;
    }
  }

  /** With a monotone clock the k-th opening after another comes at least k timeouts later. */
  lemma {:induction false} OpeningsSpaced(cfg: BreakerConfig, h: seq<BreakerCall>, i: nat, j: nat)
    requires Monotone(h) && i <= j < |Openings(cfg, h)|
    ensures Openings(cfg, h)[j] - Openings(cfg, h)[i] >= (j - i) * cfg.openTimeout
    decreases j - i
  {
    if i < j {
      OpeningsSpaced(cfg, h, i, j - 1);
      SinceLastOpening(cfg, h);
      assert (j - i) * cfg.openTimeout == (j - 1 - i) * cfg.openTimeout + cfg.openTimeout;
    }
  }

  lemma {:induction false} AtMost(n: int, t: int, window: int)
    requires n >= 0 && t > 0 && window >= n * t
    ensures n <= window / t
  {
    var q := window / t;
    assert window == q * t + window % t;
    assert (q + 1) * t == q * t + t;
    Scaled(q + 1, n, t);
  }

  lemma Scaled(a: int, b: int, t: int)
    requires t > 0
    ensures a <= b ==> a * t <= b * t
  {
    if a <= b {
      assert b * t - a * t == (b - a) * t;
    }
  }

  /** Any window of length `window` holds at most 1 + window / openTimeout openings. */
  lemma OpeningRate(cfg: BreakerConfig, h: seq<BreakerCall>, i: nat, j: nat, window: int)
    requires Monotone(h) && cfg.openTimeout > 0
    requires i <= j < |Openings(cfg, h)|
    requires Openings(cfg, h)[j] - Openings(cfg, h)[i] <= window
    ensures j - i + 1 <= 1 + window / cfg.openTimeout
  {
    OpeningsSpaced(cfg, h, i, j);
    AtMost(j - i, cfg.openTimeout, window);
  }
}
