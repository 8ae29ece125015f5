/**
 Runs in which the broker never delivers a message twice. Calls may still fail, processes may
 still crash, and any number of requests and workers interleave.
 */
module PipelineOnce {
  import opened Prelude
  import opened Domain
  import opened Pipeline
  import opened PipelineInvariant

  ghost predicate NoRedelivery(steps: seq<Step>) {
    forall k :: 0 <= k < |steps| ==> !steps[k].Redeliver? && !steps[k].RedeliverDlq?
  }

  /** No call fails and no process crashes. */
  ghost predicate NothingFails(steps: seq<Step>) {
    forall k :: 0 <= k < |steps| ==>
      && !steps[k].Crash?
      && (steps[k].Call? ==> steps[k].reply.ok)
      && (steps[k].Ingest? ==> steps[k].ok)
  }

  // Short names for the statuses in histories.
  const P := Status.Pending
  const G := Status.Processing
  const D := Status.Processed
  const F := Status.Failed

  /** The only status histories there are: pending, processing, processed, or pending, failed and
      perhaps failed once more. Processed is final, failed is only repeated, and no row fails once
      its processing has begun. */
  predicate Lifecycle(h: seq<Status>) {
    h == [P] || h == [P, G] || h == [P, G, D] || h == [P, F] || h == [P, F, F]
  }

  ghost predicate Settled(maxRetries: int, cell: Cell) {
    && Lifecycle(cell.audit.history)
    && cell.audit.failures <= LastAttempt(maxRetries)
    && (F in cell.audit.history ==> cell.audit.failures == LastAttempt(maxRetries))
  }

  /** How the one carrier of an event relates to its row. */
  ghost predicate InStep(c: Carrier, cell: Cell) {
    var h, failures := cell.audit.history, cell.audit.failures;
    match c.stage
    case Ended(NeverPublished) => h == [P]
    case Ended(RetryLost) => h == [P]
    case Ended(Done) => h == [P, G] || h == [P, G, D]
    case Ended(DlqLost) => (h == [P] || h == [P, F]) && failures == c.attempt
    case Ended(DlqHandled) => (h == [P] || h == [P, F] || h == [P, F, F]) && failures == c.attempt
    case Ended(Aborted) => true
    case AtWrite(_) => h == [P, G] && failures == c.attempt - 1
    case AtMarkProcessed => h == [P, G] && failures == c.attempt - 1
    case AtMarkFailed => h == [P] && failures == c.attempt
    case AtPublishRetry => h == [P] && failures == c.attempt
    case AtPublishDlq => (h == [P] || h == [P, F]) && failures == c.attempt
    case OnDlq => (h == [P] || h == [P, F]) && failures == c.attempt
    case AtDlqMark => (h == [P] || h == [P, F]) && failures == c.attempt
    case _ => h == [P] && failures == c.attempt - 1
  }

  lemma CallStaysInStep(maxRetries: int, c: Carrier, cell: Cell, reply: Reply)
    requires Calling(c.stage) && CarrierOk(maxRetries, c) && CellOk(cell)
    requires Settled(maxRetries, cell) && InStep(c, cell)
    ensures var r := NextCall(maxRetries, c, Some(cell), reply);
            && r.cell.Some? && r.carrier.event == c.event
            && Settled(maxRetries, r.cell.value) && InStep(r.carrier, r.cell.value)
  {
    assert [P] + [G] == [P, G] && [P, G] + [D] == [P, G, D] && [P] + [F] == [P, F] && [P, F] + [F] == [P, F, F];
  }

  /** One carrier per event, in step with its row. */
  ghost predicate Once(maxRetries: int, s: State) {
    && (forall id :: id in s.cells ==> Settled(maxRetries, s.cells[id]))
    && (forall i, j :: 0 <= i < j < |s.carriers| ==> s.carriers[i].event != s.carriers[j].event)
    && (forall i :: 0 <= i < |s.carriers| ==>
          s.carriers[i].event in s.cells && InStep(s.carriers[i], s.cells[s.carriers[i].event]))
    && (forall m :: m in s.dlqDelivered ==>
          m.event in s.cells && s.cells[m.event].audit.failures == LastAttempt(maxRetries))
  }

  lemma {:induction false} CallKeepsOnce(maxRetries: int, s: State, i: nat, reply: Reply)
    requires Inv(maxRetries, s) && Once(maxRetries, s) && Enabled(s, Call(i, reply))
    ensures Once(maxRetries, Apply(maxRetries, s, Call(i, reply)))
  {
    var c := s.carriers[i];
    assert CarrierOk(maxRetries, c) && CellOk(s.cells[c.event]);
    CallStaysInStep(maxRetries, c, s.cells[c.event], reply);
  }

  lemma FetchKeepsOnce(maxRetries: int, s: State, i: nat)
    requires Inv(maxRetries, s) && Once(maxRetries, s) && Enabled(s, Fetch(i))
    ensures Once(maxRetries, Apply(maxRetries, s, Fetch(i)))
  {
    if s.carriers[i].stage.OnEvents? {
      EventFetchKeepsOnce(maxRetries, s, i);
    } else {
      DlqFetchKeepsOnce(maxRetries, s, i);
    }
  }

  lemma EventFetchKeepsOnce(maxRetries: int, s: State, i: nat)
    requires Once(maxRetries, s) && i < |s.carriers| && s.carriers[i].stage.OnEvents?
    ensures Once(maxRetries, Apply(maxRetries, s, Fetch(i)))
  {
    assert InStep(s.carriers[i], s.cells[s.carriers[i].event]);
  }

  lemma DlqFetchKeepsOnce(maxRetries: int, s: State, i: nat)
    requires Inv(maxRetries, s) && Once(maxRetries, s) && i < |s.carriers| && s.carriers[i].stage.OnDlq?
    ensures Once(maxRetries, Apply(maxRetries, s, Fetch(i)))
  {
    var c := s.carriers[i];
    assert CarrierOk(maxRetries, c) && InStep(c, s.cells[c.event]);
  }

  lemma CrashKeepsOnce(maxRetries: int, s: State, i: nat)
    requires Once(maxRetries, s) && Enabled(s, Crash(i))
    ensures Once(maxRetries, Apply(maxRetries, s, Crash(i)))
  {
  }

  lemma IngestKeepsOnce(maxRetries: int, s: State, step: Step)
    requires Inv(maxRetries, s) && Once(maxRetries, s) && Enabled(s, step) && step.Ingest?
    ensures Once(maxRetries, Apply(maxRetries, s, step))
  {
  }

  lemma {:induction false} ReachableOnce(maxRetries: int, steps: seq<Step>)
    requires Legal(maxRetries, INIT, steps) && NoRedelivery(steps)
    ensures Once(maxRetries, Exec(maxRetries, INIT, steps))
  {
    if |steps| > 0 {
      var n := |steps| - 1;
      var s := Exec(maxRetries, INIT, steps[..n]);
      ReachableOnce(maxRetries, steps[..n]);
      Reachable(maxRetries, steps[..n]);
      match steps[n]
      case Ingest(_, _, _, _, _) => IngestKeepsOnce(maxRetries, s, steps[n]);
      case Call(i, reply) => CallKeepsOnce(maxRetries, s, i, reply);
      case Fetch(i) => FetchKeepsOnce(maxRetries, s, i);
      case Crash(i) => CrashKeepsOnce(maxRetries, s, i);
    }
  }

  /** Without redelivery every event's history is a lifecycle, whatever interleaves and fails; and
      it is marked failed only after the last attempt has failed. */
  lemma {:induction false} StatusLifecycle(maxRetries: int, steps: seq<Step>, e: EventId)
    requires Legal(maxRetries, INIT, steps) && NoRedelivery(steps)
    requires e in Exec(maxRetries, INIT, steps).cells
    ensures var audit := Exec(maxRetries, INIT, steps).cells[e].audit;
            && Lifecycle(audit.history)
            && (F in audit.history ==> audit.failures == LastAttempt(maxRetries))
  {
    ReachableOnce(maxRetries, steps);
    assert Settled(maxRetries, Exec(maxRetries, INIT, steps).cells[e]);
  }

  /** Without redelivery no two copies of one event exist, on a topic or in a process. */
  lemma {:induction false} OneCopyPerEvent(maxRetries: int, steps: seq<Step>, i: nat, j: nat)
    requires Legal(maxRetries, INIT, steps) && NoRedelivery(steps)
    requires i < |Exec(maxRetries, INIT, steps).carriers| && j < |Exec(maxRetries, INIT, steps).carriers|
    requires Exec(maxRetries, INIT, steps).carriers[i].event == Exec(maxRetries, INIT, steps).carriers[j].event
    ensures i == j
  {
    ReachableOnce(maxRetries, steps);
  }

  /** Failed deliveries as the row counts them, with the increments that did not reach it. */
  function Retries(cell: Cell): nat {
    cell.row.retryCount + cell.audit.missed
  }

  /** What the retry counts say: no event exceeds the last attempt; a message on the events topic
      carries one attempt more than its event's retries; and once an event's message reached the
      dead-letter topic, or was to, its retries are exactly the last attempt, whatever became of the
      copy: still there, being handled, handled, lost on the way, or crashed after its fetch. */
  ghost predicate RetryCounts(maxRetries: int, s: State) {
    && (forall e :: e in s.cells ==> Retries(s.cells[e]) <= LastAttempt(maxRetries))
    && (forall i :: 0 <= i < |s.carriers| ==>
          var c := s.carriers[i];
          && c.event in s.cells
          && (c.stage.OnEvents? ==> Retries(s.cells[c.event]) == c.attempt - 1)
          && (OutOfAttempts(c.stage) ==> Retries(s.cells[c.event]) == LastAttempt(maxRetries)))
    && (forall m :: m in s.dlqDelivered ==>
          m.event in s.cells && Retries(s.cells[m.event]) == LastAttempt(maxRetries))
  }

  /** Without redelivery the retry count of every event follows the attempt of its message. */
  lemma {:induction false} RetryCountFollowsAttempt(maxRetries: int, steps: seq<Step>)
    requires Legal(maxRetries, INIT, steps) && NoRedelivery(steps)
    ensures RetryCounts(maxRetries, Exec(maxRetries, INIT, steps))
  {
    ReachableOnce(maxRetries, steps);
    Reachable(maxRetries, steps);
    OnceCountsRetries(maxRetries, Exec(maxRetries, INIT, steps));
  }

  lemma OnceCountsRetries(maxRetries: int, s: State)
    requires Inv(maxRetries, s) && Once(maxRetries, s)
    ensures RetryCounts(maxRetries, s)
  {
    forall e | e in s.cells ensures Retries(s.cells[e]) == s.cells[e].audit.failures <= LastAttempt(maxRetries) {
      assert CellOk(s.cells[e]) && Settled(maxRetries, s.cells[e]);
    }
    forall i | 0 <= i < |s.carriers|
      ensures s.carriers[i].event in s.cells
      ensures s.carriers[i].stage.OnEvents? ==> Retries(s.cells[s.carriers[i].event]) == s.carriers[i].attempt - 1
      ensures OutOfAttempts(s.carriers[i].stage) ==> Retries(s.cells[s.carriers[i].event]) == LastAttempt(maxRetries)
    {
      assert CarrierOk(maxRetries, s.carriers[i]) && InStep(s.carriers[i], s.cells[s.carriers[i].event]);
    }
  }

  /** How a copy ended tells what became of its event, for good: a copy lost on the way to the
      events topic leaves it pending, a finished one processed or (its last write failed) processing,
      and one that reached the dead-letter topic never processed. */
  lemma {:induction false} FateOfAnEndedCopy(maxRetries: int, steps: seq<Step>, i: nat)
    requires Legal(maxRetries, INIT, steps) && NoRedelivery(steps)
    requires i < |Exec(maxRetries, INIT, steps).carriers|
    ensures var s := Exec(maxRetries, INIT, steps);
            var c := s.carriers[i];
            && c.event in s.cells
            && (c.stage.Ended? ==>
              var status := s.cells[c.event].row.status;
              && (c.stage.how == NeverPublished || c.stage.how == RetryLost ==> status == P)
              && (c.stage.how == Done ==> status == D || status == G)
              && (c.stage.how == DlqLost || c.stage.how == DlqHandled ==> status == F || status == P))
  {
    ReachableOnce(maxRetries, steps);
    Reachable(maxRetries, steps);
    var s := Exec(maxRetries, INIT, steps);
    var cell := s.cells[s.carriers[i].event];
    assert InStep(s.carriers[i], cell) && CellOk(cell);
  }

  /** Without redelivery an event is written to analytics at most once. */
  lemma {:induction false} WrittenAtMostOnce(maxRetries: int, steps: seq<Step>, e: EventId)
    requires Legal(maxRetries, INIT, steps) && NoRedelivery(steps)
    requires e in Exec(maxRetries, INIT, steps).cells
    ensures RowsOf(Exec(maxRetries, INIT, steps), e) <= 1
  {
    AnalyticsRowsPerEvent(maxRetries, steps, e);
    NoneRedelivered(maxRetries, steps, e);
  }

  lemma {:induction false} NoneRedelivered(maxRetries: int, steps: seq<Step>, e: EventId)
    requires Legal(maxRetries, INIT, steps) && NoRedelivery(steps)
    requires e in Exec(maxRetries, INIT, steps).cells
    ensures Exec(maxRetries, INIT, steps).cells[e].audit.redeliveries == 0
  {
    if |steps| > 0 {
      var n := |steps| - 1;
      var s := Exec(maxRetries, INIT, steps[..n]);
      Reachable(maxRetries, steps[..n]);
      if e in s.cells {
        NoneRedelivered(maxRetries, steps[..n], e);
      }
      if steps[n].Call? {
        CallKeepsRedeliveries(maxRetries, s, steps[n].i, steps[n].reply, e);
      }
    }
  }
}
