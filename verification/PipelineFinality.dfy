/**
 Which statuses are final. No SQL statement guards a status change, so an event leaves its status
 exactly when some copy of its message gets a call through that writes another one.
 */
module PipelineFinality {
  import opened Prelude
  import opened Domain
  import opened Pipeline
  import opened PipelineInvariant

  predicate HasStatus(s: State, e: EventId, status: Status) {
    e in s.cells && s.cells[e].row.status == status
  }

  /** The status the call at `stage` writes, if it writes one. */
  function Writes(stage: Stage): Option<Status> {
    match stage
    case AtMarkProcessing(_) => Some(Status.Processing)
    case AtMarkProcessed => Some(Status.Processed)
    case AtMarkFailed => Some(Status.Failed)
    case AtDlqMark => Some(Status.Failed)
    case _ => None
  }

  /** The step is an answered call, made for a copy of event `e`, that writes a status other than
      `status`. */
  predicate Overwrites(s: State, step: Step, e: EventId, status: Status)
    requires Enabled(s, step)
  {
    && step.Call? && step.reply.ok
    && var c := s.carriers[step.i];
       c.event == e && Writes(c.stage).Some? && Writes(c.stage).value != status
  }

  /** An answered call leaves the status it writes, if any; any other call leaves the status alone. */
  lemma CallWrites(maxRetries: int, c: Carrier, cell: Cell, reply: Reply)
    requires Calling(c.stage)
    ensures var r := NextCall(maxRetries, c, Some(cell), reply);
            && r.cell.Some?
            && r.cell.value.row.status ==
               if reply.ok && Writes(c.stage).Some? then Writes(c.stage).value else cell.row.status
  {
  }

  lemma CallKeepsStatusIff(maxRetries: int, s: State, i: nat, reply: Reply, e: EventId, status: Status)
    requires Inv(maxRetries, s) && Enabled(s, Call(i, reply)) && HasStatus(s, e, status)
    ensures HasStatus(Apply(maxRetries, s, Call(i, reply)), e, status) <==> !Overwrites(s, Call(i, reply), e, status)
  {
    var c := s.carriers[i];
    var cell := s.cells[c.event];
    CallWrites(maxRetries, c, cell, reply);
    var r := NextCall(maxRetries, c, Some(cell), reply);
    assert Apply(maxRetries, s, Call(i, reply)).cells == s.cells[c.event := r.cell.value];
  }

  lemma StepKeepsStatusIff(maxRetries: int, s: State, step: Step, e: EventId, status: Status)
    requires Inv(maxRetries, s) && Enabled(s, step) && HasStatus(s, e, status)
    ensures HasStatus(Apply(maxRetries, s, step), e, status) <==> !Overwrites(s, step, e, status)
  {
    if step.Call? {
      CallKeepsStatusIff(maxRetries, s, step.i, step.reply, e, status);
    }
  }

  /** The `j`-th step of a run keeps the status exactly when it does not overwrite it. */
  lemma {:induction false} RunKeepsStatusIff(maxRetries: int, steps: seq<Step>, j: nat, e: EventId, status: Status)
    requires Legal(maxRetries, INIT, steps) && j < |steps|
    requires HasStatus(StateAt(maxRetries, steps, j), e, status)
    ensures HasStatus(StateAt(maxRetries, steps, j + 1), e, status) <==>
            !Overwrites(StateAt(maxRetries, steps, j), steps[j], e, status)
  {
    NextState(maxRetries, steps, j);
    LegalPrefix(maxRetries, INIT, steps, j);
    Reachable(maxRetries, steps[..j]);
    StepKeepsStatusIff(maxRetries, StateAt(maxRetries, steps, j), steps[j], e, status);
  }

  /** Event `e` has `status` from after the `k`-th step of the run to its end. */
  ghost predicate Throughout(maxRetries: int, steps: seq<Step>, k: nat, e: EventId, status: Status)
    requires Legal(maxRetries, INIT, steps)
  {
    forall j :: k <= j <= |steps| ==> HasStatus(StateAt(maxRetries, steps, j), e, status)
  }

  /** No step after the `k`-th writes another status to event `e`. */
  ghost predicate NeverOverwritten(maxRetries: int, steps: seq<Step>, k: nat, e: EventId, status: Status)
    requires Legal(maxRetries, INIT, steps)
  {
    forall j :: k <= j < |steps| ==> !Overwrites(StateAt(maxRetries, steps, j), steps[j], e, status)
  }

  lemma {:induction false} KeptUpTo(maxRetries: int, steps: seq<Step>, k: nat, n: nat, e: EventId, status: Status)
    requires Legal(maxRetries, INIT, steps) && k <= n <= |steps|
    requires HasStatus(StateAt(maxRetries, steps, k), e, status)
    requires NeverOverwritten(maxRetries, steps, k, e, status)
    ensures HasStatus(StateAt(maxRetries, steps, n), e, status)
    decreases n
  {
    if k < n {
      KeptUpTo(maxRetries, steps, k, n - 1, e, status);
      RunKeepsStatusIff(maxRetries, steps, n - 1, e, status);
    }
  }

  /** In every run, with any interleaving, failures, crashes and redeliveries, an event that has a
      status after `k` steps keeps it to the end if and only if no later step is an answered call of
      one of its copies that writes another status. */
  lemma {:induction false} StatusKeptIff(maxRetries: int, steps: seq<Step>, k: nat, e: EventId, status: Status)
    requires Legal(maxRetries, INIT, steps) && k <= |steps|
    requires HasStatus(StateAt(maxRetries, steps, k), e, status)
    ensures Throughout(maxRetries, steps, k, e, status) <==> NeverOverwritten(maxRetries, steps, k, e, status)
  {
    if NeverOverwritten(maxRetries, steps, k, e, status) {
      forall n | k <= n <= |steps| ensures HasStatus(StateAt(maxRetries, steps, n), e, status) {
        KeptUpTo(maxRetries, steps, k, n, e, status);
      }
    } else {
      var j :| k <= j < |steps| && Overwrites(StateAt(maxRetries, steps, j), steps[j], e, status);
      if Throughout(maxRetries, steps, k, e, status) {
        RunKeepsStatusIff(maxRetries, steps, j, e, status);
      }
    }
  }

  /** The step is an answered call of a copy of event `e` standing at one of three places: it read
      the row before the event was processed, or it could not read or mark it on the last attempt, or
      it is a dead letter. */
  predicate UndoesProcessed(s: State, step: Step, e: EventId)
    requires Enabled(s, step)
  {
    && step.Call? && step.reply.ok && s.carriers[step.i].event == e
    && var stage := s.carriers[step.i].stage;
       stage.AtMarkProcessing? || stage.AtMarkFailed? || stage.AtDlqMark?
  }

  /** The step is an answered call of a copy of event `e` that read the row before it failed. */
  predicate UndoesFailed(s: State, step: Step, e: EventId)
    requires Enabled(s, step)
  {
    && step.Call? && step.reply.ok && s.carriers[step.i].event == e
    && (s.carriers[step.i].stage.AtMarkProcessing? || s.carriers[step.i].stage.AtMarkProcessed?)
  }

  /** Processed is final in a run exactly when no such call is answered. */
  lemma {:induction false} ProcessedStaysIff(maxRetries: int, steps: seq<Step>, k: nat, e: EventId)
    requires Legal(maxRetries, INIT, steps) && k <= |steps|
    requires HasStatus(StateAt(maxRetries, steps, k), e, Status.Processed)
    ensures Throughout(maxRetries, steps, k, e, Status.Processed) <==>
            forall j :: k <= j < |steps| ==> !UndoesProcessed(StateAt(maxRetries, steps, j), steps[j], e)
  {
    StatusKeptIff(maxRetries, steps, k, e, Status.Processed);
    forall j | k <= j < |steps|
      ensures UndoesProcessed(StateAt(maxRetries, steps, j), steps[j], e) <==>
              Overwrites(StateAt(maxRetries, steps, j), steps[j], e, Status.Processed)
    {
    }
  }

  /** So is failed. */
  lemma {:induction false} FailedStaysIff(maxRetries: int, steps: seq<Step>, k: nat, e: EventId)
    requires Legal(maxRetries, INIT, steps) && k <= |steps|
    requires HasStatus(StateAt(maxRetries, steps, k), e, Status.Failed)
    ensures Throughout(maxRetries, steps, k, e, Status.Failed) <==>
            forall j :: k <= j < |steps| ==> !UndoesFailed(StateAt(maxRetries, steps, j), steps[j], e)
  {
    StatusKeptIff(maxRetries, steps, k, e, Status.Failed);
    forall j | k <= j < |steps|
      ensures UndoesFailed(StateAt(maxRetries, steps, j), steps[j], e) <==>
              Overwrites(StateAt(maxRetries, steps, j), steps[j], e, Status.Failed)
    {
    }
  }

  /** A dead letter belongs to a failed event, from the mark before its publish to the end of the run,
      exactly when that mark is answered or comes to a failed row, and no later call of a copy that
      read the row before undoes it. */
  lemma {:induction false} DeadLetterStaysFailedIff(maxRetries: int, steps: seq<Step>, k: nat, e: EventId)
    requires Legal(maxRetries, INIT, steps) && k < |steps| && steps[k].Call?
    requires var c := StateAt(maxRetries, steps, k).carriers[steps[k].i]; c.stage.AtMarkFailed? && c.event == e
    ensures var s := StateAt(maxRetries, steps, k + 1);
            steps[k].i < |s.carriers| && s.carriers[steps[k].i].stage.AtPublishDlq?
    ensures Throughout(maxRetries, steps, k + 1, e, Status.Failed) <==>
            && (steps[k].reply.ok || HasStatus(StateAt(maxRetries, steps, k), e, Status.Failed))
            && forall j :: k < j < |steps| ==> !UndoesFailed(StateAt(maxRetries, steps, j), steps[j], e)
  {
    MarkFailedIff(maxRetries, steps, k, e);
    if HasStatus(StateAt(maxRetries, steps, k + 1), e, Status.Failed) {
      FailedStaysIff(maxRetries, steps, k + 1, e);
    }
  }

  lemma {:induction false} MarkFailedIff(maxRetries: int, steps: seq<Step>, k: nat, e: EventId)
    requires Legal(maxRetries, INIT, steps) && k < |steps| && steps[k].Call?
    requires var c := StateAt(maxRetries, steps, k).carriers[steps[k].i]; c.stage.AtMarkFailed? && c.event == e
    ensures var s := StateAt(maxRetries, steps, k + 1);
            && steps[k].i < |s.carriers| && s.carriers[steps[k].i].stage.AtPublishDlq?
            && (HasStatus(s, e, Status.Failed) <==>
                steps[k].reply.ok || HasStatus(StateAt(maxRetries, steps, k), e, Status.Failed))
  {
    NextState(maxRetries, steps, k);
    LegalPrefix(maxRetries, INIT, steps, k);
    Reachable(maxRetries, steps[..k]);
    var s := StateAt(maxRetries, steps, k);
    CallWrites(maxRetries, s.carriers[steps[k].i], s.cells[e], steps[k].reply);
  }

  // ----- where a fetched message goes -------------------------------------------------------

  /** On the way through `handleFailure` to a publish. */
  predicate OnTheWayOut(stage: Stage) {
    stage.AtIncrement? || stage.AtMarkFailed? || stage.AtPublishRetry? || stage.AtPublishDlq?
  }

  /** The step is an unanswered call of copy `i` that reads its row, or marks the row it read open. */
  predicate FailsToStart(s: State, step: Step, i: nat)
    requires Enabled(s, step)
  {
    && step.Call? && step.i == i && !step.reply.ok
    && (s.carriers[i].stage.AtFind? || s.carriers[i].stage.AtMarkProcessing?)
  }

  lemma StepTurnsOutIff(maxRetries: int, s: State, step: Step, i: nat)
    requires Inv(maxRetries, s) && Enabled(s, step) && i < |s.carriers| && InDelivery(s.carriers[i].stage)
    ensures var s' := Apply(maxRetries, s, step);
            && i < |s'.carriers|
            && (InDelivery(s'.carriers[i].stage) ==>
                (OnTheWayOut(s'.carriers[i].stage) <==> OnTheWayOut(s.carriers[i].stage) || FailsToStart(s, step, i)))
  {
    assert s.carriers[i].event in s.cells;
  }

  /** Copy `i` is in delivery after each of the steps from the `k`-th to the `n`-th. */
  ghost predicate InDeliveryFrom(maxRetries: int, steps: seq<Step>, k: nat, n: nat, i: nat)
    requires Legal(maxRetries, INIT, steps) && n <= |steps|
  {
    forall j :: k <= j <= n ==>
      i < |StateAt(maxRetries, steps, j).carriers| && InDelivery(StateAt(maxRetries, steps, j).carriers[i].stage)
  }

  /** One of the steps from the `k`-th to before the `n`-th is such an unanswered call. */
  ghost predicate FailedToStart(maxRetries: int, steps: seq<Step>, k: nat, n: nat, i: nat)
    requires Legal(maxRetries, INIT, steps) && n <= |steps|
  {
    exists j :: k <= j < n && FailsToStart(StateAt(maxRetries, steps, j), steps[j], i)
  }

  lemma {:induction false} RunTurnsOutIff(maxRetries: int, steps: seq<Step>, j: nat, i: nat)
    requires Legal(maxRetries, INIT, steps) && j < |steps|
    requires i < |StateAt(maxRetries, steps, j).carriers| && InDelivery(StateAt(maxRetries, steps, j).carriers[i].stage)
    ensures var s, s' := StateAt(maxRetries, steps, j), StateAt(maxRetries, steps, j + 1);
            && i < |s'.carriers|
            && (InDelivery(s'.carriers[i].stage) ==>
                (OnTheWayOut(s'.carriers[i].stage) <==> OnTheWayOut(s.carriers[i].stage) || FailsToStart(s, steps[j], i)))
  {
    NextState(maxRetries, steps, j);
    LegalPrefix(maxRetries, INIT, steps, j);
    Reachable(maxRetries, steps[..j]);
    StepTurnsOutIff(maxRetries, StateAt(maxRetries, steps, j), steps[j], i);
  }

  /** Copy `i` is on the way out after the `n`-th step. */
  ghost predicate OutAt(maxRetries: int, steps: seq<Step>, n: nat, i: nat)
    requires Legal(maxRetries, INIT, steps) && n <= |steps|
  {
    i < |StateAt(maxRetries, steps, n).carriers| && OnTheWayOut(StateAt(maxRetries, steps, n).carriers[i].stage)
  }

  lemma {:induction false} OutNextIff(maxRetries: int, steps: seq<Step>, k: nat, n: nat, i: nat)
    requires Legal(maxRetries, INIT, steps) && k < n <= |steps|
    requires InDeliveryFrom(maxRetries, steps, k, n, i)
    ensures OutAt(maxRetries, steps, n, i) <==>
            OutAt(maxRetries, steps, n - 1, i) || FailsToStart(StateAt(maxRetries, steps, n - 1), steps[n - 1], i)
  {
    RunTurnsOutIff(maxRetries, steps, n - 1, i);
  }

  /** What each step turns on, and none turns off, is on once some step turned it on. */
  lemma {:induction false} SwitchedOn(on: nat -> bool, turns: nat -> bool, k: nat, n: nat)
    requires k <= n && !on(k)
    requires forall j :: k <= j < n ==> (on(j + 1) <==> on(j) || turns(j))
    ensures on(n) <==> exists j :: k <= j < n && turns(j)
    decreases n
  {
    if k < n {
      SwitchedOn(on, turns, k, n - 1);
      assert on(n - 1 + 1) <==> on(n - 1) || turns(n - 1);
    }
  }

  lemma {:induction false} TurnedOutIff(maxRetries: int, steps: seq<Step>, k: nat, n: nat, i: nat)
    requires Legal(maxRetries, INIT, steps) && k <= n <= |steps|
    requires InDeliveryFrom(maxRetries, steps, k, n, i) && !OutAt(maxRetries, steps, k, i)
    ensures OutAt(maxRetries, steps, n, i) <==> FailedToStart(maxRetries, steps, k, n, i)
  {
    var on := (j: nat) => j <= n && OutAt(maxRetries, steps, j, i);
    var turns := (j: nat) => j < n && FailsToStart(StateAt(maxRetries, steps, j), steps[j], i);
    forall j | k <= j < n ensures on(j + 1) <==> on(j) || turns(j) {
      OutNextIff(maxRetries, steps, k, j + 1, i);
    }
    SwitchedOn(on, turns, k, n);
    assert forall j :: k <= j < n ==> (turns(j) <==> FailsToStart(StateAt(maxRetries, steps, j), steps[j], i));
  }

  lemma LastCallEnds(maxRetries: int, c: Carrier, cell: Cell, reply: Reply)
    requires InDelivery(c.stage) && !InDelivery(NextCall(maxRetries, c, Some(cell), reply).carrier.stage)
    ensures var stage := NextCall(maxRetries, c, Some(cell), reply).carrier.stage;
            && (stage == Ended(RetryLost) || stage == Ended(DlqLost) <==> OnTheWayOut(c.stage) && !reply.ok)
            && (stage.OnEvents? || stage.OnDlq? <==> OnTheWayOut(c.stage) && reply.ok)
  {
  }

  lemma LastCallLosesIff(maxRetries: int, s: State, step: Step, i: nat)
    requires Inv(maxRetries, s) && Enabled(s, step) && i < |s.carriers| && InDelivery(s.carriers[i].stage)
    requires !InDelivery(Apply(maxRetries, s, step).carriers[i].stage)
    ensures var stage := Apply(maxRetries, s, step).carriers[i].stage;
            && (stage == Ended(RetryLost) || stage == Ended(DlqLost) <==>
                OnTheWayOut(s.carriers[i].stage) && step.Call? && !step.reply.ok)
            && (stage.OnEvents? || stage.OnDlq? <==>
                OnTheWayOut(s.carriers[i].stage) && step.Call? && step.reply.ok)
  {
    var c := s.carriers[i];
    assert c.event in s.cells;
    if step.Call? {
      assert step.i == i;
      LastCallEnds(maxRetries, c, s.cells[c.event], step.reply);
    }
  }

  /** In every run, whatever interleaves with it: a copy fetched at step `k` whose delivery ends with
      step `n` is lost if and only if the read of its row, or the processing mark of a row it read as
      open, was not answered, and step `n` is an unanswered call; it is passed on, to the events or
      the dead-letter topic, if and only if the first holds and step `n` is an answered call. */
  lemma {:induction false} FetchedIsLostIff(maxRetries: int, steps: seq<Step>, k: nat, n: nat, i: nat)
    requires Legal(maxRetries, INIT, steps) && k < n < |steps| && steps[k] == Fetch(i)
    requires StateAt(maxRetries, steps, k).carriers[i].stage.OnEvents?
    requires InDeliveryFrom(maxRetries, steps, k + 1, n, i)
    requires i < |StateAt(maxRetries, steps, n + 1).carriers|
    requires !InDelivery(StateAt(maxRetries, steps, n + 1).carriers[i].stage)
    ensures var stage := StateAt(maxRetries, steps, n + 1).carriers[i].stage;
            && (stage == Ended(RetryLost) || stage == Ended(DlqLost) <==>
                FailedToStart(maxRetries, steps, k + 1, n, i) && steps[n].Call? && !steps[n].reply.ok)
            && (stage.OnEvents? || stage.OnDlq? <==>
                FailedToStart(maxRetries, steps, k + 1, n, i) && steps[n].Call? && steps[n].reply.ok)
  {
    NextState(maxRetries, steps, k);
    TurnedOutIff(maxRetries, steps, k + 1, n, i);
    NextState(maxRetries, steps, n);
    LegalPrefix(maxRetries, INIT, steps, n);
    Reachable(maxRetries, steps[..n]);
    LastCallLosesIff(maxRetries, StateAt(maxRetries, steps, n), steps[n], i);
  }
}
