/**
 Runs in which the broker may deliver a message again and again, also after a crash between two
 calls, but no two deliveries of one event overlap and neither `FindByID` nor the write of the
 failed status fails. Deliveries of different events, ingestion and the dead-letter handler interleave.
 */
module PipelineSerial {
  import opened Prelude
  import opened Domain
  import opened Pipeline
  import opened PipelineInvariant

  /** No delivery of event `e` is under way. */
  ghost predicate Idle(s: State, e: EventId) {
    forall i :: 0 <= i < |s.carriers| && s.carriers[i].event == e ==> !InDelivery(s.carriers[i].stage)
  }

  /** The restriction on one step. */
  ghost predicate Serial(s: State, step: Step)
    requires Enabled(s, step)
  {
    match step
    case Fetch(i) => s.carriers[i].stage.OnEvents? ==> Idle(s, s.carriers[i].event)
    case Call(i, reply) => s.carriers[i].stage.AtFind? || s.carriers[i].stage.AtMarkFailed? ==> reply.ok
    case _ => true
  }

  ghost predicate SerialRun(maxRetries: int, s: State, steps: seq<Step>) {
    Legal(maxRetries, s, steps) &&
    (|steps| == 0 || (SerialRun(maxRetries, s, steps[..|steps| - 1])
                      && Serial(Exec(maxRetries, s, steps[..|steps| - 1]), steps[|steps| - 1])))
  }

  /** What a carrier's stage says about the status of its row. */
  predicate Agrees(stage: Stage, status: Status) {
    match stage
    case AtMarkProcessing(_) => !Terminal(status)
    case AtWrite(_) => status == Status.Processing
    case AtMarkProcessed => status == Status.Processing
    case AtIncrement => !Terminal(status)
    case AtMarkFailed => !Terminal(status)
    case AtPublishRetry => !Terminal(status)
    case AtPublishDlq => status == Status.Failed
    case OnDlq => status == Status.Failed
    case AtDlqMark => status == Status.Failed
    case _ => true
  }

  ghost predicate SerialInv(s: State) {
    && (forall i, j | 0 <= i < j < |s.carriers| && s.carriers[i].event == s.carriers[j].event ::
          !InDelivery(s.carriers[i].stage) || !InDelivery(s.carriers[j].stage))
    && (forall i :: 0 <= i < |s.carriers| ==>
          s.carriers[i].event in s.cells && Agrees(s.carriers[i].stage, s.cells[s.carriers[i].event].row.status))
    && (forall m :: m in s.dlqDelivered ==> m.event in s.cells && s.cells[m.event].row.status == Status.Failed)
  }

  /** A call keeps its carrier in agreement with its row, and changes neither a processed nor a
      failed row. */
  lemma CallAgrees(maxRetries: int, c: Carrier, cell: Cell, reply: Reply)
    requires Calling(c.stage) && CellOk(cell) && Agrees(c.stage, cell.row.status)
    requires c.stage.AtFind? || c.stage.AtMarkFailed? ==> reply.ok
    ensures var r := NextCall(maxRetries, c, Some(cell), reply);
            && r.cell.Some? && r.carrier.event == c.event
            && Agrees(r.carrier.stage, r.cell.value.row.status)
            && (InDelivery(r.carrier.stage) ==> InDelivery(c.stage))
            && (Terminal(cell.row.status) ==> r.cell.value.row == cell.row && r.log == [])
            && (!InDelivery(c.stage) ==> r.cell.value.row == cell.row)
  {
  }

  /** Rows that were processed or failed are as they were. */
  ghost predicate KeepsTerminal(s: State, s': State) {
    forall e :: e in s.cells ==>
      e in s'.cells && (Terminal(s.cells[e].row.status) ==> s'.cells[e].row == s.cells[e].row)
  }

  lemma {:induction false} StepKeepsSerial(maxRetries: int, s: State, step: Step)
    requires Inv(maxRetries, s) && SerialInv(s) && Enabled(s, step) && Serial(s, step)
    ensures SerialInv(Apply(maxRetries, s, step)) && KeepsTerminal(s, Apply(maxRetries, s, step))
  {
    match step
    case Call(i, reply) => CallKeepsSerial(maxRetries, s, i, reply);
    case Fetch(_) => MoveKeepsSerial(maxRetries, s, step);
    case Crash(_) => MoveKeepsSerial(maxRetries, s, step);
    case Ingest(_, _, _, _, _) => IngestKeepsSerial(maxRetries, s, step);
    case Redeliver(msg) => ArrivalKeepsSerial(maxRetries, s, step, msg);
    case RedeliverDlq(msg) => ArrivalKeepsSerial(maxRetries, s, step, msg);
  }

  lemma MoveKeepsSerial(maxRetries: int, s: State, step: Step)
    requires SerialInv(s) && Enabled(s, step) && Serial(s, step) && (step.Fetch? || step.Crash?)
    ensures SerialInv(Apply(maxRetries, s, step)) && KeepsTerminal(s, Apply(maxRetries, s, step))
  {
    var i := HandledCopy(step);
    assert s.carriers[i].event in s.cells && Agrees(s.carriers[i].stage, s.cells[s.carriers[i].event].row.status);
  }

  lemma IngestKeepsSerial(maxRetries: int, s: State, step: Step)
    requires Inv(maxRetries, s) && SerialInv(s) && Enabled(s, step) && step.Ingest?
    ensures SerialInv(Apply(maxRetries, s, step)) && KeepsTerminal(s, Apply(maxRetries, s, step))
  {
  }

  lemma ArrivalKeepsSerial(maxRetries: int, s: State, step: Step, msg: Msg)
    requires Inv(maxRetries, s) && SerialInv(s) && Enabled(s, step)
    requires step == Redeliver(msg) || step == RedeliverDlq(msg)
    ensures SerialInv(Apply(maxRetries, s, step)) && KeepsTerminal(s, Apply(maxRetries, s, step))
  {
    assert msg.event in s.cells;
  }

  lemma {:induction false} CallKeepsSerial(maxRetries: int, s: State, i: nat, reply: Reply)
    requires Inv(maxRetries, s) && SerialInv(s) && Enabled(s, Call(i, reply)) && Serial(s, Call(i, reply))
    ensures var s' := Apply(maxRetries, s, Call(i, reply));
            SerialInv(s') && KeepsTerminal(s, s')
  {
    var c := s.carriers[i];
    var s' := Apply(maxRetries, s, Call(i, reply));
    CallAgrees(maxRetries, c, s.cells[c.event], reply);
    forall j | 0 <= j < |s'.carriers|
      ensures s'.carriers[j].event in s'.cells && Agrees(s'.carriers[j].stage, s'.cells[s'.carriers[j].event].row.status)
    {
      if j != i && s.carriers[j].event == c.event {
        // Another copy of the same event is not being processed while this one is.
        assert InDelivery(c.stage) ==> !InDelivery(s.carriers[j].stage);
      }
    }
  }

  lemma {:induction false} ReachableSerial(maxRetries: int, steps: seq<Step>)
    requires SerialRun(maxRetries, INIT, steps)
    ensures SerialInv(Exec(maxRetries, INIT, steps))
  {
    if |steps| > 0 {
      var n := |steps| - 1;
      ReachableSerial(maxRetries, steps[..n]);
      Reachable(maxRetries, steps[..n]);
      StepKeepsSerial(maxRetries, Exec(maxRetries, INIT, steps[..n]), steps[n]);
    }
  }

  /** Every dead-letter message belongs to an event that is already marked failed. */
  lemma {:induction false} DeadLettersAreFailed(maxRetries: int, steps: seq<Step>, i: nat)
    requires SerialRun(maxRetries, INIT, steps)
    requires i < |Exec(maxRetries, INIT, steps).carriers| && Exec(maxRetries, INIT, steps).carriers[i].stage.OnDlq?
    ensures var s := Exec(maxRetries, INIT, steps);
            s.carriers[i].event in s.cells && s.cells[s.carriers[i].event].row.status == Status.Failed
  {
    ReachableSerial(maxRetries, steps);
  }

  lemma {:induction false} SerialPrefix(maxRetries: int, s: State, steps: seq<Step>, k: nat)
    requires SerialRun(maxRetries, s, steps) && k <= |steps|
    ensures SerialRun(maxRetries, s, steps[..k])
  {
    if k == |steps| {
      assert steps[..k] == steps;
    } else {
      SerialPrefix(maxRetries, s, steps[..|steps| - 1], k);
      assert steps[..|steps| - 1][..k] == steps[..k];
    }
  }

  /** Processed and failed are absorbing: if a row is in either after the first `k` steps of a run,
      the rest of the run, with any redeliveries and crashes, changes no column of it. */
  lemma {:induction false} TerminalForever(maxRetries: int, steps: seq<Step>, k: nat, e: EventId)
    requires SerialRun(maxRetries, INIT, steps) && k <= |steps|
    ensures Legal(maxRetries, INIT, steps[..k])
    ensures var s, s' := Exec(maxRetries, INIT, steps[..k]), Exec(maxRetries, INIT, steps);
            e in s.cells && Terminal(s.cells[e].row.status) ==> e in s'.cells && s'.cells[e].row == s.cells[e].row
  {
    SerialPrefix(maxRetries, INIT, steps, k);
    if k == |steps| {
      assert steps[..k] == steps;
    } else {
      var n := |steps| - 1;
      TerminalForever(maxRetries, steps[..n], k, e);
      assert steps[..n][..k] == steps[..k];
      ReachableSerial(maxRetries, steps[..n]);
      Reachable(maxRetries, steps[..n]);
      StepKeepsSerial(maxRetries, Exec(maxRetries, INIT, steps[..n]), steps[n]);
    }
  }

  /** Delivering a message of a processed or failed event uses the copy up and leaves every row,
      topic and analytics row as it was. */
  lemma DeliveryToTerminalIsIdle(maxRetries: int, s: State, i: nat, at: nat)
    requires i < |s.carriers| && s.carriers[i].stage.OnEvents?
    requires s.carriers[i].event in s.cells && Terminal(s.cells[s.carriers[i].event].row.status)
    ensures var steps := [Fetch(i), Call(i, Reply(true, at))];
            Legal(maxRetries, s, steps) &&
            var s' := Exec(maxRetries, s, steps);
            && s'.cells == s.cells && s'.analytics == s.analytics
            && s'.carriers == s.carriers[i := s.carriers[i].(stage := Ended(Done))]
            && forall reply :: !Enabled(s', Call(i, reply))
  {
    ExecSnoc(maxRetries, s, [], Fetch(i));
    ExecSnoc(maxRetries, s, [Fetch(i)], Call(i, Reply(true, at)));
    assert [] + [Fetch(i)] == [Fetch(i)];
    assert [Fetch(i)] + [Call(i, Reply(true, at))] == [Fetch(i), Call(i, Reply(true, at))];
  }
}
