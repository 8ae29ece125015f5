/** What the columns of the tables say about the run that wrote them. */
module PipelineColumns {
  import opened Prelude
  import opened Domain
  import opened Pipeline
  import opened PipelineInvariant
  import opened PipelineFinality

  // ----- the rows of webhook_events -----------------------------------------------------------

  /** An answered status write, and the clock it read. */
  datatype Mark = Mark(status: Status, at: nat)

  /** What a run did to an event after its insert: its answered status writes in order, the failed
      deliveries counted, those whose retry increment was not answered, and its redeliveries. */
  datatype Told = Told(marks: seq<Mark>, failures: nat, missed: nat, redeliveries: nat)

  const NOTHING: Told := Told([], 0, 0, 0)

  function TellStep(t: Told, s: State, step: Step, e: EventId): Told
    requires Enabled(s, step)
  {
    match step
    case Call(i, reply) =>
      var c := s.carriers[i];
      if c.event != e then t
      else if c.stage.AtIncrement? then
        t.(failures := t.failures + 1, missed := t.missed + (if reply.ok then 0 else 1))
      else if reply.ok && Writes(c.stage).Some? then
        t.(marks := t.marks + [Mark(Writes(c.stage).value, reply.at)])
      else t
    case Redeliver(msg) => if msg.event == e then t.(redeliveries := t.redeliveries + 1) else t
    case _ => t
  }

  /** What the run `steps` did to event `e`. */
  function Tell(maxRetries: int, steps: seq<Step>, e: EventId): Told
    requires Legal(maxRetries, INIT, steps)
  {
    if |steps| == 0 then NOTHING
    else
      var n := |steps| - 1;
      TellStep(Tell(maxRetries, steps[..n], e), Exec(maxRetries, INIT, steps[..n]), steps[n], e)
  }

  /** The columns that change, and the record kept beside the row, are what the run did: the status is
      the last one written, `processed_at` the clock of that write if it was the processed mark, and the
      retry count the failed deliveries whose increment was answered. */
  ghost predicate ToldBy(cell: Cell, t: Told) {
    var n := |t.marks|;
    && cell.row.status == (if n == 0 then Status.Pending else t.marks[n - 1].status)
    && cell.row.processedAt ==
       (if n > 0 && t.marks[n - 1].status == Status.Processed then Some(t.marks[n - 1].at) else None)
    && cell.row.retryCount + t.missed == t.failures
    && |cell.audit.history| == n + 1 && cell.audit.history[0] == Status.Pending
    && (forall k :: 0 <= k < n ==> cell.audit.history[k + 1] == t.marks[k].status)
    && cell.audit.failures == t.failures && cell.audit.missed == t.missed && cell.audit.redeliveries == t.redeliveries
  }

  ghost predicate EventTold(s: State, t: Told, e: EventId) {
    if e in s.cells then ToldBy(s.cells[e], t) else t == NOTHING
  }

  lemma CallTells(maxRetries: int, c: Carrier, cell: Cell, reply: Reply, t: Told)
    requires Calling(c.stage) && ToldBy(cell, t)
    ensures var r := NextCall(maxRetries, c, Some(cell), reply);
            && r.cell.Some?
            && r.cell.value.row.key == cell.row.key && r.cell.value.row.source == cell.row.source
            && r.cell.value.row.eventType == cell.row.eventType
            && (if c.stage.AtIncrement? then
                  ToldBy(r.cell.value, t.(failures := t.failures + 1, missed := t.missed + (if reply.ok then 0 else 1)))
                else if reply.ok && Writes(c.stage).Some? then
                  ToldBy(r.cell.value, t.(marks := t.marks + [Mark(Writes(c.stage).value, reply.at)]))
                else ToldBy(r.cell.value, t))
  {
  }

  lemma StepTells(maxRetries: int, s: State, step: Step, e: EventId, t: Told)
    requires Inv(maxRetries, s) && Enabled(s, step) && EventTold(s, t, e)
    ensures EventTold(Apply(maxRetries, s, step), TellStep(t, s, step, e), e)
  {
    if step.Call? {
      var c := s.carriers[step.i];
      assert c.event in s.cells;
      if c.event == e {
        CallTells(maxRetries, c, s.cells[e], step.reply, t);
      }
    } else if step.Redeliver? {
      assert step.msg.event in s.cells;
    }
  }

  /** The insert that made the row is in the run, with the row's key, source and event type. */
  ghost predicate Ingested(steps: seq<Step>, e: EventId, row: Row) {
    exists k :: 0 <= k < |steps| && steps[k] == Ingest(e, row.key, row.source, row.eventType, true)
  }

  lemma IngestedSnoc(steps: seq<Step>, step: Step, e: EventId, row: Row)
    requires Ingested(steps, e, row) || step == Ingest(e, row.key, row.source, row.eventType, true)
    ensures Ingested(steps + [step], e, row)
  {
    var all := steps + [step];
    assert all[|steps|] == step;
    if Ingested(steps, e, row) {
      var k :| 0 <= k < |steps| && steps[k] == Ingest(e, row.key, row.source, row.eventType, true);
      assert all[k] == steps[k];
    }
  }

  lemma CallKeepsColumns(maxRetries: int, c: Carrier, cell: Cell, reply: Reply)
    requires Calling(c.stage)
    ensures var r := NextCall(maxRetries, c, Some(cell), reply);
            && r.cell.Some? && r.cell.value.row.key == cell.row.key
            && r.cell.value.row.source == cell.row.source && r.cell.value.row.eventType == cell.row.eventType
  {
  }

  lemma StepKeepsColumns(maxRetries: int, s: State, step: Step, e: EventId)
    requires Inv(maxRetries, s) && Enabled(s, step) && e in Apply(maxRetries, s, step).cells
    ensures var row := Apply(maxRetries, s, step).cells[e].row;
            if e in s.cells then
              && row.key == s.cells[e].row.key && row.source == s.cells[e].row.source
              && row.eventType == s.cells[e].row.eventType
            else step == Ingest(e, row.key, row.source, row.eventType, true)
  {
    if step.Call? {
      var c := s.carriers[step.i];
      assert c.event in s.cells;
      CallKeepsColumns(maxRetries, c, s.cells[c.event], step.reply);
    }
  }

  /** In every run, every column of an event's row, and what is recorded of it beside, is told by the
      steps: by its insert, its answered status writes, its counted failures and its redeliveries. */
  lemma {:induction false} RowsTellTheRun(maxRetries: int, steps: seq<Step>, e: EventId)
    requires Legal(maxRetries, INIT, steps)
    ensures var s := Exec(maxRetries, INIT, steps);
            && EventTold(s, Tell(maxRetries, steps, e), e)
            && (e in s.cells ==> Ingested(steps, e, s.cells[e].row))
  {
    if |steps| > 0 {
      var n := |steps| - 1;
      var s := Exec(maxRetries, INIT, steps[..n]);
      RowsTellTheRun(maxRetries, steps[..n], e);
      Reachable(maxRetries, steps[..n]);
      StepTells(maxRetries, s, steps[n], e, Tell(maxRetries, steps[..n], e));
      var s' := Exec(maxRetries, INIT, steps);
      if e in s'.cells {
        StepKeepsColumns(maxRetries, s, steps[n], e);
        assert steps == steps[..n] + [steps[n]];
        if e in s.cells {
          var k :| 0 <= k < n && steps[k] == Ingest(e, s.cells[e].row.key, s.cells[e].row.source,
                                                    s.cells[e].row.eventType, true);
        } else {
          assert steps[n] == Ingest(e, s'.cells[e].row.key, s'.cells[e].row.source, s'.cells[e].row.eventType, true);
        }
      }
    }
  }

  /** A processed row is stamped with the clock of the answered processed mark that came last among
      the status writes of its event. */
  lemma {:induction false} ProcessedAtIsTheMark(maxRetries: int, steps: seq<Step>, e: EventId)
    requires Legal(maxRetries, INIT, steps) && HasStatus(Exec(maxRetries, INIT, steps), e, Status.Processed)
    ensures var marks := Tell(maxRetries, steps, e).marks;
            && |marks| > 0 && marks[|marks| - 1].status == Status.Processed
            && Exec(maxRetries, INIT, steps).cells[e].row.processedAt == Some(marks[|marks| - 1].at)
  {
    RowsTellTheRun(maxRetries, steps, e);
  }

  // ----- the rows of events_log ---------------------------------------------------------------

  /** Two rows of one event agree on the columns that never change. */
  predicate SameEvent(a: Row, b: Row) {
    a.key == b.key && a.source == b.source && a.eventType == b.eventType
  }

  ghost predicate SnapsAgree(s: State) {
    && (forall i :: 0 <= i < |s.carriers| && (s.carriers[i].stage.AtMarkProcessing? || s.carriers[i].stage.AtWrite?) ==>
          s.carriers[i].event in s.cells && SameEvent(s.carriers[i].stage.snap, s.cells[s.carriers[i].event].row))
    && (forall k :: 0 <= k < |s.analytics| ==>
          && s.analytics[k].event in s.cells
          && s.analytics[k].source == s.cells[s.analytics[k].event].row.source
          && s.analytics[k].eventType == s.cells[s.analytics[k].event].row.eventType)
  }

  /** A snapshot is read from the row, and kept until the write that logs it. */
  lemma CallKeepsSnap(maxRetries: int, c: Carrier, cell: Cell, reply: Reply)
    requires Calling(c.stage)
    requires c.stage.AtMarkProcessing? || c.stage.AtWrite? ==> SameEvent(c.stage.snap, cell.row)
    ensures var r := NextCall(maxRetries, c, Some(cell), reply);
            && r.cell.Some? && r.carrier.event == c.event && SameEvent(r.cell.value.row, cell.row)
            && (r.carrier.stage.AtMarkProcessing? || r.carrier.stage.AtWrite? ==>
                  SameEvent(r.carrier.stage.snap, cell.row))
            && (r.log == [] || (|r.log| == 1 && r.log[0].event == c.event
                                && r.log[0].source == cell.row.source && r.log[0].eventType == cell.row.eventType))
  {
  }

  lemma CallKeepsSnaps(maxRetries: int, s: State, i: nat, reply: Reply)
    requires Inv(maxRetries, s) && SnapsAgree(s) && Enabled(s, Call(i, reply))
    ensures SnapsAgree(Apply(maxRetries, s, Call(i, reply)))
  {
    var c := s.carriers[i];
    var s' := Apply(maxRetries, s, Call(i, reply));
    assert c.event in s.cells;
    CallKeepsSnap(maxRetries, c, s.cells[c.event], reply);
    forall k | 0 <= k < |s'.analytics|
      ensures s'.analytics[k].event in s'.cells
              && s'.analytics[k].source == s'.cells[s'.analytics[k].event].row.source
              && s'.analytics[k].eventType == s'.cells[s'.analytics[k].event].row.eventType
    {
      if k < |s.analytics| {
        assert s'.analytics[k] == s.analytics[k];
      }
    }
  }

  lemma OtherKeepsSnaps(maxRetries: int, s: State, step: Step)
    requires Inv(maxRetries, s) && SnapsAgree(s) && Enabled(s, step) && !step.Call?
    ensures SnapsAgree(Apply(maxRetries, s, step))
  {
    if step.Redeliver? {
      assert step.msg.event in s.cells;
    }
  }

  /** In every run each analytics row carries the source and the event type of its event. */
  lemma {:induction false} LogRowsTellTheirEvent(maxRetries: int, steps: seq<Step>)
    requires Legal(maxRetries, INIT, steps)
    ensures SnapsAgree(Exec(maxRetries, INIT, steps))
  {
    if |steps| > 0 {
      var n := |steps| - 1;
      var s := Exec(maxRetries, INIT, steps[..n]);
      LogRowsTellTheirEvent(maxRetries, steps[..n]);
      Reachable(maxRetries, steps[..n]);
      if steps[n].Call? {
        CallKeepsSnaps(maxRetries, s, steps[n].i, steps[n].reply);
      } else {
        OtherKeepsSnaps(maxRetries, s, steps[n]);
      }
    }
  }

  // ----- the counts -----------------------------------------------------------------------------

  function Inserts(): Step -> bool {
    (step: Step) => step.Ingest? && step.ok
  }

  function Redeliveries(): Step -> bool {
    (step: Step) => step.Redeliver?
  }

  function DlqRedeliveries(): Step -> bool {
    (step: Step) => step.RedeliverDlq?
  }

  function RedeliveriesOf(e: EventId): Step -> bool {
    (step: Step) => step.Redeliver? && step.msg.event == e
  }

  lemma StepCounts(maxRetries: int, s: State, step: Step)
    requires Enabled(s, step)
    ensures var s' := Apply(maxRetries, s, step);
            && s'.inserted == s.inserted + (if step.Ingest? && step.ok then 1 else 0)
            && s'.redelivered == s.redelivered + (if step.Redeliver? then 1 else 0)
            && s'.dlqRedelivered == s.dlqRedelivered + (if step.RedeliverDlq? then 1 else 0)
  {
  }

  /** The counts kept in the state are those of the steps. */
  lemma {:induction false} CountsTellTheRun(maxRetries: int, steps: seq<Step>)
    requires Legal(maxRetries, INIT, steps)
    ensures var s := Exec(maxRetries, INIT, steps);
            && s.inserted == Count(steps, Inserts()) && s.redelivered == Count(steps, Redeliveries())
            && s.dlqRedelivered == Count(steps, DlqRedeliveries())
  {
    if |steps| > 0 {
      var n := |steps| - 1;
      CountsTellTheRun(maxRetries, steps[..n]);
      StepCounts(maxRetries, Exec(maxRetries, INIT, steps[..n]), steps[n]);
    }
  }

  lemma {:induction false} RedeliveriesCounted(maxRetries: int, steps: seq<Step>, e: EventId)
    requires Legal(maxRetries, INIT, steps)
    ensures Tell(maxRetries, steps, e).redeliveries == Count(steps, RedeliveriesOf(e))
  {
    if |steps| > 0 {
      RedeliveriesCounted(maxRetries, steps[..|steps| - 1], e);
    }
  }

  /** However deliveries interleave, fail and repeat, an event has at most one analytics row more than
      the run has redeliveries of it on the events topic. */
  lemma {:induction false} LogRowsOfAnEvent(maxRetries: int, steps: seq<Step>, e: EventId)
    requires Legal(maxRetries, INIT, steps) && e in Exec(maxRetries, INIT, steps).cells
    ensures RowsOf(Exec(maxRetries, INIT, steps), e) <= 1 + Count(steps, RedeliveriesOf(e))
  {
    AnalyticsRowsPerEvent(maxRetries, steps, e);
    RowsTellTheRun(maxRetries, steps, e);
    RedeliveriesCounted(maxRetries, steps, e);
  }
}
