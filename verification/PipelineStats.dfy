/** From the pipeline to the statistics: what the daily counts say about the events. */
module PipelineStats {
  import opened Prelude
  import opened Domain
  import opened Pipeline
  import opened PipelineInvariant
  import opened DailyStats

  function Writer(): Carrier -> bool {
    (c: Carrier) => MayWrite(c.stage)
  }

  /** Every analytics row was paid for by a message copy that can no longer write one. */
  ghost predicate Paid(s: State) {
    |s.analytics| + Count(s.carriers, Writer()) <= s.inserted + s.redelivered
  }

  lemma CallKeepsPaid(maxRetries: int, s: State, i: nat, reply: Reply)
    requires Paid(s) && Enabled(s, Step.Call(i, reply))
    ensures Paid(Apply(maxRetries, s, Step.Call(i, reply)))
  {
    var c := s.carriers[i];
    var r := NextCall(maxRetries, c, Lookup(s.cells, c.event), reply);
    CallWritesOnce(maxRetries, c, Lookup(s.cells, c.event), reply);
    CountUpdate(s.carriers, i, r.carrier, Writer());
  }

  lemma StepKeepsPaid(maxRetries: int, s: State, step: Step)
    requires Paid(s) && Enabled(s, step)
    ensures Paid(Apply(maxRetries, s, step))
  {
    var s' := Apply(maxRetries, s, step);
    if step.Call? {
      CallKeepsPaid(maxRetries, s, step.i, step.reply);
    } else if step.Fetch? || step.Crash? {
      var i := HandledCopy(step);
      CountUpdate(s.carriers, i, s'.carriers[i], Writer());
    } else if s' != s {
      CountSnoc(s.carriers, s'.carriers[|s.carriers|], Writer());
    }
  }

  lemma {:induction false} ReachablePaid(maxRetries: int, steps: seq<Step>)
    requires Legal(maxRetries, INIT, steps)
    ensures Paid(Exec(maxRetries, INIT, steps))
  {
    if |steps| > 0 {
      var n := |steps| - 1;
      ReachablePaid(maxRetries, steps[..n]);
      StepKeepsPaid(maxRetries, Exec(maxRetries, INIT, steps[..n]), steps[n]);
    }
  }

  /** A call that writes to analytics, and is answered. */
  predicate LogsEvent(s: State, step: Step)
    requires Enabled(s, step)
  {
    step.Call? && s.carriers[step.i].stage.AtWrite? && step.reply.ok
  }

  /** The successful `WriteEvent` calls of a run. */
  function WriteCalls(maxRetries: int, steps: seq<Step>): nat
    requires Legal(maxRetries, INIT, steps)
  {
    if |steps| == 0 then 0
    else WriteCalls(maxRetries, steps[..|steps| - 1]) +
         (if LogsEvent(Exec(maxRetries, INIT, steps[..|steps| - 1]), steps[|steps| - 1]) then 1 else 0)
  }

  lemma {:induction false} WritesAreRows(maxRetries: int, steps: seq<Step>)
    requires Legal(maxRetries, INIT, steps)
    ensures WriteCalls(maxRetries, steps) == |Exec(maxRetries, INIT, steps).analytics|
  {
    if |steps| > 0 {
      WritesAreRows(maxRetries, steps[..|steps| - 1]);
    }
  }

  /** When the tables hold the rows a run of the pipeline wrote, merged in whatever way, the counts of
      `DailyEvents` over a range that covers all their dates sum to the run's successful `WriteEvent`
      calls, which are never more than its inserts and redeliveries on the events topic. */
  lemma {:induction false} DailyTotalsAreWrites(maxRetries: int, steps: seq<Step>,
                                                ops: seq<TableOp>, first: nat, last: nat)
    requires Legal(maxRetries, INIT, steps)
    requires History(ops) && Log(ops) == Exec(maxRetries, INIT, steps).analytics
    requires forall k :: 0 <= k < |Log(ops)| ==> first <= Log(ops)[k].date <= last
    ensures SumWhere(Query(Table(ops), first, last), Within(first, last)) == WriteCalls(maxRetries, steps)
    ensures var s := Exec(maxRetries, INIT, steps);
            WriteCalls(maxRetries, steps) <= s.inserted + s.redelivered
  {
    CoveringTotal(ops, first, last);
    WritesAreRows(maxRetries, steps);
    ReachablePaid(maxRetries, steps);
    assert Paid(Exec(maxRetries, INIT, steps));
  }

  lemma CoveringTotal(ops: seq<TableOp>, first: nat, last: nat)
    requires History(ops) && forall k :: 0 <= k < |Log(ops)| ==> first <= Log(ops)[k].date <= last
    ensures SumWhere(Query(Table(ops), first, last), Within(first, last)) == |Log(ops)|
  {
    QueryTotal(ops, first, last);
    AllCounted(Log(ops), first, last);
  }

  lemma {:induction false} AllCounted(log: seq<LogRow>, first: nat, last: nat)
    requires forall k :: 0 <= k < |log| ==> first <= log[k].date <= last
    ensures Count(log, Logged(Within(first, last))) == |log|
  {
    if |log| > 0 {
      var n := |log| - 1;
      AllCounted(log[..n], first, last);
      assert Within(first, last)(GroupOf(log[n]));
      assert Logged(Within(first, last))(log[n]);
      assert log == log[..n] + [log[n]];
      CountSnoc(log[..n], log[n], Logged(Within(first, last)));
    }
  }
}
