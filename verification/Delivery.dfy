/**
 One delivery run from start to finish with nothing else in between: the calls of one carrier,
 each answered by the environment. This is what the code of the processor is proved against, and
 each such delivery is a run of the interleaved step system.
 */
module Delivery {
  import opened Prelude
  import opened Domain
  import opened Pipeline
  import opened PipelineInvariant

  /** The environment's answer to each call a delivery may make. */
  datatype Script = Script(
    find: Reply,
    markProcessing: Reply,
    write: Reply,
    markProcessed: Reply,
    increment: Reply,
    markFailed: Reply,
    publish: Reply)

  function Answer(script: Script, stage: Stage): Reply
    requires InDelivery(stage)
  {
    match stage
    case AtFind => script.find
    case AtMarkProcessing(_) => script.markProcessing
    case AtWrite(_) => script.write
    case AtMarkProcessed => script.markProcessed
    case AtIncrement => script.increment
    case AtMarkFailed => script.markFailed
    case _ => script.publish
  }

  /** Inside `ProcessEvent.Execute`: not yet publishing. */
  predicate InUseCase(stage: Stage) {
    InDelivery(stage) && !stage.AtPublishRetry? && !stage.AtPublishDlq?
  }

  /** All calls of `ProcessEvent.Execute` from carrier `c` on. */
  function Handle(maxRetries: int, c: Carrier, cell: Option<Cell>, script: Script): CallResult
    requires InDelivery(c.stage)
    decreases Rank(c.stage)
  {
    if !InUseCase(c.stage) then CallResult(c, cell, [])
    else
      var r := NextCall(maxRetries, c, cell, Answer(script, c.stage));
      if !InDelivery(r.carrier.stage) then r
      else
        var rest := Handle(maxRetries, r.carrier, r.cell, script);
        CallResult(rest.carrier, rest.cell, r.log + rest.log)
  }

  /** `Handle`, and then the publish it asks for, if any. */
  function Deliver(maxRetries: int, c: Carrier, cell: Option<Cell>, script: Script): CallResult
    requires InDelivery(c.stage)
  {
    var handled := Handle(maxRetries, c, cell, script);
    if !InDelivery(handled.carrier.stage) then handled
    else
      var r := NextCall(maxRetries, handled.carrier, handled.cell, script.publish);
      CallResult(r.carrier, r.cell, handled.log)
  }

  function Start(msg: Msg): Carrier {
    Carrier(msg.event, msg.attempt, AtFind)
  }

  lemma {:induction false} HandleEnds(maxRetries: int, c: Carrier, cell: Option<Cell>, script: Script)
    requires InDelivery(c.stage)
    ensures var out := Handle(maxRetries, c, cell, script);
            && out.carrier.event == c.event && !InUseCase(out.carrier.stage)
            && (out.carrier.attempt == c.attempt)
            && (InUseCase(c.stage) ==> out.carrier.stage == AtPublishRetry || out.carrier.stage == AtPublishDlq
                                       || out.carrier.stage == Ended(Done))
    decreases Rank(c.stage)
  {
    if InUseCase(c.stage) {
      var r := NextCall(maxRetries, c, cell, Answer(script, c.stage));
      if InDelivery(r.carrier.stage) {
        HandleEnds(maxRetries, r.carrier, r.cell, script);
      }
    }
  }

  // ----- a delivery is a run of the step system ----------------------------------------------

  /** The steps of the calls carrier `i` makes in one delivery. */
  function Calls(maxRetries: int, i: nat, c: Carrier, cell: Option<Cell>, script: Script): seq<Step>
    requires InDelivery(c.stage)
    decreases Rank(c.stage)
  {
    var reply := Answer(script, c.stage);
    var r := NextCall(maxRetries, c, cell, reply);
    if !InDelivery(r.carrier.stage) then [Call(i, reply)]
    else [Call(i, reply)] + Calls(maxRetries, i, r.carrier, r.cell, script)
  }

  lemma {:induction false} ExecCons(maxRetries: int, s: State, first: Step, rest: seq<Step>)
    requires Enabled(s, first) && Legal(maxRetries, Apply(maxRetries, s, first), rest)
    ensures Legal(maxRetries, s, [first] + rest)
    ensures Exec(maxRetries, s, [first] + rest) == Exec(maxRetries, Apply(maxRetries, s, first), rest)
    decreases |rest|
  {
    if |rest| == 0 {
      ExecSnoc(maxRetries, s, [], first);
      assert [] + [first] == [first] + rest;
    } else {
      var m := |rest| - 1;
      ExecCons(maxRetries, s, first, rest[..m]);
      ExecSnoc(maxRetries, s, [first] + rest[..m], rest[m]);
      assert [first] + rest[..m] + [rest[m]] == [first] + rest;
    }
  }

  lemma DeliverFirst(maxRetries: int, c: Carrier, cell: Option<Cell>, script: Script)
    requires InDelivery(c.stage)
    ensures var r := NextCall(maxRetries, c, cell, Answer(script, c.stage));
            var out := Deliver(maxRetries, c, cell, script);
            if !InDelivery(r.carrier.stage) then out == r
            else
              var rest := Deliver(maxRetries, r.carrier, r.cell, script);
              out == CallResult(rest.carrier, rest.cell, r.log + rest.log)
  {
  }

  /** The state after carrier `i` of `s` has become `out`. */
  function Moved(s: State, i: nat, out: CallResult): State
    requires i < |s.carriers|
  {
    s.(cells := Store(s.cells, s.carriers[i].event, out.cell),
       carriers := s.carriers[i := out.carrier],
       analytics := s.analytics + out.log,
       ended := s.ended + EndingOf(out.carrier.stage))
  }

  lemma MovedTwice(s: State, i: nat, r: CallResult, rest: CallResult)
    requires i < |s.carriers| && r.carrier.event == s.carriers[i].event
    requires InDelivery(r.carrier.stage)
    requires r.cell.Some? ==> rest.cell.Some?
    ensures Moved(Moved(s, i, r), i, rest) == Moved(s, i, CallResult(rest.carrier, rest.cell, r.log + rest.log))
  {
    assert s.analytics + r.log + rest.log == s.analytics + (r.log + rest.log);
    assert s.carriers[i := r.carrier][i := rest.carrier] == s.carriers[i := rest.carrier];
    assert Moved(s, i, r).ended == s.ended;
  }

  lemma {:induction false} DeliverKeepsRow(maxRetries: int, c: Carrier, cell: Option<Cell>, script: Script)
    requires InDelivery(c.stage)
    ensures Deliver(maxRetries, c, cell, script).cell.Some? <==> cell.Some?
    decreases Rank(c.stage)
  {
    DeliverFirst(maxRetries, c, cell, script);
    var r := NextCall(maxRetries, c, cell, Answer(script, c.stage));
    if InDelivery(r.carrier.stage) {
      DeliverKeepsRow(maxRetries, r.carrier, r.cell, script);
    }
  }

  /** The calls of a delivery, taken one after another, have exactly the effect of `Deliver`. */
  lemma {:induction false} CallsRun(maxRetries: int, s: State, i: nat, script: Script)
    requires i < |s.carriers| && InDelivery(s.carriers[i].stage)
    ensures var c, cell := s.carriers[i], Lookup(s.cells, s.carriers[i].event);
            var steps := Calls(maxRetries, i, c, cell, script);
            && Legal(maxRetries, s, steps)
            && Exec(maxRetries, s, steps) == Moved(s, i, Deliver(maxRetries, c, cell, script))
    decreases Rank(s.carriers[i].stage)
  {
    var c, cell := s.carriers[i], Lookup(s.cells, s.carriers[i].event);
    var reply := Answer(script, c.stage);
    var r := NextCall(maxRetries, c, cell, reply);
    var s' := Apply(maxRetries, s, Call(i, reply));
    DeliverFirst(maxRetries, c, cell, script);
    if InDelivery(r.carrier.stage) {
      assert Lookup(s'.cells, c.event) == r.cell && s'.carriers[i] == r.carrier;
      CallsRun(maxRetries, s', i, script);
      ExecCons(maxRetries, s, Call(i, reply), Calls(maxRetries, i, r.carrier, r.cell, script));
      DeliverKeepsRow(maxRetries, r.carrier, r.cell, script);
      MovedTwice(s, i, r, Deliver(maxRetries, r.carrier, r.cell, script));
    } else {
      ExecSnoc(maxRetries, s, [], Call(i, reply));
      assert [] + [Call(i, reply)] == [Call(i, reply)];
    }
  }

  /** Fetching a message and handling it without interference is a run of the step system with
      the effect of `Deliver`: so every property of runs holds of what the processor does. */
  lemma DeliveryIsARun(maxRetries: int, s: State, i: nat, script: Script)
    requires i < |s.carriers| && s.carriers[i].stage.OnEvents?
    ensures var msg := Msg(s.carriers[i].event, s.carriers[i].attempt);
            var cell := Lookup(s.cells, msg.event);
            var steps := [Fetch(i)] + Calls(maxRetries, i, Start(msg), cell, script);
            && Legal(maxRetries, s, steps)
            && Exec(maxRetries, s, steps) ==
               Moved(s, i, Deliver(maxRetries, Start(msg), cell, script)).(delivered := s.delivered + {msg})
  {
    var msg := Msg(s.carriers[i].event, s.carriers[i].attempt);
    var s' := Apply(maxRetries, s, Fetch(i));
    CallsRun(maxRetries, s', i, script);
    ExecCons(maxRetries, s, Fetch(i), Calls(maxRetries, i, Start(msg), Lookup(s.cells, msg.event), script));
  }

  // ----- what a single delivery guarantees, and exactly when ---------------------------------

  lemma {:induction false} RowIgnoresAudit(maxRetries: int, c: Carrier, a: Cell, b: Cell, script: Script)
    requires InDelivery(c.stage) && a.row == b.row
    ensures var x, y := Handle(maxRetries, c, Some(a), script), Handle(maxRetries, c, Some(b), script);
            && x.carrier == y.carrier && x.log == y.log
            && x.cell.Some? && y.cell.Some? && x.cell.value.row == y.cell.value.row
    decreases Rank(c.stage)
  {
    if InUseCase(c.stage) {
      var x := NextCall(maxRetries, c, Some(a), Answer(script, c.stage));
      var y := NextCall(maxRetries, c, Some(b), Answer(script, c.stage));
      if InDelivery(x.carrier.stage) {
        RowIgnoresAudit(maxRetries, x.carrier, x.cell.value, y.cell.value, script);
      }
    }
  }

  /** The delivery ends in `handleFailure`: the row could not be read, or could be read, was
      not terminal, and could not be marked. */
  predicate Fails(cell: Cell, script: Script) {
    !script.find.ok || (!Terminal(cell.row.status) && !script.markProcessing.ok)
  }

  /** The record after a status write was answered by `reply`. */
  function AfterMark(cell: Cell, status: Status, reply: Reply): Cell {
    if reply.ok then Marked(cell, status, reply.at) else cell
  }

  /** The whole effect of one delivery, case by case. */
  function Effect(maxRetries: int, msg: Msg, cell: Cell, script: Script): CallResult {
    var failed := Incremented(cell, script.increment.ok);
    if Fails(cell, script) then
      if msg.attempt >= maxRetries then
        CallResult(Carrier(msg.event, msg.attempt, if script.publish.ok then OnDlq else Ended(DlqLost)),
                   Some(AfterMark(failed, Status.Failed, script.markFailed)), [])
      else
        CallResult(if script.publish.ok then Carrier(msg.event, msg.attempt + 1, OnEvents)
                   else Carrier(msg.event, msg.attempt, Ended(RetryLost)), Some(failed), [])
    else if Terminal(cell.row.status) then
      CallResult(Carrier(msg.event, msg.attempt, Ended(Done)), Some(cell), [])
    else
      Finished(msg, cell, script)
  }

  /** A delivery that could mark its event processing. */
  function Finished(msg: Msg, cell: Cell, script: Script): CallResult {
    var marked := Marked(cell, Status.Processing, script.markProcessing.at);
    CallResult(Carrier(msg.event, msg.attempt, Ended(Done)),
               Some(AfterMark(marked, Status.Processed, script.markProcessed)),
               if script.write.ok then [LogRowFor(msg.event, cell.row, script.write.at)] else [])
  }

  function Failing(msg: Msg): Carrier {
    Carrier(msg.event, msg.attempt, AtIncrement)
  }

  /** A row that cannot be read sends the delivery to `handleFailure`. */
  lemma UnreadBySteps(maxRetries: int, msg: Msg, cell: Option<Cell>, script: Script)
    requires !script.find.ok
    ensures Handle(maxRetries, Start(msg), cell, script) == Handle(maxRetries, Failing(msg), cell, script)
  {
    var rest := Handle(maxRetries, Failing(msg), cell, script);
    assert CallResult(rest.carrier, rest.cell, [] + rest.log) == rest;
  }

  /** So does an open row that cannot be marked processing. */
  lemma UnmarkedBySteps(maxRetries: int, msg: Msg, cell: Cell, script: Script)
    requires script.find.ok && !Terminal(cell.row.status) && !script.markProcessing.ok
    ensures Handle(maxRetries, Start(msg), Some(cell), script) == Handle(maxRetries, Failing(msg), Some(cell), script)
  {
    var marking := Carrier(msg.event, msg.attempt, AtMarkProcessing(cell.row));
    var rest := Handle(maxRetries, Failing(msg), Some(cell), script);
    assert CallResult(rest.carrier, rest.cell, [] + rest.log) == rest;
    assert Handle(maxRetries, marking, Some(cell), script) == rest;
  }

  /** A row that does not exist ends the delivery done if it could be read as missing, and else makes it
      fail without a row to count the failure or to mark. */
  lemma MissingBySteps(maxRetries: int, msg: Msg, script: Script)
    ensures Handle(maxRetries, Start(msg), None, script) ==
            CallResult(Carrier(msg.event, msg.attempt,
                               if script.find.ok then Ended(Done)
                               else if msg.attempt >= maxRetries then AtPublishDlq else AtPublishRetry), None, [])
  {
    if !script.find.ok {
      UnreadBySteps(maxRetries, msg, None, script);
      if msg.attempt >= maxRetries {
        var c := Carrier(msg.event, msg.attempt, AtMarkFailed);
        assert Handle(maxRetries, c, None, script) == CallResult(c.(stage := AtPublishDlq), None, []);
      }
    }
  }

  lemma WrittenBySteps(maxRetries: int, msg: Msg, cell: Cell, script: Script)
    ensures var marked := Some(Marked(cell, Status.Processing, script.markProcessing.at));
            Handle(maxRetries, Carrier(msg.event, msg.attempt, AtWrite(cell.row)), marked, script) ==
            Finished(msg, cell, script)
  {
    var marked := Some(Marked(cell, Status.Processing, script.markProcessing.at));
    var last := Carrier(msg.event, msg.attempt, AtMarkProcessed);
    assert Handle(maxRetries, last, marked, script) == NextCall(maxRetries, last, marked, script.markProcessed);
    assert Finished(msg, cell, script).log + [] == Finished(msg, cell, script).log;
  }

  lemma FinishedBySteps(maxRetries: int, msg: Msg, cell: Cell, script: Script)
    requires !Fails(cell, script) && !Terminal(cell.row.status)
    ensures Handle(maxRetries, Start(msg), Some(cell), script) == Finished(msg, cell, script)
  {
    WrittenBySteps(maxRetries, msg, cell, script);
    var marking := Carrier(msg.event, msg.attempt, AtMarkProcessing(cell.row));
    var finished := Finished(msg, cell, script);
    assert CallResult(finished.carrier, finished.cell, [] + finished.log) == finished;
    assert Handle(maxRetries, marking, Some(cell), script) == finished;
  }

  lemma FailureBySteps(maxRetries: int, msg: Msg, cell: Cell, script: Script)
    ensures var failed := Incremented(cell, script.increment.ok);
            Handle(maxRetries, Failing(msg), Some(cell), script) ==
            if msg.attempt >= maxRetries then
              CallResult(Carrier(msg.event, msg.attempt, AtPublishDlq),
                         Some(AfterMark(failed, Status.Failed, script.markFailed)), [])
            else CallResult(Carrier(msg.event, msg.attempt, AtPublishRetry), Some(failed), [])
  {
    if msg.attempt >= maxRetries {
      var failed := Some(Incremented(cell, script.increment.ok));
      var c := Carrier(msg.event, msg.attempt, AtMarkFailed);
      assert Handle(maxRetries, c, failed, script) ==
             CallResult(Carrier(msg.event, msg.attempt, AtPublishDlq),
                        NextCall(maxRetries, c, failed, script.markFailed).cell, []);
    }
  }

  /** An uninterrupted delivery has exactly that effect. */
  lemma DeliverBySteps(maxRetries: int, msg: Msg, cell: Cell, script: Script)
    ensures Deliver(maxRetries, Start(msg), Some(cell), script) == Effect(maxRetries, msg, cell, script)
  {
    if Fails(cell, script) {
      FailureBySteps(maxRetries, msg, cell, script);
      if script.find.ok {
        UnmarkedBySteps(maxRetries, msg, cell, script);
      } else {
        UnreadBySteps(maxRetries, msg, Some(cell), script);
      }
    } else if !Terminal(cell.row.status) {
      FinishedBySteps(maxRetries, msg, cell, script);
    }
  }

  /** One uninterrupted delivery of a processed event turns it failed exactly when the row cannot be
      read, on the last attempt, and the failed status is then written. */
  lemma StaysProcessedIff(maxRetries: int, msg: Msg, cell: Cell, script: Script)
    requires cell.row.status == Status.Processed
    ensures var after := Deliver(maxRetries, Start(msg), Some(cell), script).cell;
            && after.Some?
            && (after.value.row.status == Status.Processed <==>
                script.find.ok || msg.attempt < maxRetries || !script.markFailed.ok)
  {
    DeliverBySteps(maxRetries, msg, cell, script);
  }

  /** One delivery alone never takes an event out of failed, and one that dead-letters its message
      leaves the event failed exactly when it was failed before or the failed status was written. */
  lemma DeadLetterIsFailedIff(maxRetries: int, msg: Msg, cell: Cell, script: Script)
    ensures var out := Deliver(maxRetries, Start(msg), Some(cell), script);
            && out.cell.Some?
            && (cell.row.status == Status.Failed ==> out.cell.value.row.status == Status.Failed)
            && (out.carrier.stage == OnDlq ==>
                (out.cell.value.row.status == Status.Failed <==>
                 cell.row.status == Status.Failed || script.markFailed.ok))
  {
    DeliverBySteps(maxRetries, msg, cell, script);
  }

  /** A delivery that reports an open event done has processed it exactly when the last status
      write succeeded; otherwise the row stays `processing` with no message left to repair it. */
  lemma DoneMeansProcessedIff(maxRetries: int, msg: Msg, cell: Cell, script: Script)
    requires !Terminal(cell.row.status)
    ensures var out := Deliver(maxRetries, Start(msg), Some(cell), script);
            out.carrier.stage == Ended(Done) ==>
              && out.cell.Some?
              && (out.cell.value.row.status == Status.Processed <==> script.markProcessed.ok)
              && (out.cell.value.row.status == Status.Processing <==> !script.markProcessed.ok)
  {
    DeliverBySteps(maxRetries, msg, cell, script);
  }

  /** A message is lost exactly when its delivery fails and the publish that should pass it on
      fails too; otherwise it is done, back on the events topic, or dead-lettered. */
  lemma LostIff(maxRetries: int, msg: Msg, cell: Cell, script: Script)
    ensures var stage := Deliver(maxRetries, Start(msg), Some(cell), script).carrier.stage;
            && (stage == Ended(RetryLost) || stage == Ended(DlqLost) <==> Fails(cell, script) && !script.publish.ok)
            && (stage == OnEvents <==> Fails(cell, script) && script.publish.ok && msg.attempt < maxRetries)
            && (stage == OnDlq <==> Fails(cell, script) && script.publish.ok && msg.attempt >= maxRetries)
            && (stage == Ended(Done) <==> !Fails(cell, script))
  {
    DeliverBySteps(maxRetries, msg, cell, script);
  }
}
