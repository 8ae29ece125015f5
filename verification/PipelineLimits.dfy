/** Runs that show where the tempting claims about the pipeline end. */
module PipelineLimits {
  import opened Prelude
  import opened Domain
  import opened Pipeline
  import opened PipelineInvariant
  import opened PipelineOnce
  import opened PipelineFinality
  import opened Delivery
  import opened Worker

  const YES: Reply := Reply(true, 0)
  const NO: Reply := Reply(false, 0)

  /** Every call of the delivery is answered. */
  const ANSWERED: Script := Script(YES, YES, YES, YES, YES, YES, YES)

  /** Every call is answered but the read of the row. */
  const BLIND: Script := Script(NO, YES, YES, YES, YES, YES, YES)

  function Ingested(): seq<Step> {
    [Ingest(7, "key", "source", "type", true), Step.Call(0, YES)]
  }

  /** The state after event 7 was inserted and published. */
  function OnTopic(): State {
    State(map[7 := NewCell("key", "source", "type")], [Carrier(7, 1, OnEvents)], [], 1, 0, 0, multiset{}, {}, {})
  }

  lemma IngestedIsLegal(maxRetries: int)
    ensures Legal(maxRetries, INIT, Ingested()) && Exec(maxRetries, INIT, Ingested()) == OnTopic()
  {
    TwoSteps(maxRetries, INIT, Ingest(7, "key", "source", "type", true), Step.Call(0, YES));
    var s1 := Apply(maxRetries, INIT, Ingest(7, "key", "source", "type", true));
    assert s1.carriers == [Carrier(7, 1, AtPublish)];
    assert Apply(maxRetries, s1, Step.Call(0, YES)) == OnTopic();
  }

  /** The steps of fetching and delivering the message of carrier `i`. */
  function DeliverySteps(maxRetries: int, s: State, i: nat, script: Script): seq<Step>
    requires i < |s.carriers|
  {
    var msg := Msg(s.carriers[i].event, s.carriers[i].attempt);
    [Fetch(i)] + Calls(maxRetries, i, Start(msg), Lookup(s.cells, msg.event), script)
  }

  lemma LastOfAppend(a: seq<Step>, b: seq<Step>)
    requires |b| > 0
    ensures a + b == a + b[..|b| - 1] + [b[|b| - 1]]
  {
  }

  lemma {:induction false} ExecAppend(maxRetries: int, s: State, a: seq<Step>, b: seq<Step>)
    requires Legal(maxRetries, s, a) && Legal(maxRetries, Exec(maxRetries, s, a), b)
    ensures Legal(maxRetries, s, a + b)
    ensures Exec(maxRetries, s, a + b) == Exec(maxRetries, Exec(maxRetries, s, a), b)
    decreases |b|
  {
    if |b| == 0 {
      assert a + b == a;
    } else {
      var m := |b| - 1;
      ExecAppend(maxRetries, s, a, b[..m]);
      ExecSnoc(maxRetries, s, a + b[..m], b[m]);
      LastOfAppend(a, b);
    }
  }

  /** The steps of redelivering `msg` and then failing to read its row. */
  function BlindSteps(maxRetries: int, s: State, msg: Msg, script: Script): seq<Step>
    requires msg in s.delivered
  {
    [Redeliver(msg)] + DeliverySteps(maxRetries, Apply(maxRetries, s, Redeliver(msg)), |s.carriers|, script)
  }

  /** From any state, redelivering a message of the last attempt whose row then cannot be read marks
      its event failed, whatever its status was. */
  lemma {:induction false} BlindRedeliveryFails(maxRetries: int, s: State, msg: Msg, script: Script)
    requires msg in s.delivered && msg.event in s.cells && msg.attempt >= maxRetries
    requires !script.find.ok && script.markFailed.ok
    ensures var steps := BlindSteps(maxRetries, s, msg, script);
            Legal(maxRetries, s, steps) && HasStatus(Exec(maxRetries, s, steps), msg.event, Status.Failed)
  {
    var again := Apply(maxRetries, s, Redeliver(msg));
    DeliveryIsARun(maxRetries, again, |s.carriers|, script);
    DeliverBySteps(maxRetries, msg, again.cells[msg.event], script);
    ExecCons(maxRetries, s, Redeliver(msg), DeliverySteps(maxRetries, again, |s.carriers|, script));
  }

  // ----- on the way to the failed mark ----------------------------------------------------------

  /** The copy is live and has not marked its event processing. */
  predicate CanStillFail(stage: Stage) {
    !stage.Ended? && !stage.AtWrite? && !stage.AtMarkProcessed?
  }

  /** The step that brings copy `i` closer to the failed mark. */
  function TowardsFailure(i: nat, stage: Stage): Step
    requires CanStillFail(stage)
  {
    match stage
    case OnEvents => Fetch(i)
    case OnDlq => Fetch(i)
    case AtFind => Step.Call(i, NO)
    case AtMarkProcessing(_) => Step.Call(i, NO)
    case _ => Step.Call(i, YES)
  }

  /** Event `e` has been marked more often in `s'` than in `s`. */
  predicate MarkedSince(s: State, s': State, e: EventId) {
    e in s.cells && e in s'.cells && |s'.cells[e].audit.history| > |s.cells[e].audit.history|
  }

  lemma StepTowardsFailure(maxRetries: int, s: State, i: nat)
    requires Inv(maxRetries, s) && i < |s.carriers| && CanStillFail(s.carriers[i].stage)
    ensures var c, step := s.carriers[i], TowardsFailure(i, s.carriers[i].stage);
            && Enabled(s, step) && Handling(step) && HandledCopy(step) == i
            && var s' := Apply(maxRetries, s, step);
               if c.stage.AtMarkFailed? || c.stage.AtDlqMark? then
                 HasStatus(s', c.event, Status.Failed) && MarkedSince(s, s', c.event)
               else
                 && |s'.carriers| == |s.carriers| && s'.carriers[i].event == c.event
                 && CanStillFail(s'.carriers[i].stage)
                 && c.event in s'.cells && s'.cells[c.event].audit.history == s.cells[c.event].audit.history
  {
    assert s.carriers[i].event in s.cells;
  }

  /** From there the event can always be marked failed, without any redelivery. */
  lemma {:induction false} CopyCanFail(maxRetries: int, s: State, i: nat) returns (steps: seq<Step>)
    requires Inv(maxRetries, s) && i < |s.carriers| && CanStillFail(s.carriers[i].stage)
    ensures NoRedelivery(steps) && Legal(maxRetries, s, steps)
    ensures HasStatus(Exec(maxRetries, s, steps), s.carriers[i].event, Status.Failed)
    ensures MarkedSince(s, Exec(maxRetries, s, steps), s.carriers[i].event)
    decreases Weight(maxRetries, s.carriers[i])
  {
    var c, step := s.carriers[i], TowardsFailure(i, s.carriers[i].stage);
    StepTowardsFailure(maxRetries, s, i);
    var s' := Apply(maxRetries, s, step);
    var rest := [];
    if !c.stage.AtMarkFailed? && !c.stage.AtDlqMark? {
      StepKeepsInv(maxRetries, s, step);
      HandledWeighsLess(maxRetries, s, step);
      assert CarrierOk(maxRetries, c);
      rest := CopyCanFail(maxRetries, s', i);
    }
    ExecCons(maxRetries, s, step, rest);
    steps := [step] + rest;
  }

  // ----- two copies at once ---------------------------------------------------------------------

  /** The broker redelivers nothing but `msg`. */
  ghost predicate RedeliversOnly(steps: seq<Step>, msg: Msg) {
    forall k :: 0 <= k < |steps| ==> !steps[k].RedeliverDlq? && (steps[k].Redeliver? ==> steps[k].msg == msg)
  }

  lemma RedeliversAppend(a: seq<Step>, b: seq<Step>, msg: Msg)
    requires RedeliversOnly(a, msg) && NoRedelivery(b)
    ensures RedeliversOnly(a + b, msg)
  {
  }

  lemma NothingFailsAppend(a: seq<Step>, b: seq<Step>)
    requires NothingFails(a) && NothingFails(b)
    ensures NothingFails(a + b)
  {
  }

  ghost predicate CrashFree(steps: seq<Step>) {
    forall k :: 0 <= k < |steps| ==> !steps[k].Crash?
  }

  lemma {:induction false} CallsOnly(maxRetries: int, i: nat, c: Carrier, cell: Option<Cell>, script: Script)
    requires InDelivery(c.stage)
    ensures NoRedelivery(Calls(maxRetries, i, c, cell, script)) && CrashFree(Calls(maxRetries, i, c, cell, script))
    decreases Rank(c.stage)
  {
    var r := NextCall(maxRetries, c, cell, Answer(script, c.stage));
    if InDelivery(r.carrier.stage) {
      CallsOnly(maxRetries, i, r.carrier, r.cell, script);
    }
  }

  lemma {:induction false} CallsAnswered(maxRetries: int, i: nat, c: Carrier, cell: Option<Cell>)
    requires InDelivery(c.stage)
    ensures NothingFails(Calls(maxRetries, i, c, cell, ANSWERED))
    decreases Rank(c.stage)
  {
    var r := NextCall(maxRetries, c, cell, Answer(ANSWERED, c.stage));
    if InDelivery(r.carrier.stage) {
      CallsAnswered(maxRetries, i, r.carrier, r.cell);
    }
  }

  /** The message redelivered twice and both copies fetched. */
  lemma TwoCopies(maxRetries: int, s: State, msg: Msg) returns (steps: seq<Step>)
    requires msg in s.delivered && msg.event in s.cells
    ensures NothingFails(steps) && RedeliversOnly(steps, msg) && Legal(maxRetries, s, steps)
    ensures var n, s' := |s.carriers|, Exec(maxRetries, s, steps);
            && |s'.carriers| == n + 2 && s'.carriers[n] == Start(msg) && s'.carriers[n + 1] == Start(msg)
            && msg.event in s'.cells && s'.cells[msg.event].row == s.cells[msg.event].row
  {
    var n := |s.carriers|;
    TwoSteps(maxRetries, s, Redeliver(msg), Redeliver(msg));
    var twice := Exec(maxRetries, s, [Redeliver(msg), Redeliver(msg)]);
    TwoSteps(maxRetries, twice, Fetch(n), Fetch(n + 1));
    steps := [Redeliver(msg), Redeliver(msg)] + [Fetch(n), Fetch(n + 1)];
    ExecAppend(maxRetries, s, [Redeliver(msg), Redeliver(msg)], [Fetch(n), Fetch(n + 1)]);
  }

  /** And then the row read by the second of them. */
  lemma Overlap(maxRetries: int, s: State, msg: Msg) returns (steps: seq<Step>)
    requires msg in s.delivered && msg.event in s.cells && !Terminal(s.cells[msg.event].row.status)
    ensures NothingFails(steps) && RedeliversOnly(steps, msg) && Legal(maxRetries, s, steps)
    ensures var n, s' := |s.carriers|, Exec(maxRetries, s, steps);
            && |s'.carriers| == n + 2 && s'.carriers[n] == Start(msg)
            && s'.carriers[n + 1] == Carrier(msg.event, msg.attempt, AtMarkProcessing(s.cells[msg.event].row))
            && msg.event in s'.cells && s'.cells[msg.event].row == s.cells[msg.event].row
  {
    var copies := TwoCopies(maxRetries, s, msg);
    ExecSnoc(maxRetries, s, copies, Step.Call(|s.carriers| + 1, YES));
    steps := copies + [Step.Call(|s.carriers| + 1, YES)];
  }

  /** An answered delivery of an open event, from its read on, processes it and moves no other copy. */
  lemma AnsweredCalls(maxRetries: int, s: State, i: nat, msg: Msg) returns (steps: seq<Step>)
    requires i < |s.carriers| && s.carriers[i] == Start(msg)
    requires msg.event in s.cells && !Terminal(s.cells[msg.event].row.status)
    ensures NothingFails(steps) && NoRedelivery(steps) && Legal(maxRetries, s, steps)
    ensures HasStatus(Exec(maxRetries, s, steps), msg.event, Status.Processed)
    ensures Exec(maxRetries, s, steps).carriers == s.carriers[i := Carrier(msg.event, msg.attempt, Ended(Done))]
  {
    steps := Calls(maxRetries, i, Start(msg), Some(s.cells[msg.event]), ANSWERED);
    CallsRun(maxRetries, s, i, ANSWERED);
    DeliverBySteps(maxRetries, msg, s.cells[msg.event], ANSWERED);
    CallsAnswered(maxRetries, i, Start(msg), Some(s.cells[msg.event]));
    CallsOnly(maxRetries, i, Start(msg), Some(s.cells[msg.event]), ANSWERED);
  }

  /** A copy that has read the row marks it processing, whatever it has become since. */
  lemma StaleMark(maxRetries: int, s: State, i: nat)
    requires i < |s.carriers| && s.carriers[i].stage.AtMarkProcessing? && s.carriers[i].event in s.cells
    ensures Enabled(s, Step.Call(i, YES))
    ensures HasStatus(Apply(maxRetries, s, Step.Call(i, YES)), s.carriers[i].event, Status.Processing)
  {
  }

  /** Two overlapping deliveries of an open event, all of whose calls are answered, first take it to
      processed and then back to processing. */
  lemma OverlapUndoesProcessed(maxRetries: int, s: State, msg: Msg) returns (before: seq<Step>, last: Step)
    requires msg in s.delivered && msg.event in s.cells && !Terminal(s.cells[msg.event].row.status)
    ensures NothingFails(before + [last]) && RedeliversOnly(before + [last], msg) && Legal(maxRetries, s, before)
    ensures HasStatus(Exec(maxRetries, s, before), msg.event, Status.Processed)
    ensures Enabled(Exec(maxRetries, s, before), last)
    ensures HasStatus(Apply(maxRetries, Exec(maxRetries, s, before), last), msg.event, Status.Processing)
  {
    var n := |s.carriers|;
    var overlap := Overlap(maxRetries, s, msg);
    var s' := Exec(maxRetries, s, overlap);
    var calls := AnsweredCalls(maxRetries, s', n, msg);
    ExecAppend(maxRetries, s, overlap, calls);
    before, last := overlap + calls, Step.Call(n + 1, YES);
    StaleMark(maxRetries, Exec(maxRetries, s', calls), n + 1);
    RedeliversAppend(overlap, calls, msg);
    RedeliversAppend(before, [last], msg);
    NothingFailsAppend(overlap, calls);
    NothingFailsAppend(before, [last]);
  }

  /** A delivery on the last attempt that cannot read the row fails the event and moves no other copy. */
  lemma BlindCalls(maxRetries: int, s: State, i: nat, msg: Msg) returns (steps: seq<Step>)
    requires i < |s.carriers| && s.carriers[i] == Start(msg) && msg.event in s.cells && msg.attempt >= maxRetries
    ensures NoRedelivery(steps) && Legal(maxRetries, s, steps)
    ensures HasStatus(Exec(maxRetries, s, steps), msg.event, Status.Failed)
    ensures Exec(maxRetries, s, steps).carriers == s.carriers[i := Carrier(msg.event, msg.attempt, OnDlq)]
  {
    steps := Calls(maxRetries, i, Start(msg), Some(s.cells[msg.event]), BLIND);
    CallsRun(maxRetries, s, i, BLIND);
    DeliverBySteps(maxRetries, msg, s.cells[msg.event], BLIND);
    CallsOnly(maxRetries, i, Start(msg), Some(s.cells[msg.event]), BLIND);
  }

  /** Two overlapping deliveries of an open event on the last attempt, one of which cannot read the row,
      first take it to failed and then back to processing. */
  lemma OverlapUndoesFailed(maxRetries: int, s: State, msg: Msg) returns (before: seq<Step>, last: Step)
    requires msg in s.delivered && msg.event in s.cells && !Terminal(s.cells[msg.event].row.status)
    requires msg.attempt >= maxRetries
    ensures RedeliversOnly(before + [last], msg) && Legal(maxRetries, s, before)
    ensures HasStatus(Exec(maxRetries, s, before), msg.event, Status.Failed)
    ensures Enabled(Exec(maxRetries, s, before), last)
    ensures HasStatus(Apply(maxRetries, Exec(maxRetries, s, before), last), msg.event, Status.Processing)
  {
    var n := |s.carriers|;
    var overlap := Overlap(maxRetries, s, msg);
    var s' := Exec(maxRetries, s, overlap);
    var calls := BlindCalls(maxRetries, s', n, msg);
    ExecAppend(maxRetries, s, overlap, calls);
    before, last := overlap + calls, Step.Call(n + 1, YES);
    StaleMark(maxRetries, Exec(maxRetries, s', calls), n + 1);
    RedeliversAppend(overlap, calls, msg);
    RedeliversAppend(before, [last], msg);
  }

  // ----- runs from the start ----------------------------------------------------------------------

  /** Event 7 is pending, and the one copy of its message is at `stage` of the given attempt. */
  predicate Single(s: State, attempt: int, stage: Stage) {
    HasStatus(s, 7, Status.Pending) && s.carriers == [Carrier(7, attempt, stage)]
  }

  /** Event 7 inserted and published, and its message handed out, with nothing failing. */
  lemma HandedOut(maxRetries: int) returns (steps: seq<Step>)
    ensures NothingFails(steps) && NoRedelivery(steps) && Legal(maxRetries, INIT, steps)
    ensures Single(Exec(maxRetries, INIT, steps), 1, AtFind)
    ensures Msg(7, 1) in Exec(maxRetries, INIT, steps).delivered
  {
    IngestedIsLegal(maxRetries);
    ExecSnoc(maxRetries, INIT, Ingested(), Fetch(0));
    steps := Ingested() + [Fetch(0)];
  }

  /** Fetching and delivering the message of copy `i`, nothing else in between. */
  lemma Delivering(maxRetries: int, s: State, i: nat, script: Script) returns (steps: seq<Step>)
    requires i < |s.carriers| && s.carriers[i].stage.OnEvents? && s.carriers[i].event in s.cells
    ensures NoRedelivery(steps) && CrashFree(steps) && Legal(maxRetries, s, steps)
    ensures var msg := Msg(s.carriers[i].event, s.carriers[i].attempt);
            Exec(maxRetries, s, steps) ==
            Moved(s, i, Effect(maxRetries, msg, s.cells[msg.event], script)).(delivered := s.delivered + {msg})
  {
    var msg := Msg(s.carriers[i].event, s.carriers[i].attempt);
    var calls := Calls(maxRetries, i, Start(msg), Some(s.cells[msg.event]), script);
    DeliveryIsARun(maxRetries, s, i, script);
    DeliverBySteps(maxRetries, msg, s.cells[msg.event], script);
    CallsOnly(maxRetries, i, Start(msg), Some(s.cells[msg.event]), script);
    steps := [Fetch(i)] + calls;
  }

  /** One blind delivery before the last attempt puts the message back with the next attempt. */
  lemma BlindRetry(maxRetries: int, s: State, attempt: int) returns (steps: seq<Step>)
    requires Single(s, attempt, OnEvents) && attempt < maxRetries
    ensures NoRedelivery(steps) && Legal(maxRetries, s, steps)
    ensures Single(Exec(maxRetries, s, steps), attempt + 1, OnEvents)
  {
    steps := Delivering(maxRetries, s, 0, BLIND);
  }

  /** `steps` bring the message of event 7 to the events topic with the given attempt, without redelivery. */
  ghost predicate Reaches(maxRetries: int, steps: seq<Step>, attempt: int) {
    NoRedelivery(steps) && Legal(maxRetries, INIT, steps) && Single(Exec(maxRetries, INIT, steps), attempt, OnEvents)
  }

  lemma FirstAttempt(maxRetries: int)
    ensures Reaches(maxRetries, Ingested(), 1)
  {
    IngestedIsLegal(maxRetries);
  }

  lemma {:induction false} NextAttempt(maxRetries: int, before: seq<Step>, attempt: int) returns (steps: seq<Step>)
    requires Reaches(maxRetries, before, attempt) && attempt < maxRetries
    ensures Reaches(maxRetries, steps, attempt + 1)
  {
    var retry := BlindRetry(maxRetries, Exec(maxRetries, INIT, before), attempt);
    ExecAppend(maxRetries, INIT, before, retry);
    steps := before + retry;
  }

  lemma {:induction false} AttemptReached(maxRetries: int, attempt: int) returns (steps: seq<Step>)
    requires 1 <= attempt <= LastAttempt(maxRetries)
    ensures Reaches(maxRetries, steps, attempt)
    decreases attempt
  {
    if attempt == 1 {
      FirstAttempt(maxRetries);
      steps := Ingested();
    } else {
      var before := AttemptReached(maxRetries, attempt - 1);
      steps := NextAttempt(maxRetries, before, attempt - 1);
    }
  }

  /** For every retry limit event 7 can come to its last attempt, fetched and still pending. */
  lemma LastAttemptFetched(maxRetries: int) returns (steps: seq<Step>)
    ensures NoRedelivery(steps) && Legal(maxRetries, INIT, steps)
    ensures Single(Exec(maxRetries, INIT, steps), LastAttempt(maxRetries), AtFind)
    ensures Msg(7, LastAttempt(maxRetries)) in Exec(maxRetries, INIT, steps).delivered
  {
    var before := AttemptReached(maxRetries, LastAttempt(maxRetries));
    ExecSnoc(maxRetries, INIT, before, Fetch(0));
    steps := before + [Fetch(0)];
  }

  /** Every call is answered but the read of the row and the failed mark. */
  const MUTE: Script := Script(NO, YES, YES, YES, YES, NO, YES)

  /** Not every dead letter belongs to a failed event: for every retry limit a run without redelivery
      leaves a message on the dead-letter topic whose event is pending. */
  lemma DeadLetterOfPending(maxRetries: int) returns (steps: seq<Step>)
    ensures NoRedelivery(steps) && Legal(maxRetries, INIT, steps)
    ensures Single(Exec(maxRetries, INIT, steps), LastAttempt(maxRetries), OnDlq)
  {
    var before := LastAttemptFetched(maxRetries);
    var s, msg := Exec(maxRetries, INIT, before), Msg(7, LastAttempt(maxRetries));
    var calls := Calls(maxRetries, 0, Start(msg), Some(s.cells[7]), MUTE);
    CallsRun(maxRetries, s, 0, MUTE);
    DeliverBySteps(maxRetries, msg, s.cells[7], MUTE);
    CallsOnly(maxRetries, 0, Start(msg), Some(s.cells[7]), MUTE);
    ExecAppend(maxRetries, INIT, before, calls);
    steps := before + calls;
  }

  /** The row can be read and not marked, and the failure can neither be recorded nor passed on. */
  const STUCK: Script := Script(YES, NO, YES, YES, YES, NO, NO)

  /** A message can be lost without any crash or redelivery: for every retry limit the publish that should
      pass it on fails, the pipeline comes to rest, and the event stays pending. */
  lemma MessageCanBeLost(maxRetries: int) returns (steps: seq<Step>)
    ensures NoRedelivery(steps) && CrashFree(steps) && Legal(maxRetries, INIT, steps)
    ensures var s, how := Exec(maxRetries, INIT, steps), if maxRetries > 1 then RetryLost else DlqLost;
            Single(s, 1, Ended(how)) && s.ended == multiset{how} && AtRest(s)
  {
    IngestedIsLegal(maxRetries);
    var delivery := Delivering(maxRetries, OnTopic(), 0, STUCK);
    ExecAppend(maxRetries, INIT, Ingested(), delivery);
    steps := Ingested() + delivery;
    EndedRests(Exec(maxRetries, INIT, steps));
  }

  lemma EndedRests(s: State)
    requires forall i :: 0 <= i < |s.carriers| ==> s.carriers[i].stage.Ended?
    ensures AtRest(s)
  {
  }
}
