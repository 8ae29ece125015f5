/** What commits settle: which events can still fail, which rows can still change, and the runs that show it. */
module CommitLaws {
  import opened Prelude
  import opened Domain
  import opened Pipeline
  import opened PipelineInvariant
  import opened PipelineOnce
  import opened PipelineFinality
  import opened Delivery
  import opened PipelineLimits
  import opened PipelineCommits

  // ----- pipeline steps as moves ----------------------------------------------------------------

  /** `steps` as moves, every redelivery being one of the record at offset `o`. */
  function Moves(o: nat, steps: seq<Step>): seq<Move> {
    if |steps| == 0 then []
    else
      var n := |steps| - 1;
      Moves(o, steps[..n]) + [if steps[n].Redeliver? then Again(o) else Do(steps[n])]
  }

  /** The record at offset `o` of the events topic carries `msg` and may be delivered again. */
  predicate Offers(g: Group, o: nat, msg: Msg) {
    o < |g.records| && !g.records[o].dlq && g.records[o].msg == msg && Redeliverable(g.records[o])
  }

  /** The records of `g` are still there, none of them has been committed since and no new one is. */
  ghost predicate Uncommitted(g: Group, g': Group) {
    && |g.records| <= |g'.records|
    && (forall o :: 0 <= o < |g.records| ==>
          var r, r' := g.records[o], g'.records[o];
          r'.dlq == r.dlq && r'.msg == r.msg && r'.committed == r.committed && (r.fetched ==> r'.fetched))
    && (forall o :: |g.records| <= o < |g'.records| ==> !g'.records[o].committed)
  }

  lemma MoveUncommitted(maxRetries: int, g: Group, m: Move)
    requires GroupOk(g) && CanMove(g, m) && !m.Commit?
    ensures Uncommitted(g, Make(maxRetries, g, m))
  {
    if m.Do? && (m.step.Call? || m.step.Fetch?) {
      assert CopyOk(g, m.step.i);
    }
  }

  lemma UncommittedTwice(a: Group, b: Group, c: Group)
    requires Uncommitted(a, b) && Uncommitted(b, c)
    ensures Uncommitted(a, c)
  {
  }

  /** The step as a move from a group that has come out of `g` without a commit. */
  lemma LiftStep(maxRetries: int, g: Group, o: nat, before: Group, step: Step)
    requires GroupOk(before) && Uncommitted(g, before) && Enabled(before.s, step) && !step.RedeliverDlq?
    requires step.Redeliver? ==> Offers(g, o, step.msg)
    ensures var m := if step.Redeliver? then Again(o) else Do(step);
            && CanMove(before, m) && Make(maxRetries, before, m).s == Apply(maxRetries, before.s, step)
            && Uncommitted(g, Make(maxRetries, before, m))
  {
    var m := if step.Redeliver? then Again(o) else Do(step);
    assert step.Redeliver? ==> Offers(before, o, step.msg);
    MoveUncommitted(maxRetries, before, m);
    UncommittedTwice(g, before, Make(maxRetries, before, m));
  }

  /** A run of the pipeline that redelivers nothing but the message of one record that is not committed
      is a run with commits. */
  lemma {:induction false} Lift(maxRetries: int, g: Group, o: nat, msg: Msg, steps: seq<Step>)
    requires GroupOk(g) && Legal(maxRetries, g.s, steps)
    requires NoRedelivery(steps) || (RedeliversOnly(steps, msg) && Offers(g, o, msg))
    ensures Possible(maxRetries, g, Moves(o, steps))
    ensures After(maxRetries, g, Moves(o, steps)).s == Exec(maxRetries, g.s, steps)
    ensures Uncommitted(g, After(maxRetries, g, Moves(o, steps)))
    decreases |steps|
  {
    if |steps| > 0 {
      var n := |steps| - 1;
      var m := if steps[n].Redeliver? then Again(o) else Do(steps[n]);
      var moves := Moves(o, steps[..n]);
      Lift(maxRetries, g, o, msg, steps[..n]);
      LiftStep(maxRetries, g, o, After(maxRetries, g, moves), steps[n]);
      AfterSnoc(maxRetries, g, moves, m);
      assert Moves(o, steps) == moves + [m];
    }
  }

  // ----- what is left to happen to an event --------------------------------------------------------

  /** A record of event `e` may be delivered again. */
  ghost predicate HasRecord(g: Group, e: EventId) {
    exists o :: 0 <= o < |g.records| && g.records[o].msg.event == e && Redeliverable(g.records[o])
  }

  /** Event `e` has a copy that is not past its processing mark. */
  ghost predicate HasFailingCopy(g: Group, e: EventId) {
    exists i :: 0 <= i < |g.s.carriers| && g.s.carriers[i].event == e && CanStillFail(g.s.carriers[i].stage)
  }

  /** Event `e` has a copy on a topic or in a process. */
  ghost predicate HasLiveCopy(g: Group, e: EventId) {
    exists i :: 0 <= i < |g.s.carriers| && g.s.carriers[i].event == e && !g.s.carriers[i].stage.Ended?
  }

  ghost predicate Exposed(g: Group, e: EventId) {
    HasStatus(g.s, e, Status.Failed) || HasRecord(g, e) || HasFailingCopy(g, e)
  }

  /** Nothing is left to happen: no copy of the event is live and all its fetched records are committed. */
  ghost predicate Quiet(g: Group, e: EventId) {
    !HasRecord(g, e) && !HasLiveCopy(g, e)
  }

  lemma {:induction false} CopyFails(maxRetries: int, g: Group, i: nat) returns (more: seq<Move>)
    requires GroupOk(g) && Inv(maxRetries, g.s) && i < |g.s.carriers| && CanStillFail(g.s.carriers[i].stage)
    ensures Possible(maxRetries, g, more)
    ensures HasStatus(After(maxRetries, g, more).s, g.s.carriers[i].event, Status.Failed)
    ensures MarkedSince(g.s, After(maxRetries, g, more).s, g.s.carriers[i].event)
  {
    var steps := CopyCanFail(maxRetries, g.s, i);
    Lift(maxRetries, g, 0, Msg(0, 0), steps);
    more := Moves(0, steps);
  }

  lemma AgainOpens(maxRetries: int, g: Group, o: nat)
    requires GroupOk(g) && Inv(maxRetries, g.s) && o < |g.records| && Redeliverable(g.records[o])
    ensures var s', n, e := Make(maxRetries, g, Again(o)).s, |g.s.carriers|, g.records[o].msg.event;
            && Inv(maxRetries, s') && |s'.carriers| == n + 1
            && s'.carriers[n].event == e && CanStillFail(s'.carriers[n].stage)
            && e in g.s.cells && e in s'.cells && s'.cells[e].audit.history == g.s.cells[e].audit.history
  {
    assert RecordOk(g.s, g.records[o]);
    StepKeepsInv(maxRetries, g.s, Redelivery(g.records[o]));
  }

  lemma {:induction false} MakeFirst(maxRetries: int, g: Group, m: Move, rest: seq<Move>)
    requires GroupOk(g) && CanMove(g, m) && GroupOk(Make(maxRetries, g, m))
    requires Possible(maxRetries, Make(maxRetries, g, m), rest)
    ensures Possible(maxRetries, g, [m] + rest)
    ensures After(maxRetries, g, [m] + rest) == After(maxRetries, Make(maxRetries, g, m), rest)
  {
    AfterSnoc(maxRetries, g, [], m);
    assert [] + [m] == [m];
    AfterAppend(maxRetries, g, [m], rest);
  }

  lemma {:induction false} RecordFails(maxRetries: int, g: Group, o: nat) returns (more: seq<Move>)
    requires GroupOk(g) && Inv(maxRetries, g.s) && o < |g.records| && Redeliverable(g.records[o])
    ensures Possible(maxRetries, g, more)
    ensures HasStatus(After(maxRetries, g, more).s, g.records[o].msg.event, Status.Failed)
    ensures MarkedSince(g.s, After(maxRetries, g, more).s, g.records[o].msg.event)
  {
    AgainOpens(maxRetries, g, o);
    MakeOk(maxRetries, g, Again(o));
    var rest := CopyFails(maxRetries, Make(maxRetries, g, Again(o)), |g.s.carriers|);
    MakeFirst(maxRetries, g, Again(o), rest);
    more := [Again(o)] + rest;
  }

  ghost predicate LeadsToFailed(maxRetries: int, g: Group, e: EventId, more: seq<Move>)
    requires GroupOk(g)
  {
    Possible(maxRetries, g, more) && HasStatus(After(maxRetries, g, more).s, e, Status.Failed)
  }

  // ----- nothing comes back -------------------------------------------------------------------------

  /** Every fetched record of event `e` is committed, and none of its copies is waiting on a topic: then
      no move brings one back. */
  lemma MoveKeepsCommitted(maxRetries: int, g: Group, m: Move, e: EventId)
    requires GroupOk(g) && CanMove(g, m) && e in g.s.cells && !HasRecord(g, e) && !HasFailingCopy(g, e)
    ensures !HasRecord(Make(maxRetries, g, m), e)
  {
    var g' := Make(maxRetries, g, m);
    if m.Do? && (m.step.Fetch? || m.step.Call?) {
      var i := m.step.i;
      assert CopyOk(g, i);
      assert g.s.carriers[i].event == e ==> !CanStillFail(g.s.carriers[i].stage);
    }
    forall o | 0 <= o < |g'.records| && g'.records[o].msg.event == e ensures !Redeliverable(g'.records[o]) {
      if o < |g.records| {
        assert g.records[o].msg.event == e ==> !Redeliverable(g.records[o]);
      }
    }
  }

  lemma CallKeepsPast(maxRetries: int, c: Carrier, cell: Option<Cell>, reply: Reply)
    requires Calling(c.stage) && !CanStillFail(c.stage)
    ensures !CanStillFail(NextCall(maxRetries, c, cell, reply).carrier.stage)
  {
  }

  lemma StepKeepsPast(maxRetries: int, s: State, step: Step, i: nat)
    requires Enabled(s, step) && i < |s.carriers| && !CanStillFail(s.carriers[i].stage)
    ensures var s' := Apply(maxRetries, s, step);
            && i < |s'.carriers| && !CanStillFail(s'.carriers[i].stage)
            && (s.carriers[i].stage.Ended? ==> s'.carriers[i].stage.Ended?)
  {
    if step.Call? && step.i == i {
      CallKeepsPast(maxRetries, s.carriers[i], Lookup(s.cells, s.carriers[i].event), step.reply);
    }
  }

  /** A move brings no copy closer to failing. */
  lemma CopyKeepsPast(maxRetries: int, g: Group, m: Move, i: nat)
    requires GroupOk(g) && CanMove(g, m) && i < |g.s.carriers| && !CanStillFail(g.s.carriers[i].stage)
    ensures var s' := Make(maxRetries, g, m).s;
            && i < |s'.carriers| && !CanStillFail(s'.carriers[i].stage)
            && (g.s.carriers[i].stage.Ended? ==> s'.carriers[i].stage.Ended?)
  {
    MoveIsSteps(maxRetries, g, m);
    if StepsOf(g, m) != [] {
      StepKeepsPast(maxRetries, g.s, StepsOf(g, m)[0], i);
    }
  }

  /** A copy a move adds is of an event that is new or has a record to deliver again. */
  lemma NewCopy(maxRetries: int, g: Group, m: Move, e: EventId)
    requires GroupOk(g) && CanMove(g, m) && e in g.s.cells && !HasRecord(g, e)
    ensures var s' := Make(maxRetries, g, m).s;
            forall i :: |g.s.carriers| <= i < |s'.carriers| ==> s'.carriers[i].event != e
    ensures var s' := Make(maxRetries, g, m).s;
            |g.s.carriers| <= |s'.carriers| &&
            forall i :: 0 <= i < |g.s.carriers| ==> s'.carriers[i].event == g.s.carriers[i].event
  {
  }

  lemma MoveKeepsPast(maxRetries: int, g: Group, m: Move, e: EventId)
    requires GroupOk(g) && CanMove(g, m) && e in g.s.cells && !HasRecord(g, e) && !HasFailingCopy(g, e)
    ensures !HasFailingCopy(Make(maxRetries, g, m), e)
  {
    var g' := Make(maxRetries, g, m);
    NewCopy(maxRetries, g, m, e);
    forall i | 0 <= i < |g'.s.carriers| && g'.s.carriers[i].event == e ensures !CanStillFail(g'.s.carriers[i].stage) {
      assert g.s.carriers[i].event == e;
      CopyKeepsPast(maxRetries, g, m, i);
    }
  }

  lemma MoveKeepsEnded(maxRetries: int, g: Group, m: Move, e: EventId)
    requires GroupOk(g) && CanMove(g, m) && e in g.s.cells && !HasRecord(g, e) && !HasLiveCopy(g, e)
    ensures !HasLiveCopy(Make(maxRetries, g, m), e)
  {
    var g' := Make(maxRetries, g, m);
    NewCopy(maxRetries, g, m, e);
    forall i | 0 <= i < |g'.s.carriers| && g'.s.carriers[i].event == e ensures g'.s.carriers[i].stage.Ended? {
      assert g.s.carriers[i].event == e && g.s.carriers[i].stage.Ended?;
      CopyKeepsPast(maxRetries, g, m, i);
    }
  }

  lemma MoveKeepsUnexposed(maxRetries: int, g: Group, m: Move, e: EventId)
    requires GroupOk(g) && CanMove(g, m) && e in g.s.cells && !Exposed(g, e)
    ensures e in Make(maxRetries, g, m).s.cells && !Exposed(Make(maxRetries, g, m), e)
  {
    MoveKeepsCommitted(maxRetries, g, m, e);
    MoveKeepsPast(maxRetries, g, m, e);
    if m.Do? && m.step.Call? {
      var c := g.s.carriers[m.step.i];
      assert c.event == e ==> !CanStillFail(c.stage);
    }
  }

  lemma {:induction false} UnexposedStays(maxRetries: int, g: Group, e: EventId, more: seq<Move>)
    requires GroupOk(g) && Possible(maxRetries, g, more) && e in g.s.cells && !Exposed(g, e)
    ensures e in After(maxRetries, g, more).s.cells && !Exposed(After(maxRetries, g, more), e)
    decreases |more|
  {
    if |more| > 0 {
      var n := |more| - 1;
      UnexposedStays(maxRetries, g, e, more[..n]);
      MoveKeepsUnexposed(maxRetries, After(maxRetries, g, more[..n]), more[n], e);
    }
  }

  ghost predicate CanFail(maxRetries: int, g: Group, e: EventId)
    requires GroupOk(g)
  {
    exists more :: LeadsToFailed(maxRetries, g, e, more)
  }

  /** After any run (and wherever what every run keeps holds), some continuation has the event failed if
      and only if it is failed already, or the broker may still deliver one of its records again, or one
      of its copies is live and not past its processing mark. */
  lemma {:induction false} CanFailIff(maxRetries: int, g: Group, e: EventId)
    requires GroupOk(g) && Inv(maxRetries, g.s) && e in g.s.cells
    ensures CanFail(maxRetries, g, e) <==> Exposed(g, e)
  {
    if Exposed(g, e) {
      var more := ExposedFails(maxRetries, g, e);
      assert LeadsToFailed(maxRetries, g, e, more);
    } else {
      forall more ensures !LeadsToFailed(maxRetries, g, e, more) {
        if Possible(maxRetries, g, more) {
          UnexposedStays(maxRetries, g, e, more);
        }
      }
    }
  }

  lemma {:induction false} ExposedFails(maxRetries: int, g: Group, e: EventId) returns (more: seq<Move>)
    requires GroupOk(g) && Inv(maxRetries, g.s) && Exposed(g, e)
    ensures LeadsToFailed(maxRetries, g, e, more)
  {
    if HasStatus(g.s, e, Status.Failed) {
      more := [];
    } else if HasRecord(g, e) {
      var o :| 0 <= o < |g.records| && g.records[o].msg.event == e && Redeliverable(g.records[o]);
      more := RecordFails(maxRetries, g, o);
    } else {
      var i :| 0 <= i < |g.s.carriers| && g.s.carriers[i].event == e && CanStillFail(g.s.carriers[i].stage);
      more := CopyFails(maxRetries, g, i);
    }
  }

  // ----- rows that can no longer change -------------------------------------------------------------

  /** The row of event `e`, what has happened to it, and its analytics rows are the same in both. */
  ghost predicate Unchanged(g: Group, g': Group, e: EventId) {
    e in g.s.cells && e in g'.s.cells && g'.s.cells[e] == g.s.cells[e] && RowsOf(g'.s, e) == RowsOf(g.s, e)
  }

  lemma QuietIsPast(g: Group, e: EventId)
    requires !HasLiveCopy(g, e)
    ensures !HasFailingCopy(g, e)
  {
    forall i | 0 <= i < |g.s.carriers| && g.s.carriers[i].event == e ensures !CanStillFail(g.s.carriers[i].stage) {
      assert g.s.carriers[i].stage.Ended?;
    }
  }

  lemma MoveLeavesQuiet(maxRetries: int, g: Group, m: Move, e: EventId)
    requires GroupOk(g) && CanMove(g, m) && e in g.s.cells && Quiet(g, e)
    ensures Unchanged(g, Make(maxRetries, g, m), e)
  {
    if m.Do? && m.step.Call? {
      var c := g.s.carriers[m.step.i];
      var r := NextCall(maxRetries, c, Lookup(g.s.cells, c.event), m.step.reply);
      assert c.event != e;
      CallWritesOnce(maxRetries, c, Lookup(g.s.cells, c.event), m.step.reply);
      if r.log == [] {
        assert g.s.analytics + r.log == g.s.analytics;
      } else {
        assert r.log == [r.log[0]];
        CountSnoc(g.s.analytics, r.log[0], EntryOf(e));
      }
    } else if m.Again? {
      assert g.records[m.offset].msg.event != e;
    }
  }

  lemma {:induction false} QuietStays(maxRetries: int, g: Group, e: EventId, more: seq<Move>)
    requires GroupOk(g) && Possible(maxRetries, g, more) && e in g.s.cells && Quiet(g, e)
    ensures Quiet(After(maxRetries, g, more), e) && Unchanged(g, After(maxRetries, g, more), e)
    decreases |more|
  {
    if |more| > 0 {
      var n := |more| - 1;
      var before := After(maxRetries, g, more[..n]);
      QuietStays(maxRetries, g, e, more[..n]);
      QuietIsPast(before, e);
      MoveKeepsCommitted(maxRetries, before, more[n], e);
      MoveKeepsEnded(maxRetries, before, more[n], e);
      MoveLeavesQuiet(maxRetries, before, more[n], e);
    }
  }

  lemma LastMark(maxRetries: int, s: State, i: nat)
    requires i < |s.carriers| && s.carriers[i].event in s.cells && s.carriers[i].stage.AtMarkProcessed?
    ensures MarkedSince(s, Apply(maxRetries, s, Call(i, YES)), s.carriers[i].event)
  {
  }

  lemma WriteComesBefore(maxRetries: int, s: State, i: nat)
    requires i < |s.carriers| && s.carriers[i].event in s.cells && s.carriers[i].stage.AtWrite?
    ensures var s' := Apply(maxRetries, s, Call(i, YES));
            && s'.cells == s.cells && i < |s'.carriers|
            && s'.carriers[i].event == s.carriers[i].event && s'.carriers[i].stage.AtMarkProcessed?
  {
  }

  /** A copy past its processing mark still marks its event processed. */
  lemma LateCopyMarks(maxRetries: int, s: State, i: nat) returns (steps: seq<Step>)
    requires i < |s.carriers| && s.carriers[i].event in s.cells
    requires s.carriers[i].stage.AtWrite? || s.carriers[i].stage.AtMarkProcessed?
    ensures NoRedelivery(steps) && Legal(maxRetries, s, steps)
    ensures MarkedSince(s, Exec(maxRetries, s, steps), s.carriers[i].event)
  {
    var call := Call(i, YES);
    steps := [call];
    ExecCons(maxRetries, s, call, []);
    assert [call] + [] == [call];
    if s.carriers[i].stage.AtWrite? {
      WriteComesBefore(maxRetries, s, i);
      LastMark(maxRetries, Apply(maxRetries, s, call), i);
      ExecSnoc(maxRetries, s, [call], call);
      steps := [call] + [call];
    } else {
      LastMark(maxRetries, s, i);
    }
  }

  lemma {:induction false} LoudIsMarked(maxRetries: int, g: Group, e: EventId) returns (more: seq<Move>)
    requires GroupOk(g) && Inv(maxRetries, g.s) && !Quiet(g, e)
    ensures Possible(maxRetries, g, more) && MarkedSince(g.s, After(maxRetries, g, more).s, e)
  {
    if HasRecord(g, e) {
      var o :| 0 <= o < |g.records| && g.records[o].msg.event == e && Redeliverable(g.records[o]);
      more := RecordFails(maxRetries, g, o);
    } else {
      var i :| 0 <= i < |g.s.carriers| && g.s.carriers[i].event == e && !g.s.carriers[i].stage.Ended?;
      if CanStillFail(g.s.carriers[i].stage) {
        more := CopyFails(maxRetries, g, i);
      } else {
        var steps := LateCopyMarks(maxRetries, g.s, i);
        Lift(maxRetries, g, 0, Msg(0, 0), steps);
        more := Moves(0, steps);
      }
    }
  }

  /** No continuation changes anything of the event. */
  ghost predicate Frozen(maxRetries: int, g: Group, e: EventId)
    requires GroupOk(g)
  {
    forall more :: Possible(maxRetries, g, more) ==> Unchanged(g, After(maxRetries, g, more), e)
  }

  lemma {:induction false} QuietIsFrozen(maxRetries: int, g: Group, e: EventId)
    requires GroupOk(g) && e in g.s.cells && Quiet(g, e)
    ensures Frozen(maxRetries, g, e)
  {
    forall more | Possible(maxRetries, g, more) ensures Unchanged(g, After(maxRetries, g, more), e) {
      QuietStays(maxRetries, g, e, more);
    }
  }

  /** After any run (and wherever what every run keeps holds), no continuation changes anything of the
      event if and only if all its fetched records are committed and all its copies have ended. */
  lemma {:induction false} FrozenIff(maxRetries: int, g: Group, e: EventId)
    requires GroupOk(g) && Inv(maxRetries, g.s) && e in g.s.cells
    ensures Frozen(maxRetries, g, e) <==> Quiet(g, e)
  {
    if Quiet(g, e) {
      QuietIsFrozen(maxRetries, g, e);
    } else {
      var more := LoudIsMarked(maxRetries, g, e);
      assert !Unchanged(g, After(maxRetries, g, more), e);
    }
  }

  // ----- when everything is settled -----------------------------------------------------------------

  /** A record that was fetched and not handled is in some process. */
  ghost predicate Held(g: Group, o: nat) {
    exists i :: 0 <= i < |g.at| && i < |g.s.carriers| && g.at[i] == o && InWork(g.s.carriers[i].stage)
  }

  ghost predicate NothingDropped(g: Group) {
    forall o :: 0 <= o < |g.records| && g.records[o].fetched && !g.records[o].handled ==> Held(g, o)
  }

  ghost predicate NoCrash(moves: seq<Move>) {
    forall k :: 0 <= k < |moves| && moves[k].Do? ==> !moves[k].step.Crash?
  }

  lemma MoveDropsNothing(maxRetries: int, g: Group, m: Move)
    requires GroupOk(g) && NothingDropped(g) && CanMove(g, m) && (m.Do? ==> !m.step.Crash?)
    ensures NothingDropped(Make(maxRetries, g, m))
  {
    var g' := Make(maxRetries, g, m);
    if m.Do? && (m.step.Call? || m.step.Fetch?) {
      assert CopyOk(g, m.step.i);
    }
    forall o | 0 <= o < |g'.records| && g'.records[o].fetched && !g'.records[o].handled ensures Held(g', o) {
      if m.Do? && m.step.Fetch? && g.at[m.step.i] == o {
        assert g'.at[m.step.i] == o && InWork(g'.s.carriers[m.step.i].stage);
      } else {
        assert Held(g, o);
        var i :| 0 <= i < |g.at| && i < |g.s.carriers| && g.at[i] == o && InWork(g.s.carriers[i].stage);
        assert g'.at[i] == o && InWork(g'.s.carriers[i].stage);
      }
    }
  }

  lemma {:induction false} ReachableDropsNothing(maxRetries: int, moves: seq<Move>)
    requires Possible(maxRetries, START, moves) && NoCrash(moves)
    ensures NothingDropped(After(maxRetries, START, moves))
    decreases |moves|
  {
    if |moves| > 0 {
      var n := |moves| - 1;
      ReachableDropsNothing(maxRetries, moves[..n]);
      MoveDropsNothing(maxRetries, After(maxRetries, START, moves[..n]), moves[n]);
    }
  }

  ghost predicate AllCommitted(g: Group) {
    forall o :: 0 <= o < |g.records| && g.records[o].handled ==> g.records[o].committed
  }

  lemma RestIsQuiet(g: Group, e: EventId)
    requires GroupOk(g) && NothingDropped(g) && AtRest(g.s) && AllCommitted(g)
    ensures Quiet(g, e)
  {
    forall i | 0 <= i < |g.s.carriers| ensures g.s.carriers[i].stage.Ended? {
      assert !Enabled(g.s, Fetch(i)) && !Enabled(g.s, Call(i, YES));
    }
    forall o | 0 <= o < |g.records| ensures !Redeliverable(g.records[o]) {
      assert g.records[o].fetched && !g.records[o].handled ==> Held(g, o);
    }
  }

  /** Some run from the start in which no process crashes leads to `g`. */
  ghost predicate ReachedWithoutCrash(maxRetries: int, g: Group) {
    GroupOk(g) &&
    exists moves :: Possible(maxRetries, START, moves) && NoCrash(moves) && After(maxRetries, START, moves) == g
  }

  /** Every event is out of reach of any continuation. */
  ghost predicate AllFrozen(maxRetries: int, g: Group)
    requires GroupOk(g)
  {
    forall e :: e in g.s.cells ==> Frozen(maxRetries, g, e)
  }

  /** When no process crashes, whatever calls fail and whatever is redelivered: once the pipeline is at
      rest and every commit went through, no continuation changes any event. */
  lemma {:induction false} SettledForGood(maxRetries: int, g: Group)
    requires ReachedWithoutCrash(maxRetries, g) && AtRest(g.s) && AllCommitted(g)
    ensures AllFrozen(maxRetries, g)
  {
    var moves :| Possible(maxRetries, START, moves) && NoCrash(moves) && After(maxRetries, START, moves) == g;
    ReachableDropsNothing(maxRetries, moves);
    forall e | e in g.s.cells ensures Frozen(maxRetries, g, e) {
      RestIsQuiet(g, e);
      QuietIsFrozen(maxRetries, g, e);
    }
  }

  /** What a move does to the record at offset `o`: it is fetched by the fetch of one of its deliveries,
      handled by the answered or unanswered call that ends one, and committed by its commit; a crash, or
      anything else, leaves it as it is. */
  lemma RecordMoves(maxRetries: int, g: Group, m: Move, o: nat)
    requires GroupOk(g) && CanMove(g, m) && o < |g.records|
    ensures var r, g' := g.records[o], Make(maxRetries, g, m);
            o < |g'.records| &&
            var r' := g'.records[o];
            && r'.dlq == r.dlq && r'.msg == r.msg
            && (r'.fetched <==> r.fetched || (m.Do? && m.step.Fetch? && g.at[m.step.i] == o))
            && (r'.handled <==> r.handled || (m.Do? && m.step.Call? && EndsDelivery(maxRetries, g, m.step, o)))
            && (r'.committed <==> r.committed || m == Commit(o))
  {
    if m.Do? && (m.step.Call? || m.step.Fetch?) {
      assert CopyOk(g, m.step.i);
    }
  }

  /** The call is made for a delivery of the record at offset `o`, and is its last. */
  predicate EndsDelivery(maxRetries: int, g: Group, step: Step, o: nat)
    requires step.Call? && Enabled(g.s, step) && |g.at| == |g.s.carriers|
  {
    && g.at[step.i] == o && InWork(g.s.carriers[step.i].stage)
    && !InWork(Apply(maxRetries, g.s, step).carriers[step.i].stage)
  }

  /** A process may crash between any two calls, and the crash loses nothing: the record it was handling,
      if no other process got through with it, is still there to be delivered again. */
  lemma CrashKeepsRecord(maxRetries: int, g: Group, i: nat)
    requires GroupOk(g) && i < |g.s.carriers| && InWork(g.s.carriers[i].stage)
    requires g.at[i] < |g.records| ==> !g.records[g.at[i]].handled
    ensures CanMove(g, Do(Crash(i)))
    ensures var g' := Make(maxRetries, g, Do(Crash(i)));
            && g'.s.cells == g.s.cells && g'.s.analytics == g.s.analytics
            && g'.s.carriers == g.s.carriers[i := g.s.carriers[i].(stage := Ended(Aborted))]
            && HasRecord(g', g.s.carriers[i].event)
  {
    var g' := Make(maxRetries, g, Do(Crash(i)));
    assert CopyOk(g, i);
    assert RecordOk(g.s, g.records[g.at[i]]);
    assert Redeliverable(g'.records[g.at[i]]);
  }

  // ----- runs from the start ------------------------------------------------------------------------

  /** No call fails and no process crashes. */
  ghost predicate NothingGoesWrong(moves: seq<Move>) {
    forall k :: 0 <= k < |moves| && moves[k].Do? ==> NothingFails([moves[k].step])
  }

  lemma {:induction false} MovesGoWell(o: nat, steps: seq<Step>)
    requires NothingFails(steps)
    ensures |Moves(o, steps)| == |steps| && NothingGoesWrong(Moves(o, steps))
  {
    if |steps| > 0 {
      MovesGoWell(o, steps[..|steps| - 1]);
    }
  }

  /** A copy in a process that came there by moves without a commit can be delivered again. */
  lemma HeldIsOffered(g: Group, i: nat)
    requires GroupOk(g) && Uncommitted(START, g) && i < |g.s.carriers| && InDelivery(g.s.carriers[i].stage)
    ensures Offers(g, g.at[i], Msg(g.s.carriers[i].event, g.s.carriers[i].attempt))
  {
    assert CopyOk(g, i);
  }

  /** Event 7 inserted, published and fetched for the first time. */
  lemma FirstFetch(maxRetries: int) returns (moves: seq<Move>, o: nat)
    ensures Possible(maxRetries, START, moves) && NothingGoesWrong(moves)
    ensures Single(After(maxRetries, START, moves).s, 1, AtFind)
    ensures Offers(After(maxRetries, START, moves), o, Msg(7, 1))
    ensures Msg(7, 1) in After(maxRetries, START, moves).s.delivered
  {
    var steps := HandedOut(maxRetries);
    Lift(maxRetries, START, 0, Msg(7, 1), steps);
    moves := Moves(0, steps);
    MovesGoWell(0, steps);
    HeldIsOffered(After(maxRetries, START, moves), 0);
    o := After(maxRetries, START, moves).at[0];
  }

  /** After `before` the event has `status`, and `last` takes it back to processing. */
  ghost predicate Loses(maxRetries: int, g: Group, before: seq<Move>, last: Move, e: EventId, status: Status)
    requires GroupOk(g)
  {
    && Possible(maxRetries, g, before) && HasStatus(After(maxRetries, g, before).s, e, status)
    && Possible(maxRetries, g, before + [last])
    && HasStatus(After(maxRetries, g, before + [last]).s, e, Status.Processing)
  }

  /** Some continuation takes the event to `status` and then back to processing. */
  ghost predicate CanLose(maxRetries: int, g: Group, e: EventId, status: Status)
    requires GroupOk(g)
  {
    exists before, last :: Loses(maxRetries, g, before, last, e, status)
  }

  /** Some such continuation has no failing call and no crash. */
  ghost predicate LosesWithoutFailure(maxRetries: int, g: Group, e: EventId, status: Status)
    requires GroupOk(g)
  {
    exists before, last :: Loses(maxRetries, g, before, last, e, status) && NothingGoesWrong(before + [last])
  }

  lemma {:induction false} LiftWithLast(maxRetries: int, g: Group, o: nat, msg: Msg, steps: seq<Step>, step: Step)
    returns (before: seq<Move>, last: Move)
    requires GroupOk(g) && Offers(g, o, msg) && Legal(maxRetries, g.s, steps) && RedeliversOnly(steps + [step], msg)
    requires Enabled(Exec(maxRetries, g.s, steps), step)
    ensures before == Moves(o, steps) && before + [last] == Moves(o, steps + [step])
    ensures Possible(maxRetries, g, before) && Possible(maxRetries, g, before + [last])
    ensures After(maxRetries, g, before).s == Exec(maxRetries, g.s, steps)
    ensures After(maxRetries, g, before + [last]).s == Apply(maxRetries, Exec(maxRetries, g.s, steps), step)
  {
    assert (steps + [step])[..|steps|] == steps;
    forall k | 0 <= k < |steps| ensures steps[k] == (steps + [step])[k] {
    }
    ExecSnoc(maxRetries, g.s, steps, step);
    Lift(maxRetries, g, o, msg, steps);
    Lift(maxRetries, g, o, msg, steps + [step]);
    before, last := Moves(o, steps), if step.Redeliver? then Again(o) else Do(step);
  }

  lemma {:induction false} LosesLater(maxRetries: int, first: seq<Move>, before: seq<Move>, last: Move,
                                      e: EventId, status: Status)
    requires Possible(maxRetries, START, first)
    requires Loses(maxRetries, After(maxRetries, START, first), before, last, e, status)
    ensures Loses(maxRetries, START, first + before, last, e, status)
  {
    AfterAppend(maxRetries, START, first, before);
    AfterAppend(maxRetries, START, first, before + [last]);
    assert first + before + [last] == first + (before + [last]);
  }

  lemma GoesWellLater(first: seq<Move>, before: seq<Move>, last: Move)
    requires NothingGoesWrong(first) && NothingGoesWrong(before + [last])
    ensures NothingGoesWrong(first + before + [last])
  {
    assert first + before + [last] == first + (before + [last]);
  }

  /** Processed is lost even when nothing fails. After any run, if an open event has a record on the
      events topic that is fetched and not committed, two overlapping deliveries of it, all of whose
      calls are answered, take the event first to processed and then back to processing. */
  lemma {:induction false} OverlapLosesProcessed(maxRetries: int, g: Group, o: nat, msg: Msg)
    requires GroupOk(g) && Offers(g, o, msg) && msg.event in g.s.cells && !Terminal(g.s.cells[msg.event].row.status)
    ensures LosesWithoutFailure(maxRetries, g, msg.event, Status.Processed)
  {
    assert RecordOk(g.s, g.records[o]);
    var steps, step := OverlapUndoesProcessed(maxRetries, g.s, msg);
    var before, last := LiftWithLast(maxRetries, g, o, msg, steps, step);
    MovesGoWell(o, steps + [step]);
    assert (steps + [step])[..|steps|] == steps;
    assert Loses(maxRetries, g, before, last, msg.event, Status.Processed);
  }

  /** Such a run exists from the start, for every retry limit. */
  lemma {:induction false} AnsweredRunLosesProcessed(maxRetries: int)
    ensures LosesWithoutFailure(maxRetries, START, 7, Status.Processed)
  {
    var first, o := FirstFetch(maxRetries);
    var g := After(maxRetries, START, first);
    OverlapLosesProcessed(maxRetries, g, o, Msg(7, 1));
    var before, last :|
      Loses(maxRetries, g, before, last, 7, Status.Processed) && NothingGoesWrong(before + [last]);
    LosesLater(maxRetries, first, before, last, 7, Status.Processed);
    GoesWellLater(first, before, last);
  }

  /** So is failed: after any run, if an open event has an uncommitted record of the last attempt, two
      overlapping deliveries of it take the event first to failed and then back to processing. */
  lemma {:induction false} OverlapLosesFailed(maxRetries: int, g: Group, o: nat, msg: Msg)
    requires GroupOk(g) && Offers(g, o, msg) && msg.event in g.s.cells && !Terminal(g.s.cells[msg.event].row.status)
    requires msg.attempt >= maxRetries
    ensures CanLose(maxRetries, g, msg.event, Status.Failed)
  {
    assert RecordOk(g.s, g.records[o]);
    var steps, step := OverlapUndoesFailed(maxRetries, g.s, msg);
    var before, last := LiftWithLast(maxRetries, g, o, msg, steps, step);
    assert Loses(maxRetries, g, before, last, msg.event, Status.Failed);
  }

  /** Such a run exists from the start, for every retry limit. */
  lemma {:induction false} RunLosesFailed(maxRetries: int)
    ensures CanLose(maxRetries, START, 7, Status.Failed)
  {
    var msg := Msg(7, LastAttempt(maxRetries));
    var steps := LastAttemptFetched(maxRetries);
    Lift(maxRetries, START, 0, msg, steps);
    var g := After(maxRetries, START, Moves(0, steps));
    HeldIsOffered(g, 0);
    OverlapLosesFailed(maxRetries, g, g.at[0], msg);
    var before, last :| Loses(maxRetries, g, before, last, 7, Status.Failed);
    LosesLater(maxRetries, Moves(0, steps), before, last, 7, Status.Failed);
  }

  /** `g'` differs from `g` in commits only, and the first `n` records of it are committed if handled. */
  ghost predicate CommitsUpTo(g: Group, g': Group, n: nat) {
    && g'.s == g.s && g'.at == g.at && n <= |g'.records| == |g.records|
    && (forall o :: 0 <= o < |g.records| ==> g'.records[o].(committed := true) == g.records[o].(committed := true))
    && forall o :: 0 <= o < n && g'.records[o].handled ==> g'.records[o].committed
  }

  lemma CommitsOneMore(maxRetries: int, g: Group, g': Group, n: nat)
    requires GroupOk(g') && CommitsUpTo(g, g', n) && n < |g'.records|
    ensures g'.records[n].handled ==>
              CanMove(g', Commit(n)) && CommitsUpTo(g, Make(maxRetries, g', Commit(n)), n + 1)
    ensures !g'.records[n].handled ==> CommitsUpTo(g, g', n + 1)
  {
  }

  lemma {:induction false} CommitNext(maxRetries: int, g: Group, moves: seq<Move>, n: nat) returns (more: seq<Move>)
    requires GroupOk(g) && Possible(maxRetries, g, moves) && NoCrash(moves)
    requires CommitsUpTo(g, After(maxRetries, g, moves), n) && n < |g.records|
    ensures Possible(maxRetries, g, more) && NoCrash(more)
    ensures CommitsUpTo(g, After(maxRetries, g, more), n + 1)
  {
    var g' := After(maxRetries, g, moves);
    CommitsOneMore(maxRetries, g, g', n);
    more := moves;
    if g'.records[n].handled {
      AfterSnoc(maxRetries, g, moves, Commit(n));
      more := moves + [Commit(n)];
    }
  }

  /** What was handled can be committed. */
  lemma {:induction false} CommitUpTo(maxRetries: int, g: Group, n: nat) returns (moves: seq<Move>)
    requires GroupOk(g) && n <= |g.records|
    ensures Possible(maxRetries, g, moves) && NoCrash(moves)
    ensures CommitsUpTo(g, After(maxRetries, g, moves), n)
  {
    if n == 0 {
      moves := [];
    } else {
      var before := CommitUpTo(maxRetries, g, n - 1);
      moves := CommitNext(maxRetries, g, before, n - 1);
    }
  }

  /** An event inserted, published, fetched and processed, with nothing failing and its record not yet
      committed. */
  lemma {:induction false} FirstProcessed(maxRetries: int) returns (moves: seq<Move>, o: nat)
    ensures Possible(maxRetries, START, moves) && NothingGoesWrong(moves)
    ensures var g := After(maxRetries, START, moves);
            && HasStatus(g.s, 7, Status.Processed) && AtRest(g.s) && Offers(g, o, Msg(7, 1))
  {
    var first;
    first, o := FirstFetch(maxRetries);
    var g := After(maxRetries, START, first);
    var steps := AnsweredCalls(maxRetries, g.s, 0, Msg(7, 1));
    Lift(maxRetries, g, o, Msg(7, 1), steps);
    MovesGoWell(o, steps);
    EndedRests(After(maxRetries, g, Moves(o, steps)).s);
    AfterAppend(maxRetries, START, first, Moves(o, steps));
    moves := first + Moves(o, steps);
  }

  /** The processed event 7 can still fail after the run to `g`, and never changes after the one to `g'`,
      which differs in commits only. */
  ghost predicate Decides(maxRetries: int, g: Group, g': Group) {
    && Reached(maxRetries, g) && Reached(maxRetries, g') && CommitsUpTo(g, g', |g.records|)
    && HasStatus(g.s, 7, Status.Processed)
    && CanFail(maxRetries, g, 7) && Frozen(maxRetries, g', 7)
  }

  /** After a run without a crash that is at rest, commits alone lead to where nothing changes any more. */
  lemma {:induction false} CommitsSettle(maxRetries: int, moves: seq<Move>, e: EventId) returns (g': Group)
    requires Possible(maxRetries, START, moves) && NoCrash(moves)
    requires AtRest(After(maxRetries, START, moves).s) && e in After(maxRetries, START, moves).s.cells
    ensures ReachedWithoutCrash(maxRetries, g') && Reached(maxRetries, g') && Frozen(maxRetries, g', e)
    ensures var g := After(maxRetries, START, moves); CommitsUpTo(g, g', |g.records|)
  {
    var g := After(maxRetries, START, moves);
    var commits := CommitUpTo(maxRetries, g, |g.records|);
    g' := After(maxRetries, g, commits);
    AfterAppend(maxRetries, START, moves, commits);
    assert NoCrash(moves + commits);
    SettledForGood(maxRetries, g');
  }

  /** What a commit decides, for every retry limit: a run from the start comes to a processed event that
      still has a continuation that fails it, and after the commit of its record, with all else the same,
      has none that changes anything of it. */
  lemma {:induction false} CommitDecides(maxRetries: int)
    ensures exists g, g' :: Decides(maxRetries, g, g')
  {
    var moves, o := FirstProcessed(maxRetries);
    var g := After(maxRetries, START, moves);
    assert Reached(maxRetries, g);
    ReachedIsOk(maxRetries, g);
    CanFailIff(maxRetries, g, 7);
    WellMeansNoCrash(moves);
    var g' := CommitsSettle(maxRetries, moves, 7);
    assert Decides(maxRetries, g, g');
  }

  lemma WellMeansNoCrash(moves: seq<Move>)
    requires NothingGoesWrong(moves)
    ensures NoCrash(moves)
  {
    forall k | 0 <= k < |moves| && moves[k].Do? ensures !moves[k].step.Crash? {
      assert NothingFails([moves[k].step]) && [moves[k].step][0] == moves[k].step;
    }
  }

  lemma {:induction false} MovesDoNotCrash(o: nat, steps: seq<Step>)
    requires CrashFree(steps)
    ensures NoCrash(Moves(o, steps))
  {
    if |steps| > 0 {
      MovesDoNotCrash(o, steps[..|steps| - 1]);
    }
  }

  /** A run without a crash that comes to rest with event 7 pending. */
  lemma {:induction false} LostRun(maxRetries: int) returns (moves: seq<Move>)
    ensures Possible(maxRetries, START, moves) && NoCrash(moves)
    ensures var s := After(maxRetries, START, moves).s; AtRest(s) && HasStatus(s, 7, Status.Pending)
  {
    var steps := MessageCanBeLost(maxRetries);
    Lift(maxRetries, START, 0, Msg(7, 1), steps);
    MovesDoNotCrash(0, steps);
    moves := Moves(0, steps);
  }

  /** Event 7 is pending after a run without a crash, and no continuation changes that. */
  ghost predicate LostAfter(maxRetries: int, g: Group) {
    ReachedWithoutCrash(maxRetries, g) && HasStatus(g.s, 7, Status.Pending) && Frozen(maxRetries, g, 7)
  }

  /** A message can be lost for good: for every retry limit a run without a crash commits it although the
      publish that should pass it on failed, and no continuation changes the pending event any more. */
  lemma {:induction false} LostForGood(maxRetries: int)
    ensures exists g :: LostAfter(maxRetries, g)
  {
    var moves := LostRun(maxRetries);
    var g := CommitsSettle(maxRetries, moves, 7);
    assert LostAfter(maxRetries, g);
  }
}
