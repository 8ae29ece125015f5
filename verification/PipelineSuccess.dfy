/** Runs in which nothing goes wrong: no call fails, no process crashes and no message comes twice. */
module PipelineSuccess {
  import opened Prelude
  import opened Domain
  import opened Pipeline
  import opened PipelineInvariant
  import opened PipelineOnce

  /** Where the copy of an event stands, and what has happened to the event by then. */
  ghost predicate OnTrack(c: Carrier, cell: Cell) {
    && cell.audit.failures == 0
    && match c.stage
       case AtPublish => cell.audit.history == [P]
       case OnEvents => cell.audit.history == [P]
       case AtFind => cell.audit.history == [P]
       case AtMarkProcessing(_) => cell.audit.history == [P]
       case AtWrite(_) => cell.audit.history == [P, G]
       case AtMarkProcessed => cell.audit.history == [P, G]
       case Ended(how) => how == Done && cell.audit.history == [P, G, D]
       case _ => false
  }

  /** The copy of event `e` is past its analytics write. */
  function WroteFor(e: EventId): Carrier -> bool {
    (c: Carrier) => c.event == e && (c.stage.AtMarkProcessed? || c.stage == Ended(Done))
  }

  /** Every event has one copy, which is on track. */
  ghost predicate AllOnTrack(s: State) {
    && (forall i, j :: 0 <= i < j < |s.carriers| ==> s.carriers[i].event != s.carriers[j].event)
    && (forall i :: 0 <= i < |s.carriers| ==>
          s.carriers[i].event in s.cells && OnTrack(s.carriers[i], s.cells[s.carriers[i].event]))
    && (forall e :: e in s.cells ==> HasCopy(s, e))
  }

  ghost predicate HasCopy(s: State, e: EventId) {
    exists i :: 0 <= i < |s.carriers| && s.carriers[i].event == e
  }

  /** Every event has as many analytics rows as copies past the write. */
  ghost predicate RowsWritten(s: State) {
    forall e :: RowsOf(s, e) == Count(s.carriers, WroteFor(e))
  }

  lemma CallStaysOnTrack(maxRetries: int, c: Carrier, cell: Cell, reply: Reply)
    requires Calling(c.stage) && CellOk(cell) && OnTrack(c, cell) && reply.ok
    ensures var r := NextCall(maxRetries, c, Some(cell), reply);
            && r.cell.Some? && r.carrier.event == c.event && OnTrack(r.carrier, r.cell.value)
  {
    assert [P] + [G] == [P, G] && [P, G] + [D] == [P, G, D];
  }

  lemma CallWritesItsRow(maxRetries: int, c: Carrier, cell: Cell, reply: Reply)
    requires Calling(c.stage) && CellOk(cell) && OnTrack(c, cell) && reply.ok
    ensures var r := NextCall(maxRetries, c, Some(cell), reply);
            && r.carrier.event == c.event
            && (if c.stage.AtWrite? then |r.log| == 1 && r.log[0].event == c.event else r.log == [])
            && (WroteFor(c.event)(r.carrier) <==> c.stage.AtWrite? || WroteFor(c.event)(c))
            && (c.stage.AtWrite? ==> !WroteFor(c.event)(c))
  {
  }

  lemma CopiesKept(s: State, s': State)
    requires |s'.carriers| >= |s.carriers| && s'.cells.Keys == s.cells.Keys
    requires forall i :: 0 <= i < |s.carriers| ==> s'.carriers[i].event == s.carriers[i].event
    requires forall e :: e in s.cells ==> HasCopy(s, e)
    ensures forall e :: e in s'.cells ==> HasCopy(s', e)
  {
    forall e | e in s'.cells ensures HasCopy(s', e) {
      assert e in s.cells && HasCopy(s, e);
      var i :| 0 <= i < |s.carriers| && s.carriers[i].event == e;
      assert s'.carriers[i].event == e;
    }
  }

  lemma CallKeepsTrack(maxRetries: int, s: State, i: nat, reply: Reply)
    requires Inv(maxRetries, s) && AllOnTrack(s) && Enabled(s, Call(i, reply)) && reply.ok
    ensures AllOnTrack(Apply(maxRetries, s, Call(i, reply)))
  {
    var c := s.carriers[i];
    var s' := Apply(maxRetries, s, Call(i, reply));
    assert CellOk(s.cells[c.event]) && OnTrack(c, s.cells[c.event]);
    CallStaysOnTrack(maxRetries, c, s.cells[c.event], reply);
    CopiesKept(s, s');
  }

  lemma FetchKeepsTrack(maxRetries: int, s: State, i: nat)
    requires AllOnTrack(s) && Enabled(s, Fetch(i))
    ensures AllOnTrack(Apply(maxRetries, s, Fetch(i)))
  {
    assert OnTrack(s.carriers[i], s.cells[s.carriers[i].event]);
    CopiesKept(s, Apply(maxRetries, s, Fetch(i)));
  }

  lemma IngestKeepsTrack(maxRetries: int, s: State, step: Step)
    requires Inv(maxRetries, s) && AllOnTrack(s) && Enabled(s, step) && step.Ingest? && step.ok
    ensures AllOnTrack(Apply(maxRetries, s, step))
  {
    var s' := Apply(maxRetries, s, step);
    forall e | e in s'.cells ensures HasCopy(s', e) {
      if e == step.id {
        assert s'.carriers[|s.carriers|].event == e;
      } else {
        assert HasCopy(s, e);
        var i :| 0 <= i < |s.carriers| && s.carriers[i].event == e;
        assert s'.carriers[i].event == e;
      }
    }
  }

  lemma CallKeepsRowsWritten(maxRetries: int, s: State, i: nat, reply: Reply)
    requires Inv(maxRetries, s) && AllOnTrack(s) && RowsWritten(s) && Enabled(s, Call(i, reply)) && reply.ok
    ensures RowsWritten(Apply(maxRetries, s, Call(i, reply)))
  {
    var c := s.carriers[i];
    var s' := Apply(maxRetries, s, Call(i, reply));
    var r := NextCall(maxRetries, c, Some(s.cells[c.event]), reply);
    assert CellOk(s.cells[c.event]) && OnTrack(c, s.cells[c.event]);
    CallWritesItsRow(maxRetries, c, s.cells[c.event], reply);
    forall e ensures RowsOf(s', e) == Count(s'.carriers, WroteFor(e)) {
      assert RowsOf(s, e) == Count(s.carriers, WroteFor(e));
      CountUpdate(s.carriers, i, r.carrier, WroteFor(e));
      if c.stage.AtWrite? {
        assert r.log == [r.log[0]];
        CountSnoc(s.analytics, r.log[0], EntryOf(e));
      } else {
        assert s.analytics + r.log == s.analytics;
      }
    }
  }

  lemma OtherKeepsRowsWritten(maxRetries: int, s: State, step: Step)
    requires RowsWritten(s) && Enabled(s, step) && (step.Fetch? || step.Ingest?)
    ensures RowsWritten(Apply(maxRetries, s, step))
  {
    var s' := Apply(maxRetries, s, step);
    forall e ensures RowsOf(s', e) == Count(s'.carriers, WroteFor(e)) {
      assert RowsOf(s, e) == Count(s.carriers, WroteFor(e));
      if step.Fetch? {
        CountUpdate(s.carriers, step.i, s'.carriers[step.i], WroteFor(e));
      } else if step.ok {
        CountSnoc(s.carriers, Carrier(step.id, 1, AtPublish), WroteFor(e));
      }
    }
  }

  lemma {:induction false} ReachableOnTrack(maxRetries: int, steps: seq<Step>)
    requires Legal(maxRetries, INIT, steps) && NoRedelivery(steps) && NothingFails(steps)
    ensures AllOnTrack(Exec(maxRetries, INIT, steps)) && RowsWritten(Exec(maxRetries, INIT, steps))
  {
    if |steps| > 0 {
      var n := |steps| - 1;
      var s := Exec(maxRetries, INIT, steps[..n]);
      ReachableOnTrack(maxRetries, steps[..n]);
      Reachable(maxRetries, steps[..n]);
      StepKeepsTrack(maxRetries, s, steps[n]);
    }
  }

  lemma StepKeepsTrack(maxRetries: int, s: State, step: Step)
    requires Inv(maxRetries, s) && AllOnTrack(s) && RowsWritten(s) && Enabled(s, step)
    requires NoRedelivery([step]) && NothingFails([step])
    ensures AllOnTrack(Apply(maxRetries, s, step)) && RowsWritten(Apply(maxRetries, s, step))
  {
    assert [step][0] == step;
    match step
    case Call(i, reply) =>
      CallKeepsTrack(maxRetries, s, i, reply);
      CallKeepsRowsWritten(maxRetries, s, i, reply);
    case Fetch(i) =>
      FetchKeepsTrack(maxRetries, s, i);
      OtherKeepsRowsWritten(maxRetries, s, step);
    case Ingest(_, _, _, _, _) =>
      IngestKeepsTrack(maxRetries, s, step);
      OtherKeepsRowsWritten(maxRetries, s, step);
  }

  lemma {:induction false} OnlyOneCounted(cs: seq<Carrier>, i: nat, p: Carrier -> bool)
    requires i < |cs| && p(cs[i]) && forall j :: 0 <= j < |cs| && j != i ==> !p(cs[j])
    ensures Count(cs, p) == 1
  {
    var n := |cs| - 1;
    if i == n {
      NoneCounted(cs[..n], p);
    } else {
      OnlyOneCounted(cs[..n], i, p);
    }
  }

  /** The event is processed, was never retried, and has its one analytics row. */
  ghost predicate DoneWith(s: State, e: EventId)
    requires e in s.cells
  {
    var row := s.cells[e].row;
    row.status == D && row.processedAt.Some? && row.retryCount == 0 && RowsOf(s, e) == 1
  }

  ghost predicate AllDone(s: State) {
    forall e :: e in s.cells ==> DoneWith(s, e)
  }

  lemma DoneCopy(s: State, e: EventId, i: nat)
    requires AllOnTrack(s) && RowsWritten(s) && e in s.cells && CellOk(s.cells[e])
    requires i < |s.carriers| && s.carriers[i].event == e && s.carriers[i].stage.Ended?
    ensures DoneWith(s, e)
  {
    assert OnTrack(s.carriers[i], s.cells[e]);
    OnlyOneCounted(s.carriers, i, WroteFor(e));
    assert RowsOf(s, e) == Count(s.carriers, WroteFor(e));
  }

  lemma RestMeansDone(maxRetries: int, s: State)
    requires Inv(maxRetries, s) && AllOnTrack(s) && RowsWritten(s) && AtRest(s)
    ensures AllDone(s)
  {
    forall e | e in s.cells ensures DoneWith(s, e) {
      assert HasCopy(s, e) && CellOk(s.cells[e]);
      var i :| 0 <= i < |s.carriers| && s.carriers[i].event == e;
      assert !Enabled(s, Fetch(i)) && !Enabled(s, Call(i, Reply(true, 0)));
      assert OnTrack(s.carriers[i], s.cells[e]);
      DoneCopy(s, e, i);
    }
  }

  /** However ingestion and deliveries interleave, when no call fails, no process crashes and nothing is
      redelivered, a run that has come to rest has processed every event, without a retry and with
      exactly one analytics row each. */
  lemma {:induction false} EverythingIsProcessed(maxRetries: int, steps: seq<Step>)
    requires Legal(maxRetries, INIT, steps) && NoRedelivery(steps) && NothingFails(steps)
    requires AtRest(Exec(maxRetries, INIT, steps))
    ensures AllDone(Exec(maxRetries, INIT, steps))
  {
    ReachableOnTrack(maxRetries, steps);
    Reachable(maxRetries, steps);
    RestMeansDone(maxRetries, Exec(maxRetries, INIT, steps));
  }
}
