/** What holds in every run of the pipeline: any interleaving, any failures, any redeliveries. */
module PipelineInvariant {
  import opened Prelude
  import opened Domain
  import opened Pipeline

  // ----- rows, attempts and analytics -------------------------------------------------------

  /** `processed_at` is set exactly on processed rows; the row's status is the last one written;
      `pending` is only the first. Retry increments are accounted for. */
  ghost predicate CellOk(cell: Cell) {
    var h := cell.audit.history;
    && |h| > 0 && h[0] == Status.Pending
    && (forall k :: 0 < k < |h| ==> h[k] != Status.Pending)
    && cell.row.status == h[|h| - 1]
    && (cell.row.processedAt.Some? <==> cell.row.status == Status.Processed)
    && cell.row.retryCount + cell.audit.missed == cell.audit.failures
  }

  /** A row a delivery may go on to write to analytics. */
  predicate Fresh(snap: Row) {
    !Terminal(snap.status) && snap.processedAt.None?
  }

  /** Stages that are reached only after the last attempt has failed. */
  predicate OutOfAttempts(stage: Stage) {
    stage.AtMarkFailed? || stage.AtPublishDlq? || stage.OnDlq? || stage.AtDlqMark?
    || stage == Ended(DlqLost) || stage == Ended(DlqHandled)
  }

  ghost predicate CarrierOk(maxRetries: int, c: Carrier) {
    && 1 <= c.attempt <= LastAttempt(maxRetries)
    && (OutOfAttempts(c.stage) ==> c.attempt == LastAttempt(maxRetries))
    && (c.stage.AtPublishRetry? ==> c.attempt < maxRetries)
    && (c.stage.AtMarkProcessing? ==> Fresh(c.stage.snap))
    && (c.stage.AtWrite? ==> Fresh(c.stage.snap))
  }

  ghost predicate LogOk(entry: LogRow) {
    !Terminal(entry.status) && entry.date == DayOf(entry.processedAt)
  }

  ghost predicate Inv(maxRetries: int, s: State) {
    && (forall id :: id in s.cells ==> CellOk(s.cells[id]))
    && (forall i :: 0 <= i < |s.carriers| ==>
          CarrierOk(maxRetries, s.carriers[i]) && s.carriers[i].event in s.cells)
    && (forall m :: m in s.delivered ==> 1 <= m.attempt <= LastAttempt(maxRetries) && m.event in s.cells)
    && (forall m :: m in s.dlqDelivered ==> m.attempt == LastAttempt(maxRetries) && m.event in s.cells)
    && (forall k :: 0 <= k < |s.analytics| ==> LogOk(s.analytics[k]) && s.analytics[k].event in s.cells)
  }

  /** One call keeps what it touches in order, and dates the row it writes by the clock it read. */
  lemma NextCallOk(maxRetries: int, c: Carrier, cell: Cell, reply: Reply)
    requires Calling(c.stage) && CarrierOk(maxRetries, c) && CellOk(cell)
    ensures var r := NextCall(maxRetries, c, Some(cell), reply);
            && r.cell.Some? && CellOk(r.cell.value) && CarrierOk(maxRetries, r.carrier)
            && r.carrier.event == c.event
            && (forall k :: 0 <= k < |r.log| ==>
                  LogOk(r.log[k]) && r.log[k].event == c.event
                  && r.log[k].processedAt == reply.at && r.log[k].date == DayOf(reply.at))
  {
  }

  lemma {:induction false} CallKeepsInv(maxRetries: int, s: State, i: nat, reply: Reply)
    requires Inv(maxRetries, s) && Enabled(s, Call(i, reply))
    ensures Inv(maxRetries, Apply(maxRetries, s, Call(i, reply)))
  {
    var c := s.carriers[i];
    assert CarrierOk(maxRetries, c) && CellOk(s.cells[c.event]);
    NextCallOk(maxRetries, c, s.cells[c.event], reply);
    var log := NextCall(maxRetries, c, Lookup(s.cells, c.event), reply).log;
    forall k | 0 <= k < |s.analytics + log|
      ensures LogOk((s.analytics + log)[k]) && (s.analytics + log)[k].event in s.cells
    {
      if k >= |s.analytics| {
        assert (s.analytics + log)[k] == log[k - |s.analytics|];
      }
    }
  }

  lemma {:induction false} StepKeepsInv(maxRetries: int, s: State, step: Step)
    requires Inv(maxRetries, s) && Enabled(s, step)
    ensures Inv(maxRetries, Apply(maxRetries, s, step))
  {
    match step
    case Call(i, reply) => CallKeepsInv(maxRetries, s, i, reply);
    case Redeliver(msg) => ArrivalKeepsInv(maxRetries, s, step, msg);
    case RedeliverDlq(msg) => ArrivalKeepsInv(maxRetries, s, step, msg);
    case Ingest(_, _, _, _, _) => IngestKeepsInv(maxRetries, s, step);
    case Fetch(_) => MoveKeepsInv(maxRetries, s, step);
    case Crash(_) => MoveKeepsInv(maxRetries, s, step);
  }

  lemma ArrivalKeepsInv(maxRetries: int, s: State, step: Step, msg: Msg)
    requires Inv(maxRetries, s) && Enabled(s, step) && (step == Redeliver(msg) || step == RedeliverDlq(msg))
    ensures Inv(maxRetries, Apply(maxRetries, s, step))
  {
    assert msg.event in s.cells && CellOk(s.cells[msg.event]);
  }

  lemma IngestKeepsInv(maxRetries: int, s: State, step: Step)
    requires Inv(maxRetries, s) && Enabled(s, step) && step.Ingest?
    ensures Inv(maxRetries, Apply(maxRetries, s, step))
  {
  }

  lemma MoveKeepsInv(maxRetries: int, s: State, step: Step)
    requires Inv(maxRetries, s) && Enabled(s, step) && (step.Fetch? || step.Crash?)
    ensures Inv(maxRetries, Apply(maxRetries, s, step))
  {
    var i := step.i;
    assert CarrierOk(maxRetries, s.carriers[i]);
  }

  /** In every reachable state every event message has an attempt between 1 and the last, every
      dead-letter message has the last one, a row is stamped `processed_at` exactly when processed,
      no row goes back to pending, and every analytics row is dated by its own timestamp. */
  lemma {:induction false} Reachable(maxRetries: int, steps: seq<Step>)
    requires Legal(maxRetries, INIT, steps)
    ensures Inv(maxRetries, Exec(maxRetries, INIT, steps))
  {
    if |steps| > 0 {
      var n := |steps| - 1;
      Reachable(maxRetries, steps[..n]);
      StepKeepsInv(maxRetries, Exec(maxRetries, INIT, steps[..n]), steps[n]);
    }
  }

  /** The step, if it adds to analytics, is a write that adds one row: a snapshot taken before the
      event was processed, dated by the UTC day of the write itself. */
  ghost predicate DatedByTheWrite(s: State, step: Step, s': State) {
    s'.analytics != s.analytics ==>
      && step.Call? && step.i < |s.carriers| && s.carriers[step.i].stage.AtWrite?
      && |s'.analytics| == |s.analytics| + 1 && s'.analytics[..|s.analytics|] == s.analytics
      && var entry := s'.analytics[|s.analytics|];
         && var snap := s.carriers[step.i].stage.snap;
         && entry.event == s.carriers[step.i].event
         && entry.source == snap.source && entry.eventType == snap.eventType && entry.status == snap.status
         && (entry.status == Status.Pending || entry.status == Status.Processing)
         && entry.processedAt == step.reply.at
         && entry.date <= step.reply.at < entry.date + 86400 && entry.date % 86400 == 0
  }

  lemma StepDatesItsWrite(maxRetries: int, s: State, step: Step)
    requires Inv(maxRetries, s) && Enabled(s, step)
    ensures DatedByTheWrite(s, step, Apply(maxRetries, s, step))
  {
    if step.Call? {
      var c := s.carriers[step.i];
      assert CarrierOk(maxRetries, c) && CellOk(s.cells[c.event]);
      NextCallOk(maxRetries, c, s.cells[c.event], step.reply);
      if !c.stage.AtWrite? { assert s.analytics + [] == s.analytics; }
    }
  }

  /** Every analytics row a run adds is dated by its write. */
  lemma {:induction false} AnalyticsDatedByTheWrite(maxRetries: int, steps: seq<Step>, step: Step)
    requires Legal(maxRetries, INIT, steps)
    requires Enabled(Exec(maxRetries, INIT, steps), step)
    ensures DatedByTheWrite(Exec(maxRetries, INIT, steps), step, Apply(maxRetries, Exec(maxRetries, INIT, steps), step))
  {
    Reachable(maxRetries, steps);
    StepDatesItsWrite(maxRetries, Exec(maxRetries, INIT, steps), step);
  }

  // ----- conservation -----------------------------------------------------------------------

  datatype Place = EventsTopic | DlqTopic | InProcess | Gone(how: Ending)

  function PlaceOf(stage: Stage): Place {
    if stage.OnEvents? then EventsTopic
    else if stage.OnDlq? then DlqTopic
    else if stage.Ended? then Gone(stage.how)
    else InProcess
  }

  function At(place: Place): Carrier -> bool {
    (c: Carrier) => PlaceOf(c.stage) == place
  }

  /** How many message copies are at `place`. */
  function Copies(s: State, place: Place): nat {
    Count(s.carriers, At(place))
  }

  lemma CopiesMove(cs: seq<Carrier>, i: nat, c: Carrier, place: Place)
    requires i < |cs|
    ensures Count(cs[i := c], At(place)) ==
            Count(cs, At(place)) - (if PlaceOf(cs[i].stage) == place then 1 else 0)
                                 + (if PlaceOf(c.stage) == place then 1 else 0)
  {
    CountUpdate(cs, i, c, At(place));
  }

  /** Inserts and redeliveries, each of which made one copy. */
  function Arrivals(s: State): nat {
    s.inserted + s.redelivered + s.dlqRedelivered
  }

  ghost predicate Tallied(s: State) {
    && (forall how :: Copies(s, Gone(how)) == s.ended[how])
    && |s.carriers| == Arrivals(s)
  }

  /** Moving a copy that has not ended tallies its ending, if it ends. */
  lemma MoveTallies(s: State, i: nat, c: Carrier, how: Ending)
    requires Tallied(s) && i < |s.carriers| && !s.carriers[i].stage.Ended?
    ensures Count(s.carriers[i := c], At(Gone(how))) == (s.ended + EndingOf(c.stage))[how]
  {
    CopiesMove(s.carriers, i, c, Gone(how));
    assert Copies(s, Gone(how)) == s.ended[how];
  }

  /** A step that handles an existing message copy. */
  predicate Handling(step: Step) {
    step.Fetch? || step.Call? || step.Crash?
  }

  /** The carrier a handling step handles. */
  function HandledCopy(step: Step): nat
    requires Handling(step)
  {
    match step
    case Fetch(i) => i
    case Call(i, _) => i
    case Crash(i) => i
  }

  lemma HandlingKeepsTally(maxRetries: int, s: State, step: Step)
    requires Tallied(s) && Enabled(s, step) && Handling(step)
    ensures Tallied(Apply(maxRetries, s, step))
  {
    var s' := Apply(maxRetries, s, step);
    var i := HandledCopy(step);
    var c := s'.carriers[i];
    assert s'.carriers == s.carriers[i := c] && s'.ended == s.ended + EndingOf(c.stage);
    forall how ensures Copies(s', Gone(how)) == s'.ended[how] {
      MoveTallies(s, i, c, how);
    }
  }

  lemma ArrivalKeepsTally(maxRetries: int, s: State, step: Step)
    requires Tallied(s) && Enabled(s, step) && !Handling(step)
    ensures Tallied(Apply(maxRetries, s, step))
  {
    var s' := Apply(maxRetries, s, step);
    if s' != s {
      var c := s'.carriers[|s.carriers|];
      assert s'.carriers == s.carriers + [c];
      forall how ensures Copies(s', Gone(how)) == s'.ended[how] {
        CountSnoc(s.carriers, c, At(Gone(how)));
        assert Copies(s, Gone(how)) == s.ended[how];
      }
    }
  }

  lemma {:induction false} ReachableTally(maxRetries: int, steps: seq<Step>)
    requires Legal(maxRetries, INIT, steps)
    ensures Tallied(Exec(maxRetries, INIT, steps))
  {
    if |steps| > 0 {
      var n := |steps| - 1;
      ReachableTally(maxRetries, steps[..n]);
      if Handling(steps[n]) {
        HandlingKeepsTally(maxRetries, Exec(maxRetries, INIT, steps[..n]), steps[n]);
      } else {
        ArrivalKeepsTally(maxRetries, Exec(maxRetries, INIT, steps[..n]), steps[n]);
      }
    }
  }

  lemma {:induction false} PlacesPartition(cs: seq<Carrier>)
    ensures |cs| == Count(cs, At(EventsTopic)) + Count(cs, At(DlqTopic)) + Count(cs, At(InProcess))
                  + Count(cs, At(Gone(NeverPublished))) + Count(cs, At(Gone(Done)))
                  + Count(cs, At(Gone(RetryLost))) + Count(cs, At(Gone(DlqLost)))
                  + Count(cs, At(Gone(DlqHandled))) + Count(cs, At(Gone(Aborted)))
  {
    if |cs| > 0 {
      PlacesPartition(cs[..|cs| - 1]);
      forall place { LastCopy(cs, place); }
      OnePlace(PlaceOf(cs[|cs| - 1].stage));
    }
  }

  function Bit(b: bool): nat {
    if b then 1 else 0
  }

  lemma LastCopy(cs: seq<Carrier>, place: Place)
    requires |cs| > 0
    ensures Count(cs, At(place)) == Count(cs[..|cs| - 1], At(place)) + Bit(PlaceOf(cs[|cs| - 1].stage) == place)
  {
  }

  lemma OnePlace(place: Place)
    ensures 1 == Bit(place == EventsTopic) + Bit(place == DlqTopic) + Bit(place == InProcess)
                 + Bit(place == Gone(NeverPublished)) + Bit(place == Gone(Done)) + Bit(place == Gone(RetryLost))
                 + Bit(place == Gone(DlqLost)) + Bit(place == Gone(DlqHandled)) + Bit(place == Gone(Aborted))
  {
    if place.Gone? {
      match place.how {
        case NeverPublished =>
        case Done =>
        case RetryLost =>
        case DlqLost =>
        case DlqHandled =>
        case Aborted =>
      }
    }
  }

  /** Every copy made is on a topic, held by a process, or ended for one recorded reason. */
  ghost predicate Conserved(s: State) {
    Arrivals(s) ==
      Copies(s, EventsTopic) + Copies(s, DlqTopic) + Copies(s, InProcess)
      + s.ended[NeverPublished] + s.ended[Done] + s.ended[RetryLost]
      + s.ended[DlqLost] + s.ended[DlqHandled] + s.ended[Aborted]
  }

  lemma TalliedConserves(s: State)
    requires Tallied(s)
    ensures Conserved(s)
  {
    PlacesPartition(s.carriers);
    forall how ensures Count(s.carriers, At(Gone(how))) == s.ended[how] {
      assert Copies(s, Gone(how)) == s.ended[how];
    }
  }

  /** No message copy appears from nowhere or vanishes: on every run, inserts and redeliveries are
      the copies on the two topics, those held by a process, and those that ended, by reason. */
  lemma {:induction false} Conservation(maxRetries: int, steps: seq<Step>)
    requires Legal(maxRetries, INIT, steps)
    ensures Conserved(Exec(maxRetries, INIT, steps))
  {
    ReachableTally(maxRetries, steps);
    TalliedConserves(Exec(maxRetries, INIT, steps));
  }

  // ----- analytics rows per event -----------------------------------------------------------

  /** May this stage still lead to an analytics row? */
  predicate MayWrite(stage: Stage) {
    !stage.AtMarkProcessed? && !stage.Ended? && !OutOfAttempts(stage)
  }

  function WriterOf(e: EventId): Carrier -> bool {
    (c: Carrier) => c.event == e && MayWrite(c.stage)
  }

  function EntryOf(e: EventId): LogRow -> bool {
    (entry: LogRow) => entry.event == e
  }

  /** Analytics rows of event `e`. */
  function RowsOf(s: State, e: EventId): nat {
    Count(s.analytics, EntryOf(e))
  }

  ghost predicate WritesBounded(s: State) {
    forall e :: RowsOf(s, e) + Count(s.carriers, WriterOf(e)) <= Allowance(s, e)
  }

  /** A call that writes an analytics row gives up its carrier's right to write. */
  lemma CallWritesOnce(maxRetries: int, c: Carrier, cell: Option<Cell>, reply: Reply)
    requires Calling(c.stage)
    ensures var r := NextCall(maxRetries, c, cell, reply);
            && r.carrier.event == c.event
            && (r.log == [] || (|r.log| == 1 && r.log[0].event == c.event))
            && |r.log| + (if MayWrite(r.carrier.stage) then 1 else 0) <= (if MayWrite(c.stage) then 1 else 0)
  {
  }

  lemma CallKeepsWritesBounded(maxRetries: int, s: State, i: nat, reply: Reply, e: EventId)
    requires Inv(maxRetries, s) && WritesBounded(s) && Enabled(s, Call(i, reply))
    ensures var s' := Apply(maxRetries, s, Call(i, reply));
            RowsOf(s', e) + Count(s'.carriers, WriterOf(e)) <= RowsOf(s, e) + Count(s.carriers, WriterOf(e))
  {
    var c := s.carriers[i];
    var r := NextCall(maxRetries, c, Lookup(s.cells, c.event), reply);
    CallWritesOnce(maxRetries, c, Lookup(s.cells, c.event), reply);
    CountUpdate(s.carriers, i, r.carrier, WriterOf(e));
    if r.log == [] {
      assert s.analytics + r.log == s.analytics;
    } else {
      CountSnoc(s.analytics, r.log[0], EntryOf(e));
    }
  }

  /** The right-hand side of the bound: one row for the insert and one for each redelivery on the
      events topic. */
  function Allowance(s: State, e: EventId): nat {
    if e in s.cells then 1 + s.cells[e].audit.redeliveries else 0
  }

  lemma NewCarrierAllowed(s: State, s': State, e: EventId)
    requires WritesBounded(s) && |s'.carriers| == |s.carriers| + 1 && s'.carriers[..|s.carriers|] == s.carriers
    requires s'.analytics == s.analytics
    requires Allowance(s', e) >= Allowance(s, e) + (if WriterOf(e)(s'.carriers[|s.carriers|]) then 1 else 0)
    ensures RowsOf(s', e) + Count(s'.carriers, WriterOf(e)) <= Allowance(s', e)
  {
    assert s'.carriers == s.carriers + [s'.carriers[|s.carriers|]];
    CountSnoc(s.carriers, s'.carriers[|s.carriers|], WriterOf(e));
  }

  lemma MoveKeepsWritesBounded(maxRetries: int, s: State, step: Step, e: EventId)
    requires WritesBounded(s) && Enabled(s, step) && (step.Fetch? || step.Crash?)
    ensures var s' := Apply(maxRetries, s, step);
            RowsOf(s', e) + Count(s'.carriers, WriterOf(e)) <= Allowance(s', e)
  {
    var i := HandledCopy(step);
    CountUpdate(s.carriers, i, Apply(maxRetries, s, step).carriers[i], WriterOf(e));
    assert RowsOf(s, e) + Count(s.carriers, WriterOf(e)) <= Allowance(s, e);
  }

  lemma ArrivalKeepsWritesBounded(maxRetries: int, s: State, step: Step, e: EventId)
    requires Inv(maxRetries, s) && WritesBounded(s) && Enabled(s, step) && !Handling(step)
    ensures var s' := Apply(maxRetries, s, step);
            RowsOf(s', e) + Count(s'.carriers, WriterOf(e)) <= Allowance(s', e)
  {
    var s' := Apply(maxRetries, s, step);
    if s' == s {
      assert RowsOf(s, e) + Count(s.carriers, WriterOf(e)) <= Allowance(s, e);
    } else {
      NewCarrierAllowed(s, s', e);
    }
  }

  lemma StepKeepsWritesBounded(maxRetries: int, s: State, step: Step)
    requires Inv(maxRetries, s) && WritesBounded(s) && Enabled(s, step)
    ensures WritesBounded(Apply(maxRetries, s, step))
  {
    var s' := Apply(maxRetries, s, step);
    forall e ensures RowsOf(s', e) + Count(s'.carriers, WriterOf(e)) <= Allowance(s', e) {
      if step.Call? {
        CallKeepsWritesBounded(maxRetries, s, step.i, step.reply, e);
        CallKeepsRedeliveries(maxRetries, s, step.i, step.reply, e);
        assert RowsOf(s, e) + Count(s.carriers, WriterOf(e)) <= Allowance(s, e);
      } else if Handling(step) {
        MoveKeepsWritesBounded(maxRetries, s, step, e);
      } else {
        ArrivalKeepsWritesBounded(maxRetries, s, step, e);
      }
    }
  }

  lemma CallKeepsRedeliveries(maxRetries: int, s: State, i: nat, reply: Reply, e: EventId)
    requires Inv(maxRetries, s) && Enabled(s, Call(i, reply))
    ensures Allowance(Apply(maxRetries, s, Call(i, reply)), e) == Allowance(s, e)
  {
  }

  lemma {:induction false} ReachableWrites(maxRetries: int, steps: seq<Step>)
    requires Legal(maxRetries, INIT, steps)
    ensures WritesBounded(Exec(maxRetries, INIT, steps))
  {
    if |steps| > 0 {
      var n := |steps| - 1;
      ReachableWrites(maxRetries, steps[..n]);
      Reachable(maxRetries, steps[..n]);
      StepKeepsWritesBounded(maxRetries, Exec(maxRetries, INIT, steps[..n]), steps[n]);
    }
  }

  /** However deliveries interleave, fail and repeat, an event has at most one analytics row more
      than it had redeliveries on the events topic. */
  lemma {:induction false} AnalyticsRowsPerEvent(maxRetries: int, steps: seq<Step>, e: EventId)
    requires Legal(maxRetries, INIT, steps)
    requires e in Exec(maxRetries, INIT, steps).cells
    ensures var s := Exec(maxRetries, INIT, steps);
            RowsOf(s, e) <= 1 + s.cells[e].audit.redeliveries
  {
    ReachableWrites(maxRetries, steps);
    var s := Exec(maxRetries, INIT, steps);
    assert RowsOf(s, e) + Count(s.carriers, WriterOf(e)) <= Allowance(s, e);
  }

  // ----- draining ---------------------------------------------------------------------------

  /** Steps left within the current attempt. */
  function Rank(stage: Stage): nat {
    match stage
    case Ended(_) => 0
    case AtDlqMark => 1
    case AtPublishRetry => 1
    case AtMarkProcessed => 1
    case AtWrite(_) => 2
    case OnDlq => 2
    case AtPublishDlq => 3
    case AtMarkFailed => 4
    case AtIncrement => 5
    case AtMarkProcessing(_) => 6
    case AtFind => 7
    case OnEvents => 8
    case AtPublish => 9
  }

  /** A bound on the steps carrier `c` can still make. */
  function Weight(maxRetries: int, c: Carrier): int {
    (if c.stage.Ended? then 0 else 8 * (LastAttempt(maxRetries) - c.attempt)) + Rank(c.stage)
  }

  /** The most steps one message copy can ever make. */
  function FullWeight(maxRetries: int): int {
    8 * LastAttempt(maxRetries) + 1
  }

  function TotalWeight(maxRetries: int, cs: seq<Carrier>): int {
    if |cs| == 0 then 0
    else TotalWeight(maxRetries, cs[..|cs| - 1]) + Weight(maxRetries, cs[|cs| - 1])
  }

  lemma {:induction false} WeightUpdate(maxRetries: int, cs: seq<Carrier>, i: nat, c: Carrier)
    requires i < |cs|
    ensures TotalWeight(maxRetries, cs[i := c]) ==
            TotalWeight(maxRetries, cs) - Weight(maxRetries, cs[i]) + Weight(maxRetries, c)
  {
    var n := |cs| - 1;
    if i == n {
      assert cs[i := c][..n] == cs[..n];
    } else {
      WeightUpdate(maxRetries, cs[..n], i, c);
      assert cs[i := c][..n] == cs[..n][i := c];
    }
  }

  lemma {:induction false} WeightNonNegative(maxRetries: int, cs: seq<Carrier>)
    requires forall i :: 0 <= i < |cs| ==> CarrierOk(maxRetries, cs[i])
    ensures TotalWeight(maxRetries, cs) >= 0
  {
    if |cs| > 0 {
      WeightNonNegative(maxRetries, cs[..|cs| - 1]);
      assert CarrierOk(maxRetries, cs[|cs| - 1]);
    }
  }

  function Handlings(steps: seq<Step>): nat {
    Count(steps, Handling)
  }

  lemma CallLowersWeight(maxRetries: int, c: Carrier, cell: Option<Cell>, reply: Reply)
    requires Calling(c.stage) && CarrierOk(maxRetries, c)
    ensures Weight(maxRetries, NextCall(maxRetries, c, cell, reply).carrier) < Weight(maxRetries, c)
  {
  }

  /** Any other step leaves everything alone or lets one copy in. */
  lemma ArrivalAddsWeight(maxRetries: int, s: State, step: Step)
    requires Inv(maxRetries, s) && Enabled(s, step) && !Handling(step)
    requires Apply(maxRetries, s, step) != s
    ensures var s' := Apply(maxRetries, s, step);
            && TotalWeight(maxRetries, s'.carriers) <= TotalWeight(maxRetries, s.carriers) + FullWeight(maxRetries)
            && Arrivals(s') == Arrivals(s) + 1
  {
    var s' := Apply(maxRetries, s, step);
    var c := s'.carriers[|s.carriers|];
    assert s'.carriers[..|s.carriers|] == s.carriers;
    assert Weight(maxRetries, c) <= FullWeight(maxRetries);
  }

  /** Handling a copy lowers the total weight. */
  lemma HandlingLowersWeight(maxRetries: int, s: State, step: Step)
    requires Inv(maxRetries, s) && Enabled(s, step) && Handling(step)
    ensures TotalWeight(maxRetries, Apply(maxRetries, s, step).carriers) < TotalWeight(maxRetries, s.carriers)
    ensures Arrivals(Apply(maxRetries, s, step)) == Arrivals(s)
  {
    var i := HandledCopy(step);
    var c' := Apply(maxRetries, s, step).carriers[i];
    HandledWeighsLess(maxRetries, s, step);
    assert Apply(maxRetries, s, step).carriers == s.carriers[i := c'];
    WeightUpdate(maxRetries, s.carriers, i, c');
  }

  lemma HandledWeighsLess(maxRetries: int, s: State, step: Step)
    requires Inv(maxRetries, s) && Enabled(s, step) && Handling(step)
    ensures var i := HandledCopy(step);
            Weight(maxRetries, Apply(maxRetries, s, step).carriers[i]) < Weight(maxRetries, s.carriers[i])
  {
    var c := s.carriers[HandledCopy(step)];
    assert CarrierOk(maxRetries, c);
    if step.Call? {
      CallLowersWeight(maxRetries, c, Lookup(s.cells, c.event), step.reply);
    }
  }

  lemma PayOneMore(w: int, n: nat)
    ensures w * (n + 1) == w * n + w
  {
  }

  lemma {:induction false} WorkPaidFor(maxRetries: int, steps: seq<Step>)
    requires Legal(maxRetries, INIT, steps)
    ensures var s := Exec(maxRetries, INIT, steps);
            Handlings(steps) + TotalWeight(maxRetries, s.carriers) <= FullWeight(maxRetries) * Arrivals(s)
  {
    if |steps| > 0 {
      var n := |steps| - 1;
      var s := Exec(maxRetries, INIT, steps[..n]);
      WorkPaidFor(maxRetries, steps[..n]);
      Reachable(maxRetries, steps[..n]);
      if Handling(steps[n]) {
        HandlingLowersWeight(maxRetries, s, steps[n]);
      } else if Exec(maxRetries, INIT, steps) != s {
        ArrivalAddsWeight(maxRetries, s, steps[n]);
        PayOneMore(FullWeight(maxRetries), Arrivals(s));
      }
    }
  }

  /** No copy can be fetched, called for or crashed. */
  ghost predicate AtRest(s: State) {
    forall step :: Handling(step) ==> !Enabled(s, step)
  }

  /** No copy is on a topic or held by a process. */
  ghost predicate Drained(s: State) {
    Copies(s, EventsTopic) + Copies(s, DlqTopic) + Copies(s, InProcess) == 0
  }

  /** The pipeline drains: a run makes at most 8M + 1 handling steps per insert and redelivery
      (M the last attempt), so once those stop it comes to rest; and it rests exactly when no copy
      is left on a topic or in a process. */
  lemma {:induction false} Drains(maxRetries: int, steps: seq<Step>)
    requires Legal(maxRetries, INIT, steps)
    ensures Handlings(steps) <= (8 * LastAttempt(maxRetries) + 1) * Arrivals(Exec(maxRetries, INIT, steps))
    ensures AtRest(Exec(maxRetries, INIT, steps)) <==> Drained(Exec(maxRetries, INIT, steps))
  {
    var s := Exec(maxRetries, INIT, steps);
    WorkPaidFor(maxRetries, steps);
    Reachable(maxRetries, steps);
    WeightNonNegative(maxRetries, s.carriers);
    RestMeansDrained(s);
  }

  lemma RestMeansDrained(s: State)
    ensures AtRest(s) <==> Drained(s)
  {
    if AtRest(s) {
      forall i | 0 <= i < |s.carriers| ensures s.carriers[i].stage.Ended? {
        assert !Enabled(s, Fetch(i)) && !Enabled(s, Call(i, Reply(true, 0)));
      }
      NoneCounted(s.carriers, At(EventsTopic));
      NoneCounted(s.carriers, At(DlqTopic));
      NoneCounted(s.carriers, At(InProcess));
    } else {
      var step :| Handling(step) && Enabled(s, step);
      var i := HandledCopy(step);
      SomeCounted(s.carriers, i, At(PlaceOf(s.carriers[i].stage)));
    }
  }

  lemma {:induction false} NoneCounted(cs: seq<Carrier>, p: Carrier -> bool)
    requires forall i :: 0 <= i < |cs| ==> !p(cs[i])
    ensures Count(cs, p) == 0
  {
    if |cs| > 0 {
      NoneCounted(cs[..|cs| - 1], p);
    }
  }

  lemma {:induction false} SomeCounted(cs: seq<Carrier>, i: nat, p: Carrier -> bool)
    requires i < |cs| && p(cs[i])
    ensures Count(cs, p) > 0
  {
    if i < |cs| - 1 {
      SomeCounted(cs[..|cs| - 1], i, p);
    }
  }
}
