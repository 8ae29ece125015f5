/** What the worker leaves behind, column by column: for one message, and for all messages of a `Run`. */
module WorkerLaws {
  import opened Prelude
  import opened Domain
  import opened Pipeline
  import opened PipelineInvariant
  import opened Delivery
  import opened Worker

  // ----- one message ------------------------------------------------------------------------------

  /** The use case's effect and the action it asks for. */
  datatype UseCaseEnd = UseCaseEnd(w: World, action: ProcessAction)

  /** `handleFailure` on the tables: one retry more if the increment is answered, and on the last attempt
      the failed status if that write is answered. */
  function FailureOnTables(maxRetries: int, w: World, msg: Msg, script: Script): UseCaseEnd {
    var last := msg.attempt >= maxRetries;
    if msg.event !in w.rows then UseCaseEnd(w, if last then ProcessDlq else ProcessRetry)
    else
      var row := w.rows[msg.event];
      var counted := if script.increment.ok then row.(retryCount := row.retryCount + 1) else row;
      var marked := if last && script.markFailed.ok then counted.(status := Status.Failed, processedAt := None)
                    else counted;
      UseCaseEnd(w.(rows := w.rows[msg.event := marked]), if last then ProcessDlq else ProcessRetry)
  }

  /** `ProcessEvent.Execute` on the tables, without carriers or stages. */
  function UseCaseOnTables(maxRetries: int, w: World, msg: Msg, script: Script): UseCaseEnd {
    if !script.find.ok then FailureOnTables(maxRetries, w, msg, script)
    else if msg.event !in w.rows then UseCaseEnd(w, ProcessDone)
    else
      var row := w.rows[msg.event];
      if row.status == Status.Processed || row.status == Status.Failed then UseCaseEnd(w, ProcessDone)
      else if !script.markProcessing.ok then FailureOnTables(maxRetries, w, msg, script)
      else
        var at := if row.processedAt.Some? then row.processedAt.value else script.write.at;
        var logged := LogRow(msg.event, row.source, row.eventType, row.status, at, at - at % 86400);
        var after := if script.markProcessed.ok
                     then row.(status := Status.Processed, processedAt := Some(script.markProcessed.at))
                     else row.(status := Status.Processing, processedAt := None);
        UseCaseEnd(w.(rows := w.rows[msg.event := after], log := w.log + (if script.write.ok then [logged] else [])),
                   ProcessDone)
  }

  lemma FailureEnds(maxRetries: int, w: World, msg: Msg, script: Script)
    requires msg.event in w.rows
    ensures var cell := CellOf(w.rows, msg.event);
            var out := Handle(maxRetries, Failing(msg), cell, script);
            FailureOnTables(maxRetries, w, msg, script) ==
            UseCaseEnd(w.(rows := StoreRow(w.rows, msg.event, out.cell), log := w.log + out.log),
                       ActionAt(out.carrier.stage))
  {
    FailureBySteps(maxRetries, msg, CellOf(w.rows, msg.event).value, script);
    assert w.log + [] == w.log;
  }

  /** The calls of one delivery, up to its publish, have exactly that effect, whether or not the row exists
      and whatever it holds. */
  lemma HandledMeans(maxRetries: int, w: World, msg: Msg, script: Script)
    ensures UseCaseOnTables(maxRetries, w, msg, script) ==
            UseCaseEnd(Handled(maxRetries, w, msg, script), ActionFor(maxRetries, w, msg, script))
  {
    assert w.log + [] == w.log;
    if msg.event !in w.rows {
      MissingBySteps(maxRetries, msg, script);
    } else {
      ThereHandledMeans(maxRetries, w, msg, script);
    }
  }

  lemma ThereHandledMeans(maxRetries: int, w: World, msg: Msg, script: Script)
    requires msg.event in w.rows
    ensures UseCaseOnTables(maxRetries, w, msg, script) ==
            UseCaseEnd(Handled(maxRetries, w, msg, script), ActionFor(maxRetries, w, msg, script))
  {
    var cell := CellOf(w.rows, msg.event).value;
    if Fails(cell, script) {
      FailureEnds(maxRetries, w, msg, script);
      if script.find.ok {
        UnmarkedBySteps(maxRetries, msg, cell, script);
      } else {
        UnreadBySteps(maxRetries, msg, Some(cell), script);
      }
    } else if Terminal(cell.row.status) {
      TerminalEnds(maxRetries, w, msg, script);
    } else {
      FinishedBySteps(maxRetries, msg, cell, script);
    }
  }

  lemma TerminalEnds(maxRetries: int, w: World, msg: Msg, script: Script)
    requires msg.event in w.rows && Terminal(w.rows[msg.event].status) && script.find.ok
    ensures Handled(maxRetries, w, msg, script) == w && ActionFor(maxRetries, w, msg, script) == ProcessDone
  {
    var cell := CellOf(w.rows, msg.event);
    assert Handle(maxRetries, Start(msg), cell, script) ==
           CallResult(Carrier(msg.event, msg.attempt, Ended(Done)), cell, []);
    assert w.rows[msg.event := w.rows[msg.event]] == w.rows && w.log + [] == w.log;
  }

  /** And then the publish it asks for: the next attempt to the events topic, or the same message to the
      dead-letter topic. */
  lemma DeliveredMeans(maxRetries: int, w: World, msg: Msg, script: Script)
    ensures var end := UseCaseOnTables(maxRetries, w, msg, script);
            Delivered(maxRetries, w, msg, script) ==
            if end.action.ProcessDone? || !script.publish.ok then end.w
            else if end.action.ProcessRetry? then end.w.(events := w.events + [Msg(msg.event, msg.attempt + 1)])
            else end.w.(dlq := w.dlq + [msg])
  {
    HandledMeans(maxRetries, w, msg, script);
    DeliveredByAction(maxRetries, w, msg, script);
    assert w.events + [] == w.events && w.dlq + [] == w.dlq;
  }

  /** The success counter moves exactly when the use case ends done on an event that was open and has a
      source, under that source; the failure counter exactly when it asks for a dead letter. */
  lemma CountersMean(maxRetries: int, w: World, msg: Msg, script: Script)
    ensures var action := UseCaseOnTables(maxRetries, w, msg, script).action;
            && (DeadLettered(maxRetries, w.rows, msg, script) <==> action.ProcessDlq?)
            && CountedSource(w.rows, msg, script) ==
               if action.ProcessDone? && OpenRow(w.rows, msg.event) && w.rows[msg.event].source != ""
               then [w.rows[msg.event].source] else []
  {
    HandledMeans(maxRetries, w, msg, script);
    DeadLetteredIff(maxRetries, w, msg, script);
  }

  // ----- the offsets a Run commits ----------------------------------------------------------------

  function CommitsIt(): Fetched -> bool {
    (fetched: Fetched) => fetched.Fetched? && fetched.commit
  }

  /** Every fetched message whose commit succeeds is committed, whether or not it parsed and whatever
      became of it, in the order of the fetches, and nothing else is. */
  lemma {:induction false} CommittedInOrder(fetches: seq<Fetched>)
    ensures |Committed(fetches)| == Count(fetches, CommitsIt())
    ensures forall k :: 0 <= k < |fetches| && fetches[k].Fetched? && fetches[k].commit ==>
              Count(fetches[..k], CommitsIt()) < |Committed(fetches)|
              && Committed(fetches)[Count(fetches[..k], CommitsIt())] == fetches[k].msg
  {
    if |fetches| > 0 {
      var n := |fetches| - 1;
      CommittedInOrder(fetches[..n]);
      forall k | 0 <= k < |fetches| && fetches[k].Fetched? && fetches[k].commit
        ensures Count(fetches[..k], CommitsIt()) < |Committed(fetches)|
                && Committed(fetches)[Count(fetches[..k], CommitsIt())] == fetches[k].msg
      {
        if k < n {
          assert fetches[..n][..k] == fetches[..k] && fetches[..n][k] == fetches[k];
        }
      }
    }
  }

  // ----- a Run is a run of the step system --------------------------------------------------------

  predicate Parsed(fetched: Fetched) {
    fetched.Fetched? && fetched.msg.Some?
  }

  /** What the step system does for one fetch: a parsed message is fetched and delivered as copy `i`,
      anything else is nothing. */
  function Block(maxRetries: int, writes: bool, s: State, fetched: Fetched, i: nat): seq<Step> {
    if !Parsed(fetched) then []
    else
      var msg := fetched.msg.value;
      [Fetch(i)] +
      Calls(maxRetries, i, Start(msg), Lookup(s.cells, msg.event), Effective(writes, fetched.script))
  }

  /** `states` are the states after 0, 1, 2, ... fetches, each reached by the steps of one fetch from the
      one before, on the same rows and analytics as the consumer's world. */
  ghost predicate Follows(maxRetries: int, writes: bool, w: World, fetches: seq<Fetched>, at: seq<nat>,
                          states: seq<State>)
    requires |at| == |fetches|
  {
    && |states| == |fetches| + 1
    && (forall k :: 0 <= k < |fetches| ==> FollowsOne(maxRetries, writes, fetches[k], at[k], states[k], states[k + 1]))
    && (forall k :: 0 <= k <= |fetches| ==> Matches(states[k], Consumed(maxRetries, writes, w, fetches[..k])))
  }

  ghost predicate FollowsOne(maxRetries: int, writes: bool, fetched: Fetched, i: nat, s: State, s': State) {
    var steps := Block(maxRetries, writes, s, fetched, i);
    Legal(maxRetries, s, steps) && s' == Exec(maxRetries, s, steps)
  }

  /** Each parsed message waits on the events topic as a copy of its own. */
  ghost predicate Waiting(s: State, fetches: seq<Fetched>, at: seq<nat>)
    requires |at| == |fetches|
  {
    && (forall k :: 0 <= k < |fetches| && Parsed(fetches[k]) ==>
          var msg := fetches[k].msg.value;
          at[k] < |s.carriers| && s.carriers[at[k]] == Carrier(msg.event, msg.attempt, OnEvents))
    && (forall j, k :: 0 <= j < k < |fetches| && Parsed(fetches[j]) && Parsed(fetches[k]) ==> at[j] != at[k])
  }

  /** One fetch: the state follows the world, and no other copy moves. */
  lemma BlockRuns(maxRetries: int, writes: bool, s: State, w: World, fetched: Fetched, i: nat) returns (s': State)
    requires Matches(s, w)
    requires Parsed(fetched) ==>
               var msg := fetched.msg.value;
               i < |s.carriers| && s.carriers[i] == Carrier(msg.event, msg.attempt, OnEvents)
    ensures FollowsOne(maxRetries, writes, fetched, i, s, s')
    ensures Matches(s', if Parsed(fetched)
                        then Delivered(maxRetries, w, fetched.msg.value, Effective(writes, fetched.script)) else w)
    ensures |s'.carriers| == |s.carriers|
    ensures forall j :: 0 <= j < |s.carriers| && j != i ==> s'.carriers[j] == s.carriers[j]
  {
    s' := s;
    if Parsed(fetched) {
      var script := Effective(writes, fetched.script);
      ProcessorRunsTheSteps(maxRetries, s, w, i, script);
      DeliveryIsARun(maxRetries, s, i, script);
      s' := Exec(maxRetries, s, Block(maxRetries, writes, s, fetched, i));
    }
  }

  /** A whole `Run` over any fetches is a run of the step system, in which each parsed message is fetched
      and delivered once, in the order of the fetches. */
  lemma {:induction false} RunRunsTheSteps(maxRetries: int, writes: bool, s: State, w: World,
                                           fetches: seq<Fetched>, at: seq<nat>)
    returns (states: seq<State>)
    requires Matches(s, w) && |at| == |fetches| && Waiting(s, fetches, at)
    ensures Follows(maxRetries, writes, w, fetches, at, states) && states[0] == s
    ensures |states[|fetches|].carriers| == |s.carriers|
    ensures forall i :: 0 <= i < |s.carriers| && (forall k :: 0 <= k < |fetches| ==> at[k] != i || !Parsed(fetches[k])) ==>
              states[|fetches|].carriers[i] == s.carriers[i]
  {
    if |fetches| == 0 {
      states := [s];
    } else {
      var n := |fetches| - 1;
      var before := RunRunsTheSteps(maxRetries, writes, s, w, fetches[..n], at[..n]);
      var mid := before[n];
      assert fetches[..n][..n] == fetches[..n];
      var s' := BlockRuns(maxRetries, writes, mid, Consumed(maxRetries, writes, w, fetches[..n]), fetches[n], at[n]);
      states := before + [s'];
      FollowsSnoc(maxRetries, writes, w, fetches, at, before, s');
    }
  }

  lemma {:induction false} FollowsSnoc(maxRetries: int, writes: bool, w: World, fetches: seq<Fetched>, at: seq<nat>,
                                       before: seq<State>, s': State)
    requires |fetches| > 0 && |at| == |fetches|
    requires var n := |fetches| - 1;
             Follows(maxRetries, writes, w, fetches[..n], at[..n], before)
             && FollowsOne(maxRetries, writes, fetches[n], at[n], before[n], s')
             && Matches(s', Consumed(maxRetries, writes, w, fetches))
    ensures Follows(maxRetries, writes, w, fetches, at, before + [s'])
  {
    var n := |fetches| - 1;
    var states := before + [s'];
    forall k | 0 <= k < |fetches|
      ensures FollowsOne(maxRetries, writes, fetches[k], at[k], states[k], states[k + 1])
    {
      if k < n {
        assert FollowsOne(maxRetries, writes, fetches[..n][k], at[..n][k], before[k], before[k + 1]);
      }
    }
    forall k | 0 <= k <= |fetches| ensures Matches(states[k], Consumed(maxRetries, writes, w, fetches[..k])) {
      if k <= n {
        MatchesBefore(maxRetries, writes, w, fetches, before, k);
      } else {
        assert fetches[..k] == fetches;
      }
    }
  }

  lemma {:induction false} MatchesBefore(maxRetries: int, writes: bool, w: World, fetches: seq<Fetched>,
                                         before: seq<State>, k: nat)
    requires k < |fetches| == |before|
    requires forall j :: 0 <= j < |fetches| ==>
               Matches(before[j], Consumed(maxRetries, writes, w, fetches[..|fetches| - 1][..j]))
    ensures Matches(before[k], Consumed(maxRetries, writes, w, fetches[..k]))
  {
    assert fetches[..|fetches| - 1][..k] == fetches[..k];
  }

  // ----- a Run in which every call is answered ----------------------------------------------------

  /** The message parsed, and every call on its way is answered. */
  predicate Answered(fetched: Fetched) {
    Parsed(fetched) && fetched.script.find.ok && fetched.script.markProcessing.ok
    && fetched.script.write.ok && fetched.script.markProcessed.ok
  }

  function EventOf(fetched: Fetched): EventId
    requires Parsed(fetched)
  {
    fetched.msg.value.event
  }

  predicate OpenRow(rows: map<EventId, Row>, e: EventId) {
    e in rows && (rows[e].status == Status.Pending || rows[e].status == Status.Processing)
  }

  /** All are answered, of events whose rows are pending or processing, no two of one event. */
  ghost predicate AnsweredBatch(rows: map<EventId, Row>, fetches: seq<Fetched>) {
    && (forall k :: 0 <= k < |fetches| ==> Answered(fetches[k]) && OpenRow(rows, EventOf(fetches[k])))
    && (forall j, k :: 0 <= j < k < |fetches| ==> EventOf(fetches[j]) != EventOf(fetches[k]))
  }

  /** The row of analytics for an open event. */
  function LogRowOf(rows: map<EventId, Row>, fetched: Fetched): LogRow
    requires Parsed(fetched) && EventOf(fetched) in rows
  {
    var row := rows[EventOf(fetched)];
    var at := if row.processedAt.Some? then row.processedAt.value else fetched.script.write.at;
    LogRow(EventOf(fetched), row.source, row.eventType, row.status, at, at - at % 86400)
  }

  /** The row of a processed event. */
  function ProcessedRow(rows: map<EventId, Row>, fetched: Fetched): Row
    requires Parsed(fetched) && EventOf(fetched) in rows
  {
    rows[EventOf(fetched)].(status := Status.Processed, processedAt := Some(fetched.script.markProcessed.at))
  }

  /** The world after one answered delivery. */
  function AnsweredWorld(w: World, fetched: Fetched): World
    requires Parsed(fetched) && EventOf(fetched) in w.rows
  {
    w.(rows := w.rows[EventOf(fetched) := ProcessedRow(w.rows, fetched)], log := w.log + [LogRowOf(w.rows, fetched)])
  }

  lemma AnsweredOne(maxRetries: int, w: World, fetched: Fetched)
    requires Answered(fetched) && OpenRow(w.rows, EventOf(fetched))
    ensures Delivered(maxRetries, w, fetched.msg.value, Effective(true, fetched.script)) == AnsweredWorld(w, fetched)
  {
    DeliveredMeans(maxRetries, w, fetched.msg.value, fetched.script);
  }

  /** Exactly the fetched events are processed, each at the clock of its own processed mark; no other row
      changes and none appears. */
  ghost predicate RowsProcessed(rows: map<EventId, Row>, rows': map<EventId, Row>, fetches: seq<Fetched>)
    requires AnsweredBatch(rows, fetches)
  {
    && rows'.Keys == rows.Keys
    && (forall k :: 0 <= k < |fetches| ==> rows'[EventOf(fetches[k])] == ProcessedRow(rows, fetches[k]))
    && (forall e :: e in rows && (forall k :: 0 <= k < |fetches| ==> EventOf(fetches[k]) != e) ==> rows'[e] == rows[e])
  }

  /** Each of them is logged once, in order. */
  ghost predicate RowsLogged(rows: map<EventId, Row>, log: seq<LogRow>, log': seq<LogRow>, fetches: seq<Fetched>)
    requires AnsweredBatch(rows, fetches)
  {
    && |log'| == |log| + |fetches| && log'[..|log|] == log
    && (forall k :: 0 <= k < |fetches| ==> log'[|log| + k] == LogRowOf(rows, fetches[k]))
  }

  ghost predicate ProcessedAll(w: World, w': World, fetches: seq<Fetched>)
    requires AnsweredBatch(w.rows, fetches)
  {
    && RowsProcessed(w.rows, w'.rows, fetches) && RowsLogged(w.rows, w.log, w'.log, fetches)
    && w'.events == w.events && w'.dlq == w.dlq
  }

  /** The last of the batch has not been touched by the ones before. */
  lemma LastUntouched(rows: map<EventId, Row>, rows': map<EventId, Row>, fetches: seq<Fetched>)
    requires AnsweredBatch(rows, fetches) && |fetches| > 0 && AnsweredBatch(rows, fetches[..|fetches| - 1])
    requires RowsProcessed(rows, rows', fetches[..|fetches| - 1])
    ensures var e := EventOf(fetches[|fetches| - 1]); e in rows' && rows'[e] == rows[e]
  {
    var n := |fetches| - 1;
    forall k | 0 <= k < n ensures EventOf(fetches[..n][k]) != EventOf(fetches[n]) {
      assert fetches[..n][k] == fetches[k];
    }
  }

  lemma RowsOneMore(rows: map<EventId, Row>, before: map<EventId, Row>, fetches: seq<Fetched>)
    requires AnsweredBatch(rows, fetches) && |fetches| > 0 && AnsweredBatch(rows, fetches[..|fetches| - 1])
    requires RowsProcessed(rows, before, fetches[..|fetches| - 1])
    ensures var last := fetches[|fetches| - 1];
            RowsProcessed(rows, before[EventOf(last) := ProcessedRow(rows, last)], fetches)
  {
    var n := |fetches| - 1;
    var rows' := before[EventOf(fetches[n]) := ProcessedRow(rows, fetches[n])];
    forall k | 0 <= k < |fetches| ensures rows'[EventOf(fetches[k])] == ProcessedRow(rows, fetches[k]) {
      if k < n {
        assert fetches[..n][k] == fetches[k];
      }
    }
    forall e | e in rows && (forall k :: 0 <= k < |fetches| ==> EventOf(fetches[k]) != e) ensures rows'[e] == rows[e] {
      forall k | 0 <= k < n ensures EventOf(fetches[..n][k]) != e {
        assert fetches[..n][k] == fetches[k];
      }
    }
  }

  lemma LogOneMore(rows: map<EventId, Row>, log: seq<LogRow>, before: seq<LogRow>, fetches: seq<Fetched>)
    requires AnsweredBatch(rows, fetches) && |fetches| > 0 && AnsweredBatch(rows, fetches[..|fetches| - 1])
    requires RowsLogged(rows, log, before, fetches[..|fetches| - 1])
    ensures RowsLogged(rows, log, before + [LogRowOf(rows, fetches[|fetches| - 1])], fetches)
  {
    var n := |fetches| - 1;
    var log' := before + [LogRowOf(rows, fetches[n])];
    assert log'[..|log|] == before[..|log|];
    forall k | 0 <= k < |fetches| ensures log'[|log| + k] == LogRowOf(rows, fetches[k]) {
      if k < n {
        assert fetches[..n][k] == fetches[k] && log'[|log| + k] == before[|log| + k];
      }
    }
  }

  lemma BatchPrefix(rows: map<EventId, Row>, fetches: seq<Fetched>)
    requires AnsweredBatch(rows, fetches) && |fetches| > 0
    ensures AnsweredBatch(rows, fetches[..|fetches| - 1])
  {
  }

  lemma BatchOneMore(maxRetries: int, w: World, before: World, fetches: seq<Fetched>)
    requires AnsweredBatch(w.rows, fetches) && |fetches| > 0 && AnsweredBatch(w.rows, fetches[..|fetches| - 1])
    requires ProcessedAll(w, before, fetches[..|fetches| - 1])
    ensures var last := fetches[|fetches| - 1];
            ProcessedAll(w, Delivered(maxRetries, before, last.msg.value, Effective(true, last.script)), fetches)
  {
    var last := fetches[|fetches| - 1];
    LastUntouched(w.rows, before.rows, fetches);
    AnsweredOne(maxRetries, before, last);
    RowsOneMore(w.rows, before.rows, fetches);
    LogOneMore(w.rows, w.log, before.log, fetches);
    assert ProcessedRow(before.rows, last) == ProcessedRow(w.rows, last);
    assert LogRowOf(before.rows, last) == LogRowOf(w.rows, last);
  }

  /** Answered deliveries of distinct open events process exactly those events, log each of them once, and
      publish nothing. */
  lemma {:induction false} AnsweredRunProcesses(maxRetries: int, w: World, fetches: seq<Fetched>)
    requires AnsweredBatch(w.rows, fetches)
    ensures ProcessedAll(w, Consumed(maxRetries, true, w, fetches), fetches)
  {
    if |fetches| > 0 {
      var n := |fetches| - 1;
      BatchPrefix(w.rows, fetches);
      AnsweredRunProcesses(maxRetries, w, fetches[..n]);
      BatchOneMore(maxRetries, w, Consumed(maxRetries, true, w, fetches[..n]), fetches);
    }
  }

  /** One source for each event, in order. */
  ghost predicate CountsSources(rows: map<EventId, Row>, fetches: seq<Fetched>, sources: seq<string>)
    requires AnsweredBatch(rows, fetches)
  {
    |sources| == |fetches| && forall k :: 0 <= k < |fetches| ==> sources[k] == rows[EventOf(fetches[k])].source
  }

  lemma SourcesOneMore(rows: map<EventId, Row>, fetches: seq<Fetched>, sources: seq<string>)
    requires AnsweredBatch(rows, fetches) && |fetches| > 0 && AnsweredBatch(rows, fetches[..|fetches| - 1])
    requires CountsSources(rows, fetches[..|fetches| - 1], sources)
    ensures CountsSources(rows, fetches, sources + [rows[EventOf(fetches[|fetches| - 1])].source])
  {
    assert forall k :: 0 <= k < |fetches| - 1 ==> fetches[..|fetches| - 1][k] == fetches[k];
  }

  /** What the last of the batch adds to the counters. */
  lemma LastCounts(maxRetries: int, rows: map<EventId, Row>, rows': map<EventId, Row>, fetches: seq<Fetched>)
    requires AnsweredBatch(rows, fetches) && |fetches| > 0 && AnsweredBatch(rows, fetches[..|fetches| - 1])
    requires RowsProcessed(rows, rows', fetches[..|fetches| - 1])
    requires rows[EventOf(fetches[|fetches| - 1])].source != ""
    ensures var last := fetches[|fetches| - 1];
            && CountedSource(rows', last.msg.value, last.script) == [rows[EventOf(last)].source]
            && !DeadLettered(maxRetries, rows', last.msg.value, last.script)
  {
    LastUntouched(rows, rows', fetches);
    assert Answered(fetches[|fetches| - 1]) && OpenRow(rows, EventOf(fetches[|fetches| - 1]));
  }

  /** Such a run moves the success counter once for each event, in order, under its source, and the failure
      counter never. */
  lemma {:induction false} AnsweredRunCounts(maxRetries: int, w: World, fetches: seq<Fetched>)
    requires AnsweredBatch(w.rows, fetches)
    requires forall k :: 0 <= k < |fetches| ==> w.rows[EventOf(fetches[k])].source != ""
    ensures FailuresCounted(maxRetries, true, w, fetches) == 0
    ensures CountsSources(w.rows, fetches, SourcesCounted(maxRetries, true, w, fetches))
  {
    if |fetches| > 0 {
      var n := |fetches| - 1;
      BatchPrefix(w.rows, fetches);
      AnsweredRunCounts(maxRetries, w, fetches[..n]);
      AnsweredRunProcesses(maxRetries, w, fetches[..n]);
      LastCounts(maxRetries, w.rows, Consumed(maxRetries, true, w, fetches[..n]).rows, fetches);
      SourcesOneMore(w.rows, fetches, SourcesCounted(maxRetries, true, w, fetches[..n]));
    }
  }

  /** When no row can be read, a `Run` only fails: it moves the failure counter once for each parsed message
      of the last attempt and publishes every message, in order, once more. */
  lemma {:induction false} BlindRunFails(maxRetries: int, w: World, fetches: seq<Fetched>)
    requires forall k :: 0 <= k < |fetches| ==>
               Parsed(fetches[k]) && !fetches[k].script.find.ok && fetches[k].script.publish.ok
    ensures var w' := Consumed(maxRetries, true, w, fetches);
            && w'.log == w.log
            && FailuresCounted(maxRetries, true, w, fetches) == Count(fetches, LastTry(maxRetries))
            && |w'.dlq| == |w.dlq| + Count(fetches, LastTry(maxRetries))
            && |w'.events| == |w.events| + |fetches| - Count(fetches, LastTry(maxRetries))
  {
    if |fetches| > 0 {
      var n := |fetches| - 1;
      BlindRunFails(maxRetries, w, fetches[..n]);
      DeliveredMeans(maxRetries, Consumed(maxRetries, true, w, fetches[..n]), fetches[n].msg.value, fetches[n].script);
    }
  }

  function LastTry(maxRetries: int): Fetched -> bool {
    (fetched: Fetched) => Parsed(fetched) && fetched.msg.value.attempt >= maxRetries
  }
}
