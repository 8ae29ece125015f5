/**
 The worker's code: repository, analytics writer, use cases and consumers as classes whose methods
 update their fields call by call. `up`, `Reply` and `Script` are what the environment answers.
 */
module Worker {
  import opened Prelude
  import opened Domain
  import opened Pipeline
  import opened PipelineInvariant
  import opened Delivery

  datatype RepoError = NotFound | Unavailable

  /** The repository's rows after one row may have changed. */
  function StoreRow(rows: map<EventId, Row>, id: EventId, cell: Option<Cell>): map<EventId, Row> {
    if cell.Some? then rows[id := cell.value.row] else rows
  }

  /** The row as the step system sees it, with a history that starts now. */
  function CellOf(rows: map<EventId, Row>, id: EventId): Option<Cell> {
    if id in rows then Some(Cell(rows[id], Audit([rows[id].status], 0, 0, 0))) else None
  }

  class EventRepository {
    var rows: map<EventId, Row>

    constructor ()
      ensures rows == map[]
    {
      rows := map[];
    }

    method Insert(id: EventId, row: Row, up: bool) returns (ok: bool)
      modifies this
      ensures ok <==> up && id !in old(rows)
      ensures rows == if ok then old(rows)[id := row] else old(rows)
    {
      ok := up && id !in rows;
      if ok {
        rows := rows[id := row];
      }
    }

    method FindByID(id: EventId, reply: Reply) returns (r: Result<Row, RepoError>)
      ensures r == if !reply.ok then Err(Unavailable) else if id !in rows then Err(NotFound) else Ok(rows[id])
    {
      if !reply.ok {
        return Err(Unavailable);
      }
      if id !in rows {
        return Err(NotFound);
      }
      return Ok(rows[id]);
    }

    method UpdateStatus(id: EventId, status: Status, reply: Reply) returns (r: Result<(), RepoError>)
      modifies this
      ensures r == if !reply.ok then Err(Unavailable) else if id !in old(rows) then Err(NotFound) else Ok(())
      ensures rows == if r.Err? then old(rows)
                      else old(rows)[id := old(rows)[id].(
                        status := status,
                        processedAt := if status == Status.Processed then Some(reply.at) else None)]
    {
      var processedAt: Option<nat> := None;
      if status == Status.Processed {
        processedAt := Some(reply.at);
      }
      if !reply.ok {
        return Err(Unavailable);
      }
      if id !in rows {
        return Err(NotFound);
      }
      rows := rows[id := rows[id].(status := status, processedAt := processedAt)];
      return Ok(());
    }

    method IncrementRetry(id: EventId, reply: Reply) returns (r: Result<(), RepoError>)
      modifies this
      ensures r == if !reply.ok then Err(Unavailable) else if id !in old(rows) then Err(NotFound) else Ok(())
      ensures rows == if r.Err? then old(rows)
                      else old(rows)[id := old(rows)[id].(retryCount := old(rows)[id].retryCount + 1)]
    {
      if !reply.ok {
        return Err(Unavailable);
      }
      if id !in rows {
        return Err(NotFound);
      }
      rows := rows[id := rows[id].(retryCount := rows[id].retryCount + 1)];
      return Ok(());
    }
  }

  class EventWriter {
    var log: seq<LogRow>

    constructor ()
      ensures log == []
    {
      log := [];
    }

    method WriteEvent(event: EventId, row: Row, reply: Reply) returns (ok: bool)
      modifies this
      ensures ok == reply.ok
      ensures log == old(log) +
                     var at := if row.processedAt.Some? then row.processedAt.value else reply.at;
                     if ok then [LogRow(event, row.source, row.eventType, row.status, at, at - at % 86400)] else []
    {
      var processedAt := reply.at;
      if row.processedAt.Some? {
        processedAt := row.processedAt.value;
      }
      var date := processedAt - processedAt % DAY;
      var batch := [LogRow(event, row.source, row.eventType, row.status, processedAt, date)];
      ok := reply.ok;
      if ok {
        log := log + batch;
      }
    }
  }

  class Broker {
    var events: seq<Msg>
    var dlq: seq<Msg>

    constructor ()
      ensures events == [] && dlq == []
    {
      events, dlq := [], [];
    }

    method Publish(deadLetter: bool, msg: Msg, up: bool) returns (ok: bool)
      modifies this
      ensures ok == up
      ensures events == old(events) + (if ok && !deadLetter then [msg] else [])
      ensures dlq == old(dlq) + (if ok && deadLetter then [msg] else [])
    {
      ok := up;
      if ok {
        if deadLetter {
          dlq := dlq + [msg];
        } else {
          events := events + [msg];
        }
      }
    }
  }

  datatype ProcessAction = ProcessDone | ProcessRetry | ProcessDlq

  /** `eventSource` is empty unless an event was processed. */
  datatype ProcessResult = ProcessResult(action: ProcessAction, eventSource: string)

  /** The action that hands a carrier at `stage` back to the processor. */
  function ActionAt(stage: Stage): ProcessAction {
    if stage.AtPublishRetry? then ProcessRetry else if stage.AtPublishDlq? then ProcessDlq else ProcessDone
  }

  /** `r` with `log` put before its analytics rows. */
  function WithLog(log: seq<LogRow>, r: CallResult): CallResult {
    CallResult(r.carrier, r.cell, log + r.log)
  }

  /** Without an analytics writer no write is answered. */
  function Effective(writes: bool, script: Script): Script {
    if writes then script else script.(write := Reply(false, script.write.at))
  }

  class ProcessEvent {
    const events: EventRepository
    const analytics: EventWriter?
    const maxRetries: int

    constructor (events: EventRepository, analytics: EventWriter?, maxRetries: int)
      ensures this.events == events && this.analytics == analytics && this.maxRetries == maxRetries
    {
      this.events, this.analytics, this.maxRetries := events, analytics, maxRetries;
    }

    function Seen(script: Script): Script {
      Effective(analytics != null, script)
    }

    function Log(): seq<LogRow>
      reads analytics
    {
      if analytics == null then [] else analytics.log
    }

    /** Executes exactly the calls of a carrier from `AtFind` on, stops before the publish, and
        reports the publish that is due. An error is reported exactly when the delivery failed. */
    method Execute(msg: Msg, script: Script) returns (result: ProcessResult, err: Option<RepoError>)
      modifies events, analytics
      ensures var out := Handle(maxRetries, Start(msg), CellOf(old(events.rows), msg.event), Seen(script));
              && events.rows == StoreRow(old(events.rows), msg.event, out.cell)
              && Log() == old(Log()) + out.log
              && result.action == ActionAt(out.carrier.stage)
              && (err.Some? <==> !result.action.ProcessDone?)
      ensures result.eventSource ==
              if msg.event in old(events.rows) && !Terminal(old(events.rows)[msg.event].status)
                 && script.find.ok && script.markProcessing.ok
              then old(events.rows)[msg.event].source else ""
      ensures !result.action.ProcessDone? ==> result.eventSource == ""
    {
      ghost var seen, cell := Seen(script), CellOf(events.rows, msg.event);
      var found := events.FindByID(msg.event, script.find);
      if found.Err? {
        if found.error == NotFound {
          return ProcessResult(ProcessDone, ""), None;
        }
        UnreadBySteps(maxRetries, msg, cell, seen);
        var failed := HandleFailure(msg, script);
        return failed, Some(found.error);
      }
      var event := found.value;
      if event.status == Status.Processed || event.status == Status.Failed {
        return ProcessResult(ProcessDone, ""), None;
      }
      var marked := events.UpdateStatus(msg.event, Status.Processing, script.markProcessing);
      if marked.Err? {
        UnmarkedBySteps(maxRetries, msg, cell.value, seen);
        var failed := HandleFailure(msg, script);
        return failed, Some(marked.error);
      }
      FinishedBySteps(maxRetries, msg, cell.value, seen);
      if analytics != null {
        var written := analytics.WriteEvent(msg.event, event, script.write);
      }
      var done := events.UpdateStatus(msg.event, Status.Processed, script.markProcessed);
      result := ProcessResult(ProcessDone, event.source);
      err := None;
    }

    /** `handleFailure`: counts the failure, and on the last attempt marks the event failed. */
    method HandleFailure(msg: Msg, script: Script) returns (result: ProcessResult)
      modifies events
      ensures var out := Handle(maxRetries, Failing(msg), CellOf(old(events.rows), msg.event), Seen(script));
              && events.rows == StoreRow(old(events.rows), msg.event, out.cell)
              && out.log == []
              && result == ProcessResult(ActionAt(out.carrier.stage), "")
              && !result.action.ProcessDone?
    {
      ghost var cell := CellOf(events.rows, msg.event);
      ghost var r := NextCall(maxRetries, Failing(msg), cell, script.increment);
      assert Handle(maxRetries, Failing(msg), cell, Seen(script)) ==
             WithLog([], Handle(maxRetries, r.carrier, r.cell, Seen(script)));
      var counted := events.IncrementRetry(msg.event, script.increment);
      if msg.attempt >= maxRetries {
        ghost var marking := NextCall(maxRetries, r.carrier, r.cell, script.markFailed);
        assert Handle(maxRetries, r.carrier, r.cell, Seen(script)) == marking;
        var marked := events.UpdateStatus(msg.event, Status.Failed, script.markFailed);
        return ProcessResult(ProcessDlq, "");
      }
      return ProcessResult(ProcessRetry, "");
    }
  }

  // ----- the consumers ------------------------------------------------------------------------

  /** Everything the worker changes outside itself. */
  datatype World = World(rows: map<EventId, Row>, log: seq<LogRow>, events: seq<Msg>, dlq: seq<Msg>)

  /** The world after one delivery of `msg`. */
  function Delivered(maxRetries: int, w: World, msg: Msg, script: Script): World {
    var out := Deliver(maxRetries, Start(msg), CellOf(w.rows, msg.event), script);
    var sent := [Msg(out.carrier.event, out.carrier.attempt)];
    World(StoreRow(w.rows, msg.event, out.cell),
          w.log + out.log,
          w.events + (if out.carrier.stage.OnEvents? then sent else []),
          w.dlq + (if out.carrier.stage.OnDlq? then sent else []))
  }

  /** The world once the use case has run and nothing is published yet. */
  function Handled(maxRetries: int, w: World, msg: Msg, script: Script): World {
    var out := Handle(maxRetries, Start(msg), CellOf(w.rows, msg.event), script);
    w.(rows := StoreRow(w.rows, msg.event, out.cell), log := w.log + out.log)
  }

  /** The action the use case asks for. */
  function ActionFor(maxRetries: int, w: World, msg: Msg, script: Script): ProcessAction {
    ActionAt(Handle(maxRetries, Start(msg), CellOf(w.rows, msg.event), script).carrier.stage)
  }

  lemma DeliveredByAction(maxRetries: int, w: World, msg: Msg, script: Script)
    ensures var handled := Handled(maxRetries, w, msg, script);
            Delivered(maxRetries, w, msg, script) ==
            match ActionFor(maxRetries, w, msg, script)
            case ProcessDone => handled
            case ProcessRetry =>
              handled.(events := w.events + (if script.publish.ok then [Msg(msg.event, msg.attempt + 1)] else []))
            case ProcessDlq =>
              handled.(dlq := w.dlq + (if script.publish.ok then [msg] else []))
  {
    HandleEnds(maxRetries, Start(msg), CellOf(w.rows, msg.event), script);
  }

  /** The delivery is one of the last attempt that could not read its row, or not mark the open row it read. */
  predicate DeadLettered(maxRetries: int, rows: map<EventId, Row>, msg: Msg, script: Script) {
    && msg.attempt >= maxRetries
    && (!script.find.ok
        || (msg.event in rows && rows[msg.event].status != Status.Processed && rows[msg.event].status != Status.Failed
            && !script.markProcessing.ok))
  }

  /** The source the success counter is labelled with, if the delivery moves it. */
  function CountedSource(rows: map<EventId, Row>, msg: Msg, script: Script): seq<string> {
    if msg.event in rows && rows[msg.event].status != Status.Processed && rows[msg.event].status != Status.Failed
       && rows[msg.event].source != "" && script.find.ok && script.markProcessing.ok
    then [rows[msg.event].source] else []
  }

  lemma DeadLetteredIff(maxRetries: int, w: World, msg: Msg, script: Script)
    ensures ActionFor(maxRetries, w, msg, script).ProcessDlq? <==> DeadLettered(maxRetries, w.rows, msg, script)
  {
    var cell := CellOf(w.rows, msg.event);
    if cell.Some? {
      DeliverBySteps(maxRetries, msg, cell.value, script);
      ActionBySteps(maxRetries, msg, cell.value, script);
    } else {
      MissingBySteps(maxRetries, msg, script);
    }
  }

  lemma ActionBySteps(maxRetries: int, msg: Msg, cell: Cell, script: Script)
    ensures ActionAt(Handle(maxRetries, Start(msg), Some(cell), script).carrier.stage) ==
            if !Fails(cell, script) then ProcessDone
            else if msg.attempt >= maxRetries then ProcessDlq else ProcessRetry
  {
    if Fails(cell, script) {
      FailureBySteps(maxRetries, msg, cell, script);
      if script.find.ok {
        UnmarkedBySteps(maxRetries, msg, cell, script);
      } else {
        UnreadBySteps(maxRetries, msg, Some(cell), script);
      }
    } else if !Terminal(cell.row.status) {
      FinishedBySteps(maxRetries, msg, cell, script);
    }
  }

  /** What a fetch yields: an error, or a message (none if it does not parse) together with the
      answers its handling gets and whether its offset commit succeeds. */
  datatype Fetched = FetchError | Fetched(msg: Option<Msg>, script: Script, commit: bool)

  /** The world after a consumer of the events topic has handled `fetches` in turn. */
  function Consumed(maxRetries: int, writes: bool, w: World, fetches: seq<Fetched>): World {
    if |fetches| == 0 then w
    else
      var before := Consumed(maxRetries, writes, w, fetches[..|fetches| - 1]);
      var last := fetches[|fetches| - 1];
      if last.FetchError? || last.msg.None? then before
      else Delivered(maxRetries, before, last.msg.value, Effective(writes, last.script))
  }

  /** The sources the success counter has been labelled with by then. */
  function SourcesCounted(maxRetries: int, writes: bool, w: World, fetches: seq<Fetched>): seq<string> {
    if |fetches| == 0 then []
    else
      var n := |fetches| - 1;
      SourcesCounted(maxRetries, writes, w, fetches[..n]) +
      (if fetches[n].FetchError? || fetches[n].msg.None? then []
       else CountedSource(Consumed(maxRetries, writes, w, fetches[..n]).rows, fetches[n].msg.value, fetches[n].script))
  }

  /** How often the failure counter has moved by then. */
  function FailuresCounted(maxRetries: int, writes: bool, w: World, fetches: seq<Fetched>): nat {
    if |fetches| == 0 then 0
    else
      var n := |fetches| - 1;
      FailuresCounted(maxRetries, writes, w, fetches[..n]) +
      (if fetches[n].Fetched? && fetches[n].msg.Some?
          && DeadLettered(maxRetries, Consumed(maxRetries, writes, w, fetches[..n]).rows,
                          fetches[n].msg.value, fetches[n].script)
       then 1 else 0)
  }

  /** The messages whose offsets are committed. */
  function Committed(fetches: seq<Fetched>): seq<Option<Msg>> {
    if |fetches| == 0 then []
    else
      var last := fetches[|fetches| - 1];
      Committed(fetches[..|fetches| - 1]) + (if last.Fetched? && last.commit then [last.msg] else [])
  }

  /** All a consumer of the events topic changes: the world, its two counters and its committed offsets. */
  datatype Tally = Tally(w: World, sources: seq<string>, failures: nat, committed: seq<Option<Msg>>)

  /** The tally after one more fetch. */
  function Round(maxRetries: int, writes: bool, t: Tally, fetched: Fetched): Tally {
    if fetched.FetchError? then t
    else
      var committed := t.committed + (if fetched.commit then [fetched.msg] else []);
      if fetched.msg.None? then t.(committed := committed)
      else
        var msg := fetched.msg.value;
        Tally(Delivered(maxRetries, t.w, msg, Effective(writes, fetched.script)),
              t.sources + CountedSource(t.w.rows, msg, fetched.script),
              t.failures + (if DeadLettered(maxRetries, t.w.rows, msg, fetched.script) then 1 else 0),
              committed)
  }

  function Rounds(maxRetries: int, writes: bool, t: Tally, fetches: seq<Fetched>): Tally {
    if |fetches| == 0 then t
    else Round(maxRetries, writes, Rounds(maxRetries, writes, t, fetches[..|fetches| - 1]), fetches[|fetches| - 1])
  }

  lemma {:induction false} RoundsWorld(maxRetries: int, writes: bool, t: Tally, fetches: seq<Fetched>)
    ensures Rounds(maxRetries, writes, t, fetches).w == Consumed(maxRetries, writes, t.w, fetches)
    ensures Rounds(maxRetries, writes, t, fetches).committed == t.committed + Committed(fetches)
  {
    if |fetches| > 0 {
      RoundsWorld(maxRetries, writes, t, fetches[..|fetches| - 1]);
    }
  }

  lemma {:induction false} RoundsSources(maxRetries: int, writes: bool, t: Tally, fetches: seq<Fetched>)
    ensures Rounds(maxRetries, writes, t, fetches).sources ==
            t.sources + SourcesCounted(maxRetries, writes, t.w, fetches)
  {
    if |fetches| > 0 {
      RoundsSources(maxRetries, writes, t, fetches[..|fetches| - 1]);
      RoundsWorld(maxRetries, writes, t, fetches[..|fetches| - 1]);
    }
  }

  lemma {:induction false} RoundsFailures(maxRetries: int, writes: bool, t: Tally, fetches: seq<Fetched>)
    ensures Rounds(maxRetries, writes, t, fetches).failures ==
            t.failures + FailuresCounted(maxRetries, writes, t.w, fetches)
  {
    if |fetches| > 0 {
      RoundsFailures(maxRetries, writes, t, fetches[..|fetches| - 1]);
      RoundsWorld(maxRetries, writes, t, fetches[..|fetches| - 1]);
    }
  }

  class Processor {
    const processEvent: ProcessEvent
    const producer: Broker
    var committed: seq<Option<Msg>>
    var processedSources: seq<string>
    var failedTotal: nat

    constructor (processEvent: ProcessEvent, producer: Broker)
      ensures this.processEvent == processEvent && this.producer == producer
      ensures committed == [] && processedSources == [] && failedTotal == 0
    {
      this.processEvent, this.producer := processEvent, producer;
      committed, processedSources, failedTotal := [], [], 0;
    }

    function Now(): World
      reads processEvent.events, processEvent.analytics, producer
    {
      World(processEvent.events.rows, processEvent.Log(), producer.events, producer.dlq)
    }

    /** Has exactly the effect of one delivery. The success counter moves exactly when an event
        with a source was processed, the failure counter exactly when the last attempt failed,
        whether or not the dead-letter publish succeeds. */
    method ProcessMessage(raw: Option<Msg>, script: Script)
      modifies this`processedSources, this`failedTotal, processEvent.events, processEvent.analytics, producer
      ensures raw.None? ==>
                Now() == old(Now()) && processedSources == old(processedSources) && failedTotal == old(failedTotal)
      ensures raw.Some? ==>
                Now() == Delivered(processEvent.maxRetries, old(Now()), raw.value, processEvent.Seen(script))
      ensures raw.Some? ==>
                failedTotal == old(failedTotal) +
                  if DeadLettered(processEvent.maxRetries, old(Now()).rows, raw.value, script) then 1 else 0
      ensures raw.Some? ==>
                processedSources == old(processedSources) + CountedSource(old(Now()).rows, raw.value, script)
    {
      if raw.None? {
        return;
      }
      var msg := raw.value;
      DeliveredByAction(processEvent.maxRetries, Now(), msg, processEvent.Seen(script));
      DeadLetteredIff(processEvent.maxRetries, Now(), msg, processEvent.Seen(script));
      var result, err := processEvent.Execute(msg, script);
      match result.action {
        case ProcessDone =>
          if err.None? && result.eventSource != "" {
            processedSources := processedSources + [result.eventSource];
          }
        case ProcessRetry =>
          PublishRetry(msg, script.publish.ok);
        case ProcessDlq =>
          PublishToDLQ(msg, script.publish.ok);
          failedTotal := failedTotal + 1;
      }
    }

    method PublishRetry(msg: Msg, up: bool)
      modifies producer
      ensures producer.events == old(producer.events) + (if up then [Msg(msg.event, msg.attempt + 1)] else [])
      ensures producer.dlq == old(producer.dlq)
    {
      var retryMsg := Msg(msg.event, msg.attempt + 1);
      var sent := producer.Publish(false, retryMsg, up);
    }

    method PublishToDLQ(msg: Msg, up: bool)
      modifies producer
      ensures producer.dlq == old(producer.dlq) + (if up then [msg] else [])
      ensures producer.events == old(producer.events)
    {
      var sent := producer.Publish(true, msg, up);
    }

    function View(): Tally
      reads this, processEvent.events, processEvent.analytics, producer
    {
      Tally(Now(), processedSources, failedTotal, committed)
    }

    /** Handles the fetched messages in order, and commits each one it fetched, whatever became of
        its delivery, unless the commit itself fails. */
    method Run(fetches: seq<Fetched>)
      modifies this, processEvent.events, processEvent.analytics, producer
      ensures View() == Rounds(processEvent.maxRetries, processEvent.analytics != null, old(View()), fetches)
      ensures Now() == Consumed(processEvent.maxRetries, processEvent.analytics != null, old(Now()), fetches)
      ensures committed == old(committed) + Committed(fetches)
      ensures processedSources == old(processedSources) +
                SourcesCounted(processEvent.maxRetries, processEvent.analytics != null, old(Now()), fetches)
      ensures failedTotal == old(failedTotal) +
                FailuresCounted(processEvent.maxRetries, processEvent.analytics != null, old(Now()), fetches)
    {
      ghost var maxRetries, writes, tally := processEvent.maxRetries, processEvent.analytics != null, View();
      var k := 0;
      while k < |fetches|
        invariant 0 <= k <= |fetches|
        invariant View() == Rounds(maxRetries, writes, tally, fetches[..k])
      {
        assert fetches[..k + 1][..k] == fetches[..k];
        var fetched := fetches[k];
        k := k + 1;
        if fetched.FetchError? {
          continue;
        }
        ProcessMessage(fetched.msg, fetched.script);
        if fetched.commit {
          committed := committed + [fetched.msg];
        }
      }
      assert fetches[..k] == fetches;
      RoundsWorld(maxRetries, writes, tally, fetches);
      RoundsSources(maxRetries, writes, tally, fetches);
      RoundsFailures(maxRetries, writes, tally, fetches);
    }
  }

  /** The rows after the dead-letter handler has handled `fetches` in turn. */
  function Buried(rows: map<EventId, Row>, fetches: seq<Fetched>): map<EventId, Row> {
    if |fetches| == 0 then rows
    else
      var before := Buried(rows, fetches[..|fetches| - 1]);
      var last := fetches[|fetches| - 1];
      if last.FetchError? || last.msg.None? then before
      else
        var msg := last.msg.value;
        StoreRow(before, msg.event,
                 NextCall(0, Carrier(msg.event, msg.attempt, AtDlqMark),
                          CellOf(before, msg.event), last.script.markFailed).cell)
  }

  /** The handler could mark the event `id` failed at least once. */
  ghost predicate BuriedOnce(fetches: seq<Fetched>, id: EventId) {
    exists k :: 0 <= k < |fetches| && fetches[k].Fetched? && fetches[k].msg.Some?
                && fetches[k].msg.value.event == id && fetches[k].script.markFailed.ok
  }

  lemma BuriedOnceSnoc(fetches: seq<Fetched>, last: Fetched, id: EventId)
    ensures BuriedOnce(fetches + [last], id) <==>
            BuriedOnce(fetches, id)
            || (last.Fetched? && last.msg.Some? && last.msg.value.event == id && last.script.markFailed.ok)
  {
    var all := fetches + [last];
    if BuriedOnce(fetches, id) {
      var k :| 0 <= k < |fetches| && fetches[k].Fetched? && fetches[k].msg.Some?
               && fetches[k].msg.value.event == id && fetches[k].script.markFailed.ok;
      assert all[k] == fetches[k];
    }
    assert all[|fetches|] == last;
  }

  /** However many dead letters it handles, in whatever order and however often, the handler leaves
      failed, with no processing time, exactly the events it could mark once; no other column and no
      other row changes, and no row appears. */
  lemma {:induction false} BuriedMeans(rows: map<EventId, Row>, fetches: seq<Fetched>)
    ensures Buried(rows, fetches).Keys == rows.Keys
    ensures forall id :: id in rows ==>
              Buried(rows, fetches)[id] ==
              if BuriedOnce(fetches, id) then rows[id].(status := Status.Failed, processedAt := None) else rows[id]
  {
    if |fetches| > 0 {
      var n := |fetches| - 1;
      BuriedMeans(rows, fetches[..n]);
      assert fetches == fetches[..n] + [fetches[n]];
      forall id | id in rows
        ensures Buried(rows, fetches)[id] ==
                if BuriedOnce(fetches, id) then rows[id].(status := Status.Failed, processedAt := None) else rows[id]
      {
        BuriedOnceSnoc(fetches[..n], fetches[n], id);
      }
    }
  }

  class DLQHandler {
    const events: EventRepository
    var committed: seq<Option<Msg>>

    constructor (events: EventRepository)
      ensures this.events == events && committed == []
    {
      this.events := events;
      committed := [];
    }

    method Run(fetches: seq<Fetched>)
      modifies this, events
      ensures events.rows == Buried(old(events.rows), fetches)
      ensures committed == old(committed) + Committed(fetches)
    {
      var k := 0;
      while k < |fetches|
        invariant 0 <= k <= |fetches|
        invariant events.rows == Buried(old(events.rows), fetches[..k])
        invariant committed == old(committed) + Committed(fetches[..k])
      {
        assert fetches[..k + 1][..k] == fetches[..k];
        var fetched := fetches[k];
        k := k + 1;
        if fetched.FetchError? {
          continue;
        }
        if fetched.msg.Some? {
          var marked := events.UpdateStatus(fetched.msg.value.event, Status.Failed, fetched.script.markFailed);
        }
        if fetched.commit {
          committed := committed + [fetched.msg];
        }
      }
      assert fetches[..k] == fetches;
    }
  }

  class IngestEvent {
    const events: EventRepository
    const publisher: Broker?

    constructor (events: EventRepository, publisher: Broker?)
      ensures this.events == events && this.publisher == publisher
    {
      this.events, this.publisher := events, publisher;
    }

    /** Inserts a pending row under the fresh `id` and then announces it once. A failed insert is
        reported and changes nothing; a failed publish is not reported. */
    method Execute(id: EventId, key: string, source: string, eventType: string, insertUp: bool, publishUp: bool)
      returns (r: Option<EventId>)
      modifies events, publisher
      ensures r == if insertUp && id !in old(events.rows) then Some(id) else None
      ensures events.rows == if r.None? then old(events.rows)
                             else old(events.rows)[id := Row(key, source, eventType, Status.Pending, 0, None)]
      ensures publisher != null ==>
                && publisher.events == old(publisher.events) + (if r.Some? && publishUp then [Msg(id, 1)] else [])
                && publisher.dlq == old(publisher.dlq)
    {
      var event := Row(key, source, eventType, Status.Pending, 0, None);
      var inserted := events.Insert(id, event, insertUp);
      if !inserted {
        return None;
      }
      if publisher != null {
        var sent := publisher.Publish(false, Msg(id, 1), publishUp);
      }
      return Some(id);
    }
  }

  // ----- the code and the step system ----------------------------------------------------------

  /** The rows a state of the step system holds. */
  function RowsIn(cells: map<EventId, Cell>): map<EventId, Row> {
    map id | id in cells :: cells[id].row
  }

  ghost predicate Matches(s: State, w: World) {
    RowsIn(s.cells) == w.rows && s.analytics == w.log
  }

  lemma RowsInStore(cells: map<EventId, Cell>, id: EventId, x: Option<Cell>, y: Option<Cell>)
    requires x.Some? <==> y.Some?
    requires x.Some? ==> x.value.row == y.value.row
    ensures RowsIn(Store(cells, id, x)) == StoreRow(RowsIn(cells), id, y)
  {
  }

  lemma DeliverIgnoresAudit(maxRetries: int, msg: Msg, cells: map<EventId, Cell>, script: Script)
    ensures var x := Deliver(maxRetries, Start(msg), Lookup(cells, msg.event), script);
            var y := Deliver(maxRetries, Start(msg), CellOf(RowsIn(cells), msg.event), script);
            && x.carrier == y.carrier && x.log == y.log
            && RowsIn(Store(cells, msg.event, x.cell)) == StoreRow(RowsIn(cells), msg.event, y.cell)
  {
    if msg.event in cells {
      RowIgnoresAudit(maxRetries, Start(msg), cells[msg.event], CellOf(RowsIn(cells), msg.event).value, script);
    }
    RowsInStore(cells, msg.event, Deliver(maxRetries, Start(msg), Lookup(cells, msg.event), script).cell,
                Deliver(maxRetries, Start(msg), CellOf(RowsIn(cells), msg.event), script).cell);
  }

  /** State `s'` and `w'` hold the same rows and analytics, and what carrier `i` of `s'` put on a topic
      is what `w'` has there beyond `w`. */
  ghost predicate SameOutcome(s': State, i: nat, w: World, w': World) {
    i < |s'.carriers| &&
    var c := s'.carriers[i];
    && Matches(s', w')
    && w'.events == w.events + (if c.stage.OnEvents? then [Msg(c.event, c.attempt)] else [])
    && w'.dlq == w.dlq + (if c.stage.OnDlq? then [Msg(c.event, c.attempt)] else [])
  }

  /** What the processor does with a message, uninterrupted, is a run of the step system on the
      same rows and analytics table, with the same message passed on. */
  lemma {:induction false} ProcessorRunsTheSteps(maxRetries: int, s: State, w: World, i: nat, script: Script)
    requires Matches(s, w) && i < |s.carriers| && s.carriers[i].stage.OnEvents?
    ensures var msg := Msg(s.carriers[i].event, s.carriers[i].attempt);
            var steps := [Fetch(i)] + Calls(maxRetries, i, Start(msg), Lookup(s.cells, msg.event), script);
            Legal(maxRetries, s, steps) &&
            SameOutcome(Exec(maxRetries, s, steps), i, w, Delivered(maxRetries, w, msg, script))
  {
    DeliveryIsARun(maxRetries, s, i, script);
    DeliverIgnoresAudit(maxRetries, Msg(s.carriers[i].event, s.carriers[i].attempt), s.cells, script);
  }

  lemma TwoSteps(maxRetries: int, s: State, a: Step, b: Step)
    requires Enabled(s, a) && Enabled(Apply(maxRetries, s, a), b)
    ensures Legal(maxRetries, s, [a, b])
    ensures Exec(maxRetries, s, [a, b]) == Apply(maxRetries, Apply(maxRetries, s, a), b)
  {
    ExecSnoc(maxRetries, s, [], a);
    ExecSnoc(maxRetries, s, [a], b);
    assert [] + [a] == [a] && [a] + [b] == [a, b];
  }

  /** An accepted ingestion is the steps insert and publish: the same row, and a message with
      attempt 1 on the events topic exactly when the publish succeeded. */
  lemma IngestRunsTheSteps(maxRetries: int, s: State,
                           id: EventId, key: string, source: string, eventType: string, publish: Reply)
    requires id !in s.cells
    ensures var n := |s.carriers|;
            var steps := [Ingest(id, key, source, eventType, true), Call(n, publish)];
            Legal(maxRetries, s, steps) &&
            var s' := Exec(maxRetries, s, steps);
            && RowsIn(s'.cells) == RowsIn(s.cells)[id := Row(key, source, eventType, Status.Pending, 0, None)]
            && s'.analytics == s.analytics
            && s'.carriers == s.carriers + [Carrier(id, 1, if publish.ok then OnEvents else Ended(NeverPublished))]
  {
    TwoSteps(maxRetries, s, Ingest(id, key, source, eventType, true), Call(|s.carriers|, publish));
    var s1 := Apply(maxRetries, s, Ingest(id, key, source, eventType, true));
    assert s1.carriers[|s.carriers| := Carrier(id, 1, if publish.ok then OnEvents else Ended(NeverPublished))]
           == s.carriers + [Carrier(id, 1, if publish.ok then OnEvents else Ended(NeverPublished))];
    assert s1.analytics + [] == s1.analytics;
    assert s1.cells[id := s1.cells[id]] == s1.cells;
  }

  /** Handling one dead letter is the steps fetch and mark. */
  lemma BurialRunsTheSteps(maxRetries: int, s: State, i: nat, script: Script, commit: bool)
    requires i < |s.carriers| && s.carriers[i].stage.OnDlq?
    ensures var msg := Msg(s.carriers[i].event, s.carriers[i].attempt);
            var steps := [Fetch(i), Call(i, script.markFailed)];
            Legal(maxRetries, s, steps) &&
            var s' := Exec(maxRetries, s, steps);
            && RowsIn(s'.cells) == Buried(RowsIn(s.cells), [Fetched(Some(msg), script, commit)])
            && s'.analytics == s.analytics
            && s'.carriers == s.carriers[i := Carrier(msg.event, msg.attempt, Ended(DlqHandled))]
  {
    TwoSteps(maxRetries, s, Fetch(i), Call(i, script.markFailed));
    var msg := Msg(s.carriers[i].event, s.carriers[i].attempt);
    BuriedOne(RowsIn(s.cells), msg, script, commit);
    var c := Carrier(msg.event, msg.attempt, AtDlqMark);
    RowsInStore(s.cells, msg.event, NextCall(maxRetries, c, Lookup(s.cells, msg.event), script.markFailed).cell,
                NextCall(0, c, CellOf(RowsIn(s.cells), msg.event), script.markFailed).cell);
    assert s.analytics + [] == s.analytics;
  }

  lemma BuriedOne(rows: map<EventId, Row>, msg: Msg, script: Script, commit: bool)
    ensures Buried(rows, [Fetched(Some(msg), script, commit)]) ==
            StoreRow(rows, msg.event,
                     NextCall(0, Carrier(msg.event, msg.attempt, AtDlqMark),
                              CellOf(rows, msg.event), script.markFailed).cell)
  {
    assert [Fetched(Some(msg), script, commit)][..0] == [];
    assert Buried(rows, []) == rows;
  }
}
