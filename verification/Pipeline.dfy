/**
 The event pipeline as a step system. Every call a service makes to PostgreSQL, ClickHouse or
 Kafka is one atomic step, so the steps of any number of requests and workers interleave freely.

 A `Carrier` is one copy of an event's message together with whatever holds it: the ingesting
 request, a topic, a processor or the dead-letter handler. It ends when that copy is used up.
 */
module Pipeline {
  import opened Prelude
  import opened Domain

  datatype Ending = NeverPublished | Done | RetryLost | DlqLost | DlqHandled | Aborted

  /** Where a carrier stands: on a topic, or before the named call. */
  datatype Stage =
    | AtPublish
    | OnEvents
    | AtFind
    | AtMarkProcessing(snap: Row)
    | AtWrite(snap: Row)
    | AtMarkProcessed
    | AtIncrement
    | AtMarkFailed
    | AtPublishRetry
    | AtPublishDlq
    | OnDlq
    | AtDlqMark
    | Ended(how: Ending)

  datatype Carrier = Carrier(event: EventId, attempt: int, stage: Stage)

  /** What happened to an event so far: every status its row has had, how many deliveries ended in
      `handleFailure`, how many of their retry increments were lost, and its redeliveries on the events topic. */
  datatype Audit = Audit(history: seq<Status>, failures: nat, missed: nat, redeliveries: nat)

  datatype Cell = Cell(row: Row, audit: Audit)

  datatype State = State(
    cells: map<EventId, Cell>,
    carriers: seq<Carrier>,
    analytics: seq<LogRow>,
    inserted: nat,
    redelivered: nat,
    dlqRedelivered: nat,
    ended: multiset<Ending>,
    delivered: set<Msg>,
    dlqDelivered: set<Msg>)

  /** The answer of the called system: did the call take effect, and what did the clock read. */
  datatype Reply = Reply(ok: bool, at: nat)

  datatype Step =
    | Ingest(id: EventId, key: string, source: string, eventType: string, ok: bool)
    | Fetch(i: nat)
    | Call(i: nat, reply: Reply)
    | Crash(i: nat)
    | Redeliver(msg: Msg)
    | RedeliverDlq(msg: Msg)

  const INIT: State := State(map[], [], [], 0, 0, 0, multiset{}, {}, {})

  /** Held by a process that has taken the message from its topic. */
  predicate InWork(stage: Stage) {
    !stage.AtPublish? && !stage.OnEvents? && !stage.OnDlq? && !stage.Ended?
  }

  /** Held by a process that is about to make a call. */
  predicate Calling(stage: Stage) {
    stage.AtPublish? || InWork(stage)
  }

  /** Inside `Processor.processMessage`, between the fetch and its last publish. */
  predicate InDelivery(stage: Stage) {
    InWork(stage) && !stage.AtDlqMark?
  }

  datatype CallResult = CallResult(carrier: Carrier, cell: Option<Cell>, log: seq<LogRow>)

  function NewCell(key: string, source: string, eventType: string): Cell {
    Cell(Row(key, source, eventType, Status.Pending, 0, None), Audit([Status.Pending], 0, 0, 0))
  }

  /** `UpdateStatus` on the row and on its history. */
  function Marked(cell: Cell, status: Status, now: nat): Cell {
    Cell(WithStatus(cell.row, status, now), cell.audit.(history := cell.audit.history + [status]))
  }

  /** `IncrementRetry` at the end of a failed delivery; `ok` says whether it reached the row. */
  function Incremented(cell: Cell, ok: bool): Cell {
    var audit := cell.audit.(failures := cell.audit.failures + 1);
    if ok then Cell(cell.row.(retryCount := cell.row.retryCount + 1), audit)
    else Cell(cell.row, audit.(missed := cell.audit.missed + 1))
  }

  /** The next call of carrier `c`, whose event has the record `cell` (none: no such row). */
  function NextCall(maxRetries: int, c: Carrier, cell: Option<Cell>, reply: Reply): CallResult
    requires Calling(c.stage)
  {
    // A write takes effect when it is answered and its row exists.
    var ok := reply.ok && cell.Some?;
    match c.stage
    case AtPublish =>
      CallResult(c.(stage := if reply.ok then OnEvents else Ended(NeverPublished)), cell, [])
    case AtFind =>
      if !reply.ok then CallResult(c.(stage := AtIncrement), cell, [])
      else if cell.None? || Terminal(cell.value.row.status) then CallResult(c.(stage := Ended(Done)), cell, [])
      else CallResult(c.(stage := AtMarkProcessing(cell.value.row)), cell, [])
    case AtMarkProcessing(snap) =>
      if ok then CallResult(c.(stage := AtWrite(snap)), Some(Marked(cell.value, Status.Processing, reply.at)), [])
      else CallResult(c.(stage := AtIncrement), cell, [])
    case AtWrite(snap) =>
      CallResult(c.(stage := AtMarkProcessed), cell, if reply.ok then [LogRowFor(c.event, snap, reply.at)] else [])
    case AtMarkProcessed =>
      CallResult(c.(stage := Ended(Done)), if ok then Some(Marked(cell.value, Status.Processed, reply.at)) else cell, [])
    case AtIncrement =>
      CallResult(c.(stage := if c.attempt >= maxRetries then AtMarkFailed else AtPublishRetry),
                 if cell.Some? then Some(Incremented(cell.value, reply.ok)) else None, [])
    case AtMarkFailed =>
      CallResult(c.(stage := AtPublishDlq), if ok then Some(Marked(cell.value, Status.Failed, reply.at)) else cell, [])
    case AtPublishRetry =>
      CallResult(if reply.ok then Carrier(c.event, c.attempt + 1, OnEvents) else c.(stage := Ended(RetryLost)), cell, [])
    case AtPublishDlq =>
      CallResult(c.(stage := if reply.ok then OnDlq else Ended(DlqLost)), cell, [])
    case AtDlqMark =>
      CallResult(c.(stage := Ended(DlqHandled)), if ok then Some(Marked(cell.value, Status.Failed, reply.at)) else cell, [])
  }

  function Lookup(cells: map<EventId, Cell>, id: EventId): Option<Cell> {
    if id in cells then Some(cells[id]) else None
  }

  function Store(cells: map<EventId, Cell>, id: EventId, cell: Option<Cell>): map<EventId, Cell> {
    if cell.Some? then cells[id := cell.value] else cells
  }

  function EndingOf(stage: Stage): multiset<Ending> {
    if stage.Ended? then multiset{stage.how} else multiset{}
  }

  predicate Enabled(s: State, step: Step) {
    match step
    case Ingest(id, _, _, _, ok) => ok ==> id !in s.cells
    case Fetch(i) => i < |s.carriers| && (s.carriers[i].stage.OnEvents? || s.carriers[i].stage.OnDlq?)
    case Call(i, _) => i < |s.carriers| && Calling(s.carriers[i].stage)
    case Crash(i) => i < |s.carriers| && InWork(s.carriers[i].stage)
    case Redeliver(msg) => msg in s.delivered
    case RedeliverDlq(msg) => msg in s.dlqDelivered
  }

  function Counted(cells: map<EventId, Cell>, id: EventId): map<EventId, Cell> {
    if id in cells
    then cells[id := cells[id].(audit := cells[id].audit.(redeliveries := cells[id].audit.redeliveries + 1))]
    else cells
  }

  function Apply(maxRetries: int, s: State, step: Step): State
    requires Enabled(s, step)
  {
    match step
    case Ingest(id, key, source, eventType, ok) =>
      if !ok then s
      else s.(cells := s.cells[id := NewCell(key, source, eventType)],
              carriers := s.carriers + [Carrier(id, 1, AtPublish)],
              inserted := s.inserted + 1)
    case Fetch(i) =>
      var c := s.carriers[i];
      var msg := Msg(c.event, c.attempt);
      if c.stage.OnEvents?
      then s.(carriers := s.carriers[i := c.(stage := AtFind)], delivered := s.delivered + {msg})
      else s.(carriers := s.carriers[i := c.(stage := AtDlqMark)], dlqDelivered := s.dlqDelivered + {msg})
    case Call(i, reply) =>
      var c := s.carriers[i];
      var r := NextCall(maxRetries, c, Lookup(s.cells, c.event), reply);
      s.(cells := Store(s.cells, c.event, r.cell),
         carriers := s.carriers[i := r.carrier],
         analytics := s.analytics + r.log,
         ended := s.ended + EndingOf(r.carrier.stage))
    case Crash(i) =>
      s.(carriers := s.carriers[i := s.carriers[i].(stage := Ended(Aborted))], ended := s.ended + multiset{Aborted})
    case Redeliver(msg) =>
      s.(cells := Counted(s.cells, msg.event),
         carriers := s.carriers + [Carrier(msg.event, msg.attempt, OnEvents)],
         redelivered := s.redelivered + 1)
    case RedeliverDlq(msg) =>
      s.(carriers := s.carriers + [Carrier(msg.event, msg.attempt, OnDlq)],
         dlqRedelivered := s.dlqRedelivered + 1)
  }

  /** `steps` can be taken one after another from `s`. */
  predicate Legal(maxRetries: int, s: State, steps: seq<Step>)
    decreases |steps|, 0
  {
    |steps| == 0 ||
    (Legal(maxRetries, s, steps[..|steps| - 1]) &&
     Enabled(Exec(maxRetries, s, steps[..|steps| - 1]), steps[|steps| - 1]))
  }

  /** The state `steps` lead to. */
  function Exec(maxRetries: int, s: State, steps: seq<Step>): State
    requires Legal(maxRetries, s, steps)
    decreases |steps|, 1
  {
    if |steps| == 0 then s
    else Apply(maxRetries, Exec(maxRetries, s, steps[..|steps| - 1]), steps[|steps| - 1])
  }

  lemma ExecSnoc(maxRetries: int, s: State, steps: seq<Step>, step: Step)
    requires Legal(maxRetries, s, steps) && Enabled(Exec(maxRetries, s, steps), step)
    ensures Legal(maxRetries, s, steps + [step])
    ensures Exec(maxRetries, s, steps + [step]) == Apply(maxRetries, Exec(maxRetries, s, steps), step)
  {
    assert (steps + [step])[..|steps|] == steps;
  }

  lemma {:induction false} LegalPrefix(maxRetries: int, s: State, steps: seq<Step>, k: nat)
    requires Legal(maxRetries, s, steps) && k <= |steps|
    ensures Legal(maxRetries, s, steps[..k])
    ensures k < |steps| ==> Enabled(Exec(maxRetries, s, steps[..k]), steps[k])
    decreases |steps|
  {
    if k == |steps| {
      assert steps[..k] == steps;
    } else {
      var n := |steps| - 1;
      LegalPrefix(maxRetries, s, steps[..n], k);
      assert steps[..n][..k] == steps[..k];
    }
  }

  /** The state after the first `k` steps of a run. */
  ghost function StateAt(maxRetries: int, steps: seq<Step>, k: nat): (s: State)
    requires Legal(maxRetries, INIT, steps) && k <= |steps|
    ensures k < |steps| ==> Enabled(s, steps[k])
  {
    LegalPrefix(maxRetries, INIT, steps, k);
    Exec(maxRetries, INIT, steps[..k])
  }

  lemma {:induction false} NextState(maxRetries: int, steps: seq<Step>, k: nat)
    requires Legal(maxRetries, INIT, steps) && k < |steps|
    ensures StateAt(maxRetries, steps, k + 1) == Apply(maxRetries, StateAt(maxRetries, steps, k), steps[k])
  {
    LegalPrefix(maxRetries, INIT, steps, k + 1);
    assert steps[..k + 1][..k] == steps[..k];
  }
}
