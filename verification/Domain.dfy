/** The records the services exchange: event rows, queue messages and analytics rows. */
module Domain {
  import opened Prelude

  /** A UUID, read as a number. */
  type EventId = nat

  datatype Status = Pending | Processing | Processed | Failed

  predicate Terminal(status: Status) {
    status == Processed || status == Failed
  }

  /** A row of `webhook_events`, without its payload and creation time. */
  datatype Row = Row(
    key: string,
    source: string,
    eventType: string,
    status: Status,
    retryCount: nat,
    processedAt: Option<nat>)

  datatype Msg = Msg(event: EventId, attempt: int)

  /** A row of the ClickHouse table `events_log`. */
  datatype LogRow = LogRow(
    event: EventId,
    source: string,
    eventType: string,
    status: Status,
    processedAt: nat,
    date: nat)

  /** Seconds in a day; times are seconds of UTC. */
  const DAY: nat := 86400

  /** Midnight of the UTC day that contains `time`. */
  function DayOf(time: nat): nat {
    time - time % DAY
  }

  /** The last delivery attempt: messages are numbered 1 to this. */
  function LastAttempt(maxRetries: int): int {
    Max(1, maxRetries)
  }

  /** The row an `UPDATE ... SET status, processed_at` leaves behind. */
  function WithStatus(row: Row, status: Status, now: nat): Row {
    row.(status := status, processedAt := if status == Processed then Some(now) else None)
  }

  /** The analytics row written for the snapshot `row` when the clock reads `now`. */
  function LogRowFor(event: EventId, row: Row, now: nat): LogRow {
    var at := if row.processedAt.Some? then row.processedAt.value else now;
    LogRow(event, row.source, row.eventType, row.status, at, DayOf(at))
  }
}
