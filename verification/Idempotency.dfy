/** The idempotency stores and the webhook handler that uses them. */
module Idempotency {
  import opened Prelude
  import opened Domain
  import opened Worker

  datatype Entry = Entry(eventId: EventId, expiresAt: int)

  datatype StoreKind = Memory | Sql

  /** Whether a `Get` at time `now` returns `entry`: the memory store still does at the instant of
      expiry, the SQL store no longer. */
  predicate Covers(kind: StoreKind, entry: Entry, now: int) {
    if kind == Memory then now <= entry.expiresAt else now < entry.expiresAt
  }

  function Read(kind: StoreKind, entries: map<string, Entry>, key: string, now: int): Option<Entry> {
    if key in entries && Covers(kind, entries[key], now) then Some(entries[key]) else None
  }

  /** `Set` never replaces an entry, not even an expired one. */
  function Written(entries: map<string, Entry>, key: string, entry: Entry): map<string, Entry> {
    if key in entries then entries else entries[key := entry]
  }

  class MemoryStore {
    var entries: map<string, Entry>

    constructor ()
      ensures entries == map[]
    {
      entries := map[];
    }

    method Get(key: string, now: int) returns (r: Option<Entry>)
      ensures r == Read(Memory, entries, key, now)
      ensures r == if key in entries && now <= entries[key].expiresAt then Some(entries[key]) else None
    {
      if key !in entries {
        return None;
      }
      var entry := entries[key];
      var expired := now > entry.expiresAt;
      if expired {
        return None;
      }
      return Some(entry);
    }

    method Set(key: string, entry: Entry)
      modifies this
      ensures entries == Written(old(entries), key, entry)
      ensures entries == if key in old(entries) then old(entries) else old(entries)[key := entry]
    {
      if key in entries {
        return;
      }
      entries := entries[key := entry];
    }
  }

  class SqlStore {
    var rows: map<string, Entry>

    constructor ()
      ensures rows == map[]
    {
      rows := map[];
    }

    method Get(key: string, now: int, up: bool) returns (r: Result<Option<Entry>, ()>)
      ensures r == if up then Ok(Read(Sql, rows, key, now)) else Err(())
      ensures r == if !up then Err(())
                   else if key in rows && now < rows[key].expiresAt then Ok(Some(rows[key])) else Ok(None)
    {
      if !up {
        return Err(());
      }
      if key in rows && rows[key].expiresAt > now {
        return Ok(Some(rows[key]));
      }
      return Ok(None);
    }

    method Set(key: string, entry: Entry, up: bool) returns (ok: bool)
      modifies this
      ensures ok == up
      ensures rows == if ok then Written(old(rows), key, entry) else old(rows)
      ensures rows == if ok && key !in old(rows) then old(rows)[key := entry] else old(rows)
    {
      ok := up;
      if ok && key !in rows {
        rows := rows[key := entry];
      }
    }
  }

  // ----- histories of a store -------------------------------------------------------------------

  datatype StoreSet = StoreSet(key: string, entry: Entry)

  /** The entries after the `Set` calls `sets`. */
  function Entries(sets: seq<StoreSet>): map<string, Entry> {
    if |sets| == 0 then map[]
    else Written(Entries(sets[..|sets| - 1]), sets[|sets| - 1].key, sets[|sets| - 1].entry)
  }

  /** A key holds the entry of its first `Set`, for the life of the store. */
  lemma {:induction false} FirstSetStays(sets: seq<StoreSet>, n: nat)
    requires n < |sets| && forall j :: 0 <= j < n ==> sets[j].key != sets[n].key
    ensures sets[n].key in Entries(sets) && Entries(sets)[sets[n].key] == sets[n].entry
  {
    var m := |sets| - 1;
    if n < m {
      FirstSetStays(sets[..m], n);
    } else {
      NeverSet(sets[..m], sets[n].key);
    }
  }

  lemma {:induction false} NeverSet(sets: seq<StoreSet>, key: string)
    requires forall j :: 0 <= j < |sets| ==> sets[j].key != key
    ensures key !in Entries(sets)
  {
    if |sets| > 0 {
      NeverSet(sets[..|sets| - 1], key);
    }
  }

  /** After the same `Set` calls the two stores answer a `Get` alike, except exactly at the instant
      the key's first entry expires. */
  lemma StoresAgreeIff(sets: seq<StoreSet>, n: nat, now: int)
    requires n < |sets| && forall j :: 0 <= j < n ==> sets[j].key != sets[n].key
    ensures Read(Memory, Entries(sets), sets[n].key, now) == Read(Sql, Entries(sets), sets[n].key, now) <==>
            now != sets[n].entry.expiresAt
    ensures Read(Memory, Entries(sets), sets[n].key, sets[n].entry.expiresAt) == Some(sets[n].entry)
    ensures Read(Sql, Entries(sets), sets[n].key, sets[n].entry.expiresAt) == None
  {
    FirstSetStays(sets, n);
  }

  // ----- the handler ------------------------------------------------------------------------------

  /** A valid webhook request, with the fresh id its event would get and the environment's answers. */
  datatype Webhook = Webhook(
    key: string, source: string, eventType: string, id: EventId,
    getUp: bool, getAt: int, insertUp: bool, publishUp: bool, stampAt: int, setUp: bool)

  datatype HttpReply = Replayed(id: EventId) | Accepted(id: EventId) | InternalError

  /** The answer to request `w` when the store holds `entries` and `w.id` is `unused`. */
  function Answered(kind: StoreKind, entries: map<string, Entry>, unused: bool, w: Webhook): HttpReply {
    if !w.getUp then InternalError
    else
      var existing := Read(kind, entries, w.key, w.getAt);
      if existing.Some? then Replayed(existing.value.eventId)
      else if w.insertUp && unused then Accepted(w.id)
      else InternalError
  }

  /** The entries after an uninterrupted request. */
  function Stored(kind: StoreKind, ttl: int, entries: map<string, Entry>, unused: bool, w: Webhook): map<string, Entry> {
    if Answered(kind, entries, unused, w).Accepted? && w.setUp
    then Written(entries, w.key, Entry(w.id, w.stampAt + ttl))
    else entries
  }

  class WebhookHandler {
    const ingestEvent: IngestEvent
    const idem: SqlStore
    const idemTTL: int
    var duplicates: nat

    constructor (ingestEvent: IngestEvent, idem: SqlStore, idemTTL: int)
      ensures this.ingestEvent == ingestEvent && this.idem == idem && this.idemTTL == idemTTL && duplicates == 0
    {
      this.ingestEvent, this.idem, this.idemTTL := ingestEvent, idem, idemTTL;
      duplicates := 0;
    }

    /** From the idempotency check on: a replay touches nothing but the duplicate counter, and an
        acceptance inserts one pending event with the request's key and remembers its id. */
    method HandleEvent(w: Webhook) returns (reply: HttpReply)
      modifies this, idem, ingestEvent.events, ingestEvent.publisher
      ensures reply == Answered(Sql, old(idem.rows), w.id !in old(ingestEvent.events.rows), w)
      ensures idem.rows == Stored(Sql, idemTTL, old(idem.rows), w.id !in old(ingestEvent.events.rows), w)
      ensures reply == if !w.getUp then InternalError
                       else if w.key in old(idem.rows) && w.getAt < old(idem.rows)[w.key].expiresAt
                       then Replayed(old(idem.rows)[w.key].eventId)
                       else if w.insertUp && w.id !in old(ingestEvent.events.rows) then Accepted(w.id)
                       else InternalError
      ensures idem.rows == if reply.Accepted? && w.setUp && w.key !in old(idem.rows)
                           then old(idem.rows)[w.key := Entry(w.id, w.stampAt + idemTTL)] else old(idem.rows)
      ensures ingestEvent.events.rows ==
              if !reply.Accepted? then old(ingestEvent.events.rows)
              else old(ingestEvent.events.rows)[w.id := Row(w.key, w.source, w.eventType, Status.Pending, 0, None)]
      ensures duplicates == old(duplicates) + (if reply.Replayed? then 1 else 0)
      ensures ingestEvent.publisher != null ==>
                ingestEvent.publisher.events ==
                old(ingestEvent.publisher.events) + (if reply.Accepted? && w.publishUp then [Msg(w.id, 1)] else [])
                && ingestEvent.publisher.dlq == old(ingestEvent.publisher.dlq)
    {
      var existing := idem.Get(w.key, w.getAt, w.getUp);
      if existing.Err? {
        return InternalError;
      }
      if existing.value.Some? {
        duplicates := duplicates + 1;
        return Replayed(existing.value.value.eventId);
      }
      var out := ingestEvent.Execute(w.id, w.key, w.source, w.eventType, w.insertUp, w.publishUp);
      if out.None? {
        return InternalError;
      }
      var stored := idem.Set(w.key, Entry(out.value, w.stampAt + idemTTL), w.setUp);
      return Accepted(out.value);
    }
  }

  // ----- requests one after another ---------------------------------------------------------------

  /** A request and its answer. */
  datatype Served = Served(w: Webhook, reply: HttpReply)

  datatype Line = Line(entries: map<string, Entry>, ids: set<EventId>, served: seq<Served>)

  /** A new store after the requests `ws`, one after another. */
  function Session(kind: StoreKind, ttl: int, ws: seq<Webhook>): Line {
    if |ws| == 0 then Line(map[], {}, [])
    else
      var before := Session(kind, ttl, ws[..|ws| - 1]);
      var w := ws[|ws| - 1];
      var reply := Answered(kind, before.entries, w.id !in before.ids, w);
      Line(Stored(kind, ttl, before.entries, w.id !in before.ids, w),
           before.ids + (if reply.Accepted? then {w.id} else {}),
           before.served + [Served(w, reply)])
  }

  function AcceptedFor(key: string): Served -> bool {
    (s: Served) => s.w.key == key && s.reply.Accepted?
  }

  /** Accepted although `entry` no longer covered the time of its `Get`. */
  function AcceptedAfter(kind: StoreKind, key: string, entry: Entry): Served -> bool {
    (s: Served) => s.w.key == key && s.reply.Accepted? && !Covers(kind, entry, s.w.getAt)
  }

  /** A request that stamps its entry after its `Get`, and whose `Set` succeeds. */
  predicate Ordinary(w: Webhook) {
    w.setUp && w.getAt <= w.stampAt
  }

  lemma {:induction false} AcceptedNow(kind: StoreKind, ttl: int, ws: seq<Webhook>, key: string)
    requires ttl > 0 && forall j :: 0 <= j < |ws| ==> Ordinary(ws[j])
    ensures var line := Session(kind, ttl, ws);
            if key in line.entries then
              Count(line.served, AcceptedFor(key)) ==
              1 + Count(line.served, AcceptedAfter(kind, key, line.entries[key]))
            else Count(line.served, AcceptedFor(key)) == 0
  {
    if |ws| > 0 {
      var n := |ws| - 1;
      AcceptedNow(kind, ttl, ws[..n], key);
      var before, line := Session(kind, ttl, ws[..n]), Session(kind, ttl, ws);
      var last := line.served[|before.served|];
      assert Ordinary(ws[n]);
      CountSnoc(before.served, last, AcceptedFor(key));
      if key in line.entries {
        CountSnoc(before.served, last, AcceptedAfter(kind, key, line.entries[key]));
        if key !in before.entries {
          CountImplied(before.served, AcceptedAfter(kind, key, line.entries[key]), AcceptedFor(key));
        }
      }
    }
  }

  /** Sequential requests whose `Set`s succeed: a key is accepted once, and then once for every
      further accepted request whose `Get` ran after the first entry's expiry. */
  lemma SequentialAcceptances(kind: StoreKind, ttl: int, ws: seq<Webhook>, key: string)
    requires ttl > 0 && forall j :: 0 <= j < |ws| ==> Ordinary(ws[j])
    requires key in Session(kind, ttl, ws).entries
    ensures var line := Session(kind, ttl, ws);
            Count(line.served, AcceptedFor(key)) ==
            1 + Count(line.served, AcceptedAfter(kind, key, line.entries[key]))
  {
    AcceptedNow(kind, ttl, ws, key);
  }

  lemma {:induction false} EntryStays(kind: StoreKind, ttl: int, ws: seq<Webhook>, more: seq<Webhook>, key: string)
    requires key in Session(kind, ttl, ws).entries
    ensures key in Session(kind, ttl, ws + more).entries
    ensures Session(kind, ttl, ws + more).entries[key] == Session(kind, ttl, ws).entries[key]
    decreases |more|
  {
    if |more| == 0 {
      assert ws + more == ws;
    } else {
      assert (ws + more)[..|ws + more| - 1] == ws + more[..|more| - 1];
      EntryStays(kind, ttl, ws, more[..|more| - 1], key);
    }
  }

  /** Which duplicates a session absorbs: once a key has an entry, a later request is replayed if and
      only if its `Get` succeeds no later than that entry's expiry. After that the key is never
      protected again. */
  lemma ReplayedIff(kind: StoreKind, ttl: int, ws: seq<Webhook>, more: seq<Webhook>, w: Webhook)
    requires w.key in Session(kind, ttl, ws).entries
    ensures var entry := Session(kind, ttl, ws).entries[w.key];
            var line := Session(kind, ttl, ws + more);
            && (Answered(kind, line.entries, w.id !in line.ids, w).Replayed? <==>
                w.getUp && Covers(kind, entry, w.getAt))
            && (Answered(kind, line.entries, w.id !in line.ids, w).Replayed? ==>
                Answered(kind, line.entries, w.id !in line.ids, w).id == entry.eventId)
  {
    EntryStays(kind, ttl, ws, more, w.key);
  }
}
