/**
 Webhook requests that interleave: `Get`, the insert, taking the expiry time and `Set` are separate
 steps, each of which may fail, and every clock reading is arbitrary.
 */
module WebhookRuns {
  import opened Prelude
  import opened Domain
  import opened Idempotency

  datatype Stage =
    | AtGet
    | AtInsert
    | AtStamp(id: EventId)
    | AtSet(id: EventId, expiresAt: int)
    | Ended(reply: HttpReply)

  /** A request; once its `Get` has run, `getAt` is when and `early` whether the key had no entry. */
  datatype Request = Request(key: string, stage: Stage, getAt: int, early: bool)

  datatype State = State(
    entries: map<string, Entry>,
    inserted: map<EventId, string>,
    requests: seq<Request>)

  datatype Step =
    | Arrive(key: string)
    | Get(i: nat, now: int, up: bool)
    | Insert(i: nat, id: EventId, up: bool)
    | Stamp(i: nat, now: int)
    | Set(i: nat, up: bool)

  const INIT: State := State(map[], map[], [])

  predicate Enabled(s: State, step: Step) {
    match step
    case Arrive(_) => true
    case Get(i, _, _) => i < |s.requests| && s.requests[i].stage.AtGet?
    case Insert(i, id, up) => i < |s.requests| && s.requests[i].stage.AtInsert? && (up ==> id !in s.inserted)
    case Stamp(i, _) => i < |s.requests| && s.requests[i].stage.AtStamp?
    case Set(i, _) => i < |s.requests| && s.requests[i].stage.AtSet?
  }

  function Apply(kind: StoreKind, ttl: int, s: State, step: Step): State
    requires Enabled(s, step)
  {
    match step
    case Arrive(key) => s.(requests := s.requests + [Request(key, AtGet, 0, false)])
    case Get(i, now, up) =>
      var r := s.requests[i];
      var existing := Read(kind, s.entries, r.key, now);
      var stage := if !up then Ended(InternalError)
                   else if existing.Some? then Ended(Replayed(existing.value.eventId))
                   else AtInsert;
      s.(requests := s.requests[i := Request(r.key, stage, now, r.key !in s.entries)])
    case Insert(i, id, up) =>
      var r := s.requests[i];
      if up then s.(inserted := s.inserted[id := r.key], requests := s.requests[i := r.(stage := AtStamp(id))])
      else s.(requests := s.requests[i := r.(stage := Ended(InternalError))])
    case Stamp(i, now) =>
      var r := s.requests[i];
      s.(requests := s.requests[i := r.(stage := AtSet(r.stage.id, now + ttl))])
    case Set(i, up) =>
      var r := s.requests[i];
      s.(entries := if up then Written(s.entries, r.key, Entry(r.stage.id, r.stage.expiresAt)) else s.entries,
         requests := s.requests[i := r.(stage := Ended(Accepted(r.stage.id)))])
  }

  predicate Legal(kind: StoreKind, ttl: int, steps: seq<Step>)
    decreases |steps|, 0
  {
    |steps| == 0 ||
    (Legal(kind, ttl, steps[..|steps| - 1]) && Enabled(Exec(kind, ttl, steps[..|steps| - 1]), steps[|steps| - 1]))
  }

  function Exec(kind: StoreKind, ttl: int, steps: seq<Step>): State
    requires Legal(kind, ttl, steps)
    decreases |steps|, 1
  {
    if |steps| == 0 then INIT
    else Apply(kind, ttl, Exec(kind, ttl, steps[..|steps| - 1]), steps[|steps| - 1])
  }

  lemma {:induction false} LegalPrefix(kind: StoreKind, ttl: int, steps: seq<Step>, k: nat)
    requires Legal(kind, ttl, steps) && k <= |steps|
    ensures Legal(kind, ttl, steps[..k])
    ensures k < |steps| ==> Enabled(Exec(kind, ttl, steps[..k]), steps[k])
    decreases |steps|
  {
    if k == |steps| {
      assert steps[..k] == steps;
    } else {
      var n := |steps| - 1;
      LegalPrefix(kind, ttl, steps[..n], k);
      assert steps[..n][..k] == steps[..k];
    }
  }

  /** The state after the first `k` steps of a run. */
  ghost function StateAt(kind: StoreKind, ttl: int, steps: seq<Step>, k: nat): (s: State)
    requires Legal(kind, ttl, steps) && k <= |steps|
    ensures k < |steps| ==> Enabled(s, steps[k])
  {
    LegalPrefix(kind, ttl, steps, k);
    Exec(kind, ttl, steps[..k])
  }

  /** The event a request has inserted, if any. */
  function EventOf(stage: Stage): Option<EventId> {
    match stage
    case AtStamp(id) => Some(id)
    case AtSet(id, _) => Some(id)
    case Ended(Accepted(id)) => Some(id)
    case _ => None
  }

  /** The request looked and found nothing. */
  predicate Missed(stage: Stage) {
    stage.AtInsert? || EventOf(stage).Some?
  }

  ghost predicate RequestOk(kind: StoreKind, s: State, r: Request) {
    && (EventOf(r.stage).Some? ==>
          EventOf(r.stage).value in s.inserted && s.inserted[EventOf(r.stage).value] == r.key)
    && (r.stage.Ended? && r.stage.reply.Replayed? ==>
          r.key in s.entries && s.entries[r.key].eventId == r.stage.reply.id)
    && (Missed(r.stage) && (r.key in s.entries ==> Covers(kind, s.entries[r.key], r.getAt)) ==> r.early)
  }

  /** Every entry names an event that was inserted with its key. */
  ghost predicate EntriesOk(s: State) {
    forall key :: key in s.entries ==>
      s.entries[key].eventId in s.inserted && s.inserted[s.entries[key].eventId] == key
  }

  ghost predicate RequestsOk(kind: StoreKind, s: State) {
    forall i :: 0 <= i < |s.requests| ==> RequestOk(kind, s, s.requests[i])
  }

  /** No two requests inserted the same event. */
  ghost predicate Distinct(s: State) {
    forall i, j | 0 <= i < j < |s.requests| ::
      EventOf(s.requests[i].stage).Some? ==> EventOf(s.requests[i].stage) != EventOf(s.requests[j].stage)
  }

  ghost predicate Inv(kind: StoreKind, s: State) {
    EntriesOk(s) && RequestsOk(kind, s) && Distinct(s)
  }

  lemma {:induction false} StepKeepsInv(kind: StoreKind, ttl: int, s: State, step: Step)
    requires Inv(kind, s) && Enabled(s, step)
    ensures Inv(kind, Apply(kind, ttl, s, step))
  {
    StepKeepsEntries(kind, ttl, s, step);
    StepKeepsRequests(kind, ttl, s, step);
    StepKeepsDistinct(kind, ttl, s, step);
  }

  lemma StepKeepsEntries(kind: StoreKind, ttl: int, s: State, step: Step)
    requires EntriesOk(s) && RequestsOk(kind, s) && Enabled(s, step)
    ensures EntriesOk(Apply(kind, ttl, s, step))
  {
    if step.Set? {
      assert RequestOk(kind, s, s.requests[step.i]);
    }
  }

  lemma StepKeepsRequests(kind: StoreKind, ttl: int, s: State, step: Step)
    requires RequestsOk(kind, s) && Enabled(s, step)
    ensures RequestsOk(kind, Apply(kind, ttl, s, step))
  {
    var s' := Apply(kind, ttl, s, step);
    forall i | 0 <= i < |s'.requests| ensures RequestOk(kind, s', s'.requests[i]) {
      if i < |s.requests| {
        assert RequestOk(kind, s, s.requests[i]);
      }
    }
  }

  lemma StepKeepsDistinct(kind: StoreKind, ttl: int, s: State, step: Step)
    requires RequestsOk(kind, s) && Distinct(s) && Enabled(s, step)
    ensures Distinct(Apply(kind, ttl, s, step))
  {
    var s' := Apply(kind, ttl, s, step);
    forall i, j | 0 <= i < j < |s'.requests| && EventOf(s'.requests[i].stage).Some?
      ensures EventOf(s'.requests[i].stage) != EventOf(s'.requests[j].stage)
    {
      if j < |s.requests| {
        assert RequestOk(kind, s, s.requests[i]) && RequestOk(kind, s, s.requests[j]);
      }
    }
  }

  lemma {:induction false} Reachable(kind: StoreKind, ttl: int, steps: seq<Step>)
    requires Legal(kind, ttl, steps)
    ensures Inv(kind, Exec(kind, ttl, steps))
  {
    if |steps| > 0 {
      var n := |steps| - 1;
      Reachable(kind, ttl, steps[..n]);
      StepKeepsInv(kind, ttl, Exec(kind, ttl, steps[..n]), steps[n]);
    }
  }

  /** However requests interleave, all replays of a key return one event id, and the event with that
      id was inserted with that key. */
  lemma {:induction false} ReplaysAgree(kind: StoreKind, ttl: int, steps: seq<Step>, i: nat, j: nat)
    requires Legal(kind, ttl, steps)
    requires i < |Exec(kind, ttl, steps).requests| && j < |Exec(kind, ttl, steps).requests|
    requires var a, b := Exec(kind, ttl, steps).requests[i], Exec(kind, ttl, steps).requests[j];
             a.key == b.key && a.stage.Ended? && a.stage.reply.Replayed? && b.stage.Ended? && b.stage.reply.Replayed?
    ensures var s := Exec(kind, ttl, steps);
            && s.requests[i].stage.reply.id == s.requests[j].stage.reply.id
            && s.requests[i].stage.reply.id in s.inserted
            && s.inserted[s.requests[i].stage.reply.id] == s.requests[i].key
  {
    Reachable(kind, ttl, steps);
    var s := Exec(kind, ttl, steps);
    assert RequestOk(kind, s, s.requests[i]) && RequestOk(kind, s, s.requests[j]);
  }

  /** Accepted requests never share an event: each inserted its own, with its key. */
  lemma {:induction false} AcceptedEventsDiffer(kind: StoreKind, ttl: int, steps: seq<Step>, i: nat, j: nat)
    requires Legal(kind, ttl, steps)
    requires i < |Exec(kind, ttl, steps).requests| && j < |Exec(kind, ttl, steps).requests|
    requires var a, b := Exec(kind, ttl, steps).requests[i], Exec(kind, ttl, steps).requests[j];
             a.stage.Ended? && a.stage.reply.Accepted? && b.stage.Ended? && b.stage.reply.Accepted?
             && a.stage.reply.id == b.stage.reply.id
    ensures i == j
  {
    Reachable(kind, ttl, steps);
    var s := Exec(kind, ttl, steps);
    assert EventOf(s.requests[i].stage) == EventOf(s.requests[j].stage);
  }

  /** Accepted for `key`, with a `Get` at a time `entry` covers. */
  function AcceptedWithin(kind: StoreKind, key: string, entry: Entry): Request -> bool {
    (r: Request) => r.key == key && r.stage.Ended? && r.stage.reply.Accepted? && Covers(kind, entry, r.getAt)
  }

  /** A `Get` for `key` that ran before the first successful `Set`. */
  function EarlyFor(key: string): Request -> bool {
    (r: Request) => r.key == key && r.early
  }

  /** The events accepted for a key by requests whose `Get` ran no later than the stored entry's
      expiry number at most the requests whose `Get` ran before the first successful `Set`. */
  lemma {:induction false} AcceptancesBounded(kind: StoreKind, ttl: int, steps: seq<Step>, key: string)
    requires Legal(kind, ttl, steps) && key in Exec(kind, ttl, steps).entries
    ensures var s := Exec(kind, ttl, steps);
            Count(s.requests, AcceptedWithin(kind, key, s.entries[key])) <= Count(s.requests, EarlyFor(key))
  {
    Reachable(kind, ttl, steps);
    var s := Exec(kind, ttl, steps);
    forall i | 0 <= i < |s.requests| && AcceptedWithin(kind, key, s.entries[key])(s.requests[i])
      ensures EarlyFor(key)(s.requests[i])
    {
      assert RequestOk(kind, s, s.requests[i]);
    }
    CountImplied(s.requests, AcceptedWithin(kind, key, s.entries[key]), EarlyFor(key));
  }

  /** Once a key has an entry, no continuation of the run changes it. */
  lemma {:induction false} EntryNeverChanges(kind: StoreKind, ttl: int, steps: seq<Step>, more: seq<Step>, key: string)
    requires Legal(kind, ttl, steps) && Legal(kind, ttl, steps + more)
    requires key in Exec(kind, ttl, steps).entries
    ensures key in Exec(kind, ttl, steps + more).entries
    ensures Exec(kind, ttl, steps + more).entries[key] == Exec(kind, ttl, steps).entries[key]
    decreases |more|
  {
    if |more| == 0 {
      assert steps + more == steps;
    } else {
      var m := |more| - 1;
      assert (steps + more)[..|steps + more| - 1] == steps + more[..m];
      EntryNeverChanges(kind, ttl, steps, more[..m], key);
    }
  }

  // ----- which duplicates are absorbed ------------------------------------------------------------

  predicate IsReplay(stage: Stage, id: EventId) {
    stage.Ended? && stage.reply == Replayed(id)
  }

  /** Request `i` of `s'` is past its `Get` and is a replay exactly as in `s`. */
  ghost predicate SameFate(s: State, s': State, i: nat) {
    && i < |s.requests| && i < |s'.requests|
    && !s.requests[i].stage.AtGet? && !s'.requests[i].stage.AtGet?
    && forall id :: IsReplay(s'.requests[i].stage, id) <==> IsReplay(s.requests[i].stage, id)
  }

  /** Once its `Get` has run, no step makes a replay of a request or undoes one. */
  lemma StepKeepsFate(kind: StoreKind, ttl: int, s: State, step: Step, i: nat)
    requires Enabled(s, step) && i < |s.requests| && !s.requests[i].stage.AtGet?
    ensures SameFate(s, Apply(kind, ttl, s, step), i)
  {
  }

  lemma {:induction false} RunKeepsFate(kind: StoreKind, ttl: int, steps: seq<Step>, k: nat, i: nat)
    requires Legal(kind, ttl, steps) && k <= |steps|
    requires i < |StateAt(kind, ttl, steps, k).requests| && !StateAt(kind, ttl, steps, k).requests[i].stage.AtGet?
    ensures SameFate(StateAt(kind, ttl, steps, k), Exec(kind, ttl, steps), i)
    decreases |steps|
  {
    if k == |steps| {
      assert steps[..k] == steps;
    } else {
      var n := |steps| - 1;
      assert steps[..n][..k] == steps[..k];
      RunKeepsFate(kind, ttl, steps[..n], k, i);
      StepKeepsFate(kind, ttl, Exec(kind, ttl, steps[..n]), steps[n], i);
    }
  }

  /** However requests interleave, a request whose `Get` succeeds as the `k`-th step of a run ends as
      a replay of event `id` if and only if at that `Get` the store held an entry of its key that
      names `id` and covers the time of the `Get`. */
  lemma {:induction false} ReplayedIff(kind: StoreKind, ttl: int, steps: seq<Step>, k: nat, id: EventId)
    requires Legal(kind, ttl, steps) && k < |steps| && steps[k].Get? && steps[k].up
    ensures var s, s', i := StateAt(kind, ttl, steps, k), Exec(kind, ttl, steps), steps[k].i;
            && i < |s.requests| && i < |s'.requests|
            && (IsReplay(s'.requests[i].stage, id) <==>
                var key := s.requests[i].key;
                && key in s.entries && s.entries[key].eventId == id
                && Covers(kind, s.entries[key], steps[k].now))
  {
    LegalPrefix(kind, ttl, steps, k + 1);
    assert steps[..k + 1][..k] == steps[..k];
    RunKeepsFate(kind, ttl, steps, k + 1, steps[k].i);
  }

  // ----- an uninterrupted request is a run ---------------------------------------------------------

  lemma ExecSnoc(kind: StoreKind, ttl: int, steps: seq<Step>, step: Step)
    requires Legal(kind, ttl, steps) && Enabled(Exec(kind, ttl, steps), step)
    ensures Legal(kind, ttl, steps + [step])
    ensures Exec(kind, ttl, steps + [step]) == Apply(kind, ttl, Exec(kind, ttl, steps), step)
  {
    assert (steps + [step])[..|steps|] == steps;
  }

  /** The step the last request of `s` takes next when it is answered as `w` says. */
  function NextFor(s: State, w: Webhook): Step
    requires |s.requests| > 0
  {
    var i := |s.requests| - 1;
    match s.requests[i].stage
    case AtGet => Get(i, w.getAt, w.getUp)
    case AtInsert => Insert(i, w.id, w.insertUp && w.id !in s.inserted)
    case AtStamp(_) => Stamp(i, w.stampAt)
    case _ => Set(i, w.setUp)
  }

  /** A request with the store and the events it sees. */
  datatype Alone = Alone(entries: map<string, Entry>, inserted: map<EventId, string>, r: Request)

  /** What the next step of a request makes of it, the store and the events. */
  function Local(kind: StoreKind, ttl: int, a: Alone, w: Webhook): Alone {
    if a.r.stage.Ended? then a
    else
      var s := State(a.entries, a.inserted, [a.r]);
      var s' := Apply(kind, ttl, s, NextFor(s, w));
      Alone(s'.entries, s'.inserted, s'.requests[0])
  }

  /** Other requests are neither seen nor touched by a step of the last one. */
  lemma LastStepIsLocal(kind: StoreKind, ttl: int, others: seq<Request>, a: Alone, w: Webhook)
    requires !a.r.stage.Ended?
    ensures var s, a' := State(a.entries, a.inserted, others + [a.r]), Local(kind, ttl, a, w);
            && Enabled(s, NextFor(s, w))
            && Apply(kind, ttl, s, NextFor(s, w)) == State(a'.entries, a'.inserted, others + [a'.r])
  {
    var s := State(a.entries, a.inserted, others + [a.r]);
    var r' := Local(kind, ttl, a, w).r;
    assert s.requests[|others|] == a.r && |s.requests| == |others| + 1;
    assert s.requests[|others| := r'] == others + [r'];
  }

  /** Takes one more step of the last request, unless it has ended. */
  lemma Advance(kind: StoreKind, ttl: int, steps: seq<Step>, others: seq<Request>, a: Alone, w: Webhook)
    returns (more: seq<Step>)
    requires Legal(kind, ttl, steps) && Exec(kind, ttl, steps) == State(a.entries, a.inserted, others + [a.r])
    ensures Legal(kind, ttl, more)
    ensures var a' := Local(kind, ttl, a, w);
            Exec(kind, ttl, more) == State(a'.entries, a'.inserted, others + [a'.r])
  {
    if a.r.stage.Ended? {
      more := steps;
    } else {
      var step := NextFor(Exec(kind, ttl, steps), w);
      LastStepIsLocal(kind, ttl, others, a, w);
      ExecSnoc(kind, ttl, steps, step);
      more := steps + [step];
    }
  }

  lemma AfterGet(kind: StoreKind, ttl: int, a: Alone, w: Webhook)
    requires a.r.stage.AtGet? && a.r.key == w.key
    ensures var existing := Read(kind, a.entries, w.key, w.getAt);
            Local(kind, ttl, a, w) ==
            a.(r := Request(w.key,
                            if !w.getUp then Ended(InternalError)
                            else if existing.Some? then Ended(Replayed(existing.value.eventId))
                            else AtInsert,
                            w.getAt, w.key !in a.entries))
  {
  }

  lemma AfterInsert(kind: StoreKind, ttl: int, a: Alone, w: Webhook)
    requires a.r.stage.AtInsert?
    ensures Local(kind, ttl, a, w) ==
            if w.insertUp && w.id !in a.inserted
            then a.(inserted := a.inserted[w.id := a.r.key], r := a.r.(stage := AtStamp(w.id)))
            else a.(r := a.r.(stage := Ended(InternalError)))
  {
  }

  lemma AfterStampAndSet(kind: StoreKind, ttl: int, a: Alone, w: Webhook)
    requires a.r.stage == AtStamp(w.id)
    ensures Local(kind, ttl, Local(kind, ttl, a, w), w) ==
            a.(entries := if w.setUp then Written(a.entries, a.r.key, Entry(w.id, w.stampAt + ttl)) else a.entries,
               r := a.r.(stage := Ended(Accepted(w.id))))
  {
  }

  /** The four steps of a request, from its arrival on. */
  lemma {:induction false} AloneIsAnswered(kind: StoreKind, ttl: int, a: Alone, w: Webhook)
    requires a.r.stage.AtGet? && a.r.key == w.key
    ensures var b := Local(kind, ttl, Local(kind, ttl, Local(kind, ttl, Local(kind, ttl, a, w), w), w), w);
            var reply := Answered(kind, a.entries, w.id !in a.inserted, w);
            && b.r.key == w.key && b.r.stage == Ended(reply) && b.r.getAt == w.getAt
            && b.entries == Stored(kind, ttl, a.entries, w.id !in a.inserted, w)
            && b.inserted == (if reply.Accepted? then a.inserted[w.id := w.key] else a.inserted)
  {
    AfterGet(kind, ttl, a, w);
    var a1 := Local(kind, ttl, a, w);
    if a1.r.stage.AtInsert? {
      AfterInsert(kind, ttl, a1, w);
      var a2 := Local(kind, ttl, a1, w);
      if a2.r.stage.AtStamp? {
        AfterStampAndSet(kind, ttl, a2, w);
      }
    }
  }

  /** What the handler does with a request, uninterrupted, is a run of the interleaved system: the
      same answer and the same store. */
  lemma {:induction false} RequestIsARun(kind: StoreKind, ttl: int, steps: seq<Step>, w: Webhook)
    returns (more: seq<Step>)
    requires Legal(kind, ttl, steps)
    ensures Legal(kind, ttl, more)
    ensures var s, s' := Exec(kind, ttl, steps), Exec(kind, ttl, more);
            var reply := Answered(kind, s.entries, w.id !in s.inserted, w);
            && |s'.requests| == |s.requests| + 1 && s'.requests[..|s.requests|] == s.requests
            && s'.requests[|s.requests|].key == w.key && s'.requests[|s.requests|].stage == Ended(reply)
            && s'.requests[|s.requests|].getAt == w.getAt
            && s'.entries == Stored(kind, ttl, s.entries, w.id !in s.inserted, w)
            && s'.inserted == (if reply.Accepted? then s.inserted[w.id := w.key] else s.inserted)
  {
    var s := Exec(kind, ttl, steps);
    var a := Alone(s.entries, s.inserted, Request(w.key, AtGet, 0, false));
    AloneIsAnswered(kind, ttl, a, w);
    ExecSnoc(kind, ttl, steps, Arrive(w.key));
    more := steps + [Arrive(w.key)];
    more := Advance(kind, ttl, more, s.requests, a, w);
    var a1 := Local(kind, ttl, a, w);
    more := Advance(kind, ttl, more, s.requests, a1, w);
    var a2 := Local(kind, ttl, a1, w);
    more := Advance(kind, ttl, more, s.requests, a2, w);
    more := Advance(kind, ttl, more, s.requests, Local(kind, ttl, a2, w), w);
  }

  // ----- duplicates that are not absorbed ---------------------------------------------------------

  /** Every call of the request is answered; its id is fresh in `s`. */
  predicate AllUp(s: State, w: Webhook) {
    w.getUp && w.insertUp && w.setUp && w.id !in s.inserted
  }

  predicate IsAccepted(r: Request, key: string, getAt: int, id: EventId) {
    r.key == key && r.getAt == getAt && r.stage == Ended(Accepted(id))
  }

  /** After any run, a request whose `Get` runs after the expiry of its key's entry is accepted as a
      new event, and leaves that entry as it is: so is the next one, and the one after. */
  lemma {:induction false} ExpiredIsAccepted(kind: StoreKind, ttl: int, steps: seq<Step>, w: Webhook)
    returns (more: seq<Step>)
    requires Legal(kind, ttl, steps) && AllUp(Exec(kind, ttl, steps), w)
    requires var s := Exec(kind, ttl, steps); w.key in s.entries && !Covers(kind, s.entries[w.key], w.getAt)
    ensures Legal(kind, ttl, more)
    ensures var s, s' := Exec(kind, ttl, steps), Exec(kind, ttl, more);
            && |s'.requests| == |s.requests| + 1 && s'.requests[..|s.requests|] == s.requests
            && IsAccepted(s'.requests[|s.requests|], w.key, w.getAt, w.id)
            && s'.entries == s.entries && s'.inserted == s.inserted[w.id := w.key]
  {
    more := RequestIsARun(kind, ttl, steps, w);
  }

  /** Three requests with one key, one after another and all calls answered: the second comes after
      the first one's entry expired, the third at the same instant as the second; each is accepted
      as a new event. */
  lemma {:induction false} ExpiredDuplicates(kind: StoreKind, ttl: int, key: string) returns (steps: seq<Step>)
    requires ttl > 0
    ensures Legal(kind, ttl, steps)
    ensures var s := Exec(kind, ttl, steps);
            && |s.requests| == 3
            && IsAccepted(s.requests[0], key, 0, 1)
            && IsAccepted(s.requests[1], key, ttl + 1, 2)
            && IsAccepted(s.requests[2], key, ttl + 1, 3)
  {
    steps := RequestIsARun(kind, ttl, [], Webhook(key, "", "", 1, true, 0, true, true, 0, true));
    steps := ExpiredIsAccepted(kind, ttl, steps, Webhook(key, "", "", 2, true, ttl + 1, true, true, ttl + 1, true));
    steps := ExpiredIsAccepted(kind, ttl, steps, Webhook(key, "", "", 3, true, ttl + 1, true, true, ttl + 1, true));
  }

  lemma ArriveAndGet(kind: StoreKind, ttl: int, s: State, key: string, now: int)
    requires key !in s.entries
    ensures var s', get := Apply(kind, ttl, s, Arrive(key)), Get(|s.requests|, now, true);
            && Enabled(s', get)
            && Apply(kind, ttl, s', get) == s.(requests := s.requests + [Request(key, AtInsert, now, true)])
  {
    assert (s.requests + [Request(key, AtGet, 0, false)])[|s.requests| := Request(key, AtInsert, now, true)]
           == s.requests + [Request(key, AtInsert, now, true)];
  }

  /** A request has read the store and found nothing. */
  lemma {:induction false} Looked(kind: StoreKind, ttl: int, steps: seq<Step>, key: string, now: int)
    returns (more: seq<Step>)
    requires Legal(kind, ttl, steps) && key !in Exec(kind, ttl, steps).entries
    ensures Legal(kind, ttl, more)
    ensures var s := Exec(kind, ttl, steps);
            Exec(kind, ttl, more) == s.(requests := s.requests + [Request(key, AtInsert, now, true)])
  {
    var s := Exec(kind, ttl, steps);
    var get := Get(|s.requests|, now, true);
    ArriveAndGet(kind, ttl, s, key, now);
    ExecSnoc(kind, ttl, steps, Arrive(key));
    ExecSnoc(kind, ttl, steps + [Arrive(key)], get);
    more := steps + [Arrive(key)] + [get];
  }

  lemma InsertStampSet(kind: StoreKind, ttl: int, s: State, i: nat, id: EventId, at: int)
    requires i < |s.requests| && s.requests[i].stage.AtInsert? && id !in s.inserted
    ensures var s1 := Apply(kind, ttl, s, Insert(i, id, true));
            Enabled(s1, Stamp(i, at)) &&
            var s2 := Apply(kind, ttl, s1, Stamp(i, at));
            Enabled(s2, Set(i, true)) &&
            var s3 := Apply(kind, ttl, s2, Set(i, true));
            && s3.requests == s.requests[i := s.requests[i].(stage := Ended(Accepted(id)))]
            && s3.entries == Written(s.entries, s.requests[i].key, Entry(id, at + ttl))
  {
  }

  /** A request that found nothing is accepted whatever has been stored since. */
  lemma {:induction false} LateInsert(kind: StoreKind, ttl: int, steps: seq<Step>, i: nat, id: EventId, at: int)
    returns (more: seq<Step>)
    requires Legal(kind, ttl, steps)
    requires i < |Exec(kind, ttl, steps).requests| && Exec(kind, ttl, steps).requests[i].stage.AtInsert?
    requires id !in Exec(kind, ttl, steps).inserted
    ensures Legal(kind, ttl, more)
    ensures var s, s' := Exec(kind, ttl, steps), Exec(kind, ttl, more);
            && s'.requests == s.requests[i := s.requests[i].(stage := Ended(Accepted(id)))]
            && s'.entries == Written(s.entries, s.requests[i].key, Entry(id, at + ttl))
  {
    InsertStampSet(kind, ttl, Exec(kind, ttl, steps), i, id, at);
    ExecSnoc(kind, ttl, steps, Insert(i, id, true));
    var inserted := steps + [Insert(i, id, true)];
    ExecSnoc(kind, ttl, inserted, Stamp(i, at));
    ExecSnoc(kind, ttl, inserted + [Stamp(i, at)], Set(i, true));
    more := inserted + [Stamp(i, at)] + [Set(i, true)];
  }

  /** After any run, two overlapping requests with a key that has no entry are both accepted, as two
      events, with every call answered and at one instant, which the stored entry covers. */
  lemma {:induction false} OverlappingDuplicates(kind: StoreKind, ttl: int, steps: seq<Step>,
                                                 key: string, now: int, a: EventId, b: EventId)
    returns (more: seq<Step>)
    requires Legal(kind, ttl, steps) && key !in Exec(kind, ttl, steps).entries && ttl > 0
    requires a != b && a !in Exec(kind, ttl, steps).inserted && b !in Exec(kind, ttl, steps).inserted
    ensures Legal(kind, ttl, more)
    ensures var s, s', n := Exec(kind, ttl, steps), Exec(kind, ttl, more), |Exec(kind, ttl, steps).requests|;
            && |s'.requests| == n + 2
            && IsAccepted(s'.requests[n], key, now, b) && IsAccepted(s'.requests[n + 1], key, now, a)
            && key in s'.entries && s'.entries[key] == Entry(a, now + ttl) && Covers(kind, s'.entries[key], now)
  {
    var n := |Exec(kind, ttl, steps).requests|;
    var looked := Looked(kind, ttl, steps, key, now);
    var served := RequestIsARun(kind, ttl, looked, Webhook(key, "", "", a, true, now, true, true, now, true));
    assert Exec(kind, ttl, served).requests[n] == Exec(kind, ttl, served).requests[..n + 1][n];
    more := LateInsert(kind, ttl, served, n, b, now);
  }
}
