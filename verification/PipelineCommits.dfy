/**
 The pipeline with the broker's records and their commits. A record is one message published to a
 topic. The consumer of a record commits it once it has handled it, and the broker delivers a record
 again only while it is not committed. A commit that covers several records is several steps here, one
 that fails is none.
 */
module PipelineCommits {
  import opened Prelude
  import opened Domain
  import opened Pipeline
  import opened PipelineInvariant
  import opened PipelineOnce
  import opened PipelineFinality
  import opened PipelineLimits

  /** `fetched` by some process, `handled` to the end by some process, and `committed`. */
  datatype Record = Record(dlq: bool, msg: Msg, fetched: bool, handled: bool, committed: bool)

  /** The pipeline, the records by offset, and for each copy on a topic or in a process the offset of
      the record it is a delivery of. */
  datatype Group = Group(s: State, records: seq<Record>, at: seq<nat>)

  datatype Move = Do(step: Step) | Again(offset: nat) | Commit(offset: nat)

  const START: Group := Group(INIT, [], [])

  /** Copy `c` is a delivery of record `r`. */
  predicate DeliveryOf(c: Carrier, r: Record) {
    && r.msg == Msg(c.event, c.attempt)
    && (r.dlq <==> c.stage.OnDlq? || c.stage.AtDlqMark?)
    && (InWork(c.stage) ==> r.fetched)
  }

  ghost predicate CopyOk(g: Group, i: nat)
    requires i < |g.at| && i < |g.s.carriers|
  {
    g.s.carriers[i].stage.AtPublish? || g.s.carriers[i].stage.Ended? ||
    (g.at[i] < |g.records| && DeliveryOf(g.s.carriers[i], g.records[g.at[i]]))
  }

  ghost predicate RecordOk(s: State, r: Record) {
    && (r.fetched ==> if r.dlq then r.msg in s.dlqDelivered else r.msg in s.delivered)
    && (r.committed ==> r.handled) && (r.handled ==> r.fetched)
  }

  ghost predicate GroupOk(g: Group) {
    && |g.at| == |g.s.carriers|
    && (forall i :: 0 <= i < |g.at| ==> CopyOk(g, i))
    && (forall o :: 0 <= o < |g.records| ==> RecordOk(g.s, g.records[o]))
  }

  /** The broker may deliver the record again. */
  predicate Redeliverable(r: Record) {
    r.fetched && !r.committed
  }

  function Redelivery(r: Record): Step {
    if r.dlq then RedeliverDlq(r.msg) else Redeliver(r.msg)
  }

  predicate CanMove(g: Group, m: Move) {
    match m
    case Do(step) => !step.Redeliver? && !step.RedeliverDlq? && Enabled(g.s, step)
    case Again(o) => o < |g.records| && Redeliverable(g.records[o])
    case Commit(o) => o < |g.records| && g.records[o].handled
  }

  /** The records after copy `i` has become `c` by a call: the one it delivered is handled if its process
      is done with it, and what it published is new. */
  function Published(g: Group, i: nat, c: Carrier): Group
    requires i < |g.s.carriers| == |g.at| && CopyOk(g, i)
  {
    var was := g.s.carriers[i].stage;
    var records := if InWork(was) && !InWork(c.stage)
                   then g.records[g.at[i] := g.records[g.at[i]].(handled := true)] else g.records;
    if c.stage.OnEvents? || c.stage.OnDlq?
    then g.(records := records + [Record(c.stage.OnDlq?, Msg(c.event, c.attempt), false, false, false)],
            at := g.at[i := |records|])
    else g.(records := records)
  }

  function Make(maxRetries: int, g: Group, m: Move): Group
    requires GroupOk(g) && CanMove(g, m)
  {
    match m
    case Do(step) =>
      var s' := Apply(maxRetries, g.s, step);
      (match step
       case Ingest(_, _, _, _, ok) => if ok then g.(s := s', at := g.at + [0]) else g.(s := s')
       case Fetch(i) =>
         assert CopyOk(g, i);
         g.(s := s', records := g.records[g.at[i] := g.records[g.at[i]].(fetched := true)])
       case Call(i, _) => Published(g, i, s'.carriers[i]).(s := s')
       case _ => g.(s := s'))
    case Again(o) =>
      assert RecordOk(g.s, g.records[o]);
      g.(s := Apply(maxRetries, g.s, Redelivery(g.records[o])), at := g.at + [o])
    case Commit(o) => g.(records := g.records[o := g.records[o].(committed := true)])
  }

  // ----- what every move keeps ------------------------------------------------------------------

  lemma CallOk(maxRetries: int, g: Group, i: nat, reply: Reply)
    requires GroupOk(g) && Enabled(g.s, Call(i, reply))
    ensures GroupOk(Make(maxRetries, g, Do(Call(i, reply))))
  {
    var c := g.s.carriers[i];
    var g' := Make(maxRetries, g, Do(Call(i, reply)));
    var c' := g'.s.carriers[i];
    assert CopyOk(g, i);
    CallKeepsMessage(maxRetries, c, Lookup(g.s.cells, c.event), reply);
    forall j | 0 <= j < |g'.at| ensures CopyOk(g', j) {
      assert CopyOk(g, j);
    }
    forall o | 0 <= o < |g'.records| ensures RecordOk(g'.s, g'.records[o]) {
      if o < |g.records| {
        assert RecordOk(g.s, g.records[o]);
      }
    }
  }

  /** A call leaves the message of its copy alone unless it publishes. */
  lemma CallKeepsMessage(maxRetries: int, c: Carrier, cell: Option<Cell>, reply: Reply)
    requires Calling(c.stage)
    ensures var c' := NextCall(maxRetries, c, cell, reply).carrier;
            && c'.event == c.event && !c'.stage.AtPublish?
            && (InWork(c'.stage) ==> c'.attempt == c.attempt && InWork(c.stage)
                                     && (c'.stage.AtDlqMark? <==> c.stage.AtDlqMark?))
  {
  }

  lemma FetchOk(maxRetries: int, g: Group, i: nat)
    requires GroupOk(g) && Enabled(g.s, Fetch(i))
    ensures GroupOk(Make(maxRetries, g, Do(Fetch(i))))
  {
    var g' := Make(maxRetries, g, Do(Fetch(i)));
    assert CopyOk(g, i);
    forall j | 0 <= j < |g'.at| ensures CopyOk(g', j) {
      assert CopyOk(g, j);
    }
    forall o | 0 <= o < |g'.records| ensures RecordOk(g'.s, g'.records[o]) {
      assert RecordOk(g.s, g.records[o]);
    }
  }

  lemma OtherOk(maxRetries: int, g: Group, m: Move)
    requires GroupOk(g) && CanMove(g, m) && (m.Do? ==> m.step.Ingest? || m.step.Crash?)
    ensures GroupOk(Make(maxRetries, g, m))
  {
    var g' := Make(maxRetries, g, m);
    if m.Again? {
      assert RecordOk(g.s, g.records[m.offset]);
    }
    forall j | 0 <= j < |g'.at| ensures CopyOk(g', j) {
      if j < |g.at| {
        assert CopyOk(g, j);
      }
    }
    forall o | 0 <= o < |g'.records| ensures RecordOk(g'.s, g'.records[o]) {
      assert RecordOk(g.s, g.records[o]);
    }
  }

  lemma MakeOk(maxRetries: int, g: Group, m: Move)
    requires GroupOk(g) && CanMove(g, m)
    ensures GroupOk(Make(maxRetries, g, m))
  {
    if m.Do? && m.step.Call? {
      CallOk(maxRetries, g, m.step.i, m.step.reply);
    } else if m.Do? && m.step.Fetch? {
      FetchOk(maxRetries, g, m.step.i);
    } else {
      OtherOk(maxRetries, g, m);
    }
  }

  // ----- runs -----------------------------------------------------------------------------------

  /** `moves` can be made one after another from `g`. */
  ghost predicate Possible(maxRetries: int, g: Group, moves: seq<Move>)
    requires GroupOk(g)
    decreases |moves|, 0
  {
    |moves| == 0 ||
    (Possible(maxRetries, g, moves[..|moves| - 1]) &&
     CanMove(After(maxRetries, g, moves[..|moves| - 1]), moves[|moves| - 1]))
  }

  ghost function After(maxRetries: int, g: Group, moves: seq<Move>): (g': Group)
    requires GroupOk(g) && Possible(maxRetries, g, moves)
    ensures GroupOk(g')
    decreases |moves|, 1
  {
    if |moves| == 0 then g
    else
      var before := After(maxRetries, g, moves[..|moves| - 1]);
      MakeOk(maxRetries, before, moves[|moves| - 1]);
      Make(maxRetries, before, moves[|moves| - 1])
  }

  lemma AfterSnoc(maxRetries: int, g: Group, moves: seq<Move>, m: Move)
    requires GroupOk(g) && Possible(maxRetries, g, moves) && CanMove(After(maxRetries, g, moves), m)
    ensures Possible(maxRetries, g, moves + [m])
    ensures After(maxRetries, g, moves + [m]) == Make(maxRetries, After(maxRetries, g, moves), m)
  {
    assert (moves + [m])[..|moves|] == moves;
  }

  lemma LastOfMoves(a: seq<Move>, b: seq<Move>)
    requires |b| > 0
    ensures a + b == a + b[..|b| - 1] + [b[|b| - 1]]
  {
  }

  lemma {:induction false} AfterAppend(maxRetries: int, g: Group, a: seq<Move>, b: seq<Move>)
    requires GroupOk(g) && Possible(maxRetries, g, a) && Possible(maxRetries, After(maxRetries, g, a), b)
    ensures Possible(maxRetries, g, a + b)
    ensures After(maxRetries, g, a + b) == After(maxRetries, After(maxRetries, g, a), b)
    decreases |b|
  {
    if |b| == 0 {
      assert a + b == a;
    } else {
      var m := |b| - 1;
      AfterAppend(maxRetries, g, a, b[..m]);
      AfterSnoc(maxRetries, g, a + b[..m], b[m]);
      LastOfMoves(a, b);
    }
  }

  /** The pipeline steps of a move: a commit is none, and a record delivered again is a redelivery of its
      message. */
  function StepsOf(g: Group, m: Move): seq<Step>
    requires CanMove(g, m)
  {
    match m
    case Do(step) => [step]
    case Again(o) => [Redelivery(g.records[o])]
    case Commit(_) => []
  }

  lemma MoveIsSteps(maxRetries: int, g: Group, m: Move)
    requires GroupOk(g) && CanMove(g, m)
    ensures var steps, s' := StepsOf(g, m), Make(maxRetries, g, m).s;
            if steps == [] then s' == g.s
            else steps == [steps[0]] && Enabled(g.s, steps[0]) && s' == Apply(maxRetries, g.s, steps[0])
  {
    if m.Again? {
      assert RecordOk(g.s, g.records[m.offset]);
    }
  }

  /** The pipeline steps of a run. */
  ghost function Steps(maxRetries: int, g: Group, moves: seq<Move>): seq<Step>
    requires GroupOk(g) && Possible(maxRetries, g, moves)
    decreases |moves|
  {
    if |moves| == 0 then []
    else
      var n := |moves| - 1;
      Steps(maxRetries, g, moves[..n]) + StepsOf(After(maxRetries, g, moves[..n]), moves[n])
  }

  /** Every run with commits is a run of the pipeline, with the same rows, copies and analytics: so what
      holds of all runs of the pipeline holds of all runs with commits. */
  lemma {:induction false} RunIsARun(maxRetries: int, g: Group, moves: seq<Move>)
    requires GroupOk(g) && Possible(maxRetries, g, moves)
    ensures Legal(maxRetries, g.s, Steps(maxRetries, g, moves))
    ensures Exec(maxRetries, g.s, Steps(maxRetries, g, moves)) == After(maxRetries, g, moves).s
    decreases |moves|
  {
    if |moves| > 0 {
      var n := |moves| - 1;
      var before := After(maxRetries, g, moves[..n]);
      var steps, last := Steps(maxRetries, g, moves[..n]), StepsOf(before, moves[n]);
      RunIsARun(maxRetries, g, moves[..n]);
      MoveIsSteps(maxRetries, before, moves[n]);
      if last == [] {
        assert steps + last == steps;
      } else {
        ExecSnoc(maxRetries, g.s, steps, last[0]);
      }
    }
  }

  /** Some run from the start leads to `g`. */
  ghost predicate Reached(maxRetries: int, g: Group) {
    GroupOk(g) && exists moves :: Possible(maxRetries, START, moves) && After(maxRetries, START, moves) == g
  }

  /** What every run keeps: copies and records agree, and the pipeline's own invariant holds. */
  lemma {:induction false} ReachedIsOk(maxRetries: int, g: Group)
    requires Reached(maxRetries, g)
    ensures GroupOk(g) && Inv(maxRetries, g.s)
  {
    var moves :| Possible(maxRetries, START, moves) && After(maxRetries, START, moves) == g;
    RunIsARun(maxRetries, START, moves);
    Reachable(maxRetries, Steps(maxRetries, START, moves));
  }
}
