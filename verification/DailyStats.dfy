/**
 Daily statistics: the view that counts each inserted block of log rows into a summing table, the
 background merges of that table, and the query that regroups whatever parts it finds.
 */
module DailyStats {
  import opened Prelude
  import opened Domain

  datatype Group = Group(date: nat, source: string, eventType: string)

  /** A row of `daily_event_stats`, and of the query's answer. */
  datatype Stat = Stat(group: Group, count: nat)

  function GroupOf(entry: LogRow): Group {
    Group(entry.date, entry.source, entry.eventType)
  }

  // ----- the order of the answer ----------------------------------------------------------------

  predicate StringLess(a: string, b: string) {
    if |b| == 0 then false
    else if |a| == 0 then true
    else if a[0] != b[0] then a[0] < b[0]
    else StringLess(a[1..], b[1..])
  }

  predicate Less(g: Group, h: Group) {
    if g.date != h.date then g.date < h.date
    else if g.source != h.source then StringLess(g.source, h.source)
    else StringLess(g.eventType, h.eventType)
  }

  lemma {:induction false} StringOrder(a: string, b: string)
    ensures !StringLess(a, a)
    ensures a != b ==> (StringLess(a, b) <==> !StringLess(b, a))
    decreases |a| + |b|
  {
    if |a| > 0 && |b| > 0 {
      StringOrder(a[1..], b[1..]);
      if a[0] == b[0] {
        assert a == [a[0]] + a[1..] && b == [b[0]] + b[1..];
      }
    } else if |a| > 0 {
      StringOrder(a[1..], b);
    }
  }

  lemma {:induction false} StringTransitive(a: string, b: string, c: string)
    requires StringLess(a, b) && StringLess(b, c)
    ensures StringLess(a, c)
    decreases |a|
  {
    if |a| > 0 && a[0] == b[0] && b[0] == c[0] {
      StringTransitive(a[1..], b[1..], c[1..]);
    }
  }

  /** Groups are strictly and totally ordered by date, source, event type. */
  lemma GroupOrder(g: Group, h: Group, k: Group)
    ensures !Less(g, g)
    ensures g != h ==> (Less(g, h) <==> !Less(h, g))
    ensures Less(g, h) && Less(h, k) ==> Less(g, k)
  {
    StringOrder(g.source, h.source);
    StringOrder(g.eventType, h.eventType);
    StringOrder(h.source, k.source);
    StringOrder(g.source, k.source);
    if StringLess(g.source, h.source) && StringLess(h.source, k.source) {
      StringTransitive(g.source, h.source, k.source);
    }
    if StringLess(g.eventType, h.eventType) && StringLess(h.eventType, k.eventType) {
      StringTransitive(g.eventType, h.eventType, k.eventType);
    }
  }

  /** `a` comes before `b` in a dictionary: it is a proper beginning of `b`, or has the smaller character
      where they first differ. */
  ghost predicate Before(a: string, b: string) {
    exists n :: 0 <= n <= |a| && n <= |b| && a[..n] == b[..n] && n < |b| && (n < |a| ==> a[n] < b[n])
  }

  lemma HeadsOf(a: string, b: string)
    requires |a| > 0 && Before(a, b)
    ensures |b| > 0 && (a[0] == b[0] || a[0] < b[0])
  {
    var n :| 0 <= n <= |a| && n <= |b| && a[..n] == b[..n] && n < |b| && (n < |a| ==> a[n] < b[n]);
    if n > 0 {
      assert a[..n][0] == b[..n][0];
    }
  }

  lemma {:induction false} StringLessMeans(a: string, b: string)
    ensures StringLess(a, b) <==> Before(a, b)
    decreases |a|
  {
    if |b| > 0 && |a| > 0 {
      if a[0] == b[0] {
        StringLessMeans(a[1..], b[1..]);
        TailsOf(a, b);
      } else {
        assert a[..0] == b[..0];
        if Before(a, b) {
          HeadsOf(a, b);
        }
      }
    } else if |b| > 0 {
      assert a[..0] == b[..0];
    }
  }

  lemma TailsOf(a: string, b: string)
    requires |a| > 0 && |b| > 0 && a[0] == b[0]
    ensures Before(a, b) <==> Before(a[1..], b[1..])
  {
    if Before(a[1..], b[1..]) {
      var n :| 0 <= n <= |a[1..]| && n <= |b[1..]| && a[1..][..n] == b[1..][..n] && n < |b[1..]|
               && (n < |a[1..]| ==> a[1..][n] < b[1..][n]);
      assert a[..n + 1] == [a[0]] + a[1..][..n] && b[..n + 1] == [b[0]] + b[1..][..n];
    }
    if Before(a, b) {
      var n :| 0 <= n <= |a| && n <= |b| && a[..n] == b[..n] && n < |b| && (n < |a| ==> a[n] < b[n]);
      if n > 0 {
        assert a[1..][..n - 1] == a[..n][1..] && b[1..][..n - 1] == b[..n][1..];
      }
    }
  }

  /** Ascending by date, then by source, then by event type. */
  ghost predicate Ascends(g: Group, h: Group) {
    g.date < h.date
    || (g.date == h.date && Before(g.source, h.source))
    || (g.date == h.date && g.source == h.source && Before(g.eventType, h.eventType))
  }

  lemma LessMeans(g: Group, h: Group)
    ensures Less(g, h) <==> Ascends(g, h)
  {
    StringLessMeans(g.source, h.source);
    StringLessMeans(g.eventType, h.eventType);
    StringOrder(g.source, g.source);
  }

  ghost predicate StrictlySorted(stats: seq<Stat>) {
    forall i, j :: 0 <= i < j < |stats| ==> Less(stats[i].group, stats[j].group)
  }

  // ----- sums over groups -----------------------------------------------------------------------

  /** The counts of the rows whose group satisfies `p`. */
  function SumWhere(rows: seq<Stat>, p: Group -> bool): nat {
    if |rows| == 0 then 0
    else (if p(rows[0].group) then rows[0].count else 0) + SumWhere(rows[1..], p)
  }

  function Is(g: Group): Group -> bool {
    (h: Group) => h == g
  }

  function Within(first: nat, last: nat): Group -> bool {
    (h: Group) => first <= h.date <= last
  }

  lemma {:induction false} SumAppend(a: seq<Stat>, b: seq<Stat>, p: Group -> bool)
    ensures SumWhere(a + b, p) == SumWhere(a, p) + SumWhere(b, p)
  {
    if |a| == 0 {
      assert a + b == b;
    } else {
      assert (a + b)[1..] == a[1..] + b;
      SumAppend(a[1..], b, p);
    }
  }

  lemma {:induction false} SumUpdate(rows: seq<Stat>, i: nat, s: Stat, p: Group -> bool)
    requires i < |rows|
    ensures SumWhere(rows[i := s], p) + (if p(rows[i].group) then rows[i].count else 0) ==
            SumWhere(rows, p) + (if p(s.group) then s.count else 0)
  {
    if i == 0 {
      assert rows[0 := s][1..] == rows[1..];
    } else {
      assert rows[i := s][1..] == rows[1..][i - 1 := s];
      SumUpdate(rows[1..], i - 1, s, p);
    }
  }

  lemma {:induction false} SumRemove(rows: seq<Stat>, j: nat, p: Group -> bool)
    requires j < |rows|
    ensures SumWhere(rows[..j] + rows[j + 1..], p) + (if p(rows[j].group) then rows[j].count else 0) == SumWhere(rows, p)
  {
    SumAppend(rows[..j], rows[j + 1..], p);
    SumAppend(rows[..j], rows[j..], p);
    assert rows[..j] + rows[j..] == rows;
    assert rows[j..][1..] == rows[j + 1..];
  }

  // ----- GROUP BY, sum, ORDER BY ----------------------------------------------------------------

  /** `stats` with the row `s` counted in. */
  function Add(stats: seq<Stat>, s: Stat): seq<Stat> {
    if |stats| == 0 then [s]
    else if s.group == stats[0].group then [Stat(s.group, stats[0].count + s.count)] + stats[1..]
    else if Less(s.group, stats[0].group) then [s] + stats
    else [stats[0]] + Add(stats[1..], s)
  }

  /** `SELECT group, sum(count) ... GROUP BY group ORDER BY group`. */
  function Regroup(rows: seq<Stat>): seq<Stat> {
    if |rows| == 0 then [] else Add(Regroup(rows[..|rows| - 1]), rows[|rows| - 1])
  }

  ghost predicate Has(rows: seq<Stat>, g: Group) {
    exists i :: 0 <= i < |rows| && rows[i].group == g
  }

  lemma {:induction false} AddSums(stats: seq<Stat>, s: Stat, p: Group -> bool)
    ensures SumWhere(Add(stats, s), p) == SumWhere(stats, p) + (if p(s.group) then s.count else 0)
  {
    if |stats| > 0 {
      if s.group == stats[0].group {
        assert Add(stats, s)[1..] == stats[1..];
      } else if Less(s.group, stats[0].group) {
        assert Add(stats, s)[1..] == stats;
      } else {
        AddSums(stats[1..], s, p);
        assert Add(stats, s)[1..] == Add(stats[1..], s);
      }
    }
  }

  lemma {:induction false} AddGroups(stats: seq<Stat>, s: Stat, g: Group)
    ensures Has(Add(stats, s), g) <==> Has(stats, g) || s.group == g
  {
    var r := Add(stats, s);
    if |stats| == 0 {
      assert r[0].group == s.group;
    } else if s.group == stats[0].group {
      assert forall i :: 0 <= i < |stats| ==> r[i].group == stats[i].group;
      assert |r| == |stats|;
    } else if Less(s.group, stats[0].group) {
      assert r[0] == s && forall i :: 0 <= i < |stats| ==> r[i + 1] == stats[i];
    } else {
      AddGroups(stats[1..], s, g);
      HasCons(stats, g);
      HasCons(r, g);
      assert r[1..] == Add(stats[1..], s);
    }
  }

  lemma HasCons(rows: seq<Stat>, g: Group)
    requires |rows| > 0
    ensures Has(rows, g) <==> rows[0].group == g || Has(rows[1..], g)
  {
    if Has(rows, g) {
      var i :| 0 <= i < |rows| && rows[i].group == g;
      if i > 0 { assert rows[1..][i - 1].group == g; }
    }
    if Has(rows[1..], g) {
      var i :| 0 <= i < |rows[1..]| && rows[1..][i].group == g;
      assert rows[i + 1].group == g;
    }
  }

  lemma {:induction false} AddSorted(stats: seq<Stat>, s: Stat)
    requires StrictlySorted(stats)
    ensures StrictlySorted(Add(stats, s))
  {
    if |stats| > 0 {
      var head := stats[0].group;
      GroupOrder(s.group, head, head);
      if s.group != head && Less(s.group, head) {
        forall i | 0 <= i < |stats| ensures Less(s.group, stats[i].group) {
          GroupOrder(s.group, head, stats[i].group);
        }
      } else if s.group != head {
        AddSorted(stats[1..], s);
        var rest := Add(stats[1..], s);
        forall i | 0 <= i < |rest| ensures Less(head, rest[i].group) {
          AddGroups(stats[1..], s, rest[i].group);
          assert Has(rest, rest[i].group);
        }
      }
    }
  }

  lemma {:induction false} RegroupMeans(rows: seq<Stat>)
    ensures StrictlySorted(Regroup(rows))
    ensures forall p :: SumWhere(Regroup(rows), p) == SumWhere(rows, p)
    ensures forall g :: Has(Regroup(rows), g) <==> Has(rows, g)
  {
    if |rows| > 0 {
      var n := |rows| - 1;
      var before := Regroup(rows[..n]);
      RegroupMeans(rows[..n]);
      AddSorted(before, rows[n]);
      assert rows == rows[..n] + [rows[n]];
      forall p ensures SumWhere(Regroup(rows), p) == SumWhere(rows, p) {
        AddSums(before, rows[n], p);
        SumAppend(rows[..n], [rows[n]], p);
      }
      forall g ensures Has(Regroup(rows), g) <==> Has(rows, g) {
        AddGroups(before, rows[n], g);
        HasSnoc(rows[..n], rows[n], g);
      }
    }
  }

  lemma HasSnoc(rows: seq<Stat>, s: Stat, g: Group)
    ensures Has(rows + [s], g) <==> Has(rows, g) || s.group == g
  {
    if Has(rows, g) {
      var i :| 0 <= i < |rows| && rows[i].group == g;
      assert (rows + [s])[i].group == g;
    }
    if s.group == g {
      assert (rows + [s])[|rows|].group == g;
    }
  }

  /** In a strictly sorted answer each group has one row, and that row's count is the group's sum. */
  lemma {:induction false} SortedRowIsSum(stats: seq<Stat>, k: nat)
    requires StrictlySorted(stats) && k < |stats|
    ensures SumWhere(stats, Is(stats[k].group)) == stats[k].count
  {
    if k == 0 {
      NoneOf(stats[1..], stats[0].group);
    } else {
      GroupOrder(stats[0].group, stats[k].group, stats[k].group);
      SortedRowIsSum(stats[1..], k - 1);
    }
  }

  lemma {:induction false} NoneOf(rows: seq<Stat>, g: Group)
    requires forall i :: 0 <= i < |rows| ==> Less(g, rows[i].group)
    ensures SumWhere(rows, Is(g)) == 0 && !Has(rows, g)
  {
    GroupOrder(g, g, g);
    if |rows| > 0 {
      NoneOf(rows[1..], g);
      HasCons(rows, g);
    }
  }

  /** A strictly sorted answer is determined by its groups and their sums. */
  lemma {:induction false} SortedUnique(a: seq<Stat>, b: seq<Stat>)
    requires StrictlySorted(a) && StrictlySorted(b)
    requires forall g :: Has(a, g) <==> Has(b, g)
    requires forall g :: SumWhere(a, Is(g)) == SumWhere(b, Is(g))
    ensures a == b
  {
    if |a| == 0 {
      if |b| > 0 { assert Has(b, b[0].group); }
    } else {
      assert Has(a, a[0].group);
      assert |b| > 0;
      assert Has(b, b[0].group);
      SameHead(a, b);
      SortedRowIsSum(a, 0);
      SortedRowIsSum(b, 0);
      NoneOf(a[1..], a[0].group);
      NoneOf(b[1..], b[0].group);
      forall g ensures Has(a[1..], g) <==> Has(b[1..], g) {
        HasCons(a, g);
        HasCons(b, g);
      }
      forall g ensures SumWhere(a[1..], Is(g)) == SumWhere(b[1..], Is(g)) {
        assert SumWhere(a, Is(g)) == SumWhere(b, Is(g));
      }
      SortedUnique(a[1..], b[1..]);
      assert a == [a[0]] + a[1..] && b == [b[0]] + b[1..];
    }
  }

  lemma SameHead(a: seq<Stat>, b: seq<Stat>)
    requires |a| > 0 && |b| > 0 && StrictlySorted(a) && StrictlySorted(b)
    requires Has(a, b[0].group) && Has(b, a[0].group)
    ensures a[0].group == b[0].group
  {
    GroupOrder(a[0].group, b[0].group, a[0].group);
  }

  // ----- the table: inserts through the view, and background merges -------------------------------

  /** What happens to the tables: a block of log rows is inserted, or the background rewrites the
      summing table, adding up two rows of one group or reordering rows. */
  datatype TableOp = Insert(block: seq<LogRow>) | Merge(i: nat, j: nat) | Swap(i: nat, j: nat)

  /** One row of count 1 for each log row. */
  function Ones(block: seq<LogRow>): seq<Stat> {
    if |block| == 0 then []
    else Ones(block[..|block| - 1]) + [Stat(GroupOf(block[|block| - 1]), 1)]
  }

  /** The materialized view over one inserted block: `count()` by group. */
  function ViewRows(block: seq<LogRow>): seq<Stat> {
    Regroup(Ones(block))
  }

  predicate Applies(table: seq<Stat>, op: TableOp) {
    match op
    case Insert(_) => true
    case Merge(i, j) => i < j < |table| && table[i].group == table[j].group
    case Swap(i, j) => i < |table| && j < |table|
  }

  function Rewritten(table: seq<Stat>, op: TableOp): seq<Stat>
    requires Applies(table, op)
  {
    match op
    case Insert(block) => table + ViewRows(block)
    case Merge(i, j) =>
      var summed := table[i := Stat(table[i].group, table[i].count + table[j].count)];
      summed[..j] + summed[j + 1..]
    case Swap(i, j) => table[i := table[j]][j := table[i]]
  }

  ghost predicate History(ops: seq<TableOp>)
    decreases |ops|, 0
  {
    |ops| == 0 || (History(ops[..|ops| - 1]) && Applies(Table(ops[..|ops| - 1]), ops[|ops| - 1]))
  }

  /** `daily_event_stats` after `ops`. */
  ghost function Table(ops: seq<TableOp>): seq<Stat>
    requires History(ops)
    decreases |ops|, 1
  {
    if |ops| == 0 then [] else Rewritten(Table(ops[..|ops| - 1]), ops[|ops| - 1])
  }

  /** The log rows inserted by `ops`. */
  function Log(ops: seq<TableOp>): seq<LogRow> {
    if |ops| == 0 then []
    else Log(ops[..|ops| - 1]) + (if ops[|ops| - 1].Insert? then ops[|ops| - 1].block else [])
  }

  function Logged(p: Group -> bool): LogRow -> bool {
    (entry: LogRow) => p(GroupOf(entry))
  }

  lemma {:induction false} OnesSum(block: seq<LogRow>, p: Group -> bool)
    ensures SumWhere(Ones(block), p) == Count(block, Logged(p))
  {
    if |block| > 0 {
      var n := |block| - 1;
      OnesSum(block[..n], p);
      SumAppend(Ones(block[..n]), [Stat(GroupOf(block[n]), 1)], p);
    }
  }

  lemma {:induction false} CountAppend<T>(a: seq<T>, b: seq<T>, p: T -> bool)
    ensures Count(a + b, p) == Count(a, p) + Count(b, p)
    decreases |b|
  {
    if |b| == 0 {
      assert a + b == a;
    } else {
      assert (a + b)[..|a + b| - 1] == a + b[..|b| - 1];
      CountAppend(a, b[..|b| - 1], p);
    }
  }

  lemma RewriteSums(table: seq<Stat>, op: TableOp, p: Group -> bool)
    requires Applies(table, op)
    ensures SumWhere(Rewritten(table, op), p) ==
            SumWhere(table, p) + (if op.Insert? then Count(op.block, Logged(p)) else 0)
  {
    match op
    case Insert(block) =>
      SumAppend(table, ViewRows(block), p);
      RegroupMeans(Ones(block));
      OnesSum(block, p);
    case Merge(i, j) =>
      var summed := Stat(table[i].group, table[i].count + table[j].count);
      SumUpdate(table, i, summed, p);
      SumRemove(table[i := summed], j, p);
    case Swap(i, j) =>
      SumUpdate(table, i, table[j], p);
      SumUpdate(table[i := table[j]], j, table[i], p);
  }

  /** Whatever merges happened, the parts of the table sum to the log rows inserted, over any set of
      groups. */
  lemma {:induction false} TableSums(ops: seq<TableOp>, p: Group -> bool)
    requires History(ops)
    ensures SumWhere(Table(ops), p) == Count(Log(ops), Logged(p))
  {
    if |ops| > 0 {
      var n := |ops| - 1;
      TableSums(ops[..n], p);
      RewriteSums(Table(ops[..n]), ops[n], p);
      if ops[n].Insert? {
        CountAppend(Log(ops[..n]), ops[n].block, Logged(p));
      } else {
        assert Log(ops[..n]) + [] == Log(ops[..n]);
      }
    }
  }

  ghost predicate Positive(rows: seq<Stat>) {
    forall i :: 0 <= i < |rows| ==> rows[i].count > 0
  }

  lemma {:induction false} AddPositive(stats: seq<Stat>, s: Stat)
    requires Positive(stats) && s.count > 0
    ensures Positive(Add(stats, s))
  {
    if |stats| > 0 && s.group != stats[0].group && !Less(s.group, stats[0].group) {
      AddPositive(stats[1..], s);
    }
  }

  lemma {:induction false} RegroupPositive(rows: seq<Stat>)
    requires Positive(rows)
    ensures Positive(Regroup(rows))
  {
    if |rows| > 0 {
      RegroupPositive(rows[..|rows| - 1]);
      AddPositive(Regroup(rows[..|rows| - 1]), rows[|rows| - 1]);
    }
  }

  lemma {:induction false} OnesPositive(block: seq<LogRow>)
    ensures Positive(Ones(block))
  {
    if |block| > 0 {
      OnesPositive(block[..|block| - 1]);
    }
  }

  /** No row of the table ever counts zero, so a merge never drops a row. */
  lemma {:induction false} TablePositive(ops: seq<TableOp>)
    requires History(ops)
    ensures Positive(Table(ops))
  {
    if |ops| > 0 {
      var n := |ops| - 1;
      TablePositive(ops[..n]);
      if ops[n].Insert? {
        OnesPositive(ops[n].block);
        RegroupPositive(Ones(ops[n].block));
      }
    }
  }

  // ----- the query --------------------------------------------------------------------------------

  /** `WHERE date >= first AND date <= last`. */
  function Filter(rows: seq<Stat>, first: nat, last: nat): seq<Stat> {
    if |rows| == 0 then []
    else (if Within(first, last)(rows[0].group) then [rows[0]] else []) + Filter(rows[1..], first, last)
  }

  /** The answer of `DailyEvents`. */
  function Query(table: seq<Stat>, first: nat, last: nat): seq<Stat> {
    Regroup(Filter(table, first, last))
  }

  lemma {:induction false} FilterSum(rows: seq<Stat>, first: nat, last: nat, g: Group)
    ensures SumWhere(Filter(rows, first, last), Is(g)) == if Within(first, last)(g) then SumWhere(rows, Is(g)) else 0
    ensures Has(Filter(rows, first, last), g) <==> Within(first, last)(g) && Has(rows, g)
  {
    if |rows| > 0 {
      var head := if Within(first, last)(rows[0].group) then [rows[0]] else [];
      FilterSum(rows[1..], first, last, g);
      SumAppend(head, Filter(rows[1..], first, last), Is(g));
      HasCons(rows, g);
      if |head| > 0 {
        HasCons(Filter(rows, first, last), g);
        assert Filter(rows, first, last)[1..] == Filter(rows[1..], first, last);
      } else {
        assert Filter(rows, first, last) == Filter(rows[1..], first, last);
      }
    }
  }

  lemma {:induction false} FilterTotal(rows: seq<Stat>, first: nat, last: nat)
    ensures SumWhere(Filter(rows, first, last), Within(first, last)) == SumWhere(rows, Within(first, last))
  {
    if |rows| > 0 {
      var head := if Within(first, last)(rows[0].group) then [rows[0]] else [];
      FilterTotal(rows[1..], first, last);
      SumAppend(head, Filter(rows[1..], first, last), Within(first, last));
    }
  }

  lemma {:induction false} HasIffSummed(rows: seq<Stat>, g: Group)
    requires Positive(rows)
    ensures Has(rows, g) <==> SumWhere(rows, Is(g)) > 0
  {
    if |rows| > 0 {
      HasIffSummed(rows[1..], g);
      HasCons(rows, g);
    }
  }

  /** However inserts and merges interleaved, the query answers strictly sorted by date, source and
      event type, with one row for exactly the groups of the range that were logged, and each row
      counts the log rows inserted for its group. */
  lemma QueryCountsTheLog(ops: seq<TableOp>, first: nat, last: nat)
    requires History(ops)
    ensures var answer := Query(Table(ops), first, last);
            && StrictlySorted(answer)
            && (forall g :: Has(answer, g) <==> first <= g.date <= last && Count(Log(ops), Logged(Is(g))) > 0)
            && (forall k :: 0 <= k < |answer| ==> answer[k].count == Count(Log(ops), Logged(Is(answer[k].group))))
  {
    var table := Table(ops);
    var answer := Query(table, first, last);
    RegroupMeans(Filter(table, first, last));
    TablePositive(ops);
    forall g ensures Has(answer, g) <==> first <= g.date <= last && Count(Log(ops), Logged(Is(g))) > 0 {
      FilterSum(table, first, last, g);
      HasIffSummed(table, g);
      TableSums(ops, Is(g));
    }
    forall k | 0 <= k < |answer| ensures answer[k].count == Count(Log(ops), Logged(Is(answer[k].group))) {
      SortedRowIsSum(answer, k);
      assert Has(answer, answer[k].group);
      FilterSum(table, first, last, answer[k].group);
      TableSums(ops, Is(answer[k].group));
    }
  }

  /** The log row has these values in its own columns. */
  function HasColumns(date: nat, source: string, eventType: string): LogRow -> bool {
    (entry: LogRow) => entry.date == date && entry.source == source && entry.eventType == eventType
  }

  lemma {:induction false} SameCount<T>(xs: seq<T>, p: T -> bool, q: T -> bool)
    requires forall k :: 0 <= k < |xs| ==> (p(xs[k]) <==> q(xs[k]))
    ensures Count(xs, p) == Count(xs, q)
  {
    if |xs| > 0 {
      SameCount(xs[..|xs| - 1], p, q);
    }
  }

  lemma GroupIsColumns(log: seq<LogRow>, g: Group)
    ensures Count(log, Logged(Is(g))) == Count(log, HasColumns(g.date, g.source, g.eventType))
  {
    forall k | 0 <= k < |log|
      ensures Logged(Is(g))(log[k]) <==> HasColumns(g.date, g.source, g.eventType)(log[k])
    {
      assert GroupOf(log[k]) == g <==>
             log[k].date == g.date && log[k].source == g.source && log[k].eventType == g.eventType;
    }
    SameCount(log, Logged(Is(g)), HasColumns(g.date, g.source, g.eventType));
  }

  /** The answer has a row with these three values, counting `count`. */
  ghost predicate Answers(answer: seq<Stat>, date: nat, source: string, eventType: string, count: nat) {
    exists k :: 0 <= k < |answer| && answer[k].group.date == date && answer[k].group.source == source
                && answer[k].group.eventType == eventType && answer[k].count == count
  }

  /** Column by column: however inserts and merges interleaved, the answer is ascending, and has a row with a
      date, source and event type exactly when the date is in the range and some inserted log row has those
      three values in its own columns; the row then counts those log rows. */
  lemma {:induction false} QueryCountsColumns(ops: seq<TableOp>, first: nat, last: nat, date: nat, source: string, eventType: string,
                           count: nat)
    requires History(ops)
    ensures var answer := Query(Table(ops), first, last);
            && (forall i, j :: 0 <= i < j < |answer| ==> Ascends(answer[i].group, answer[j].group))
            && (Answers(answer, date, source, eventType, count) <==>
                first <= date <= last && count > 0 && count == Count(Log(ops), HasColumns(date, source, eventType)))
  {
    var answer := Query(Table(ops), first, last);
    var g := Group(date, source, eventType);
    QueryCountsTheLog(ops, first, last);
    GroupIsColumns(Log(ops), g);
    forall i, j | 0 <= i < j < |answer| ensures Ascends(answer[i].group, answer[j].group) {
      LessMeans(answer[i].group, answer[j].group);
    }
    if first <= date <= last && count > 0 && count == Count(Log(ops), HasColumns(date, source, eventType)) {
      assert Has(answer, g);
      var k :| 0 <= k < |answer| && answer[k].group == g;
      assert answer[k].count == count;
    }
    if Answers(answer, date, source, eventType, count) {
      var k :| 0 <= k < |answer| && answer[k].group.date == date && answer[k].group.source == source
               && answer[k].group.eventType == eventType && answer[k].count == count;
      assert answer[k].group == g && Has(answer, g);
    }
  }

  /** The log is the inserted blocks in order; merges and reorderings add nothing to it. */
  lemma {:induction false} LogIsTheBlocks(ops: seq<TableOp>, op: TableOp)
    ensures Log([]) == [] && Log(ops + [op]) == if op.Insert? then Log(ops) + op.block else Log(ops)
  {
    assert (ops + [op])[..|ops|] == ops;
  }

  /** Any inserted block can be followed by any other, and any two rows of one group by their merge. */
  lemma {:induction false} HistoryGoesOn(ops: seq<TableOp>, op: TableOp)
    requires History(ops)
    ensures op.Insert? ==> History(ops + [op])
    ensures op.Merge? ==> (History(ops + [op]) <==>
                           op.i < op.j < |Table(ops)| && Table(ops)[op.i].group == Table(ops)[op.j].group)
    ensures op.Swap? ==> (History(ops + [op]) <==> op.i < |Table(ops)| && op.j < |Table(ops)|)
  {
    assert (ops + [op])[..|ops|] == ops;
  }

  /** Merges and the split into blocks are invisible: two histories that logged the same rows answer
      every query alike. */
  lemma QueryIgnoresMerges(ops: seq<TableOp>, others: seq<TableOp>, first: nat, last: nat)
    requires History(ops) && History(others) && Log(ops) == Log(others)
    ensures Query(Table(ops), first, last) == Query(Table(others), first, last)
  {
    var a, b := Query(Table(ops), first, last), Query(Table(others), first, last);
    QueryCountsTheLog(ops, first, last);
    QueryCountsTheLog(others, first, last);
    RegroupMeans(Filter(Table(ops), first, last));
    RegroupMeans(Filter(Table(others), first, last));
    forall g ensures SumWhere(a, Is(g)) == SumWhere(b, Is(g)) {
      FilterSum(Table(ops), first, last, g);
      FilterSum(Table(others), first, last, g);
      TableSums(ops, Is(g));
      TableSums(others, Is(g));
    }
    SortedUnique(a, b);
  }

  /** The counts of an answer sum to the log rows dated in its range. */
  lemma QueryTotal(ops: seq<TableOp>, first: nat, last: nat)
    requires History(ops)
    ensures SumWhere(Query(Table(ops), first, last), Within(first, last)) == Count(Log(ops), Logged(Within(first, last)))
  {
    RegroupMeans(Filter(Table(ops), first, last));
    FilterTotal(Table(ops), first, last);
    TableSums(ops, Within(first, last));
  }

  class EventQuerier {
    var table: seq<Stat>

    constructor (table: seq<Stat>)
      ensures this.table == table
    {
      this.table := table;
    }

    /** Scans the rows of the answer one by one; `failAt` is the row whose scan fails, if any. */
    method DailyEvents(first: nat, last: nat, up: bool, failAt: Option<nat>) returns (r: Result<seq<Stat>, ()>)
      ensures r == if !up || (failAt.Some? && failAt.value < |Query(table, first, last)|) then Err(())
                   else Ok(Query(table, first, last))
    {
      if !up {
        return Err(());
      }
      var rows := Query(table, first, last);
      var stats: seq<Stat> := [];
      var k := 0;
      while k < |rows|
        invariant 0 <= k <= |rows| && stats == rows[..k]
        invariant failAt.Some? ==> k <= failAt.value
      {
        if failAt == Some(k) {
          return Err(());
        }
        stats := stats + [rows[k]];
        k := k + 1;
      }
      assert rows[..k] == rows;
      return Ok(stats);
    }
  }
}
