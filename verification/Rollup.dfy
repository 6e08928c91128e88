/** Metric roll-ups: raw rows are summed into hourly, daily and monthly tables. A table is a sequence of
    rows; the aggregated ones hold at most one row per (account, node, bucket). */
module Rollup {
  import opened Common

  datatype Counters = Counters(
    requests: int, success: int, failed: int, retryAttempts: int, retrySuccess: int,
    responseTimeSum: int, responseTimeCount: int, bytes: int, inputTokens: int, outputTokens: int,
    firstByteTimeSum: int, streamDurationSum: int)

  const ZERO: Counters := Counters(0, 0, 0, 0, 0, 0, 0, 0, 0, 0, 0, 0)

  function Plus(a: Counters, b: Counters): Counters {
    Counters(
      a.requests + b.requests, a.success + b.success, a.failed + b.failed,
      a.retryAttempts + b.retryAttempts, a.retrySuccess + b.retrySuccess,
      a.responseTimeSum + b.responseTimeSum, a.responseTimeCount + b.responseTimeCount,
      a.bytes + b.bytes, a.inputTokens + b.inputTokens, a.outputTokens + b.outputTokens,
      a.firstByteTimeSum + b.firstByteTimeSum, a.streamDurationSum + b.streamDurationSum)
  }

  datatype Key = Key(account: string, node: string, at: int)

  datatype Row = Row(key: Key, c: Counters)

  // ---------- buckets ----------

  const SECOND: int := 1_000_000_000
  const HOUR: int := 3_600_000_000_000
  const DAY: int := 86_400_000_000_000

  /** The start of the hour of `t`. */
  function HourOf(t: int): int {
    t - t % 3_600_000_000_000
  }

  /** The start of the day of `t`. */
  function DayOf(t: int): int {
    t - t % 86_400_000_000_000
  }

  /** A way to cut time into buckets, named by where each starts. */
  ghost predicate IsUnit(u: int -> int) {
    && (forall t :: u(t) <= t && u(u(t)) == u(t))
    && forall s, t :: s <= t ==> u(s) <= u(t)
  }

  /** Every bucket of `v` is made of whole buckets of `u`. */
  ghost predicate Coarser(u: int -> int, v: int -> int) {
    forall t :: v(u(t)) == v(t)
  }

  lemma HourParts(t: int)
    ensures HourOf(t) <= t < HourOf(t) + HOUR && HourOf(t) % 3_600_000_000_000 == 0
  {
  }

  lemma DayParts(t: int)
    ensures DayOf(t) <= t < DayOf(t) + DAY && DayOf(t) % 86_400_000_000_000 == 0
  {
  }

  /** A multiple of the bucket size within one bucket of `t` is the start of its bucket. */
  lemma HourStart(t: int, q: int)
    requires 3_600_000_000_000 * q <= t < 3_600_000_000_000 * q + HOUR
    ensures HourOf(t) == 3_600_000_000_000 * q
  {
  }

  lemma DayStart(t: int, q: int)
    requires 86_400_000_000_000 * q <= t < 86_400_000_000_000 * q + DAY
    ensures DayOf(t) == 86_400_000_000_000 * q
  {
  }

  lemma HourAgain(t: int)
    ensures HourOf(HourOf(t)) == HourOf(t)
  {
    HourParts(t);
    hide HourOf;
    HourStart(HourOf(t), HourOf(t) / 3_600_000_000_000);
  }

  lemma DayAgain(t: int)
    ensures DayOf(DayOf(t)) == DayOf(t)
  {
    DayParts(t);
    hide DayOf;
    DayStart(DayOf(t), DayOf(t) / 86_400_000_000_000);
  }

  lemma DayOfHour(t: int)
    ensures DayOf(HourOf(t)) == DayOf(t)
  {
    HourParts(t);
    DayParts(t);
    hide HourOf, DayOf;
    var h, d := HourOf(t) / 3_600_000_000_000, DayOf(t) / 86_400_000_000_000;
    assert HourOf(t) == 3_600_000_000_000 * h && DayOf(t) == 86_400_000_000_000 * d;
    assert 24 * d <= h;
    DayStart(HourOf(t), d);
  }

  lemma HoursAndDays()
    ensures IsUnit(HourOf) && IsUnit(DayOf) && Coarser(HourOf, DayOf)
  {
    hide HourOf, DayOf;
    forall t
      ensures HourOf(t) <= t && HourOf(HourOf(t)) == HourOf(t) && DayOf(t) <= t && DayOf(DayOf(t)) == DayOf(t)
      ensures DayOf(HourOf(t)) == DayOf(t)
    {
      HourParts(t);
      HourAgain(t);
      DayParts(t);
      DayAgain(t);
      DayOfHour(t);
    }
    forall s, t | s <= t
      ensures HourOf(s) <= HourOf(t) && DayOf(s) <= DayOf(t)
    {
      InOrder(s, t);
    }
  }

  lemma InOrder(s: int, t: int)
    requires s <= t
    ensures HourOf(s) <= HourOf(t) && DayOf(s) <= DayOf(t)
  {
    HourParts(s);
    HourParts(t);
    DayParts(s);
    DayParts(t);
    hide HourOf, DayOf;
    HourMultiples(HourOf(s) / 3_600_000_000_000, HourOf(t) / 3_600_000_000_000);
    DayMultiples(DayOf(s) / 86_400_000_000_000, DayOf(t) / 86_400_000_000_000);
  }

  lemma HourMultiples(a: int, b: int)
    requires 3_600_000_000_000 * b > 3_600_000_000_000 * a - 3_600_000_000_000
    ensures a <= b
  {
  }

  lemma DayMultiples(a: int, b: int)
    requires 86_400_000_000_000 * b > 86_400_000_000_000 * a - 86_400_000_000_000
    ensures a <= b
  {
  }

  function Bucket(u: int -> int, k: Key): Key {
    k.(at := u(k.at))
  }

  // ---------- sums ----------

  /** The sum of the rows whose key satisfies `q`. */
  function Total(rows: seq<Row>, q: Key -> bool): Counters {
    if rows == [] then ZERO
    else
      var last := rows[|rows| - 1];
      Plus(Total(rows[..|rows| - 1], q), if q(last.key) then last.c else ZERO)
  }

  function Keys(rows: seq<Row>): set<Key> {
    set i | 0 <= i < |rows| :: rows[i].key
  }

  ghost predicate Unique(rows: seq<Row>) {
    forall i, j :: 0 <= i < j < |rows| ==> rows[i].key != rows[j].key
  }

  function Is(key: Key): Key -> bool {
    k => k == key
  }

  function Via(u: int -> int, q: Key -> bool): Key -> bool {
    k => q(Bucket(u, k))
  }

  lemma {:induction false} SameTotal(rows: seq<Row>, p: Key -> bool, q: Key -> bool)
    requires forall row :: row in rows ==> p(row.key) == q(row.key)
    ensures Total(rows, p) == Total(rows, q)
  {
    if rows != [] {
      assert rows[|rows| - 1] in rows;
      SameTotal(rows[..|rows| - 1], p, q);
    }
  }

  lemma PlusLaws(a: Counters, b: Counters, c: Counters)
    ensures Plus(a, ZERO) == a == Plus(ZERO, a) && Plus(a, b) == Plus(b, a)
    ensures Plus(Plus(a, b), c) == Plus(a, Plus(b, c)) == Plus(Plus(a, c), b)
  {
  }

  lemma {:induction false} SplitTotal(rows: seq<Row>, p: Key -> bool, q: Key -> bool, either: Key -> bool)
    requires forall k :: !(p(k) && q(k)) && either(k) == (p(k) || q(k))
    ensures Total(rows, either) == Plus(Total(rows, p), Total(rows, q))
  {
    hide Plus;
    if rows == [] {
      PlusLaws(ZERO, ZERO, ZERO);
    } else {
      var before, last := rows[..|rows| - 1], rows[|rows| - 1];
      SplitTotal(before, p, q, either);
      PlusLaws(Total(before, p), Total(before, q), last.c);
      PlusLaws(Total(before, q), last.c, ZERO);
      PlusLaws(Total(before, p), last.c, ZERO);
      PlusLaws(Total(before, either), ZERO, ZERO);
      assert either(last.key) == (p(last.key) || q(last.key)) && !(p(last.key) && q(last.key));
    }
  }

  lemma {:induction false} EmptyTotal(rows: seq<Row>, q: Key -> bool)
    requires forall row :: row in rows ==> !q(row.key)
    ensures Total(rows, q) == ZERO
  {
    if rows != [] {
      assert rows[|rows| - 1] in rows;
      EmptyTotal(rows[..|rows| - 1], q);
    }
  }

  // ---------- grouping ----------

  /** `c` added to the row of key `k`, or entered as a new row. */
  function Add(groups: seq<Row>, k: Key, c: Counters): seq<Row> {
    if groups == [] then [Row(k, c)]
    else
      var before, last := groups[..|groups| - 1], groups[|groups| - 1];
      if last.key == k then before + [Row(k, Plus(last.c, c))] else Add(before, k, c) + [last]
  }

  /** The rows summed bucket by bucket. */
  function GroupBy(rows: seq<Row>, u: int -> int): seq<Row> {
    if rows == [] then []
    else
      var last := rows[|rows| - 1];
      Add(GroupBy(rows[..|rows| - 1], u), Bucket(u, last.key), last.c)
  }

  /** The rows of one account, or of all, within [from, to). */
  function Select(rows: seq<Row>, account: string, from: int, to: int): seq<Row> {
    if rows == [] then []
    else
      var last := rows[|rows| - 1];
      Select(rows[..|rows| - 1], account, from, to) + if Selects(account, from, to)(last.key) then [last] else []
  }

  function Selects(account: string, from: int, to: int): Key -> bool {
    (k: Key) => from <= k.at < to && (account == "" || k.account == account)
  }

  /** `row` replaces the row of its key, or is entered as a new row. */
  function Put(table: seq<Row>, row: Row): seq<Row> {
    if table == [] then [row]
    else
      var before, last := table[..|table| - 1], table[|table| - 1];
      if last.key == row.key then before + [row] else Put(before, row) + [last]
  }

  function Upsert(table: seq<Row>, groups: seq<Row>): seq<Row> {
    if groups == [] then table else Put(Upsert(table, groups[..|groups| - 1]), groups[|groups| - 1])
  }

  lemma AppendKeys(rows: seq<Row>, row: Row)
    ensures Keys(rows + [row]) == Keys(rows) + {row.key}
  {
    var all := rows + [row];
    assert forall i :: 0 <= i < |rows| ==> all[i] == rows[i];
    assert all[|rows|] == row;
  }

  lemma LastKey(rows: seq<Row>)
    requires rows != []
    ensures Keys(rows) == Keys(rows[..|rows| - 1]) + {rows[|rows| - 1].key}
    ensures Unique(rows) <==> Unique(rows[..|rows| - 1]) && rows[|rows| - 1].key !in Keys(rows[..|rows| - 1])
  {
    var before, last := rows[..|rows| - 1], rows[|rows| - 1];
    assert rows == before + [last];
    AppendKeys(before, last);
  }

  /** In a table with unique keys a row is the sum of its key. */
  lemma {:induction false} RowIsTotal(rows: seq<Row>, row: Row)
    requires Unique(rows) && row in rows
    ensures Total(rows, Is(row.key)) == row.c
  {
    hide Plus, Unique;
    var before, last := rows[..|rows| - 1], rows[|rows| - 1];
    LastKey(rows);
    assert forall r :: r in before ==> r.key in Keys(before);
    if last == row {
      EmptyTotal(before, Is(row.key));
      PlusLaws(row.c, ZERO, ZERO);
    } else {
      RowIsTotal(before, row);
      PlusLaws(row.c, ZERO, ZERO);
    }
  }

  lemma {:induction false} AddKeys(groups: seq<Row>, k: Key, c: Counters)
    ensures Keys(Add(groups, k, c)) == Keys(groups) + {k}
    ensures Unique(groups) ==> Unique(Add(groups, k, c))
  {
    var all := Add(groups, k, c);
    AppendKeys([], Row(k, c));
    assert [] + [Row(k, c)] == [Row(k, c)];
    if groups != [] {
      var before := groups[..|groups| - 1];
      LastKey(groups);
      LastKey(all);
      if groups[|groups| - 1].key == k {
        assert all[..|all| - 1] == before;
      } else {
        assert all[..|all| - 1] == Add(before, k, c);
        AddKeys(before, k, c);
      }
    }
  }

  lemma {:induction false} AddTotal(groups: seq<Row>, k: Key, c: Counters, q: Key -> bool)
    ensures Total(Add(groups, k, c), q) == Plus(Total(groups, q), if q(k) then c else ZERO)
  {
    hide Plus;
    var all := Add(groups, k, c);
    PlusLaws(ZERO, ZERO, ZERO);
    if groups != [] {
      var before, last := groups[..|groups| - 1], groups[|groups| - 1];
      PlusLaws(Total(before, q), if q(last.key) then last.c else ZERO, if q(k) then c else ZERO);
      if last.key == k {
        assert all[..|all| - 1] == before;
      } else {
        assert all[..|all| - 1] == Add(before, k, c);
        AddTotal(before, k, c, q);
      }
    } else {
      assert all[..0] == [];
    }
  }

  /** Grouping loses nothing: any selection of buckets sums to what its rows sum to. */
  lemma {:induction false} GroupTotal(rows: seq<Row>, u: int -> int, q: Key -> bool)
    ensures Total(GroupBy(rows, u), q) == Total(rows, Via(u, q))
  {
    if rows != [] {
      var before, last := rows[..|rows| - 1], rows[|rows| - 1];
      GroupTotal(before, u, q);
      AddTotal(GroupBy(before, u), Bucket(u, last.key), last.c, q);
    }
  }

  lemma {:induction false} GroupKeys(rows: seq<Row>, u: int -> int)
    ensures Unique(GroupBy(rows, u))
    ensures forall k :: k in Keys(GroupBy(rows, u)) <==> exists row :: row in rows && Bucket(u, row.key) == k
  {
    if rows != [] {
      var before, last := rows[..|rows| - 1], rows[|rows| - 1];
      GroupKeys(before, u);
      AddKeys(GroupBy(before, u), Bucket(u, last.key), last.c);
      assert forall row :: row in rows <==> row in before || row == last;
    }
  }

  /** Each group is the sum of the rows of its bucket. */
  lemma GroupRow(rows: seq<Row>, u: int -> int, row: Row)
    requires row in GroupBy(rows, u)
    ensures row.c == Total(rows, Via(u, Is(row.key)))
  {
    GroupKeys(rows, u);
    RowIsTotal(GroupBy(rows, u), row);
    GroupTotal(rows, u, Is(row.key));
  }

  lemma {:induction false} PutRows(table: seq<Row>, row: Row)
    requires Unique(table)
    ensures Unique(Put(table, row)) && Keys(Put(table, row)) == Keys(table) + {row.key}
    ensures forall r :: r in Put(table, row) <==> r == row || (r in table && r.key != row.key)
  {
    AppendKeys([], row);
    assert [] + [row] == [row];
    if table != [] {
      var before, last, all := table[..|table| - 1], table[|table| - 1], Put(table, row);
      LastKey(table);
      LastKey(all);
      assert forall r :: r in table <==> r in before || r == last;
      if last.key == row.key {
        assert all[..|all| - 1] == before;
        assert forall r :: r in before ==> r.key in Keys(before);
      } else {
        assert all[..|all| - 1] == Put(before, row);
        PutRows(before, row);
      }
    }
  }

  /** An upsert replaces exactly the rows of the keys it brings. */
  lemma {:induction false} UpsertRows(table: seq<Row>, groups: seq<Row>)
    requires Unique(table) && Unique(groups)
    ensures Unique(Upsert(table, groups))
    ensures forall r :: r in Upsert(table, groups) <==> r in groups || (r in table && r.key !in Keys(groups))
  {
    if groups != [] {
      var before, last := groups[..|groups| - 1], groups[|groups| - 1];
      LastKey(groups);
      UpsertRows(table, before);
      PutRows(Upsert(table, before), last);
      assert forall r :: r in groups <==> r in before || r == last;
      assert forall r :: r in before ==> r.key in Keys(before);
    }
  }

  // ---------- one aggregation ----------

  /** The target table after aggregating the source rows of [from, to) into buckets of `u`. */
  function Aggregated(dst: seq<Row>, src: seq<Row>, account: string, u: int -> int, from: int, to: int): seq<Row> {
    Upsert(dst, GroupBy(Select(src, account, from, to), u))
  }

  function Both(p: Key -> bool, q: Key -> bool): Key -> bool {
    k => p(k) && q(k)
  }

  lemma {:induction false} SelectRows(rows: seq<Row>, account: string, from: int, to: int)
    ensures forall r :: r in Select(rows, account, from, to) <==> r in rows && Selects(account, from, to)(r.key)
    ensures Unique(rows) ==> Unique(Select(rows, account, from, to))
  {
    if rows != [] {
      var before, last := rows[..|rows| - 1], rows[|rows| - 1];
      SelectRows(before, account, from, to);
      assert forall r :: r in rows <==> r in before || r == last;
      LastKey(rows);
      var kept := Select(before, account, from, to);
      assert (kept + [last])[..|kept|] == kept;
      LastKey(kept + [last]);
    }
  }

  lemma {:induction false} SelectTotal(rows: seq<Row>, account: string, from: int, to: int, q: Key -> bool)
    ensures Total(Select(rows, account, from, to), q) == Total(rows, Both(Selects(account, from, to), q))
  {
    hide Plus;
    if rows != [] {
      var before, last := rows[..|rows| - 1], rows[|rows| - 1];
      SelectTotal(before, account, from, to, q);
      var kept := Select(before, account, from, to);
      PlusLaws(Total(kept, q), ZERO, ZERO);
      if Selects(account, from, to)(last.key) {
        assert (kept + [last])[..|kept|] == kept;
      } else {
        assert Select(rows, account, from, to) == kept;
      }
    }
  }

  /** Some selected source row falls into the bucket. */
  ghost predicate Touched(src: seq<Row>, account: string, u: int -> int, from: int, to: int, bucket: Key) {
    exists r :: r in src && Selects(account, from, to)(r.key) && Bucket(u, r.key) == bucket
  }

  /** What the selected source rows of a bucket sum to. */
  function Sum(src: seq<Row>, account: string, u: int -> int, from: int, to: int, bucket: Key): Counters {
    Total(src, Both(Selects(account, from, to), Via(u, Is(bucket))))
  }

  /** An aggregation leaves in each touched bucket the sum of its selected source rows, and every other
      row of the target as it was. */
  lemma AggregatedRows(dst: seq<Row>, src: seq<Row>, account: string, u: int -> int, from: int, to: int)
    requires Unique(dst)
    ensures Unique(Aggregated(dst, src, account, u, from, to))
    ensures forall r :: r in Aggregated(dst, src, account, u, from, to) <==>
                          if Touched(src, account, u, from, to, r.key) then r.c == Sum(src, account, u, from, to, r.key)
                          else r in dst
  {
    var rows := Select(src, account, from, to);
    var groups := GroupBy(rows, u);
    SelectRows(src, account, from, to);
    GroupKeys(rows, u);
    UpsertRows(dst, groups);
    forall r: Row
      ensures r.key in Keys(groups) <==> Touched(src, account, u, from, to, r.key)
      ensures r in groups <==> Touched(src, account, u, from, to, r.key) && r.c == Sum(src, account, u, from, to, r.key)
    {
      if r.key in Keys(groups) {
        var g :| g in groups && g.key == r.key;
        GroupRow(rows, u, g);
        SelectTotal(src, account, from, to, Via(u, Is(r.key)));
        assert g.c == Sum(src, account, u, from, to, r.key);
      }
    }
  }

  /** Aggregating the same rows again changes nothing. */
  lemma AggregationIsIdempotent(dst: seq<Row>, src: seq<Row>, account: string, u: int -> int, from: int, to: int)
    requires Unique(dst)
    ensures var once := Aggregated(dst, src, account, u, from, to);
            forall r :: r in Aggregated(once, src, account, u, from, to) <==> r in once
  {
    AggregatedRows(dst, src, account, u, from, to);
    AggregatedRows(Aggregated(dst, src, account, u, from, to), src, account, u, from, to);
  }

  // ---------- complete levels ----------

  predicate Within(from: int, to: int, t: int) {
    from <= t < to
  }

  /** In [from, to) the target holds, for exactly the buckets that have source rows, the full sum of the bucket. */
  ghost predicate Summarizes(dst: seq<Row>, src: seq<Row>, u: int -> int, from: int, to: int) {
    && Unique(dst)
    && (forall r :: r in dst && Within(from, to, r.key.at) ==> r.c == Total(src, Via(u, Is(r.key))))
    && (forall r :: r in src && Within(from, to, r.key.at) ==> Bucket(u, r.key) in Keys(dst))
  }

  ghost predicate Aligned(u: int -> int, t: int) {
    u(t) == t
  }

  /** Nothing in the source is left out by the end of the window: the end is aligned, or lies after every row. */
  ghost predicate Covers(src: seq<Row>, u: int -> int, to: int) {
    Aligned(u, to) || forall r :: r in src ==> r.key.at < to
  }

  /** The target has no counters in the window whose bucket has lost its source rows. */
  ghost predicate NoOrphans(dst: seq<Row>, src: seq<Row>, u: int -> int, from: int, to: int) {
    forall r :: r in dst && Within(from, to, r.key.at) && r.c != ZERO ==>
                  exists s :: s in src && Within(from, to, s.key.at) && Bucket(u, s.key) == r.key
  }

  /** A row lies in an aligned window exactly when its bucket starts in it. */
  lemma InWindow(u: int -> int, from: int, to: int, t: int)
    requires IsUnit(u) && Aligned(u, from) && (Aligned(u, to) || t < to)
    ensures Within(from, to, t) <==> Within(from, to, u(t))
  {
  }

  /** With an aligned start, aggregation makes every bucket of the window the full sum of its rows. */
  lemma AggregateSummarizes(dst: seq<Row>, src: seq<Row>, u: int -> int, from: int, to: int)
    requires Unique(dst) && IsUnit(u) && Aligned(u, from) && Covers(src, u, to) && NoOrphans(dst, src, u, from, to)
    ensures Summarizes(Aggregated(dst, src, "", u, from, to), src, u, from, to)
  {
    var after := Aggregated(dst, src, "", u, from, to);
    AggregatedRows(dst, src, "", u, from, to);
    forall r | r in after && Within(from, to, r.key.at)
      ensures r.c == Total(src, Via(u, Is(r.key)))
    {
      SumInWindow(src, u, from, to, r.key);
      if !Touched(src, "", u, from, to, r.key) {
        forall s | s in src
          ensures !Via(u, Is(r.key))(s.key)
        {
          InWindow(u, from, to, s.key.at);
          assert Bucket(u, s.key).at == u(s.key.at);
          assert Selects("", from, to)(s.key) == Within(from, to, s.key.at);
        }
        EmptyTotal(src, Via(u, Is(r.key)));
      }
    }
    forall s | s in src && Within(from, to, s.key.at)
      ensures Bucket(u, s.key) in Keys(after)
    {
      var k := Bucket(u, s.key);
      assert Selects("", from, to)(s.key);
      assert Touched(src, "", u, from, to, k);
      assert Row(k, Sum(src, "", u, from, to, k)) in after;
    }
  }

  function InKeys(u: int -> int, rows: seq<Row>, q: Key -> bool): Key -> bool {
    k => q(Bucket(u, k)) && Bucket(u, k) in Keys(rows)
  }

  /** Rows that are each the sum of their bucket add up, under any selection, to what their buckets hold. */
  lemma {:induction false} SummaryTotal(rows: seq<Row>, src: seq<Row>, u: int -> int, q: Key -> bool)
    requires Unique(rows) && forall r :: r in rows ==> r.c == Total(src, Via(u, Is(r.key)))
    ensures Total(rows, q) == Total(src, InKeys(u, rows, q))
  {
    hide Plus, Unique;
    if rows == [] {
      assert Keys(rows) == {};
      EmptyTotal(src, InKeys(u, rows, q));
    } else {
      var before, last := rows[..|rows| - 1], rows[|rows| - 1];
      LastKey(rows);
      assert last in rows && forall r :: r in before ==> r in rows;
      SummaryTotal(before, src, u, q);
      PlusLaws(Total(before, q), ZERO, ZERO);
      if q(last.key) {
        SplitTotal(src, InKeys(u, before, q), Via(u, Is(last.key)), InKeys(u, rows, q));
      } else {
        SameTotal(src, InKeys(u, before, q), InKeys(u, rows, q));
      }
    }
  }

  /** A source row counts towards the window's rows exactly when it lies in the window itself. */
  lemma CountedInWindow(dst: seq<Row>, src: seq<Row>, u: int -> int, from: int, to: int, s: Row)
    requires Summarizes(dst, src, u, from, to) && IsUnit(u) && Aligned(u, from) && Covers(src, u, to) && s in src
    ensures Bucket(u, s.key) in Keys(Select(dst, "", from, to)) <==> Within(from, to, s.key.at)
  {
    hide Summarizes, IsUnit, Covers;
    var k, rows := Bucket(u, s.key), Select(dst, "", from, to);
    SelectRows(dst, "", from, to);
    assert Aligned(u, to) || s.key.at < to by {
      CoversRow(src, u, to, s);
    }
    InWindow(u, from, to, s.key.at);
    if Within(from, to, s.key.at) {
      assert k in Keys(dst) by {
        SummaryHasRow(dst, src, u, from, to, s);
      }
      var r :| r in dst && r.key == k;
      assert r in rows;
    }
  }

  lemma CoversRow(src: seq<Row>, u: int -> int, to: int, s: Row)
    requires Covers(src, u, to) && s in src
    ensures Aligned(u, to) || s.key.at < to
  {
  }

  lemma SummaryHasRow(dst: seq<Row>, src: seq<Row>, u: int -> int, from: int, to: int, s: Row)
    requires Summarizes(dst, src, u, from, to) && s in src && Within(from, to, s.key.at)
    ensures Bucket(u, s.key) in Keys(dst)
  {
  }

  lemma SummaryRows(dst: seq<Row>, src: seq<Row>, u: int -> int, from: int, to: int)
    requires Summarizes(dst, src, u, from, to)
    ensures var rows := Select(dst, "", from, to);
            Unique(rows) && forall r :: r in rows ==> r.c == Total(src, Via(u, Is(r.key)))
  {
    SelectRows(dst, "", from, to);
  }

  /** Conservation: whatever buckets are selected, a complete level holds in the window exactly what the
      level below holds in it. */
  lemma LevelsAgree(dst: seq<Row>, src: seq<Row>, u: int -> int, from: int, to: int, q: Key -> bool)
    requires Summarizes(dst, src, u, from, to) && IsUnit(u) && Aligned(u, from) && Covers(src, u, to)
    ensures Total(Select(dst, "", from, to), q) == Total(Select(src, "", from, to), Via(u, q))
  {
    hide Summarizes, IsUnit, Covers, Keys, Total, Aligned, Select;
    var rows := Select(dst, "", from, to);
    SummaryRows(dst, src, u, from, to);
    SummaryTotal(rows, src, u, q);
    SelectTotal(src, "", from, to, Via(u, q));
    forall s | s in src
      ensures InKeys(u, rows, q)(s.key) == Both(Selects("", from, to), Via(u, q))(s.key)
    {
      CountedInWindow(dst, src, u, from, to, s);
    }
    SameTotal(src, InKeys(u, rows, q), Both(Selects("", from, to), Via(u, q)));
  }

  /** A coarse bucket starts where a fine one does. */
  lemma FinerAligned(u: int -> int, v: int -> int, t: int)
    requires IsUnit(u) && IsUnit(v) && Coarser(u, v) && Aligned(v, t)
    ensures Aligned(u, t)
  {
    assert v(u(t)) == v(t);
  }

  /** Two steps up the levels: when the middle level summarises the finest one, the statement that fills the
      coarse level from the middle one makes it summarise the finest one exactly when it loses nothing. */
  lemma RollUp(
    top: seq<Row>, middle: seq<Row>, bottom: seq<Row>, order: seq<Row>, u: int -> int, v: int -> int, from: int,
    to: int)
    requires Summarizes(middle, bottom, u, from, to) && Unique(middle)
    requires Unique(top) && NoOrphans(top, middle, v, from, to) && Arranges(order, Select(middle, "", from, to))
    requires IsUnit(u) && IsUnit(v) && Coarser(u, v) && Aligned(v, from) && Aligned(v, to)
    ensures Summarizes(Overwritten(top, order, v), bottom, v, from, to) <==> Lossless(order, v)
  {
    FinerAligned(u, v, from);
    FinerAligned(u, v, to);
    var after := Overwritten(top, order, v);
    OverwrittenRows(top, order, v);
    hide IsUnit, Coarser, Aligned, NoOrphans, Overwritten, Total, Via, Select, Unique, Covers;
    AlignedCovers(middle, v, to);
    OverwriteSummarizes(top, middle, order, v, from, to);
    forall k: Key | Within(from, to, k.at)
      ensures Total(middle, Via(v, Is(k))) == Total(bottom, Via(v, Is(k)))
    {
      RolledTotal(middle, bottom, u, v, from, to, k);
    }
    FilledKeys(top, middle, order, v, from, to);
    RolledKeys(top, middle, bottom, order, u, v, from, to);
    SameSummary(after, middle, bottom, v, from, to);
  }

  lemma SameSummary(top: seq<Row>, middle: seq<Row>, bottom: seq<Row>, v: int -> int, from: int, to: int)
    requires forall k: Key :: Within(from, to, k.at) ==> Total(middle, Via(v, Is(k))) == Total(bottom, Via(v, Is(k)))
    requires forall s :: s in middle && Within(from, to, s.key.at) ==> Bucket(v, s.key) in Keys(top)
    requires forall s :: s in bottom && Within(from, to, s.key.at) ==> Bucket(v, s.key) in Keys(top)
    ensures Summarizes(top, middle, v, from, to) <==> Summarizes(top, bottom, v, from, to)
  {
  }

  /** Every selected row falls into a bucket the statement fills. */
  lemma FilledKeys(top: seq<Row>, middle: seq<Row>, order: seq<Row>, v: int -> int, from: int, to: int)
    requires Unique(top) && Arranges(order, Select(middle, "", from, to))
    ensures forall m :: m in middle && Within(from, to, m.key.at) ==>
            Bucket(v, m.key) in Keys(Overwritten(top, order, v))
  {
    OverwrittenRows(top, order, v);
    SelectRows(middle, "", from, to);
    forall m | m in middle && Within(from, to, m.key.at)
      ensures Bucket(v, m.key) in Keys(Overwritten(top, order, v))
    {
      var k := Bucket(v, m.key);
      assert m in order;
      LastPutFacts(order, v, k);
      assert Row(k, LastPut(order, v, k).value.c) in Overwritten(top, order, v);
    }
  }

  lemma AlignedCovers(src: seq<Row>, u: int -> int, to: int)
    requires Aligned(u, to)
    ensures Covers(src, u, to)
  {
  }

  lemma RolledTotal(middle: seq<Row>, bottom: seq<Row>, u: int -> int, v: int -> int, from: int, to: int, k: Key)
    requires Summarizes(middle, bottom, u, from, to) && IsUnit(u) && IsUnit(v) && Coarser(u, v)
    requires Aligned(v, from) && Aligned(v, to) && Aligned(u, from) && Aligned(u, to) && Within(from, to, k.at)
    ensures Total(middle, Via(v, Is(k))) == Total(bottom, Via(v, Is(k)))
  {
    hide Summarizes, IsUnit, Aligned, Total, Select;
    WindowTotal(middle, v, from, to, k);
    WindowTotal(bottom, v, from, to, k);
    AlignedCovers(bottom, u, to);
    LevelsAgree(middle, bottom, u, from, to, Via(v, Is(k)));
    BucketTwice(Select(bottom, "", from, to), u, v, k);
  }

  lemma BucketTwice(rows: seq<Row>, u: int -> int, v: int -> int, key: Key)
    requires Coarser(u, v)
    ensures Total(rows, Via(u, Via(v, Is(key)))) == Total(rows, Via(v, Is(key)))
  {
    hide Total;
    forall k: Key
      ensures Bucket(v, Bucket(u, k)) == Bucket(v, k)
    {
    }
    SameTotal(rows, Via(u, Via(v, Is(key))), Via(v, Is(key)));
  }

  /** Every row of the finest level falls into a bucket the statement fills. */
  lemma RolledKeys(
    top: seq<Row>, middle: seq<Row>, bottom: seq<Row>, order: seq<Row>, u: int -> int, v: int -> int, from: int,
    to: int)
    requires Summarizes(middle, bottom, u, from, to) && Unique(top) && Arranges(order, Select(middle, "", from, to))
    requires IsUnit(u) && Coarser(u, v) && Aligned(u, from) && Aligned(u, to)
    ensures forall s :: s in bottom && Within(from, to, s.key.at) ==>
            Bucket(v, s.key) in Keys(Overwritten(top, order, v))
  {
    FilledKeys(top, middle, order, v, from, to);
    forall s | s in bottom && Within(from, to, s.key.at)
      ensures Bucket(v, s.key) in Keys(Overwritten(top, order, v))
    {
      InWindow(u, from, to, s.key.at);
      assert Bucket(u, s.key) in Keys(middle);
      var m :| m in middle && m.key == Bucket(u, s.key);
      assert Bucket(v, m.key) == Bucket(v, s.key);
    }
  }

  /** The rows of a bucket that starts in an aligned window all lie in the window. */
  lemma WindowTotal(rows: seq<Row>, u: int -> int, from: int, to: int, key: Key)
    requires IsUnit(u) && Aligned(u, from) && Aligned(u, to) && Within(from, to, key.at)
    ensures Total(rows, Via(u, Is(key))) == Total(Select(rows, "", from, to), Via(u, Is(key)))
  {
    SelectTotal(rows, "", from, to, Via(u, Is(key)));
    forall s | s in rows
      ensures Both(Selects("", from, to), Via(u, Is(key)))(s.key) == Via(u, Is(key))(s.key)
    {
      InWindow(u, from, to, s.key.at);
      assert Bucket(u, s.key).at == u(s.key.at);
    }
    SameTotal(rows, Both(Selects("", from, to), Via(u, Is(key))), Via(u, Is(key)));
  }

  // ---------- overwriting: the day and month statements ----------

  /** The target table after the day or month statement. It groups by the source's own bucket column, so every
      source row is a group of its own; the rows are put one after the other under the coarser key, and each
      replaces the one put before it. The database is free to choose the order. */
  function Overwritten(dst: seq<Row>, order: seq<Row>, v: int -> int): seq<Row> {
    if order == [] then dst
    else
      var last := order[|order| - 1];
      Put(Overwritten(dst, order[..|order| - 1], v), Row(Bucket(v, last.key), last.c))
  }

  /** `order` lists the rows of a table in some order. */
  ghost predicate Arranges(order: seq<Row>, rows: seq<Row>) {
    Unique(order) && forall r :: r in order <==> r in rows
  }

  /** The row of a bucket that is put last. */
  function LastPut(order: seq<Row>, v: int -> int, bucket: Key): Option<Row> {
    if order == [] then None
    else if Bucket(v, order[|order| - 1].key) == bucket then Some(order[|order| - 1])
    else LastPut(order[..|order| - 1], v, bucket)
  }

  /** What the other rows of the bucket, put before the last one, sum to. */
  function Lost(order: seq<Row>, v: int -> int, bucket: Key): Counters {
    if order == [] then ZERO
    else if Bucket(v, order[|order| - 1].key) == bucket then Total(order[..|order| - 1], Via(v, Is(bucket)))
    else Lost(order[..|order| - 1], v, bucket)
  }

  /** In every bucket the rows put before the last one sum to nothing. */
  ghost predicate Lossless(order: seq<Row>, v: int -> int) {
    forall k :: LastPut(order, v, k).Some? ==> Lost(order, v, k) == ZERO
  }

  /** The statement leaves in each touched bucket the counters of the row put last, and every other row of the
      target as it was. */
  lemma {:induction false} OverwrittenRows(dst: seq<Row>, order: seq<Row>, v: int -> int)
    requires Unique(dst)
    ensures Unique(Overwritten(dst, order, v))
    ensures forall r :: r in Overwritten(dst, order, v) <==>
                          match LastPut(order, v, r.key)
                          case None => r in dst
                          case Some(s) => r.c == s.c
  {
    if order != [] {
      var before, last := order[..|order| - 1], order[|order| - 1];
      OverwrittenRows(dst, before, v);
      PutRows(Overwritten(dst, before, v), Row(Bucket(v, last.key), last.c));
    }
  }

  lemma {:induction false} LastPutFacts(order: seq<Row>, v: int -> int, bucket: Key)
    ensures LastPut(order, v, bucket).Some? <==> exists r :: r in order && Bucket(v, r.key) == bucket
    ensures LastPut(order, v, bucket).Some? ==>
              && LastPut(order, v, bucket).value in order && Bucket(v, LastPut(order, v, bucket).value.key) == bucket
              && Total(order, Via(v, Is(bucket))) == Plus(Lost(order, v, bucket), LastPut(order, v, bucket).value.c)
  {
    hide Plus;
    if order != [] {
      var before, last := order[..|order| - 1], order[|order| - 1];
      LastPutFacts(before, v, bucket);
      PlusLaws(Total(before, Via(v, Is(bucket))), ZERO, ZERO);
      assert forall r :: r in order <==> r in before || r == last;
    }
  }

  lemma Cancels(a: Counters, b: Counters)
    ensures Plus(a, b) == b <==> a == ZERO
  {
  }

  /** The trivial grouping. */
  function Same(t: int): int {
    t
  }

  /** The order of a table does not matter to its sums. */
  lemma ArrangedTotal(order: seq<Row>, rows: seq<Row>, q: Key -> bool)
    requires Unique(rows) && Arranges(order, rows)
    ensures Total(order, q) == Total(rows, q)
  {
    hide Plus, Total;
    assert forall k: Key :: Bucket(Same, k) == k;
    forall r | r in order
      ensures r.c == Total(rows, Via(Same, Is(r.key)))
    {
      RowIsTotal(rows, r);
      SameTotal(rows, Is(r.key), Via(Same, Is(r.key)));
    }
    SummaryTotal(order, rows, Same, q);
    SameTotal(rows, InKeys(Same, order, q), q);
  }

  /** Exactly when nothing is lost, the statement makes every bucket of an aligned window the sum of its rows. */
  lemma OverwriteSummarizes(dst: seq<Row>, src: seq<Row>, order: seq<Row>, v: int -> int, from: int, to: int)
    requires Unique(dst) && Unique(src) && IsUnit(v) && Aligned(v, from) && Covers(src, v, to)
    requires NoOrphans(dst, src, v, from, to) && Arranges(order, Select(src, "", from, to))
    ensures Summarizes(Overwritten(dst, order, v), src, v, from, to) <==> Lossless(order, v)
  {
    var after := Overwritten(dst, order, v);
    OverwrittenRows(dst, order, v);
    hide Overwritten, Unique, Covers, NoOrphans;
    forall k: Key
      ensures LastPut(order, v, k).Some? ==>
                && Within(from, to, k.at) && Row(k, LastPut(order, v, k).value.c) in after
                && (LastPut(order, v, k).value.c == Total(src, Via(v, Is(k))) <==> Lost(order, v, k) == ZERO)
    {
      if LastPut(order, v, k).Some? {
        PutBucket(src, order, v, from, to, k);
      }
    }
    forall r | r in after && Within(from, to, r.key.at) && LastPut(order, v, r.key).None?
      ensures r.c == Total(src, Via(v, Is(r.key)))
    {
      UntouchedBucket(dst, src, order, v, from, to, r);
    }
    FilledKeys(dst, src, order, v, from, to);
    forall r | r in after && LastPut(order, v, r.key).Some?
      ensures r.c == LastPut(order, v, r.key).value.c
    {
    }
  }

  /** What one bucket of the window holds after the statement. */
  lemma PutBucket(src: seq<Row>, order: seq<Row>, v: int -> int, from: int, to: int, k: Key)
    requires Unique(src) && IsUnit(v) && Aligned(v, from) && Covers(src, v, to)
    requires Arranges(order, Select(src, "", from, to)) && LastPut(order, v, k).Some?
    ensures Within(from, to, k.at)
    ensures LastPut(order, v, k).value.c == Total(src, Via(v, Is(k))) <==> Lost(order, v, k) == ZERO
  {
    var rows, q := Select(src, "", from, to), Via(v, Is(k));
    SelectRows(src, "", from, to);
    LastPutFacts(order, v, k);
    ArrangedTotal(order, rows, q);
    var last := LastPut(order, v, k).value;
    InWindow(v, from, to, last.key.at);
    assert Bucket(v, last.key).at == v(last.key.at);
    SelectTotal(src, "", from, to, q);
    SumInWindow(src, v, from, to, k);
    Cancels(Lost(order, v, k), last.c);
  }

  /** The rows of a bucket that starts in an aligned window all lie in the window. */
  lemma SumInWindow(src: seq<Row>, u: int -> int, from: int, to: int, k: Key)
    requires IsUnit(u) && Aligned(u, from) && Covers(src, u, to) && Within(from, to, k.at)
    ensures Total(src, Both(Selects("", from, to), Via(u, Is(k)))) == Total(src, Via(u, Is(k)))
  {
    hide Total;
    forall s | s in src
      ensures Both(Selects("", from, to), Via(u, Is(k)))(s.key) == Via(u, Is(k))(s.key)
    {
      InWindow(u, from, to, s.key.at);
      assert Bucket(u, s.key).at == u(s.key.at);
    }
    SameTotal(src, Both(Selects("", from, to), Via(u, Is(k))), Via(u, Is(k)));
  }

  lemma UntouchedBucket(dst: seq<Row>, src: seq<Row>, order: seq<Row>, v: int -> int, from: int, to: int, r: Row)
    requires IsUnit(v) && Aligned(v, from) && Covers(src, v, to) && NoOrphans(dst, src, v, from, to)
    requires Arranges(order, Select(src, "", from, to)) && LastPut(order, v, r.key).None?
    requires r in dst && Within(from, to, r.key.at)
    ensures r.c == Total(src, Via(v, Is(r.key)))
  {
    SelectRows(src, "", from, to);
    LastPutFacts(order, v, r.key);
    forall s | s in src
      ensures !Via(v, Is(r.key))(s.key)
    {
      InWindow(v, from, to, s.key.at);
      assert Bucket(v, s.key).at == v(s.key.at);
      assert Within(from, to, s.key.at) ==> s in order;
    }
    EmptyTotal(src, Via(v, Is(r.key)));
  }

  /** Two full hours of one day: the day keeps one of them, whatever the order. */
  lemma TwoHoursOfOneDay(dst: seq<Row>, first: int, second: int, order: seq<Row>)
    requires Unique(dst) && DayOf(first) == DayOf(second) && HourOf(first) == first < second == HourOf(second)
    requires Arranges(order, [Row(Key("a", "n", first), ONE), Row(Key("a", "n", second), ONE)])
    ensures var hours, k := [Row(Key("a", "n", first), ONE), Row(Key("a", "n", second), ONE)],
            Key("a", "n", DayOf(first));
            && Row(k, ONE) in Overwritten(dst, order, DayOf)
            && Total(hours, Via(DayOf, Is(k))) == Plus(ONE, ONE) != ONE
  {
    hide Plus, DayOf, HourOf;
    var a, b, k := Row(Key("a", "n", first), ONE), Row(Key("a", "n", second), ONE), Key("a", "n", DayOf(first));
    TwoRows(a, b, Via(DayOf, Is(k)));
    assert a in [a, b] && Bucket(DayOf, a.key) == k == Bucket(DayOf, b.key);
    LastPutFacts(order, DayOf, k);
    OverwrittenRows(dst, order, DayOf);
    Cancels(ONE, ONE);
  }

  // ---------- overwriting that loses nothing in any order ----------

  /** No bucket holds two rows unless both are empty. */
  ghost predicate Sparse(rows: seq<Row>, v: int -> int) {
    forall a, b :: a in rows && b in rows && a != b && Bucket(v, a.key) == Bucket(v, b.key) ==> a.c == ZERO
  }

  /** Whatever order the database chooses, nothing is lost: this holds exactly when no bucket holds two source
      rows unless they count nothing. */
  lemma LosslessInEveryOrder(rows: seq<Row>, v: int -> int)
    requires Unique(rows)
    ensures (forall order | Arranges(order, rows) :: Lossless(order, v)) <==> Sparse(rows, v)
  {
    if Sparse(rows, v) {
      forall order | Arranges(order, rows)
        ensures Lossless(order, v)
      {
        SparseIsLossless(rows, order, v);
      }
    } else if forall order | Arranges(order, rows) :: Lossless(order, v) {
      var a, b :| a in rows && b in rows && a != b && Bucket(v, a.key) == Bucket(v, b.key) && a.c != ZERO;
      var k := Bucket(v, a.key);
      forall x | x in rows && Via(v, Is(k))(x.key)
        ensures x.c == Total(rows, Via(v, Is(k)))
      {
        EndingIn(rows, v, x);
      }
      TwoOrMore(rows, Via(v, Is(k)), a, b);
      assert false;
    }
  }

  /** A caller can tell beforehand: the statement is exact over an aligned window, whatever order the database
      chooses, exactly when no bucket of the window holds two source rows unless they count nothing. */
  lemma OverwriteIsExactIff(dst: seq<Row>, src: seq<Row>, v: int -> int, from: int, to: int)
    requires Unique(dst) && Unique(src) && IsUnit(v) && Aligned(v, from) && Covers(src, v, to)
    requires NoOrphans(dst, src, v, from, to)
    ensures var rows := Select(src, "", from, to);
            (forall order | Arranges(order, rows) :: Summarizes(Overwritten(dst, order, v), src, v, from, to)) <==>
            Sparse(rows, v)
  {
    var rows := Select(src, "", from, to);
    SelectRows(src, "", from, to);
    hide Unique, Arranges, Select, Summarizes, Overwritten, Lossless, Sparse, Covers, NoOrphans, IsUnit, Aligned;
    forall order | Arranges(order, rows)
      ensures Summarizes(Overwritten(dst, order, v), src, v, from, to) <==> Lossless(order, v)
    {
      OverwriteSummarizes(dst, src, order, v, from, to);
    }
    LosslessInEveryOrder(rows, v);
  }

  lemma SparseIsLossless(rows: seq<Row>, order: seq<Row>, v: int -> int)
    requires Unique(rows) && Arranges(order, rows) && Sparse(rows, v)
    ensures Lossless(order, v)
  {
    forall k | LastPut(order, v, k).Some?
      ensures Lost(order, v, k) == ZERO
    {
      SparseBucket(order, v, k);
    }
  }

  lemma {:induction false} SparseBucket(order: seq<Row>, v: int -> int, k: Key)
    requires Unique(order) && Sparse(order, v) && LastPut(order, v, k).Some?
    ensures Lost(order, v, k) == ZERO
  {
    var before, last := order[..|order| - 1], order[|order| - 1];
    assert forall r :: r in before ==> r in order;
    assert last in order;
    if Bucket(v, last.key) == k {
      LastKey(order);
      forall r | r in before && Via(v, Is(k))(r.key)
        ensures r.c == ZERO
      {
        assert r.key in Keys(before);
        assert r != last;
      }
      ZeroTotal(before, Via(v, Is(k)));
    } else {
      SparseBucket(before, v, k);
    }
  }

  lemma {:induction false} ZeroTotal(rows: seq<Row>, q: Key -> bool)
    requires forall r :: r in rows && q(r.key) ==> r.c == ZERO
    ensures Total(rows, q) == ZERO
  {
    if rows != [] {
      assert rows[|rows| - 1] in rows;
      ZeroTotal(rows[..|rows| - 1], q);
    }
  }

  /** The rows without the one of a given key. */
  function Except(rows: seq<Row>, key: Key): seq<Row> {
    if rows == [] then []
    else
      var last := rows[|rows| - 1];
      Except(rows[..|rows| - 1], key) + if last.key != key then [last] else []
  }

  lemma {:induction false} ExceptRows(rows: seq<Row>, key: Key)
    ensures forall r :: r in Except(rows, key) <==> r in rows && r.key != key
    ensures Unique(rows) ==> Unique(Except(rows, key))
  {
    if rows != [] {
      var before, last := rows[..|rows| - 1], rows[|rows| - 1];
      ExceptRows(before, key);
      assert forall r :: r in rows <==> r in before || r == last;
      LastKey(rows);
      var kept := Except(before, key);
      assert (kept + [last])[..|kept|] == kept;
      LastKey(kept + [last]);
    }
  }

  /** In the order that puts `x` last the bucket of `x` is exact only if `x` is the bucket's whole sum. */
  lemma EndingIn(rows: seq<Row>, v: int -> int, x: Row)
    requires Unique(rows) && x in rows && forall order | Arranges(order, rows) :: Lossless(order, v)
    ensures x.c == Total(rows, Via(v, Is(Bucket(v, x.key))))
  {
    hide Plus, Total, Lossless;
    var others, k := Except(rows, x.key), Bucket(v, x.key);
    var order := others + [x];
    ExceptRows(rows, x.key);
    assert order[..|order| - 1] == others;
    LastKey(order);
    KeyInRows(rows, x);
    assert Arranges(order, rows);
    LosslessAt(order, v, k);
    LastPutFacts(order, v, k);
    ArrangedTotal(order, rows, Via(v, Is(k)));
    PlusLaws(x.c, ZERO, ZERO);
  }

  lemma LosslessAt(order: seq<Row>, v: int -> int, k: Key)
    requires Lossless(order, v) && LastPut(order, v, k).Some?
    ensures Lost(order, v, k) == ZERO
  {
  }

  lemma KeyInRows(rows: seq<Row>, x: Row)
    requires Unique(rows) && x in rows
    ensures forall r :: r in rows && r.key == x.key ==> r == x
  {
    var i :| 0 <= i < |rows| && rows[i] == x;
  }

  function Times(n: int, c: Counters): Counters {
    Counters(
      n * c.requests, n * c.success, n * c.failed, n * c.retryAttempts, n * c.retrySuccess,
      n * c.responseTimeSum, n * c.responseTimeCount, n * c.bytes, n * c.inputTokens, n * c.outputTokens,
      n * c.firstByteTimeSum, n * c.streamDurationSum)
  }

  function Matching(rows: seq<Row>, q: Key -> bool): nat {
    if rows == [] then 0 else Matching(rows[..|rows| - 1], q) + if q(rows[|rows| - 1].key) then 1 else 0
  }

  lemma OneMoreTime(n: int, c: Counters)
    ensures Times(0, c) == ZERO && Plus(Times(n, c), c) == Times(n + 1, c)
  {
  }

  lemma {:induction false} EqualRows(rows: seq<Row>, q: Key -> bool, c: Counters)
    requires forall r :: r in rows && q(r.key) ==> r.c == c
    ensures Total(rows, q) == Times(Matching(rows, q), c)
  {
    hide Plus, Times;
    OneMoreTime(0, c);
    if rows != [] {
      var before, last := rows[..|rows| - 1], rows[|rows| - 1];
      assert last in rows;
      EqualRows(before, q, c);
      OneMoreTime(Matching(before, q), c);
      PlusLaws(Total(before, q), ZERO, ZERO);
    }
  }

  lemma {:induction false} MatchingAtLeast(rows: seq<Row>, q: Key -> bool, a: Row)
    requires a in rows && q(a.key)
    ensures Matching(rows, q) >= 1
  {
    if rows[|rows| - 1] != a {
      MatchingAtLeast(rows[..|rows| - 1], q, a);
    }
  }

  lemma {:induction false} MatchingTwo(rows: seq<Row>, q: Key -> bool, a: Row, b: Row)
    requires a in rows && b in rows && a != b && q(a.key) && q(b.key)
    ensures Matching(rows, q) >= 2
  {
    var before, last := rows[..|rows| - 1], rows[|rows| - 1];
    if last == a {
      MatchingAtLeast(before, q, b);
    } else if last == b {
      MatchingAtLeast(before, q, a);
    } else {
      MatchingTwo(before, q, a, b);
    }
  }

  lemma OwnMultiple(n: int, x: int)
    requires n >= 2 && n * x == x
    ensures x == 0
  {
    assert (n - 1) * x == 0;
  }

  /** If every one of two or more rows equals their sum, they all count nothing. */
  lemma TwoOrMore(rows: seq<Row>, q: Key -> bool, a: Row, b: Row)
    requires a in rows && b in rows && a != b && q(a.key) && q(b.key)
    requires forall x :: x in rows && q(x.key) ==> x.c == Total(rows, q)
    ensures a.c == ZERO
  {
    var c, n := a.c, Matching(rows, q);
    EqualRows(rows, q, c);
    MatchingTwo(rows, q, a, b);
    MultipleIsZero(n, c);
  }

  lemma MultipleIsZero(n: int, c: Counters)
    requires n >= 2 && Times(n, c) == c
    ensures c == ZERO
  {
    OwnMultiple(n, c.requests);
    OwnMultiple(n, c.success);
    OwnMultiple(n, c.failed);
    OwnMultiple(n, c.retryAttempts);
    OwnMultiple(n, c.retrySuccess);
    OwnMultiple(n, c.responseTimeSum);
    OwnMultiple(n, c.responseTimeCount);
    OwnMultiple(n, c.bytes);
    OwnMultiple(n, c.inputTokens);
    OwnMultiple(n, c.outputTokens);
    OwnMultiple(n, c.firstByteTimeSum);
    OwnMultiple(n, c.streamDurationSum);
  }

  // ---------- when aggregation is exact ----------

  /** Every bucket the window touches becomes the full sum of the bucket. */
  ghost predicate Exact(src: seq<Row>, u: int -> int, from: int, to: int) {
    forall k :: Touched(src, "", u, from, to, k) ==> Sum(src, "", u, from, to, k) == Total(src, Via(u, Is(k)))
  }

  const ONE: Counters := ZERO.(requests := 1)

  lemma TwoRows(a: Row, b: Row, q: Key -> bool)
    ensures Total([a, b], q) == Plus(if q(a.key) then a.c else ZERO, if q(b.key) then b.c else ZERO)
  {
    hide Plus;
    assert [a, b][..1] == [a] && [a][..0] == [];
    PlusLaws(if q(a.key) then a.c else ZERO, ZERO, ZERO);
    assert Total([a], q) == Plus(Total([], q), if q(a.key) then a.c else ZERO);
  }

  /** A window that starts inside a bucket undercounts it as soon as the bucket has an earlier row. */
  lemma UnalignedLosesRows(u: int -> int, from: int, to: int)
    requires IsUnit(u) && !Aligned(u, from) && from < to
    ensures var src := [Row(Key("a", "n", u(from)), ONE), Row(Key("a", "n", from), ONE)];
            Covers(src, u, to) && !Exact(src, u, from, to)
  {
    hide Plus, Total;
    var early, late := Row(Key("a", "n", u(from)), ONE), Row(Key("a", "n", from), ONE);
    var src, k := [early, late], Key("a", "n", u(from));
    assert src[1] in src && Selects("", from, to)(late.key) && Bucket(u, late.key) == k;
    assert Touched(src, "", u, from, to, k);
    assert u(u(from)) == u(from) && Bucket(u, early.key) == k;
    assert Via(u, Is(k))(early.key) && Via(u, Is(k))(late.key);
    TwoRows(early, late, Via(u, Is(k)));
    assert !Selects("", from, to)(early.key);
    assert Total(src, Via(u, Is(k))) == Plus(ONE, ONE);
    TwoRows(early, late, Both(Selects("", from, to), Via(u, Is(k))));
    OneAndTwo();
  }

  lemma OneAndTwo()
    ensures Plus(ONE, ONE) != Plus(ZERO, ONE)
  {
  }

  /** Aggregation up to a moment after every row is exact for all tables if and only if the window starts
      at the start of a bucket: otherwise the first bucket loses the rows before the window. */
  lemma ExactIffAligned(u: int -> int, from: int, to: int)
    requires IsUnit(u) && from < to
    ensures Aligned(u, from) <==> forall src: seq<Row> | Covers(src, u, to) :: Exact(src, u, from, to)
  {
    if Aligned(u, from) {
      forall src: seq<Row> | Covers(src, u, to)
        ensures Exact(src, u, from, to)
      {
        forall k | Touched(src, "", u, from, to, k)
          ensures Sum(src, "", u, from, to, k) == Total(src, Via(u, Is(k)))
        {
          forall s | s in src
            ensures Both(Selects("", from, to), Via(u, Is(k)))(s.key) == Via(u, Is(k))(s.key)
          {
            InWindow(u, from, to, s.key.at);
            assert Bucket(u, s.key).at == u(s.key.at);
          }
          SameTotal(src, Both(Selects("", from, to), Via(u, Is(k))), Via(u, Is(k)));
        }
      }
    } else {
      UnalignedLosesRows(u, from, to);
    }
  }

  // ---------- retention ----------

  /** The rows of `account` (of all, if empty) older than `cutoff` deleted. */
  function Kept(rows: seq<Row>, account: string, cutoff: int): seq<Row> {
    if rows == [] then []
    else
      var last := rows[|rows| - 1];
      Kept(rows[..|rows| - 1], account, cutoff) + if Keeps(account, cutoff)(last.key) then [last] else []
  }

  function Keeps(account: string, cutoff: int): Key -> bool {
    (k: Key) => k.at >= cutoff || (account != "" && k.account != account)
  }

  lemma {:induction false} KeptRows(rows: seq<Row>, account: string, cutoff: int)
    ensures forall r :: r in Kept(rows, account, cutoff) <==> r in rows && Keeps(account, cutoff)(r.key)
    ensures Unique(rows) ==> Unique(Kept(rows, account, cutoff))
  {
    if rows != [] {
      var before, last := rows[..|rows| - 1], rows[|rows| - 1];
      KeptRows(before, account, cutoff);
      assert forall r :: r in rows <==> r in before || r == last;
      LastKey(rows);
      var kept := Kept(before, account, cutoff);
      assert (kept + [last])[..|kept|] == kept;
      LastKey(kept + [last]);
    }
  }

  lemma {:induction false} KeptTotal(rows: seq<Row>, account: string, cutoff: int, q: Key -> bool)
    requires forall r :: r in rows && q(r.key) ==> Keeps(account, cutoff)(r.key)
    ensures Total(Kept(rows, account, cutoff), q) == Total(rows, q)
  {
    hide Plus;
    if rows != [] {
      var before, last := rows[..|rows| - 1], rows[|rows| - 1];
      assert last in rows && forall r :: r in before ==> r in rows;
      KeptTotal(before, account, cutoff, q);
      var kept := Kept(before, account, cutoff);
      PlusLaws(Total(kept, q), ZERO, ZERO);
      if Keeps(account, cutoff)(last.key) {
        assert (kept + [last])[..|kept|] == kept;
      } else {
        assert Kept(rows, account, cutoff) == kept;
      }
    }
  }

  /** Deleting old rows on both levels leaves them in agreement over every window both of them retain. */
  lemma CleanupKeepsLevels(
    dst: seq<Row>, src: seq<Row>, u: int -> int, from: int, to: int, account: string, early: int, late: int)
    requires Summarizes(dst, src, u, from, to) && IsUnit(u) && Aligned(u, from) && early <= from && late <= from
    ensures Summarizes(Kept(dst, account, early), Kept(src, account, late), u, from, to)
  {
    KeptRows(dst, account, early);
    KeptRows(src, account, late);
    forall r | r in Kept(dst, account, early) && Within(from, to, r.key.at)
      ensures r.c == Total(Kept(src, account, late), Via(u, Is(r.key)))
    {
      forall s | s in src && Via(u, Is(r.key))(s.key)
        ensures Keeps(account, late)(s.key)
      {
        assert Bucket(u, s.key).at == u(s.key.at);
      }
      KeptTotal(src, account, late, Via(u, Is(r.key)));
    }
    forall s | s in Kept(src, account, late) && Within(from, to, s.key.at)
      ensures Bucket(u, s.key) in Keys(Kept(dst, account, early))
    {
      var r :| r in dst && r.key == Bucket(u, s.key);
      assert u(from) <= u(s.key.at);
      assert r in Kept(dst, account, early);
    }
  }
}
