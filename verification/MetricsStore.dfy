/** The metrics tables of the store, the retention job and the hourly aggregation job. Beside the tables the
    store keeps, as a ghost, every raw row ever inserted; what the levels hold is stated against it. */
module MetricsStore {
  import opened Common
  import opened Rollup

  // ---------- a level against the history ----------

  /** The buckets from `start` on are complete up to `prev`, what is in those from `prev` to `last` belongs there, and
      nothing later is there: the state after an aggregation up to `last` whose last bucket may not have been over. */
  ghost predicate BucketsComplete(
    u: int -> int, level: seq<Row>, inserted: seq<Row>, start: int, prev: int, last: int)
  {
    && Aligned(u, start) && Aligned(u, prev) && Aligned(u, last) && start <= prev <= last
    && Summarizes(level, inserted, u, start, prev)
    && (forall r :: r in level ==> r.key.at < last)
    && NoOrphans(level, inserted, u, prev, last)
  }

  /** A row that is not of the completed buckets leaves them alone. */
  lemma InsertKeepsBuckets(
    u: int -> int, level: seq<Row>, inserted: seq<Row>, start: int, prev: int, last: int, row: Row)
    requires IsUnit(u) && BucketsComplete(u, level, inserted, start, prev, last) && row.key.at >= prev
    ensures BucketsComplete(u, level, inserted + [row], start, prev, last)
  {
    hide Total, IsUnit, Aligned;
    var more := inserted + [row];
    forall r | r in level && Within(start, prev, r.key.at)
      ensures r.c == Total(more, Via(u, Is(r.key)))
    {
      InWindow(u, start, prev, row.key.at);
      assert Bucket(u, row.key).at == u(row.key.at);
      OtherRow(inserted, row, Via(u, Is(r.key)));
    }
    assert forall s :: s in more <==> s in inserted || s == row;
  }

  lemma Boundaries(u: int -> int, level: seq<Row>, inserted: seq<Row>, start: int, prev: int, last: int)
    requires BucketsComplete(u, level, inserted, start, prev, last)
    ensures Aligned(u, start) && Aligned(u, last) && start <= prev
  {
  }

  lemma OtherRow(rows: seq<Row>, row: Row, q: Key -> bool)
    requires !q(row.key)
    ensures Total(rows + [row], q) == Total(rows, q)
  {
    assert (rows + [row])[..|rows|] == rows;
    PlusLaws(Total(rows, q), ZERO, ZERO);
  }

  /** Raw rows are what was inserted, except that old ones may have been deleted. */
  ghost predicate Retains(raw: seq<Row>, inserted: seq<Row>, horizon: int) {
    Kept(raw, "", horizon) == Kept(inserted, "", horizon)
  }

  lemma RetainedRows(raw: seq<Row>, inserted: seq<Row>, horizon: int)
    requires Retains(raw, inserted, horizon)
    ensures forall r: Row :: r.key.at >= horizon ==> (r in raw <==> r in inserted)
  {
    KeptRows(raw, "", horizon);
    KeptRows(inserted, "", horizon);
    assert forall r: Row :: r.key.at >= horizon ==> (r in raw <==> r in Kept(raw, "", horizon));
  }

  /** Over the retained time, raw rows sum to what was inserted. */
  lemma RetainedTotal(raw: seq<Row>, inserted: seq<Row>, horizon: int, u: int -> int, key: Key)
    requires Retains(raw, inserted, horizon) && horizon <= key.at && IsUnit(u)
    ensures Total(raw, Via(u, Is(key))) == Total(inserted, Via(u, Is(key)))
  {
    hide Total, Kept;
    var q := Via(u, Is(key));
    forall r: Row | q(r.key)
      ensures Keeps("", horizon)(r.key)
    {
      assert Bucket(u, r.key).at == u(r.key.at) <= r.key.at;
    }
    KeptTotal(raw, "", horizon, q);
    KeptTotal(inserted, "", horizon, q);
  }

  lemma SummaryOfHistory(level: seq<Row>, raw: seq<Row>, inserted: seq<Row>, horizon: int, u: int -> int, from: int,
      to: int)
    requires Summarizes(level, raw, u, from, to) && Retains(raw, inserted, horizon) && horizon <= from && IsUnit(u)
    ensures Summarizes(level, inserted, u, from, to)
  {
    hide Total, Via, Retains, IsUnit;
    RetainedRows(raw, inserted, horizon);
    forall r | r in level && Within(from, to, r.key.at)
      ensures r.c == Total(inserted, Via(u, Is(r.key)))
    {
      RetainedTotal(raw, inserted, horizon, u, r.key);
    }
  }

  lemma SummariesJoin(dst: seq<Row>, src: seq<Row>, u: int -> int, from: int, mid: int, to: int)
    requires Summarizes(dst, src, u, from, mid) && Summarizes(dst, src, u, mid, to) && from <= mid <= to
    ensures Summarizes(dst, src, u, from, to)
  {
  }

  /** A summary over a window is one over every part of it. */
  lemma SummaryWithin(dst: seq<Row>, src: seq<Row>, u: int -> int, from: int, to: int, early: int, late: int)
    requires Summarizes(dst, src, u, from, to) && from <= early <= late <= to
    ensures Summarizes(dst, src, u, early, late)
  {
  }

  /** The buckets of a unit that all have the same length. */
  ghost predicate Evenly(u: int -> int, length: int) {
    forall t :: Aligned(u, t) ==> Aligned(u, t - length) && Aligned(u, t + length)
  }

  /** An empty level is ready for its first aggregation at any boundary. */
  lemma NothingYet(u: int -> int, start: int, last: int)
    requires Aligned(u, start) && Aligned(u, last) && start <= last - HOUR && Evenly(u, HOUR)
    ensures BucketsComplete(u, [], [], start, last - HOUR, last)
  {
  }

  /** Every moment lies inside the bucket it is of. */
  lemma InsideBucket(u: int -> int, length: int, t: int)
    requires IsUnit(u) && Evenly(u, length) && length > 0
    ensures Aligned(u, u(t)) && u(t) <= t < u(t) + length
  {
    assert Aligned(u, u(t));
    assert Aligned(u, u(t) + length);
  }

  /** A bucket start at or after `t`, less than one bucket later. */
  function Boundary(u: int -> int, length: int, t: int): int {
    if u(t) == t then t else u(t) + length
  }

  lemma BoundaryIsNext(u: int -> int, length: int, t: int)
    requires IsUnit(u) && Evenly(u, length) && length > 0
    ensures Aligned(u, Boundary(u, length, t)) && t <= Boundary(u, length, t) < t + length
  {
    InsideBucket(u, length, t);
  }

  lemma EvenHoursAndDays()
    ensures Evenly(HourOf, HOUR) && Evenly(DayOf, DAY)
  {
    forall t | Aligned(HourOf, t)
      ensures Aligned(HourOf, t - HOUR) && Aligned(HourOf, t + HOUR)
    {
    }
    forall t | Aligned(DayOf, t)
      ensures Aligned(DayOf, t - DAY) && Aligned(DayOf, t + DAY)
    {
      DayParts(t);
      DayStart(t, t / 86_400_000_000_000);
      DayStart(t - DAY, t / 86_400_000_000_000 - 1);
      DayStart(t + DAY, t / 86_400_000_000_000 + 1);
    }
  }

  /** Buckets before the window are not touched. */
  lemma EarlierSummary(
    hourly: seq<Row>, raw: seq<Row>, inserted: seq<Row>, u: int -> int, start: int, from: int, to: int)
    requires Summarizes(hourly, inserted, u, start, from) && IsUnit(u) && Aligned(u, from)
    ensures Summarizes(Aggregated(hourly, raw, "", u, from, to), inserted, u, start, from)
  {
    hide Total;
    var after := Aggregated(hourly, raw, "", u, from, to);
    AggregatedRows(hourly, raw, "", u, from, to);
    forall k: Key | k.at < from
      ensures !Touched(raw, "", u, from, to, k)
    {
      forall r | r in raw && Selects("", from, to)(r.key)
        ensures Bucket(u, r.key) != k
      {
        assert Bucket(u, r.key).at == u(r.key.at) >= u(from) == from;
      }
    }
    forall s | s in inserted && Within(start, from, s.key.at)
      ensures Bucket(u, s.key) in Keys(after)
    {
      var k := Bucket(u, s.key);
      assert k in Keys(hourly);
      var r :| r in hourly && r.key == k;
      assert k.at == u(s.key.at) <= s.key.at;
      assert r in after;
    }
  }

  /** What is left in the last bucket, which may not be over yet. */
  lemma LastBucket(
    hourly: seq<Row>, after: seq<Row>, raw: seq<Row>, inserted: seq<Row>, horizon: int, u: int -> int,
    from: int, last: int, to: int)
    requires after == Aggregated(hourly, raw, "", u, from, to) && Unique(hourly) && IsUnit(u)
    requires forall r :: r in hourly ==> r.key.at < last
    requires forall r: Row :: r.key.at >= horizon ==> (r in raw <==> r in inserted)
    requires horizon <= from <= last <= to && Aligned(u, last)
    ensures forall r :: r in after ==> r.key.at < to
    ensures NoOrphans(after, inserted, u, last, to)
  {
    hide Total, Aggregated;
    AggregatedRows(hourly, raw, "", u, from, to);
    forall r | r in after
      ensures r.key.at < to
      ensures r.key.at >= last ==>
                exists s :: s in inserted && Within(last, to, s.key.at) && Bucket(u, s.key) == r.key
    {
      if Touched(raw, "", u, from, to, r.key) {
        var s :| s in raw && Selects("", from, to)(s.key) && Bucket(u, s.key) == r.key;
        assert Bucket(u, s.key).at == u(s.key.at) <= s.key.at;
        assert s in inserted;
      }
    }
  }

  /** Aggregating from `prev` to the boundary `next` completes the level up to there and spoils nothing. */
  lemma NextBucket(
    u: int -> int, level: seq<Row>, raw: seq<Row>, inserted: seq<Row>, horizon: int,
    start: int, prev: int, last: int, next: int)
    requires IsUnit(u) && BucketsComplete(u, level, inserted, start, prev, last)
    requires Retains(raw, inserted, horizon) && horizon <= prev && last <= next && Aligned(u, next)
    requires Unique(level) && forall r :: r in raw ==> r.key.at < next
    ensures var after := Aggregated(level, raw, "", u, prev, next);
            && Summarizes(after, inserted, u, start, next) && BucketsComplete(u, after, inserted, start, last, next)
  {
    var after := Aggregated(level, raw, "", u, prev, next);
    hide Total, Aggregated, Retains;
    RetainedRows(raw, inserted, horizon);
    assert NoOrphans(level, raw, u, prev, next) by {
      forall r | r in level && Within(prev, next, r.key.at) && r.c != ZERO
        ensures exists s :: s in raw && Within(prev, next, s.key.at) && Bucket(u, s.key) == r.key
      {
        var s :| s in inserted && Within(prev, last, s.key.at) && Bucket(u, s.key) == r.key;
        assert s in raw;
      }
    }
    AggregateSummarizes(level, raw, u, prev, next);
    SummaryOfHistory(after, raw, inserted, horizon, u, prev, next);
    EarlierSummary(level, raw, inserted, u, start, prev, next);
    SummariesJoin(after, inserted, u, start, prev, next);
    SummaryWithin(after, inserted, u, start, next, start, last);
    LastBucket(level, after, raw, inserted, horizon, u, prev, last, next);
  }

  /** Deleting what is older than `start` does no harm to a summary from there on. */
  lemma CleanupKeepsSummary(
    level: seq<Row>, inserted: seq<Row>, u: int -> int, start: int, to: int, account: string, cutoff: int)
    requires Summarizes(level, inserted, u, start, to) && IsUnit(u) && Aligned(u, start) && cutoff <= start
    ensures Summarizes(Kept(level, account, cutoff), inserted, u, start, to)
  {
    hide Total;
    KeptRows(level, account, cutoff);
    var kept := Kept(level, account, cutoff);
    forall s | s in inserted && Within(start, to, s.key.at)
      ensures Bucket(u, s.key) in Keys(kept)
    {
      assert Bucket(u, s.key) in Keys(level);
      var r :| r in level && r.key == Bucket(u, s.key);
      assert r.key.at == u(s.key.at) >= u(start);
      assert r in kept;
    }
  }

  lemma CleanupKeepsBuckets(
    u: int -> int, level: seq<Row>, inserted: seq<Row>, start: int, prev: int, last: int, account: string, cutoff: int)
    requires IsUnit(u) && BucketsComplete(u, level, inserted, start, prev, last) && cutoff <= start
    ensures BucketsComplete(u, Kept(level, account, cutoff), inserted, start, prev, last)
  {
    hide Summarizes, IsUnit;
    CleanupKeepsSummary(level, inserted, u, start, prev, account, cutoff);
    KeptRows(level, account, cutoff);
  }

  lemma {:induction false} KeptTwice(rows: seq<Row>, account: string, cutoff: int, horizon: int)
    requires cutoff <= horizon
    ensures Kept(Kept(rows, account, cutoff), "", horizon) == Kept(rows, "", horizon)
  {
    if rows != [] {
      var before, last := rows[..|rows| - 1], rows[|rows| - 1];
      KeptTwice(before, account, cutoff, horizon);
      var kept := Kept(before, account, cutoff);
      if Keeps(account, cutoff)(last.key) {
        assert (kept + [last])[..|kept|] == kept;
      } else {
        assert Kept(rows, account, cutoff) == kept;
      }
    }
  }

  /** A cleanup moves the horizon. */
  lemma CleanupRetains(raw: seq<Row>, inserted: seq<Row>, horizon: int, account: string, cutoff: int)
    requires Retains(raw, inserted, horizon)
    ensures var later := if cutoff > horizon then cutoff else horizon;
            Retains(Kept(raw, account, cutoff), inserted, later)
  {
    var later := if cutoff > horizon then cutoff else horizon;
    KeptTwice(raw, account, cutoff, later);
    KeptTwice(raw, "", horizon, later);
    KeptTwice(inserted, "", horizon, later);
  }

  lemma KeptAppend(rows: seq<Row>, row: Row, horizon: int)
    ensures Kept(rows + [row], "", horizon) == Kept(rows, "", horizon) + if row.key.at >= horizon then [row] else []
  {
    assert (rows + [row])[..|rows|] == rows;
  }

  // ---------- days and the hours they were made of ----------

  /** Every row from `start` on has a row of the level below in its bucket. */
  ghost predicate Grounded(level: seq<Row>, below: seq<Row>, v: int -> int, start: int) {
    forall r :: r in level && r.key.at >= start ==> exists s :: s in below && Bucket(v, s.key) == r.key
  }

  lemma GroundedRow(level: seq<Row>, below: seq<Row>, v: int -> int, start: int, r: Row) returns (s: Row)
    requires Grounded(level, below, v, start) && r in level && r.key.at >= start
    ensures s in below && Bucket(v, s.key) == r.key
  {
    s :| s in below && Bucket(v, s.key) == r.key;
  }

  lemma GroundedIsNoOrphan(level: seq<Row>, below: seq<Row>, v: int -> int, start: int, from: int, to: int)
    requires Grounded(level, below, v, start) && start <= from && IsUnit(v) && Aligned(v, from) && Aligned(v, to)
    ensures NoOrphans(level, below, v, from, to)
  {
    hide Grounded;
    forall r | r in level && Within(from, to, r.key.at)
      ensures exists s :: s in below && Within(from, to, s.key.at) && Bucket(v, s.key) == r.key
    {
      var s := GroundedRow(level, below, v, start, r);
      assert v(s.key.at) == r.key.at;
      InWindow(v, from, to, s.key.at);
    }
  }

  /** An aggregation of the level below takes no key away. */
  lemma GroundedAfterAggregation(
    level: seq<Row>, below: seq<Row>, src: seq<Row>, u: int -> int, v: int -> int, from: int, to: int, start: int)
    requires Grounded(level, below, v, start) && Unique(below)
    ensures Grounded(level, Aggregated(below, src, "", u, from, to), v, start)
  {
    hide Grounded, Aggregated, Unique, Touched, Sum;
    AggregatedRows(below, src, "", u, from, to);
    var after := Aggregated(below, src, "", u, from, to);
    forall r | r in level && r.key.at >= start
      ensures exists s :: s in after && Bucket(v, s.key) == r.key
    {
      var s := GroundedRow(level, below, v, start, r);
      var t := if Touched(src, "", u, from, to, s.key) then Row(s.key, Sum(src, "", u, from, to, s.key)) else s;
      assert t in after && Bucket(v, t.key) == r.key;
    }
    GroundedIf(level, after, v, start);
  }

  lemma GroundedIf(level: seq<Row>, below: seq<Row>, v: int -> int, start: int)
    requires forall r :: r in level && r.key.at >= start ==> exists s :: s in below && Bucket(v, s.key) == r.key
    ensures Grounded(level, below, v, start)
  {
  }

  lemma GroundedAfterOverwriting(
    level: seq<Row>, below: seq<Row>, order: seq<Row>, v: int -> int, from: int, to: int, start: int)
    requires Grounded(level, below, v, start) && Unique(level) && Arranges(order, Select(below, "", from, to))
    ensures Grounded(Overwritten(level, order, v), below, v, start)
  {
    hide Grounded, Overwritten, Unique, Select, Lost, Total, LastPut;
    OverwrittenRows(level, order, v);
    SelectRows(below, "", from, to);
    var after := Overwritten(level, order, v);
    forall r | r in after && r.key.at >= start
      ensures exists s :: s in below && Bucket(v, s.key) == r.key
    {
      LastPutFacts(order, v, r.key);
      if LastPut(order, v, r.key).None? {
        var s := GroundedRow(level, below, v, start, r);
      }
    }
    GroundedIf(after, below, v, start);
  }

  /** Retention takes away hours before the cut-off, and the days that may have lost hours start before it. */
  lemma GroundedAfterCleanup(
    level: seq<Row>, below: seq<Row>, v: int -> int, start: int, early: int, late: int, later: int)
    requires Grounded(level, below, v, start) && IsUnit(v) && start <= later && late <= later
    ensures Grounded(Kept(level, "", early), Kept(below, "", late), v, later)
  {
    hide Grounded, Kept;
    KeptRows(level, "", early);
    KeptRows(below, "", late);
    forall r | r in Kept(level, "", early) && r.key.at >= later
      ensures exists s :: s in Kept(below, "", late) && Bucket(v, s.key) == r.key
    {
      var s := GroundedRow(level, below, v, start, r);
      assert v(s.key.at) == r.key.at <= s.key.at;
      assert s in Kept(below, "", late);
    }
    GroundedIf(Kept(level, "", early), Kept(below, "", late), v, later);
  }

  /** Deleting rows from before a window leaves the question whether the window is summarized as it was. */
  lemma CleanupBeforeWindow(
    level: seq<Row>, src: seq<Row>, v: int -> int, from: int, to: int, cutoff: int)
    requires Unique(level) && IsUnit(v) && Aligned(v, from) && cutoff <= from
    ensures Summarizes(Kept(level, "", cutoff), src, v, from, to) <==> Summarizes(level, src, v, from, to)
  {
    hide Total, Kept;
    KeptRows(level, "", cutoff);
    if Summarizes(level, src, v, from, to) {
      CleanupKeepsSummary(level, src, v, from, to, "", cutoff);
    }
    var kept := Kept(level, "", cutoff);
    assert forall k :: k in Keys(kept) ==> k in Keys(level) by {
      forall k | k in Keys(kept)
        ensures k in Keys(level)
      {
        var r :| r in kept && r.key == k;
        assert r in level;
      }
    }
    assert forall r :: r in level && Within(from, to, r.key.at) ==> r in kept;
  }

  // ---------- the store ----------

  datatype Granularity = Raw | Hourly | Daily | Monthly

  /** The counts a caller left out, derived from the others. */
  function Derived(c: Counters): Counters {
    var total := if c.requests == 0 then c.success + c.failed else c.requests;
    var success := if c.success == 0 && total > 0 then total - c.failed else c.success;
    c.(requests := total, success := success,
       responseTimeCount := if c.responseTimeCount == 0 && total > 0 then total else c.responseTimeCount)
  }

  /** Derived counts add up if the given ones do or the total or the successes were left out. */
  lemma DerivedAddsUp(c: Counters)
    requires c.success >= 0 && c.failed >= 0
    requires c.requests == 0 || c.success == 0 || c.requests == c.success + c.failed
    ensures Derived(c).requests > 0 ==> Derived(c).requests == Derived(c).success + Derived(c).failed
    ensures Derived(Derived(c)) == Derived(c)
  {
  }

  class Store {
    /** The calendar: where the hour, the day and the month of a moment start, and the same day one month earlier. */
    const hour: int -> int
    const day: int -> int
    const month: int -> int
    const monthBack: int -> int
    var raw: seq<Row>
    var hourly: seq<Row>
    var daily: seq<Row>
    var monthly: seq<Row>
    /** Every raw row ever inserted, and since when none of them has been deleted. */
    ghost var inserted: seq<Row>
    ghost var horizon: int

    ghost predicate Valid()
      reads this
    {
      && Unique(hourly) && Unique(daily) && Unique(monthly) && Retains(raw, inserted, horizon)
      && IsUnit(hour) && IsUnit(day) && IsUnit(month) && Coarser(hour, day) && Coarser(day, month)
      && Evenly(hour, HOUR) && Evenly(day, DAY)
      && forall t :: Aligned(month, t) ==> monthBack(t) < t && Aligned(month, monthBack(t))
    }

    /** The hourly job has run at `last`, and the hours from `start` on are complete but for the last one. */
    ghost predicate HoursComplete(start: int, last: int)
      reads this
    {
      BucketsComplete(hour, hourly, inserted, start, last - HOUR, last)
    }

    /** The state between two hours of operation. */
    ghost predicate Running(start: int, last: int)
      reads this
    {
      && HoursComplete(start, last) && horizon <= last - HOUR && (forall r :: r in raw ==> r.key.at < last)
      && Grounded(daily, hourly, day, start)
    }

    constructor (month: int -> int, monthBack: int -> int, ghost horizon: int)
      requires IsUnit(month) && Coarser(DayOf, month)
      requires forall t :: Aligned(month, t) ==> monthBack(t) < t && Aligned(month, monthBack(t))
      ensures Valid() && raw == [] && hourly == [] && daily == [] && monthly == [] && inserted == []
      ensures hour == HourOf && day == DayOf && this.month == month && this.monthBack == monthBack
              && this.horizon == horizon
      ensures forall start, last ::
                Aligned(hour, start) && Aligned(hour, last) && start <= last - HOUR && horizon <= last - HOUR ==>
                  Running(start, last)
    {
      HoursAndDays();
      EvenHoursAndDays();
      hour, day, this.month, this.monthBack := HourOf, DayOf, month, monthBack;
      raw, hourly, daily, monthly := [], [], [], [];
      inserted, this.horizon := [], horizon;
      new;
      forall start, last | Aligned(hour, start) && Aligned(hour, last) && start <= last - HOUR && horizon <= last - HOUR
        ensures Running(start, last)
      {
        NothingYet(hour, start, last);
      }
    }

    method InsertMetrics(row: Row)
      requires Valid()
      modifies this`raw, this`inserted
      ensures Valid()
      ensures var stored := Row(row.key.(account := if row.key.account == "" then "default" else row.key.account),
                Derived(row.c));
              raw == old(raw) + [stored] && inserted == old(inserted) + [stored]
      ensures var given, c := row.c, raw[|old(raw)|].c;
              && c.requests == (if given.requests != 0 then given.requests else given.success + given.failed)
              && c.success == (if given.success != 0 || c.requests <= 0 then given.success
                               else c.requests - given.failed)
              && c.responseTimeCount == (if given.responseTimeCount != 0 || c.requests <= 0
                                         then given.responseTimeCount else c.requests)
              && c == given.(requests := c.requests, success := c.success, responseTimeCount := c.responseTimeCount)
    {
      var key := row.key;
      if key.account == "" {
        key := key.(account := "default");
      }
      var stored := Row(key, Derived(row.c));
      KeptAppend(raw, stored, horizon);
      KeptAppend(inserted, stored, horizon);
      raw := raw + [stored];
      inserted := inserted + [stored];
    }

    /** Where a window without a start begins. */
    function DefaultFrom(target: Granularity, to: int): int {
      match target
      case Hourly => to - DAY
      case Daily => to - 7 * DAY
      case _ => monthBack(to)
    }

    /** One aggregation; raw data is no target. Hours are grouped by bucket; days and months are not, because their
        source has a column of the bucket's name, and `order` is the order in which its rows were put. */
    method AggregateMetrics(account: string, target: Granularity, from: Option<int>, to: Option<int>, now: int)
      returns (ok: bool, order: seq<Row>)
      requires Valid()
      modifies this`hourly, this`daily, this`monthly
      ensures Valid() && (ok <==> target != Raw)
      ensures !target.Hourly? ==> hourly == old(hourly)
      ensures !target.Daily? ==> daily == old(daily)
      ensures !target.Monthly? ==> monthly == old(monthly)
      ensures var hi := if to.Some? then to.value else now;
              var lo := if from.Some? then from.value else if target.Hourly? then hi - DAY
                        else if target.Daily? then hi - 7 * DAY else monthBack(hi);
              && (target.Hourly? ==>
                    && hourly == Aggregated(old(hourly), raw, account, hour, lo, hi)
                    && forall r :: r in hourly <==>
                                     if Touched(raw, account, hour, lo, hi, r.key)
                                     then r.c == Sum(raw, account, hour, lo, hi, r.key) else r in old(hourly))
              && (target.Daily? ==>
                    && Arranges(order, Select(hourly, account, lo, hi)) && daily == Overwritten(old(daily), order, day)
                    && forall r :: r in daily <==> LeftBy(old(daily), order, day, r))
              && (target.Monthly? ==>
                    && Arranges(order, Select(daily, account, lo, hi))
                    && monthly == Overwritten(old(monthly), order, month)
                    && forall r :: r in monthly <==> LeftBy(old(monthly), order, month, r))
    {
      hide IsUnit, Coarser, Evenly, Unique, Retains, Aligned;
      order := [];
      if target.Raw? {
        return false, order;
      }
      var hi := if to.Some? then to.value else now;
      var lo := if from.Some? then from.value else DefaultFrom(target, hi);
      match target {
        case Hourly =>
          AggregatedRows(hourly, raw, account, hour, lo, hi);
          var groups := Group(Select(raw, account, lo, hi), hour);
          hourly := UpsertAll(hourly, groups);
        case Daily =>
          daily, order := OverwriteAll(daily, hourly, account, lo, hi, day);
        case Monthly =>
          monthly, order := OverwriteAll(monthly, daily, account, lo, hi, month);
      }
      ok := true;
    }

    /** The hourly job: raw to hours for the last two hours, hours to days for yesterday, days to months for
        last month, in this order. */
    method RunAggregation(now: int) returns (days: seq<Row>, months: seq<Row>)
      requires Valid()
      modifies this`hourly, this`daily, this`monthly
      ensures Valid()
      ensures hourly == Aggregated(old(hourly), raw, "", hour, now - 2 * HOUR, now)
      ensures Arranges(days, Select(hourly, "", day(now) - DAY, day(now)))
      ensures daily == Overwritten(old(daily), days, day)
      ensures Arranges(months, Select(daily, "", monthBack(month(now)), month(now)))
      ensures monthly == Overwritten(old(monthly), months, month)
      ensures var to := day(now); var from := to - DAY;
              Summarizes(hourly, inserted, hour, from, to) && NoOrphans(old(daily), hourly, day, from, to) ==>
                (Summarizes(daily, inserted, day, from, to) <==> Lossless(days, day))
      ensures var to := month(now); var from := monthBack(to);
              NoOrphans(old(monthly), daily, month, from, to) ==>
                (Summarizes(monthly, daily, month, from, to) <==> Lossless(months, month))
    {
      hide Summarizes, NoOrphans, Overwritten, Arranges, IsUnit, Coarser, Aligned, Evenly, Unique, Aggregated, Select,
        LeftBy, Touched, Sum, Retains, Lossless;
      var _, _ := AggregateMetrics("", Hourly, Some(now - 2 * HOUR), Some(now), now);
      var yesterdayStart := day(now) - DAY;
      var todayStart := day(now);
      var ok;
      ok, days := AggregateMetrics("", Daily, Some(yesterdayStart), Some(todayStart), now);
      if Summarizes(hourly, inserted, hour, yesterdayStart, todayStart)
         && NoOrphans(old(daily), hourly, day, yesterdayStart, todayStart) {
        YesterdayIsComplete(old(daily), hourly, inserted, days, hour, day, now);
      }
      var currentMonthStart := month(now);
      var lastMonthStart := monthBack(currentMonthStart);
      ok, months := AggregateMetrics("", Monthly, Some(lastMonthStart), Some(currentMonthStart), now);
      if NoOrphans(old(monthly), daily, month, lastMonthStart, currentMonthStart) {
        LastMonthIsComplete(old(monthly), daily, inserted, months, day, month, monthBack, now);
      }
    }

    /** The retention job. */
    method CleanupMetrics(account: string, now: int)
      requires Valid()
      modifies this`raw, this`hourly, this`daily, this`horizon
      ensures Valid() && horizon == if now - 7 * DAY > old(horizon) then now - 7 * DAY else old(horizon)
      ensures raw == Kept(old(raw), account, now - 7 * DAY)
      ensures hourly == Kept(old(hourly), account, now - 30 * DAY)
      ensures daily == Kept(old(daily), account, now - 365 * DAY)
      ensures forall r :: r in raw <==> r in old(raw) && Keeps(account, now - 7 * DAY)(r.key)
      ensures forall r :: r in hourly <==> r in old(hourly) && Keeps(account, now - 30 * DAY)(r.key)
      ensures forall r :: r in daily <==> r in old(daily) && Keeps(account, now - 365 * DAY)(r.key)
    {
      hide Kept, Keeps, IsUnit, Coarser, Unique, Retains, Aligned, Evenly;
      CleanupRetains(raw, inserted, horizon, account, now - 7 * DAY);
      raw := DeleteOlder(raw, account, now - 7 * DAY);
      hourly := DeleteOlder(hourly, account, now - 30 * DAY);
      daily := DeleteOlder(daily, account, now - 365 * DAY);
      if now - 7 * DAY > horizon {
        horizon := now - 7 * DAY;
      }
    }

    /** Rows of the hour after `last`, and late ones of the hour before, arrive. */
    method Receive(rows: seq<Row>, ghost start: int, last: int)
      requires Valid() && HoursComplete(start, last)
      requires forall r :: r in raw ==> r.key.at < last + HOUR
      requires forall r :: r in rows ==> Within(last - HOUR, last + HOUR, r.key.at)
      modifies this`raw, this`inserted
      ensures Valid() && HoursComplete(start, last)
      ensures forall r :: r in raw ==> r.key.at < last + HOUR
    {
      hide BucketsComplete, Retains, Kept, IsUnit, Coarser, Unique, Derived, Evenly;
      for k := 0 to |rows|
        invariant Valid() && HoursComplete(start, last)
        invariant forall r :: r in raw ==> r.key.at < last + HOUR
      {
        assert rows[k] in rows;
        ghost var before, more := inserted, raw;
        InsertMetrics(rows[k]);
        InsertKeepsBuckets(hour, hourly, before, start, last - HOUR, last, inserted[|before|]);
        assert forall r :: r in raw <==> r in more || r == raw[|more|];
      }
    }

    /** One hour of operation: rows of this hour and late ones of the hour before arrive, the hourly job runs on the
        hour and, perhaps, the retention job at some moment before the next run. Yesterday is complete after the run
        exactly when its day statement lost nothing. */
    method RunHour(tick: Tick, ghost start: int, last: int) returns (days: seq<Row>)
      requires Valid() && Running(start, last)
      requires forall r :: r in tick.rows ==> Within(last - HOUR, last + HOUR, r.key.at)
      requires tick.cleanup.Some? ==> Within(last + HOUR, last + 2 * HOUR, tick.cleanup.value)
      modifies this
      ensures Valid() && Running(Since(hour, start, tick), last + HOUR)
      ensures Summarizes(hourly, inserted, hour, Since(hour, start, tick), last + HOUR)
      ensures var to := day(last + HOUR); var from := to - DAY;
              start <= from ==> (Summarizes(daily, inserted, day, from, to) <==> Lossless(days, day))
    {
      hide Aggregated, Overwritten, Arranges, Select, Summarizes, BucketsComplete, Retains, Kept, IsUnit, Coarser,
        Unique, Keeps, Aligned, NoOrphans, Grounded, Lossless, Evenly;
      Receive(tick.rows, start, last);
      Boundaries(hour, hourly, inserted, start, last - HOUR, last);
      Neighbours(hour, HOUR, last);
      NextBucket(hour, hourly, raw, inserted, horizon, start, last - HOUR, last, last + HOUR);
      ghost var hours, earlier := hourly, daily;
      var months;
      days, months := RunAggregation(last + HOUR);
      DaysFollowHours(earlier, hours, hourly, raw, inserted, days, hour, day, start, last + HOUR);
      if tick.cleanup.Some? {
        AfterCleanup(daily, hourly, inserted, hour, day, start, last, tick);
        CleanupMetrics("", tick.cleanup.value);
      }
    }

    /** Hours of operation in a row: with the job on every full hour, all hours since the start that retention has not
        reached are complete with respect to everything ever inserted, and yesterday is complete exactly when the
        day statement of the last run lost nothing. */
    method RunHours(ticks: seq<Tick>, ghost start: int, last: int) returns (now: int, days: seq<Row>)
      requires Valid() && Running(start, last)
      requires forall k, r :: 0 <= k < |ticks| && r in ticks[k].rows ==>
                                Within(Later(last, k) - HOUR, Later(last, k) + HOUR, r.key.at)
      requires forall k :: 0 <= k < |ticks| && ticks[k].cleanup.Some? ==>
                             Within(Later(last, k) + HOUR, Later(last, k) + 2 * HOUR, ticks[k].cleanup.value)
      modifies this
      ensures Valid() && now == Later(last, |ticks|) && Running(SinceAll(hour, start, ticks), now)
      ensures ticks != [] ==> Summarizes(hourly, inserted, hour, SinceAll(hour, start, ticks), now)
      ensures var to := day(now); var from := to - DAY;
              ticks != [] && start <= from ==> (Summarizes(daily, inserted, day, from, to) <==> Lossless(days, day))
    {
      hide Summarizes, BucketsComplete, Retains, Evenly, IsUnit, Coarser, Running, Lossless, Since;
      now, days := last, [];
      ghost var since := start;
      for k := 0 to |ticks|
        invariant Valid() && now == Later(last, k) && since == SinceAll(hour, start, ticks[..k]) && Running(since, now)
        invariant since == start || since < now - 29 * DAY
        invariant k > 0 ==> Summarizes(hourly, inserted, hour, since, now)
        invariant k > 0 && start <= day(now) - DAY ==>
                    (Summarizes(daily, inserted, day, day(now) - DAY, day(now)) <==> Lossless(days, day))
      {
        assert ticks[..k + 1][..k] == ticks[..k];
        InsideBucket(day, DAY, now + HOUR);
        SinceIsEarly(hour, since, ticks[k], now);
        days := RunHour(ticks[k], since, now);
        since, now := Since(hour, since, ticks[k]), now + HOUR;
      }
      assert ticks[..|ticks|] == ticks;
    }
  }

  /** What arrives in one hour, and when the retention job runs after it, if it does. */
  datatype Tick = Tick(rows: seq<Row>, cleanup: Option<int>)

  /** Since when the hours are complete if they were since `start`: retention takes away what is older than its
      cut-off. */
  function Since(hour: int -> int, start: int, tick: Tick): int {
    match tick.cleanup
    case None => start
    case Some(moment) =>
      var kept := Boundary(hour, HOUR, moment - 30 * DAY);
      if kept > start then kept else start
  }

  function SinceAll(hour: int -> int, start: int, ticks: seq<Tick>): int {
    if ticks == [] then start
    else Since(hour, SinceAll(hour, start, ticks[..|ticks| - 1]), ticks[|ticks| - 1])
  }

  /** `n` hours after `t`. */
  function Later(t: int, n: nat): int {
    if n == 0 then t else Later(t, n - 1) + HOUR
  }

  lemma SinceIsEarly(hour: int -> int, start: int, tick: Tick, last: int)
    requires IsUnit(hour) && Evenly(hour, HOUR)
    requires tick.cleanup.Some? ==> Within(last + HOUR, last + 2 * HOUR, tick.cleanup.value)
    ensures Since(hour, start, tick) == start || start < Since(hour, start, tick) < last + HOUR - 29 * DAY
    ensures Aligned(hour, start) ==> Aligned(hour, Since(hour, start, tick))
    ensures tick.cleanup.Some? ==> tick.cleanup.value - 30 * DAY <= Since(hour, start, tick)
  {
    hide IsUnit, Evenly, Aligned;
    if tick.cleanup.Some? {
      BoundaryIsNext(hour, HOUR, tick.cleanup.value - 30 * DAY);
    }
  }

  /** The run at `now` leaves the days grounded in the hours, and what its day step needs holds. */
  lemma DaysFollowHours(
    daily: seq<Row>, hours: seq<Row>, hourly: seq<Row>, raw: seq<Row>, inserted: seq<Row>, days: seq<Row>,
    hour: int -> int, day: int -> int, start: int, now: int)
    requires IsUnit(day) && Evenly(day, DAY) && Unique(daily) && Unique(hours) && Grounded(daily, hours, day, start)
    requires hourly == Aggregated(hours, raw, "", hour, now - 2 * HOUR, now)
             && Summarizes(hourly, inserted, hour, start, now)
    requires Arranges(days, Select(hourly, "", day(now) - DAY, day(now)))
    ensures Grounded(Overwritten(daily, days, day), hourly, day, start)
    ensures var to := day(now); var from := to - DAY;
            start <= from ==> Summarizes(hourly, inserted, hour, from, to) && NoOrphans(daily, hourly, day, from, to)
  {
    hide IsUnit, Evenly, Unique, Grounded, Aggregated, Summarizes, Arranges, Select, Overwritten, NoOrphans, Aligned;
    GroundedAfterAggregation(daily, hours, raw, hour, day, now - 2 * HOUR, now, start);
    GroundedAfterOverwriting(daily, hourly, days, day, day(now) - DAY, day(now), start);
    InsideBucket(day, DAY, now);
    Neighbours(day, DAY, day(now));
    if start <= day(now) - DAY {
      SummaryWithin(hourly, inserted, hour, start, now, day(now) - DAY, day(now));
      GroundedIsNoOrphan(daily, hourly, day, start, day(now) - DAY, day(now));
    }
  }

  lemma Neighbours(u: int -> int, length: int, t: int)
    requires Evenly(u, length) && Aligned(u, t)
    ensures Aligned(u, t - length) && Aligned(u, t + length)
  {
  }

  /** What retention leaves after the run at `last + HOUR`. */
  lemma AfterCleanup(
    daily: seq<Row>, hourly: seq<Row>, inserted: seq<Row>, hour: int -> int, day: int -> int, start: int, last: int,
    tick: Tick)
    requires IsUnit(hour) && IsUnit(day) && Evenly(hour, HOUR) && Evenly(day, DAY) && Unique(daily)
    requires tick.cleanup.Some? && Within(last + HOUR, last + 2 * HOUR, tick.cleanup.value)
    requires BucketsComplete(hour, hourly, inserted, start, last, last + HOUR)
    requires Summarizes(hourly, inserted, hour, start, last + HOUR) && Grounded(daily, hourly, day, start)
    ensures var since, moment := Since(hour, start, tick), tick.cleanup.value;
            && BucketsComplete(hour, Kept(hourly, "", moment - 30 * DAY), inserted, since, last, last + HOUR)
            && Summarizes(Kept(hourly, "", moment - 30 * DAY), inserted, hour, since, last + HOUR)
            && Grounded(Kept(daily, "", moment - 365 * DAY), Kept(hourly, "", moment - 30 * DAY), day, since)
    ensures var to := day(last + HOUR); var from := to - DAY;
            Summarizes(Kept(daily, "", tick.cleanup.value - 365 * DAY), inserted, day, from, to) <==>
            Summarizes(daily, inserted, day, from, to)
  {
    hide IsUnit, Evenly, Unique, Grounded, Summarizes, BucketsComplete, Kept, Since, Aligned;
    var since, moment := Since(hour, start, tick), tick.cleanup.value;
    SinceIsEarly(hour, start, tick, last);
    Boundaries(hour, hourly, inserted, start, last, last + HOUR);
    LaterStart(hour, hourly, inserted, start, last, last + HOUR, since);
    SummaryWithin(hourly, inserted, hour, start, last + HOUR, since, last + HOUR);
    CleanupKeepsBuckets(hour, hourly, inserted, since, last, last + HOUR, "", moment - 30 * DAY);
    CleanupKeepsSummary(hourly, inserted, hour, since, last + HOUR, "", moment - 30 * DAY);
    GroundedAfterCleanup(daily, hourly, day, start, moment - 365 * DAY, moment - 30 * DAY, since);
    InsideBucket(day, DAY, last + HOUR);
    Neighbours(day, DAY, day(last + HOUR));
    CleanupBeforeWindow(daily, inserted, day, day(last + HOUR) - DAY, day(last + HOUR), moment - 365 * DAY);
  }

  lemma LaterStart(
    u: int -> int, level: seq<Row>, inserted: seq<Row>, start: int, prev: int, last: int, since: int)
    requires BucketsComplete(u, level, inserted, start, prev, last) && Aligned(u, since) && start <= since <= prev
    ensures BucketsComplete(u, level, inserted, since, prev, last)
  {
  }

  /** What the day or month statement leaves under one key. */
  predicate LeftBy(dst: seq<Row>, order: seq<Row>, v: int -> int, r: Row) {
    match LastPut(order, v, r.key)
    case None => r in dst
    case Some(s) => r.c == s.c
  }

  // ---------- executing the statements ----------

  /** One pass over the selected rows, summing by bucket. */
  method Group(rows: seq<Row>, u: int -> int) returns (groups: seq<Row>)
    ensures groups == GroupBy(rows, u)
  {
    groups := [];
    for k := 0 to |rows|
      invariant groups == GroupBy(rows[..k], u)
    {
      assert rows[..k + 1][..k] == rows[..k];
      groups := Add(groups, Bucket(u, rows[k].key), rows[k].c);
    }
    assert rows[..|rows|] == rows;
  }

  method UpsertAll(table: seq<Row>, groups: seq<Row>) returns (after: seq<Row>)
    ensures after == Upsert(table, groups)
  {
    after := table;
    for k := 0 to |groups|
      invariant after == Upsert(table, groups[..k])
    {
      assert groups[..k + 1][..k] == groups[..k];
      after := Put(after, groups[k]);
    }
    assert groups[..|groups|] == groups;
  }

  /** The selected rows put one after the other, in any order. */
  method OverwriteAll(table: seq<Row>, src: seq<Row>, account: string, lo: int, hi: int, v: int -> int)
    returns (after: seq<Row>, order: seq<Row>)
    requires Unique(table) && Unique(src)
    ensures Arranges(order, Select(src, account, lo, hi)) && after == Overwritten(table, order, v) && Unique(after)
    ensures forall r :: r in after <==> LeftBy(table, order, v, r)
  {
    hide Overwritten, Put, LastPut, Bucket, Select, Unique;
    var rows := Select(src, account, lo, hi);
    SelectRows(src, account, lo, hi);
    NothingPut(table, v);
    after, order := table, [];
    var left := set r | r in rows;
    while left != {}
      invariant after == Overwritten(table, order, v)
      invariant Unique(order) && forall r :: r in order <==> r in rows && r !in left
      invariant forall r :: r in left ==> r in rows
      decreases |left|
    {
      var r :| r in left;
      KeyInRows(rows, r);
      NewKey(order, rows, r);
      OneMorePut(table, order, v, r);
      left := left - {r};
      after := Put(after, Row(Bucket(v, r.key), r.c));
      order := order + [r];
    }
    OverwrittenRows(table, order, v);
  }

  lemma NothingPut(table: seq<Row>, v: int -> int)
    ensures Overwritten(table, [], v) == table && Unique([])
  {
  }

  lemma OneMorePut(table: seq<Row>, order: seq<Row>, v: int -> int, r: Row)
    ensures Overwritten(table, order + [r], v) == Put(Overwritten(table, order, v), Row(Bucket(v, r.key), r.c))
  {
    assert (order + [r])[..|order|] == order;
  }

  lemma NewKey(order: seq<Row>, rows: seq<Row>, r: Row)
    requires Unique(order) && r !in order && forall x :: x in order ==> x in rows
    requires forall x :: x in rows && x.key == r.key ==> x == r
    ensures Unique(order + [r]) && forall x :: x in order + [r] <==> x in order || x == r
  {
    forall i | 0 <= i < |order|
      ensures order[i].key != r.key
    {
      assert order[i] in order;
    }
  }

  method DeleteOlder(rows: seq<Row>, account: string, cutoff: int) returns (kept: seq<Row>)
    ensures kept == Kept(rows, account, cutoff)
    ensures Unique(rows) ==> Unique(kept)
    ensures forall r :: r in kept <==> r in rows && Keeps(account, cutoff)(r.key)
  {
    kept := [];
    for k := 0 to |rows|
      invariant kept == Kept(rows[..k], account, cutoff)
    {
      assert rows[..k + 1][..k] == rows[..k];
      if rows[k].key.at >= cutoff || (account != "" && rows[k].key.account != account) {
        kept := kept + [rows[k]];
      }
    }
    assert rows[..|rows|] == rows;
    KeptRows(rows, account, cutoff);
  }

  // ---------- what the job's day and month steps achieve ----------

  /** The job's day step makes yesterday the sum of everything inserted for it exactly when it loses nothing,
      provided the hours of yesterday are complete, as the hours of a running job are. */
  lemma YesterdayIsComplete(
    daily: seq<Row>, hourly: seq<Row>, inserted: seq<Row>, order: seq<Row>, hour: int -> int, day: int -> int, now: int)
    requires IsUnit(hour) && IsUnit(day) && Coarser(hour, day) && Evenly(day, DAY)
    requires var to := day(now); var from := to - DAY;
             && Summarizes(hourly, inserted, hour, from, to) && Arranges(order, Select(hourly, "", from, to))
             && Unique(daily) && NoOrphans(daily, hourly, day, from, to)
    ensures var to := day(now); var from := to - DAY;
            Summarizes(Overwritten(daily, order, day), inserted, day, from, to) <==> Lossless(order, day)
  {
    hide IsUnit, Coarser, Summarizes, NoOrphans, Overwritten, Lossless, Unique, Arranges, Aligned, Select;
    StartIsAligned(day, now);
    SummaryIsUnique(hourly, inserted, hour, day(now) - DAY, day(now));
    RollUp(daily, hourly, inserted, order, hour, day, day(now) - DAY, day(now));
  }

  lemma StartIsAligned(u: int -> int, t: int)
    requires IsUnit(u)
    ensures Aligned(u, u(t))
  {
  }

  lemma SummaryIsUnique(dst: seq<Row>, src: seq<Row>, u: int -> int, from: int, to: int)
    requires Summarizes(dst, src, u, from, to)
    ensures Unique(dst)
  {
  }

  /** Its month step makes last month the sum of the days it reads exactly when it loses nothing; if those days
      are complete, it is the sum of everything inserted for the month exactly then. */
  lemma LastMonthIsComplete(
    monthly: seq<Row>, daily: seq<Row>, inserted: seq<Row>, order: seq<Row>, day: int -> int, month: int -> int,
    monthBack: int -> int, now: int)
    requires IsUnit(day) && IsUnit(month) && Coarser(day, month) && Unique(daily) && Unique(monthly)
    requires forall t :: Aligned(month, t) ==> monthBack(t) < t && Aligned(month, monthBack(t))
    requires var to := month(now); var from := monthBack(to);
             NoOrphans(monthly, daily, month, from, to) && Arranges(order, Select(daily, "", from, to))
    ensures var to := month(now); var from := monthBack(to);
            Summarizes(Overwritten(monthly, order, month), daily, month, from, to) <==> Lossless(order, month)
    ensures var to := month(now); var from := monthBack(to);
            Summarizes(daily, inserted, day, from, to) ==>
              (Summarizes(Overwritten(monthly, order, month), inserted, month, from, to) <==> Lossless(order, month))
  {
    hide IsUnit, Coarser, Summarizes, NoOrphans, Overwritten, Lossless, Unique, Arranges, Covers, Aligned,
      Select;
    StartIsAligned(month, now);
    AlignedCovers(daily, month, month(now));
    OverwriteSummarizes(monthly, daily, order, month, monthBack(month(now)), month(now));
    if Summarizes(daily, inserted, day, monthBack(month(now)), month(now)) {
      RollUp(monthly, daily, inserted, order, day, month, monthBack(month(now)), month(now));
    }
  }

  /** The job's hour step is exact for every possible table only if the job runs at a full hour. */
  lemma HourlyRunIsExact(now: int)
    ensures Aligned(HourOf, now) <==>
            forall src: seq<Row> | Covers(src, HourOf, now) :: Exact(src, HourOf, now - 2 * HOUR, now)
  {
    HoursAndDays();
    ExactIffAligned(HourOf, now - 2 * HOUR, now);
    TwoHoursEarlier(now);
  }

  lemma TwoHoursEarlier(now: int)
    ensures Aligned(HourOf, now) <==> Aligned(HourOf, now - 2 * HOUR)
  {
  }
}
