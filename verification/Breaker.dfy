/** The per-node circuit breaker: a pure state machine, the theorems about all of its runs,
    and the class that updates its fields in place and is proved to follow the state machine.
    Times are nanoseconds; the failure rate is an exact real. */
module Breaker {

  datatype Config = Config(
    enabled: bool,
    windowSeconds: int,
    failureRate: real,
    consecutiveFails: int,
    cooldownSeconds: int,
    halfOpenMaxCalls: int)

  const SECOND: int := 1_000_000_000

  ghost predicate Legal(cfg: Config) {
    && cfg.windowSeconds > 0
    && 0.0 < cfg.failureRate <= 1.0
    && cfg.consecutiveFails > 0
    && cfg.cooldownSeconds > 0
    && cfg.halfOpenMaxCalls > 0
  }

  /** Every out-of-range field, and only such a field, is replaced by its default. */
  function ApplyDefaults(cfg: Config): (r: Config)
    ensures Legal(r)
    ensures r.enabled == cfg.enabled
    ensures Legal(cfg) ==> r == cfg
  {
    cfg.(
    windowSeconds := if cfg.windowSeconds <= 0 then 60 else cfg.windowSeconds,
    failureRate := if cfg.failureRate <= 0.0 || cfg.failureRate > 1.0 then 0.5 else cfg.failureRate,
    consecutiveFails := if cfg.consecutiveFails <= 0 then 5 else cfg.consecutiveFails,
    cooldownSeconds := if cfg.cooldownSeconds <= 0 then 30 else cfg.cooldownSeconds,
    halfOpenMaxCalls := if cfg.halfOpenMaxCalls <= 0 then 3 else cfg.halfOpenMaxCalls)
  }

  datatype Phase = Closed | Open | HalfOpen

  datatype Outcome = Outcome(at: int, failed: bool)

  datatype State = State(
    phase: Phase,
    requests: seq<Outcome>,
    consecutiveFails: nat,
    changedAt: int,
    halfOpenCalls: int,
    halfOpenSuccess: int)

  function Fresh(now: int): State {
    State(Closed, [], 0, now, 0, 0)
  }

  function Failures(rs: seq<Outcome>): nat {
    if rs == [] then 0 else (if rs[0].failed then 1 else 0) + Failures(rs[1..])
  }

  /** Drops the longest prefix of records older than `start`. */
  function TrimExpired(rs: seq<Outcome>, start: int): seq<Outcome> {
    if rs == [] || rs[0].at >= start then rs else TrimExpired(rs[1..], start)
  }

  predicate ShouldOpen(cfg: Config, consecutiveFails: int, rs: seq<Outcome>) {
    || consecutiveFails >= cfg.consecutiveFails
    || (rs != [] && Failures(rs) as real >= cfg.failureRate * |rs| as real)
  }

  function Transition(s: State, next: Phase, now: int): State {
    if s.phase == next then s else s.(phase := next, changedAt := now)
  }

  /** What AllowRequest answers in state `s`. */
  predicate Grants(cfg: Config, s: State, now: int) {
    !cfg.enabled ||
    match s.phase
    case Closed => true
    case Open => now - s.changedAt >= cfg.cooldownSeconds * SECOND
    case HalfOpen => s.halfOpenCalls < cfg.halfOpenMaxCalls
  }

  function Allow(cfg: Config, s: State, now: int): State {
    if !cfg.enabled || !Grants(cfg, s, now) then s
    else
      match s.phase
      case Closed => s
      case Open => Transition(s, HalfOpen, now).(halfOpenCalls := 1, halfOpenSuccess := 0)
      case HalfOpen => s.(halfOpenCalls := s.halfOpenCalls + 1)
  }

  function Record(cfg: Config, s: State, success: bool, now: int): State {
    if !cfg.enabled then s
    else
      var s1 := s.(
                requests := TrimExpired(s.requests + [Outcome(now, !success)], now - cfg.windowSeconds * SECOND),
                consecutiveFails := if success then 0 else s.consecutiveFails + 1);
      match s.phase
      case Closed =>
        if ShouldOpen(cfg, s1.consecutiveFails, s1.requests) then Transition(s1, Open, now) else s1
      case Open => s1
      case HalfOpen =>
        var s2 := if success then s1.(halfOpenSuccess := s1.halfOpenSuccess + 1) else s1;
        if s2.halfOpenCalls < cfg.halfOpenMaxCalls then s2
        else if s2.halfOpenSuccess >= cfg.halfOpenMaxCalls then
          Transition(s2, Closed, now).(consecutiveFails := 0, requests := [])
        else Transition(s2, Open, now)
  }

  // ---------- runs ----------

  datatype Event = Ask(at: int) | Result(success: bool, at: int) | Clear(at: int)

  function Step(cfg: Config, s: State, e: Event): State {
    match e
    case Ask(now) => Allow(cfg, s, now)
    case Result(success, now) => Record(cfg, s, success, now)
    case Clear(now) => Fresh(now)
  }

  function Run(cfg: Config, s: State, es: seq<Event>): State {
    if es == [] then s else Step(cfg, Run(cfg, s, es[..|es| - 1]), es[|es| - 1])
  }

  predicate Recovers(cfg: Config, s: State, e: Event) {
    e.Result? && s.phase.HalfOpen? && Step(cfg, s, e).phase.Closed?
  }

  /** The outcomes reported since the last clear: creation, an explicit reset, or a recovery. */
  function SinceClear(cfg: Config, s: State, es: seq<Event>): seq<Outcome> {
    if es == [] then []
    else
      var before, e := Run(cfg, s, es[..|es| - 1]), es[|es| - 1];
      if e.Clear? || Recovers(cfg, before, e) then []
      else if e.Result? then SinceClear(cfg, s, es[..|es| - 1]) + [Outcome(e.at, !e.success)]
      else SinceClear(cfg, s, es[..|es| - 1])
  }

  ghost predicate Monotone(es: seq<Event>) {
    forall i, j :: 0 <= i < j < |es| ==> es[i].at <= es[j].at
  }

  /** The records of `rs` that are not older than `start`, in order. */
  function Recent(rs: seq<Outcome>, start: int): seq<Outcome> {
    if rs == [] then []
    else (if rs[0].at >= start then [rs[0]] else []) + Recent(rs[1..], start)
  }

  function TrailingFails(rs: seq<Outcome>): nat {
    if rs == [] || !rs[|rs| - 1].failed then 0 else 1 + TrailingFails(rs[..|rs| - 1])
  }

  ghost predicate Sorted(rs: seq<Outcome>) {
    forall i, j :: 0 <= i < j < |rs| ==> rs[i].at <= rs[j].at
  }

  lemma {:induction false} RecentAppend(a: seq<Outcome>, b: seq<Outcome>, start: int)
    ensures Recent(a + b, start) == Recent(a, start) + Recent(b, start)
  {
    if a == [] {
      assert a + b == b;
    } else {
      assert (a + b)[1..] == a[1..] + b;
      RecentAppend(a[1..], b, start);
      var first := if a[0].at >= start then [a[0]] else [];
      assert first + (Recent(a[1..], start) + Recent(b, start)) == first + Recent(a[1..], start) + Recent(b, start);
    }
  }

  lemma {:induction false} RecentAll(rs: seq<Outcome>, start: int)
    requires forall i :: 0 <= i < |rs| ==> rs[i].at >= start
    ensures Recent(rs, start) == rs
  {
    if rs != [] {
      RecentAll(rs[1..], start);
    }
  }

  lemma {:induction false} RecentTwice(rs: seq<Outcome>, early: int, late: int)
    requires early <= late
    ensures Recent(Recent(rs, early), late) == Recent(rs, late)
  {
    if rs != [] {
      RecentTwice(rs[1..], early, late);
      RecentAppend(if rs[0].at >= early then [rs[0]] else [], Recent(rs[1..], early), late);
    }
  }

  lemma {:induction false} RecentMembers(rs: seq<Outcome>, start: int)
    ensures forall r :: r in Recent(rs, start) ==> r in rs
  {
    if rs != [] {
      RecentMembers(rs[1..], start);
    }
  }

  lemma {:induction false} RecentSorted(rs: seq<Outcome>, start: int)
    requires Sorted(rs)
    ensures Sorted(Recent(rs, start))
  {
    if rs != [] {
      RecentSorted(rs[1..], start);
      RecentMembers(rs[1..], start);
      assert forall r :: r in rs[1..] ==> rs[0].at <= r.at;
    }
  }

  /** On a time-ordered log, dropping the expired prefix is keeping the unexpired records. */
  lemma {:induction false} TrimIsRecent(rs: seq<Outcome>, start: int)
    requires Sorted(rs)
    ensures TrimExpired(rs, start) == Recent(rs, start)
  {
    if rs != [] {
      if rs[0].at >= start {
        RecentAll(rs, start);
      } else {
        TrimIsRecent(rs[1..], start);
      }
    }
  }

  lemma {:induction false} SinceClearTimes(cfg: Config, s: State, es: seq<Event>)
    requires Monotone(es)
    ensures Sorted(SinceClear(cfg, s, es))
    ensures forall r :: r in SinceClear(cfg, s, es) ==> es != [] && r.at <= es[|es| - 1].at
  {
    if es != [] {
      SinceClearTimes(cfg, s, es[..|es| - 1]);
    }
  }

  /** The window the breaker stores: the outcomes since the last clear that were inside the
      window at the latest of them. */
  function Window(cfg: Config, h: seq<Outcome>): seq<Outcome> {
    if h == [] then [] else Recent(h, h[|h| - 1].at - cfg.windowSeconds * SECOND)
  }

  /** In every run with a non-decreasing clock the sliding window and the failure counter are
      exactly the recent outcomes and the trailing failures since the last clear. */
  lemma {:induction false} WindowIsHistory(cfg: Config, start: int, es: seq<Event>)
    requires Legal(cfg) && cfg.enabled && Monotone(es)
    ensures var s, h := Run(cfg, Fresh(start), es), SinceClear(cfg, Fresh(start), es);
            s.requests == Window(cfg, h) && s.consecutiveFails == TrailingFails(h)
  {
    if es != [] {
      var es0, e := es[..|es| - 1], es[|es| - 1];
      WindowIsHistory(cfg, start, es0);
      var s, h := Run(cfg, Fresh(start), es0), SinceClear(cfg, Fresh(start), es0);
      SinceClearTimes(cfg, Fresh(start), es0);
      if e.Result? {
        WindowRecorded(cfg, s, h, e);
      }
    }
  }

  lemma {:induction false} WindowRecorded(cfg: Config, s: State, h: seq<Outcome>, e: Event)
    requires Legal(cfg) && cfg.enabled && e.Result?
    requires Sorted(h) && forall x :: x in h ==> x.at <= e.at
    requires s.requests == Window(cfg, h) && s.consecutiveFails == TrailingFails(h)
    ensures var h1 := if Recovers(cfg, s, e) then [] else h + [Outcome(e.at, !e.success)];
            Step(cfg, s, e).requests == Window(cfg, h1) && Step(cfg, s, e).consecutiveFails == TrailingFails(h1)
  {
    hide Recent, Window;
    WindowStep(cfg, h, Outcome(e.at, !e.success));
    NoWindow(cfg);
  }

  lemma NoWindow(cfg: Config)
    ensures Window(cfg, []) == [] && TrailingFails([]) == 0
  {
  }

  lemma {:induction false} WindowStep(cfg: Config, h: seq<Outcome>, r: Outcome)
    requires Legal(cfg) && Sorted(h) && forall x :: x in h ==> x.at <= r.at
    ensures TrimExpired(Window(cfg, h) + [r], r.at - cfg.windowSeconds * SECOND) == Window(cfg, h + [r])
    ensures TrailingFails(h + [r]) == if r.failed then TrailingFails(h) + 1 else 0
  {
    assert (h + [r])[..|h|] == h;
    if h == [] {
      assert h + [r] == [r] && Window(cfg, h) + [r] == [r];
      RecentAll([r], r.at - cfg.windowSeconds * SECOND);
    } else {
      TrimAppended(h, r, h[|h| - 1].at - cfg.windowSeconds * SECOND, r.at - cfg.windowSeconds * SECOND);
    }
  }

  lemma TrimAppended(h: seq<Outcome>, r: Outcome, early: int, late: int)
    requires Sorted(h) && (forall x :: x in h ==> x.at <= r.at) && early <= late
    ensures TrimExpired(Recent(h, early) + [r], late) == Recent(h + [r], late)
  {
    RecentSorted(h, early);
    RecentMembers(h, early);
    TrimIsRecent(Recent(h, early) + [r], late);
    RecentAppend(Recent(h, early), [r], late);
    RecentTwice(h, early, late);
    RecentAppend(h, [r], late);
  }

  /** In every reachable state a closed breaker is below both of its opening limits. */
  lemma {:induction false} ClosedIsBelowLimits(cfg: Config, start: int, es: seq<Event>)
    requires Legal(cfg) && cfg.enabled
    ensures var s := Run(cfg, Fresh(start), es);
            s.phase.Closed? ==> !ShouldOpen(cfg, s.consecutiveFails, s.requests)
  {
    if es != [] {
      ClosedIsBelowLimits(cfg, start, es[..|es| - 1]);
    }
  }

  lemma {:induction false} EmptyHistoryIsClosed(cfg: Config, start: int, es: seq<Event>)
    requires Legal(cfg) && cfg.enabled
    ensures var s, h := Run(cfg, Fresh(start), es), SinceClear(cfg, Fresh(start), es);
            h == [] ==> s.phase.Closed? && s.requests == [] && s.consecutiveFails == 0
  {
    if es != [] {
      EmptyHistoryIsClosed(cfg, start, es[..|es| - 1]);
    }
  }

  /** Whatever the configured limits, one failure reported first after any clear opens the breaker:
      the window then holds one record and its failure rate is 1. */
  lemma {:induction false} FirstFailureOpens(cfg: Config, start: int, es: seq<Event>, now: int)
    requires Legal(cfg) && cfg.enabled
    requires SinceClear(cfg, Fresh(start), es) == []
    ensures Run(cfg, Fresh(start), es + [Result(false, now)]).phase.Open?
  {
    EmptyHistoryIsClosed(cfg, start, es);
    assert (es + [Result(false, now)])[..|es|] == es;
    var rs := [Outcome(now, true)];
    assert [] + rs == rs && TrimExpired(rs, now - cfg.windowSeconds * SECOND) == rs;
    assert Failures(rs) == 1 + Failures(rs[1..]);
  }

  lemma {:induction false} FailuresAdd(a: seq<Outcome>, b: seq<Outcome>)
    ensures Failures(a + b) == Failures(a) + Failures(b)
  {
    if a == [] {
      assert a + b == b;
    } else {
      assert (a + b)[1..] == a[1..] + b;
      FailuresAdd(a[1..], b);
    }
  }

  /** The positions of the records of `h` that are not older than `start`. */
  function Inside(h: seq<Outcome>, start: int): set<nat> {
    set i: nat | i < |h| && h[i].at >= start
  }

  /** Those of the failures among them. */
  function FailedInside(h: seq<Outcome>, start: int): set<nat> {
    set i: nat | i < |h| && h[i].at >= start && h[i].failed
  }

  lemma {:induction false} RecentCounts(h: seq<Outcome>, start: int)
    ensures |Recent(h, start)| == |Inside(h, start)| && Failures(Recent(h, start)) == |FailedInside(h, start)|
  {
    if h == [] {
      assert Inside(h, start) == {} && FailedInside(h, start) == {};
    } else {
      var n := |h| - 1;
      RecentCounts(h[..n], start);
      assert h[..n] + [h[n]] == h;
      RecentAppend(h[..n], [h[n]], start);
      FailuresAdd(Recent(h[..n], start), Recent([h[n]], start));
      InsideLast(h, start);
    }
  }

  lemma InsideLast(h: seq<Outcome>, start: int)
    requires h != []
    ensures var n := |h| - 1;
            && |Inside(h, start)| == |Inside(h[..n], start)| + (if h[n].at >= start then 1 else 0)
            && |FailedInside(h, start)| ==
               |FailedInside(h[..n], start)| + if h[n].at >= start && h[n].failed then 1 else 0
  {
    var n := |h| - 1;
    var last := if h[n].at >= start then {n} else {};
    assert Inside(h, start) == Inside(h[..n], start) + last;
    assert FailedInside(h, start) == FailedInside(h[..n], start) + if h[n].failed then last else {};
  }

  lemma {:induction false} TrailingMeans(h: seq<Outcome>, n: nat)
    ensures TrailingFails(h) >= n <==> n <= |h| && forall i :: |h| - n <= i < |h| ==> h[i].failed
  {
    if n > 0 && h != [] {
      TrailingMeans(h[..|h| - 1], n - 1);
      assert forall i :: 0 <= i < |h| - 1 ==> h[..|h| - 1][i] == h[i];
    }
  }

  /** A closed breaker opens on a result exactly when, of all outcomes since the last clear, the last ones in the
      number of the limit all failed, or the failures in the window are the configured share of what is in it. */
  lemma OpensExactly(cfg: Config, start: int, es: seq<Event>, e: Event)
    requires Legal(cfg) && cfg.enabled && Monotone(es + [e]) && e.Result?
    requires Run(cfg, Fresh(start), es).phase.Closed?
    ensures var h := SinceClear(cfg, Fresh(start), es) + [Outcome(e.at, !e.success)];
            var n, since := cfg.consecutiveFails, e.at - cfg.windowSeconds * 1_000_000_000;
            Run(cfg, Fresh(start), es + [e]).phase.Open? <==>
            || (n <= |h| && forall i :: |h| - n <= i < |h| ==> h[i].failed)
            || |FailedInside(h, since)| as real >= cfg.failureRate * |Inside(h, since)| as real
  {
    hide TrimExpired, Recent, Failures, TrailingFails, ShouldOpen, Inside, FailedInside, Run, SinceClear, Step,
      Monotone;
    var h := SinceClear(cfg, Fresh(start), es) + [Outcome(e.at, !e.success)];
    WindowIsHistory(cfg, start, es + [e]);
    OneStep(cfg, Fresh(start), es, e);
    OpenedBy(cfg, Run(cfg, Fresh(start), es), e);
    OneMoreOutcome(cfg, Fresh(start), es, e);
    LimitsMean(cfg, h, e.at - cfg.windowSeconds * SECOND);
  }

  lemma OneMoreOutcome(cfg: Config, s: State, es: seq<Event>, e: Event)
    requires e.Result? && Run(cfg, s, es).phase.Closed?
    ensures SinceClear(cfg, s, es + [e]) == SinceClear(cfg, s, es) + [Outcome(e.at, !e.success)]
  {
    hide Step;
    assert (es + [e])[..|es|] == es;
  }

  lemma OpenedBy(cfg: Config, s: State, e: Event)
    requires cfg.enabled && e.Result? && s.phase.Closed?
    ensures var r := Step(cfg, s, e);
            r.phase.Open? <==> ShouldOpen(cfg, r.consecutiveFails, r.requests)
  {
    hide TrimExpired, ShouldOpen;
  }

  /** The opening condition, read off a history whose last record is in the window. */
  lemma LimitsMean(cfg: Config, h: seq<Outcome>, since: int)
    requires Legal(cfg) && h != [] && h[|h| - 1].at >= since
    ensures var n := cfg.consecutiveFails;
            ShouldOpen(cfg, TrailingFails(h), Recent(h, since)) <==>
            || (n <= |h| && forall i :: |h| - n <= i < |h| ==> h[i].failed)
            || |FailedInside(h, since)| as real >= cfg.failureRate * |Inside(h, since)| as real
  {
    hide Recent, Failures, TrailingFails;
    RecentCounts(h, since);
    TrailingMeans(h, cfg.consecutiveFails);
    assert |h| - 1 in Inside(h, since);
  }

  // ---------- half-open probing ----------

  /** Requests granted but not yet reported. */
  function Outstanding(cfg: Config, s: State, es: seq<Event>): int {
    if es == [] then 0
    else
      var before, e := Run(cfg, s, es[..|es| - 1]), es[|es| - 1];
      var n := Outstanding(cfg, s, es[..|es| - 1]);
      match e
      case Ask(now) => if Grants(cfg, before, now) then n + 1 else n
      case Result(_, _) => n - 1
      case Clear(_) => 0
  }

  /** Every grant is reported before the next one and no result arrives for an older grant. */
  ghost predicate OneAtATime(cfg: Config, s: State, es: seq<Event>) {
    es == [] ||
    (OneAtATime(cfg, s, es[..|es| - 1]) && 0 <= Outstanding(cfg, s, es) <= 1)
  }

  /** The results reported since the breaker last entered half-open. */
  function Probes(cfg: Config, s: State, es: seq<Event>): seq<bool> {
    if es == [] then []
    else
      var before, e := Run(cfg, s, es[..|es| - 1]), es[|es| - 1];
      if e.Result? && before.phase.HalfOpen? then Probes(cfg, s, es[..|es| - 1]) + [e.success]
      else if e.Ask? && before.phase.Open? && Grants(cfg, before, e.at) then []
      else Probes(cfg, s, es[..|es| - 1])
  }

  function Successes(bs: seq<bool>): (n: nat)
    ensures n <= |bs|
    ensures n == |bs| <==> forall i :: 0 <= i < |bs| ==> bs[i]
  {
    if bs == [] then 0 else Successes(bs[..|bs| - 1]) + if bs[|bs| - 1] then 1 else 0
  }

  lemma {:induction false} ProbeCounters(cfg: Config, start: int, es: seq<Event>)
    requires Legal(cfg) && cfg.enabled && OneAtATime(cfg, Fresh(start), es)
    ensures var s, p := Run(cfg, Fresh(start), es), Probes(cfg, Fresh(start), es);
            && 0 <= Outstanding(cfg, Fresh(start), es)
            && 0 <= s.halfOpenSuccess <= s.halfOpenCalls <= cfg.halfOpenMaxCalls
            && (s.phase.HalfOpen? ==>
                  && s.halfOpenCalls == |p| + Outstanding(cfg, Fresh(start), es)
                  && s.halfOpenSuccess == Successes(p)
                  && |p| < cfg.halfOpenMaxCalls)
            && (s.phase.Open? ==> Outstanding(cfg, Fresh(start), es) == 0)
  {
    if es != [] {
      ProbeCounters(cfg, start, es[..|es| - 1]);
      if es[|es| - 1].Result? {
        var p := Probes(cfg, Fresh(start), es[..|es| - 1]);
        assert (p + [es[|es| - 1].success])[..|p|] == p;
      }
    }
  }

  /** When grants are reported one at a time, a half-open breaker closes exactly on the report that
      completes `halfOpenMaxCalls` probes, all of them successful; otherwise that report reopens it. */
  lemma {:induction false} RecoveryIsExact(cfg: Config, start: int, es: seq<Event>, e: Event)
    requires Legal(cfg) && cfg.enabled && e.Result?
    requires OneAtATime(cfg, Fresh(start), es + [e])
    requires Run(cfg, Fresh(start), es).phase.HalfOpen?
    ensures var p, next := Probes(cfg, Fresh(start), es) + [e.success], Run(cfg, Fresh(start), es + [e]).phase;
            && (next.Closed? <==> |p| == cfg.halfOpenMaxCalls && forall i :: 0 <= i < |p| ==> p[i])
            && (next.HalfOpen? <==> |p| < cfg.halfOpenMaxCalls)
            && |p| <= cfg.halfOpenMaxCalls
  {
    assert (es + [e])[..|es|] == es;
    ProbeCounters(cfg, start, es);
    var p := Probes(cfg, Fresh(start), es);
    assert (p + [e.success])[..|p|] == p;
    assert Successes(p + [e.success]) == Successes(p) + if e.success then 1 else 0;
  }

  ghost predicate AllAsks(es: seq<Event>) {
    forall i :: 0 <= i < |es| ==> es[i].Ask?
  }

  /** A half-open breaker whose probes are all spent refuses every later request, at any time,
      until a result or a reset arrives. */
  lemma {:induction false} SpentProbesBlock(cfg: Config, s: State, es: seq<Event>, now: int)
    requires Legal(cfg) && cfg.enabled && s.phase.HalfOpen? && s.halfOpenCalls >= cfg.halfOpenMaxCalls
    requires AllAsks(es)
    ensures Run(cfg, s, es) == s && !Grants(cfg, Run(cfg, s, es), now)
  {
    if es != [] {
      SpentProbesBlock(cfg, s, es[..|es| - 1], now);
    }
  }

  /** A breaker opened by a result refuses every request until its cool-down is over, counted from that result; the
      first request after that is let through, as the first probe. */
  lemma {:induction false} CoolsDown(cfg: Config, s: State, e: Event, asks: seq<Event>)
    requires Legal(cfg) && cfg.enabled && e.Result? && !s.phase.Open? && Step(cfg, s, e).phase.Open?
    requires AllAsks(asks) && forall i :: 0 <= i < |asks| ==> asks[i].at < e.at + cfg.cooldownSeconds * 1_000_000_000
    ensures var r := Run(cfg, s, [e] + asks);
            r.phase.Open? && r.changedAt == e.at && GrantCount(cfg, s, [e] + asks) == 0
    ensures forall now :: now >= e.at + cfg.cooldownSeconds * 1_000_000_000 ==>
                            var more := [e] + asks + [Ask(now)];
                            var r := Run(cfg, s, more);
                            && GrantCount(cfg, s, more) == 1 && r.phase.HalfOpen? && r.changedAt == now
                            && r.halfOpenCalls == 1 && r.halfOpenSuccess == 0
  {
    var all := [e] + asks;
    if asks == [] {
      assert all == [e] && [e][..0] == [];
    } else {
      assert all[..|all| - 1] == [e] + asks[..|asks| - 1];
      CoolsDown(cfg, s, e, asks[..|asks| - 1]);
    }
    forall now
      ensures (all + [Ask(now)])[..|all|] == all
    {
    }
  }

  /** Grants given during a run. */
  function GrantCount(cfg: Config, s: State, es: seq<Event>): nat {
    if es == [] then 0
    else
      GrantCount(cfg, s, es[..|es| - 1]) +
      if es[|es| - 1].Ask? && Grants(cfg, Run(cfg, s, es[..|es| - 1]), es[|es| - 1].at) then 1 else 0
  }

  /** An open breaker asked again and again after its cool-down grants exactly as many probes as it may, however often
      it is asked. */
  lemma {:induction false} BurstGrants(cfg: Config, s: State, es: seq<Event>)
    requires Legal(cfg) && cfg.enabled && s.phase.Open? && AllAsks(es)
    requires es != [] && Grants(cfg, s, es[0].at)
    ensures var r, most := Run(cfg, s, es), cfg.halfOpenMaxCalls;
            && GrantCount(cfg, s, es) == (if |es| < most then |es| else most)
            && r.phase.HalfOpen? && r.halfOpenCalls == GrantCount(cfg, s, es) && r.halfOpenSuccess == 0
  {
    if |es| == 1 {
      assert Run(cfg, s, es[..0]) == s;
    } else {
      BurstGrants(cfg, s, es[..|es| - 1]);
    }
  }

  /** If all probes are granted before the first report, that first report reopens the breaker
      even when it is a success, as soon as more than one probe is required. */
  lemma {:induction false} BurstReopens(cfg: Config, s: State, es: seq<Event>, success: bool, now: int)
    requires Legal(cfg) && cfg.enabled && s.phase.Open? && AllAsks(es)
    requires |es| == cfg.halfOpenMaxCalls >= 2
    requires Grants(cfg, s, es[0].at)
    ensures Run(cfg, s, es + [Result(success, now)]).phase.Open?
  {
    BurstGrants(cfg, s, es);
    assert (es + [Result(success, now)])[..|es|] == es;
  }

  // ---------- accounting over a run ----------

  /** As long as nothing is cleared, outstanding are the grants that no result was reported for. */
  lemma {:induction false} OutstandingIs(cfg: Config, s: State, es: seq<Event>)
    requires forall i :: 0 <= i < |es| ==> !es[i].Clear?
    ensures Outstanding(cfg, s, es) == GrantCount(cfg, s, es) - ResultCount(es)
  {
    if es != [] {
      OutstandingIs(cfg, s, es[..|es| - 1]);
    }
  }

  lemma OneStep(cfg: Config, s: State, es: seq<Event>, e: Event)
    ensures Run(cfg, s, es + [e]) == Step(cfg, Run(cfg, s, es), e)
    ensures GrantCount(cfg, s, es + [e]) ==
            GrantCount(cfg, s, es) + if e.Ask? && Grants(cfg, Run(cfg, s, es), e.at) then 1 else 0
    ensures ResultCount(es + [e]) == ResultCount(es) + if e.Result? then 1 else 0
  {
    assert (es + [e])[..|es|] == es;
  }

  /** Results reported during a run. */
  function ResultCount(es: seq<Event>): nat {
    if es == [] then 0 else ResultCount(es[..|es| - 1]) + if es[|es| - 1].Result? then 1 else 0
  }

  // ---------- the object ----------

  class CircuitBreaker {
    const node: string
    const cfg: Config
    const createdAt: int
    var phase: Phase
    var requests: seq<Outcome>
    var consecutiveFails: nat
    var changedAt: int
    var halfOpenCalls: int
    var halfOpenSuccess: int
    ghost var history: seq<Event>

    ghost function View(): State
      reads this
    {
      State(phase, requests, consecutiveFails, changedAt, halfOpenCalls, halfOpenSuccess)
    }

    /** The fields are where the state machine is after the calls made so far. */
    ghost predicate Valid()
      reads this
    {
      Legal(cfg) && View() == Run(cfg, Fresh(createdAt), history)
    }

    ghost function Granted(): nat
      reads this
    {
      GrantCount(cfg, Fresh(createdAt), history)
    }

    constructor (node: string, cfg: Config, now: int)
      ensures Valid() && history == [] && this.node == node && this.cfg == ApplyDefaults(cfg) && createdAt == now
      ensures this.cfg.windowSeconds == (if cfg.windowSeconds > 0 then cfg.windowSeconds else 60)
      ensures this.cfg.failureRate == if 0.0 < cfg.failureRate <= 1.0 then cfg.failureRate else 0.5
      ensures this.cfg.consecutiveFails == if cfg.consecutiveFails > 0 then cfg.consecutiveFails else 5
      ensures this.cfg.cooldownSeconds == if cfg.cooldownSeconds > 0 then cfg.cooldownSeconds else 30
      ensures this.cfg.halfOpenMaxCalls == if cfg.halfOpenMaxCalls > 0 then cfg.halfOpenMaxCalls else 3
      ensures phase.Closed? && requests == [] && consecutiveFails == 0 && changedAt == now
    {
      this.node := node;
      this.cfg := ApplyDefaults(cfg);
      createdAt := now;
      phase, requests, consecutiveFails, changedAt := Closed, [], 0, now;
      halfOpenCalls, halfOpenSuccess := 0, 0;
      history := [];
    }

    method SwitchTo(next: Phase, now: int)
      modifies this`phase, this`changedAt
      ensures View() == Transition(old(View()), next, now)
    {
      if phase != next {
        phase := next;
        changedAt := now;
      }
    }

    method AllowRequest(now: int) returns (granted: bool)
      requires Valid()
      modifies this
      ensures Valid() && history == old(history) + [Ask(now)]
      ensures granted == Grants(cfg, old(View()), now)
      ensures View() == Allow(cfg, old(View()), now)
      ensures !cfg.enabled || old(phase).Closed? ==> granted && View() == old(View())
      ensures cfg.enabled && old(phase).Open? ==>
                && (granted <==> now >= old(changedAt) + cfg.cooldownSeconds * 1_000_000_000)
                && (granted ==> phase.HalfOpen? && changedAt == now && halfOpenCalls == 1 && halfOpenSuccess == 0)
      ensures cfg.enabled && old(phase).HalfOpen? ==>
                && (granted <==> old(halfOpenCalls) < cfg.halfOpenMaxCalls)
                && (granted ==> halfOpenCalls == old(halfOpenCalls) + 1)
      ensures !granted ==> View() == old(View())
      ensures Granted() == old(Granted()) + if granted then 1 else 0
      ensures ResultCount(history) == ResultCount(old(history))
    {
      hide Legal, Run, GrantCount, ResultCount;
      ghost var before := history;
      granted := false;
      if !cfg.enabled {
        granted := true;
      } else {
        match phase {
          case Closed =>
            granted := true;
          case Open =>
            if now - changedAt >= cfg.cooldownSeconds * SECOND {
              SwitchTo(HalfOpen, now);
              halfOpenCalls := 1;
              halfOpenSuccess := 0;
              granted := true;
            }
          case HalfOpen =>
            if halfOpenCalls < cfg.halfOpenMaxCalls {
              halfOpenCalls := halfOpenCalls + 1;
              granted := true;
            }
        }
      }
      history := history + [Ask(now)];
      OneStep(cfg, Fresh(createdAt), before, Ask(now));
    }

    /** Counts the failures in the window and compares the rate with the limit. */
    method ShouldOpenNow() returns (open: bool)
      ensures open == ShouldOpen(cfg, consecutiveFails, requests)
    {
      if consecutiveFails >= cfg.consecutiveFails {
        return true;
      }
      if |requests| == 0 {
        return false;
      }
      var failCount := 0;
      for i := 0 to |requests|
        invariant failCount + Failures(requests[i..]) == Failures(requests)
      {
        assert requests[i..][1..] == requests[i + 1..];
        if requests[i].failed {
          failCount := failCount + 1;
        }
      }
      assert requests[|requests|..] == [];
      var total := |requests| as real;
      RateCrossMultiplied(failCount as real, total, cfg.failureRate);
      open := failCount as real / total >= cfg.failureRate;
    }

    /** Drops the records that left the window. */
    method Trim(windowStart: int)
      modifies this`requests
      ensures requests == TrimExpired(old(requests), windowStart)
    {
      var i := 0;
      while i < |requests| && requests[i].at < windowStart
        invariant 0 <= i <= |requests|
        invariant TrimExpired(requests, windowStart) == TrimExpired(requests[i..], windowStart)
      {
        assert requests[i..][1..] == requests[i + 1..];
        i := i + 1;
      }
      requests := requests[i..];
    }

    /** The part of RecordResult that concerns the window and the failure counter. */
    method Note(success: bool, now: int)
      modifies this`requests, this`consecutiveFails
      ensures requests ==
              TrimExpired(old(requests) + [Outcome(now, !success)], now - cfg.windowSeconds * 1_000_000_000)
      ensures consecutiveFails == if success then 0 else old(consecutiveFails) + 1
    {
      requests := requests + [Outcome(now, !success)];
      Trim(now - cfg.windowSeconds * SECOND);
      if !success {
        consecutiveFails := consecutiveFails + 1;
      } else {
        consecutiveFails := 0;
      }
    }

    method RecordResult(success: bool, now: int)
      requires Valid()
      modifies this
      ensures Valid() && history == old(history) + [Result(success, now)]
      ensures View() == Record(cfg, old(View()), success, now)
      ensures changedAt == (if phase == old(phase) then old(changedAt) else now) && (old(phase).Open? ==> phase.Open?)
      ensures cfg.enabled && old(phase).HalfOpen? ==>
                && halfOpenSuccess == old(halfOpenSuccess) + (if success then 1 else 0)
                && phase == (if old(halfOpenCalls) < cfg.halfOpenMaxCalls then HalfOpen
                             else if halfOpenSuccess >= cfg.halfOpenMaxCalls then Closed else Open)
                && (phase.Closed? ==> requests == [] && consecutiveFails == 0)
      ensures Granted() == old(Granted())
      ensures ResultCount(history) == ResultCount(old(history)) + 1
    {
      hide ShouldOpen, TrimExpired, Legal, Run, GrantCount, ResultCount;
      ghost var before := history;
      if cfg.enabled {
        Note(success, now);
        match phase {
          case Closed =>
            var open := ShouldOpenNow();
            if open {
              SwitchTo(Open, now);
            }
          case Open =>
          case HalfOpen =>
            if success {
              halfOpenSuccess := halfOpenSuccess + 1;
            }
            if halfOpenCalls >= cfg.halfOpenMaxCalls {
              if halfOpenSuccess >= cfg.halfOpenMaxCalls {
                SwitchTo(Closed, now);
                consecutiveFails := 0;
                requests := [];
              } else {
                SwitchTo(Open, now);
              }
            }
        }
      }
      history := history + [Result(success, now)];
      OneStep(cfg, Fresh(createdAt), before, Result(success, now));
    }

    method Reset(now: int)
      requires Valid()
      modifies this
      ensures Valid() && history == old(history) + [Clear(now)]
      ensures View() == Fresh(now)
      ensures Granted() == old(Granted())
      ensures ResultCount(history) == ResultCount(old(history))
    {
      ghost var before := history;
      phase, requests, consecutiveFails := Closed, [], 0;
      halfOpenCalls, halfOpenSuccess := 0, 0;
      changedAt := now;
      history := history + [Clear(now)];
      OneStep(cfg, Fresh(createdAt), before, Clear(now));
    }
  }

  lemma RateCrossMultiplied(fails: real, total: real, rate: real)
    requires total > 0.0
    ensures fails / total >= rate <==> fails >= rate * total
  {
    var q := fails / total;
    assert q * total == fails;
    if q >= rate {
      assert (q - rate) * total >= 0.0;
    } else {
      assert (rate - q) * total > 0.0;
    }
  }
}
