/** Warm-up probes of one node: when each of them starts, when its result arrives, how long the warm-up takes and
    what the arrived results leave in the node's record. Giving up on a probe ends the wait, not the probe: its
    result is applied whenever it arrives. */
module Probes {
  import opened Common
  import opened Nodes
  import Retry

  datatype WarmupConfig = WarmupConfig(enabled: bool, attempts: int, timeout: int, requiredSuccess: int)

  /** The result of one probe and how long it takes. */
  datatype Probe = Probe(ok: bool, took: nat)

  /** Loads the settings read from the environment; at most `attempts` successes can be required. */
  function NormalizeWarmup(enabled: bool, attempts: int, timeoutMs: int, requiredSuccess: int): (c: WarmupConfig)
    ensures c.attempts >= 1 && 1 <= c.requiredSuccess <= c.attempts && c.timeout > 0 && c.enabled == enabled
    ensures 1 <= requiredSuccess <= attempts ==> c.attempts == attempts && c.requiredSuccess == requiredSuccess
    ensures (attempts <= 0 ==> c.attempts == 1) && (requiredSuccess <= 0 ==> c.requiredSuccess == 1)
    ensures requiredSuccess >= attempts > 0 ==> c.attempts == attempts == c.requiredSuccess
    ensures c.timeout == 1_000_000 * if timeoutMs > 0 then timeoutMs else 17_000
  {
    var tries := if attempts <= 0 then 1 else attempts;
    var need := if requiredSuccess <= 0 then 1 else requiredSuccess;
    WarmupConfig(
      enabled, tries,
      if timeoutMs > 0 then timeoutMs * Retry.MILLISECOND else 17 * Retry.SECOND,
      if need > tries then tries else need)
  }

  function Tries(c: WarmupConfig): nat {
    if c.attempts <= 0 then 1 else c.attempts
  }

  function ProbeTimeout(c: WarmupConfig): nat {
    if c.timeout <= 0 then 17 * Retry.SECOND else c.timeout
  }

  /** The longest time `k` probes can take. */
  function Budget(c: WarmupConfig, k: nat): nat {
    if k == 0 then 0 else Budget(c, k - 1) + ProbeTimeout(c)
  }

  predicate InTime(c: WarmupConfig, p: Probe) {
    p.took <= ProbeTimeout(c)
  }

  /** The time the first `k` probes of a node are waited for: when the next one starts, counted from the start of the
      warm-up. */
  function Spent(c: WarmupConfig, probes: nat -> Probe, k: nat): (s: nat)
    ensures s <= Budget(c, k)
  {
    if k == 0 then 0
    else Spent(c, probes, k - 1) + if InTime(c, probes(k - 1)) then probes(k - 1).took else ProbeTimeout(c)
  }

  /** Successful probes among the first `n`. */
  function Successes(c: WarmupConfig, probes: nat -> Probe, n: nat): (s: nat)
    ensures s <= n
    ensures s == n <==> forall j: nat :: j < n ==> InTime(c, probes(j)) && probes(j).ok
  {
    if n == 0 then 0
    else Successes(c, probes, n - 1) + if InTime(c, probes(n - 1)) && probes(n - 1).ok then 1 else 0
  }

  predicate Passes(c: WarmupConfig, probes: nat -> Probe) {
    c.enabled ==> Successes(c, probes, Tries(c)) >= c.requiredSuccess
  }

  /** Which of the first `n` probes succeed, and within the time they are given. */
  function Answered(c: WarmupConfig, probes: nat -> Probe, n: nat): set<nat> {
    set j: nat | j < n && probes(j).ok && probes(j).took <= if c.timeout <= 0 then 17_000_000_000 else c.timeout
  }

  lemma {:induction false} SuccessesAreAnswers(c: WarmupConfig, probes: nat -> Probe, n: nat)
    ensures Successes(c, probes, n) == |Answered(c, probes, n)|
  {
    hide Answered, InTime;
    if n == 0 {
      NoAnswers(c, probes);
    } else {
      SuccessesAreAnswers(c, probes, n - 1);
      OneMoreAnswer(c, probes, n - 1);
    }
  }

  lemma NoAnswers(c: WarmupConfig, probes: nat -> Probe)
    ensures Answered(c, probes, 0) == {}
  {
  }

  lemma OneMoreAnswer(c: WarmupConfig, probes: nat -> Probe, n: nat)
    ensures |Answered(c, probes, n + 1)| ==
            |Answered(c, probes, n)| + if InTime(c, probes(n)) && probes(n).ok then 1 else 0
  {
    var last := if InTime(c, probes(n)) && probes(n).ok then {n} else {};
    assert Answered(c, probes, n + 1) == Answered(c, probes, n) + last;
  }

  /** A node passes its warm-up when enough of its probes succeed in time, each of which is waited for until then. */
  lemma PassesMeans(c: WarmupConfig, probes: nat -> Probe)
    ensures var attempts := if c.attempts <= 0 then 1 else c.attempts;
            && Tries(c) == attempts
            && (Passes(c, probes) <==> !c.enabled || |Answered(c, probes, attempts)| >= c.requiredSuccess)
    ensures forall k: nat :: var most := if c.timeout <= 0 then 17_000_000_000 else c.timeout;
                             Spent(c, probes, k + 1) - Spent(c, probes, k) ==
                             if probes(k).took <= most then probes(k).took else most
  {
    SuccessesAreAnswers(c, probes, Tries(c));
  }

  /** With the default settings probes that never come in time pass no warm-up and are waited for 34 seconds. */
  lemma SilentProbes(probes: nat -> Probe)
    requires forall k :: probes(k).took > 17 * Retry.SECOND
    ensures var c := NormalizeWarmup(true, 2, 17_000, 1);
            !Passes(c, probes) && Spent(c, probes, Tries(c)) == 34 * Retry.SECOND
  {
    var c := NormalizeWarmup(true, 2, 17_000, 1);
    assert Spent(c, probes, 1) == 17 * Retry.SECOND;
    assert Successes(c, probes, 1) == 0;
  }

  lemma {:induction false} SpentGrows(c: WarmupConfig, probes: nat -> Probe, j: nat, k: nat)
    requires j <= k
    ensures Spent(c, probes, j) <= Spent(c, probes, k)
  {
    if j < k {
      SpentGrows(c, probes, j, k - 1);
    }
  }

  // ---------- arrivals ----------

  /** When the result of probe `j` arrives. */
  function Arrival(c: WarmupConfig, probes: nat -> Probe, j: nat): nat {
    Spent(c, probes, j) + probes(j).took
  }

  /** The result of probe `j` arrives before that of probe `l`; of results arriving at once the earlier probe's is
      applied first. */
  predicate Before(c: WarmupConfig, probes: nat -> Probe, j: nat, l: nat) {
    Arrival(c, probes, j) < Arrival(c, probes, l) || (Arrival(c, probes, j) == Arrival(c, probes, l) && j < l)
  }

  /** The result of probe `j` has been applied at time `t`, where of the results arriving just then those of the
      probes up to `i` are. */
  predicate Landed(c: WarmupConfig, probes: nat -> Probe, j: nat, t: int, i: int) {
    Arrival(c, probes, j) < t || (Arrival(c, probes, j) == t && j <= i)
  }

  /** Of the first `k` probes, the one whose result was applied last. */
  function Latest(c: WarmupConfig, probes: nat -> Probe, k: nat, t: int, i: int): Option<nat> {
    if k == 0 then None
    else
      var p := Latest(c, probes, k - 1, t, i);
      if Landed(c, probes, k - 1, t, i) && (p.None? || Before(c, probes, p.value, k - 1)) then Some(k - 1) else p
  }

  /** Of the first `k` probes, the one whose result is applied next, if that happens by time `to`. */
  function Next(c: WarmupConfig, probes: nat -> Probe, k: nat, t: int, i: int, to: int): Option<nat> {
    if k == 0 then None
    else
      var p := Next(c, probes, k - 1, t, i, to);
      if !Landed(c, probes, k - 1, t, i) && Arrival(c, probes, k - 1) <= to
        && (p.None? || Before(c, probes, k - 1, p.value))
      then Some(k - 1) else p
  }

  /** Some applied result was a success. */
  predicate AnyOk(c: WarmupConfig, probes: nat -> Probe, k: nat, t: int, i: int) {
    k > 0 && (AnyOk(c, probes, k - 1, t, i) || (Landed(c, probes, k - 1, t, i) && probes(k - 1).ok))
  }

  /** What a health-check result makes of a node record. */
  function Checked(n: Node, ok: bool): Node {
    if ok then n.(failed := false, failStreak := 0)
    else n.(failed := true, failStreak := if n.failStreak == 0 then 1 else n.failStreak)
  }

  /** The record of a node after the applied results: the last of them decides. */
  function Applied(c: WarmupConfig, n: Node, probes: nat -> Probe, k: nat, t: int, i: int): Node {
    match Latest(c, probes, k, t, i)
    case None => n
    case Some(j) =>
      if probes(j).ok then n.(failed := false, failStreak := 0)
      else n.(failed := true, failStreak := if AnyOk(c, probes, k, t, i) || n.failStreak == 0 then 1 else n.failStreak)
  }

  /** The record `t` after the warm-up started, with `k` probes started. */
  function AfterProbes(c: WarmupConfig, n: Node, probes: nat -> Probe, k: nat, t: int): Node {
    Applied(c, n, probes, k, t, k)
  }

  lemma {:induction false} LatestIsLast(c: WarmupConfig, probes: nat -> Probe, k: nat, t: int, i: int)
    ensures var p := Latest(c, probes, k, t, i);
            match p
            case None => forall l: nat :: l < k ==> !Landed(c, probes, l, t, i)
            case Some(j) =>
              && j < k && Landed(c, probes, j, t, i)
              && forall l: nat :: l < k && l != j && Landed(c, probes, l, t, i) ==> Before(c, probes, l, j)
  {
    if k > 0 {
      LatestIsLast(c, probes, k - 1, t, i);
    }
  }

  lemma {:induction false} NextIsFirst(c: WarmupConfig, probes: nat -> Probe, k: nat, t: int, i: int, to: int)
    ensures var p := Next(c, probes, k, t, i, to);
            match p
            case None => forall l: nat :: l < k && !Landed(c, probes, l, t, i) ==> Arrival(c, probes, l) > to
            case Some(j) =>
              && j < k && !Landed(c, probes, j, t, i) && Arrival(c, probes, j) <= to
              && forall l: nat :: l < k && l != j && !Landed(c, probes, l, t, i) ==> Before(c, probes, j, l)
  {
    if k > 0 {
      NextIsFirst(c, probes, k - 1, t, i, to);
    }
  }

  lemma {:induction false} AnyOkMeans(c: WarmupConfig, probes: nat -> Probe, k: nat, t: int, i: int)
    ensures AnyOk(c, probes, k, t, i) <==> exists l: nat :: l < k && Landed(c, probes, l, t, i) && probes(l).ok
  {
    hide Landed;
    if k > 0 {
      AnyOkMeans(c, probes, k - 1, t, i);
    }
  }

  /** Applying one more result is checking the record with it. */
  lemma OneMoreApplied(
    c: WarmupConfig, n: Node, probes: nat -> Probe, k: nat, t: int, i: int, k': nat, t': int, i': int, j: nat)
    requires Latest(c, probes, k', t', i') == Some(j)
    requires AnyOk(c, probes, k', t', i') <==> AnyOk(c, probes, k, t, i) || probes(j).ok
    ensures Applied(c, n, probes, k', t', i') == Checked(Applied(c, n, probes, k, t, i), probes(j).ok)
  {
    hide Landed, Before;
    LatestIsLast(c, probes, k, t, i);
    AnyOkMeans(c, probes, k, t, i);
    hide Latest, AnyOk;
  }

  /** Applying the next result to the record is moving on to its arrival. */
  lemma NextResult(c: WarmupConfig, n: Node, probes: nat -> Probe, k: nat, t: int, i: int, j: nat)
    requires j < k && !Landed(c, probes, j, t, i)
    requires forall l: nat :: l < k && l != j && !Landed(c, probes, l, t, i) ==> Before(c, probes, j, l)
    ensures Applied(c, n, probes, k, Arrival(c, probes, j), j) == Checked(Applied(c, n, probes, k, t, i), probes(j).ok)
    ensures forall l: nat :: l < k ==>
              (Landed(c, probes, l, Arrival(c, probes, j), j) <==> Landed(c, probes, l, t, i) || l == j)
  {
    var a := Arrival(c, probes, j);
    forall l: nat | l < k
      ensures Landed(c, probes, l, a, j) <==> Landed(c, probes, l, t, i) || l == j
    {
    }
    NextIsLatest(c, probes, k, t, i, j);
    OneMoreApplied(c, n, probes, k, t, i, k, a, j, j);
  }

  lemma NextIsLatest(c: WarmupConfig, probes: nat -> Probe, k: nat, t: int, i: int, j: nat)
    requires j < k && !Landed(c, probes, j, t, i)
    requires forall l: nat :: l < k ==>
               (Landed(c, probes, l, Arrival(c, probes, j), j) <==> Landed(c, probes, l, t, i) || l == j)
    ensures Latest(c, probes, k, Arrival(c, probes, j), j) == Some(j)
    ensures AnyOk(c, probes, k, Arrival(c, probes, j), j) <==> AnyOk(c, probes, k, t, i) || probes(j).ok
  {
    var a := Arrival(c, probes, j);
    LandedBefore(c, probes, k, t, i, j);
    hide Landed, Arrival, Before, Latest, AnyOk;
    LatestIsLast(c, probes, k, a, j);
    AnyOkMeans(c, probes, k, t, i);
    AnyOkMeans(c, probes, k, a, j);
  }

  lemma LandedBefore(c: WarmupConfig, probes: nat -> Probe, k: nat, t: int, i: int, j: nat)
    requires !Landed(c, probes, j, t, i)
    ensures forall l: nat :: Landed(c, probes, l, t, i) ==> Before(c, probes, l, j)
    ensures forall l: nat :: Before(c, probes, l, j) ==> !Before(c, probes, j, l)
  {
  }

  /** The result that is applied next. */
  lemma NextLands(c: WarmupConfig, n: Node, probes: nat -> Probe, k: nat, t: int, i: int, to: int, j: nat)
    requires Next(c, probes, k, t, i, to) == Some(j)
    ensures j < k && t <= Arrival(c, probes, j) <= to && !Landed(c, probes, j, t, i)
    ensures var m := Applied(c, n, probes, k, Arrival(c, probes, j), j);
            m == Checked(Applied(c, n, probes, k, t, i), probes(j).ok) && m.failed == !probes(j).ok
    ensures forall l: nat :: l < k ==>
              (Landed(c, probes, l, Arrival(c, probes, j), j) <==> Landed(c, probes, l, t, i) || l == j)
  {
    NextIsFirst(c, probes, k, t, i, to);
    hide Before, Next, Applied;
    NextResult(c, n, probes, k, t, i, j);
  }

  /** Between two moments without an arrival the record does not change. */
  lemma NoResult(c: WarmupConfig, n: Node, probes: nat -> Probe, k: nat, t: int, i: int, t': int, i': int)
    requires forall l: nat :: l < k ==> (Landed(c, probes, l, t, i) <==> Landed(c, probes, l, t', i'))
    ensures Applied(c, n, probes, k, t, i) == Applied(c, n, probes, k, t', i')
  {
    SameLatest(c, probes, k, t, i, t', i');
  }

  /** When no further result arrives by time `to`, the record is the one at time `to`. */
  lemma NothingMore(c: WarmupConfig, n: Node, probes: nat -> Probe, k: nat, t: int, i: int, to: int)
    requires t <= to && Next(c, probes, k, t, i, to) == None
    ensures Applied(c, n, probes, k, t, i) == AfterProbes(c, n, probes, k, to)
  {
    NextIsFirst(c, probes, k, t, i, to);
    NoResult(c, n, probes, k, t, i, to, k);
  }

  lemma {:induction false} SameLatest(c: WarmupConfig, probes: nat -> Probe, k: nat, t: int, i: int, t': int, i': int)
    requires forall l: nat :: l < k ==> (Landed(c, probes, l, t, i) <==> Landed(c, probes, l, t', i'))
    ensures Latest(c, probes, k, t, i) == Latest(c, probes, k, t', i')
    ensures AnyOk(c, probes, k, t, i) == AnyOk(c, probes, k, t', i')
  {
    if k > 0 {
      SameLatest(c, probes, k - 1, t, i, t', i');
    }
  }

  /** The `k`-th probe is waited for: if it answers in time its result is the last to be applied, otherwise it has
      not been applied yet. */
  lemma WaitedFor(c: WarmupConfig, n: Node, probes: nat -> Probe, k: nat)
    ensures var t := Spent(c, probes, k + 1);
            AfterProbes(c, n, probes, k + 1, t) ==
            if InTime(c, probes(k)) then Checked(AfterProbes(c, n, probes, k, t), probes(k).ok)
            else AfterProbes(c, n, probes, k, t)
    ensures AfterProbes(c, n, probes, 0, 0) == n && Successes(c, probes, 0) == 0 && Spent(c, probes, 0) == 0
    ensures Successes(c, probes, k + 1) ==
            Successes(c, probes, k) + if InTime(c, probes(k)) && probes(k).ok then 1 else 0
    ensures Spent(c, probes, k + 1) ==
            Spent(c, probes, k) + if InTime(c, probes(k)) then probes(k).took else ProbeTimeout(c)
  {
    var t := Spent(c, probes, k + 1);
    SameLatest(c, probes, k, t, k, t, k + 1);
    if InTime(c, probes(k)) {
      LatestIsLast(c, probes, k, t, k);
      OneMoreApplied(c, n, probes, k, t, k, k + 1, t, k + 1, k);
    }
  }

  /** The last result to arrive by time `t` was a refusal. */
  ghost predicate RefusedLast(c: WarmupConfig, probes: nat -> Probe, k: nat, t: int) {
    exists j: nat :: j < k && Arrival(c, probes, j) <= t && !probes(j).ok &&
                     forall l: nat :: l < k && l != j && Arrival(c, probes, l) <= t ==> Before(c, probes, l, j)
  }

  /** A probed node is failed exactly when the last result to arrive was a refusal, or none arrived and it was failed
      before; it is healthy when its warm-up ends if every probe succeeded. */
  lemma WarmedNodeState(c: WarmupConfig, n: Node, probes: nat -> Probe, k: nat, t: int)
    ensures AfterProbes(c, n, probes, k, t).failed <==>
            RefusedLast(c, probes, k, t) || (n.failed && forall j: nat :: j < k ==> Arrival(c, probes, j) > t)
    ensures Successes(c, probes, k) == k > 0 && t >= Spent(c, probes, k) ==> !AfterProbes(c, n, probes, k, t).failed
  {
    LatestIsLast(c, probes, k, t, k);
    LandedMeans(c, probes, k, t);
    match Latest(c, probes, k, t, k) {
      case None =>
        if Successes(c, probes, k) == k > 0 {
          ArrivesInTime(c, probes, k - 1);
        }
      case Some(j) =>
        if x: nat :| x < k && Arrival(c, probes, x) <= t && !probes(x).ok &&
                     forall l: nat :: l < k && l != x && Arrival(c, probes, l) <= t ==> Before(c, probes, l, x) {
          LandedBeforeBoth(c, probes, x, j);
        }
    }
  }

  lemma LandedMeans(c: WarmupConfig, probes: nat -> Probe, k: nat, t: int)
    ensures forall l: nat :: l < k ==> (Landed(c, probes, l, t, k) <==> Arrival(c, probes, l) <= t)
  {
  }

  lemma LandedBeforeBoth(c: WarmupConfig, probes: nat -> Probe, x: nat, j: nat)
    ensures !(Before(c, probes, x, j) && Before(c, probes, j, x))
  {
  }

  lemma ArrivesInTime(c: WarmupConfig, probes: nat -> Probe, k: nat)
    requires InTime(c, probes(k))
    ensures Arrival(c, probes, k) == Spent(c, probes, k + 1)
  {
  }

  lemma ProbedRecord(c: WarmupConfig, n: Node, probes: nat -> Probe, k: nat, t: int)
    ensures var m := AfterProbes(c, n, probes, k, t);
            m == n.(failed := m.failed, failStreak := m.failStreak)
              && ((n.failed ==> n.failStreak >= 1) ==> (m.failed ==> m.failStreak >= 1))
  {
  }

  // ---------- what an operator can know beforehand ----------

  /** No probes whatsoever can leave a healthy node failed at the end of a warm-up it passes, exactly when the settings
      require every probe to succeed. */
  lemma NeverFailedIff(c: WarmupConfig, n: Node)
    requires c.enabled && !n.failed
    ensures c.requiredSuccess >= Tries(c) <==>
            forall probes: nat -> Probe | Passes(c, probes) ::
              !AfterProbes(c, n, probes, Tries(c), Spent(c, probes, Tries(c))).failed
  {
    if c.requiredSuccess >= Tries(c) {
      forall probes: nat -> Probe | Passes(c, probes)
        ensures !AfterProbes(c, n, probes, Tries(c), Spent(c, probes, Tries(c))).failed
      {
        WarmedNodeState(c, n, probes, Tries(c), Spent(c, probes, Tries(c)));
      }
    } else {
      var k := Tries(c) - 1;
      var probes := (j: nat) => Probe(j < k, 0);
      FirstSucceed(c, probes, k);
      WaitedFor(c, n, probes, k);
      assert Passes(c, probes) && AfterProbes(c, n, probes, Tries(c), Spent(c, probes, Tries(c))).failed;
    }
  }

  lemma FirstSucceed(c: WarmupConfig, probes: nat -> Probe, k: nat)
    requires forall j: nat :: j < k ==> probes(j) == Probe(true, 0)
    ensures Successes(c, probes, k) == k
  {
  }

  /** Default settings: a node whose checks hang until their own limit of 30 seconds is marked failed by the first of
      them, four seconds before its warm-up is over. */
  lemma SilentNodeIsMarked(n: Node, probes: nat -> Probe)
    requires forall k: nat :: probes(k) == Probe(false, 30 * Retry.SECOND)
    ensures var c := NormalizeWarmup(true, 2, 17_000, 1);
            && Spent(c, probes, Tries(c)) == 34 * Retry.SECOND
            && AfterProbes(c, n, probes, Tries(c), Spent(c, probes, Tries(c))).failed
  {
    var c := NormalizeWarmup(true, 2, 17_000, 1);
    WaitedFor(c, n, probes, 0);
    WaitedFor(c, n, probes, 1);
    assert Arrival(c, probes, 0) == 30 * Retry.SECOND && Arrival(c, probes, 1) == 47 * Retry.SECOND;
    WarmedNodeState(c, n, probes, 2, 34 * Retry.SECOND);
    assert !probes(0).ok;
  }

  /** Three probes, one success required: a node that answers and then hangs passes its warm-up and yet is failed when
      it ends, by a refusal that arrives after its probe was given up. */
  lemma LateRefusal(n: Node, probes: nat -> Probe)
    requires probes(0) == Probe(true, 5 * Retry.SECOND)
    requires probes(1) == probes(2) == Probe(false, 30 * Retry.SECOND)
    ensures var c := NormalizeWarmup(true, 3, 17_000, 1);
            Passes(c, probes) && AfterProbes(c, n, probes, Tries(c), Spent(c, probes, Tries(c))).failed
  {
    var c := NormalizeWarmup(true, 3, 17_000, 1);
    WaitedFor(c, n, probes, 0);
    WaitedFor(c, n, probes, 1);
    WaitedFor(c, n, probes, 2);
    assert Arrival(c, probes, 0) == 5 * Retry.SECOND && Arrival(c, probes, 1) == 35 * Retry.SECOND;
    assert Arrival(c, probes, 2) == 52 * Retry.SECOND && Spent(c, probes, 3) == 39 * Retry.SECOND;
    WarmedNodeState(c, n, probes, 3, 39 * Retry.SECOND);
    assert !probes(1).ok;
  }
}
