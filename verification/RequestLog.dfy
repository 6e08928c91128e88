/** What serving one request did, round by round, and the accounting laws every such log obeys.
    The request loop is proved to produce exactly these logs. */
module RequestLog {
  import opened Common
  import opened Retry

  datatype Round =
    /** The breaker of the cheapest remaining node refused. */
    | Refused(node: string, weight: int)
    /** The breaker granted the request but the overall deadline had passed: 503, nothing sent. */
    | Late(node: string, weight: int)
    /** One attempt was sent: `calls` counts the transport's calls inside it, `finished` is when the answer
        was there, `warmed` are the nodes warmed because it marked its node failed, and `ended` is when the
        bookkeeping after it was done. */
    | Sent(node: string, weight: int, attempt: nat, at: int, expiry: int, calls: nat,
           status: int, retryStatus: int, finished: int,
           isFinal: bool, attemptsTotal: nat, retrySuccess: nat, streak: nat, marked: bool, warmed: seq<string>,
           ended: int)

  const OK: int := 200
  const CLIENT_CLOSED: int := 499
  const SERVER_ERROR: int := 500
  const UNAVAILABLE: int := 503
  const GATEWAY_TIMEOUT: int := 504

  predicate IsContextError(r: Round)
    requires r.Sent?
  {
    r.status == CLIENT_CLOSED || r.status == GATEWAY_TIMEOUT
  }

  predicate HasFailed(r: Round)
    requires r.Sent?
  {
    r.status != OK || r.retryStatus >= SERVER_ERROR
  }

  predicate IsRetried(cfg: RetryConfig, r: Round)
    requires r.Sent?
  {
    HasFailed(r) && r.retryStatus >= SERVER_ERROR && r.retryStatus in cfg.retryOnStatus && !IsContextError(r)
  }

  /** The loop goes on to another node after this round. */
  predicate Continues(cfg: RetryConfig, r: Round) {
    r.Refused? || (r.Sent? && IsRetried(cfg, r))
  }

  function SentCount(log: seq<Round>): (n: nat)
    ensures n <= |log|
  {
    if log == [] then 0 else SentCount(log[..|log| - 1]) + if log[|log| - 1].Sent? then 1 else 0
  }

  predicate FirstFailed(log: seq<Round>) {
    exists i :: 0 <= i < |log| && log[i].Sent? && log[i].attempt == 1 && HasFailed(log[i])
  }

  function Limit(failLimit: int): int {
    if failLimit < 1 then 1 else failLimit
  }

  /** The bookkeeping of a sent attempt, given the rounds before it. */
  ghost predicate Booked(cfg: RetryConfig, failLimit: int, before: seq<Round>, r: Round)
    requires r.Sent?
  {
    && r.attempt == SentCount(before) + 1
    && (r.isFinal <==> !IsRetried(cfg, r) || r.attempt >= cfg.maxAttempts)
    && r.attemptsTotal == (if r.isFinal then r.attempt else 0)
    && r.retrySuccess == (if !HasFailed(r) && FirstFailed(before) then 1 else 0)
    && (r.marked <==>
          HasFailed(r) && !IsContextError(r) && r.attempt >= cfg.maxAttempts && r.streak >= Limit(failLimit))
    && (!r.marked ==> r.warmed == []) && r.node !in r.warmed
    && (r.streak >= 1 <==> HasFailed(r) && !IsContextError(r))
  }

  /** A log of the request loop. */
  ghost predicate IsLog(cfg: RetryConfig, failLimit: int, log: seq<Round>) {
    log == [] ||
    var before, r := log[..|log| - 1], log[|log| - 1];
    && IsLog(cfg, failLimit, before)
    && (before != [] ==> Continues(cfg, before[|before| - 1]))
    && (r.Sent? ==> Booked(cfg, failLimit, before, r))
  }

  lemma LogExtends(cfg: RetryConfig, failLimit: int, log: seq<Round>, r: Round)
    requires IsLog(cfg, failLimit, log) && (log != [] ==> Continues(cfg, log[|log| - 1]))
    requires r.Sent? ==> Booked(cfg, failLimit, log, r)
    ensures IsLog(cfg, failLimit, log + [r])
  {
    assert (log + [r])[..|log|] == log;
  }

  lemma {:induction false} LogFacts(cfg: RetryConfig, failLimit: int, log: seq<Round>)
    requires IsLog(cfg, failLimit, log)
    ensures forall i :: 0 <= i < |log| && log[i].Sent? ==> Booked(cfg, failLimit, log[..i], log[i])
    ensures forall i :: 0 <= i < |log| - 1 ==> Continues(cfg, log[i])
  {
    if log != [] {
      var before := log[..|log| - 1];
      LogFacts(cfg, failLimit, before);
      forall i | 0 <= i < |before|
        ensures before[..i] == log[..i]
      {
      }
    }
  }

  // ---------- pacing ----------

  ghost predicate Jitters(jitter: nat -> real) {
    forall k :: 0.0 <= jitter(k) < 1.0
  }

  /** When the round after `log` begins: at the start, or a back-off after the last attempt ended. */
  function Clock(cfg: RetryConfig, jitter: nat -> real, start: int, log: seq<Round>): int
    requires Jitters(jitter)
  {
    if log == [] then start
    else
      var r := log[|log| - 1];
      if r.Sent? then r.ended + CalculateBackoff(r.attempt - 1, cfg, jitter(r.attempt))
      else Clock(cfg, jitter, start, log[..|log| - 1])
  }

  /** Every attempt starts when its back-off is over, and no later. */
  ghost predicate Paced(cfg: RetryConfig, jitter: nat -> real, start: int, log: seq<Round>)
    requires Jitters(jitter)
  {
    forall k :: 0 <= k < |log| && log[k].Sent? ==> log[k].at == Clock(cfg, jitter, start, log[..k])
  }

  lemma PacedAppend(cfg: RetryConfig, jitter: nat -> real, start: int, log: seq<Round>, r: Round)
    requires Jitters(jitter) && Paced(cfg, jitter, start, log) && (r.Sent? ==> r.at == Clock(cfg, jitter, start, log))
    ensures Paced(cfg, jitter, start, log + [r])
    ensures Clock(cfg, jitter, start, log + [r]) ==
            if r.Sent? then r.ended + CalculateBackoff(r.attempt - 1, cfg, jitter(r.attempt))
              else Clock(cfg, jitter, start, log)
  {
    var all := log + [r];
    assert all[..|log|] == log;
    forall k | 0 <= k < |log|
      ensures all[..k] == log[..k]
    {
    }
  }

  // ---------- final-attempt accounting ----------

  function Finals(log: seq<Round>): nat {
    if log == [] then 0
    else Finals(log[..|log| - 1]) + if log[|log| - 1].Sent? && log[|log| - 1].isFinal then 1 else 0
  }

  function RetrySuccesses(log: seq<Round>): nat {
    if log == [] then 0
    else RetrySuccesses(log[..|log| - 1]) + if log[|log| - 1].Sent? then log[|log| - 1].retrySuccess else 0
  }

  function Attempts(cfg: RetryConfig): int {
    if cfg.maxAttempts < 1 then 1 else cfg.maxAttempts
  }

  function AtLeastZero(n: int): nat {
    if n < 0 then 0 else n
  }

  /** As long as every sent attempt was retried, only those from the MaxAttempts-th on were final. */
  lemma {:induction false} FinalsWhileRetrying(cfg: RetryConfig, failLimit: int, log: seq<Round>)
    requires IsLog(cfg, failLimit, log)
    requires log != [] ==> Continues(cfg, log[|log| - 1])
    ensures Finals(log) == AtLeastZero(SentCount(log) - Attempts(cfg) + 1)
    ensures RetrySuccesses(log) == 0
    ensures SentCount(log) > 0 <==> FirstFailed(log)
  {
    if log != [] {
      var before, r := log[..|log| - 1], log[|log| - 1];
      FinalsWhileRetrying(cfg, failLimit, before);
      if r.Sent? && SentCount(before) == 0 {
        assert log[|log| - 1].attempt == 1;
      }
      if FirstFailed(before) {
        var i :| 0 <= i < |before| && before[i].Sent? && before[i].attempt == 1 && HasFailed(before[i]);
        assert log[i] == before[i];
      }
    }
  }

  /** A request that ends at its k-th sent attempt has 1 + max(0, k - MaxAttempts) attempts recorded as
      final, and a retry success exactly when a later attempt succeeded after a failed first one. */
  lemma EndedByAttempt(cfg: RetryConfig, failLimit: int, log: seq<Round>)
    requires IsLog(cfg, failLimit, log) && log != []
    requires log[|log| - 1].Sent? && !IsRetried(cfg, log[|log| - 1])
    ensures Finals(log) == 1 + AtLeastZero(SentCount(log) - Attempts(cfg))
    ensures RetrySuccesses(log) == if !HasFailed(log[|log| - 1]) && SentCount(log) > 1 then 1 else 0
  {
    FinalsWhileRetrying(cfg, failLimit, log[..|log| - 1]);
  }

  /** A request that runs out of nodes or time after n sends has max(0, n - MaxAttempts + 1). */
  lemma RanOut(cfg: RetryConfig, failLimit: int, log: seq<Round>)
    requires IsLog(cfg, failLimit, log)
    requires log != [] ==> log[|log| - 1].Late? || Continues(cfg, log[|log| - 1])
    ensures Finals(log) == AtLeastZero(SentCount(log) - Attempts(cfg) + 1) && RetrySuccesses(log) == 0
  {
    if log == [] || Continues(cfg, log[|log| - 1]) {
      FinalsWhileRetrying(cfg, failLimit, log);
    } else {
      FinalsWhileRetrying(cfg, failLimit, log[..|log| - 1]);
    }
  }

  /** When an attempt succeeds after another one, the first one had failed. */
  lemma SoFarRetried(cfg: RetryConfig, failLimit: int, log: seq<Round>, k: nat)
    requires IsLog(cfg, failLimit, log) && k < |log|
    ensures SentCount(log[..k]) > 0 <==> FirstFailed(log[..k])
  {
    PartOfLog(cfg, failLimit, log, k);
    LogFacts(cfg, failLimit, log);
    assert k > 0 ==> log[..k][k - 1] == log[k - 1];
    FinalsWhileRetrying(cfg, failLimit, log[..k]);
  }

  lemma {:induction false} PartOfLog(cfg: RetryConfig, failLimit: int, log: seq<Round>, k: nat)
    requires IsLog(cfg, failLimit, log) && k <= |log|
    ensures IsLog(cfg, failLimit, log[..k])
  {
    if k == |log| {
      assert log[..k] == log;
    } else {
      PartOfLog(cfg, failLimit, log[..|log| - 1], k);
      assert log[..|log| - 1][..k] == log[..k];
    }
  }

  lemma {:induction false} SentAre(log: seq<Round>, k: nat)
    requires k < |log|
    ensures |set i | 0 <= i <= k && log[i].Sent?| == SentCount(log[..k]) + if log[k].Sent? then 1 else 0
  {
    var now := if log[k].Sent? then {k} else {};
    if k == 0 {
      assert (set i | 0 <= i <= k && log[i].Sent?) == now;
    } else {
      SentAre(log, k - 1);
      assert log[..k][..k - 1] == log[..k - 1];
      assert (set i | 0 <= i <= k && log[i].Sent?) == (set i | 0 <= i <= k - 1 && log[i].Sent?) + now;
    }
  }

  /** The bookkeeping of the `n`-th attempt: it is final if its status is not to be retried or the allowed number of
      attempts is reached, a success counts as one of the retry if it is not the first attempt, and the node is marked
      failed when that number is reached and its failure streak is long enough. Only a status to be retried is
      followed by another node. */
  lemma AttemptBooking(cfg: RetryConfig, failLimit: int, log: seq<Round>, k: nat)
    requires IsLog(cfg, failLimit, log) && k < |log| && log[k].Sent?
    ensures var r, n := log[k], log[k].attempt;
            var failed, ended := r.status != 200 || r.retryStatus >= 500, r.status == 499 || r.status == 504;
            var again := r.retryStatus >= 500 && r.retryStatus in cfg.retryOnStatus && !ended;
            && n == |set i | 0 <= i <= k && log[i].Sent?|
            && (k < |log| - 1 ==> again)
            && (r.isFinal <==> !again || n >= cfg.maxAttempts)
            && r.attemptsTotal == (if r.isFinal then n else 0)
            && r.retrySuccess == (if !failed && n > 1 then 1 else 0)
            && (r.marked <==> failed && !ended && n >= cfg.maxAttempts && r.streak >= 1 && r.streak >= failLimit)
  {
    LogFacts(cfg, failLimit, log);
    SoFarRetried(cfg, failLimit, log, k);
    SentAre(log, k);
  }

  /** A 499 or 504 is never followed by another node, although the default configuration lists 504 as
      retryable; it is recorded as final and never marks the node failed. */
  lemma ContextErrorEndsTheRequest(cfg: RetryConfig, failLimit: int, log: seq<Round>, i: nat)
    requires IsLog(cfg, failLimit, log) && i < |log|
    requires log[i].Sent? && IsContextError(log[i])
    ensures i == |log| - 1 && log[i].isFinal && !log[i].marked
  {
    LogFacts(cfg, failLimit, log);
  }

  /** A node is marked failed only from the MaxAttempts-th sent attempt on and with a full streak. */
  lemma MarkedOnlyLate(cfg: RetryConfig, failLimit: int, log: seq<Round>, i: nat)
    requires IsLog(cfg, failLimit, log) && i < |log| && log[i].Sent? && log[i].marked
    ensures cfg.maxAttempts <= log[i].attempt <= i + 1 && log[i].streak >= 1 && log[i].streak >= failLimit
  {
    LogFacts(cfg, failLimit, log);
  }

  /** Nodes are warmed only because a node was marked failed. */
  lemma WarmedAfterMark(cfg: RetryConfig, failLimit: int, log: seq<Round>)
    requires IsLog(cfg, failLimit, log) && Marked(log) == {}
    ensures Probed(log) == {}
  {
    LogFacts(cfg, failLimit, log);
    assert forall k :: 0 <= k < |log| && log[k].Sent? && log[k].marked ==> log[k].node in Marked(log);
  }

  // ---------- grants and results ----------

  function GrantsOn(log: seq<Round>, node: string): nat {
    if log == [] then 0
    else GrantsOn(log[..|log| - 1], node) + if !log[|log| - 1].Refused? && log[|log| - 1].node == node then 1 else 0
  }

  function ResultsOn(log: seq<Round>, node: string): nat {
    if log == [] then 0
    else
      var r := log[|log| - 1];
      ResultsOn(log[..|log| - 1], node) + if r.Sent? && !IsContextError(r) && r.node == node then 1 else 0
  }

  /** The request was granted by a breaker that never hears how it ended. */
  predicate Unreported(log: seq<Round>, node: string) {
    log != [] &&
    var r := log[|log| - 1];
    r.node == node && (r.Late? || (r.Sent? && IsContextError(r)))
  }

  lemma {:induction false} GrantsBalance(cfg: RetryConfig, failLimit: int, log: seq<Round>, node: string)
    requires IsLog(cfg, failLimit, log)
    ensures GrantsOn(log, node) == ResultsOn(log, node) + if Unreported(log, node) then 1 else 0
  {
    if log != [] {
      GrantsBalance(cfg, failLimit, log[..|log| - 1], node);
    }
  }

  function TotalGrants(logs: seq<seq<Round>>, node: string): nat {
    if logs == [] then 0 else TotalGrants(logs[..|logs| - 1], node) + GrantsOn(logs[|logs| - 1], node)
  }

  function TotalResults(logs: seq<seq<Round>>, node: string): nat {
    if logs == [] then 0 else TotalResults(logs[..|logs| - 1], node) + ResultsOn(logs[|logs| - 1], node)
  }

  function UnreportedRequests(logs: seq<seq<Round>>, node: string): nat {
    if logs == [] then 0
    else UnreportedRequests(logs[..|logs| - 1], node) + if Unreported(logs[|logs| - 1], node) then 1 else 0
  }

  /** A log under some failure limit. */
  ghost predicate IsSomeLog(cfg: RetryConfig, log: seq<Round>) {
    exists failLimit :: IsLog(cfg, failLimit, log)
  }

  ghost predicate AreLogs(cfg: RetryConfig, logs: seq<seq<Round>>) {
    forall k :: 0 <= k < |logs| ==> IsSomeLog(cfg, logs[k])
  }

  /** Over any run of requests, what a breaker granted minus what it was told is the number of requests
      that ended after its grant by a 499, a 504 or the overall deadline. */
  lemma {:induction false} Conservation(cfg: RetryConfig, logs: seq<seq<Round>>, node: string)
    requires AreLogs(cfg, logs)
    ensures TotalGrants(logs, node) == TotalResults(logs, node) + UnreportedRequests(logs, node)
  {
    if logs != [] {
      Conservation(cfg, logs[..|logs| - 1], node);
      var failLimit :| IsLog(cfg, failLimit, logs[|logs| - 1]);
      GrantsBalance(cfg, failLimit, logs[|logs| - 1], node);
    }
  }

  /** The rounds a breaker ledger has seen: granted ones, and ones whose result was reported. */
  function Bump(m: map<string, nat>, i: string): map<string, nat> {
    m[i := Count(m, i) + 1]
  }

  /** How often `i` was counted. */
  function Count(m: map<string, nat>, i: string): nat {
    if i in m then m[i] else 0
  }

  lemma CountBump(m: map<string, nat>, i: string)
    ensures Bump(m, i).Keys == m.Keys + {i}
    ensures forall j :: Count(Bump(m, i), j) == Count(m, j) + if j == i then 1 else 0
  {
  }

  function GrantLedger(m: map<string, nat>, log: seq<Round>): map<string, nat> {
    if log == [] then m
    else
      var before := GrantLedger(m, log[..|log| - 1]);
      if log[|log| - 1].Refused? then before else Bump(before, log[|log| - 1].node)
  }

  function ResultLedger(m: map<string, nat>, log: seq<Round>): map<string, nat> {
    if log == [] then m
    else
      var before, r := ResultLedger(m, log[..|log| - 1]), log[|log| - 1];
      if r.Sent? && !IsContextError(r) then Bump(before, r.node) else before
  }

  lemma AppendedLedgers(m: map<string, nat>, n: map<string, nat>, log: seq<Round>, r: Round)
    ensures GrantLedger(m, log + [r]) == if r.Refused? then GrantLedger(m, log) else Bump(GrantLedger(m, log), r.node)
    ensures ResultLedger(n, log + [r]) ==
            if r.Sent? && !IsContextError(r) then Bump(ResultLedger(n, log), r.node) else ResultLedger(n, log)
  {
    assert (log + [r])[..|log|] == log;
  }

  /** What serving a request adds to the ledgers is what its log counts, node by node. */
  lemma {:induction false} LedgersCount(m: map<string, nat>, n: map<string, nat>, log: seq<Round>, node: string)
    ensures Count(GrantLedger(m, log), node) == Count(m, node) + GrantsOn(log, node)
    ensures Count(ResultLedger(n, log), node) == Count(n, node) + ResultsOn(log, node)
  {
    if log != [] {
      LedgersCount(m, n, log[..|log| - 1], node);
    }
  }

  function GrantsAfter(m: map<string, nat>, logs: seq<seq<Round>>): map<string, nat> {
    if logs == [] then m else GrantLedger(GrantsAfter(m, logs[..|logs| - 1]), logs[|logs| - 1])
  }

  function ResultsAfter(m: map<string, nat>, logs: seq<seq<Round>>): map<string, nat> {
    if logs == [] then m else ResultLedger(ResultsAfter(m, logs[..|logs| - 1]), logs[|logs| - 1])
  }

  lemma {:induction false} LedgersAfter(m: map<string, nat>, n: map<string, nat>, logs: seq<seq<Round>>, node: string)
    ensures Count(GrantsAfter(m, logs), node) == Count(m, node) + TotalGrants(logs, node)
    ensures Count(ResultsAfter(n, logs), node) == Count(n, node) + TotalResults(logs, node)
  {
    if logs != [] {
      var before, last := logs[..|logs| - 1], logs[|logs| - 1];
      LedgersAfter(m, n, before, node);
      LedgersCount(GrantsAfter(m, before), ResultsAfter(n, before), last, node);
    }
  }

  /** The same of the server's ledgers: serving a run of requests leaves a node's breaker with one result
      outstanding for every request that ended unreported, on top of those outstanding before. */
  lemma OutstandingResults(
    cfg: RetryConfig, m: map<string, nat>, n: map<string, nat>, logs: seq<seq<Round>>, node: string)
    requires AreLogs(cfg, logs)
    ensures Count(GrantsAfter(m, logs), node) - Count(ResultsAfter(n, logs), node) ==
            Count(m, node) - Count(n, node) + UnreportedRequests(logs, node)
  {
    Conservation(cfg, logs, node);
    LedgersAfter(m, n, logs, node);
  }

  // ---------- upstream calls ----------

  function Picked(log: seq<Round>): set<string> {
    set i | 0 <= i < |log| :: log[i].node
  }

  ghost predicate PickedOnce(log: seq<Round>) {
    forall i, j :: 0 <= i < j < |log| ==> log[i].node != log[j].node && log[i].weight <= log[j].weight
  }

  function Marked(log: seq<Round>): set<string> {
    set i | 0 <= i < |log| && log[i].Sent? && log[i].marked :: log[i].node
  }

  /** The node a round marked failed, if any, and the nodes it warmed. */
  function MarkedBy(r: Round): set<string> {
    if r.Sent? && r.marked then {r.node} else {}
  }

  function ProbedBy(r: Round): set<string> {
    if r.Sent? then Elements(r.warmed) else {}
  }

  /** The nodes warmed while the request went on. */
  function Probed(log: seq<Round>): set<string> {
    set k, i | 0 <= k < |log| && log[k].Sent? && i in log[k].warmed :: i
  }

  function Calls(log: seq<Round>): nat {
    if log == [] then 0 else Calls(log[..|log| - 1]) + if log[|log| - 1].Sent? then log[|log| - 1].calls else 0
  }

  /** A log that picks each node at most once has as many rounds as nodes. */
  lemma {:induction false} RoundsAreNodes(log: seq<Round>)
    requires PickedOnce(log)
    ensures |Picked(log)| == |log|
  {
    if log == [] {
      assert Picked(log) == {};
    } else {
      var before, last := log[..|log| - 1], log[|log| - 1];
      RoundsAreNodes(before);
      assert Picked(log) == Picked(before) + {last.node} by {
        assert forall i :: 0 <= i < |before| ==> before[i] == log[i];
      }
      assert last.node !in Picked(before);
    }
  }

  lemma RoundsFit(log: seq<Round>, all: set<string>)
    requires PickedOnce(log) && Picked(log) <= all
    ensures |log| <= |all|
  {
    RoundsAreNodes(log);
    SubsetSize(Picked(log), all);
  }

  lemma AppendedNodes(log: seq<Round>, r: Round)
    ensures Picked(log + [r]) == Picked(log) + {r.node}
    ensures Marked(log + [r]) == Marked(log) + MarkedBy(r)
    ensures Probed(log + [r]) == Probed(log) + ProbedBy(r)
    ensures FirstFailed(log + [r]) <==> FirstFailed(log) || (r.Sent? && r.attempt == 1 && HasFailed(r))
    ensures SentCount(log + [r]) == SentCount(log) + if r.Sent? then 1 else 0
  {
    var all := log + [r];
    assert all[..|log|] == log && all[|log|] == r;
    assert forall i :: 0 <= i < |log| ==> all[i] == log[i];
  }

  lemma OneMore(n: int, tries: int)
    ensures (n + 1) * tries == n * tries + tries
  {
  }

  lemma NoMore(n: nat, m: nat, tries: nat)
    requires n <= m
    ensures n * tries <= m * tries
  {
  }

  lemma {:induction false} CallsPerAttempt(log: seq<Round>, tries: nat)
    requires forall i :: 0 <= i < |log| && log[i].Sent? ==> log[i].calls <= tries
    ensures Calls(log) <= SentCount(log) * tries
  {
    if log != [] {
      CallsPerAttempt(log[..|log| - 1], tries);
      OneMore(SentCount(log[..|log| - 1]), tries);
    }
  }

  /** Upstream calls per request are at most the distinct nodes tried times the transport's tries. */
  lemma CallsBounded(log: seq<Round>, tries: nat)
    requires forall i :: 0 <= i < |log| && log[i].Sent? ==> log[i].calls <= tries
    requires PickedOnce(log)
    ensures Calls(log) <= |Picked(log)| * tries
  {
    CallsPerAttempt(log, tries);
    RoundsAreNodes(log);
    NoMore(SentCount(log), |Picked(log)|, tries);
  }

  // ---------- what MaxAttempts limits ----------

  /** Every round is about one of the nodes in `weights`, at its weight. */
  predicate Among(log: seq<Round>, weights: map<string, int>) {
    forall k :: 0 <= k < |log| ==> log[k].node in weights && log[k].weight == weights[log[k].node]
  }

  /** A listed status after which another node is tried. */
  predicate Retryable(cfg: RetryConfig, status: int) {
    status in cfg.retryOnStatus && status >= SERVER_ERROR
  }

  lemma SentFits(log: seq<Round>, weights: map<string, int>)
    requires PickedOnce(log) && Among(log, weights)
    ensures SentCount(log) <= |weights|
  {
    RoundsFit(log, weights.Keys);
  }

  /** Where no server error is retried, a request is sent once. */
  lemma {:induction false} NothingRetried(cfg: RetryConfig, failLimit: int, log: seq<Round>)
    requires IsLog(cfg, failLimit, log) && forall status :: !Retryable(cfg, status)
    ensures SentCount(log) <= 1 && (log != [] && Continues(cfg, log[|log| - 1]) ==> SentCount(log) == 0)
  {
    if log != [] {
      NothingRetried(cfg, failLimit, log[..|log| - 1]);
      assert log[|log| - 1].Sent? ==> !Retryable(cfg, log[|log| - 1].retryStatus);
    }
  }
}
