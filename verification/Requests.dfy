/** What serving one `/v1/messages` request does, round by round: the effect of a round on the registry and the
    breakers, and what holds of the rounds so far. Everything outside the process (upstream replies, probe results,
    the client going away, jitter) is an oracle. */
module Requests {
  import opened Common
  import opened Nodes
  import opened Probes
  import opened Warmup
  import opened Priority
  import opened Journal
  import Breaker
  import Retry
  import Transport
  import opened RequestLog

  // ---------- one request's surroundings ----------

  /** Everything a request cannot decide itself: its body, the upstream's reply to each transport call of
      each attempt (given when the call starts and when its context expires), when the client has gone away,
      the `X-Upstream-Status` header visible after an attempt (0 if none), jitter and warm-up probes. Reading the
      body takes a while. */
  datatype Environment = Environment(
    body: Option<string>,
    reading: nat,
    reply: (nat, nat, int, int) -> Transport.Call,
    gone: int -> bool,
    header: nat -> int,
    jitter: nat -> real,
    probes: (nat, string, nat) -> Probe)

  ghost predicate Sensible(env: Environment) {
    && (forall k: nat, j: nat, t: int, e: int :: env.reply(k, j, t, e).reply.ContextError? ==>
                                                   env.reply(k, j, t, e).reply.reason != Transport.Alive)
    && Jitters(env.jitter)
  }

  /** The upstream respects the context it is given. */
  ghost predicate RespectsContext(env: Environment) {
    forall k: nat, j: nat, t: int, e: int :: t < e ==> t + env.reply(k, j, t, e).took <= e
  }

  function ReplyOf(env: Environment, k: nat, expiry: int): (nat, int) -> Transport.Call {
    (j: nat, t: int) => env.reply(k, j, t, expiry)
  }

  function ContextOf(env: Environment, expiry: int): int -> Transport.Context {
    (t: int) => if env.gone(t) then Transport.Canceled else if t >= expiry then Transport.DeadlineExceeded
      else Transport.Alive
  }

  function ProbesOf(env: Environment, k: nat): (string, nat) -> Probe {
    (i: string, j: nat) => env.probes(k, i, j)
  }

  /** The status the reverse proxy writes for what the transport reports. */
  function StatusOf(v: Transport.Verdict): int {
    match v
    case Passed(_) => OK
    case Rewritten(status, _) => status
    case Ended(reason) => if reason.DeadlineExceeded? then GATEWAY_TIMEOUT else CLIENT_CLOSED
    case NoBase => UNAVAILABLE
    case Failed(_) => UNAVAILABLE
  }

  lemma TransportEnds(
    env: Environment, k: nat, now: int, expiry: int, tries: nat, sent: seq<Transport.Sent>,
    verdict: Transport.Verdict, end: int)
    requires tries >= 1 && |sent| <= tries
    requires Transport.Calls(now, env.body, ContextOf(env, expiry), ReplyOf(env, k, expiry), sent)
    requires Transport.Concludes(tries, ContextOf(env, expiry), now, sent, verdict, end) || (sent == [] && end == now)
    requires forall j: nat, t: int, e: int :: t < e ==> t + env.reply(k, j, t, e).took <= e
    ensures end <= Transport.Later(now, expiry) + Transport.Pause(tries - 1)
  {
    Transport.EndsInTime(now, expiry, env.body, ContextOf(env, expiry), ReplyOf(env, k, expiry), sent);
  }

  /** How long the attempt after `attempts` others may take. */
  function TimeoutOf(cfg: Retry.RetryConfig, attempts: nat): int {
    if |cfg.perAttemptTimeouts| > attempts then cfg.perAttemptTimeouts[attempts] else cfg.perRequestTimeout
  }

  // ---------- breakers ----------

  /** The state of node `i`'s breaker; a node without one is treated as if it had a new one. */
  function ViewAt(v: map<string, Breaker.State>, i: string, now: int): Breaker.State {
    if i in v then v[i] else Breaker.Fresh(now)
  }

  predicate IsFresh(s: Breaker.State) {
    s == Breaker.Fresh(s.changedAt)
  }

  /** No breaker changed but those of `touched`, and these were cleared if they did. */
  ghost predicate OnlyCleared(v: map<string, Breaker.State>, w: map<string, Breaker.State>, touched: set<string>) {
    forall i, at :: ViewAt(w, i, at) == ViewAt(v, i, at) || (i in touched && IsFresh(ViewAt(w, i, at)))
  }

  /** The breaker of node `i` is as good as new. */
  ghost predicate Cleared(v: map<string, Breaker.State>, i: string) {
    forall at :: IsFresh(ViewAt(v, i, at))
  }

  lemma ClearedStays(v: map<string, Breaker.State>, w: map<string, Breaker.State>, touched: set<string>)
    requires OnlyCleared(v, w, touched)
    ensures forall i :: Cleared(v, i) ==> Cleared(w, i)
  {
    hide IsFresh;
  }

  lemma NewIsCleared(v: map<string, Breaker.State>, i: string, now: int)
    requires forall at :: ViewAt(v, i, at) == Breaker.Fresh(now)
    ensures Cleared(v, i)
  {
  }

  lemma ClearedTransitive(
    v: map<string, Breaker.State>, w: map<string, Breaker.State>, x: map<string, Breaker.State>,
    early: set<string>, late: set<string>, all: set<string>)
    requires OnlyCleared(v, w, early) && OnlyCleared(w, x, late) && early <= all && late <= all
    ensures OnlyCleared(v, x, all)
  {
    hide IsFresh;
    forall i, at
      ensures ViewAt(x, i, at) == ViewAt(v, i, at) || (i in all && IsFresh(ViewAt(x, i, at)))
    {
      assert ViewAt(x, i, at) == ViewAt(w, i, at) || (i in late && IsFresh(ViewAt(x, i, at)));
      assert ViewAt(w, i, at) == ViewAt(v, i, at) || (i in early && IsFresh(ViewAt(w, i, at)));
    }
  }

  /** What round `r`, beginning at `t`, makes of its node's breaker. */
  function Told(limits: Breaker.Config, s: Breaker.State, r: Round, t: int): Breaker.State {
    if r.Refused? then s
    else
      var asked := Breaker.Allow(limits, s, t);
      if r.Sent? && !IsContextError(r) then Breaker.Record(limits, asked, !HasFailed(r), r.finished) else asked
  }

  /** What round `r`, beginning at `t`, makes of all breakers: its own node's is told, those of warmed nodes may be
      cleared. */
  ghost predicate RoundTold(
    limits: Breaker.Config, v: map<string, Breaker.State>, w: map<string, Breaker.State>, r: Round, t: int)
  {
    && (forall i, at :: i != r.node || r.Refused? || !limits.enabled ==>
          ViewAt(w, i, at) == ViewAt(v, i, at) || (i in ProbedBy(r) && IsFresh(ViewAt(w, i, at))))
    && (limits.enabled && !r.Refused? ==>
          forall at :: ViewAt(w, r.node, at) == Told(limits, ViewAt(v, r.node, t), r, t))
  }

  // ---------- the effect of one round on the registry ----------

  /** Counting an attempt on an eligible node. */
  lemma CountedDrift(t: Tables, r: Ref, i: string, m: Node)
    requires r in t.accounts && OwnRecords(t.accounts[r], t.nodes) && Eligible(t.accounts[r], t.nodes, i)
    requires SameNode(t.nodes[t.accounts[r].nodes[i]], m) && !m.failed
    ensures var u := t.WithNode(t.accounts[r].nodes[i], m);
            && Drift(t, u, r) && OwnRecords(u.accounts[r], u.nodes) && Eligible(u.accounts[r], u.nodes, i)
            && FailuresExplained(t.accounts[r].nodes, t.nodes, u.nodes, {}, {})
            && (Cheapest(t.accounts[r], t.nodes) ==> Cheapest(u.accounts[r], u.nodes))
  {
    forall j, k | j in t.accounts[r].nodes && k in t.accounts[r].nodes
      && t.accounts[r].nodes[j] == t.accounts[r].nodes[k]
      ensures j == k
    {
      assert t.nodes[t.accounts[r].nodes[j]].id == j;
    }
    assert Follow(t.accounts, r, i, false) == t.accounts by {
      assert t.accounts[r].failedSet - {i} == t.accounts[r].failedSet;
    }
    NodeDrift(t, r, i, m);
  }

  lemma DriftKeeps(t: Tables, u: Tables, r: Ref)
    requires Drift(t, u, r)
    ensures forall i :: Eligible(u.accounts[r], u.nodes, i) ==> Eligible(t.accounts[r], t.nodes, i)
    ensures u.nodes.Keys == t.nodes.Keys && r in u.accounts && r in t.accounts
    ensures u.accounts[r].nodes == t.accounts[r].nodes && u.accounts[r].id == t.accounts[r].id
    ensures forall p :: p in t.nodes ==> SameNode(t.nodes[p], u.nodes[p])
  {
  }

  lemma ExplainedTransitive(
    nodes: map<string, Ref>, h: NodeTable, g: NodeTable, f: NodeTable, early: set<string>, late: set<string>,
    before: set<string>, after: set<string>)
    requires FailuresExplained(nodes, h, g, early, before) && FailuresExplained(nodes, g, f, late, after)
    requires g.Keys == h.Keys
    ensures FailuresExplained(nodes, h, f, early + late, before + after)
  {
  }

  /** What counting an attempt makes of its node's record. */
  function Counted(n: Node, round: Round): Node
    requires round.Sent?
  {
    Metered(n, round.status == OK, HasFailed(round) && !IsContextError(round))
  }

  /** A reselection that warmed the nodes of `warmed` took the tables from `t` to `v`. */
  ghost predicate Reactivated(
    c: WarmupConfig, t: Tables, v: Tables, r: Ref, probes: (string, nat) -> Probe, warmed: seq<string>)
  {
    exists best :: Activation(c, t, v, r, {}, probes, best, warmed)
  }

  /** A refused or late round changes nothing. An attempt is counted in its node's record; if it marked the
      node failed, a reselection over the whole account followed. */
  ghost predicate RoundEffect(
    c: WarmupConfig, t: Tables, v: Tables, r: Ref, round: Round, probes: (string, nat) -> Probe)
  {
    r in t.accounts &&
    if !round.Sent? then v == t
    else
      && round.node in t.accounts[r].nodes && t.accounts[r].nodes[round.node] in t.nodes
      && var p := t.accounts[r].nodes[round.node];
         var n := Counted(t.nodes[p], round);
         && round.streak == (if HasFailed(round) && !IsContextError(round) then n.failStreak else 0)
         && round.ended == round.finished + TimeSpent(c, probes, round.warmed)
         && if !round.marked then v == t.WithNode(p, n) && round.warmed == []
            else Reactivated(c, MarkedTables(t, r, round.node, n), v, r, probes, round.warmed)
  }

  /** Node `i`, whose record has become `n`, is marked failed. */
  function MarkedTables(t: Tables, r: Ref, i: string, n: Node): Tables
    requires r in t.accounts && i in t.accounts[r].nodes
  {
    Tables(Listed(t.accounts, r, i), t.nodes[t.accounts[r].nodes[i] := Checked(n, false)])
  }

  lemma EffectOfAttempt(
    c: WarmupConfig, t: Tables, v: Tables, r: Ref, round: Round, probes: (string, nat) -> Probe, best: Option<string>)
    requires round.Sent? && r in t.accounts && round.node in t.accounts[r].nodes
             && t.accounts[r].nodes[round.node] in t.nodes
    requires round.ended == round.finished + TimeSpent(c, probes, round.warmed)
    requires var p := t.accounts[r].nodes[round.node];
             var n := Counted(t.nodes[p], round);
             && round.streak == (if HasFailed(round) && !IsContextError(round) then n.failStreak else 0)
             && if !round.marked then v == t.WithNode(p, n) && round.warmed == []
                else
                  Activation(c, Tables(Listed(t.accounts, r, round.node), t.nodes[p := n][p := Checked(n, false)]), v,
                    r, {},
                             probes, best, round.warmed)
    ensures RoundEffect(c, t, v, r, round, probes)
  {
    hide Activation, Counted, TimeSpent;
    var p := t.accounts[r].nodes[round.node];
    var n := Counted(t.nodes[p], round);
    assert t.nodes[p := n][p := Checked(n, false)] == t.nodes[p := Checked(n, false)];
  }

  lemma EffectMeans(c: WarmupConfig, t: Tables, v: Tables, r: Ref, round: Round, probes: (string, nat) -> Probe)
    requires RoundEffect(c, t, v, r, round, probes)
    requires round.Sent? ==> OwnRecords(t.accounts[r], t.nodes) && Eligible(t.accounts[r], t.nodes, round.node)
    ensures Drift(t, v, r)
    ensures FailuresExplained(t.accounts[r].nodes, t.nodes, v.nodes, MarkedBy(round), ProbedBy(round))
    ensures (!c.enabled ==> ProbedBy(round) == {}) && MarkedBy(round) !! ProbedBy(round)
    ensures forall i :: i in ProbedBy(round) ==> Eligible(t.accounts[r], t.nodes, i)
    ensures !c.enabled && Cheapest(t.accounts[r], t.nodes) ==> Cheapest(v.accounts[r], v.nodes)
  {
    hide Activation, Drift, FailuresExplained, Cheapest, Counted, TimeSpent;
    if !round.Sent? {
      NoDrift(t, r);
    } else {
      var i, p := round.node, t.accounts[r].nodes[round.node];
      var n := Counted(t.nodes[p], round);
      CountedRecord(t.nodes[p], round);
      CountedDrift(t, r, i, n);
      assert Elements<string>([]) == {};
      if round.marked {
        MarkedMeans(c, t, v, r, i, n, probes, round.warmed);
      }
    }
  }

  /** An attempt that marks nothing changes its node's record and no other: it is counted, a 200 clears the failure
      state and anything else is a failure, and one that failed for another reason than its context lengthens the
      streak. So says the event in the journal. */
  lemma AttemptCounts(
    c: WarmupConfig, t: Tables, v: Tables, r: Ref, round: Round, probes: (string, nat) -> Probe, best: Option<string>)
    requires RoundEffect(c, t, v, r, round, probes) && round.Sent? && !round.marked
    ensures var p := t.accounts[r].nodes[round.node];
            var n := t.nodes[p];
            var strike := (round.status != 200 || round.retryStatus >= 500) && round.status != 499
                          && round.status != 504;
            var streak := if round.status == 200 then 0 else n.failStreak;
            && EventsOf(r, round, probes, best) == [AttemptCounted(round.node, round.status == 200, strike)]
            && v == t.WithNode(p, n.(
               requests := n.requests + 1, failed := n.failed && round.status != 200,
               failCount := n.failCount + (if round.status == 200 then 0 else 1),
               failStreak := streak + if strike then 1 else 0))
  {
    hide TimeSpent;
  }

  lemma CountedAlike(round: Round, settled: Round)
    requires round.Sent? && settled.Sent?
    requires settled ==
             round.(streak := settled.streak, marked := settled.marked, warmed := settled.warmed,
               ended := settled.ended)
    ensures forall n :: Counted(n, round) == Counted(n, settled)
  {
  }

  lemma CountedRecord(n: Node, round: Round)
    requires round.Sent? && !n.failed
    ensures SameNode(n, Counted(n, round)) && !Counted(n, round).failed
  {
  }

  lemma MarkedMeans(
    c: WarmupConfig, t: Tables, v: Tables, r: Ref, i: string, n: Node, probes: (string, nat) -> Probe,
    warmed: seq<string>)
    requires r in t.accounts && OwnRecords(t.accounts[r], t.nodes) && Eligible(t.accounts[r], t.nodes, i)
    requires SameNode(t.nodes[t.accounts[r].nodes[i]], n) && !n.failed
    requires var u := t.WithNode(t.accounts[r].nodes[i], n);
             Drift(t, u, r) && FailuresExplained(t.accounts[r].nodes, t.nodes, u.nodes, {}, {})
    requires Reactivated(c, MarkedTables(t, r, i, n), v, r, probes, warmed)
    ensures Drift(t, v, r) && FailuresExplained(t.accounts[r].nodes, t.nodes, v.nodes, {i}, Elements(warmed))
    ensures i !in warmed && (!c.enabled ==> warmed == [])
    ensures forall j :: j in warmed ==> Eligible(t.accounts[r], t.nodes, j)
    ensures !c.enabled && Cheapest(t.accounts[r], t.nodes) ==> Cheapest(v.accounts[r], v.nodes)
  {
    hide Activation, Drift, FailuresExplained;
    var u, x := t.WithNode(t.accounts[r].nodes[i], n), MarkedTables(t, r, i, n);
    var best :| Activation(c, x, v, r, {}, probes, best, warmed);
    assert x.nodes == u.nodes[t.accounts[r].nodes[i] := Checked(n, false)];
    MarkedAndReselected(c, u, x, v, r, i, probes, best, warmed);
    DriftTransitive(t, u, v, r);
    DriftKeeps(t, u, r);
    DriftKeeps(t, v, r);
    ExplainedTransitive(t.accounts[r].nodes, t.nodes, u.nodes, v.nodes, {}, {i}, {}, Elements(warmed));
    assert {} + {i} == {i} && {} + Elements(warmed) == Elements(warmed);
    if !c.enabled && Cheapest(t.accounts[r], t.nodes) {
      CheapestActivated(c, x, v, r, probes, best, warmed);
    }
  }

  lemma NoDrift(t: Tables, r: Ref)
    requires r in t.accounts
    ensures Drift(t, t, r) && FailuresExplained(t.accounts[r].nodes, t.nodes, t.nodes, {}, {})
  {
  }

  // ---------- what a request adds to the journal ----------

  /** The attempt as an event. */
  function CountOf(round: Round): Event
    requires round.Sent?
  {
    AttemptCounted(round.node, round.status == OK, HasFailed(round) && !IsContextError(round))
  }

  /** The events of one round: an attempt is counted, and if it marks its node a reselection follows. */
  function EventsOf(r: Ref, round: Round, probes: (string, nat) -> Probe, best: Option<string>): seq<Event> {
    if !round.Sent? then []
    else [CountOf(round)] + if round.marked then [MarkedFailed(round.node), Reselection(r, probes, best, round.warmed)]
      else []
  }

  ghost predicate RoundAdds(j: Journal, k: Journal, r: Ref, round: Round, probes: (string, nat) -> Probe) {
    exists best :: Adds(j, k, EventsOf(r, round, probes, best))
  }

  /** The events of all rounds in order; `best` says what each reselection chose. */
  function AllEventsOf(r: Ref, env: Environment, log: seq<Round>, best: seq<Option<string>>): seq<Event>
    requires |best| == |log|
  {
    if log == [] then []
    else
      var n := |log| - 1;
      AllEventsOf(r, env, log[..n], best[..n]) + EventsOf(r, log[n], ProbesOf(env, SentCount(log[..n]) + 1), best[n])
  }

  ghost predicate RequestAdds(j: Journal, k: Journal, r: Ref, env: Environment, log: seq<Round>) {
    exists best :: |best| == |log| && Adds(j, k, AllEventsOf(r, env, log, best))
  }

  lemma AddsOfRound(
    j: Journal, k: Journal, l: Journal, r: Ref, round: Round, probes: (string, nat) -> Probe, best: Option<string>)
    requires round.Sent? && Adds(j, k, [CountOf(round)])
    requires if round.marked then Adds(k, l, [MarkedFailed(round.node), Reselection(r, probes, best, round.warmed)])
             else l == k
    ensures RoundAdds(j, l, r, round, probes)
  {
    hide Adds;
    if round.marked {
      AddsMore(j, k, l, [CountOf(round)], [MarkedFailed(round.node), Reselection(r, probes, best, round.warmed)]);
    }
    assert Adds(j, l, EventsOf(r, round, probes, best)) by {
      assert [CountOf(round)] + [] == [CountOf(round)];
    }
  }

  lemma AllEventsGrow(
    r: Ref, env: Environment, log: seq<Round>, all: seq<Option<string>>, round: Round, best: Option<string>)
    requires |all| == |log|
    ensures AllEventsOf(r, env, log + [round], all + [best]) ==
            AllEventsOf(r, env, log, all) + EventsOf(r, round, ProbesOf(env, SentCount(log) + 1), best)
  {
    hide EventsOf, ProbesOf, SentCount;
    assert (log + [round])[..|log|] == log && (all + [best])[..|log|] == all;
  }

  lemma AddsOfRequest(
    j: Journal, k: Journal, l: Journal, r: Ref, env: Environment, log: seq<Round>, round: Round, attempt: nat)
    requires RequestAdds(j, k, r, env, log) && RoundAdds(k, l, r, round, ProbesOf(env, attempt))
    requires attempt == SentCount(log) + 1
    ensures RequestAdds(j, l, r, env, log + [round])
  {
    hide Adds, AllEventsOf, EventsOf, ProbesOf, SentCount;
    var all: seq<Option<string>> :| |all| == |log| && Adds(j, k, AllEventsOf(r, env, log, all));
    var best :| Adds(k, l, EventsOf(r, round, ProbesOf(env, attempt), best));
    AddsMore(j, k, l, AllEventsOf(r, env, log, all), EventsOf(r, round, ProbesOf(env, attempt), best));
    AllEventsGrow(r, env, log, all, round, best);
    assert Adds(j, l, AllEventsOf(r, env, log + [round], all + [best]));
  }

  lemma NoEvents(j: Journal, r: Ref, round: Round, probes: (string, nat) -> Probe)
    requires !round.Sent?
    ensures RoundAdds(j, j, r, round, probes)
  {
    assert Adds(j, j, EventsOf(r, round, probes, None));
  }

  lemma NothingAdded(j: Journal, r: Ref, env: Environment)
    ensures RequestAdds(j, j, r, env, [])
  {
    assert Adds(j, j, AllEventsOf(r, env, [], []));
  }

  // ---------- serving a request ----------

  datatype Exit = Answered | DeadlineReached | OutOfNodes | LoopCap

  /** Where the server is: its tables, the ledgers of grants and results, and the states of its breakers. */
  datatype Moment = Moment(
    tables: Tables, granted: map<string, nat>, reported: map<string, nat>, breakers: map<string, Breaker.State>)

  /** What a request starts from: the settings, what is outside, when it came and for which account, and where the
      server was then. */
  datatype Setting = Setting(
    retry: Retry.RetryConfig, failLimit: int, warmup: WarmupConfig, limits: Breaker.Config, hasBase: bool, tries: nat,
    env: Environment, start: int, account: Ref, from: Moment)
  {
    predicate Timed() {
      retry.totalTimeout > 0
    }

    function Deadline(): int {
      start + retry.totalTimeout
    }

    /** When the next round begins. */
    function ClockAfter(log: seq<Round>): int
      requires Jitters(env.jitter)
    {
      Clock(retry, env.jitter, start + env.reading, log)
    }

    /** When an attempt after `attempts` others that starts at `now` expires. */
    function Expiry(attempts: nat, now: int): int {
      var timeout := TimeoutOf(retry, attempts);
      if Timed() && Deadline() - now < timeout then Deadline() else now + timeout
    }

    function Nodes(): map<string, Ref>
      requires account in from.tables.accounts
    {
      from.tables.accounts[account].nodes
    }

    /** When a timed request is over at the latest if nothing is warmed for it. */
    function PlainEnd(): int {
      Deadline() + Transport.Pause(tries - 1) + Retry.EffectiveMax(retry)
    }

    /** When it is over at the latest in any case. */
    function LatestEnd(): int
      requires account in from.tables.accounts
    {
      PlainEnd() + HandlingTime(warmup, |Nodes()|)
    }

    /** How long nodes were warmed because of the last attempt. */
    function LastWarmup(log: seq<Round>): nat {
      if log == [] then 0
      else
        var r := log[|log| - 1];
        if r.Sent? then TimeSpent(warmup, ProbesOf(env, r.attempt), r.warmed) else LastWarmup(log[..|log| - 1])
    }
  }

  /** Where the request loop is after the rounds in `log`, now that the tables are `u`: a proper log, each node picked
      at most once and by non-decreasing weight, all of them eligible at the start, nothing else in the registry
      changed, only nodes that a round marked failed or that were warmed because of one newly failed, and the active
      node still the cheapest if it was and warm-up is off. */
  ghost predicate Served(s: Setting, log: seq<Round>, u: Tables) {
    var t, r := s.from.tables, s.account;
    && IsLog(s.retry, s.failLimit, log) && PickedOnce(log)
    && Drift(t, u, r)
    && (forall k :: 0 <= k < |log| ==>
          Eligible(t.accounts[r], t.nodes, log[k].node)
            && log[k].weight == t.nodes[t.accounts[r].nodes[log[k].node]].weight)
    && FailuresExplained(t.accounts[r].nodes, t.nodes, u.nodes, Marked(log), Probed(log))
    && (!s.warmup.enabled ==> Probed(log) == {})
    && (forall i :: i in Probed(log) ==> Eligible(t.accounts[r], t.nodes, i))
    && (!s.warmup.enabled && Cheapest(t.accounts[r], t.nodes) ==> Cheapest(u.accounts[r], u.nodes))
  }

  /** No node still open to the request is cheaper than one already picked. */
  ghost predicate CheapestFirst(u: Tables, r: Ref, log: seq<Round>) {
    r in u.accounts &&
    forall i, k :: Eligible(u.accounts[r], u.nodes, i) && i !in Picked(log) && 0 <= k < |log| ==>
                     log[k].weight <= u.nodes[u.accounts[r].nodes[i]].weight
  }

  /** The effect of the rounds on the ledgers of grants and results. */
  ghost predicate LedgersFollow(enabled: bool, from: Moment, log: seq<Round>, to: Moment) {
    if enabled then to.granted == GrantLedger(from.granted, log) && to.reported == ResultLedger(from.reported, log)
    else to.granted == from.granted && to.reported == from.reported
  }

  /** The attempt is what the transport made of the upstream's replies: it started at `at`, ended when the
      answer was there, and its status and calls are those of the transport's verdict. */
  ghost predicate Exchanged(env: Environment, hasBase: bool, tries: nat, r: Round)
    requires r.Sent?
  {
    && r.retryStatus == (if env.header(r.attempt) != 0 then env.header(r.attempt) else r.status)
    && exists verdict, sent :: Transported(env, hasBase, tries, r, verdict, sent)
  }

  ghost predicate Transported(
    env: Environment, hasBase: bool, tries: nat, r: Round, verdict: Transport.Verdict, sent: seq<Transport.Sent>)
    requires r.Sent?
  {
    && |sent| == r.calls <= tries && r.status == StatusOf(verdict)
    && Transport.Calls(r.at, env.body, ContextOf(env, r.expiry), ReplyOf(env, r.attempt, r.expiry), sent)
    && if hasBase then Transport.Concludes(tries, ContextOf(env, r.expiry), r.at, sent, verdict, r.finished)
       else sent == [] && verdict == Transport.NoBase && r.finished == r.at
  }

  lemma ExchangedBy(
    env: Environment, hasBase: bool, tries: nat, r: Round, verdict: Transport.Verdict, sent: seq<Transport.Sent>)
    requires r.Sent? && |sent| == r.calls <= tries && r.status == StatusOf(verdict)
    requires r.retryStatus == if env.header(r.attempt) != 0 then env.header(r.attempt) else r.status
    requires Transport.Calls(r.at, env.body, ContextOf(env, r.expiry), ReplyOf(env, r.attempt, r.expiry), sent)
    requires if hasBase then Transport.Concludes(tries, ContextOf(env, r.expiry), r.at, sent, verdict, r.finished)
             else sent == [] && verdict == Transport.NoBase && r.finished == r.at
    ensures Exchanged(env, hasBase, tries, r)
  {
    assert Transported(env, hasBase, tries, r, verdict, sent);
  }

  /** An attempt counts as a 200 exactly when its last upstream call answered 200. It counts as 504 or 499 exactly
      when the transport ended on a context error, a deadline or another one, whether its own context's or one that
      an upstream call reported, or when no call succeeded and 504 or 499 is what the upstream itself said last. If all
      calls were made in vain, its status is that of the last response, and 503 if there was none, as it is without a
      base transport. Every call carries the request's body, and none starts when the client has gone away or the
      attempt has expired. */
  lemma StatusTells(
    env: Environment, hasBase: bool, tries: nat, r: Round, verdict: Transport.Verdict, sent: seq<Transport.Sent>)
    requires r.Sent? && Transported(env, hasBase, tries, r, verdict, sent) && tries >= 1
    ensures r.status == OK <==>
            sent != [] && sent[|sent| - 1].call.reply.Response? && sent[|sent| - 1].call.reply.status == OK
    ensures var said := hasBase && !verdict.Ended? && Transport.LastAnswer(sent).Some?;
            && (r.status == GATEWAY_TIMEOUT <==>
                  verdict == Transport.Ended(Transport.DeadlineExceeded)
                  || (said && Transport.LastAnswer(sent).value.status == GATEWAY_TIMEOUT))
            && (r.status == CLIENT_CLOSED <==>
                  (verdict.Ended? && !verdict.reason.DeadlineExceeded?)
                  || (said && Transport.LastAnswer(sent).value.status == CLIENT_CLOSED))
    ensures !hasBase || (!verdict.Ended? && forall i :: 0 <= i < |sent| ==> sent[i].call.reply.NetworkError?) ==>
              r.status == 503
    ensures forall i :: 0 <= i < |sent| && sent[i].call.reply.Response? && !verdict.Ended?
                        && (forall j :: i < j < |sent| ==> sent[j].call.reply.NetworkError?) ==>
                          r.status == sent[i].call.reply.status
    ensures hasBase && verdict.Ended? && (sent == [] || !sent[|sent| - 1].call.reply.ContextError?) ==>
              if env.gone(r.finished) then r.status == 499 else r.finished >= r.expiry && r.status == 504
    ensures sent != [] && sent[|sent| - 1].call.reply.ContextError? ==>
              r.status == if sent[|sent| - 1].call.reply.reason.DeadlineExceeded? then 504 else 499
    ensures forall i :: 0 <= i < |sent| ==>
                          && sent[i].call == env.reply(r.attempt, i, sent[i].at, r.expiry) && sent[i].body == env.body
                          && !env.gone(sent[i].at) && sent[i].at < r.expiry
  {
    if forall i :: 0 <= i < |sent| ==> !Transport.Final(sent[i].call.reply) {
      Transport.NoSuccessToReport(sent);
    }
    Transport.LastAnswerTold(sent);
  }

  /** Every attempt of the request went through the transport, started before the deadline and had expired by then if
      there is one, and was over when the reselection after it, if any, was. */
  ghost predicate Bounded(s: Setting, log: seq<Round>) {
    forall k :: 0 <= k < |log| && log[k].Sent? ==> BoundedRound(s, log[k])
  }

  ghost predicate BoundedRound(s: Setting, r: Round)
    requires r.Sent?
  {
    && Exchanged(s.env, s.hasBase, s.tries, r)
    && (s.Timed() ==> r.at < s.Deadline() && r.expiry <= s.Deadline())
    && r.ended == r.finished + TimeSpent(s.warmup, ProbesOf(s.env, r.attempt), r.warmed)
  }

  /** Upstream calls per request are at most the distinct nodes tried times the transport's tries. */
  lemma RequestCalls(s: Setting, log: seq<Round>)
    requires Bounded(s, log) && PickedOnce(log)
    ensures Calls(log) <= |Picked(log)| * s.tries
  {
    forall k | 0 <= k < |log| && log[k].Sent?
      ensures log[k].calls <= s.tries
    {
      assert BoundedRound(s, log[k]);
    }
    CallsBounded(log, s.tries);
  }

  /** Why round `r` went the way it did. It is refused only if the breaker its node had when the request came refuses
      it, and always then unless the node has been warmed meanwhile; it is late exactly when the deadline has passed;
      an attempt expires with its own timeout or at the deadline. If it marks its node, the reselection that follows
      warms the other nodes, but for such as are no better than the one that passes. An attempt's streak counts on from
      the node's record, which is still that from the start unless the node has been warmed. */
  ghost predicate Ruled(s: Setting, before: seq<Round>, r: Round)
    requires Jitters(s.env.jitter)
  {
    var t := s.ClockAfter(before);
    && (r.Refused? ==> !Breaker.Grants(s.limits, ViewAt(s.from.breakers, r.node, t), t))
    && (!Breaker.Grants(s.limits, ViewAt(s.from.breakers, r.node, t), t) && r.node !in Probed(before) ==> r.Refused?)
    && (r.Late? <==> !r.Refused? && s.Timed() && t >= s.Deadline())
    && (r.Sent? ==> r.expiry == s.Expiry(SentCount(before), t))
    && (r.Sent? && r.marked && s.warmup.enabled ==> WarmsOthers(s, before, r))
    && (r.Sent? ==> StreakFollows(s, before, r))
  }

  ghost predicate StreakFollows(s: Setting, before: seq<Round>, r: Round)
    requires r.Sent?
  {
    && s.account in s.from.tables.accounts && r.node in s.Nodes() && s.Nodes()[r.node] in s.from.tables.nodes
    && (r.node !in Probed(before) ==>
          r.streak == if HasFailed(r) && !IsContextError(r)
                      then Counted(s.from.tables.nodes[s.Nodes()[r.node]], r).failStreak else 0)
  }

  /** The record of a node neither picked nor warmed so far is that from the start. */
  ghost predicate RecordsKept(s: Setting, log: seq<Round>, u: Tables) {
    && s.account in s.from.tables.accounts
    && forall i :: i in s.Nodes() && s.Nodes()[i] in s.from.tables.nodes && i !in Picked(log) && i !in Probed(log) ==>
                     s.Nodes()[i] in u.nodes && u.nodes[s.Nodes()[i]] == s.from.tables.nodes[s.Nodes()[i]]
  }

  /** Every node that was eligible when the request came, and neither marked nor warmed since, is warmed in round `r`,
      tried before or not, unless the last one warmed there passes and is no worse. */
  ghost predicate WarmsOthers(s: Setting, before: seq<Round>, r: Round)
    requires r.Sent?
  {
    s.account in s.from.tables.accounts
    && var a, h := s.from.tables.accounts[s.account], s.from.tables.nodes;
    forall i :: Eligible(a, h, i) && i !in Marked(before) && i !in Probed(before) && i != r.node && i !in r.warmed ==>
                  && r.warmed != []
                  && var b := r.warmed[|r.warmed| - 1];
                  Passes(s.warmup, Of(ProbesOf(s.env, r.attempt), b)) && Eligible(a, h, b)
                    && !Better(h[a.nodes[i]], h[a.nodes[b]])
  }

  ghost predicate AllRuled(s: Setting, log: seq<Round>)
    requires Jitters(s.env.jitter)
  {
    forall k :: 0 <= k < |log| ==> Ruled(s, log[..k], log[k])
  }

  /** Breakers of nodes that were neither picked nor warmed have not changed, warmed ones may have been cleared, and
      that of a picked node that was not warmed is where its round took it. */
  ghost predicate BreakersFollow(s: Setting, log: seq<Round>, v: map<string, Breaker.State>)
    requires Jitters(s.env.jitter)
  {
    && (forall i, at :: i !in Picked(log) || !s.limits.enabled ==>
          ViewAt(v, i, at) == ViewAt(s.from.breakers, i, at) || (i in Probed(log) && IsFresh(ViewAt(v, i, at))))
    && (s.limits.enabled ==>
          forall k, at :: 0 <= k < |log| && log[k].node !in Probed(log) ==>
            ViewAt(v, log[k].node, at) ==
            if log[k].Refused? then ViewAt(s.from.breakers, log[k].node, at) else ToldAt(s, log, k))
  }

  function ToldAt(s: Setting, log: seq<Round>, k: nat): Breaker.State
    requires Jitters(s.env.jitter) && k < |log|
  {
    var t := s.ClockAfter(log[..k]);
    Told(s.limits, ViewAt(s.from.breakers, log[k].node, t), log[k], t)
  }

  /** Why the loop ended: an attempt that is not retried, the deadline, or no eligible node left untried. */
  ghost predicate EndedBy(exit: Exit, s: Setting, log: seq<Round>, u: Tables) {
    match exit
    case Answered => log != [] && log[|log| - 1].Sent? && !IsRetried(s.retry, log[|log| - 1])
    case DeadlineReached => log != [] && log[|log| - 1].Late? && s.Timed()
    case OutOfNodes =>
      && (log != [] ==> Continues(s.retry, log[|log| - 1]))
      && s.account in u.accounts && forall i :: Eligible(u.accounts[s.account], u.nodes, i) ==> i in Picked(log)
    case LoopCap => false
  }

  /** Everything that holds of the rounds so far and of where the server is; it is now `now`. */
  ghost predicate Progress(s: Setting, log: seq<Round>, m: Moment, now: int) {
    && Served(s, log, m.tables) && CheapestFirst(m.tables, s.account, log)
    && LedgersFollow(s.limits.enabled, s.from, log, m) && Bounded(s, log)
    && Jitters(s.env.jitter) && Paced(s.retry, s.env.jitter, s.start + s.env.reading, log) && now == s.ClockAfter(log)
    && AllRuled(s, log) && BreakersFollow(s, log, m.breakers) && RecordsKept(s, log, m.tables)
  }

  /** How a whole request went: the rounds in `log`, for the reason `exit`, left the server at `m`, at time `end`. */
  ghost predicate Handled(s: Setting, log: seq<Round>, exit: Exit, m: Moment, end: int) {
    && Served(s, log, m.tables) && CheapestFirst(m.tables, s.account, log)
    && LedgersFollow(s.limits.enabled, s.from, log, m) && Bounded(s, log)
    && Jitters(s.env.jitter) && Paced(s.retry, s.env.jitter, s.start + s.env.reading, log)
    && AllRuled(s, log) && BreakersFollow(s, log, m.breakers) && RecordsKept(s, log, m.tables)
    && EndedBy(exit, s, log, m.tables)
    && s.start + s.env.reading <= end && (forall k :: 0 <= k < |log| && log[k].Sent? ==> log[k].ended <= end)
    && (s.Timed() && RespectsContext(s.env) && s.account in s.from.tables.accounts ==>
          && end <= Transport.Later(s.start + s.env.reading, s.LatestEnd())
          && end <= Transport.Later(s.start + s.env.reading, s.PlainEnd() + s.LastWarmup(log)))
  }

  /** The loop's own variables. */
  datatype Tally = Tally(skip: set<string>, attempts: nat, firstFailed: bool)

  ghost predicate Tracks(log: seq<Round>, v: Tally) {
    v.skip == Picked(log) && v.attempts == SentCount(log) && (v.firstFailed <==> FirstFailed(log))
  }

  function Tallied(v: Tally, round: Round): Tally {
    Tally(v.skip + {round.node}, v.attempts + if round.Sent? then 1 else 0,
          v.firstFailed || (round.Sent? && v.attempts == 0 && HasFailed(round)))
  }

  /** The attempt is final unless it is retried and others may follow, and only a final one is accounted. */
  predicate Classified(cfg: Retry.RetryConfig, r: Round, firstFailed: bool)
    requires r.Sent?
  {
    && (r.isFinal <==> !HasFailed(r) || !IsRetried(cfg, r) || r.attempt >= cfg.maxAttempts)
    && r.attemptsTotal == (if r.isFinal then r.attempt else 0)
    && r.retrySuccess == (if r.isFinal && !HasFailed(r) && firstFailed then 1 else 0)
  }

  lemma AttemptBooked(
    cfg: Retry.RetryConfig, failLimit: int, before: seq<Round>, sent: Round, r: Round, firstFailed: bool,
    env: Environment, hasBase: bool, tries: nat)
    requires sent.Sent? && r.Sent? && r == sent.(streak := r.streak, marked := r.marked, warmed := r.warmed,
               ended := r.ended)
    requires (!r.marked ==> r.warmed == []) && r.node !in r.warmed
    requires (r.streak >= 1 <==> HasFailed(sent) && !IsContextError(sent))
    requires r.attempt == SentCount(before) + 1 && (firstFailed <==> FirstFailed(before))
    requires Classified(cfg, sent, firstFailed) && Exchanged(env, hasBase, tries, sent)
    requires r.marked <==>
             HasFailed(sent) && !IsContextError(sent) && sent.attempt >= cfg.maxAttempts && r.streak >= Limit(failLimit)
    ensures Booked(cfg, failLimit, before, r) && Exchanged(env, hasBase, tries, r)
    ensures HasFailed(sent) == HasFailed(r)
  {
    var verdict, calls :| Transported(env, hasBase, tries, sent, verdict, calls);
    assert Transported(env, hasBase, tries, r, verdict, calls);
  }

  /** What happened to the picked node in one round that began at `now`, when the server was at `m`, and was over at
      `end`, when it is at `n`. */
  ghost predicate Tried(s: Setting, log: seq<Round>, round: Round, m: Moment, n: Moment, now: int, end: int) {
    && (round.Refused? <==> !Breaker.Grants(s.limits, ViewAt(m.breakers, round.node, now), now))
    && (round.Late? <==> !round.Refused? && s.Timed() && now >= s.Deadline())
    && (round.Sent? ==>
          && Booked(s.retry, s.failLimit, log, round) && BoundedRound(s, round)
          && round.at == now && round.ended == end && round.expiry == s.Expiry(SentCount(log), now))
    && (!round.Sent? ==> end == now)
    && now <= end
    && RoundEffect(s.warmup, m.tables, n.tables, s.account, round, ProbesOf(s.env, SentCount(log) + 1))
    && RoundTold(s.limits, m.breakers, n.breakers, round, now)
    && n.granted == (if !s.limits.enabled || round.Refused? then m.granted else Bump(m.granted, round.node))
    && n.reported == (if !s.limits.enabled || !round.Sent? || IsContextError(round) then m.reported
                      else Bump(m.reported, round.node))
  }

  /** The node of `round` is the cheapest one open to the request. */
  ghost predicate IsPick(u: Tables, r: Ref, log: seq<Round>, round: Round) {
    && r in u.accounts && Eligible(u.accounts[r], u.nodes, round.node) && round.node !in Picked(log)
    && round.weight == u.nodes[u.accounts[r].nodes[round.node]].weight
    && forall i :: Eligible(u.accounts[r], u.nodes, i) && i !in Picked(log) ==>
                     round.weight <= u.nodes[u.accounts[r].nodes[i]].weight
  }

  /** When the round after `round` begins, if `round` was over at `end`. */
  function NextAt(s: Setting, round: Round, end: int): int
    requires Jitters(s.env.jitter)
  {
    if round.Sent? then end + Retry.CalculateBackoff(round.attempt - 1, s.retry, s.env.jitter(round.attempt)) else end
  }

  // ---------- one more round ----------

  lemma RoundServed(s: Setting, log: seq<Round>, u: Tables, v: Tables, round: Round)
    requires Served(s, log, u) && CheapestFirst(u, s.account, log)
    requires log != [] ==> Continues(s.retry, log[|log| - 1])
    requires IsPick(u, s.account, log, round) && (round.Sent? ==> Booked(s.retry, s.failLimit, log, round))
    requires Drift(u, v, s.account)
    requires FailuresExplained(u.accounts[s.account].nodes, u.nodes, v.nodes, MarkedBy(round), ProbedBy(round))
    requires !s.warmup.enabled ==> ProbedBy(round) == {}
    requires forall i :: i in ProbedBy(round) ==> Eligible(u.accounts[s.account], u.nodes, i)
    requires !s.warmup.enabled && Cheapest(u.accounts[s.account], u.nodes) ==> Cheapest(v.accounts[s.account], v.nodes)
    ensures Served(s, log + [round], v) && CheapestFirst(v, s.account, log + [round])
  {
    hide IsLog, Drift, FailuresExplained, Booked, Continues, PickedOnce, Picked, Marked, CheapestFirst, Cheapest;
    var t, r, all := s.from.tables, s.account, log + [round];
    LogExtends(s.retry, s.failLimit, log, round);
    AppendedNodes(log, round);
    DriftKeeps(t, u, r);
    DriftKeeps(u, v, r);
    DriftTransitive(t, u, v, r);
    PickedAgain(u, r, log, round);
    CheaperStill(u, v, r, log, round);
    ExplainedTransitive(t.accounts[r].nodes, t.nodes, u.nodes, v.nodes, Marked(log), MarkedBy(round), Probed(log),
      ProbedBy(round));
    assert SameNode(t.nodes[t.accounts[r].nodes[round.node]], u.nodes[t.accounts[r].nodes[round.node]]);
  }

  lemma PickedAgain(u: Tables, r: Ref, log: seq<Round>, round: Round)
    requires PickedOnce(log) && CheapestFirst(u, r, log) && IsPick(u, r, log, round)
    ensures PickedOnce(log + [round])
  {
    forall k | 0 <= k < |log|
      ensures log[k].node != round.node && log[k].weight <= round.weight
    {
      assert log[k].node in Picked(log);
    }
  }

  lemma CheaperStill(u: Tables, v: Tables, r: Ref, log: seq<Round>, round: Round)
    requires CheapestFirst(u, r, log) && Drift(u, v, r) && IsPick(u, r, log, round)
    ensures CheapestFirst(v, r, log + [round])
  {
    AppendedNodes(log, round);
    forall i, k | Eligible(v.accounts[r], v.nodes, i) && i !in Picked(log + [round]) && 0 <= k < |log| + 1
      ensures (log + [round])[k].weight <= v.nodes[v.accounts[r].nodes[i]].weight
    {
      assert Eligible(u.accounts[r], u.nodes, i);
      assert SameNode(u.nodes[u.accounts[r].nodes[i]], v.nodes[u.accounts[r].nodes[i]]);
    }
  }

  lemma RoundBooked(s: Setting, log: seq<Round>, round: Round, m: Moment, n: Moment, now: int, end: int)
    requires LedgersFollow(s.limits.enabled, s.from, log, m) && Bounded(s, log)
    requires Jitters(s.env.jitter) && Paced(s.retry, s.env.jitter, s.start + s.env.reading, log)
             && now == s.ClockAfter(log)
    requires Tried(s, log, round, m, n, now, end)
    ensures LedgersFollow(s.limits.enabled, s.from, log + [round], n) && Bounded(s, log + [round])
    ensures Paced(s.retry, s.env.jitter, s.start + s.env.reading, log + [round])
    ensures s.ClockAfter(log + [round]) == NextAt(s, round, end)
  {
    hide BoundedRound, GrantLedger, ResultLedger, Bump, Paced, Clock, Retry.CalculateBackoff, Jitters, RoundEffect,
      RoundTold, Booked;
    AppendedLedgers(s.from.granted, s.from.reported, log, round);
    PacedAppend(s.retry, s.env.jitter, s.start + s.env.reading, log, round);
  }

  lemma FreshGrants(limits: Breaker.Config, st: Breaker.State, now: int)
    requires IsFresh(st)
    ensures Breaker.Grants(limits, st, now)
  {
  }

  /** A round that marked its node warmed every node that was still open then, but for such as are no better than the
      one that passed. */
  lemma MarkWarmsOpen(
    c: WarmupConfig, t: Tables, v: Tables, r: Ref, round: Round, probes: (string, nat) -> Probe, i: string)
    requires round.Sent? && round.marked && c.enabled && RoundEffect(c, t, v, r, round, probes)
    requires OwnRecords(t.accounts[r], t.nodes) && Eligible(t.accounts[r], t.nodes, i) && i != round.node
             && i !in round.warmed
    ensures round.warmed != []
    ensures var a, b := t.accounts[r], round.warmed[|round.warmed| - 1];
            Passes(c, Of(probes, b)) && Eligible(a, t.nodes, b) && !Better(t.nodes[a.nodes[i]], t.nodes[a.nodes[b]])
  {
    hide Counted, Drift, Passes, TimeSpent;
    var p := t.accounts[r].nodes[round.node];
    var x := MarkedTables(t, r, round.node, Counted(t.nodes[p], round));
    var best :| Activation(c, x, v, r, {}, probes, best, round.warmed);
    hide AfterProbes, Elapsed;
    assert x.nodes == t.nodes[p := x.nodes[p]] && x.nodes[p].failed;
    assert t.nodes[t.accounts[r].nodes[i]].id == i;
    assert t.nodes[p].id == round.node;
    assert Eligible(x.accounts[r], x.nodes, i);
    assert t.nodes[t.accounts[r].nodes[best.value]].id == best.value;
  }

  lemma RoundWarmsOthers(s: Setting, log: seq<Round>, round: Round, m: Moment, n: Moment)
    requires Served(s, log, m.tables) && s.account in m.tables.accounts
    requires Tracked(m.tables.accounts[s.account], m.tables.nodes)
    requires round.Sent? && round.attempt == SentCount(log) + 1 && round.marked && s.warmup.enabled
    requires RoundEffect(s.warmup, m.tables, n.tables, s.account, round, ProbesOf(s.env, round.attempt))
    ensures WarmsOthers(s, log, round)
  {
    hide RoundEffect, IsLog, Drift, Passes, PickedOnce, ProbesOf;
    var t, r, u := s.from.tables, s.account, m.tables;
    DriftKeeps(t, u, r);
    forall i | Eligible(t.accounts[r], t.nodes, i) && i !in Marked(log) && i !in Probed(log) && i != round.node
      && i !in round.warmed
      ensures round.warmed != []
      ensures var a, b := t.accounts[r], round.warmed[|round.warmed| - 1];
              && Passes(s.warmup, Of(ProbesOf(s.env, round.attempt), b)) && Eligible(a, t.nodes, b)
              && !Better(t.nodes[a.nodes[i]], t.nodes[a.nodes[b]])
    {
      assert SameNode(t.nodes[t.accounts[r].nodes[i]], u.nodes[t.accounts[r].nodes[i]]);
      MarkWarmsOpen(s.warmup, u, n.tables, r, round, ProbesOf(s.env, round.attempt), i);
      var b := round.warmed[|round.warmed| - 1];
      assert SameNode(t.nodes[t.accounts[r].nodes[b]], u.nodes[t.accounts[r].nodes[b]]);
    }
  }

  lemma RoundStreak(s: Setting, log: seq<Round>, round: Round, m: Moment, n: Moment)
    requires Served(s, log, m.tables) && RecordsKept(s, log, m.tables) && round.Sent?
    requires s.account in m.tables.accounts && OwnRecords(m.tables.accounts[s.account], m.tables.nodes)
    requires Eligible(m.tables.accounts[s.account], m.tables.nodes, round.node) && round.node !in Picked(log)
    requires RoundEffect(s.warmup, m.tables, n.tables, s.account, round, ProbesOf(s.env, round.attempt))
    ensures StreakFollows(s, log, round)
  {
    hide IsLog, PickedOnce, FailuresExplained, Counted, TimeSpent, ProbesOf, Activation, Drift, HasFailed,
      IsContextError;
    DriftKeeps(s.from.tables, m.tables, s.account);
  }

  /** A round leaves the records of all nodes but its own and the warmed ones alone. */
  lemma OtherRecord(
    c: WarmupConfig, t: Tables, v: Tables, r: Ref, round: Round, probes: (string, nat) -> Probe, i: string)
    requires RoundEffect(c, t, v, r, round, probes) && OwnRecords(t.accounts[r], t.nodes) && i in t.accounts[r].nodes
    requires i != round.node && i !in ProbedBy(round)
    ensures t.accounts[r].nodes[i] in v.nodes && v.nodes[t.accounts[r].nodes[i]] == t.nodes[t.accounts[r].nodes[i]]
  {
    hide Counted, TimeSpent, Drift, AfterProbes, Elapsed, Selected, NoBetterLeftOut, Eligible, HasFailed,
      IsContextError;
    var a, h := t.accounts[r], t.nodes;
    assert h[a.nodes[i]].id == i;
    if round.Sent? {
      assert h[a.nodes[round.node]].id == round.node;
      if round.marked {
        var x := MarkedTables(t, r, round.node, Counted(h[a.nodes[round.node]], round));
        var best :| Activation(c, x, v, r, {}, probes, best, round.warmed);
        assert Drift(x, v, r);
        DriftKeeps(x, v, r);
        assert x.accounts[r].nodes[i] == a.nodes[i] && x.nodes[a.nodes[i]] == h[a.nodes[i]];
      }
    }
  }

  lemma RecordsGrow(s: Setting, log: seq<Round>, round: Round, m: Moment, n: Moment, probes: (string, nat) -> Probe)
    requires Served(s, log, m.tables) && RecordsKept(s, log, m.tables)
    requires s.account in m.tables.accounts && OwnRecords(m.tables.accounts[s.account], m.tables.nodes)
    requires RoundEffect(s.warmup, m.tables, n.tables, s.account, round, probes)
    ensures RecordsKept(s, log + [round], n.tables)
  {
    hide IsLog, PickedOnce, FailuresExplained, Drift, RoundEffect, Eligible, Picked, Probed, ProbedBy;
    DriftKeeps(s.from.tables, m.tables, s.account);
    AppendedNodes(log, round);
    forall i | i in s.Nodes() && s.Nodes()[i] in s.from.tables.nodes && i !in Picked(log + [round])
      && i !in Probed(log + [round])
      ensures s.Nodes()[i] in n.tables.nodes && n.tables.nodes[s.Nodes()[i]] == s.from.tables.nodes[s.Nodes()[i]]
    {
      OtherRecord(s.warmup, m.tables, n.tables, s.account, round, probes, i);
    }
  }

  lemma RoundRuled(s: Setting, log: seq<Round>, round: Round, m: Moment, n: Moment, now: int, end: int)
    requires Jitters(s.env.jitter) && AllRuled(s, log) && BreakersFollow(s, log, m.breakers) && now == s.ClockAfter(log)
    requires Tried(s, log, round, m, n, now, end) && round.node !in Picked(log)
    requires round.Sent? && round.marked && s.warmup.enabled ==> WarmsOthers(s, log, round)
    requires round.Sent? ==> StreakFollows(s, log, round)
    ensures AllRuled(s, log + [round])
  {
    hide RoundEffect, RoundTold, Booked, BoundedRound, Breaker.Grants, IsFresh, Clock, ToldAt, Jitters, WarmsOthers,
      StreakFollows;
    if ViewAt(m.breakers, round.node, now) != ViewAt(s.from.breakers, round.node, now) {
      FreshGrants(s.limits, ViewAt(m.breakers, round.node, now), now);
    }
    var all := log + [round];
    forall k | 0 <= k < |all|
      ensures Ruled(s, all[..k], all[k])
    {
      assert all[..k] == log[..k];
      assert k == |log| ==> all[..k] == log;
    }
  }

  lemma BreakersGrow(s: Setting, log: seq<Round>, round: Round, v: map<string, Breaker.State>,
      w: map<string, Breaker.State>)
    requires Jitters(s.env.jitter) && BreakersFollow(s, log, v) && RoundTold(s.limits, v, w, round, s.ClockAfter(log))
    requires round.node !in Picked(log) && round.node !in ProbedBy(round)
    ensures BreakersFollow(s, log + [round], w)
  {
    hide IsFresh, Told, Setting.ClockAfter, Jitters, ProbedBy, MarkedBy, Breaker.Grants, ViewAt, Picked, Probed, ToldAt;
    var all := log + [round];
    AppendedNodes(log, round);
    forall i, at | i !in Picked(all) || !s.limits.enabled
      ensures ViewAt(w, i, at) == ViewAt(s.from.breakers, i, at) || (i in Probed(all) && IsFresh(ViewAt(w, i, at)))
    {
      assert ViewAt(w, i, at) == ViewAt(v, i, at) || (i in ProbedBy(round) && IsFresh(ViewAt(w, i, at)));
    }
    if s.limits.enabled {
      forall k, at | 0 <= k < |all| && all[k].node !in Probed(all)
        ensures ViewAt(w, all[k].node, at) ==
                if all[k].Refused? then ViewAt(s.from.breakers, all[k].node, at) else ToldAt(s, all, k)
      {
        if k < |log| {
          EarlierRound(s, log, round, k);
          assert ViewAt(w, log[k].node, at) == ViewAt(v, log[k].node, at);
        } else {
          LastRound(s, log, round);
          assert ViewAt(v, round.node, s.ClockAfter(log)) == ViewAt(s.from.breakers, round.node, s.ClockAfter(log));
        }
      }
    }
  }

  lemma EarlierRound(s: Setting, log: seq<Round>, round: Round, k: nat)
    requires Jitters(s.env.jitter) && k < |log|
    ensures (log + [round])[k] == log[k] && log[k].node in Picked(log)
            && ToldAt(s, log + [round], k) == ToldAt(s, log, k)
  {
    assert (log + [round])[..k] == log[..k];
  }

  lemma LastRound(s: Setting, log: seq<Round>, round: Round)
    requires Jitters(s.env.jitter)
    ensures var t := s.ClockAfter(log);
            ToldAt(s, log + [round], |log|) == Told(s.limits, ViewAt(s.from.breakers, round.node, t), round, t)
  {
    assert (log + [round])[..|log|] == log;
  }

  lemma ProgressGrows(s: Setting, log: seq<Round>, round: Round, m: Moment, n: Moment, now: int, end: int)
    requires Progress(s, log, m, now) && (log != [] ==> Continues(s.retry, log[|log| - 1]))
    requires IsPick(m.tables, s.account, log, round) && Tried(s, log, round, m, n, now, end)
    requires Tracked(m.tables.accounts[s.account], m.tables.nodes)
    ensures Jitters(s.env.jitter) && Progress(s, log + [round], n, NextAt(s, round, end))
  {
    hide Served, CheapestFirst, LedgersFollow, Bounded, Paced, Setting.ClockAfter, Booked, Drift, Cheapest,
      FailuresExplained, Continues, AllRuled, BreakersFollow, RoundEffect, RoundTold, Tried, IsPick, OwnRecords,
      Jitters, NextAt, Eligible, Picked, ProbedBy, MarkedBy, ProbesOf, Tracked, WarmsOthers, StreakFollows,
      RecordsKept;
    TriedFacts(s, log, round, m, n, now, end);
    PickFacts(m.tables, s.account, log, round);
    TrackedOwns(m.tables.accounts[s.account], m.tables.nodes);
    if round.Sent? && round.marked && s.warmup.enabled {
      RoundWarmsOthers(s, log, round, m, n);
    }
    if round.Sent? {
      RoundStreak(s, log, round, m, n);
    }
    RecordsGrow(s, log, round, m, n, ProbesOf(s.env, SentCount(log) + 1));
    EffectMeans(s.warmup, m.tables, n.tables, s.account, round, ProbesOf(s.env, SentCount(log) + 1));
    RoundServed(s, log, m.tables, n.tables, round);
    RoundBooked(s, log, round, m, n, now, end);
    RoundRuled(s, log, round, m, n, now, end);
    BreakersGrow(s, log, round, m.breakers, n.breakers);
  }

  lemma TriedFacts(s: Setting, log: seq<Round>, round: Round, m: Moment, n: Moment, now: int, end: int)
    requires Tried(s, log, round, m, n, now, end)
    ensures RoundEffect(s.warmup, m.tables, n.tables, s.account, round, ProbesOf(s.env, SentCount(log) + 1))
    ensures RoundTold(s.limits, m.breakers, n.breakers, round, now)
    ensures round.Sent? ==> Booked(s.retry, s.failLimit, log, round) && round.attempt == SentCount(log) + 1
    ensures round.node !in ProbedBy(round)
  {
  }

  lemma TrackedOwns(a: Account, h: NodeTable)
    requires Tracked(a, h)
    ensures OwnRecords(a, h)
  {
  }

  lemma PickFacts(u: Tables, r: Ref, log: seq<Round>, round: Round)
    requires IsPick(u, r, log, round)
    ensures r in u.accounts && Eligible(u.accounts[r], u.nodes, round.node) && round.node !in Picked(log)
  {
  }

  lemma TracksGrows(log: seq<Round>, v: Tally, round: Round)
    requires Tracks(log, v) && (round.Sent? ==> round.attempt == v.attempts + 1)
    ensures Tracks(log + [round], Tallied(v, round))
  {
    AppendedNodes(log, round);
  }

  lemma NothingServed(s: Setting)
    requires s.account in s.from.tables.accounts && Jitters(s.env.jitter)
    ensures Underway(s, [], Tally({}, 0, false), s.from, s.start + s.env.reading)
  {
  }

  lemma SensibleJitters(env: Environment)
    requires Sensible(env)
    ensures Jitters(env.jitter)
  {
  }

  lemma UnsentTried(s: Setting, log: seq<Round>, round: Round, m: Moment, n: Moment, now: int)
    requires !round.Sent? && n.tables == m.tables && s.account in m.tables.accounts
    requires round.Refused? <==> !Breaker.Grants(s.limits, ViewAt(m.breakers, round.node, now), now)
    requires round.Late? ==> s.Timed() && now >= s.Deadline()
    requires RoundTold(s.limits, m.breakers, n.breakers, round, now) && n.reported == m.reported
    requires n.granted == if !s.limits.enabled || round.Refused? then m.granted else Bump(m.granted, round.node)
    ensures Tried(s, log, round, m, n, now, now)
  {
    hide Breaker.Grants, ViewAt, RoundTold, Bump;
  }

  lemma SentTried(s: Setting, log: seq<Round>, round: Round, m: Moment, n: Moment, now: int, end: int)
    requires round.Sent? && Breaker.Grants(s.limits, ViewAt(m.breakers, round.node, now), now)
    requires !(s.Timed() && now >= s.Deadline())
    requires Booked(s.retry, s.failLimit, log, round) && Exchanged(s.env, s.hasBase, s.tries, round)
    requires round.at == now <= end == round.ended && round.expiry == s.Expiry(SentCount(log), now)
    requires RoundEffect(s.warmup, m.tables, n.tables, s.account, round, ProbesOf(s.env, SentCount(log) + 1))
    requires RoundTold(s.limits, m.breakers, n.breakers, round, now)
    requires round.attempt == SentCount(log) + 1
    requires n.granted == if !s.limits.enabled then m.granted else Bump(m.granted, round.node)
    requires n.reported == if !s.limits.enabled || IsContextError(round) then m.reported
             else Bump(m.reported, round.node)
    ensures Tried(s, log, round, m, n, now, end)
  {
    hide Breaker.Grants, ViewAt, RoundTold, Bump, Booked, Exchanged;
    EffectTime(s.warmup, m.tables, n.tables, s.account, round, ProbesOf(s.env, SentCount(log) + 1));
    hide RoundEffect;
  }

  lemma ProgressFacts(s: Setting, log: seq<Round>, m: Moment, now: int)
    requires Progress(s, log, m, now)
    ensures s.account in s.from.tables.accounts && s.account in m.tables.accounts
    ensures m.tables.accounts[s.account].nodes == s.Nodes() && |log| <= |s.Nodes()|
  {
    ServedFits(s, log, m.tables);
  }

  lemma UnderwayFacts(s: Setting, log: seq<Round>, v: Tally, m: Moment, now: int)
    requires Underway(s, log, v, m, now)
    ensures Progress(s, log, m, now) && (log != [] ==> Continues(s.retry, log[|log| - 1])) && OnTime(s, log, now)
    ensures Tracks(log, v) && v.skip == Picked(log) && v.attempts == SentCount(log)
            && (v.firstFailed <==> FirstFailed(log))
    ensures s.account in s.from.tables.accounts && s.account in m.tables.accounts
    ensures m.tables.accounts[s.account].nodes == s.Nodes() && |log| <= |s.Nodes()|
  {
    hide Continues, OnTime, Progress;
    ProgressFacts(s, log, m, now);
  }

  lemma TriedTimes(s: Setting, log: seq<Round>, round: Round, m: Moment, n: Moment, now: int, end: int)
    requires Tried(s, log, round, m, n, now, end)
    ensures now <= end && (!round.Sent? ==> end == now) && (round.Late? ==> s.Timed())
    ensures round.Sent? ==>
              round.ended == end == round.finished + TimeSpent(s.warmup, ProbesOf(s.env, round.attempt), round.warmed)
  {
  }

  lemma TriedDrifts(s: Setting, log: seq<Round>, round: Round, m: Moment, n: Moment, now: int, end: int)
    requires Tried(s, log, round, m, n, now, end)
    requires s.account in m.tables.accounts && OwnRecords(m.tables.accounts[s.account], m.tables.nodes)
    requires Eligible(m.tables.accounts[s.account], m.tables.nodes, round.node)
    ensures Drift(m.tables, n.tables, s.account)
  {
    TriedFacts(s, log, round, m, n, now, end);
    EffectMeans(s.warmup, m.tables, n.tables, s.account, round, ProbesOf(s.env, SentCount(log) + 1));
  }

  lemma EffectTime(c: WarmupConfig, t: Tables, v: Tables, r: Ref, round: Round, probes: (string, nat) -> Probe)
    requires RoundEffect(c, t, v, r, round, probes) && round.Sent?
    ensures round.ended == round.finished + TimeSpent(c, probes, round.warmed)
  {
  }

  lemma CountedGrows(n: Node, round: Round)
    requires round.Sent?
    ensures HasFailed(round) && !IsContextError(round) ==> Counted(n, round).failStreak >= 1
  {
  }

  /** The loop goes on after the rounds in `log`: it is now `now`, and so far it has kept its time. */
  ghost predicate Underway(s: Setting, log: seq<Round>, v: Tally, m: Moment, now: int) {
    && Progress(s, log, m, now) && Tracks(log, v) && (log != [] ==> Continues(s.retry, log[|log| - 1]))
      && OnTime(s, log, now)
  }

  ghost predicate OnTime(s: Setting, log: seq<Round>, now: int) {
    && s.account in s.from.tables.accounts
    && s.start + s.env.reading <= now && (forall k :: 0 <= k < |log| && log[k].Sent? ==> log[k].ended <= now)
    && (s.Timed() && RespectsContext(s.env) ==>
          && now <= Transport.Later(s.start + s.env.reading, s.LatestEnd())
          && now <= Transport.Later(s.start + s.env.reading, s.PlainEnd() + s.LastWarmup(log)))
  }

  /** The loop is over. */
  lemma Concluded(s: Setting, log: seq<Round>, exit: Exit, m: Moment, now: int, end: int)
    requires Progress(s, log, m, now) && EndedBy(exit, s, log, m.tables) && OnTime(s, log, end)
    ensures Handled(s, log, exit, m, end)
  {
    hide Served, CheapestFirst, LedgersFollow, Bounded, Paced, AllRuled, BreakersFollow, EndedBy, Jitters,
      RespectsContext;
  }

  lemma OutOfOpenNodes(s: Setting, log: seq<Round>, v: Tally, m: Moment, now: int)
    requires Underway(s, log, v, m, now) && s.account in m.tables.accounts
    requires forall i :: Eligible(m.tables.accounts[s.account], m.tables.nodes, i) ==> i in Picked(log)
    ensures Handled(s, log, OutOfNodes, m, now)
  {
    hide Progress, Eligible, Picked, Continues, OnTime, Tracks;
    Concluded(s, log, OutOfNodes, m, now, now);
  }

  /** After a round that was over at `end` the loop goes on, at once or after a back-off, or it has ended. */
  lemma TurnTaken(s: Setting, log: seq<Round>, v: Tally, round: Round, m: Moment, now: int, end: int)
    requires OnTime(s, log, now) && Jitters(s.env.jitter) && Progress(s, log + [round], m, NextAt(s, round, end))
    requires Tracks(log + [round], Tallied(v, round)) && (round.Late? ==> s.Timed())
    requires now <= end && (round.Sent? ==> round.ended == end) && (!round.Sent? ==> end == now)
    requires round.Sent? && s.Timed() && RespectsContext(s.env) ==>
               && end + Retry.EffectiveMax(s.retry) <= s.LatestEnd()
               && round.finished <= s.Deadline() + Transport.Pause(s.tries - 1)
    requires round.Sent? ==> end == round.finished + TimeSpent(s.warmup, ProbesOf(s.env, round.attempt), round.warmed)
    ensures Continues(s.retry, round) ==> Underway(s, log + [round], Tallied(v, round), m, NextAt(s, round, end))
    ensures round.Late? ==> Handled(s, log + [round], DeadlineReached, m, end)
    ensures round.Sent? && !IsRetried(s.retry, round) ==> Handled(s, log + [round], Answered, m, end)
  {
    hide Progress, RespectsContext, IsRetried, Tallied, Tracks, Handled, Setting.LatestEnd;
    var all := log + [round];
    assert all[|all| - 1] == round && forall k :: 0 <= k < |log| ==> all[k] == log[k];
    assert all[..|log|] == log;
    if round.Sent? {
      Retry.BackoffBounds(round.attempt - 1, s.retry, s.env.jitter(round.attempt));
    }
    hide Retry.CalculateBackoff, Retry.EffectiveMax;
    if round.Late? {
      Concluded(s, all, DeadlineReached, m, end, end);
    } else if round.Sent? && !IsRetried(s.retry, round) {
      Concluded(s, all, Answered, m, NextAt(s, round, end), end);
    }
  }

  // ---------- what follows for a whole request ----------

  /** An attempt ends the request, as its answer, exactly when its status is not to be retried; a 499 or 504 never
      is. */
  lemma AttemptAnswers(s: Setting, log: seq<Round>, exit: Exit, m: Moment, end: int, k: nat)
    requires Handled(s, log, exit, m, end) && k < |log| && log[k].Sent?
    ensures var r := log[k];
            k == |log| - 1 && exit.Answered? <==>
            r.retryStatus < 500 || r.retryStatus !in s.retry.retryOnStatus || r.status == 499 || r.status == 504
  {
    hide Served, CheapestFirst, LedgersFollow, BreakersFollow, Jitters, RecordsKept, RespectsContext, Bounded, AllRuled,
      Paced, Setting.LatestEnd, Setting.PlainEnd;
    HandledServed(s, log, exit, m, end);
    ServedIsLog(s, log, m.tables);
    LogFacts(s.retry, s.failLimit, log);
  }

  /** An attempt expires with its own timeout, or with the common one if it has none, but no later than the request. */
  lemma AttemptExpires(s: Setting, log: seq<Round>, exit: Exit, m: Moment, end: int, k: nat)
    requires Handled(s, log, exit, m, end) && k < |log| && log[k].Sent?
    ensures var c, r := s.retry, log[k];
            && r.attempt >= 1
            && var own := if r.attempt <= |c.perAttemptTimeouts| then c.perAttemptTimeouts[r.attempt - 1]
                          else c.perRequestTimeout;
            && r.expiry == (if c.totalTimeout > 0 && s.start + c.totalTimeout < r.at + own
                            then s.start + c.totalTimeout else r.at + own)
            && (c.totalTimeout > 0 ==> r.at < s.start + c.totalTimeout)
  {
    hide Handled;
    AttemptRuled(s, log, exit, m, end, k);
  }

  lemma AttemptRuled(s: Setting, log: seq<Round>, exit: Exit, m: Moment, end: int, k: nat)
    requires Handled(s, log, exit, m, end) && k < |log| && log[k].Sent?
    ensures log[k].attempt == SentCount(log[..k]) + 1
    ensures log[k].expiry == s.Expiry(SentCount(log[..k]), log[k].at) && (s.Timed() ==> log[k].at < s.Deadline())
  {
    hide Served, CheapestFirst, LedgersFollow, BreakersFollow, Jitters, StreakFollows, RecordsKept, Breaker.Grants,
      RespectsContext, Exchanged, WarmsOthers, Setting.ClockAfter, Setting.Expiry, EndedBy, Booked;
    assert Ruled(s, log[..k], log[k]) && BoundedRound(s, log[k]);
    AttemptStartsAt(s, log, k);
    HandledServed(s, log, exit, m, end);
    ServedIsLog(s, log, m.tables);
    BookedAt(s.retry, s.failLimit, log, k);
    BookedNumber(s.retry, s.failLimit, log[..k], log[k]);
  }

  lemma BookedNumber(cfg: Retry.RetryConfig, failLimit: int, before: seq<Round>, r: Round)
    requires r.Sent? && Booked(cfg, failLimit, before, r)
    ensures r.attempt == SentCount(before) + 1
  {
  }

  lemma ServedIsLog(s: Setting, log: seq<Round>, u: Tables)
    requires Served(s, log, u)
    ensures IsLog(s.retry, s.failLimit, log)
  {
  }

  /** After an attempt the next one is made, on whichever node is not refused by its breaker, when the back-off is over,
      unless the time of the request is up then. */
  lemma NextAttemptAt(s: Setting, log: seq<Round>, exit: Exit, m: Moment, end: int, k: nat, j: nat)
    requires Handled(s, log, exit, m, end) && k < j < |log| && log[k].Sent? && !log[j].Refused?
    requires forall i :: k < i < j ==> log[i].Refused?
    ensures 0.0 <= s.env.jitter(log[k].attempt) < 1.0
    ensures var t := log[k].ended
                     + Retry.CalculateBackoff(log[k].attempt - 1, s.retry, s.env.jitter(log[k].attempt));
            if s.retry.totalTimeout > 0 && t >= s.start + s.retry.totalTimeout then log[j].Late?
            else log[j].Sent? && log[j].at == t
  {
    hide Handled, Retry.CalculateBackoff, Setting.ClockAfter;
    HandledJitters(s, log, exit, m, end);
    JitterAt(s.env.jitter, log[k].attempt);
    RoundBegins(s, log, exit, m, end, j);
    ClockSince(s, log, k, j);
  }

  /** The first attempt is made when the body has been read, unless the time is up then. */
  lemma FirstAttemptAt(s: Setting, log: seq<Round>, exit: Exit, m: Moment, end: int, j: nat)
    requires Handled(s, log, exit, m, end) && j < |log| && !log[j].Refused? && forall i :: 0 <= i < j ==>
             log[i].Refused?
    ensures if s.retry.totalTimeout > 0 && s.env.reading >= s.retry.totalTimeout then log[j].Late?
            else log[j].Sent? && log[j].at == s.start + s.env.reading
  {
    hide Handled, Setting.ClockAfter;
    HandledJitters(s, log, exit, m, end);
    RoundBegins(s, log, exit, m, end, j);
    ClockAtFirst(s, log, j);
  }

  lemma RoundBegins(s: Setting, log: seq<Round>, exit: Exit, m: Moment, end: int, j: nat)
    requires Handled(s, log, exit, m, end) && j < |log| && !log[j].Refused?
    ensures Jitters(s.env.jitter)
    ensures log[j].Late? <==> s.retry.totalTimeout > 0 && s.ClockAfter(log[..j]) >= s.start + s.retry.totalTimeout
    ensures log[j].Sent? ==> log[j].at == s.ClockAfter(log[..j])
  {
    hide Served, CheapestFirst, LedgersFollow, BreakersFollow, Jitters, StreakFollows, RecordsKept, Breaker.Grants,
      RespectsContext, WarmsOthers, EndedBy, Bounded;
    assert Ruled(s, log[..j], log[j]);
    if log[j].Sent? {
      AttemptStartsAt(s, log, j);
    }
  }

  lemma {:induction false} ClockSince(s: Setting, log: seq<Round>, k: nat, j: nat)
    requires Jitters(s.env.jitter) && k < j <= |log| && log[k].Sent? && forall i :: k < i < j ==> log[i].Refused?
    ensures s.ClockAfter(log[..j]) ==
            log[k].ended + Retry.CalculateBackoff(log[k].attempt - 1, s.retry, s.env.jitter(log[k].attempt))
  {
    hide Retry.CalculateBackoff;
    assert log[..j][..j - 1] == log[..j - 1];
    if k < j - 1 {
      ClockSince(s, log, k, j - 1);
    }
  }

  lemma {:induction false} ClockAtFirst(s: Setting, log: seq<Round>, j: nat)
    requires Jitters(s.env.jitter) && j <= |log| && forall i :: 0 <= i < j ==> log[i].Refused?
    ensures s.ClockAfter(log[..j]) == s.start + s.env.reading
  {
    if j > 0 {
      assert log[..j][..j - 1] == log[..j - 1];
      ClockAtFirst(s, log, j - 1);
    }
  }

  /** After a request the breaker of a node it was sent to, if that was not warmed, has been asked when the attempt
      began and, unless the context ended, told when it was finished whether it succeeded. */
  lemma BreakerOfAttempt(s: Setting, log: seq<Round>, exit: Exit, m: Moment, end: int, k: nat, at: int)
    requires Handled(s, log, exit, m, end) && s.limits.enabled && k < |log| && log[k].Sent?
    requires log[k].node !in Probed(log)
    ensures var r := log[k];
            var asked := Breaker.Allow(s.limits, ViewAt(s.from.breakers, r.node, r.at), r.at);
            ViewAt(m.breakers, r.node, at) ==
            if r.status == 499 || r.status == 504 then asked
            else Breaker.Record(s.limits, asked, r.status == 200 && r.retryStatus < 500, r.finished)
  {
    hide Served, CheapestFirst, LedgersFollow, Bounded, AllRuled, RecordsKept, EndedBy, Breaker.Allow, Breaker.Record,
      ViewAt, Probed, RespectsContext, Setting.ClockAfter;
    HandledJitters(s, log, exit, m, end);
    AttemptStartsAt(s, log, k);
  }

  /** A request has no more rounds than its account has nodes. */
  lemma ServedFits(s: Setting, log: seq<Round>, u: Tables)
    requires Served(s, log, u)
    ensures s.account in s.from.tables.accounts && |log| <= |s.Nodes()|
  {
    RoundsFit(log, s.Nodes().Keys);
  }

  lemma ServedDrifts(s: Setting, log: seq<Round>, u: Tables)
    requires Served(s, log, u)
    ensures Drift(s.from.tables, u, s.account) && IsSomeLog(s.retry, log)
  {
  }

  /** Requests never fail a node of an account with fewer nodes than the last attempt's number. */
  lemma SmallAccountsAreSpared(s: Setting, log: seq<Round>, u: Tables)
    requires Served(s, log, u) && s.account in s.from.tables.accounts && |s.Nodes()| < s.retry.maxAttempts
    ensures Marked(log) == {} && FailuresExplained(s.Nodes(), s.from.tables.nodes, u.nodes, {}, {})
  {
    ServedFits(s, log, u);
    forall k | 0 <= k < |log| && log[k].Sent?
      ensures !log[k].marked
    {
      if log[k].marked {
        MarkedOnlyLate(s.retry, s.failLimit, log, k);
      }
    }
    assert Marked(log) == {};
    WarmedAfterMark(s.retry, s.failLimit, log);
  }

  lemma StillRegistered(byId: map<string, Ref>, t: Tables, u: Tables, r: Ref)
    requires Registered(byId, t.accounts, r) && Drift(t, u, r)
    ensures Registered(byId, u.accounts, r)
  {
  }

  /** A request leaves every account settled. */
  lemma ServedSettles(maps: Maps, s: Setting, log: seq<Round>, u: Tables)
    requires maps.Agree(s.from.tables) && Registered(maps.byId, s.from.tables.accounts, s.account)
    requires Settled(maps.byId, s.from.tables) && Served(s, log, u) && !s.warmup.enabled
    ensures Settled(maps.byId, u)
  {
    hide Consistent, IsLog, PickedOnce, FailuresExplained;
    DriftIsLocal(s.from.tables, u, s.account);
    SettledLocally(maps, s.from.tables, u, s.account);
  }

  /** Between two moments no node of an account with fewer nodes than `maxAttempts` failed. */
  ghost predicate Spared(maxAttempts: int, byId: map<string, Ref>, t: Tables, u: Tables) {
    && t.nodes.Keys <= u.nodes.Keys
    && forall r :: Registered(byId, t.accounts, r) ==>
                     && Registered(byId, u.accounts, r) && u.accounts[r].nodes == t.accounts[r].nodes
                     && (|t.accounts[r].nodes| < maxAttempts ==>
                           FailuresExplained(t.accounts[r].nodes, t.nodes, u.nodes, {}, {}))
  }

  lemma SparedSoFar(maxAttempts: int, byId: map<string, Ref>, t: Tables)
    ensures Spared(maxAttempts, byId, t, t)
  {
  }

  lemma SparedTransitive(maxAttempts: int, byId: map<string, Ref>, t: Tables, u: Tables, v: Tables)
    requires Spared(maxAttempts, byId, t, u) && Spared(maxAttempts, byId, u, v)
    ensures Spared(maxAttempts, byId, t, v)
  {
  }

  /** A request spares every small account, its own included. */
  lemma RequestSpares(maps: Maps, s: Setting, log: seq<Round>, u: Tables)
    requires maps.Agree(s.from.tables) && Registered(maps.byId, s.from.tables.accounts, s.account)
    requires Served(s, log, u)
    ensures Spared(s.retry.maxAttempts, maps.byId, s.from.tables, u)
  {
    hide Consistent, Served, IsNodeOf;
    var t, r := s.from.tables, s.account;
    ServedDrifts(s, log, u);
    forall q | Registered(maps.byId, t.accounts, q)
      ensures Registered(maps.byId, u.accounts, q) && u.accounts[q].nodes == t.accounts[q].nodes
      ensures |t.accounts[q].nodes| < s.retry.maxAttempts ==>
              FailuresExplained(t.accounts[q].nodes, t.nodes, u.nodes, {}, {})
    {
      if q == r {
        if |t.accounts[r].nodes| < s.retry.maxAttempts {
          SmallAccountsAreSpared(s, log, u);
        }
      } else {
        forall i | i in t.accounts[q].nodes
          ensures t.accounts[q].nodes[i] in t.nodes
                  && u.nodes[t.accounts[q].nodes[i]] == t.nodes[t.accounts[q].nodes[i]]
        {
          NodesNotShared(maps, t, r, q, i);
        }
      }
    }
  }

  /** The ledgers after one more request. */
  lemma OneMoreRequest(enabled: bool, from: Moment, logs: seq<seq<Round>>, log: seq<Round>, m: Moment, n: Moment)
    requires LedgersAfterAll(enabled, from, logs, m) && LedgersFollow(enabled, m, log, n)
    ensures LedgersAfterAll(enabled, from, logs + [log], n)
  {
    assert (logs + [log])[..|logs|] == logs;
  }

  ghost predicate LedgersAfterAll(enabled: bool, from: Moment, logs: seq<seq<Round>>, to: Moment) {
    && to.granted == (if enabled then GrantsAfter(from.granted, logs) else from.granted)
    && to.reported == (if enabled then ResultsAfter(from.reported, logs) else from.reported)
  }

  lemma NoRequests(enabled: bool, from: Moment)
    ensures LedgersAfterAll(enabled, from, [], from)
  {
  }

  lemma NoRequest(enabled: bool, from: Moment, logs: seq<seq<Round>>, m: Moment, n: Moment)
    requires LedgersAfterAll(enabled, from, logs, m) && n.granted == m.granted && n.reported == m.reported
    ensures LedgersAfterAll(enabled, from, logs, n)
  {
  }

  lemma Outstanding(cfg: Retry.RetryConfig, from: Moment, logs: seq<seq<Round>>, to: Moment, node: string)
    requires LedgersAfterAll(true, from, logs, to) && AreLogs(cfg, logs)
    ensures Count(to.granted, node) - Count(to.reported, node) ==
            Count(from.granted, node) - Count(from.reported, node) + UnreportedRequests(logs, node)
  {
    OutstandingResults(cfg, from.granted, from.reported, logs, node);
  }

  // ---------- how often a request is sent ----------

  /** The nodes a request may be sent to, with their weights. */
  function Weights(t: Tables, r: Ref): map<string, int>
    requires r in t.accounts
  {
    map i | i in t.accounts[r].nodes && Eligible(t.accounts[r], t.nodes, i) :: t.nodes[t.accounts[r].nodes[i]].weight
  }

  /** A request is sent at most as often as its account had eligible nodes when it came. */
  lemma SendsBounded(s: Setting, log: seq<Round>, u: Tables)
    requires Served(s, log, u)
    ensures s.account in s.from.tables.accounts && SentCount(log) <= |Weights(s.from.tables, s.account)|
  {
    hide IsLog, PickedOnce, FailuresExplained, Drift;
    DriftKeeps(s.from.tables, u, s.account);
    SentFits(log, Weights(s.from.tables, s.account));
  }

  /** The longest time `n` base calls and the pauses after them take if no call takes longer than `most`. */
  function Span(n: nat, most: nat): nat {
    if n == 0 then 0 else Span(n - 1, most) + most + Transport.Pause(n)
  }

  lemma {:induction false} SpanGrows(m: nat, n: nat, most: nat)
    requires m <= n
    ensures Span(m, most) <= Span(n, most)
  {
    if m < n {
      SpanGrows(m, n - 1, most);
    }
  }

  /** A reply after which another node is tried; an unreachable node counts as a 503. */
  predicate Rejects(cfg: Retry.RetryConfig, reply: Transport.Reply, header: int) {
    match reply
    case Response(status, _, _) =>
      status != GATEWAY_TIMEOUT && status != CLIENT_CLOSED && Retryable(cfg, if header != 0 then header else status)
    case NetworkError(_) => Retryable(cfg, if header != 0 then header else 503)
    case ContextError(_) => false
  }

  /** The client stays, and every call to every node ends, within `most` and long before the attempt times out, in a
      way after which another node is tried: with an answer or with a network error. */
  ghost predicate Rejecting(s: Setting, most: nat) {
    && s.hasBase && s.tries >= 1 && (forall t :: !s.env.gone(t))
    && (forall k: nat, j: nat, t: int, e: int ::
          var c := s.env.reply(k, j, t, e);
          c.took <= most && Rejects(s.retry, c.reply, s.env.header(k)))
    && forall a: nat :: Span(s.tries, most) < TimeoutOf(s.retry, a)
  }

  /** An upstream that answers every call at once with `status`; as 504 ends a request, that one comes as a header
      beside a 200. */
  function Rejection(status: int): Environment {
    var answer := if status == GATEWAY_TIMEOUT then OK else status;
    Environment(None, 0, (k, j, t, e) => Transport.Call(Transport.Response(answer, "", true), 0), t => false,
                k => if status == GATEWAY_TIMEOUT then status else 0, k => 0.0, (k, i, j) => Probe(true, 0))
  }

  lemma RejectionRejects(s: Setting, status: int)
    requires s.env == Rejection(status).(probes := s.env.probes) && Retryable(s.retry, status) && s.hasBase
             && s.tries >= 1
    requires forall attempts: nat :: Span(s.tries, 0) < TimeoutOf(s.retry, attempts)
    ensures Sensible(s.env) && Rejecting(s, 0)
  {
  }

  lemma {:induction false} FinishWithin(start: int, sent: seq<Transport.Sent>, most: nat)
    requires Transport.Timeline(start, sent) && forall i :: 0 <= i < |sent| ==> sent[i].call.took <= most
    ensures Transport.Finish(start, sent) + Transport.Pause(|sent|) <= start + Span(|sent|, most)
  {
    if sent != [] {
      FinishWithin(start, sent[..|sent| - 1], most);
    }
  }

  /** Every attempt of such a request is rejected. */
  lemma AttemptIsRejected(s: Setting, r: Round, most: nat, attempts: nat)
    requires Rejecting(s, most) && r.Sent? && BoundedRound(s, r) && r.expiry == s.Expiry(attempts, r.at)
    requires s.Timed() ==> r.at + Span(s.tries, most) < s.Deadline()
    ensures IsRetried(s.retry, r)
  {
    hide Transport.Exhausted, Span, Retry.CalculateBackoff;
    var verdict: Transport.Verdict, sent: seq<Transport.Sent> :|
      Transported(s.env, s.hasBase, s.tries, r, verdict, sent);
    assert forall i :: 0 <= i < |sent| ==> sent[i].call == s.env.reply(r.attempt, i, sent[i].at, r.expiry);
    FinishWithin(r.at, sent, most);
    SpanGrows(|sent|, s.tries, most);
    assert ContextOf(s.env, r.expiry)(Transport.Finish(r.at, sent) + Transport.Pause(|sent|)).Alive?;
    RejectedVerdict(s, r, most, verdict, sent);
  }

  lemma RejectedVerdict(s: Setting, r: Round, most: nat, verdict: Transport.Verdict, sent: seq<Transport.Sent>)
    requires Rejecting(s, most) && r.Sent? && s.hasBase && r.status == StatusOf(verdict)
    requires r.retryStatus == if s.env.header(r.attempt) != 0 then s.env.header(r.attempt) else r.status
    requires Transport.Concludes(s.tries, ContextOf(s.env, r.expiry), r.at, sent, verdict, r.finished)
    requires forall i :: 0 <= i < |sent| ==> sent[i].call == s.env.reply(r.attempt, i, sent[i].at, r.expiry)
    requires ContextOf(s.env, r.expiry)(Transport.Finish(r.at, sent) + Transport.Pause(|sent|)).Alive?
    ensures IsRetried(s.retry, r)
  {
    Transport.LastAnswerTold(sent);
    assert forall i :: 0 <= i < |sent| ==> Rejects(s.retry, sent[i].call.reply, s.env.header(r.attempt));
  }

  lemma {:induction false} AllSent(log: seq<Round>)
    requires forall k :: 0 <= k < |log| ==> log[k].Sent?
    ensures SentCount(log) == |log|
  {
    if log != [] {
      AllSent(log[..|log| - 1]);
    }
  }

  /** No breaker of the account refuses anything. */
  ghost predicate BreakersClosed(s: Setting)
    requires s.account in s.from.tables.accounts
  {
    forall i, at :: i in s.Nodes() ==> Breaker.Grants(s.limits, ViewAt(s.from.breakers, i, at), at)
  }

  /** A request that every node rejects, without a total timeout and with all breakers closed, is sent to every node
      that was eligible when it came and was not warmed meanwhile, however many attempts are allowed. */
  lemma RejectedAreAllTried(s: Setting, log: seq<Round>, exit: Exit, m: Moment, end: int, most: nat)
    requires Handled(s, log, exit, m, end) && Rejecting(s, most) && !s.Timed()
    requires s.account in s.from.tables.accounts && BreakersClosed(s)
    requires s.account in m.tables.accounts && Tracked(m.tables.accounts[s.account], m.tables.nodes)
    ensures SentCount(log) == |log|
    ensures Picked(log) <= Weights(s.from.tables, s.account).Keys <= Picked(log) + Probed(log)
    ensures !s.warmup.enabled ==> SentCount(log) == |Weights(s.from.tables, s.account)|
  {
    hide Handled, Served, Rejecting, BreakersClosed, Tracked, Picked, Probed, Weights, IsRetried, Eligible, PickedOnce,
      Continues;
    HandledServed(s, log, exit, m, end);
    forall k | 0 <= k < |log|
      ensures log[k].Sent? && IsRetried(s.retry, log[k])
    {
      RoundIsRejected(s, log, exit, m, end, most, k);
    }
    AllSent(log);
    AllPicked(s, log, exit, m, end);
    PickedAreOpen(s, log, m.tables);
    if !s.warmup.enabled {
      RoundsAreNodes(log);
      assert Picked(log) + Probed(log) == Picked(log);
      assert Weights(s.from.tables, s.account).Keys == Picked(log);
      WeightsCount(s.from.tables, s.account);
    }
  }

  /** The client stays and no node can be reached: every call to every node ends in a network error, within `most` and
      long before the attempt times out. */
  ghost predicate Unreachable(s: Setting, most: nat) {
    && s.hasBase && s.tries >= 1 && (forall t :: !s.env.gone(t))
    && (forall k: nat, j: nat, t: int, e: int ::
          s.env.reply(k, j, t, e).reply.NetworkError? && s.env.reply(k, j, t, e).took <= most)
    && forall a: nat :: Span(s.tries, most) < TimeoutOf(s.retry, a)
  }

  /** An upstream that refuses every connection at once. */
  function Refusal(): Environment {
    Environment(None, 0, (k, j, t, e) => Transport.Call(Transport.NetworkError("connection refused"), 0), t => false,
                k => 0, k => 0.0, (k, i, j) => Probe(true, 0))
  }

  lemma RefusalIsUnreachable(s: Setting)
    requires s.env == Refusal() && s.hasBase && s.tries >= 1
    requires forall attempts: nat :: Span(s.tries, 0) < TimeoutOf(s.retry, attempts)
    ensures Sensible(s.env) && Unreachable(s, 0) && forall k: nat :: s.env.header(k) == 0
  {
  }

  lemma UnreachableRejects(s: Setting, most: nat)
    requires Unreachable(s, most) && 503 in s.retry.retryOnStatus && forall k: nat :: s.env.header(k) == 0
    ensures Rejecting(s, most)
  {
    hide Span;
  }

  /** Every attempt of such a request counts as a 503, unless a header says otherwise about the retry. */
  lemma AttemptIsUnreachable(s: Setting, r: Round, most: nat, attempts: nat)
    requires Unreachable(s, most) && r.Sent? && BoundedRound(s, r) && r.expiry == s.Expiry(attempts, r.at)
    requires s.Timed() ==> r.at + Span(s.tries, most) < s.Deadline()
    ensures r.status == 503 && r.retryStatus == if s.env.header(r.attempt) != 0 then s.env.header(r.attempt) else 503
    ensures r.calls == s.tries
  {
    hide Transport.Exhausted, Span, Retry.CalculateBackoff;
    var verdict: Transport.Verdict, sent: seq<Transport.Sent> :|
      Transported(s.env, s.hasBase, s.tries, r, verdict, sent);
    assert forall i :: 0 <= i < |sent| ==> sent[i].call == s.env.reply(r.attempt, i, sent[i].at, r.expiry);
    FinishWithin(r.at, sent, most);
    SpanGrows(|sent|, s.tries, most);
    assert ContextOf(s.env, r.expiry)(Transport.Finish(r.at, sent) + Transport.Pause(|sent|)).Alive?;
    assert !verdict.Ended? by {
      ExhaustedIsNoEnd(sent, verdict);
    }
    StatusTells(s.env, s.hasBase, s.tries, r, verdict, sent);
  }

  lemma ExhaustedIsNoEnd(sent: seq<Transport.Sent>, verdict: Transport.Verdict)
    ensures Transport.Exhausted(sent, verdict) ==> !verdict.Ended?
  {
  }

  /** A request whose nodes cannot be reached, without a total timeout and with all breakers closed, is sent to every
      eligible node if 503 is to be retried, and to one if it is not. */
  lemma UnreachableSends(s: Setting, log: seq<Round>, exit: Exit, m: Moment, end: int, most: nat)
    requires Handled(s, log, exit, m, end) && Unreachable(s, most) && !s.Timed()
    requires forall k: nat :: s.env.header(k) == 0
    requires s.account in s.from.tables.accounts && BreakersClosed(s)
    requires s.account in m.tables.accounts && Tracked(m.tables.accounts[s.account], m.tables.nodes)
    ensures 503 !in s.retry.retryOnStatus ==>
              SentCount(log) == |log| == if Weights(s.from.tables, s.account) == map[] then 0 else 1
    ensures 503 in s.retry.retryOnStatus && !s.warmup.enabled ==>
              SentCount(log) == |log| == |Weights(s.from.tables, s.account)|
    ensures forall k :: 0 <= k < |log| ==> log[k].Sent? && log[k].status == 503
  {
    hide Handled, Served, BreakersClosed, Tracked, Picked, Probed, Weights, IsRetried, Eligible, PickedOnce, Continues,
      Span, Unreachable;
    HandledServed(s, log, exit, m, end);
    forall k | 0 <= k < |log|
      ensures log[k].Sent? && log[k].status == 503 == log[k].retryStatus
    {
      RoundIsUnreachable(s, log, exit, m, end, most, k);
    }
    if 503 in s.retry.retryOnStatus {
      if !s.warmup.enabled {
        UnreachableRejects(s, most);
        RejectedAreAllTried(s, log, exit, m, end, most);
      }
    } else if log == [] {
      AllPicked(s, log, exit, m, end);
      PickedAreOpen(s, log, m.tables);
      NothingPicked();
      assert Weights(s.from.tables, s.account).Keys == {};
    } else {
      FirstIsLast(s, log, exit, m, end);
      assert log[..1][..0] == [] && log[..1] == [log[0]];
      SentSoFar(log, 0);
    }
  }

  lemma RoundIsUnreachable(s: Setting, log: seq<Round>, exit: Exit, m: Moment, end: int, most: nat, k: nat)
    requires Handled(s, log, exit, m, end) && Unreachable(s, most) && !s.Timed() && k < |log|
    requires s.account in s.from.tables.accounts && BreakersClosed(s)
    ensures log[k].Sent? && log[k].status == 503
    ensures log[k].retryStatus == if s.env.header(log[k].attempt) != 0 then s.env.header(log[k].attempt) else 503
  {
    hide IsLog, Drift, FailuresExplained, Unreachable, BoundedRound, Cheapest, CheapestFirst, LedgersFollow,
      BreakersFollow, Paced, Setting.ClockAfter, Jitters, Breaker.Grants, PickedOnce, Picked, Probed, Marked, EndedBy,
      WarmsOthers, StreakFollows, RecordsKept;
    assert Ruled(s, log[..k], log[k]);
    assert log[k].node in s.Nodes();
    AttemptStartsAt(s, log, k);
    AttemptIsUnreachable(s, log[k], most, SentCount(log[..k]));
  }

  lemma FirstIsLast(s: Setting, log: seq<Round>, exit: Exit, m: Moment, end: int)
    requires Handled(s, log, exit, m, end) && log != [] && s.account in s.from.tables.accounts
    requires log[0].Sent? && log[0].retryStatus !in s.retry.retryOnStatus
    ensures log == [log[0]] && log[0].node in Weights(s.from.tables, s.account)
  {
    hide Drift, FailuresExplained, Cheapest, CheapestFirst, LedgersFollow, BreakersFollow, Paced, Jitters, PickedOnce,
      Picked, Probed, Marked, EndedBy, AllRuled, RecordsKept, Bounded;
    LogFacts(s.retry, s.failLimit, log);
  }

  lemma WeightsCount(t: Tables, r: Ref)
    requires r in t.accounts
    ensures |Weights(t, r)| == |Weights(t, r).Keys|
  {
  }

  lemma RoundIsRejected(s: Setting, log: seq<Round>, exit: Exit, m: Moment, end: int, most: nat, k: nat)
    requires Handled(s, log, exit, m, end) && Rejecting(s, most) && !s.Timed()
    requires s.account in s.from.tables.accounts && BreakersClosed(s) && k < |log|
    ensures log[k].Sent? && IsRetried(s.retry, log[k])
  {
    hide IsLog, Drift, FailuresExplained, Rejecting, BoundedRound, Cheapest, CheapestFirst, LedgersFollow,
      BreakersFollow, Paced, Setting.ClockAfter, Jitters, IsRetried, Breaker.Grants, PickedOnce, Picked, Probed, Marked,
      EndedBy;
    assert Ruled(s, log[..k], log[k]);
    assert log[k].node in s.Nodes();
    if log[k].Sent? {
      AttemptStartsAt(s, log, k);
      AttemptIsRejected(s, log[k], most, SentCount(log[..k]));
    }
  }

  /** If every attempt was to be followed by another, the request ended because no eligible node was left untried. */
  lemma AllPicked(s: Setting, log: seq<Round>, exit: Exit, m: Moment, end: int)
    requires Handled(s, log, exit, m, end) && !s.Timed() && forall k :: 0 <= k < |log| ==>
             log[k].Sent? && IsRetried(s.retry, log[k])
    requires s.account in m.tables.accounts
    ensures forall i :: Eligible(m.tables.accounts[s.account], m.tables.nodes, i) ==> i in Picked(log)
  {
    hide Served, IsRetried, Eligible, Picked, AllRuled, Bounded, BreakersFollow, CheapestFirst, LedgersFollow, Paced,
      Jitters;
  }

  lemma AttemptStartsAt(s: Setting, log: seq<Round>, k: nat)
    requires k < |log| && log[k].Sent? && Jitters(s.env.jitter)
             && Paced(s.retry, s.env.jitter, s.start + s.env.reading, log)
    ensures log[k].at == s.ClockAfter(log[..k])
  {
  }

  /** When no eligible node is left untried, every node that was eligible at the start was picked or warmed. */
  lemma PickedAreOpen(s: Setting, log: seq<Round>, u: Tables)
    requires Served(s, log, u) && s.account in u.accounts && Tracked(u.accounts[s.account], u.nodes)
    requires forall i :: Eligible(u.accounts[s.account], u.nodes, i) ==> i in Picked(log)
    ensures s.account in s.from.tables.accounts
    ensures Picked(log) <= Weights(s.from.tables, s.account).Keys <= Picked(log) + Probed(log)
  {
    hide IsLog, Drift, PickedOnce;
    var t, r := s.from.tables, s.account;
    DriftKeeps(t, u, r);
    forall i | Eligible(t.accounts[r], t.nodes, i)
      ensures i in Picked(log) + Probed(log)
    {
      assert SameNode(t.nodes[t.accounts[r].nodes[i]], u.nodes[t.accounts[r].nodes[i]]);
      assert i !in Picked(log) && i !in Probed(log) ==> i !in Marked(log);
    }
  }

  /** As soon as one request is rejected by every node in this way, MaxAttempts caps the requests to the account exactly
      when the account has no more eligible nodes than that. */
  lemma MaxAttemptsCapsIff(s: Setting, log: seq<Round>, exit: Exit, m: Moment, end: int, most: nat)
    requires Handled(s, log, exit, m, end) && Rejecting(s, most) && !s.Timed() && !s.warmup.enabled
    requires s.account in s.from.tables.accounts && BreakersClosed(s)
    requires s.account in m.tables.accounts && Tracked(m.tables.accounts[s.account], m.tables.nodes)
    ensures (forall x, u :: Served(s, x, u) ==> SentCount(x) <= Attempts(s.retry))
            <==> |Weights(s.from.tables, s.account)| <= Attempts(s.retry)
  {
    hide Served, Rejecting, BreakersClosed, Tracked;
    RejectedAreAllTried(s, log, exit, m, end, most);
    HandledServed(s, log, exit, m, end);
    forall x, u | Served(s, x, u)
      ensures SentCount(x) <= |Weights(s.from.tables, s.account)|
    {
      SendsBounded(s, x, u);
    }
  }

  // ---------- a request that warm-up holds up ----------

  lemma {:induction false} TimeOfOne(c: WarmupConfig, probes: (string, nat) -> Probe, warmed: seq<string>, i: string)
    requires i in warmed
    ensures TimeSpent(c, probes, warmed) >= Spent(c, Of(probes, i), Tries(c))
  {
    if warmed[0] != i {
      TimeOfOne(c, probes, warmed[1..], i);
    }
  }

  lemma {:induction false} TimelineGrows(start: int, sent: seq<Transport.Sent>)
    requires Transport.Timeline(start, sent)
    ensures Transport.Finish(start, sent) >= start
  {
    if sent != [] {
      TimelineGrows(start, sent[..|sent| - 1]);
    }
  }

  lemma FinishedAfter(s: Setting, r: Round)
    requires r.Sent? && BoundedRound(s, r)
    ensures r.at <= r.finished
  {
    hide Transport.Exhausted, Transport.Timeline;
    var verdict, sent :| Transported(s.env, s.hasBase, s.tries, r, verdict, sent);
    TimelineGrows(r.at, sent);
  }

  /** When a round marks its node and no node passes its warm-up, the request lasts until every node that was still
      open to it has been waited for. */
  lemma MarkHoldsUp(s: Setting, log: seq<Round>, exit: Exit, m: Moment, end: int, k: nat, i: string)
    requires Handled(s, log, exit, m, end) && s.warmup.enabled && s.account in s.from.tables.accounts
    requires k < |log| && log[k].Sent? && log[k].marked
    requires forall j :: !Passes(s.warmup, Of(ProbesOf(s.env, log[k].attempt), j))
    requires Eligible(s.from.tables.accounts[s.account], s.from.tables.nodes, i)
    requires i !in Marked(log[..k]) && i !in Probed(log[..k]) && i != log[k].node
    ensures i in log[k].warmed
    ensures end >= log[k].at + Spent(s.warmup, Of(ProbesOf(s.env, log[k].attempt), i), Tries(s.warmup))
  {
    hide Served, CheapestFirst, LedgersFollow, BreakersFollow, Paced, Setting.ClockAfter, Jitters, EndedBy, Passes,
      Exchanged, Eligible, Marked, Probed, ProbesOf, StreakFollows, RecordsKept, Breaker.Grants, RespectsContext;
    assert Ruled(s, log[..k], log[k]);
    assert i in log[k].warmed;
    FinishedAfter(s, log[k]);
    TimeOfOne(s.warmup, ProbesOf(s.env, log[k].attempt), log[k].warmed, i);
  }

  lemma RetriedMeans(cfg: Retry.RetryConfig, r: Round)
    requires r.Sent? && IsRetried(cfg, r)
    ensures HasFailed(r) && !IsContextError(r)
  {
  }

  lemma {:induction false} BookedAt(cfg: Retry.RetryConfig, failLimit: int, log: seq<Round>, k: nat)
    requires IsLog(cfg, failLimit, log) && k < |log| && log[k].Sent?
    ensures Booked(cfg, failLimit, log[..k], log[k])
  {
    var n := |log| - 1;
    if k < n {
      BookedAt(cfg, failLimit, log[..n], k);
      assert log[..n][..k] == log[..k];
    }
  }

  /** An attempt on an upstream that answers every call within `most`. */
  lemma FinishedWithin(s: Setting, r: Round, most: nat)
    requires Rejecting(s, most) && r.Sent? && BoundedRound(s, r)
    ensures r.at <= r.finished <= r.at + Span(s.tries, most)
  {
    hide Transport.Exhausted, Span, IsRetried;
    FinishedAfter(s, r);
    var verdict: Transport.Verdict, sent: seq<Transport.Sent> :|
      Transported(s.env, s.hasBase, s.tries, r, verdict, sent);
    assert forall i :: 0 <= i < |sent| ==> sent[i].call == s.env.reply(r.attempt, i, sent[i].at, r.expiry);
    FinishWithin(r.at, sent, most);
    SpanGrows(|sent|, s.tries, most);
  }

  /** The longest time `k` attempts that are all rejected within `most` take with the back-offs after them. */
  function Lead(s: Setting, most: nat, k: nat): nat {
    if k == 0 then 0 else Lead(s, most, k - 1) + Span(s.tries, most) + AtLeastZero(Retry.EffectiveMax(s.retry))
  }

  /** There is time to reject `k` attempts. */
  predicate HasTime(s: Setting, most: nat, k: nat) {
    s.Timed() && k > 0 ==> s.env.reading + Lead(s, most, k - 1) + Span(s.tries, most) < s.retry.totalTimeout
  }

  /** The first `k` rounds are attempts that were rejected and marked nothing. */
  ghost predicate RejectedSoFar(s: Setting, log: seq<Round>, most: nat, k: nat)
    requires Jitters(s.env.jitter)
  {
    && k <= |log| && (forall i :: 0 <= i < k ==> log[i].Sent? && IsRetried(s.retry, log[i]))
    && SentCount(log[..k]) == k && Marked(log[..k]) == {} && Probed(log[..k]) == {}
    && s.start + s.env.reading <= s.ClockAfter(log[..k]) <= s.start + s.env.reading + Lead(s, most, k)
  }

  /** As long as there are eligible nodes, time and attempts before the last allowed one, a request that every node
      rejects goes on to another node without marking one. */
  lemma {:induction false} RejectedOnAndOn(
    s: Setting, log: seq<Round>, exit: Exit, m: Moment, end: int, most: nat, k: nat)
    requires Handled(s, log, exit, m, end) && Rejecting(s, most) && HasTime(s, most, k)
    requires s.account in s.from.tables.accounts && BreakersClosed(s)
    requires s.account in m.tables.accounts && Tracked(m.tables.accounts[s.account], m.tables.nodes)
    requires k <= |Weights(s.from.tables, s.account)| && (k == 0 || k < s.retry.maxAttempts)
    ensures Jitters(s.env.jitter) && RejectedSoFar(s, log, most, k)
  {
    hide Handled, Rejecting, BreakersClosed, Tracked, Weights, HasTime, Span, IsRetried, Marked, Probed, Jitters;
    HandledJitters(s, log, exit, m, end);
    if k == 0 {
      NothingRejected(s, log, most);
    } else {
      HasLessTime(s, most, k);
      RejectedOnAndOn(s, log, exit, m, end, most, k - 1);
      NextIsSent(s, log, exit, m, end, most, k - 1);
      OneMoreRejected(s, log, exit, m, end, most, k - 1);
    }
  }

  lemma HandledJitters(s: Setting, log: seq<Round>, exit: Exit, m: Moment, end: int)
    requires Handled(s, log, exit, m, end)
    ensures Jitters(s.env.jitter)
  {
  }

  lemma NothingRejected(s: Setting, log: seq<Round>, most: nat)
    requires Jitters(s.env.jitter)
    ensures RejectedSoFar(s, log, most, 0)
  {
    assert log[..0] == [];
    NothingPicked();
  }

  lemma HasLessTime(s: Setting, most: nat, k: nat)
    requires HasTime(s, most, k) && k > 0
    ensures HasTime(s, most, k - 1)
  {
    hide Span;
  }

  lemma NothingPicked()
    ensures Picked([]) == {} && Probed([]) == {} && Marked([]) == {}
  {
  }

  /** After so many rejected attempts comes another one, which is rejected too. */
  lemma NextIsSent(s: Setting, log: seq<Round>, exit: Exit, m: Moment, end: int, most: nat, k: nat)
    requires Handled(s, log, exit, m, end) && Rejecting(s, most) && HasTime(s, most, k + 1)
    requires s.account in s.from.tables.accounts && BreakersClosed(s)
    requires s.account in m.tables.accounts && Tracked(m.tables.accounts[s.account], m.tables.nodes)
    requires k < |Weights(s.from.tables, s.account)|
    requires Jitters(s.env.jitter) && RejectedSoFar(s, log, most, k)
    ensures k < |log| && log[k].Sent? && IsRetried(s.retry, log[k]) && log[k].at == s.ClockAfter(log[..k])
    ensures BoundedRound(s, log[k]) && Ruled(s, log[..k], log[k]) && Booked(s.retry, s.failLimit, log[..k], log[k])
  {
    hide Weights, Rejecting, BreakersClosed, Tracked, Drift, FailuresExplained, CheapestFirst, LedgersFollow,
      BreakersFollow, RecordsKept, EndedBy, IsRetried, PickedOnce, Picked, IsLog, Cheapest, Eligible, BoundedRound,
      WarmsOthers, StreakFollows, Breaker.Grants, Span, Jitters, Booked, Setting.ClockAfter;
    if k == |log| {
      assert log[..k] == log;
      NotOverYet(s, log, exit, m, end);
      assert false;
    }
    assert Ruled(s, log[..k], log[k]);
    NodeGranted(s, log, exit, m, end, k);
    assert log[k].Sent? by {
      hide Lead;
    }
    AttemptStartsAt(s, log, k);
    assert BoundedRound(s, log[k]);
    AttemptIsRejected(s, log[k], most, SentCount(log[..k]));
    BookedAt(s.retry, s.failLimit, log, k);
  }

  lemma NodeGranted(s: Setting, log: seq<Round>, exit: Exit, m: Moment, end: int, k: nat)
    requires Handled(s, log, exit, m, end) && s.account in s.from.tables.accounts && BreakersClosed(s) && k < |log|
    ensures forall at :: Breaker.Grants(s.limits, ViewAt(s.from.breakers, log[k].node, at), at)
  {
    hide IsLog, Drift, FailuresExplained, Breaker.Grants, PickedOnce, Picked, Probed, Marked, AllRuled, Bounded,
      RecordsKept, BreakersFollow, CheapestFirst, LedgersFollow, Paced, EndedBy, Jitters;
    assert log[k].node in s.Nodes();
  }

  /** A log of fewer rejected attempts than there were eligible nodes is no whole request. */
  lemma NotOverYet(s: Setting, log: seq<Round>, exit: Exit, m: Moment, end: int)
    requires Handled(s, log, exit, m, end) && s.account in s.from.tables.accounts
    requires s.account in m.tables.accounts && Tracked(m.tables.accounts[s.account], m.tables.nodes)
    requires (forall i :: 0 <= i < |log| ==> log[i].Sent? && IsRetried(s.retry, log[i])) && Probed(log) == {}
    ensures |log| >= |Weights(s.from.tables, s.account)|
  {
    hide Handled, Served, Weights, Tracked, Eligible, IsRetried, Picked, PickedOnce;
    HandledServed(s, log, exit, m, end);
    OutOfEligible(s, log, exit, m, end);
    PickedAreOpen(s, log, m.tables);
    RoundsAreNodes(log);
    WeightsCount(s.from.tables, s.account);
    SubsetSize(Weights(s.from.tables, s.account).Keys, Picked(log));
  }

  lemma OutOfEligible(s: Setting, log: seq<Round>, exit: Exit, m: Moment, end: int)
    requires Handled(s, log, exit, m, end) && s.account in m.tables.accounts
    requires forall i :: 0 <= i < |log| ==> log[i].Sent? && IsRetried(s.retry, log[i])
    ensures forall i :: Eligible(m.tables.accounts[s.account], m.tables.nodes, i) ==> i in Picked(log)
  {
    hide Served, IsRetried, Eligible, Picked, AllRuled, Bounded, BreakersFollow, CheapestFirst, LedgersFollow, Paced,
      Jitters, RecordsKept;
  }

  /** An attempt before the last allowed one marks nothing. */
  lemma OneMoreRejected(s: Setting, log: seq<Round>, exit: Exit, m: Moment, end: int, most: nat, k: nat)
    requires Handled(s, log, exit, m, end) && Rejecting(s, most) && k + 1 < s.retry.maxAttempts
    requires Jitters(s.env.jitter) && RejectedSoFar(s, log, most, k) && k < |log|
    requires log[k].Sent? && IsRetried(s.retry, log[k]) && log[k].at == s.ClockAfter(log[..k])
    requires BoundedRound(s, log[k]) && Booked(s.retry, s.failLimit, log[..k], log[k])
    ensures RejectedSoFar(s, log, most, k + 1)
  {
    hide Handled, Rejecting, IsRetried, Span, Jitters, Exchanged, Marked, Probed, Retry.CalculateBackoff,
      Retry.EffectiveMax;
    var before, r := log[..k], log[k];
    assert log[..k + 1] == before + [r] && (before + [r])[..k] == before;
    AppendedNodes(before, r);
    assert r.attempt == k + 1 && !r.marked && r.warmed == [];
    assert Elements<string>([]) == {};
    FinishedWithin(s, r, most);
    JitterAt(s.env.jitter, r.attempt);
    Retry.BackoffBounds(r.attempt - 1, s.retry, s.env.jitter(r.attempt));
    assert TimeSpent(s.warmup, ProbesOf(s.env, r.attempt), r.warmed) == 0;
  }

  lemma JitterAt(jitter: nat -> real, k: nat)
    requires Jitters(jitter)
    ensures 0.0 <= jitter(k) < 1.0
  {
  }

  /** Every node the request may be sent to has failed so often that one more failure reaches the limit. */
  ghost predicate OnTheBrink(s: Setting)
    requires s.account in s.from.tables.accounts
  {
    && (forall i :: i in Weights(s.from.tables, s.account) ==>
          s.from.tables.nodes[s.Nodes()[i]].failStreak + 1 >= Limit(s.failLimit))
    && (s.failLimit <= 1 || forall k: nat, j: nat, t: int, e: int ::
          s.env.reply(k, j, t, e).reply.Response? ==> s.env.reply(k, j, t, e).reply.status != OK)
  }

  /** The last allowed attempt, which is rejected as well, marks its node. */
  lemma LastAllowedMarks(s: Setting, log: seq<Round>, exit: Exit, m: Moment, end: int, most: nat)
    requires Handled(s, log, exit, m, end) && Rejecting(s, most) && HasTime(s, most, Attempts(s.retry))
    requires s.account in s.from.tables.accounts && BreakersClosed(s) && OnTheBrink(s)
    requires s.account in m.tables.accounts && Tracked(m.tables.accounts[s.account], m.tables.nodes)
    requires Attempts(s.retry) <= |Weights(s.from.tables, s.account)|
    ensures var k := Attempts(s.retry) - 1;
            && k < |log| && log[k].Sent? && log[k].marked && log[k].at >= s.start + s.env.reading
            && Marked(log[..k]) == {} && Probed(log[..k]) == {}
  {
    hide Handled, Rejecting, BreakersClosed, Tracked, Weights, Span, IsRetried, Marked, Probed, Jitters, OnTheBrink,
      HasTime, BoundedRound, WarmsOthers, Lead, Setting.ClockAfter;
    var k := Attempts(s.retry) - 1;
    HasLessTime(s, most, k + 1);
    RejectedOnAndOn(s, log, exit, m, end, most, k);
    NextIsSent(s, log, exit, m, end, most, k);
    RetriedMeans(s.retry, log[k]);
    StreakIsFull(s, log, exit, m, end, most, k);
  }

  lemma StreakIsFull(s: Setting, log: seq<Round>, exit: Exit, m: Moment, end: int, most: nat, k: nat)
    requires Handled(s, log, exit, m, end) && k < |log| && log[k].Sent? && Rejecting(s, most) && BoundedRound(s, log[k])
    requires s.account in s.from.tables.accounts && OnTheBrink(s) && StreakFollows(s, log[..k], log[k])
    requires Probed(log[..k]) == {} && HasFailed(log[k]) && !IsContextError(log[k])
    ensures log[k].streak >= Limit(s.failLimit)
  {
    hide IsLog, Drift, FailuresExplained, PickedOnce, Picked, Probed, Marked, AllRuled, Bounded, RecordsKept,
      BreakersFollow, CheapestFirst, LedgersFollow, Paced, EndedBy, Jitters, Transport.Exhausted, Rejecting;
    var node := log[k].node;
    assert node in Weights(s.from.tables, s.account);
    if s.failLimit > 1 {
      StatusIsNotOK(s, log[k], most);
    }
  }

  lemma StatusIsNotOK(s: Setting, r: Round, most: nat)
    requires r.Sent? && BoundedRound(s, r) && Rejecting(s, most)
    requires forall k: nat, j: nat, t: int, e: int ::
               s.env.reply(k, j, t, e).reply.Response? ==> s.env.reply(k, j, t, e).reply.status != OK
    ensures r.status != OK
  {
    hide Transport.Exhausted, Rejects, Span;
    var verdict: Transport.Verdict, sent: seq<Transport.Sent> :|
      Transported(s.env, s.hasBase, s.tries, r, verdict, sent);
    assert forall i :: 0 <= i < |sent| ==> sent[i].call == s.env.reply(r.attempt, i, sent[i].at, r.expiry);
    StatusTells(s.env, s.hasBase, s.tries, r, verdict, sent);
  }

  // ---------- when a request keeps its time ----------

  /** A request of which no attempt marks its node ends by its deadline plus the longest pause and back-off, warm-up or
      not. */
  lemma UnmarkedEndsOnTime(s: Setting, log: seq<Round>, exit: Exit, m: Moment, end: int)
    requires Handled(s, log, exit, m, end) && s.Timed() && RespectsContext(s.env) && Marked(log) == {}
    ensures end <= Transport.Later(s.start + s.env.reading, s.PlainEnd())
  {
    hide Handled, Drift, FailuresExplained, PickedOnce, Picked, Marked, Probed, Cheapest, RespectsContext, IsLog;
    HandledServed(s, log, exit, m, end);
    ServedFits(s, log, m.tables);
    HandledInTime(s, log, exit, m, end);
    WarmedAfterMark(s.retry, s.failLimit, log);
    NothingWarmed(s, log);
  }

  lemma SomeElement(ids: seq<string>)
    requires ids != []
    ensures Elements(ids) != {}
  {
    assert ids[0] in Elements(ids);
  }

  lemma {:induction false} NothingWarmed(s: Setting, log: seq<Round>)
    requires Probed(log) == {}
    ensures s.LastWarmup(log) == 0
  {
    if log != [] {
      var n := |log| - 1;
      AppendedNodes(log[..n], log[n]);
      assert log[..n] + [log[n]] == log;
      if !log[n].Sent? {
        NothingWarmed(s, log[..n]);
      } else if log[n].warmed != [] {
        SomeElement(log[n].warmed);
      }
    }
  }

  /** So does every request to an account that has fewer eligible nodes than MaxAttempts, or only one. */
  lemma FewNodesEndOnTime(s: Setting, log: seq<Round>, exit: Exit, m: Moment, end: int)
    requires Handled(s, log, exit, m, end) && s.Timed() && RespectsContext(s.env) && s.account in s.from.tables.accounts
    requires var n := |Weights(s.from.tables, s.account)|; n < s.retry.maxAttempts || n <= 1 || !s.warmup.enabled
    ensures end <= Transport.Later(s.start + s.env.reading, s.PlainEnd())
  {
    hide Handled, Served, Weights, RespectsContext, Marked, Probed;
    HandledServed(s, log, exit, m, end);
    HandledInTime(s, log, exit, m, end);
    if |Weights(s.from.tables, s.account)| < s.retry.maxAttempts {
      FewNodesMarkNothing(s, log, m.tables);
      UnmarkedEndsOnTime(s, log, exit, m, end);
    } else if s.warmup.enabled {
      OneNodeWarmsNothing(s, log, m.tables);
      NothingWarmed(s, log);
    } else {
      NothingWarmed(s, log);
    }
  }

  lemma HandledInTime(s: Setting, log: seq<Round>, exit: Exit, m: Moment, end: int)
    requires Handled(s, log, exit, m, end) && s.Timed() && RespectsContext(s.env) && s.account in s.from.tables.accounts
    ensures end <= Transport.Later(s.start + s.env.reading, s.PlainEnd() + s.LastWarmup(log))
  {
    hide Served, AllRuled, Bounded, RecordsKept, BreakersFollow, CheapestFirst, LedgersFollow, Paced, EndedBy, Jitters,
      RespectsContext;
  }

  lemma FewNodesMarkNothing(s: Setting, log: seq<Round>, u: Tables)
    requires Served(s, log, u) && s.account in s.from.tables.accounts
    requires |Weights(s.from.tables, s.account)| < s.retry.maxAttempts
    ensures Marked(log) == {}
  {
    SendsBounded(s, log, u);
    forall k | 0 <= k < |log| && log[k].Sent?
      ensures !log[k].marked
    {
      if log[k].marked {
        BookedAt(s.retry, s.failLimit, log, k);
        SentSoFar(log, k);
        CountGrows(log, k + 1);
      }
    }
  }

  lemma SentSoFar(log: seq<Round>, k: nat)
    requires k < |log| && log[k].Sent?
    ensures SentCount(log[..k + 1]) == SentCount(log[..k]) + 1
  {
    assert log[..k + 1][..k] == log[..k];
  }

  lemma {:induction false} CountGrows(log: seq<Round>, k: nat)
    requires k <= |log|
    ensures SentCount(log[..k]) <= SentCount(log)
    decreases |log|
  {
    if k < |log| {
      CountGrows(log[..|log| - 1], k);
      assert log[..|log| - 1][..k] == log[..k];
    } else {
      assert log[..k] == log;
    }
  }

  /** Where at most one node is eligible, its failure leaves none to be warmed. */
  lemma OneNodeWarmsNothing(s: Setting, log: seq<Round>, u: Tables)
    requires Served(s, log, u) && s.account in s.from.tables.accounts
    requires |Weights(s.from.tables, s.account)| <= 1
    ensures Probed(log) == {}
  {
    hide Drift, FailuresExplained, PickedOnce, Picked, Marked, Cheapest, IsLog;
    WeightsCount(s.from.tables, s.account);
    forall k, i | 0 <= k < |log| && log[k].Sent? && i in log[k].warmed
      ensures i == log[k].node
    {
      assert i in Probed(log);
      BothInOne(Weights(s.from.tables, s.account).Keys, i, log[k].node);
    }
    forall k | 0 <= k < |log| && log[k].Sent?
      ensures log[k].node !in log[k].warmed
    {
      BookedAt(s.retry, s.failLimit, log, k);
    }
  }

  lemma BothInOne(all: set<string>, i: string, j: string)
    requires |all| <= 1 && i in all && j in all
    ensures i == j
  {
    SubsetSize({i, j}, all);
  }

  /** A request that every node rejects, to as many nodes as attempts are allowed and to two at least, with the default
      warm-up, nodes that answer no probe and have failed often enough before: it lasts 34 seconds and more, however
      short its total timeout is, if that leaves time for the allowed attempts. */
  lemma OutlastsItsTimeout(s: Setting, log: seq<Round>, exit: Exit, m: Moment, end: int, most: nat)
    requires Handled(s, log, exit, m, end) && Rejecting(s, most) && HasTime(s, most, Attempts(s.retry))
    requires s.account in s.from.tables.accounts && BreakersClosed(s) && OnTheBrink(s)
    requires s.account in m.tables.accounts && Tracked(m.tables.accounts[s.account], m.tables.nodes)
    requires s.warmup == NormalizeWarmup(true, 2, 17_000, 1)
    requires forall k: nat, x, n: nat :: s.env.probes(k, x, n).took > 17 * Retry.SECOND
    requires s.retry.maxAttempts <= |Weights(s.from.tables, s.account)| && |Weights(s.from.tables, s.account)| >= 2
    ensures end >= s.start + s.env.reading + 34 * Retry.SECOND
  {
    hide Handled, Rejecting, BreakersClosed, Tracked, Picked, Probed, Marked, Eligible, Span, Passes, Spent, OnTheBrink,
      HasTime, Weights;
    LastAllowedMarks(s, log, exit, m, end, most);
    var k := Attempts(s.retry) - 1;
    var other := AnotherNode(s, log[k].node);
    forall x
      ensures !Passes(s.warmup, Of(ProbesOf(s.env, log[k].attempt), x))
      ensures Spent(s.warmup, Of(ProbesOf(s.env, log[k].attempt), x), Tries(s.warmup)) == 34 * Retry.SECOND
    {
      SilentProbes(Of(ProbesOf(s.env, log[k].attempt), x));
    }
    MarkHoldsUp(s, log, exit, m, end, k, other);
  }

  lemma AnotherNode(s: Setting, i: string) returns (other: string)
    requires s.account in s.from.tables.accounts && |Weights(s.from.tables, s.account)| >= 2
    ensures other != i && Eligible(s.from.tables.accounts[s.account], s.from.tables.nodes, other)
  {
    hide Eligible;
    var all := Weights(s.from.tables, s.account).Keys;
    WeightsCount(s.from.tables, s.account);
    if all <= {i} {
      SubsetSize(all, {i});
    }
    other :| other in all && other != i;
  }

  /** The upstream of `Rejection` whose nodes answer no probe in time. */
  function Unanswered(status: int): Environment {
    Rejection(status).(probes := (k, i, j) => Probe(true, 30 * Retry.SECOND))
  }

  lemma UnansweredIsOnTheBrink(s: Setting, status: int)
    requires s.env == Unanswered(status) && s.account in s.from.tables.accounts
    requires status == GATEWAY_TIMEOUT ==> s.failLimit <= 1
    requires status != OK
    requires forall i :: i in Weights(s.from.tables, s.account) ==>
                           s.from.tables.nodes[s.Nodes()[i]].failStreak + 1 >= Limit(s.failLimit)
    ensures OnTheBrink(s) && RespectsContext(s.env)
    ensures forall k: nat, x, n: nat :: s.env.probes(k, x, n).took > 17 * Retry.SECOND
  {
    hide Weights;
  }

  /** In these circumstances a request keeps its time exactly when the account has fewer eligible nodes than attempts
      are allowed, or only one. */
  lemma EndsOnTimeIff(s: Setting, log: seq<Round>, exit: Exit, m: Moment, end: int, most: nat)
    requires Handled(s, log, exit, m, end) && Rejecting(s, most) && HasTime(s, most, Attempts(s.retry))
    requires s.account in s.from.tables.accounts && BreakersClosed(s) && OnTheBrink(s)
    requires s.account in m.tables.accounts && Tracked(m.tables.accounts[s.account], m.tables.nodes)
    requires s.warmup == NormalizeWarmup(true, 2, 17_000, 1) && s.Timed() && RespectsContext(s.env)
    requires forall k: nat, x, n: nat :: s.env.probes(k, x, n).took > 17 * Retry.SECOND
    requires s.PlainEnd() < s.start + s.env.reading + 34 * Retry.SECOND
    ensures var n := |Weights(s.from.tables, s.account)|;
            end <= Transport.Later(s.start + s.env.reading, s.PlainEnd()) <==> n < s.retry.maxAttempts || n <= 1
  {
    hide Handled, Rejecting, BreakersClosed, Tracked, OnTheBrink, HasTime, Weights, RespectsContext;
    var n := |Weights(s.from.tables, s.account)|;
    if n < s.retry.maxAttempts || n <= 1 {
      FewNodesEndOnTime(s, log, exit, m, end);
    } else {
      OutlastsItsTimeout(s, log, exit, m, end, most);
    }
  }

  lemma HandledServed(s: Setting, log: seq<Round>, exit: Exit, m: Moment, end: int)
    requires Handled(s, log, exit, m, end)
    ensures Served(s, log, m.tables) && LedgersFollow(s.limits.enabled, s.from, log, m)
    ensures PickedOnce(log) && (!s.warmup.enabled ==> Probed(log) == {})
  {
  }
}
