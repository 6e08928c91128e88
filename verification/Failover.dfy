/** The failover engine: breakers per node, warm-up before activation, and the retry loop that serves one
    `/v1/messages` request. */
module Failover {
  import opened Common
  import opened Nodes
  import opened Probes
  import opened Warmup
  import opened Priority
  import opened Journal
  import Breaker
  import Retry
  import Transport
  import opened RequestLog
  import opened Requests

  lemma RegisteredFacts(byId: map<string, Ref>, t: AccountTable, r: Ref)
    requires Registered(byId, t, r)
    ensures r in t
  {
  }

  // ---------- what one call makes of the breakers ----------

  /** The breaker of node `i`, and no other, was asked at `now`. */
  ghost predicate Asked(
    limits: Breaker.Config, v: map<string, Breaker.State>, w: map<string, Breaker.State>, i: string, now: int)
  {
    && (forall j, at :: j != i || !limits.enabled ==> ViewAt(w, j, at) == ViewAt(v, j, at))
    && (limits.enabled ==> forall at :: ViewAt(w, i, at) == Breaker.Allow(limits, ViewAt(v, i, now), now))
  }

  /** The breaker of node `i`, and no other, was told a result at `now`. */
  ghost predicate Heard(
    limits: Breaker.Config, v: map<string, Breaker.State>, w: map<string, Breaker.State>, i: string, success: bool,
    now: int)
  {
    && (forall j, at :: j != i || !limits.enabled ==> ViewAt(w, j, at) == ViewAt(v, j, at))
    && (limits.enabled ==> forall at :: ViewAt(w, i, at) == Breaker.Record(limits, ViewAt(v, i, now), success, now))
  }

  /** What an attempt makes of the breakers: its node's is told the result, unless the context ended; those of nodes
      warmed because of it may be cleared. */
  ghost predicate AttemptHeard(
    limits: Breaker.Config, v: map<string, Breaker.State>, w: map<string, Breaker.State>, r: Round)
    requires r.Sent?
  {
    && (forall j, at :: j != r.node || !limits.enabled || IsContextError(r) ==>
          ViewAt(w, j, at) == ViewAt(v, j, at) || (j in ProbedBy(r) && IsFresh(ViewAt(w, j, at))))
    && (limits.enabled && !IsContextError(r) ==>
          forall at ::
            ViewAt(w, r.node, at) == Breaker.Record(limits, ViewAt(v, r.node, r.finished), !HasFailed(r), r.finished))
    && r.node !in ProbedBy(r)
  }

  lemma AttemptTold(
    limits: Breaker.Config, v: map<string, Breaker.State>, w: map<string, Breaker.State>, x: map<string, Breaker.State>,
    r: Round, now: int)
    requires Asked(limits, v, w, r.node, now) && r.Sent? && AttemptHeard(limits, w, x, r)
    ensures RoundTold(limits, v, x, r, now)
  {
    hide IsFresh, Breaker.Record, Breaker.Allow, ViewAt, HasFailed;
    forall j, at | j != r.node || !limits.enabled
      ensures ViewAt(x, j, at) == ViewAt(v, j, at) || (j in ProbedBy(r) && IsFresh(ViewAt(x, j, at)))
    {
      assert ViewAt(w, j, at) == ViewAt(v, j, at);
    }
    forall at
      ensures limits.enabled ==> ViewAt(x, r.node, at) == Told(limits, ViewAt(v, r.node, now), r, now)
    {
      assert limits.enabled ==> ViewAt(w, r.node, r.finished) == Breaker.Allow(limits, ViewAt(v, r.node, now), now);
      assert limits.enabled ==> ViewAt(w, r.node, at) == Breaker.Allow(limits, ViewAt(v, r.node, now), now);
    }
  }

  lemma UnsentTold(
    limits: Breaker.Config, v: map<string, Breaker.State>, w: map<string, Breaker.State>, r: Round, now: int)
    requires Asked(limits, v, w, r.node, now) && !r.Sent?
    requires r.Refused? ==> !Breaker.Grants(limits, ViewAt(v, r.node, now), now)
    ensures RoundTold(limits, v, w, r, now)
  {
  }

  lemma ReportHeard(
    limits: Breaker.Config, v: map<string, Breaker.State>, w: map<string, Breaker.State>,
    x: map<string, Breaker.State>, r: Round)
    requires r.Sent? && r.node !in r.warmed && OnlyCleared(w, x, Elements(r.warmed))
    requires if IsContextError(r) then w == v else Heard(limits, v, w, r.node, !HasFailed(r), r.finished)
    ensures AttemptHeard(limits, v, x, r)
  {
    hide IsFresh, Breaker.Record, ViewAt, HasFailed;
    forall j, at
      ensures ViewAt(x, j, at) == ViewAt(w, j, at) || (j in ProbedBy(r) && IsFresh(ViewAt(x, j, at)))
    {
    }
  }

  lemma ClearedAlone(v: map<string, Breaker.State>, w: map<string, Breaker.State>, i: string)
    requires OnlyCleared(v, w, {i})
    ensures OnlyCleared(v, w, Elements([i]))
  {
    assert Elements([i]) == {i};
  }

  /** The breakers when node `i` was warmed, the nodes of `more` after it, and late results of `i` came in at last. */
  lemma ClearedWithRest(
    v: map<string, Breaker.State>, w: map<string, Breaker.State>, x: map<string, Breaker.State>,
    y: map<string, Breaker.State>, i: string, more: seq<string>)
    requires OnlyCleared(v, w, {i}) && OnlyCleared(w, x, Elements(more)) && OnlyCleared(x, y, {i})
    ensures OnlyCleared(v, y, Elements([i] + more))
  {
    hide OnlyCleared;
    var all := Elements([i] + more);
    assert all == {i} + Elements(more);
    ClearedTransitive(v, w, x, {i}, Elements(more), all);
    ClearedTransitive(v, x, y, all, {i}, all);
  }

  lemma NothingCleared(v: map<string, Breaker.State>, touched: set<string>)
    ensures OnlyCleared(v, v, touched)
  {
  }

  /** A checked node's breaker, after a reselection may have cleared others. */
  lemma BreakersChecked(
    v: map<string, Breaker.State>, w: map<string, Breaker.State>, x: map<string, Breaker.State>, i: string,
    cleared: bool, now: int, warmed: seq<string>)
    requires OnlyCleared(v, w, {i}) && OnlyCleared(w, x, Elements(warmed))
    requires if cleared then forall at :: ViewAt(w, i, at) == Breaker.Fresh(now)
             else forall j, at :: ViewAt(w, j, at) == ViewAt(v, j, at)
    ensures OnlyCleared(v, x, Elements(warmed) + {i}) && (!cleared ==> OnlyCleared(v, x, Elements(warmed)))
    ensures cleared ==>
              && (forall at :: IsFresh(ViewAt(x, i, at)))
              && (i !in warmed ==> forall at :: ViewAt(x, i, at) == Breaker.Fresh(now))
  {
    ClearedTransitive(v, w, x, {i}, Elements(warmed), Elements(warmed) + {i});
    if cleared {
      forall at
        ensures IsFresh(ViewAt(x, i, at)) && (i !in warmed ==> ViewAt(x, i, at) == Breaker.Fresh(now))
      {
        assert ViewAt(w, i, at) == Breaker.Fresh(now);
      }
    }
  }

  // ---------- the server ----------

  /** What can happen to the server from outside. */
  datatype Operation =
    | CreateAccount(name: string, key: string, freshId: string)
    | UpdateAccount(id: string, name: string, key: string)
    | DeleteAccount(id: string)
    | AddNode(accountId: string, url: string, parses: bool, weight: int, freshId: string,
      probes: (string, nat) -> Probe)
    | UpdateNode(node: string, url: string, parses: bool, weight: int, probes: (string, nat) -> Probe)
    | DeleteNode(node: string)
    | DisableNode(node: string, probes: (string, nat) -> Probe)
    | EnableNode(node: string, probes: (string, nat) -> Probe)
    | Activate(node: string)
    | Check(node: string, ok: bool, probes: (string, nat) -> Probe)
    | LateProbe(node: string, ok: bool)
    | Serve(accountId: string, env: Environment)

  /** Event `e` is one that operation `op` may cause. */
  ghost predicate Causes(op: Operation, e: Event) {
    match e
    case AccountCreated(_, a) => op.CreateAccount? && a.id == op.freshId && a.name == op.name && a.proxyKey == op.key
    case AccountUpdated(_, name, _) => op.UpdateAccount? && (op.name == "" || name == op.name)
    case AccountDeleted(id) => op.DeleteAccount? && id == op.id
    case NodeAdded(_, i, n) =>
      && op.AddNode? && i == op.freshId && n.accountId == op.accountId
      && n.weight == if op.weight <= 0 then 1 else op.weight
    case NodeWeighed(i, weight) => op.UpdateNode? && i == op.node && weight == if op.weight <= 0 then 1 else op.weight
    case NodeDeleted(i) => op.DeleteNode? && i == op.node
    case NodeDisabled(i) => op.DisableNode? && i == op.node
    case NodeEnabled(i) => op.EnableNode? && i == op.node
    case HealthChecked(i, ok) => (op.Check? || op.LateProbe?) && i == op.node && ok == op.ok
    case AttemptCounted(_, _, _) => op.Serve?
    case MarkedFailed(_) => op.Serve?
    case Reselection(_, probes, _, _) => IsProbedBy(op, probes)
    case Takeover(_, i, _) => op.EnableNode? && i == op.node
    case ByHand(_, i) => op.Activate? && i == op.node
  }

  /** A reselection that operation `op` asks for meets these probes. */
  ghost predicate IsProbedBy(op: Operation, probes: (string, nat) -> Probe) {
    if op.Serve? then exists attempt: nat :: probes == ProbesOf(op.env, attempt)
    else (op.AddNode? || op.UpdateNode? || op.DisableNode? || op.EnableNode? || op.Check?) && probes == op.probes
  }

  /** The journal has grown from `j` to `k` by events that operation `op` caused. */
  ghost predicate Caused(op: Operation, j: Journal, k: Journal) {
    && k.start == j.start && j.steps <= k.steps
    && forall n :: |j.steps| <= n < |k.steps| ==> Causes(op, k.steps[n].event)
  }

  lemma AddsCaused(op: Operation, j: Journal, k: Journal, events: seq<Event>)
    requires Adds(j, k, events) && forall e :: e in events ==> Causes(op, e)
    ensures Caused(op, j, k)
  {
    hide Causes;
    forall n | |j.steps| <= n < |k.steps|
      ensures Causes(op, k.steps[n].event)
    {
      assert k.steps[|j.steps| + (n - |j.steps|)].event == events[n - |j.steps|];
    }
  }

  lemma NothingCaused(op: Operation, j: Journal)
    ensures Caused(op, j, j)
  {
  }

  lemma NoTurns(j: Journal)
    ensures InTurn([], j, j, [|j.steps|])
  {
  }

  /** An operation that rewrites a node and then perhaps reselects. */
  lemma OperationCaused(
    op: Operation, j: Journal, k: Journal, e: Event, r: Ref, probes: (string, nat) -> Probe, best: Option<string>,
    warmed: seq<string>)
    requires Adds(j, k, [e] + ReselectionIf(true, r, probes, best, warmed))
             || Adds(j, k, [e] + ReselectionIf(false, r, probes, best, warmed))
    requires || (op.AddNode? && e.NodeAdded? && e.node == op.freshId && probes == op.probes
               && e.state.accountId == op.accountId && e.state.weight == if op.weight <= 0 then 1 else op.weight)
             || (op.UpdateNode? && e == NodeWeighed(op.node, if op.weight <= 0 then 1 else op.weight)
               && probes == op.probes)
             || (op.DisableNode? && e == NodeDisabled(op.node) && probes == op.probes)
             || (op.Check? && e == HealthChecked(op.node, op.ok) && probes == op.probes)
    ensures Caused(op, j, k)
  {
    hide Adds;
    var asked := Adds(j, k, [e] + ReselectionIf(true, r, probes, best, warmed));
    AddsCaused(op, j, k, [e] + ReselectionIf(asked, r, probes, best, warmed));
  }

  /** An operation that does one thing if it can. */
  lemma SingleCaused(op: Operation, j: Journal, k: Journal, e: Event, done: bool)
    requires Adds(j, k, if done then [e] else [])
    requires || !done || (op.DeleteNode? && e == NodeDeleted(op.node))
             || (op.Activate? && e.ByHand? && e.node == op.node)
               || (op.LateProbe? && e == HealthChecked(op.node, op.ok))
             || (op.CreateAccount? && e.AccountCreated? && e.record.id == op.freshId && e.record.name == op.name
                 && e.record.proxyKey == op.key)
             || (op.UpdateAccount? && e.AccountUpdated? && (op.name == "" || e.name == op.name))
             || (op.DeleteAccount? && e == AccountDeleted(op.id))
    ensures Caused(op, j, k)
  {
    hide Adds;
    AddsCaused(op, j, k, if done then [e] else []);
  }

  lemma EnablingCaused(
    op: Operation, j: Journal, k: Journal, r: Ref, i: string, needed: bool, probes: (string, nat) -> Probe,
    best: Option<string>, warmed: seq<string>, takes: bool, inUse: Option<string>)
    requires op.EnableNode? && i == op.node && probes == op.probes
    requires Adds(j, k, [NodeEnabled(i)] + ReselectionIf(needed, r, probes, best, warmed)
                        + if takes then [Takeover(r, i, inUse)] else [])
    ensures Caused(op, j, k)
  {
    hide Adds;
    AddsCaused(op, j, k, [NodeEnabled(i)] + ReselectionIf(needed, r, probes, best, warmed)
                         + if takes then [Takeover(r, i, inUse)] else []);
  }

  lemma RequestCaused(op: Operation, j: Journal, k: Journal, r: Ref, log: seq<Round>)
    requires op.Serve? && RequestAdds(j, k, r, op.env, log)
    ensures Caused(op, j, k)
  {
    hide Adds, AllEventsOf;
    var best: seq<Option<string>> :| |best| == |log| && Adds(j, k, AllEventsOf(r, op.env, log, best));
    EventsCaused(op, r, log, best);
    AddsCaused(op, j, k, AllEventsOf(r, op.env, log, best));
  }

  lemma {:induction false} EventsCaused(op: Operation, r: Ref, log: seq<Round>, best: seq<Option<string>>)
    requires op.Serve? && |best| == |log|
    ensures forall e :: e in AllEventsOf(r, op.env, log, best) ==> Causes(op, e)
  {
    if log != [] {
      var n := |log| - 1;
      EventsCaused(op, r, log[..n], best[..n]);
    }
  }

  /** Each of the operations, one after the other, caused its part of what the journal has grown by; its part is
      between its two cuts. */
  ghost predicate InTurn(ops: seq<Operation>, j: Journal, k: Journal, cuts: seq<nat>) {
    && |cuts| == |ops| + 1 && cuts[0] == |j.steps| && cuts[|ops|] == |k.steps| && k.start == j.start
      && j.steps <= k.steps
    && (forall m, n :: 0 <= m < n <= |ops| ==> cuts[m] <= cuts[n])
    && forall n, l :: 0 <= n < |ops| && cuts[n] <= l < cuts[n + 1] ==> Causes(ops[n], k.steps[l].event)
  }

  lemma OneMoreTurn(ops: seq<Operation>, op: Operation, j: Journal, k: Journal, l: Journal, cuts: seq<nat>)
    requires InTurn(ops, j, k, cuts) && Caused(op, k, l)
    ensures InTurn(ops + [op], j, l, cuts + [|l.steps|])
  {
    hide Causes;
    var all, more := ops + [op], cuts + [|l.steps|];
    forall n, x | 0 <= n < |all| && more[n] <= x < more[n + 1]
      ensures Causes(all[n], l.steps[x].event)
    {
      if n < |ops| {
        assert more[n] == cuts[n] && more[n + 1] == cuts[n + 1] && all[n] == ops[n];
        assert l.steps[x] == k.steps[x];
      }
    }
  }

  class Server {
    const registry: Registry
    const transport: Transport.RetryTransport
    const breakerConfig: Breaker.Config
    const warmup: WarmupConfig
    const retry: Retry.RetryConfig
    var breakers: map<string, Breaker.CircuitBreaker>
    /** The breaker objects, the requests each of them has let through and the results it has been told. */
    ghost var owned: set<Breaker.CircuitBreaker>
    ghost var granted: map<string, nat>
    ghost var reported: map<string, nat>
    /** Every change of the registry. */
    ghost var journal: Journal

    constructor (registry: Registry, transport: Transport.RetryTransport, breakerConfig: Breaker.Config,
                 warmup: WarmupConfig, retry: Retry.RetryConfig)
      requires registry.Valid()
      ensures Valid() && this.registry == registry && breakers == map[] && granted == map[] && reported == map[]
      ensures this.transport == transport && this.breakerConfig == breakerConfig
      ensures this.warmup == warmup && this.retry == retry
      ensures Recorded() && journal.start == Here() && journal.steps == []
      ensures registry.accountById == map[] ==> AllSettled()
    {
      this.registry, this.transport, this.breakerConfig := registry, transport, breakerConfig;
      this.warmup, this.retry := warmup, retry;
      breakers, owned, granted, reported := map[], {}, map[], map[];
      journal := Journal(Snapshot(registry.AllMaps(), registry.View()), []);
    }

    /** The registry now. */
    ghost function Here(): Snapshot
      reads registry
    {
      Snapshot(registry.AllMaps(), registry.View())
    }

    /** The journal holds every change of the registry up to now. */
    ghost predicate Recorded()
      reads this`journal, registry
    {
      IsJournal(warmup, journal) && journal.Now() == Here()
    }

    /** Every active node was active when the journal began and has been ever since, or a later step chose it by its
        rule and it has been active since then. */
    ghost predicate AllExplained()
      reads this`journal, registry
    {
      forall r :: r in registry.accountTable && registry.accountTable[r].activeId != "" ==>
                    IsExplained(warmup, journal, r, registry.accountTable[r].activeId)
    }

    lemma Explained()
      requires Recorded()
      ensures AllExplained()
    {
      hide IsJournal, IsExplained;
      forall r | r in registry.accountTable && registry.accountTable[r].activeId != ""
        ensures IsExplained(warmup, journal, r, registry.accountTable[r].activeId)
      {
        ActiveWasChosen(warmup, journal, r);
      }
    }

    /** Enters in the journal that `e` took the registry from `s` to where it is now. */
    ghost method Enter(e: Event, s: Snapshot)
      requires registry.Valid()
      modifies this`journal
      ensures journal == old(journal).Then(e, Here()) && Adds(old(journal), journal, [e])
      ensures IsJournal(warmup, old(journal)) && old(journal).Now() == s ==>
                Leads(warmup, old(journal).Before(|old(journal).steps|), s, e, Here()) ==> Recorded()
    {
      hide Leads, Consistent;
      if IsJournal(warmup, journal) && journal.Now() == s && Leads(warmup, journal.Before(|journal.steps|), s, e,
        Here()) {
        JournalGrows(warmup, journal, e, Here());
      }
      journal := journal.Then(e, Here());
    }

    /** Every breaker is in a reachable state, and its history holds the grants and results counted here. */
    ghost predicate BreakersValid()
      reads this`breakers, this`owned, this`granted, this`reported, owned
    {
      && granted.Keys <= breakers.Keys && reported.Keys <= breakers.Keys
      && forall i :: i in breakers ==> breakers[i] in owned && Agrees(breakers[i], i)
    }

    ghost predicate Agrees(b: Breaker.CircuitBreaker, i: string)
      reads this`granted, this`reported, b
    {
      && b.node == i && b.Valid() && b.cfg == Breaker.ApplyDefaults(breakerConfig)
      && Count(granted, i) == b.Granted() && Count(reported, i) == Breaker.ResultCount(b.history)
    }

    ghost predicate Valid()
      reads this`breakers, this`owned, this`granted, this`reported, owned, registry
    {
      registry.Valid() && BreakersValid()
    }

    /** The state of node `i`'s breaker; a node without one is treated as if it had a new one. */
    ghost function BreakerState(i: string, now: int): Breaker.State
      reads this`breakers, this`owned, owned
    {
      if i in breakers && breakers[i] in owned then breakers[i].View() else Breaker.Fresh(now)
    }

    /** The states of all breakers. */
    ghost function Views(): (v: map<string, Breaker.State>)
      reads this`breakers, this`owned, owned
      ensures forall i, at :: ViewAt(v, i, at) == BreakerState(i, at)
    {
      map i | i in breakers && breakers[i] in owned :: breakers[i].View()
    }

    ghost function Now(): Moment
      reads this`breakers, this`owned, this`granted, this`reported, owned, registry
    {
      Moment(registry.View(), granted, reported, Views())
    }

    function Limits(): Breaker.Config {
      Breaker.ApplyDefaults(breakerConfig)
    }

    method GetOrCreateBreaker(i: string, now: int)
      requires BreakersValid()
      modifies this`breakers, this`owned
      ensures BreakersValid() && i in breakers && fresh(owned - old(owned)) && old(owned) <= owned
      ensures forall j, t :: j != i || t == now ==> BreakerState(j, t) == old(BreakerState(j, t))
      ensures forall j :: j != i ==>
                (j in breakers <==> j in old(breakers)) && (j in breakers ==> breakers[j] == old(breakers[j]))
    {
      hide Breaker.ApplyDefaults, Breaker.CircuitBreaker.View;
      if i !in breakers {
        var b := new Breaker.CircuitBreaker(i, breakerConfig, now);
        breakers := breakers[i := b];
        owned := owned + {b};
      }
    }

    /** Asks the breaker of node `i`; a disabled breaker configuration lets everything through. */
    method Admit(i: string, now: int) returns (allowed: bool)
      requires BreakersValid()
      modifies this`breakers, this`granted, this`owned, owned
      ensures BreakersValid() && fresh(owned - old(owned))
      ensures allowed == (breakerConfig.enabled ==> Breaker.Grants(Limits(), old(BreakerState(i, now)), now))
      ensures breakerConfig.enabled ==>
                && i in breakers && breakers[i] in owned
                && breakers[i].View() == Breaker.Allow(Limits(), old(BreakerState(i, now)), now)
      ensures forall j, t :: j != i || !breakerConfig.enabled ==> BreakerState(j, t) == old(BreakerState(j, t))
      ensures granted == if breakerConfig.enabled && allowed then Bump(old(granted), i) else old(granted)
    {
      hide Breaker.CircuitBreaker.Valid, Breaker.CircuitBreaker.Granted, Breaker.ResultCount,
        Breaker.Allow, Breaker.Grants, Count, Bump, Breaker.CircuitBreaker.View, Breaker.ApplyDefaults;
      if !breakerConfig.enabled {
        return true;
      }
      GetOrCreateBreaker(i, now);
      assert forall j :: j in breakers && j != i ==> breakers[j] != breakers[i];
      allowed := breakers[i].AllowRequest(now);
      if allowed {
        CountBump(granted, i);
        granted := Bump(granted, i);
      }
      assert Agrees(breakers[i], i);
    }

    /** Tells the breaker of node `i` how an attempt ended. */
    method Report(i: string, success: bool, now: int)
      requires BreakersValid()
      modifies this`breakers, this`reported, this`owned, owned
      ensures BreakersValid() && fresh(owned - old(owned))
      ensures breakerConfig.enabled ==>
                && i in breakers && breakers[i] in owned
                && breakers[i].View() == Breaker.Record(Limits(), old(BreakerState(i, now)), success, now)
      ensures forall j, t :: j != i || !breakerConfig.enabled ==> BreakerState(j, t) == old(BreakerState(j, t))
      ensures reported == if breakerConfig.enabled then Bump(old(reported), i) else old(reported)
    {
      hide Breaker.CircuitBreaker.Valid, Breaker.CircuitBreaker.Granted, Breaker.ResultCount,
        Breaker.Record, Count, Bump, Breaker.CircuitBreaker.View, Breaker.ApplyDefaults;
      if breakerConfig.enabled {
        GetOrCreateBreaker(i, now);
        assert forall j :: j in breakers && j != i ==> breakers[j] != breakers[i];
        breakers[i].RecordResult(success, now);
        CountBump(reported, i);
        reported := Bump(reported, i);
      }
    }

    /** Clears the breaker of node `i` after a successful health check. */
    method ResetBreaker(i: string, now: int)
      requires BreakersValid()
      modifies this`breakers, this`owned, owned
      ensures BreakersValid() && fresh(owned - old(owned))
      ensures breakerConfig.enabled ==>
                i in breakers && breakers[i] in owned && breakers[i].View() == Breaker.Fresh(now)
      ensures forall j, t :: j != i || !breakerConfig.enabled ==> BreakerState(j, t) == old(BreakerState(j, t))
    {
      hide Breaker.CircuitBreaker.Valid, Breaker.CircuitBreaker.Granted, Breaker.ResultCount,
        Breaker.CircuitBreaker.View, Breaker.ApplyDefaults;
      if breakerConfig.enabled {
        GetOrCreateBreaker(i, now);
        assert forall j :: j in breakers && j != i ==> breakers[j] != breakers[i];
        breakers[i].Reset(now);
      }
    }

    /** The same in terms of all breakers' states. */
    method AskBreaker(i: string, now: int) returns (allowed: bool)
      requires BreakersValid()
      modifies this`breakers, this`granted, this`owned, owned
      ensures BreakersValid() && fresh(owned - old(owned))
      ensures allowed <==> Breaker.Grants(Limits(), ViewAt(old(Views()), i, now), now)
      ensures Asked(Limits(), old(Views()), Views(), i, now)
      ensures granted == if breakerConfig.enabled && allowed then Bump(old(granted), i) else old(granted)
    {
      hide BreakersValid, Bump, Breaker.Allow;
      allowed := Admit(i, now);
    }

    method TellBreaker(i: string, success: bool, now: int)
      requires BreakersValid()
      modifies this`breakers, this`reported, this`owned, owned
      ensures BreakersValid() && fresh(owned - old(owned))
      ensures Heard(Limits(), old(Views()), Views(), i, success, now)
      ensures reported == if breakerConfig.enabled then Bump(old(reported), i) else old(reported)
    {
      hide BreakersValid, Bump, Breaker.Record;
      Report(i, success, now);
    }

    /** The part of a health check that is common to every source: the node's failure state follows the
        result, and a success clears its breaker. */
    method ApplyCheck(i: string, ok: bool, now: int) returns (promote: bool, lostActive: bool)
      requires Valid() && i in registry.nodeIndex
      modifies registry`nodeTable, registry`accountTable, this`breakers, this`owned, owned
      ensures Valid() && fresh(owned - old(owned))
      ensures var p, r := registry.nodeIndex[i], registry.nodeAccount[i];
              && p in old(registry.nodeTable) && r in old(registry.accountTable)
              && registry.nodeTable == old(registry.nodeTable)[p := Checked(old(registry.nodeTable)[p], ok)]
              && registry.accountTable == Follow(old(registry.accountTable), r, i, !ok)
              && var n, a := old(registry.nodeTable)[p], old(registry.accountTable)[r];
                 && Complete(a, old(registry.nodeTable))
                 && (promote <==> ok && Promotes(n, a, old(registry.nodeTable)))
                 && (lostActive <==> !ok && a.activeId == i)
      ensures ok && breakerConfig.enabled ==>
              i in breakers && breakers[i] in owned && breakers[i].View() == Breaker.Fresh(now)
      ensures forall j, t :: j != i || !ok || !breakerConfig.enabled ==> BreakerState(j, t) == old(BreakerState(j, t))
      ensures OnlyCleared(old(Views()), Views(), {i})
      ensures if ok && breakerConfig.enabled then forall at :: ViewAt(Views(), i, at) == Breaker.Fresh(now)
              else forall j, at :: ViewAt(Views(), j, at) == ViewAt(old(Views()), j, at)
    {
      hide BreakersValid, Views, Consistent;
      registry.LookUp(i);
      promote, lostActive := registry.ApplyHealth(i, ok);
      if ok {
        ResetBreaker(i, now);
      }
    }

    /** The result of a warm-up probe; what it asks for is left to the reselection that is under way. */
    method ApplyProbe(i: string, ok: bool, now: int, ghost before: map<string, Breaker.State>)
      requires Valid() && i in registry.nodeIndex && OnlyCleared(before, Views(), {i})
      modifies registry`nodeTable, registry`accountTable, this`breakers, this`owned, owned
      ensures Valid() && fresh(owned - old(owned)) && OnlyCleared(before, Views(), {i})
      ensures var p, r := registry.nodeIndex[i], registry.nodeAccount[i];
              && p in old(registry.nodeTable) && r in old(registry.accountTable)
              && registry.nodeTable == old(registry.nodeTable)[p := Checked(old(registry.nodeTable)[p], ok)]
              && registry.accountTable == Follow(old(registry.accountTable), r, i, !ok)
      ensures (ok && breakerConfig.enabled) || Cleared(old(Views()), i) ==> Cleared(Views(), i)
    {
      hide BreakersValid, Views, BreakerState, Consistent, OnlyCleared, Checked, Follow, IsFresh;
      ghost var v := Views();
      var _, _ := ApplyCheck(i, ok, now);
      ClearedTransitive(before, v, Views(), {i}, {i}, {i});
      if ok && breakerConfig.enabled {
        NewIsCleared(Views(), i, now);
      } else {
        ClearedStays(v, Views(), {i});
      }
    }

    /** The same as a change of its own. */
    method ApplyAndEnter(i: string, ok: bool, now: int) returns (promote: bool, lostActive: bool)
      requires Valid() && i in registry.nodeIndex
      modifies registry`nodeTable, registry`accountTable, this`breakers, this`owned, this`journal, owned
      ensures Valid() && fresh(owned - old(owned)) && (old(Recorded()) ==> Recorded())
      ensures Adds(old(journal), journal, [HealthChecked(i, ok)])
      ensures i in registry.nodeAccount
      ensures var p, r := registry.nodeIndex[i], registry.nodeAccount[i];
              && p in old(registry.nodeTable) && r in old(registry.accountTable)
              && registry.nodeTable == old(registry.nodeTable)[p := Checked(old(registry.nodeTable)[p], ok)]
              && registry.accountTable == Follow(old(registry.accountTable), r, i, !ok)
              && var n, a := old(registry.nodeTable)[p], old(registry.accountTable)[r];
                 && Complete(a, old(registry.nodeTable))
                 && (promote <==> ok && Promotes(n, a, old(registry.nodeTable)))
                 && (lostActive <==> !ok && a.activeId == i)
      ensures OnlyCleared(old(Views()), Views(), {i})
      ensures if ok && breakerConfig.enabled then forall at :: ViewAt(Views(), i, at) == Breaker.Fresh(now)
              else forall j, at :: ViewAt(Views(), j, at) == ViewAt(old(Views()), j, at)
    {
      hide BreakersValid, Views, BreakerState, Consistent, IsJournal, OnlyCleared, Promotes;
      ghost var s := Here();
      registry.LookUp(i);
      promote, lostActive := ApplyCheck(i, ok, now);
      Enter(HealthChecked(i, ok), s);
    }

    /** Applies, one after the other as they arrive, the results of the first `k` probes of node `i` that arrive later
        than `from` and by `to`, counted from the start of its warm-up. Its record was `n` then. */
    method LandResults(i: string, probes: nat -> Probe, k: nat, start: int, from: int, to: int, ghost n: Node)
      requires Valid() && i in registry.nodeIndex && registry.nodeIndex[i] in registry.nodeTable && from <= to
      requires registry.nodeTable[registry.nodeIndex[i]] == AfterProbes(warmup, n, probes, k, from)
      modifies registry`nodeTable, registry`accountTable, this`breakers, this`owned, owned
      ensures Valid() && fresh(owned - old(owned))
      ensures i in registry.nodeAccount && registry.nodeAccount[i] in old(registry.accountTable)
      ensures var m := AfterProbes(warmup, n, probes, k, to);
              && registry.nodeTable == old(registry.nodeTable)[registry.nodeIndex[i] := m]
              && registry.accountTable == Follow(old(registry.accountTable), registry.nodeAccount[i], i, m.failed)
      ensures OnlyCleared(old(Views()), Views(), {i})
    {
      hide BreakersValid, Views, BreakerState, Consistent, Landed, Arrival, Applied, Before, Next, Follow, OnlyCleared,
        Checked, Latest, AnyOk, Cleared;
      registry.LookUp(i);
      ghost var p, r := registry.nodeIndex[i], registry.nodeAccount[i];
      ghost var t, h := registry.accountTable, registry.nodeTable;
      FollowMeans(t, r, i, h[p].failed);
      NothingCleared(Views(), {i});
      ghost var open := set l: nat | l < k && !Landed(warmup, probes, l, from, k);
      var time, last := from, k as int;
      var next := Next(warmup, probes, k, time, last, to);
      while next.Some?
        invariant Valid() && fresh(owned - old(owned))
        invariant from <= time <= to && next == Next(warmup, probes, k, time, last, to)
        invariant registry.nodeTable == h[p := Applied(warmup, n, probes, k, time, last)]
        invariant registry.accountTable == Follow(t, r, i, Applied(warmup, n, probes, k, time, last).failed)
        invariant forall l: nat :: l in open <==> l < k && !Landed(warmup, probes, l, time, last)
        invariant OnlyCleared(old(Views()), Views(), {i})
        decreases |open|
      {
        var j := next.value;
        NextLands(warmup, n, probes, k, time, last, to, j);
        FollowTwice(t, r, i, Applied(warmup, n, probes, k, time, last).failed, !probes(j).ok);
        open := open - {j};
        time, last := Arrival(warmup, probes, j), j;
        ApplyProbe(i, probes(j).ok, start + time, old(Views()));
        next := Next(warmup, probes, k, time, last, to);
      }
      NothingMore(warmup, n, probes, k, time, last, to);
    }

    /** One warm-up probe. One that does not answer in time is given up, but its result is applied when it arrives. */
    method ProbeOnce(i: string, probes: nat -> Probe, k: nat, start: int, now: int, ghost n: Node)
      returns (success: bool, end: int)
      requires Valid() && i in registry.nodeIndex && registry.nodeIndex[i] in registry.nodeTable
      requires now == start + Spent(warmup, probes, k)
      requires registry.nodeTable[registry.nodeIndex[i]] == AfterProbes(warmup, n, probes, k, now - start)
      modifies registry`nodeTable, registry`accountTable, this`breakers, this`owned, owned
      ensures Valid() && fresh(owned - old(owned))
      ensures success <==> InTime(warmup, probes(k)) && probes(k).ok
      ensures end == start + Spent(warmup, probes, k + 1)
      ensures i in registry.nodeAccount && registry.nodeAccount[i] in old(registry.accountTable)
      ensures var m := AfterProbes(warmup, n, probes, k + 1, end - start);
              && registry.nodeTable == old(registry.nodeTable)[registry.nodeIndex[i] := m]
              && registry.accountTable == Follow(old(registry.accountTable), registry.nodeAccount[i], i, m.failed)
      ensures OnlyCleared(old(Views()), Views(), {i})
      ensures (success && breakerConfig.enabled) || Cleared(old(Views()), i) ==> Cleared(Views(), i)
    {
      hide BreakersValid, Views, BreakerState, Consistent, AfterProbes, Successes, Spent, Budget, InTime, ProbeTimeout,
        Follow, OnlyCleared, Cleared;
      WaitedFor(warmup, n, probes, k);
      end := now + if InTime(warmup, probes(k)) then probes(k).took else ProbeTimeout(warmup);
      LandResults(i, probes, k, start, now - start, end - start, n);
      ClearedStays(old(Views()), Views(), {i});
      success := false;
      if InTime(warmup, probes(k)) {
        FollowTwice(old(registry.accountTable), registry.nodeAccount[i], i,
                    registry.nodeTable[registry.nodeIndex[i]].failed, !probes(k).ok);
        ApplyProbe(i, probes(k).ok, end, old(Views()));
        success := !registry.nodeTable[registry.nodeIndex[i]].failed;
      }
    }

    /** Probes a node up to the configured number of times and counts the successes. */
    method WarmupNode(i: string, probes: (string, nat) -> Probe, now: int) returns (successCount: nat, end: int)
      requires Valid() && i in registry.nodeIndex && i in registry.nodeAccount
      modifies registry`nodeTable, registry`accountTable, this`breakers, this`owned, owned
      ensures Valid() && fresh(owned - old(owned))
      ensures successCount == Successes(warmup, Of(probes, i), Tries(warmup))
      ensures IsWarmed(warmup, old(registry.View()), registry.View(), registry.nodeAccount[i], i, probes,
                Spent(warmup, Of(probes, i), Tries(warmup)))
      ensures end == now + Spent(warmup, Of(probes, i), Tries(warmup))
      ensures OnlyCleared(old(Views()), Views(), {i})
      ensures successCount > 0 && breakerConfig.enabled ==> Cleared(Views(), i)
    {
      hide BreakersValid, Views, BreakerState, Consistent, AfterProbes, Successes, Spent, Budget, InTime, ProbeTimeout,
        Follow, OnlyCleared, Cleared;
      registry.LookUp(i);
      ghost var p, r := registry.nodeIndex[i], registry.nodeAccount[i];
      ghost var t, h := registry.accountTable, registry.nodeTable;
      var mine := Of(probes, i);
      var attempts := Tries(warmup);
      successCount, end := 0, now;
      WaitedFor(warmup, h[p], mine, 0);
      FollowMeans(t, r, i, h[p].failed);
      NothingCleared(Views(), {i});
      for k := 0 to attempts
        invariant Valid() && fresh(owned - old(owned))
        invariant successCount == Successes(warmup, mine, k) && end == now + Spent(warmup, mine, k)
        invariant registry.nodeTable == h[p := AfterProbes(warmup, h[p], mine, k, end - now)]
        invariant registry.accountTable == Follow(t, r, i, AfterProbes(warmup, h[p], mine, k, end - now).failed)
        invariant OnlyCleared(old(Views()), Views(), {i})
        invariant successCount > 0 && breakerConfig.enabled ==> Cleared(Views(), i)
      {
        WaitedFor(warmup, h[p], mine, k);
        ghost var failed := registry.nodeTable[p].failed;
        var success;
        ghost var v := Views();
        success, end := ProbeOnce(i, mine, k, now, end, h[p]);
        ClearedTransitive(old(Views()), v, Views(), {i}, {i}, {i});
        FollowTwice(t, r, i, failed, registry.nodeTable[p].failed);
        if success {
          successCount := successCount + 1;
        }
      }
    }

    /** Node `i` failed its warm-up, which started at `start` and took `time`, and the selection went on without it
        until `end`: the results of its probes that arrived meanwhile are applied. */
    method LandLate(
      r: Ref, skip: set<string>, i: string, probes: (string, nat) -> Probe, ghost best: Option<string>,
      ghost more: seq<string>, start: int, time: nat, end: int, ghost t: Tables, ghost u: Tables,
      ghost before: map<string, Breaker.State>, ghost after: map<string, Breaker.State>)
      requires Valid() && warmup.enabled && time == Spent(warmup, Of(probes, i), Tries(warmup))
      requires IsWarmed(warmup, t, u, r, i, probes, time) && OwnRecords(t.accounts[r], t.nodes)
      requires Eligible(t.accounts[r], t.nodes, i) && i !in skip && !Passes(warmup, Of(probes, i))
      requires Activation(warmup, u, registry.View(), r, skip + {i}, probes, best, more)
      requires end == start + time + TimeSpent(warmup, probes, more)
      requires i in registry.nodeIndex && registry.nodeIndex[i] == t.accounts[r].nodes[i]
      requires i in registry.nodeAccount && registry.nodeAccount[i] == r
      requires OnlyCleared(before, after, {i}) && OnlyCleared(after, Views(), Elements(more))
      modifies registry`nodeTable, registry`accountTable, this`breakers, this`owned, owned
      ensures Valid() && fresh(owned - old(owned))
      ensures Activation(warmup, t, registry.View(), r, skip, probes, best, [i] + more)
      ensures OnlyCleared(before, Views(), Elements([i] + more))
      ensures forall j :: Cleared(old(Views()), j) ==> Cleared(Views(), j)
    {
      hide BreakersValid, Views, BreakerState, Consistent, Activation, IsWarmed, OnlyCleared, AfterProbes, Eligible,
        Follow, Elements, TimeSpent, Spent, OwnRecords, Passes, Cleared;
      ghost var v, views := registry.View(), Views();
      RecordKept(warmup, t, u, v, r, skip + {i}, probes, best, more, i, time);
      ghost var p := t.accounts[r].nodes[i];
      LandResults(i, Of(probes, i), Tries(warmup), start, time, end - start, t.nodes[p]);
      ClearedWithRest(before, after, views, Views(), i, more);
      ClearedStays(views, Views(), {i});
      LateActivation(warmup, t, u, v, registry.View(), r, skip, probes, i, best, more, time);
    }

    /** Activates the best eligible node outside `skip` that passes its warm-up. */
    method SelectBestAndActivateExcluding(r: Ref, skip: set<string>, probes: (string, nat) -> Probe, now: int)
      returns (best: Option<string>, warmed: seq<string>, end: int)
      requires Valid() && Registered(registry.accountById, registry.accountTable, r)
      modifies registry`nodeTable, registry`accountTable, this`breakers, this`owned, owned
      decreases registry.accountTable[r].nodes.Keys - skip
      ensures Valid() && fresh(owned - old(owned))
      ensures Activation(warmup, old(registry.View()),
                         registry.View(), r, skip, probes, best, warmed)
      ensures best.Some? ==>
                var a, h := old(registry.accountTable)[r], old(registry.nodeTable);
                && best.value in a.nodes && a.nodes[best.value] in h
                && forall i :: i in a.nodes && i !in skip && i !in a.failedSet && a.nodes[i] in h
                               && !h[a.nodes[i]].failed && !h[a.nodes[i]].disabled && Passes(warmup, Of(probes, i)) ==>
                                 var b, n := h[a.nodes[best.value]], h[a.nodes[i]];
                                 b.weight < n.weight || (b.weight == n.weight && b.createdAt <= n.createdAt)
      ensures end == now + TimeSpent(warmup, probes, warmed)
      ensures OnlyCleared(old(Views()), Views(), Elements(warmed))
      ensures best.Some? && warmup.enabled && warmup.requiredSuccess >= 1 && breakerConfig.enabled ==>
                Cleared(Views(), best.value)
    {
      hide BreakersValid, Views, BreakerState, Consistent, Activation, IsWarmed, OnlyCleared, AfterProbes, Better,
        Eligible, Budget, Successes, Follow, IsLate, Selected, Drift, Elements, Registered, TimeSpent, Spent,
        WarmupTime, IsNodeOf, Cleared;
      RegisteredFacts(registry.accountById, registry.accountTable, r);
      registry.LookUpAccount(r);
      ghost var t := registry.View();
      best := SelectBestNodeExcluding(registry.accountTable[r], registry.nodeTable, skip);
      warmed, end := [], now;
      TimeAdds(warmup, probes, "", []);
      NothingCleared(Views(), Elements(warmed));
      if best.None? {
        NothingToActivate(warmup, t, r, skip, probes);
        return;
      }
      var i := best.value;
      if warmup.enabled {
        var successCount;
        successCount, end := WarmupNode(i, probes, now);
        warmed := [i];
        TimeAdds(warmup, probes, i, []);
        ghost var u := registry.View();
        var time := end - now;
        ghost var vs := Views();
        ClearedAlone(old(Views()), vs, i);
        WarmedShape(warmup, t, u, r, i, probes, time);
        if successCount < warmup.requiredSuccess {
          var more;
          best, more, end := SelectBestAndActivateExcluding(r, skip + {i}, probes, end);
          warmed := warmed + more;
          TimeAdds(warmup, probes, i, more);
          LandLate(r, skip, i, probes, best, more, now, time, end, t, u, old(Views()), vs);
          ChosenAmongPassing(warmup, t, registry.View(), r, skip, probes, best, warmed);
          return;
        }
        ActivatedWarm(warmup, t, u, r, skip, probes, i);
      } else {
        ActivatedCold(warmup, t, r, skip, probes, i);
      }
      registry.SetActive(r, i);
      ChosenAmongPassing(warmup, t, registry.View(), r, skip, probes, best, warmed);
    }

    /** Reselects among all nodes of the account. */
    method SelectBestAndActivate(r: Ref, probes: (string, nat) -> Probe, now: int)
      returns (best: Option<string>, warmed: seq<string>, end: int)
      requires Valid() && Registered(registry.accountById, registry.accountTable, r)
      modifies registry`nodeTable, registry`accountTable, this`breakers, this`owned, this`journal, owned
      ensures Valid() && fresh(owned - old(owned))
      ensures Activation(warmup, old(registry.View()),
                         registry.View(), r, {}, probes, best, warmed)
      ensures end == now + TimeSpent(warmup, probes, warmed)
      ensures OnlyCleared(old(Views()), Views(), Elements(warmed))
      ensures best.Some? && warmup.enabled && warmup.requiredSuccess >= 1 && breakerConfig.enabled ==>
                Cleared(Views(), best.value)
      ensures (old(Recorded()) ==> Recorded()) && Adds(old(journal), journal, [Reselection(r, probes, best, warmed)])
    {
      hide BreakersValid, Views, BreakerState, Consistent, Activation, IsJournal, OnlyCleared;
      RegisteredFacts(registry.accountById, registry.accountTable, r);
      ghost var s := Here();
      best, warmed, end := SelectBestAndActivateExcluding(r, {}, probes, now);
      Enter(Reselection(r, probes, best, warmed), s);
    }

    // ---------- node operations, with the reselection that follows them outside the lock ----------

    /** With warm-up off, every account's active node is unset or the cheapest choice. */
    ghost predicate AllSettled()
      reads registry
    {
      !warmup.enabled ==> Settled(registry.accountById, registry.View())
    }

    /** The second half of an operation: reselect if it asks for it. */
    method ReselectIf(needed: bool, r: Ref, probes: (string, nat) -> Probe, now: int)
      returns (best: Option<string>, warmed: seq<string>)
      requires Valid() && Registered(registry.accountById, registry.accountTable, r)
      modifies registry`nodeTable, registry`accountTable, this`breakers, this`owned, this`journal, owned
      ensures Valid() && fresh(owned - old(owned))
      ensures Reselected(warmup, needed, old(registry.View()), registry.View(), r, probes, best, warmed)
      ensures OnlyCleared(old(Views()), Views(), Elements(warmed))
      ensures old(Recorded()) ==> Recorded()
      ensures Adds(old(journal), journal, ReselectionIf(needed, r, probes, best, warmed))
    {
      hide Recorded, BreakersValid, Views, BreakerState, Consistent, Activation, OnlyCleared, IsJournal;
      best, warmed := None, [];
      NothingCleared(Views(), Elements(warmed));
      if needed {
        var end;
        best, warmed, end := SelectBestAndActivate(r, probes, now);
      }
    }

    /** The operation took the tables from `t` to `u` under the lock and then reselected if needed. */
    lemma StaysSettled(
      maps: Maps, t: Tables, u: Tables, r: Ref, needed: bool,
      probes: (string, nat) -> Probe, best: Option<string>, warmed: seq<string>)
      requires maps.Agree(t) && Registered(maps.byId, t.accounts, r) && registry.accountById == maps.byId
      requires Settled(maps.byId, t) ==> Staged(t, u, r, needed)
      requires Reselected(warmup, needed, u, registry.View(), r, probes, best, warmed)
      ensures (!warmup.enabled ==> Settled(maps.byId, t)) ==> AllSettled()
    {
      hide Consistent, Staged, Reselected, Settled;
      if !warmup.enabled && Settled(maps.byId, t) {
        SettledThrough(maps, warmup, t, u, registry.View(), r, needed, probes, best, warmed);
      }
    }

    /** The part of AddNode under the lock. */
    method EnterNode(accountId: string, url: string, parses: bool, weight: int, freshId: string, now: int)
      returns (result: Outcome, reselect: bool)
      requires Valid() && freshId !in registry.nodeIndex && freshId != ""
      modifies registry`nodeIndex, registry`nodeAccount, registry`accountTable, registry`nodeTable, this`journal
      ensures Valid() && (old(Recorded()) ==> Recorded())
      ensures result == if accountId !in registry.accountById then AccountRequired
                        else if url == "" || !parses then BadUrl else Done
      ensures result != Done ==> registry.View() == old(registry.View()) && journal == old(journal)
      ensures result == Done ==>
                var t, u, r := old(registry.View()), registry.View(), registry.accountById[accountId];
                && Registered(registry.accountById, t.accounts, r) && Registered(registry.accountById, u.accounts, r)
                && freshId in registry.nodeIndex && registry.nodeIndex[freshId] !in t.nodes
                && var a, p := t.accounts[r], registry.nodeIndex[freshId];
                   var n := Node(freshId, now, accountId, if weight <= 0 then 1 else weight, false, false, 0, 0, 0);
                && u == Tables(t.accounts[r := a.(nodes := a.nodes[freshId := p])], t.nodes[p := n])
                && Complete(u.accounts[r], u.nodes) && (reselect <==> Displaces(n, u.accounts[r], u.nodes))
                && (a.activeId in a.nodes ==>
                      var cur := u.nodes[u.accounts[r].nodes[a.activeId]];
                      !cur.failed && !cur.disabled && n.weight >= cur.weight ==> !reselect)
                && Adds(old(journal), journal, [NodeAdded(r, freshId, n)])
                && (Settled(registry.accountById, t) ==> Staged(t, u, r, reselect))
    {
      hide BreakersValid, Consistent, Staged, Settled, IsJournal, Adds, Displaces, Leads;
      ghost var s, maps, t := Here(), registry.AllMaps(), registry.View();
      if accountId in registry.accountById {
        AccountFacts(maps.byId, maps.byKey, maps.index, maps.owner, t.accounts, t.nodes, accountId);
      }
      result, reselect := registry.AddNode(accountId, url, parses, weight, freshId, now);
      if result == Done {
        ghost var r, p := registry.accountById[accountId], registry.nodeIndex[freshId];
        ghost var n := registry.nodeTable[p];
        AccountChanged(warmup, s, NodeAdded(r, freshId, n), Here());
        Enter(NodeAdded(r, freshId, n), s);
        if Settled(maps.byId, t) {
          SettledAdd(maps, t, r, freshId, p, n);
        }
      }
    }

    /** `u` holds the tables when the lock was released. */
    method AddNode(accountId: string, url: string, parses: bool, weight: int, freshId: string,
                   probes: (string, nat) -> Probe, now: int)
      returns (result: Outcome, best: Option<string>, warmed: seq<string>, ghost u: Tables)
      requires Valid() && freshId !in registry.nodeIndex && freshId != ""
      modifies registry`nodeIndex, registry`nodeAccount, registry`accountTable, registry`nodeTable
      modifies this`breakers, this`owned, this`journal, owned
      ensures Valid() && fresh(owned - old(owned)) && (old(AllSettled()) ==> AllSettled())
      ensures old(Recorded()) ==> Recorded()
      ensures OnlyCleared(old(Views()), Views(), Elements(warmed))
      ensures result == if accountId !in registry.accountById then AccountRequired
                        else if url == "" || !parses then BadUrl else Done
      ensures result != Done ==> registry.View() == old(registry.View())
      ensures result != Done ==> journal == old(journal)
      ensures result == Done ==>
                var r := registry.accountById[accountId];
                var a := old(registry.accountTable)[r];
                && freshId in registry.nodeIndex && registry.nodeIndex[freshId] !in old(registry.nodeTable)
                && u.accounts ==
                   old(registry.accountTable)[r := a.(nodes := a.nodes[freshId := registry.nodeIndex[freshId]])]
                && var n := Node(freshId, now, accountId, if weight <= 0 then 1 else weight, false, false, 0, 0, 0);
                && u.nodes == old(registry.nodeTable)[registry.nodeIndex[freshId] := n]
                && Complete(u.accounts[r], u.nodes)
                && Reselected(warmup, Displaces(n, u.accounts[r], u.nodes), u, registry.View(), r, probes, best, warmed)
                && Adds(old(journal), journal, [NodeAdded(r, freshId, n)]
                        + ReselectionIf(Displaces(n, u.accounts[r], u.nodes), r, probes, best, warmed))
                && (a.activeId in a.nodes ==>
                      var cur := u.nodes[u.accounts[r].nodes[a.activeId]];
                      !cur.failed && !cur.disabled && n.weight >= cur.weight ==>
                        registry.View() == u && best.None? && warmed == [])
    {
      hide BreakersValid, Views, BreakerState, Consistent, Activation, Reselected, Staged, Settled, OnlyCleared,
        IsJournal, Adds, Displaces, ViewAt, Cleared, IsFresh, Elements, Recorded;
      ghost var j, maps, t := journal, registry.AllMaps(), registry.View();
      var reselect;
      result, reselect := EnterNode(accountId, url, parses, weight, freshId, now);
      u, best, warmed := registry.View(), None, [];
      NothingCleared(Views(), Elements(warmed));
      if result == Done {
        var r := registry.accountById[accountId];
        ghost var k, n := journal, u.nodes[registry.nodeIndex[freshId]];
        best, warmed := ReselectIf(reselect, r, probes, now);
        if !reselect {
          NotReselected(warmup, u, registry.View(), r, probes, best, warmed);
        }
        AddsMore(j, k, journal, [NodeAdded(r, freshId, n)], ReselectionIf(reselect, r, probes, best, warmed));
        StaysSettled(maps, t, u, r, reselect, probes, best, warmed);
      }
    }

    /** A weight of zero or less counts as one; a changed weight triggers a reselection. */
    method UpdateNode(i: string, url: string, parses: bool, weight: int, probes: (string, nat) -> Probe, now: int)
      returns (result: Outcome, best: Option<string>, warmed: seq<string>, ghost u: Tables)
      requires Valid()
      modifies registry`accountTable, registry`nodeTable, this`breakers, this`owned, this`journal, owned
      ensures Valid() && fresh(owned - old(owned)) && (old(AllSettled()) ==> AllSettled())
      ensures old(Recorded()) ==> Recorded()
      ensures OnlyCleared(old(Views()), Views(), Elements(warmed))
      ensures result == if url == "" || !parses then BadUrl else if i !in registry.nodeIndex then NotFound else Done
      ensures result != Done ==> registry.View() == old(registry.View())
      ensures result == Done ==>
                var p, r := registry.nodeIndex[i], registry.nodeAccount[i];
                && p in old(registry.nodeTable)
                && var n := old(registry.nodeTable)[p];
                   var m := n.(weight := if weight <= 0 then 1 else weight);
                   && u == old(registry.View()).WithNode(p, m)
                   && Reselected(warmup, m.weight != n.weight, u, registry.View(), r, probes, best, warmed)
                   && Adds(old(journal), journal, [NodeWeighed(i, m.weight)]
                           + ReselectionIf(m.weight != n.weight, r, probes, best, warmed))
      ensures result != Done ==> journal == old(journal)
    {
      hide BreakersValid, Views, BreakerState, Consistent, Activation, Reselected, Staged, Settled, OnlyCleared,
        IsJournal, Adds, Leads;
      ghost var s, j := Here(), journal;
      ghost var maps, t := registry.AllMaps(), registry.View();
      registry.LookUp(i);
      var reselect;
      result, reselect := registry.UpdateNode(i, url, parses, weight);
      u, best, warmed := registry.View(), None, [];
      NothingCleared(Views(), Elements(warmed));
      if result == Done {
        var r := registry.nodeAccount[i];
        ghost var e := NodeWeighed(i, if weight <= 0 then 1 else weight);
        NodeRewritten(warmup, s, Here(), e, i, u.nodes[maps.index[i]]);
        Enter(e, s);
        ghost var k := journal;
        best, warmed := ReselectIf(reselect, r, probes, now);
        AddsMore(j, k, journal, [e], ReselectionIf(reselect, r, probes, best, warmed));
        if Settled(maps.byId, t) {
          SettledRewrite(maps, t, i, u.nodes[maps.index[i]]);
        }
        StaysSettled(maps, t, u, r, reselect, probes, best, warmed);
      }
    }

    /** Disabling the active node triggers a reselection. */
    method DisableNode(i: string, probes: (string, nat) -> Probe, now: int)
      returns (result: Outcome, best: Option<string>, warmed: seq<string>, ghost u: Tables)
      requires Valid()
      modifies registry`accountTable, registry`nodeTable, this`breakers, this`owned, this`journal, owned
      ensures Valid() && fresh(owned - old(owned)) && (old(AllSettled()) ==> AllSettled())
      ensures old(Recorded()) ==> Recorded()
      ensures OnlyCleared(old(Views()), Views(), Elements(warmed))
      ensures result == if i in registry.nodeIndex then Done else NotFound
      ensures result == NotFound ==> registry.View() == old(registry.View())
      ensures result == Done ==>
                var p, r := registry.nodeIndex[i], registry.nodeAccount[i];
                && p in old(registry.nodeTable) && r in old(registry.accountTable)
                && u == old(registry.View()).WithNode(p, old(registry.nodeTable)[p].(disabled := true))
                && Reselected(warmup, old(registry.accountTable)[r].activeId == i, u, registry.View(), r, probes, best,
                  warmed)
                && Adds(old(journal), journal, [NodeDisabled(i)]
                        + ReselectionIf(old(registry.accountTable)[r].activeId == i, r, probes, best, warmed))
      ensures result == NotFound ==> journal == old(journal)
    {
      hide BreakersValid, Views, BreakerState, Consistent, Activation, Reselected, Staged, Settled, OnlyCleared,
        IsJournal, Adds, Leads;
      ghost var s, j := Here(), journal;
      ghost var maps, t := registry.AllMaps(), registry.View();
      registry.LookUp(i);
      var wasActive;
      result, wasActive := registry.DisableNode(i);
      u, best, warmed := registry.View(), None, [];
      NothingCleared(Views(), Elements(warmed));
      if result == Done {
        var r := registry.nodeAccount[i];
        NodeRewritten(warmup, s, Here(), NodeDisabled(i), i, u.nodes[maps.index[i]]);
        Enter(NodeDisabled(i), s);
        ghost var k := journal;
        best, warmed := ReselectIf(wasActive, r, probes, now);
        AddsMore(j, k, journal, [NodeDisabled(i)], ReselectionIf(wasActive, r, probes, best, warmed));
        if Settled(maps.byId, t) {
          SettledRewrite(maps, t, i, u.nodes[maps.index[i]]);
        }
        StaysSettled(maps, t, u, r, wasActive, probes, best, warmed);
      }
    }

    /** The active node of an account, after a reselection if it cannot be used. */
    method GetActiveNode(r: Ref, probes: (string, nat) -> Probe, now: int)
      returns (cur: Option<string>, best: Option<string>, warmed: seq<string>)
      requires Valid() && Registered(registry.accountById, registry.accountTable, r)
      modifies registry`accountTable, registry`nodeTable, this`breakers, this`owned, this`journal, owned
      ensures Valid() && fresh(owned - old(owned))
      ensures old(Recorded()) ==> Recorded()
      ensures OnlyCleared(old(Views()), Views(), Elements(warmed))
      ensures Complete(old(registry.accountTable)[r], old(registry.nodeTable))
      ensures var a, h := old(registry.accountTable)[r], old(registry.nodeTable);
              && Reselected(warmup, !HasUsableNode(a, h), old(registry.View()), registry.View(), r, probes, best,
                warmed)
              && cur == InUse(a, h, best)
              && cur == (if a.activeId in a.nodes && !h[a.nodes[a.activeId]].failed && !h[a.nodes[a.activeId]].disabled
                         then Some(a.activeId) else best)
              && Adds(old(journal), journal, ReselectionIf(!HasUsableNode(a, h), r, probes, best, warmed))
    {
      hide Recorded, BreakersValid, Views, BreakerState, Consistent, Activation, OnlyCleared, IsJournal;
      registry.LookUpAccount(r);
      if HasUsableNode(registry.accountTable[r], registry.nodeTable) {
        NothingCleared(Views(), Elements([]));
        return Some(registry.accountTable[r].activeId), None, [];
      }
      best, warmed := ReselectIf(true, r, probes, now);
      cur := best;
    }

    /** Makes node `i` the active one if it is to replace the one in use, which has just been asked for. */
    method TakeOver(r: Ref, i: string, cur: Option<string>)
      requires Valid() && Registered(registry.accountById, registry.accountTable, r)
               && i in registry.accountTable[r].nodes
      requires Complete(registry.accountTable[r], registry.nodeTable)
      modifies registry`accountTable, this`journal
      ensures Valid()
      ensures var t := old(registry.View());
              var takes := TakesOver(t.nodes[t.accounts[r].nodes[i]], cur, t.accounts[r], t.nodes);
              && registry.View() == (if takes then t.WithActive(r, i) else t)
              && (takes <==>
                    cur.None? || cur.value !in t.accounts[r].nodes
                    || var n, m := t.nodes[t.accounts[r].nodes[i]], t.nodes[t.accounts[r].nodes[cur.value]];
                       m.failed || n.weight < m.weight)
              && Adds(old(journal), journal, if takes then [Takeover(r, i, cur)] else [])
      ensures old(Recorded()) && JustAsked(old(journal).Before(|old(journal).steps|), old(registry.View()), r, i,
                cur) ==>
                Recorded()
    {
      hide BreakersValid, Views, BreakerState, Consistent, IsJournal;
      ghost var s := Here();
      registry.LookUpAccount(r);
      if TakesOver(registry.nodeTable[registry.accountTable[r].nodes[i]], cur, registry.accountTable[r],
        registry.nodeTable) {
        registry.SetActive(r, i);
        Enter(Takeover(r, i, cur), s);
      }
    }

    /** Clears the node's failure and asks for the active node. `u` holds the tables in between. */
    method ClearAndAsk(i: string, probes: (string, nat) -> Probe, now: int)
      returns (cur: Option<string>, ghost u: Tables, best: Option<string>, warmed: seq<string>)
      requires Valid() && i in registry.nodeIndex
      modifies registry`accountTable, registry`nodeTable, this`breakers, this`owned, this`journal, owned
      ensures Valid() && fresh(owned - old(owned))
      ensures old(Recorded()) ==> Recorded()
      ensures OnlyCleared(old(Views()), Views(), Elements(warmed))
      ensures var p, r := registry.nodeIndex[i], registry.nodeAccount[i];
              && p in old(registry.nodeTable) && r in old(registry.accountTable)
              && u == Tables(Unlisted(old(registry.accountTable), r, i),
                             old(registry.nodeTable)[p := Enabled(old(registry.nodeTable)[p])])
              && Complete(u.accounts[r], u.nodes) && cur == InUse(u.accounts[r], u.nodes, best)
              && Reselected(warmup, !HasUsableNode(u.accounts[r], u.nodes), u, registry.View(), r, probes, best, warmed)
              && Adds(old(journal), journal, [NodeEnabled(i)]
                      + ReselectionIf(!HasUsableNode(u.accounts[r], u.nodes), r, probes, best, warmed))
              && JustAsked(journal.Before(|journal.steps|), registry.View(), r, i, cur)
    {
      hide BreakersValid, Views, BreakerState, Consistent, Reselected, OnlyCleared, IsJournal, HasUsableNode, InUse,
        Adds, JustAsked, Leads;
      ghost var s, j := Here(), journal;
      registry.LookUp(i);
      var _ := registry.EnableNode(i);
      u := registry.View();
      NodeCleared(warmup, s, Here(), i);
      Enter(NodeEnabled(i), s);
      ghost var k, r := journal, registry.nodeAccount[i];
      cur, best, warmed := GetActiveNode(registry.nodeAccount[i], probes, now);
      AddsMore(j, k, journal, [NodeEnabled(i)],
               ReselectionIf(!HasUsableNode(u.accounts[r], u.nodes), r, probes, best, warmed));
      AskedJustNow(warmup, j, journal, u, registry.View(), r, i, probes, best, warmed);
    }

    /** Clears the node's failure and makes it the active node if nothing usable or cheaper is in use. `u` holds the
        tables when the lock was released, `v` those after the active node was asked for. */
    method EnableNode(i: string, probes: (string, nat) -> Probe, now: int)
      returns (result: Outcome, ghost u: Tables, ghost v: Tables, best: Option<string>, warmed: seq<string>)
      requires Valid()
      modifies registry`accountTable, registry`nodeTable, this`breakers, this`owned, this`journal, owned
      ensures Valid() && fresh(owned - old(owned)) && (old(AllSettled()) ==> AllSettled())
      ensures old(Recorded()) ==> Recorded()
      ensures OnlyCleared(old(Views()), Views(), Elements(warmed))
      ensures result == if i in registry.nodeIndex then Done else NotFound
      ensures result == NotFound ==> registry.View() == old(registry.View())
      ensures result == Done ==>
                var p, r := registry.nodeIndex[i], registry.nodeAccount[i];
                && p in old(registry.nodeTable) && r in old(registry.accountTable)
                && u == Tables(Unlisted(old(registry.accountTable), r, i),
                               old(registry.nodeTable)[p := Enabled(old(registry.nodeTable)[p])])
                && Complete(u.accounts[r], u.nodes)
                && r in v.accounts && Complete(v.accounts[r], v.nodes) && p in v.nodes
                && Reselected(warmup, !HasUsableNode(u.accounts[r], u.nodes), u, v, r, probes, best, warmed)
                && var takes := TakesOver(v.nodes[p], InUse(u.accounts[r], u.nodes, best), v.accounts[r], v.nodes);
                   && registry.View() == (if takes then v.WithActive(r, i) else v)
                   && Adds(old(journal), journal, [NodeEnabled(i)]
                           + ReselectionIf(!HasUsableNode(u.accounts[r], u.nodes), r, probes, best, warmed)
                           + if takes then [Takeover(r, i, InUse(u.accounts[r], u.nodes, best))] else [])
      ensures result == NotFound ==> journal == old(journal)
    {
      hide Recorded, AfterProbes, BreakersValid, Views, BreakerState, Consistent, Reselected, Settled, OnlyCleared,
        IsJournal, HasUsableNode, InUse, TakesOver, Enabled, Adds, JustAsked;
      ghost var j := journal;
      ghost var maps, t := registry.AllMaps(), registry.View();
      registry.LookUp(i);
      u, v, best, warmed := t, t, None, [];
      NothingCleared(Views(), Elements(warmed));
      if i !in registry.nodeIndex {
        return NotFound, u, v, best, warmed;
      }
      var cur;
      cur, u, best, warmed := ClearAndAsk(i, probes, now);
      v := registry.View();
      registry.LookUp(i);
      registry.LookUpAccount(registry.nodeAccount[i]);
      if !warmup.enabled && Settled(maps.byId, t) {
        SettledEnable(maps, warmup, t, i, v, probes, best, warmed);
      }
      ghost var k, r := journal, registry.nodeAccount[i];
      TakeOver(registry.nodeAccount[i], i, cur);
      AddsMore(
        j, k, journal,
        [NodeEnabled(i)] + ReselectionIf(!HasUsableNode(u.accounts[r], u.nodes), r, probes, best, warmed),
        if TakesOver(v.nodes[registry.nodeIndex[i]], cur, v.accounts[r], v.nodes) then [Takeover(r, i, cur)] else []);
      result := Done;
    }

    /** A health check of node `i` by the scheduler or an operator: the result is applied, a success clears the node's
        breaker, and a recovered, newly cheaper or lost active node triggers a reselection. `u` holds the tables before
        that. */
    method CheckNode(i: string, ok: bool, probes: (string, nat) -> Probe, now: int)
      returns (ghost u: Tables, best: Option<string>, warmed: seq<string>)
      requires Valid()
      modifies registry`accountTable, registry`nodeTable, this`breakers, this`owned, this`journal, owned
      ensures Valid() && fresh(owned - old(owned)) && (old(AllSettled()) ==> AllSettled())
      ensures old(Recorded()) ==> Recorded()
      ensures OnlyCleared(old(Views()), Views(), Elements(warmed) + {i})
      ensures i in registry.nodeIndex && ok && breakerConfig.enabled ==>
                && (forall at :: IsFresh(ViewAt(Views(), i, at)))
                && (i !in warmed ==> forall at :: ViewAt(Views(), i, at) == Breaker.Fresh(now))
      ensures !ok ==> OnlyCleared(old(Views()), Views(), Elements(warmed))
      ensures i !in registry.nodeIndex ==> registry.View() == old(registry.View())
      ensures i in registry.nodeIndex ==>
                var p, r := registry.nodeIndex[i], registry.nodeAccount[i];
                && p in old(registry.nodeTable) && r in old(registry.accountTable)
                && var n, a := old(registry.nodeTable)[p], old(registry.accountTable)[r];
                   && u == Tables(Follow(old(registry.accountTable), r, i, !ok),
                     old(registry.nodeTable)[p := Checked(n, ok)])
                   && Complete(a, old(registry.nodeTable))
                   && Reselected(warmup, if ok then Promotes(n, a, old(registry.nodeTable)) else a.activeId == i, u,
                                 registry.View(), r, probes, best, warmed)
                   && Adds(old(journal), journal, [HealthChecked(i, ok)]
                           + ReselectionIf(if ok then Promotes(n, a, old(registry.nodeTable))
                             else a.activeId == i, r, probes,
                                           best, warmed))
      ensures i !in registry.nodeIndex ==> journal == old(journal)
    {
      hide Recorded, BreakersValid, Views, BreakerState, Consistent, Activation, Reselected, Staged, Settled,
        OnlyCleared, IsJournal, IsFresh, Adds;
      ghost var j := journal;
      ghost var maps, t := registry.AllMaps(), registry.View();
      u, best, warmed := t, None, [];
      NothingCleared(Views(), Elements(warmed));
      NothingCleared(Views(), Elements(warmed) + {i});
      if i in registry.nodeIndex {
        registry.LookUp(i);
        var r := registry.nodeAccount[i];
        var promote, lostActive := ApplyAndEnter(i, ok, now);
        u := registry.View();
        ghost var v, k := Views(), journal;
        best, warmed := ReselectIf(promote || lostActive, r, probes, now);
        AddsMore(j, k, journal, [HealthChecked(i, ok)], ReselectionIf(promote || lostActive, r, probes, best, warmed));
        BreakersChecked(old(Views()), v, Views(), i, ok && breakerConfig.enabled, now, warmed);
        if Settled(maps.byId, t) {
          SettledRewrite(maps, t, i, u.nodes[maps.index[i]]);
        }
        StaysSettled(maps, t, u, r, promote || lostActive, probes, best, warmed);
      }
    }

    /** The part of HandleFailure under the lock. */
    method MarkNode(i: string)
      requires Valid() && i in registry.nodeIndex && i in registry.nodeAccount
      modifies registry`nodeTable, registry`accountTable, this`journal
      ensures Valid() && (old(Recorded()) ==> Recorded()) && Adds(old(journal), journal, [MarkedFailed(i)])
      ensures var r, p := registry.nodeAccount[i], registry.nodeIndex[i];
              && r in old(registry.accountTable) && p in old(registry.nodeTable)
              && registry.accountTable == Listed(old(registry.accountTable), r, i)
              && registry.nodeTable == old(registry.nodeTable)[p := Checked(old(registry.nodeTable)[p], false)]
    {
      hide BreakersValid, Consistent, IsJournal;
      ghost var s := Here();
      registry.LookUp(i);
      registry.MarkFailed(i);
      Enter(MarkedFailed(i), s);
    }

    /** Marks a node failed and reselects the active node of its account; the caller waits for the warm-up. */
    method HandleFailure(i: string, probes: (string, nat) -> Probe, now: int)
      returns (end: int, best: Option<string>, warmed: seq<string>)
      requires Valid()
      modifies registry`nodeTable, registry`accountTable, this`breakers, this`owned, this`journal, owned
      ensures Valid() && fresh(owned - old(owned))
      ensures old(Recorded()) ==> Recorded()
      ensures i !in warmed && OnlyCleared(old(Views()), Views(), Elements(warmed))
      ensures i !in registry.nodeIndex ==>
                end == now && registry.View() == old(registry.View()) && journal == old(journal)
      ensures i in registry.nodeIndex ==>
                && i in registry.nodeAccount && registry.nodeAccount[i] in old(registry.accountTable)
                && var r, p := registry.nodeAccount[i], registry.nodeIndex[i];
                   && p in old(registry.nodeTable)
                   && Activation(warmup, Tables(Listed(old(registry.accountTable), r, i),
                                                old(registry.nodeTable)[p := Checked(old(registry.nodeTable)[p],
                                                  false)]),
                                 registry.View(), r, {}, probes, best, warmed)
                   && end == now + TimeSpent(warmup, probes, warmed)
                   && end <= now + HandlingTime(warmup, |old(registry.accountTable)[r].nodes|)
                   && Adds(old(journal), journal, [MarkedFailed(i), Reselection(r, probes, best, warmed)])
    {
      hide Recorded, BreakersValid, Views, BreakerState, Consistent, Activation, Drift, FailuresExplained, OnlyCleared,
        IsJournal, TimeSpent, WarmupTime, Eligible, Elements, Adds;
      ghost var j := journal;
      registry.LookUp(i);
      if i !in registry.nodeIndex {
        NothingCleared(Views(), Elements([]));
        return now, None, [];
      }
      ghost var t := registry.View();
      var r := registry.nodeAccount[i];
      registry.LookUpAccount(r);
      MarkNode(i);
      ghost var u, k := registry.View(), journal;
      registry.LookUp(i);
      best, warmed, end := SelectBestAndActivate(r, probes, now);
      AddsMore(j, k, journal, [MarkedFailed(i)], [Reselection(r, probes, best, warmed)]);
      assert [MarkedFailed(i)] + [Reselection(r, probes, best, warmed)] ==
             [MarkedFailed(i), Reselection(r, probes, best, warmed)];
      MarkedAndReselected(warmup, t, u, registry.View(), r, i, probes, best, warmed);
    }

    /** Counts the attempt in the node's metrics and, when it failed for another reason than the context,
        in its failure streak; answers the streak and whether it has reached the limit. */
    method CountAttempt(r: Ref, i: string, round: Round) returns (streak: nat, reached: bool)
      requires registry.Valid() && Registered(registry.accountById, registry.accountTable, r)
      requires Eligible(registry.accountTable[r], registry.nodeTable, i) && round.Sent? && round.node == i
      modifies registry`nodeTable, registry`accountTable, this`journal
      ensures registry.Valid() && registry.accountTable == old(registry.accountTable)
      ensures (old(Recorded()) ==> Recorded()) && Adds(old(journal), journal, [CountOf(round)])
      ensures var p := old(registry.accountTable)[r].nodes[i];
              registry.nodeTable == old(registry.nodeTable)[p := Counted(old(registry.nodeTable)[p], round)]
              && streak == if HasFailed(round) && !IsContextError(round) then registry.nodeTable[p].failStreak else 0
      ensures reached <==> HasFailed(round) && !IsContextError(round) && streak >= Limit(registry.failLimit)
    {
      hide Consistent, IsJournal, Leads;
      ghost var s := Here();
      registry.LookUpAccount(r);
      registry.LookUp(i);
      registry.RecordMetrics(i, round.status);
      streak, reached := 0, false;
      if HasFailed(round) && !IsContextError(round) {
        registry.LookUp(i);
        reached := registry.ShouldFail(i);
        streak := registry.nodeTable[registry.nodeIndex[i]].failStreak;
      }
      NodeRewritten(warmup, s, Here(), CountOf(round), i, registry.nodeTable[registry.nodeIndex[i]]);
      Enter(CountOf(round), s);
    }

    /** Lets the transport send the request and translates its verdict into the status written. */
    method Send(attempt: nat, now: int, expiry: int, env: Environment)
      returns (status: int, calls: nat, end: int, ghost verdict: Transport.Verdict, ghost sent: seq<Transport.Sent>)
      requires Sensible(env)
      ensures |sent| == calls <= transport.Tries() && now <= end && status == StatusOf(verdict)
      ensures Transport.Calls(now, env.body, ContextOf(env, expiry), ReplyOf(env, attempt, expiry), sent)
      ensures if transport.hasBase then Transport.Concludes(transport.Tries(), ContextOf(env, expiry), now, sent,
                verdict, end)
              else sent == [] && verdict == Transport.NoBase && end == now
      ensures RespectsContext(env) ==> end <= Transport.Later(now, expiry) + Transport.Pause(transport.Tries() - 1)
    {
      var outcome, calling, finish :=
        transport.RoundTrip(now, env.body, expiry, ContextOf(env, expiry), ReplyOf(env, attempt, expiry));
      if RespectsContext(env) {
        TransportEnds(env, attempt, now, expiry, transport.Tries(), calling, outcome, finish);
      }
      return StatusOf(outcome), |calling|, finish, outcome, calling;
    }

    /** Counts the attempt and, when the failure streak has reached its limit on the last allowed attempt,
        marks the node failed. */
    method Settle(r: Ref, round: Round, isLastAttempt: bool, probes: (string, nat) -> Probe, now: int)
      returns (settled: Round, end: int)
      requires Valid() && Registered(registry.accountById, registry.accountTable, r) && round.Sent?
               && round.finished == now
      requires Eligible(registry.accountTable[r], registry.nodeTable, round.node)
      modifies registry`nodeTable, registry`accountTable, this`breakers, this`owned, this`journal, owned
      ensures Valid() && fresh(owned - old(owned))
      ensures old(Recorded()) ==> Recorded()
      ensures settled.Sent?
      ensures settled == round.(streak := settled.streak, marked := settled.marked, warmed := settled.warmed,
                ended := end)
      ensures RoundEffect(warmup, old(registry.View()), registry.View(), r, settled, probes)
      ensures settled.marked <==>
              HasFailed(round) && !IsContextError(round) && isLastAttempt && settled.streak >= Limit(registry.failLimit)
      ensures var p := old(registry.accountTable)[r].nodes[round.node];
              settled.streak == if HasFailed(round) && !IsContextError(round)
                                then Counted(old(registry.nodeTable)[p], round).failStreak else 0
      ensures now <= end <= now + HandlingTime(warmup, |old(registry.accountTable)[r].nodes|)
      ensures (!settled.marked ==> end == now && settled.warmed == []) && round.node !in settled.warmed
      ensures OnlyCleared(old(Views()), Views(), Elements(settled.warmed))
      ensures RoundAdds(old(journal), journal, r, settled, probes)
    {
      hide ViewAt, Recorded, BreakersValid, Views, BreakerState, Consistent, Activation, Counted, RoundEffect,
        OnlyCleared, IsJournal, TimeSpent, Elements, Adds, RoundAdds;
      ghost var j := journal;
      ghost var t := registry.View();
      RegisteredFacts(registry.accountById, registry.accountTable, r);
      registry.LookUpAccount(r);
      var streak, reached := CountAttempt(r, round.node, round);
      ghost var k := journal;
      var marked := reached && isLastAttempt;
      end := now;
      var best, warmed := None, [];
      NothingCleared(Views(), Elements(warmed));
      TimeAdds(warmup, probes, "", []);
      if marked {
        registry.LookUpAccount(r);
        end, best, warmed := HandleFailure(round.node, probes, now);
      }
      settled := round.(streak := streak, marked := marked, warmed := warmed, ended := end);
      CountedAlike(round, settled);
      AddsOfRound(j, k, journal, r, settled, probes, best);
      EffectOfAttempt(warmup, t, registry.View(), r, settled, probes, best);
    }

    /** Sends the request to node `i` and classifies the answer. */
    method Exchange(i: string, weight: int, attempt: nat, firstFailed: bool, now: int, expiry: int, env: Environment)
      returns (round: Round)
      requires Sensible(env)
      ensures round.Sent? && round.node == i && round.weight == weight && round.attempt == attempt
      ensures round.at == now <= round.finished && round.expiry == expiry
      ensures Exchanged(env, transport.hasBase, transport.Tries(), round) && Classified(retry, round, firstFailed)
      ensures RespectsContext(env) ==>
                round.finished <= Transport.Later(now, expiry) + Transport.Pause(transport.Tries() - 1)
    {
      hide Sensible, RespectsContext, Exchanged, Transport.Calls, Transport.Concludes, StatusOf, ContextOf, ReplyOf;
      var status, calls, finish;
      ghost var verdict, sent;
      status, calls, finish, verdict, sent := Send(attempt, now, expiry, env);
      var header := env.header(attempt);
      round := Sent(i, weight, attempt, now, expiry, calls, status, if header != 0 then header else status, finish,
                    false, 0, 0, 0, false, [], finish);
      var isLastAttempt := attempt >= retry.maxAttempts;
      var isFinal := !HasFailed(round) || !IsRetried(retry, round) || isLastAttempt;
      round := round.(
        isFinal := isFinal,
        attemptsTotal := if isFinal then attempt else 0,
        retrySuccess := if isFinal && !HasFailed(round) && firstFailed then 1 else 0);
      ExchangedBy(env, transport.hasBase, transport.Tries(), round, verdict, sent);
    }

    /** One attempt on node `i`: send, classify, report to the breaker, count, and on the last allowed
        attempt perhaps mark the node failed. `before` holds the rounds before it. */
    method Attempt(r: Ref, i: string, ghost before: seq<Round>, attempt: nat, firstFailed: bool,
                   now: int, expiry: int, env: Environment)
      returns (round: Round, end: int)
      requires Valid() && Registered(registry.accountById, registry.accountTable, r) && Sensible(env)
      requires Eligible(registry.accountTable[r], registry.nodeTable, i)
      requires attempt == SentCount(before) + 1 && (firstFailed <==> FirstFailed(before))
      modifies registry`nodeTable, registry`accountTable, this`breakers, this`owned, this`reported, this`journal, owned
      ensures Valid() && fresh(owned - old(owned))
      ensures old(Recorded()) ==> Recorded()
      ensures round.Sent? && round.node == i && round.weight ==
              old(registry.nodeTable)[old(registry.accountTable)[r].nodes[i]].weight
      ensures round.attempt == attempt && round.at == now && round.expiry == expiry && round.ended == end
      ensures Exchanged(env, transport.hasBase, transport.Tries(), round)
              && Booked(retry, registry.failLimit, before, round)
      ensures RoundEffect(warmup, old(registry.View()), registry.View(), r, round, ProbesOf(env, attempt))
      ensures reported == if breakerConfig.enabled && !IsContextError(round) then Bump(old(reported), i)
              else old(reported)
      ensures AttemptHeard(Limits(), old(Views()), Views(), round)
      ensures RoundAdds(old(journal), journal, r, round, ProbesOf(env, attempt))
      ensures now <= end
      ensures RespectsContext(env) ==>
                && round.finished <= Transport.Later(now, expiry) + Transport.Pause(transport.Tries() - 1)
                && end <= Transport.Later(now, expiry) + Transport.Pause(transport.Tries() - 1)
                          + HandlingTime(warmup, |old(registry.accountTable)[r].nodes|)
    {
      hide Recorded, BreakersValid, Views, BreakerState, Consistent, FirstFailed, SentCount, Sensible, RespectsContext,
        Booked, Registered, Exchanged, Classified, Limits, RoundEffect, Counted, HasFailed, Heard, AttemptHeard,
        OnlyCleared, IsJournal, RoundAdds;
      RegisteredFacts(registry.accountById, registry.accountTable, r);
      registry.LookUpAccount(r);
      var weight := registry.nodeTable[registry.accountTable[r].nodes[i]].weight;
      round := Exchange(i, weight, attempt, firstFailed, now, expiry, env);
      if !IsContextError(round) {
        TellBreaker(i, !HasFailed(round), round.finished);
      }
      ghost var exchanged, told := round, Views();
      CountedGrows(registry.nodeTable[registry.accountTable[r].nodes[i]], round);
      round, end := Settle(r, round, attempt >= retry.maxAttempts, ProbesOf(env, attempt), round.finished);
      AttemptBooked(retry, registry.failLimit, before, exchanged, round, firstFailed, env, transport.hasBase,
        transport.Tries());
      ReportHeard(Limits(), old(Views()), told, Views(), round);
    }

    /** The settings of a request are this server's. */
    ghost predicate Fits(s: Setting)
      reads registry, transport
    {
      && s.retry == retry && s.failLimit == registry.failLimit && s.warmup == warmup && s.limits == Limits()
      && s.hasBase == transport.hasBase && s.tries == transport.Tries()
    }

    /** The setting of a request of account `r` that comes now. */
    ghost function SettingOf(r: Ref, start: int, env: Environment): (s: Setting)
      reads this`breakers, this`owned, this`granted, this`reported, owned, registry, transport
      ensures Fits(s)
    {
      Setting(retry, registry.failLimit, warmup, Limits(), transport.hasBase, transport.Tries(), env, start, r, Now())
    }

    /** What happens to the picked node: its breaker is asked, the overall deadline is checked and, if both
        allow it, one attempt is made. `log` holds the rounds before. */
    method TryNode(ghost s: Setting, r: Ref, i: string, ghost log: seq<Round>, attempts: nat, firstFailed: bool,
                   now: int, deadline: int, env: Environment)
      returns (round: Round, end: int)
      requires Valid() && Registered(registry.accountById, registry.accountTable, r) && Sensible(env)
      requires Fits(s) && s.env == env && s.account == r && s.Deadline() == deadline
      requires Eligible(registry.accountTable[r], registry.nodeTable, i)
      requires attempts == SentCount(log) && (firstFailed <==> FirstFailed(log))
      modifies registry`nodeTable, registry`accountTable
      modifies this`breakers, this`owned, this`granted, this`reported, this`journal, owned
      ensures Valid() && fresh(owned - old(owned))
      ensures old(Recorded()) ==> Recorded()
      ensures round.node == i && round.weight == old(registry.nodeTable)[old(registry.accountTable)[r].nodes[i]].weight
      ensures Tried(s, log, round, old(Now()), Now(), now, end) && (round.Sent? ==> round.attempt == attempts + 1)
      ensures RoundAdds(old(journal), journal, r, round, ProbesOf(env, attempts + 1))
      ensures round.Sent? && s.Timed() && RespectsContext(env) ==>
                && round.finished <= deadline + Transport.Pause(transport.Tries() - 1)
                && end <= deadline + Transport.Pause(transport.Tries() - 1)
                          + HandlingTime(warmup, |old(registry.accountTable)[r].nodes|)
    {
      hide Recorded, BreakersValid, Views, BreakerState, Consistent, FirstFailed, SentCount, Sensible, RespectsContext,
        Booked, Exchanged, Limits, Activation, Counted, Registered, Asked, AttemptHeard, RoundTold, Breaker.Grants,
        IsJournal, Bump, RoundAdds, Tried, RoundEffect, ViewAt, HandlingTime, ProbesOf;
      RegisteredFacts(registry.accountById, registry.accountTable, r);
      registry.LookUpAccount(r);
      ghost var m := Now();
      LimitsEnabled();
      var weight := registry.nodeTable[registry.accountTable[r].nodes[i]].weight;
      var allowed := AskBreaker(i, now);
      ghost var asked := Views();
      if !allowed {
        NoEvents(journal, r, Refused(i, weight), ProbesOf(env, attempts + 1));
        UnsentTold(s.limits, m.breakers, asked, Refused(i, weight), now);
        UnsentTried(s, log, Refused(i, weight), m, Now(), now);
        return Refused(i, weight), now;
      }
      var timeout := TimeoutOf(retry, attempts);
      if retry.totalTimeout > 0 {
        var remaining := deadline - now;
        if remaining <= 0 {
          NoEvents(journal, r, Late(i, weight), ProbesOf(env, attempts + 1));
          UnsentTold(s.limits, m.breakers, asked, Late(i, weight), now);
          UnsentTried(s, log, Late(i, weight), m, Now(), now);
          return Late(i, weight), now;
        }
        if remaining < timeout {
          timeout := remaining;
        }
      }
      round, end := Attempt(r, i, log, attempts + 1, firstFailed, now, now + timeout, env);
      AttemptTold(s.limits, m.breakers, asked, Views(), round, now);
      SentTried(s, log, round, m, Now(), now, end);
    }

    lemma LimitsEnabled()
      ensures Limits().enabled == breakerConfig.enabled
    {
    }

    /** One turn of the request loop: pick the cheapest open node and try it. */
    method ServeRound(ghost s: Setting, r: Ref, ghost log: seq<Round>, skip: set<string>, attempts: nat,
                      firstFailed: bool, now: int, deadline: int, env: Environment)
      returns (round: Option<Round>, end: int)
      requires Valid() && Registered(registry.accountById, registry.accountTable, r) && Sensible(env)
      requires Fits(s) && s.env == env && s.account == r && s.Deadline() == deadline && Jitters(env.jitter)
      requires Underway(s, log, Tally(skip, attempts, firstFailed), Now(), now)
      modifies registry`nodeTable, registry`accountTable
      modifies this`breakers, this`owned, this`granted, this`reported, this`journal, owned
      ensures Valid() && fresh(owned - old(owned)) && Registered(registry.accountById, registry.accountTable, r)
      ensures old(Recorded()) ==> Recorded()
      ensures round.None? ==> Handled(s, log, OutOfNodes, Now(), end)
      ensures round.Some? && round.value.Late? ==> Handled(s, log + [round.value], DeadlineReached, Now(), end)
      ensures round.Some? && round.value.Sent? ==> round.value.attempt == attempts + 1
      ensures round.Some? && round.value.Sent? && !IsRetried(retry, round.value) ==>
                Handled(s, log + [round.value], Answered, Now(), end)
      ensures round.Some? && Continues(retry, round.value) ==>
                Underway(s, log + [round.value], Tallied(Tally(skip, attempts, firstFailed), round.value), Now(),
                         NextAt(s, round.value, end))
      ensures attempts == SentCount(log)
      ensures if round.None? then journal == old(journal)
              else RoundAdds(old(journal), journal, r, round.value, ProbesOf(env, attempts + 1))
    {
      hide Recorded, BreakersValid, Views, BreakerState, Consistent, Drift, FirstFailed, SentCount, Sensible,
        RespectsContext, Picked, Continues, Progress, NextAt, HandlingTime, Tried, IsJournal, RoundAdds, Tracks,
        Retry.EffectiveMax, Tracked, OnTime, Underway, Handled, IsRetried, Tallied;
      ghost var m, v := Now(), Tally(skip, attempts, firstFailed);
      RegisteredFacts(registry.accountById, m.tables.accounts, r);
      RegisteredIsTracked(registry.AllMaps(), m.tables, r);
      TrackedOwns(m.tables.accounts[r], m.tables.nodes);
      UnderwayFacts(s, log, v, m, now);
      var best := SelectHealthyNodeExcluding(registry.accountTable[r], registry.nodeTable, skip);
      if best.None? {
        OutOfOpenNodes(s, log, v, m, now);
        return None, now;
      }
      var tried;
      tried, end := TryNode(s, r, best.value, log, attempts, firstFailed, now, deadline, env);
      TriedTimes(s, log, tried, m, Now(), now, end);
      TriedDrifts(s, log, tried, m, Now(), now, end);
      StillRegistered(registry.accountById, m.tables, registry.View(), r);
      ProgressGrows(s, log, tried, m, Now(), now, end);
      TracksGrows(log, v, tried);
      TurnTaken(s, log, v, tried, Now(), now, end);
      round := Some(tried);
    }

    /** Serves one `/v1/messages` request of account `r` that comes at `start`. */
    method ServeMessages(r: Ref, start: int, env: Environment) returns (log: seq<Round>, exit: Exit, end: int)
      requires Valid() && Registered(registry.accountById, registry.accountTable, r) && Sensible(env)
      modifies registry`nodeTable, registry`accountTable
      modifies this`breakers, this`owned, this`granted, this`reported, this`journal, owned
      ensures Valid() && fresh(owned - old(owned)) && Registered(registry.accountById, registry.accountTable, r)
      ensures old(Recorded()) ==> Recorded()
      ensures Handled(old(SettingOf(r, start, env)), log, exit, Now(), end)
      ensures RequestAdds(old(journal), journal, r, env, log)
    {
      hide Recorded, ViewAt, BreakersValid, Views, BreakerState, Consistent, Sensible, Registered,
        Retry.CalculateBackoff, Valid, Jitters, IsJournal, Handled, IsRetried, HasFailed, Underway, RequestAdds,
        RoundAdds, ProbesOf;
      ghost var s := SettingOf(r, start, env);
      RegisteredFacts(registry.accountById, registry.accountTable, r);
      var skip := {};
      var attempt, firstFailed := 0, false;
      var deadline := start + retry.totalTimeout;
      var maxLoops := |registry.accountTable[r].nodes| * 2;
      if maxLoops < 20 {
        maxLoops := 20;
      }
      SensibleJitters(env);
      SettingFacts(r, start, env);
      NothingServed(s);
      NothingAdded(journal, r, env);
      log, exit, end := [], LoopCap, start + env.reading;
      var loops := 0;
      while loops < maxLoops
        invariant Valid() && fresh(owned - old(owned)) && Registered(registry.accountById, registry.accountTable, r)
        invariant (old(Recorded()) ==> Recorded())
        invariant Underway(s, log, Tally(skip, attempt, firstFailed), Now(), end)
        invariant loops == |log| && RequestAdds(old(journal), journal, r, env, log)
        decreases maxLoops - loops
      {
        ghost var j := journal;
        var picked;
        picked, end := ServeRound(s, r, log, skip, attempt, firstFailed, end, deadline, env);
        if picked.None? {
          exit := OutOfNodes;
          return;
        }
        var round := picked.value;
        AddsOfRequest(old(journal), j, journal, r, env, log, round, attempt + 1);
        log := log + [round];
        if round.Refused? {
          skip := skip + {round.node};
          loops := loops + 1;
          continue;
        }
        if round.Late? {
          exit := DeadlineReached;
          return;
        }
        attempt := attempt + 1;
        if attempt == 1 && HasFailed(round) {
          firstFailed := true;
        }
        if !IsRetried(retry, round) {
          exit := Answered;
          return;
        }
        skip := skip + {round.node};
        JittersAt(env.jitter, attempt);
        end := end + Retry.CalculateBackoff(attempt - 1, retry, env.jitter(attempt));
        loops := loops + 1;
      }
      UnderwayFacts(s, log, Tally(skip, attempt, firstFailed), Now(), end);
      assert false;
    }

    lemma JittersAt(jitter: nat -> real, k: nat)
      requires Jitters(jitter)
      ensures 0.0 <= jitter(k) < 1.0
    {
    }

    lemma SettingFacts(r: Ref, start: int, env: Environment)
      requires r in registry.accountTable
      ensures var s := SettingOf(r, start, env);
              && Fits(s) && s.env == env && s.account == r && s.start == start
                && s.Deadline() == start + retry.totalTimeout
              && s.from == Now() && r in s.from.tables.accounts && s.Nodes() == registry.accountTable[r].nodes
    {
    }

    /** A request that every node rejects, whichever of the statuses to be retried it rejects it with: without a total
        timeout, with warm-up off and all breakers closed it is sent to every eligible node, so that MaxAttempts caps
        the requests to the account exactly when the account has no more eligible nodes than that. */
    method ServeRejected(r: Ref, start: int, status: int) returns (log: seq<Round>)
      requires Valid() && Registered(registry.accountById, registry.accountTable, r)
      requires Retryable(retry, status) && retry.totalTimeout <= 0 && !warmup.enabled && transport.hasBase
      requires forall attempts: nat :: Span(transport.Tries(), 0) < TimeoutOf(retry, attempts)
      requires forall i, at :: i in registry.accountTable[r].nodes ==> Breaker.Grants(Limits(), BreakerState(i, at), at)
      modifies registry`nodeTable, registry`accountTable
      modifies this`breakers, this`owned, this`granted, this`reported, this`journal, owned
      ensures Valid() && fresh(owned - old(owned))
      ensures SentCount(log) == |old(Weights(registry.View(), r))|
      ensures var s := old(SettingOf(r, start, Rejection(status)));
              && Served(s, log, registry.View())
              && ((forall x, u :: Served(s, x, u) ==> SentCount(x) <= Attempts(retry)) <==>
                    |old(Weights(registry.View(), r))| <= Attempts(retry))
    {
      hide Recorded, BreakersValid, Views, Consistent, Handled, Served, Registered, Rejecting, Weights, Tracked;
      RegisteredFacts(registry.accountById, registry.accountTable, r);
      var env := Rejection(status);
      ghost var s := SettingOf(r, start, env);
      SettingFacts(r, start, env);
      RejectionRejects(s, status);
      var exit, end;
      log, exit, end := ServeMessages(r, start, env);
      RegisteredFacts(registry.accountById, registry.accountTable, r);
      RegisteredIsTracked(registry.AllMaps(), registry.View(), r);
      HandledServed(s, log, exit, Now(), end);
      RejectedAreAllTried(s, log, exit, Now(), end, 0);
      MaxAttemptsCapsIff(s, log, exit, Now(), end, 0);
    }

    /** A request whose nodes all refuse the connection, with no total timeout and all breakers closed: it goes on to
        every eligible node if 503 is to be retried, and otherwise ends with the first. */
    method ServeUnreachable(r: Ref, start: int) returns (log: seq<Round>)
      requires Valid() && Registered(registry.accountById, registry.accountTable, r)
      requires retry.totalTimeout <= 0 && !warmup.enabled && transport.hasBase
      requires forall attempts: nat :: Span(transport.Tries(), 0) < TimeoutOf(retry, attempts)
      requires forall i, at :: i in registry.accountTable[r].nodes ==> Breaker.Grants(Limits(), BreakerState(i, at), at)
      modifies registry`nodeTable, registry`accountTable
      modifies this`breakers, this`owned, this`granted, this`reported, this`journal, owned
      ensures Valid() && fresh(owned - old(owned))
      ensures var w := old(Weights(registry.View(), r));
              |log| == if 503 in retry.retryOnStatus then |w| else if w == map[] then 0 else 1
      ensures forall k :: 0 <= k < |log| ==> log[k].Sent? && log[k].status == 503
    {
      hide Recorded, BreakersValid, Views, Consistent, Handled, Served, Registered, Unreachable, Weights, Tracked;
      RegisteredFacts(registry.accountById, registry.accountTable, r);
      var env := Refusal();
      ghost var s := SettingOf(r, start, env);
      SettingFacts(r, start, env);
      RefusalIsUnreachable(s);
      var exit, end;
      log, exit, end := ServeMessages(r, start, env);
      RegisteredFacts(registry.accountById, registry.accountTable, r);
      RegisteredIsTracked(registry.AllMaps(), registry.View(), r);
      HandledServed(s, log, exit, Now(), end);
      UnreachableSends(s, log, exit, Now(), end, 0);
    }

    /** The request of `ServeRejected` with a total timeout, the default warm-up and nodes that answer no probe and are
        one failure away from the limit: it keeps its time, the longest pause and back-off added, exactly when the
        account has fewer eligible nodes than attempts are allowed, or only one; otherwise it lasts 34 seconds and
        more. */
    method ServeHeldUp(r: Ref, start: int, status: int) returns (log: seq<Round>, end: int)
      requires Valid() && Registered(registry.accountById, registry.accountTable, r)
      requires Retryable(retry, status) && (status != GATEWAY_TIMEOUT || registry.failLimit <= 1)
      requires transport.hasBase && warmup == NormalizeWarmup(true, 2, 17_000, 1) && retry.totalTimeout > 0
      requires forall attempts: nat :: Span(transport.Tries(), 0) < TimeoutOf(retry, attempts)
      requires var s := SettingOf(r, start, Unanswered(status));
               && r in s.from.tables.accounts && HasTime(s, 0, Attempts(retry))
                 && s.PlainEnd() < start + 34 * Retry.SECOND
               && BreakersClosed(s)
               && forall i :: i in Weights(s.from.tables, r) ==>
                                s.from.tables.nodes[s.Nodes()[i]].failStreak + 1 >= Limit(registry.failLimit)
      modifies registry`nodeTable, registry`accountTable
      modifies this`breakers, this`owned, this`granted, this`reported, this`journal, owned
      ensures Valid() && fresh(owned - old(owned))
      ensures var n, s := old(|Weights(registry.View(), r)|), old(SettingOf(r, start, Unanswered(status)));
              && (end <= Transport.Later(start, s.PlainEnd()) <==> n < retry.maxAttempts || n <= 1)
              && (n >= retry.maxAttempts && n >= 2 ==> end >= start + 34 * Retry.SECOND)
    {
      hide Recorded, BreakersValid, Views, Consistent, Handled, Served, Registered, Rejecting, Weights, Tracked, Span,
        HasTime, BreakersClosed, OnTheBrink;
      RegisteredFacts(registry.accountById, registry.accountTable, r);
      var env := Unanswered(status);
      ghost var s := SettingOf(r, start, env);
      SettingFacts(r, start, env);
      RejectionRejects(s, status);
      UnansweredIsOnTheBrink(s, status);
      var exit;
      log, exit, end := ServeMessages(r, start, env);
      RegisteredFacts(registry.accountById, registry.accountTable, r);
      RegisteredIsTracked(registry.AllMaps(), registry.View(), r);
      HandledServed(s, log, exit, Now(), end);
      EndsOnTimeIff(s, log, exit, Now(), end, 0);
      if |Weights(s.from.tables, r)| >= retry.maxAttempts && |Weights(s.from.tables, r)| >= 2 {
        OutlastsItsTimeout(s, log, exit, Now(), end, 0);
      }
    }

    // ---------- any run of operations ----------

    /** Serving a request keeps every account settled and fails no node of a small account. */
    method Serve(r: Ref, start: int, env: Environment) returns (log: seq<Round>)
      requires Valid() && Registered(registry.accountById, registry.accountTable, r) && Sensible(env)
      modifies registry`nodeTable, registry`accountTable
      modifies this`breakers, this`owned, this`granted, this`reported, this`journal, owned
      ensures Valid() && fresh(owned - old(owned)) && (old(AllSettled()) ==> AllSettled())
      ensures old(Recorded()) ==> Recorded()
      ensures IsSomeLog(retry, log) && LedgersFollow(breakerConfig.enabled, old(Now()), log, Now())
      ensures Spared(retry.maxAttempts, registry.accountById, old(registry.View()), registry.View())
      ensures RequestAdds(old(journal), journal, r, env, log)
    {
      hide Recorded, BreakersValid, Views, BreakerState, Consistent, Settled, Handled, Served, Sensible, Spared,
        LedgersFollow, IsSomeLog, IsJournal, Registered, RequestAdds;
      ghost var s, maps := SettingOf(r, start, env), registry.AllMaps();
      RegisteredFacts(registry.accountById, registry.accountTable, r);
      SettingFacts(r, start, env);
      LimitsEnabled();
      var exit, end;
      log, exit, end := ServeMessages(r, start, env);
      HandledServed(s, log, exit, Now(), end);
      ServedDrifts(s, log, registry.View());
      RequestSpares(maps, s, log, registry.View());
      if !warmup.enabled && Settled(registry.accountById, s.from.tables) {
        ServedSettles(maps, s, log, registry.View());
      }
    }

    method DeleteNode(i: string) returns (result: Outcome)
      requires Valid()
      modifies registry`nodeIndex, registry`nodeAccount, registry`accountTable, this`journal
      ensures Valid() && (old(AllSettled()) ==> AllSettled()) && (old(Recorded()) ==> Recorded())
      ensures result == if i in old(registry.nodeIndex) then Done else NotFound
      ensures Adds(old(journal), journal, if result == Done then [NodeDeleted(i)] else [])
    {
      hide BreakersValid, Consistent, Settled, IsJournal;
      ghost var s := Here();
      ghost var maps, t := registry.AllMaps(), registry.View();
      registry.LookUp(i);
      if i in registry.nodeIndex && Settled(maps.byId, t) {
        SettledDelete(maps, t, i);
      }
      result := registry.DeleteNode(i);
      if result == Done {
        Enter(NodeDeleted(i), s);
      }
    }

    /** One account operation: every account there is afterwards was there before, but for its name and key, or is new
        and empty. */
    method ChangeAccount(op: Operation)
      requires Valid() && (op.CreateAccount? || op.UpdateAccount? || op.DeleteAccount?)
      modifies registry, this`journal
      ensures Valid() && (old(Recorded()) ==> Recorded()) && Caused(op, old(journal), journal)
      ensures registry.nodeTable == old(registry.nodeTable)
      ensures forall r :: Registered(registry.accountById, registry.accountTable, r) ==>
                            || (Registered(old(registry.accountById), old(registry.accountTable), r)
                                && var a := registry.accountTable[r];
                                   a == old(registry.accountTable)[r].(name := a.name, proxyKey := a.proxyKey))
                            || (registry.accountTable[r].activeId == "" && registry.accountTable[r].nodes == map[])
    {
      hide BreakersValid, Consistent, IsJournal, Adds, Causes, Caused, Leads;
      ghost var j := journal;
      NothingCaused(op, j);
      ghost var s, maps, t := Here(), registry.AllMaps(), registry.View();
      match op {
        case CreateAccount(name, key, freshId) =>
          if freshId !in registry.accountById {
            var result := registry.CreateAccount(name, key, freshId);
            if result == Done {
              ghost var r := registry.accountById[freshId];
              AccountChanged(warmup, s, AccountCreated(r, registry.accountTable[r]), Here());
              Enter(AccountCreated(r, registry.accountTable[r]), s);
              SingleCaused(op, j, journal, AccountCreated(r, registry.accountTable[r]), true);
            }
          }
        case UpdateAccount(id, name, key) =>
          if id in maps.byId {
            AccountFacts(maps.byId, maps.byKey, maps.index, maps.owner, t.accounts, t.nodes, id);
          }
          var result := registry.UpdateAccount(id, name, key);
          if result != NotFound {
            ghost var a := registry.accountTable[maps.byId[id]];
            AccountChanged(warmup, s, AccountUpdated(maps.byId[id], a.name, a.proxyKey), Here());
            Enter(AccountUpdated(maps.byId[id], a.name, a.proxyKey), s);
            SingleCaused(op, j, journal, AccountUpdated(maps.byId[id], a.name, a.proxyKey), true);
          }
        case DeleteAccount(id) =>
          if id in maps.byId {
            AccountFacts(maps.byId, maps.byKey, maps.index, maps.owner, t.accounts, t.nodes, id);
          }
          var result := registry.DeleteAccount(id);
          if result == Done {
            AccountChanged(warmup, s, AccountDeleted(id), Here());
            Enter(AccountDeleted(id), s);
            SingleCaused(op, j, journal, AccountDeleted(id), true);
          }
      }
    }

    /** One account operation unsettles no account. */
    method ManageAccount(op: Operation)
      requires Valid() && (op.CreateAccount? || op.UpdateAccount? || op.DeleteAccount?)
      modifies registry, this`journal
      ensures Valid() && (old(AllSettled()) ==> AllSettled()) && (old(Recorded()) ==> Recorded())
      ensures Caused(op, old(journal), journal)
    {
      hide Recorded, BreakersValid, Consistent, Settled, IsJournal, Caused;
      ghost var byId, t := registry.accountById, registry.View();
      ChangeAccount(op);
      if Settled(byId, t) {
        SettledAccounts(byId, t, registry.accountById, registry.accountTable);
      }
    }

    /** An operator makes node `i` the active one. */
    method ActivateByHand(i: string) returns (result: Outcome)
      requires Valid()
      modifies registry`accountTable, this`journal
      ensures Valid() && (old(Recorded()) ==> Recorded())
      ensures result == if i in registry.nodeIndex then Done else NotFound
      ensures Adds(old(journal), journal, if result == Done then [ByHand(registry.nodeAccount[i], i)] else [])
      ensures result == Done ==> registry.View() == old(registry.View()).WithActive(registry.nodeAccount[i], i)
      ensures result == NotFound ==> registry.View() == old(registry.View())
    {
      hide BreakersValid, Consistent, IsJournal;
      ghost var s := Here();
      registry.LookUp(i);
      result := registry.Activate(i);
      if result == Done {
        Enter(ByHand(registry.nodeAccount[i], i), s);
      }
    }

    /** A health check from outside. */
    method CheckOne(op: Operation, now: int)
      requires Valid() && op.Check?
      modifies registry`accountTable, registry`nodeTable, this`breakers, this`owned, this`journal, owned
      ensures Valid() && fresh(owned - old(owned)) && (old(Recorded()) ==> Recorded())
      ensures (old(AllSettled()) ==> AllSettled()) && Caused(op, old(journal), journal)
    {
      hide Recorded, BreakersValid, Views, BreakerState, Consistent, Settled, Activation, Reselected, IsJournal,
        OnlyCleared, Adds, Caused, Causes;
      ghost var j := journal;
      NothingCaused(op, j);
      var u, best, warmed := CheckNode(op.node, op.ok, op.probes, now);
      if op.node in registry.nodeIndex {
        registry.LookUp(op.node);
        OperationCaused(op, j, journal, HealthChecked(op.node, op.ok), registry.nodeAccount[op.node], op.probes, best,
          warmed);
      }
    }

    /** One operation on a node. */
    method ManageNode(op: Operation, now: int)
      requires Valid()
      requires op.AddNode? || op.UpdateNode? || op.DeleteNode? || op.DisableNode? || op.EnableNode? || op.Activate?
      modifies registry`nodeIndex, registry`nodeAccount, registry`accountTable, registry`nodeTable
      modifies this`breakers, this`owned, this`journal, owned
      ensures Valid() && fresh(owned - old(owned)) && (old(Recorded()) ==> Recorded())
      ensures !op.Activate? && old(AllSettled()) ==> AllSettled()
      ensures Caused(op, old(journal), journal)
    {
      hide Recorded, BreakersValid, Views, BreakerState, Consistent, Settled, Activation, Reselected, IsJournal,
        OnlyCleared, Adds, Caused, Causes;
      ghost var j := journal;
      NothingCaused(op, j);
      match op {
        case AddNode(accountId, url, parses, weight, freshId, probes) =>
          if freshId !in registry.nodeIndex && freshId != "" {
            var result, best, warmed, u := AddNode(accountId, url, parses, weight, freshId, probes, now);
            if result == Done {
              ghost var q := registry.accountById[accountId];
              ghost var n := u.nodes[registry.nodeIndex[freshId]];
              OperationCaused(op, j, journal, NodeAdded(q, freshId, n), q, probes, best, warmed);
            }
          }
        case UpdateNode(i, url, parses, weight, probes) =>
          var result, best, warmed, u := UpdateNode(i, url, parses, weight, probes, now);
          if result == Done {
            registry.LookUp(i);
            ghost var e := NodeWeighed(i, if weight <= 0 then 1 else weight);
            OperationCaused(op, j, journal, e, registry.nodeAccount[i], probes, best, warmed);
          }
        case DeleteNode(i) =>
          var result := DeleteNode(i);
          SingleCaused(op, j, journal, NodeDeleted(i), result == Done);
        case DisableNode(i, probes) =>
          var result, best, warmed, u := DisableNode(i, probes, now);
          if result == Done {
            registry.LookUp(i);
            OperationCaused(op, j, journal, NodeDisabled(i), registry.nodeAccount[i], probes, best, warmed);
          }
        case EnableNode(i, probes) =>
          var result, u, v, best, warmed := EnableNode(i, probes, now);
          if result == Done {
            registry.LookUp(i);
            ghost var p, q := registry.nodeIndex[i], registry.nodeAccount[i];
            EnablingCaused(op, j, journal, q, i, !HasUsableNode(u.accounts[q], u.nodes), probes, best, warmed,
                           TakesOver(v.nodes[p], InUse(u.accounts[q], u.nodes, best), v.accounts[q], v.nodes),
                           InUse(u.accounts[q], u.nodes, best));
          }
        case Activate(i) =>
          var result := ActivateByHand(i);
          registry.LookUp(i);
          SingleCaused(op, j, journal, ByHand(if result == Done then registry.nodeAccount[i] else 0, i),
            result == Done);
      }
    }

    /** One operation from outside. A fresh id comes from the clock: an operation with a used or empty one does
        not happen, nor does a request for an account that does not exist. A late probe is one whose result arrives
        when the reselection that started it is over. Answers the log of a request. */
    method Perform(op: Operation, now: int) returns (log: Option<seq<Round>>)
      requires Valid() && (op.Serve? ==> Sensible(op.env))
      modifies registry, this`breakers, this`owned, this`granted, this`reported, this`journal, owned
      ensures Valid() && fresh(owned - old(owned))
      ensures !op.Activate? && old(AllSettled()) ==> AllSettled()
      ensures (old(Recorded()) ==> Recorded()) && Caused(op, old(journal), journal)
      ensures log.Some? <==> op.Serve? && op.accountId in old(registry.accountById)
      ensures log.None? ==> granted == old(granted) && reported == old(reported)
      ensures log.Some? ==> IsSomeLog(retry, log.value) && LedgersFollow(breakerConfig.enabled, old(Now()), log.value,
                Now())
      ensures op.Serve? ==>
                registry.accountById == old(registry.accountById)
                && Spared(retry.maxAttempts, registry.accountById, old(registry.View()), registry.View())
      ensures log.Some? ==>
                RequestAdds(old(journal), journal, old(registry.accountById)[op.accountId], op.env, log.value)
    {
      hide Recorded, BreakersValid, Views, BreakerState, Consistent, Settled, Activation, Reselected, Sensible,
        IsSomeLog, LedgersFollow, IsJournal, OnlyCleared, Adds, RequestAdds, Caused, Causes;
      ghost var j := journal;
      log := None;
      NothingCaused(op, j);
      if op.CreateAccount? || op.UpdateAccount? || op.DeleteAccount? {
        ManageAccount(op);
      } else if op.Check? {
        CheckOne(op, now);
      } else if op.LateProbe? {
        if warmup.enabled {
          ProbeLate(op.node, op.ok, now);
          SingleCaused(op, j, journal, HealthChecked(op.node, op.ok), op.node in registry.nodeIndex);
        }
      } else if op.Serve? {
        if op.accountId in registry.accountById {
          AccountFacts(registry.accountById, registry.accounts, registry.nodeIndex, registry.nodeAccount,
                       registry.accountTable, registry.nodeTable, op.accountId);
          var served := Serve(registry.accountById[op.accountId], now, op.env);
          log := Some(served);
          RequestCaused(op, j, journal, registry.accountById[op.accountId], served);
        }
      } else {
        ManageNode(op, now);
      }
    }

    /** The result of a warm-up probe arrives when the reselection is over: it is applied and nothing follows. */
    method ProbeLate(i: string, ok: bool, now: int)
      requires Valid() && warmup.enabled
      modifies registry`nodeTable, registry`accountTable, this`breakers, this`owned, this`journal, owned
      ensures Valid() && fresh(owned - old(owned)) && AllSettled() && (old(Recorded()) ==> Recorded())
      ensures i !in registry.nodeIndex ==> registry.View() == old(registry.View())
      ensures i in registry.nodeIndex ==>
                var p, r := registry.nodeIndex[i], registry.nodeAccount[i];
                && p in old(registry.nodeTable) && r in old(registry.accountTable)
                && registry.View() == Tables(Follow(old(registry.accountTable), r, i, !ok),
                                             old(registry.nodeTable)[p := Checked(old(registry.nodeTable)[p], ok)])
      ensures forall r :: r in registry.accountTable ==>
                            && r in old(registry.accountTable)
                            && registry.accountTable[r].activeId == old(registry.accountTable)[r].activeId
      ensures OnlyCleared(old(Views()), Views(), {i})
      ensures Adds(old(journal), journal, if i in registry.nodeIndex then [HealthChecked(i, ok)] else [])
    {
      hide BreakersValid, Views, BreakerState, Consistent, IsJournal, OnlyCleared;
      NothingCleared(Views(), {i});
      if i in registry.nodeIndex {
        registry.LookUp(i);
        var _, _ := ApplyAndEnter(i, ok, now);
      }
    }

    /** After any sequence of operations the maps agree, every breaker is in a reachable state, every active node was
        made active by a reselection or a takeover that obeyed its rule, or by hand, and, unless somebody activated a
        node by hand or warm-up is on, every active node is the cheapest choice. A node's breaker lacks one more result
        for every request among them that ended unreported on the node, and requests alone never fail a node of an
        account with fewer nodes than MaxAttempts. */
    method Run(ops: seq<Operation>, times: seq<int>) returns (logs: seq<seq<Round>>, ghost cuts: seq<nat>)
      requires Valid() && |times| == |ops| && forall k :: 0 <= k < |ops| && ops[k].Serve? ==> Sensible(ops[k].env)
      modifies registry, this`breakers, this`owned, this`granted, this`reported, this`journal, owned
      ensures Valid() && fresh(owned - old(owned))
      ensures old(AllSettled()) && (forall k :: 0 <= k < |ops| ==> !ops[k].Activate?) ==> AllSettled()
      ensures InTurn(ops, old(journal), journal, cuts)
      ensures old(Recorded()) ==> Recorded() && AllExplained()
      ensures AreLogs(retry, logs)
      ensures breakerConfig.enabled ==>
                forall i :: Count(granted, i) - Count(reported, i) ==
                            Count(old(granted), i) - Count(old(reported), i) + UnreportedRequests(logs, i)
      ensures (forall k :: 0 <= k < |ops| ==> ops[k].Serve?) ==>
                Spared(retry.maxAttempts, old(registry.accountById), old(registry.View()), registry.View())
    {
      hide Recorded, AllExplained, RequestAdds, Spared, BreakersValid, Views, BreakerState, Consistent, Settled,
        Sensible, AllSettled, IsSomeLog, LedgersFollow, LedgersAfterAll, Count, UnreportedRequests, IsJournal, Caused,
        InTurn;
      ghost var byId, m := registry.accountById, Now();
      logs := [];
      NoRequests(breakerConfig.enabled, m);
      SparedSoFar(retry.maxAttempts, byId, m.tables);
      cuts := [|journal.steps|];
      NoTurns(journal);
      for k := 0 to |ops|
        invariant Valid() && fresh(owned - old(owned))
        invariant old(AllSettled()) && (forall j :: 0 <= j < |ops| ==> !ops[j].Activate?) ==> AllSettled()
        invariant InTurn(ops[..k], old(journal), journal, cuts) && (old(Recorded()) ==> Recorded())
        invariant AreLogs(retry, logs) && LedgersAfterAll(breakerConfig.enabled, m, logs, Now())
        invariant (forall j :: 0 <= j < |ops| ==> ops[j].Serve?) ==>
                    registry.accountById == byId && Spared(retry.maxAttempts, byId, m.tables, registry.View())
      {
        ghost var n, j := Now(), journal;
        var log := Perform(ops[k], times[k]);
        OneMoreTurn(ops[..k], ops[k], old(journal), j, journal, cuts);
        cuts := cuts + [|journal.steps|];
        assert ops[..k] + [ops[k]] == ops[..k + 1];
        if log.Some? {
          OneMoreRequest(breakerConfig.enabled, m, logs, log.value, n, Now());
          logs := logs + [log.value];
        } else {
          NoRequest(breakerConfig.enabled, m, logs, n, Now());
        }
        if forall j :: 0 <= j < |ops| ==> ops[j].Serve? {
          SparedTransitive(retry.maxAttempts, byId, m.tables, n.tables, registry.View());
        }
      }
      assert ops[..|ops|] == ops;
      if Recorded() {
        Explained();
      }
      if breakerConfig.enabled {
        forall i
          ensures Count(granted, i) - Count(reported, i) ==
                  Count(m.granted, i) - Count(m.reported, i) + UnreportedRequests(logs, i)
        {
          Outstanding(retry, m, logs, Now(), i);
        }
      }
    }
  }
}
