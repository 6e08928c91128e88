/** Warm-up before activation: which node of an account a reselection activates, and what it leaves behind. */
module Warmup {
  import opened Common
  import opened Nodes
  import opened Probes
  import Retry

  // ---------- what a request may do to the registry ----------

  ghost predicate SameNode(n: Node, m: Node) {
    m == n.(failed := m.failed, failStreak := m.failStreak, requests := m.requests, failCount := m.failCount)
  }

  ghost predicate IsNodeOf(a: Account, n: Node, p: Ref) {
    n.id in a.nodes && a.nodes[n.id] == p
  }

  /** From tables `t` to `u` only counters and failure states of nodes of account `r`, its FailedSet
      and its active node changed, and no node of `r` became eligible. */
  ghost predicate Drift(t: Tables, u: Tables, r: Ref) {
    && t.accounts.Keys == u.accounts.Keys && t.nodes.Keys == u.nodes.Keys && r in t.accounts
    && (forall p :: p in t.nodes ==>
          SameNode(t.nodes[p], u.nodes[p]) && (u.nodes[p] == t.nodes[p] || IsNodeOf(t.accounts[r], t.nodes[p], p)))
    && (forall q :: q in t.accounts && q != r ==> u.accounts[q] == t.accounts[q])
    && u.accounts[r] == t.accounts[r].(failedSet := u.accounts[r].failedSet, activeId := u.accounts[r].activeId)
    && (forall i :: Eligible(u.accounts[r], u.nodes, i) ==> Eligible(t.accounts[r], t.nodes, i))
  }

  lemma DriftTransitive(
    t: Tables, u: Tables, v: Tables, r: Ref)
    requires Drift(t, u, r) && Drift(u, v, r)
    ensures Drift(t, v, r)
  {
    forall p | p in t.nodes
      ensures SameNode(t.nodes[p], v.nodes[p])
    {
      assert SameNode(t.nodes[p], u.nodes[p]) && SameNode(u.nodes[p], v.nodes[p]);
    }
  }

  /** FailedSet bookkeeping for one node. */
  function Follow(t: AccountTable, r: Ref, i: string, failed: bool): AccountTable
    requires r in t
  {
    if failed then Listed(t, r, i) else Unlisted(t, r, i)
  }

  lemma FollowMeans(t: AccountTable, r: Ref, i: string, failed: bool)
    requires r in t
    ensures Follow(t, r, i, failed) == if failed then Listed(t, r, i) else Unlisted(t, r, i)
    ensures r in Follow(t, r, i, failed)
  {
  }

  lemma FollowTwice(t: AccountTable, r: Ref, i: string, first: bool, last: bool)
    requires r in t
    ensures Follow(Follow(t, r, i, first), r, i, last) == Follow(t, r, i, last)
  {
    var a := t[r];
    assert (a.failedSet + {i}) + {i} == a.failedSet + {i} && (a.failedSet - {i}) + {i} == a.failedSet + {i};
    assert (a.failedSet + {i}) - {i} == a.failedSet - {i} && (a.failedSet - {i}) - {i} == a.failedSet - {i};
  }

  /** Rewriting the failure state of one eligible node is a drift. */
  lemma NodeDrift(t: Tables, r: Ref, i: string, m: Node)
    requires r in t.accounts && i in t.accounts[r].nodes && t.accounts[r].nodes[i] in t.nodes
             && SameNode(t.nodes[t.accounts[r].nodes[i]], m)
    requires t.nodes[t.accounts[r].nodes[i]].id == i && (Eligible(t.accounts[r], t.nodes, i) || m.failed)
    requires var a := t.accounts[r];
             forall j, k :: j in a.nodes && k in a.nodes && a.nodes[j] == a.nodes[k] ==> j == k
    ensures Drift(t, Tables(Follow(t.accounts, r, i, m.failed), t.nodes[t.accounts[r].nodes[i] := m]), r)
  {
  }

  // ---------- activation ----------

  /** The activation rule: the chosen node passes its warm-up and every better eligible node fails its
      own; nothing is chosen exactly when no eligible node passes. */
  ghost predicate Selected(
    c: WarmupConfig, a: Account, h: NodeTable, skip: set<string>, probes: (string, nat) -> Probe, best: Option<string>)
  {
    match best
    case None => forall i :: Eligible(a, h, i) && i !in skip ==> !Passes(c, Of(probes, i))
    case Some(b) =>
      && Eligible(a, h, b) && b !in skip && Passes(c, Of(probes, b))
      && forall i :: Eligible(a, h, i) && i !in skip && Better(h[a.nodes[i]], h[a.nodes[b]]) ==>
        !Passes(c, Of(probes, i))
  }

  /** Every eligible node was warmed unless it is no better than the chosen one. */
  ghost predicate NoBetterLeftOut(
    a: Account, h: NodeTable, skip: set<string>, best: Option<string>, warmed: seq<string>)
  {
    forall i :: Eligible(a, h, i) && i !in skip && i !in warmed ==>
                  && best.Some? && Eligible(a, h, best.value)
                  && !Better(h[a.nodes[i]], h[a.nodes[best.value]])
  }

  /** The probes of one node. */
  function Of(probes: (string, nat) -> Probe, i: string): nat -> Probe {
    (k: nat) => probes(i, k)
  }

  /** The longest time warming `k` nodes can take. */
  function WarmupTime(c: WarmupConfig, k: nat): nat {
    if k == 0 then 0 else WarmupTime(c, k - 1) + Budget(c, Tries(c))
  }

  /** The time it takes to warm the nodes of `warmed` one after the other. */
  function TimeSpent(c: WarmupConfig, probes: (string, nat) -> Probe, warmed: seq<string>): (s: nat)
    ensures s <= WarmupTime(c, |warmed|)
  {
    if warmed == [] then 0
    else Spent(c, Of(probes, warmed[0]), Tries(c)) + TimeSpent(c, probes, warmed[1..])
  }

  lemma TimeAdds(c: WarmupConfig, probes: (string, nat) -> Probe, i: string, more: seq<string>)
    ensures TimeSpent(c, probes, []) == 0 && TimeSpent(c, probes, [i]) == Spent(c, Of(probes, i), Tries(c))
    ensures TimeSpent(c, probes, [i] + more) == Spent(c, Of(probes, i), Tries(c)) + TimeSpent(c, probes, more)
  {
    assert [i][1..] == [] && ([i] + more)[1..] == more;
  }

  /** The time from the start of the warm-up of node `i` to the end of the whole reselection. */
  function Elapsed(c: WarmupConfig, probes: (string, nat) -> Probe, warmed: seq<string>, i: string): nat {
    if warmed == [] then 0
    else if warmed[0] == i then TimeSpent(c, probes, warmed)
    else Elapsed(c, probes, warmed[1..], i)
  }

  lemma ElapsedAdds(c: WarmupConfig, probes: (string, nat) -> Probe, i: string, more: seq<string>)
    ensures Elapsed(c, probes, [i] + more, i) == Spent(c, Of(probes, i), Tries(c)) + TimeSpent(c, probes, more)
    ensures forall j :: j != i ==> Elapsed(c, probes, [i] + more, j) == Elapsed(c, probes, more, j)
  {
    TimeAdds(c, probes, i, more);
    assert ([i] + more)[1..] == more;
  }

  lemma {:induction false} ElapsedLast(c: WarmupConfig, probes: (string, nat) -> Probe, warmed: seq<string>)
    requires warmed != [] && Distinct(warmed)
    ensures var i := warmed[|warmed| - 1]; Elapsed(c, probes, warmed, i) == Spent(c, Of(probes, i), Tries(c))
  {
    if |warmed| == 1 {
      assert warmed == [warmed[0]] + [];
      ElapsedAdds(c, probes, warmed[0], []);
    } else {
      ElapsedLast(c, probes, warmed[1..]);
    }
  }

  /** With the default settings one node that does not answer holds the caller up for 34 seconds. */
  lemma SilentNodeCosts(probes: (string, nat) -> Probe, i: string)
    requires forall k :: probes(i, k).took > 17 * Retry.SECOND
    ensures TimeSpent(NormalizeWarmup(true, 2, 17_000, 1), probes, [i]) == 34 * Retry.SECOND
  {
    SilentProbes(Of(probes, i));
    assert [i][1..] == [];
  }

  /** After node `i` failed its warm-up, the choice among the others is the choice among all. */
  lemma SelectedWithout(
    c: WarmupConfig, t: Tables, u: Tables, r: Ref, skip: set<string>, i: string,
    probes: (string, nat) -> Probe, best: Option<string>)
    requires Drift(t, u, r) && !Passes(c, Of(probes, i))
    requires forall j :: Eligible(t.accounts[r], t.nodes, j) && j != i ==> Eligible(u.accounts[r], u.nodes, j)
    requires Selected(c, u.accounts[r], u.nodes, skip + {i}, probes, best)
    ensures Selected(c, t.accounts[r], t.nodes, skip, probes, best)
  {
    forall p | p in t.nodes
      ensures SameNode(t.nodes[p], u.nodes[p])
    {
    }
  }

  /** Warming node `i` leaves the eligibility of every other node of the account as it was. */
  lemma OthersStayEligible(t: Tables, r: Ref, i: string, m: Node)
    requires r in t.accounts && i in t.accounts[r].nodes && t.accounts[r].nodes[i] in t.nodes
    requires var a := t.accounts[r];
             forall j, k :: j in a.nodes && k in a.nodes && a.nodes[j] == a.nodes[k] ==> j == k
    ensures forall j :: j != i ==>
                          (Eligible(t.accounts[r], t.nodes, j) <==>
                            Eligible(Follow(t.accounts, r, i, m.failed)[r], t.nodes[t.accounts[r].nodes[i] := m], j))
  {
  }

  /** The whole effect of a reselection from tables `t` to `u`: the rule above, each warmed node warmed once and left as
      the results say that arrived before the reselection was over, every other node untouched, no node left out
      but such as are no better than the chosen one, the chosen node warmed last, and the account's active node replaced
      exactly when one was chosen. */
  ghost predicate Activation(
    c: WarmupConfig, t: Tables, u: Tables, r: Ref, skip: set<string>,
    probes: (string, nat) -> Probe, best: Option<string>, warmed: seq<string>)
  {
    && Drift(t, u, r)
    && Selected(c, t.accounts[r], t.nodes, skip, probes, best)
    && u.accounts[r].activeId == (if best.Some? then best.value else t.accounts[r].activeId)
    && Distinct(warmed)
    && (!c.enabled ==>
          && warmed == [] && u.nodes == t.nodes
          && u.accounts == t.accounts[r := t.accounts[r].(activeId := u.accounts[r].activeId)])
    && (best.Some? && c.enabled ==> warmed != [] && warmed[|warmed| - 1] == best.value)
    && (forall i :: i in warmed ==> i !in skip && Eligible(t.accounts[r], t.nodes, i))
    && (c.enabled ==> NoBetterLeftOut(t.accounts[r], t.nodes, skip, best, warmed))
    && (forall i :: i in t.accounts[r].nodes && t.accounts[r].nodes[i] in t.nodes ==>
          var p := t.accounts[r].nodes[i];
          u.nodes[p] == if i in warmed then AfterProbes(c, t.nodes[p], Of(probes, i), Tries(c),
            Elapsed(c, probes, warmed, i)) else t.nodes[p])
  }

  lemma ActivationParts(
    c: WarmupConfig, t: Tables, u: Tables, r: Ref, skip: set<string>,
    probes: (string, nat) -> Probe, best: Option<string>, warmed: seq<string>)
    requires Activation(c, t, u, r, skip, probes, best, warmed)
    ensures Drift(t, u, r) && r in t.accounts && Selected(c, t.accounts[r], t.nodes, skip, probes, best)
    ensures r in u.accounts && u.accounts[r].activeId == if best.Some? then best.value else t.accounts[r].activeId
  {
  }

  lemma NotWarmed(
    c: WarmupConfig, t: Tables, u: Tables, r: Ref, skip: set<string>,
    probes: (string, nat) -> Probe, best: Option<string>, warmed: seq<string>, i: string)
    requires Activation(c, t, u, r, skip, probes, best, warmed)
    requires i in skip && r in t.accounts && i in t.accounts[r].nodes && t.accounts[r].nodes[i] in t.nodes
    ensures r in u.accounts && u.accounts[r].nodes == t.accounts[r].nodes && t.accounts[r].nodes[i] in u.nodes
            && u.nodes[t.accounts[r].nodes[i]] == t.nodes[t.accounts[r].nodes[i]]
  {
    hide AfterProbes, Elapsed, Selected;
  }

  /** The chosen node passes its warm-up and is, among all eligible nodes that do, a cheapest one and the oldest of
      these. */
  lemma ChosenAmongPassing(
    c: WarmupConfig, t: Tables, u: Tables, r: Ref, skip: set<string>,
    probes: (string, nat) -> Probe, best: Option<string>, warmed: seq<string>)
    requires Activation(c, t, u, r, skip, probes, best, warmed)
    ensures r in t.accounts
    ensures best.Some? ==>
              var a, h := t.accounts[r], t.nodes;
              && best.value in a.nodes && a.nodes[best.value] in h
              && forall i :: i in a.nodes && i !in skip && i !in a.failedSet && a.nodes[i] in h
                             && !h[a.nodes[i]].failed && !h[a.nodes[i]].disabled && Passes(c, Of(probes, i)) ==>
                               var b, n := h[a.nodes[best.value]], h[a.nodes[i]];
                               b.weight < n.weight || (b.weight == n.weight && b.createdAt <= n.createdAt)
  {
    hide AfterProbes, NoBetterLeftOut, SameNode, Passes;
  }

  ghost predicate OwnRecords(a: Account, h: NodeTable) {
    forall i :: i in a.nodes ==> a.nodes[i] in h && h[a.nodes[i]].id == i
  }

  lemma NothingToActivate(
    c: WarmupConfig, t: Tables, r: Ref, skip: set<string>, probes: (string, nat) -> Probe)
    requires r in t.accounts && forall i :: Eligible(t.accounts[r], t.nodes, i) ==> i in skip
    ensures Activation(c, t, t, r, skip, probes, None, [])
  {
  }

  lemma ActivatedCold(
    c: WarmupConfig, t: Tables, r: Ref, skip: set<string>, probes: (string, nat) -> Probe, i: string)
    requires r in t.accounts && !c.enabled && Eligible(t.accounts[r], t.nodes, i) && i !in skip
    requires forall j :: Eligible(t.accounts[r], t.nodes, j) && j !in skip ==>
             var b, n := t.nodes[t.accounts[r].nodes[i]], t.nodes[t.accounts[r].nodes[j]];
             b.weight < n.weight || (b.weight == n.weight && b.createdAt <= n.createdAt)
    ensures Activation(c, t, t.WithActive(r, i), r, skip, probes, Some(i), [])
  {
  }

  /** The tables when node `i` has been warmed, `time` after its warm-up started. */
  ghost predicate IsWarmed(
    c: WarmupConfig, t: Tables, u: Tables, r: Ref, i: string,
    probes: (string, nat) -> Probe, time: nat)
  {
    && r in t.accounts && i in t.accounts[r].nodes && t.accounts[r].nodes[i] in t.nodes
    && var m := AfterProbes(c, t.nodes[t.accounts[r].nodes[i]], Of(probes, i), Tries(c), time);
    u.nodes == t.nodes[t.accounts[r].nodes[i] := m] && u.accounts == Follow(t.accounts, r, i, m.failed)
  }

  lemma WarmedShape(
    c: WarmupConfig, t: Tables, u: Tables, r: Ref, i: string,
    probes: (string, nat) -> Probe, time: nat)
    requires IsWarmed(c, t, u, r, i, probes, time)
    ensures r in u.accounts && u.accounts[r].nodes == t.accounts[r].nodes && u.accounts[r].id == t.accounts[r].id
            && u.accounts[r].activeId == t.accounts[r].activeId
    ensures forall byId :: Registered(byId, t.accounts, r) ==> Registered(byId, u.accounts, r)
  {
  }

  lemma WarmedRecord(
    c: WarmupConfig, t: Tables, u: Tables, r: Ref, i: string,
    probes: (string, nat) -> Probe, time: nat)
    requires IsWarmed(c, t, u, r, i, probes, time)
    ensures r in t.accounts && i in t.accounts[r].nodes && t.accounts[r].nodes[i] in t.nodes
            && t.accounts[r].nodes[i] in u.nodes
    ensures u.nodes[t.accounts[r].nodes[i]] == AfterProbes(c, t.nodes[t.accounts[r].nodes[i]], Of(probes, i), Tries(c),
              time)
  {
  }

  lemma WarmedDrift(
    c: WarmupConfig, t: Tables, u: Tables, r: Ref, i: string,
    probes: (string, nat) -> Probe, time: nat)
    requires IsWarmed(c, t, u, r, i, probes, time) && OwnRecords(t.accounts[r], t.nodes)
             && Eligible(t.accounts[r], t.nodes, i)
    ensures Drift(t, u, r)
    ensures forall j :: j != i ==> (Eligible(t.accounts[r], t.nodes, j) <==> Eligible(u.accounts[r], u.nodes, j))
    ensures forall j :: j in t.accounts[r].nodes ==>
                          u.nodes[t.accounts[r].nodes[j]] ==
                          if j == i then AfterProbes(c, t.nodes[t.accounts[r].nodes[i]], Of(probes, i), Tries(c), time)
                            else t.nodes[t.accounts[r].nodes[j]]
  {
    var m := AfterProbes(c, t.nodes[t.accounts[r].nodes[i]], Of(probes, i), Tries(c), time);
    ProbedRecord(c, t.nodes[t.accounts[r].nodes[i]], Of(probes, i), Tries(c), time);
    forall j, k | j in t.accounts[r].nodes && k in t.accounts[r].nodes
      && t.accounts[r].nodes[j] == t.accounts[r].nodes[k]
      ensures j == k
    {
      assert t.nodes[t.accounts[r].nodes[j]].id == j;
    }
    NodeDrift(t, r, i, m);
    OthersStayEligible(t, r, i, m);
  }

  lemma ActivatedWarm(
    c: WarmupConfig, t: Tables, u: Tables, r: Ref, skip: set<string>,
    probes: (string, nat) -> Probe, i: string)
    requires IsWarmed(c, t, u, r, i, probes, Spent(c, Of(probes, i), Tries(c))) && OwnRecords(t.accounts[r], t.nodes)
    requires Eligible(t.accounts[r], t.nodes, i) && i !in skip && Passes(c, Of(probes, i))
    requires forall j :: Eligible(t.accounts[r], t.nodes, j) && j !in skip ==>
             var b, n := t.nodes[t.accounts[r].nodes[i]], t.nodes[t.accounts[r].nodes[j]];
             b.weight < n.weight || (b.weight == n.weight && b.createdAt <= n.createdAt)
    requires c.enabled
    ensures r in u.accounts && Activation(c, t, u.WithActive(r, i), r, skip, probes, Some(i), [i])
  {
    hide AfterProbes;
    ElapsedAdds(c, probes, i, []);
    assert [i] + [] == [i];
    WarmedDrift(c, t, u, r, i, probes, Spent(c, Of(probes, i), Tries(c)));
    var v := u.accounts[r := u.accounts[r].(activeId := i)];
    forall j | Eligible(v[r], u.nodes, j)
      ensures Eligible(u.accounts[r], u.nodes, j)
    {
    }
  }

  /** From tables `v` to `w` the record of node `i` caught up with the results that arrived within `time` of the start
      of its warm-up, when its record was the one in `h`. */
  ghost predicate IsLate(
    c: WarmupConfig, h: NodeTable, v: Tables, w: Tables, r: Ref, p: Ref,
    i: string, probes: (string, nat) -> Probe, time: nat)
  {
    && r in v.accounts && p in h && p in v.nodes
    && var m := AfterProbes(c, h[p], Of(probes, i), Tries(c), time);
    w.nodes == v.nodes[p := m] && w.accounts == Follow(v.accounts, r, i, m.failed)
  }

  lemma NowLate(
    c: WarmupConfig, h: NodeTable, v: Tables, w: Tables, r: Ref, p: Ref,
    i: string, probes: (string, nat) -> Probe, time: nat)
    requires r in v.accounts && p in h && p in v.nodes
    requires var m := AfterProbes(c, h[p], Of(probes, i), Tries(c), time);
             w.nodes == v.nodes[p := m] && w.accounts == Follow(v.accounts, r, i, m.failed)
    ensures IsLate(c, h, v, w, r, p, i, probes, time)
  {
  }

  lemma EligibleFacts(a: Account, h: NodeTable, i: string)
    requires OwnRecords(a, h) && Eligible(a, h, i)
    ensures i in a.nodes && a.nodes[i] in h && h[a.nodes[i]].id == i
  {
  }

  lemma LateEligible(
    c: WarmupConfig, t: Tables, v: Tables, w: Tables, r: Ref,
    i: string, probes: (string, nat) -> Probe, time: nat)
    requires Drift(t, v, r) && OwnRecords(t.accounts[r], t.nodes) && Eligible(t.accounts[r], t.nodes, i)
    requires IsLate(c, t.nodes, v, w, r, t.accounts[r].nodes[i], i, probes, time)
    ensures forall j :: Eligible(w.accounts[r], w.nodes, j) ==> Eligible(t.accounts[r], t.nodes, j)
  {
    hide AfterProbes;
    forall j | Eligible(w.accounts[r], w.nodes, j)
      ensures Eligible(t.accounts[r], t.nodes, j)
    {
      assert t.nodes[t.accounts[r].nodes[j]].id == j;
      assert j != i ==> Eligible(v.accounts[r], v.nodes, j);
    }
  }

  lemma LateDrift(
    c: WarmupConfig, t: Tables, v: Tables, w: Tables, r: Ref,
    i: string, probes: (string, nat) -> Probe, time: nat)
    requires Drift(t, v, r) && OwnRecords(t.accounts[r], t.nodes) && Eligible(t.accounts[r], t.nodes, i)
    requires IsLate(c, t.nodes, v, w, r, t.accounts[r].nodes[i], i, probes, time)
    ensures Drift(t, w, r) && w.accounts[r].activeId == v.accounts[r].activeId
  {
    hide AfterProbes, OwnRecords, Eligible;
    EligibleFacts(t.accounts[r], t.nodes, i);
    ProbedRecord(c, t.nodes[t.accounts[r].nodes[i]], Of(probes, i), Tries(c), time);
    LateEligible(c, t, v, w, r, i, probes, time);
  }

  lemma LateRecords(
    c: WarmupConfig, t: Tables, v: Tables, w: Tables, r: Ref,
    i: string, probes: (string, nat) -> Probe, more: seq<string>, time: nat)
    requires r in t.accounts && OwnRecords(t.accounts[r], t.nodes) && i in t.accounts[r].nodes
             && IsLate(c, t.nodes, v, w, r, t.accounts[r].nodes[i], i, probes, time)
    requires time == Elapsed(c, probes, [i] + more, i)
    requires forall j :: j in t.accounts[r].nodes && t.accounts[r].nodes[j] in v.nodes && j != i ==>
                           var p := t.accounts[r].nodes[j];
                           v.nodes[p] == if j in more then AfterProbes(c, t.nodes[p], Of(probes, j), Tries(c),
                             Elapsed(c, probes, more, j)) else t.nodes[p]
    requires forall j :: j != i ==> Elapsed(c, probes, [i] + more, j) == Elapsed(c, probes, more, j)
    requires v.nodes.Keys == t.nodes.Keys
    ensures forall j :: j in t.accounts[r].nodes && t.accounts[r].nodes[j] in t.nodes ==>
                          var p := t.accounts[r].nodes[j];
                          w.nodes[p] == if j in [i] + more then AfterProbes(c, t.nodes[p], Of(probes, j), Tries(c),
                            Elapsed(c, probes, [i] + more, j))
                                  else t.nodes[p]
  {
    hide AfterProbes, Elapsed;
    forall j, k | j in t.accounts[r].nodes && k in t.accounts[r].nodes
      && t.accounts[r].nodes[j] == t.accounts[r].nodes[k]
      ensures j == k
    {
      assert t.nodes[t.accounts[r].nodes[j]].id == j;
    }
    assert forall j :: j in [i] + more <==> j == i || j in more;
  }

  lemma RefusalDrift(
    c: WarmupConfig, t: Tables, u: Tables, v: Tables,
    w: Tables, r: Ref, skip: set<string>, probes: (string, nat) -> Probe, i: string,
    best: Option<string>, more: seq<string>)
    requires IsWarmed(c, t, u, r, i, probes, Spent(c, Of(probes, i), Tries(c))) && OwnRecords(t.accounts[r], t.nodes)
    requires Eligible(t.accounts[r], t.nodes, i) && Activation(c, u, v, r, skip + {i}, probes, best, more)
    requires IsLate(c, t.nodes, v, w, r, t.accounts[r].nodes[i], i, probes,
               Spent(c, Of(probes, i), Tries(c)) + TimeSpent(c, probes, more))
    ensures Drift(t, w, r) && w.accounts[r].activeId == if best.Some? then best.value else t.accounts[r].activeId
  {
    hide IsLate, AfterProbes, Selected, IsWarmed, OwnRecords, Drift, Activation, Eligible, Spent, TimeSpent, Elapsed;
    var time := Spent(c, Of(probes, i), Tries(c));
    WarmedDrift(c, t, u, r, i, probes, time);
    WarmedShape(c, t, u, r, i, probes, time);
    ActivationParts(c, u, v, r, skip + {i}, probes, best, more);
    DriftTransitive(t, u, v, r);
    LateDrift(c, t, v, w, r, i, probes, time + TimeSpent(c, probes, more));
  }

  lemma RefusalSelection(
    c: WarmupConfig, t: Tables, u: Tables, v: Tables,
    r: Ref, skip: set<string>, probes: (string, nat) -> Probe, i: string, best: Option<string>, more: seq<string>)
    requires IsWarmed(c, t, u, r, i, probes, Spent(c, Of(probes, i), Tries(c))) && OwnRecords(t.accounts[r], t.nodes)
    requires Eligible(t.accounts[r], t.nodes, i) && !Passes(c, Of(probes, i))
    requires Activation(c, u, v, r, skip + {i}, probes, best, more)
    ensures Selected(c, t.accounts[r], t.nodes, skip, probes, best)
  {
    hide AfterProbes, IsWarmed, Selected, Drift, Eligible, Activation, OwnRecords;
    WarmedDrift(c, t, u, r, i, probes, Spent(c, Of(probes, i), Tries(c)));
    ActivationParts(c, u, v, r, skip + {i}, probes, best, more);
    SelectedWithout(c, t, u, r, skip, i, probes, best);
  }

  lemma RefusalRecords(
    c: WarmupConfig, t: Tables, u: Tables, v: Tables, r: Ref,
    skip: set<string>, probes: (string, nat) -> Probe, i: string, best: Option<string>, more: seq<string>, time: nat)
    requires Drift(t, u, r) && Activation(c, u, v, r, skip + {i}, probes, best, more)
    requires forall j :: j != i ==> (Eligible(t.accounts[r], t.nodes, j) <==> Eligible(u.accounts[r], u.nodes, j))
    requires OwnRecords(t.accounts[r], t.nodes) && i in t.accounts[r].nodes
    requires forall j :: j in t.accounts[r].nodes && j != i ==>
             u.nodes[t.accounts[r].nodes[j]] == t.nodes[t.accounts[r].nodes[j]]
    ensures Distinct([i] + more) && v.nodes.Keys == t.nodes.Keys
    ensures forall j :: j in t.accounts[r].nodes && t.accounts[r].nodes[j] in v.nodes && j != i ==>
                          var p := t.accounts[r].nodes[j];
                          v.nodes[p] == if j in more then AfterProbes(c, t.nodes[p], Of(probes, j), Tries(c),
                            Elapsed(c, probes, more, j)) else t.nodes[p]
    ensures forall j :: j in [i] + more ==> j == i || (j !in skip && Eligible(t.accounts[r], t.nodes, j))
  {
    hide AfterProbes, Elapsed;
    assert i !in more;
    assert forall j :: j in [i] + more <==> j == i || j in more;
  }

  lemma AllRecords(
    c: WarmupConfig, t: Tables, u: Tables, v: Tables,
    w: Tables, r: Ref, skip: set<string>, probes: (string, nat) -> Probe, i: string,
    best: Option<string>, more: seq<string>)
    requires IsWarmed(c, t, u, r, i, probes, Spent(c, Of(probes, i), Tries(c))) && OwnRecords(t.accounts[r], t.nodes)
    requires Eligible(t.accounts[r], t.nodes, i) && Activation(c, u, v, r, skip + {i}, probes, best, more)
    requires IsLate(c, t.nodes, v, w, r, t.accounts[r].nodes[i], i, probes,
               Spent(c, Of(probes, i), Tries(c)) + TimeSpent(c, probes, more))
    ensures Distinct([i] + more) && forall j :: j in [i] + more ==>
            j == i || (j !in skip && Eligible(t.accounts[r], t.nodes, j))
    ensures forall j :: j in t.accounts[r].nodes && t.accounts[r].nodes[j] in t.nodes ==>
                          var p := t.accounts[r].nodes[j];
                          w.nodes[p] == if j in [i] + more then AfterProbes(c, t.nodes[p], Of(probes, j), Tries(c),
                            Elapsed(c, probes, [i] + more, j))
                                  else t.nodes[p]
  {
    hide AfterProbes, IsWarmed, IsLate, Selected, Drift, Activation, Elapsed, TimeSpent, Spent, OwnRecords;
    var time := Spent(c, Of(probes, i), Tries(c));
    WarmedDrift(c, t, u, r, i, probes, time);
    ElapsedAdds(c, probes, i, more);
    RefusalRecords(c, t, u, v, r, skip, probes, i, best, more, time);
    LateRecords(c, t, v, w, r, i, probes, more, time + TimeSpent(c, probes, more));
  }

  lemma RefusalLeavesOut(
    t: Tables, u: Tables, r: Ref, skip: set<string>, i: string, best: Option<string>, more: seq<string>)
    requires Drift(t, u, r) && forall j :: j != i ==> (Eligible(t.accounts[r], t.nodes, j) <==>
               Eligible(u.accounts[r], u.nodes, j))
    requires NoBetterLeftOut(u.accounts[r], u.nodes, skip + {i}, best, more)
    ensures NoBetterLeftOut(t.accounts[r], t.nodes, skip, best, [i] + more)
  {
    forall j | Eligible(t.accounts[r], t.nodes, j) && j !in skip && j !in [i] + more
      ensures best.Some? && Eligible(t.accounts[r], t.nodes, best.value)
      ensures !Better(t.nodes[t.accounts[r].nodes[j]], t.nodes[t.accounts[r].nodes[best.value]])
    {
      assert ([i] + more)[0] == i && forall x :: x in more ==> x in [i] + more;
      assert SameNode(t.nodes[t.accounts[r].nodes[j]], u.nodes[t.accounts[r].nodes[j]]);
      assert Eligible(t.accounts[r], t.nodes, best.value);
      assert SameNode(t.nodes[t.accounts[r].nodes[best.value]], u.nodes[t.accounts[r].nodes[best.value]]);
    }
  }

  /** Node `i` failed its warm-up, the rest of the selection went on without it, and the results of its probes that
      arrived meanwhile have been applied. */
  lemma ActivatedAfterRefusal(
    c: WarmupConfig, t: Tables, u: Tables, v: Tables,
    w: Tables, r: Ref, skip: set<string>, probes: (string, nat) -> Probe, i: string,
    best: Option<string>, more: seq<string>)
    requires IsWarmed(c, t, u, r, i, probes, Spent(c, Of(probes, i), Tries(c))) && OwnRecords(t.accounts[r], t.nodes)
    requires Eligible(t.accounts[r], t.nodes, i) && i !in skip && c.enabled && !Passes(c, Of(probes, i))
    requires Activation(c, u, v, r, skip + {i}, probes, best, more)
    requires IsLate(c, t.nodes, v, w, r, t.accounts[r].nodes[i], i, probes,
               Spent(c, Of(probes, i), Tries(c)) + TimeSpent(c, probes, more))
    ensures Activation(c, t, w, r, skip, probes, best, [i] + more)
  {
    hide AfterProbes, Selected, Drift, IsWarmed, IsLate, Elapsed, TimeSpent, Spent, Passes, Eligible, OwnRecords,
      NoBetterLeftOut;
    WarmedDrift(c, t, u, r, i, probes, Spent(c, Of(probes, i), Tries(c)));
    RefusalLeavesOut(t, u, r, skip, i, best, more);
    RefusalDrift(c, t, u, v, w, r, skip, probes, i, best, more);
    RefusalSelection(c, t, u, v, r, skip, probes, i, best, more);
    AllRecords(c, t, u, v, w, r, skip, probes, i, best, more);
    assert best.Some? ==> ([i] + more)[|more|] == best.value;
  }

  /** While other nodes were warmed, the record of the refused node stayed as its warm-up had left it. */
  lemma RecordKept(
    c: WarmupConfig, t: Tables, u: Tables, v: Tables, r: Ref, skip: set<string>, probes: (string, nat) -> Probe,
    best: Option<string>, warmed: seq<string>, i: string, time: nat)
    requires IsWarmed(c, t, u, r, i, probes, time) && Activation(c, u, v, r, skip, probes, best, warmed) && i in skip
    ensures r in t.accounts && i in t.accounts[r].nodes && t.accounts[r].nodes[i] in t.nodes
            && t.accounts[r].nodes[i] in v.nodes
    ensures r in v.accounts && v.accounts[r].nodes == t.accounts[r].nodes
    ensures v.nodes[t.accounts[r].nodes[i]] == AfterProbes(c, t.nodes[t.accounts[r].nodes[i]], Of(probes, i), Tries(c),
              time)
  {
    hide Activation, IsWarmed, AfterProbes;
    WarmedRecord(c, t, u, r, i, probes, time);
    WarmedShape(c, t, u, r, i, probes, time);
    NotWarmed(c, u, v, r, skip, probes, best, warmed, i);
  }

  /** The same as `ActivatedAfterRefusal`, the late results being what the tables `w` show. */
  lemma LateActivation(
    c: WarmupConfig, t: Tables, u: Tables, v: Tables, w: Tables, r: Ref, skip: set<string>,
    probes: (string, nat) -> Probe,
    i: string, best: Option<string>, more: seq<string>, time: nat)
    requires IsWarmed(c, t, u, r, i, probes, time) && OwnRecords(t.accounts[r], t.nodes)
    requires time == Spent(c, Of(probes, i), Tries(c))
    requires Eligible(t.accounts[r], t.nodes, i) && i !in skip && c.enabled && !Passes(c, Of(probes, i))
    requires Activation(c, u, v, r, skip + {i}, probes, best, more)
    requires r in v.accounts && t.accounts[r].nodes[i] in v.nodes
    requires var p := t.accounts[r].nodes[i];
             var m := AfterProbes(c, t.nodes[p], Of(probes, i), Tries(c), time + TimeSpent(c, probes, more));
             w == Tables(Follow(v.accounts, r, i, m.failed), v.nodes[p := m])
    ensures Activation(c, t, w, r, skip, probes, best, [i] + more)
  {
    hide Activation, AfterProbes, IsWarmed, OwnRecords, Passes, TimeSpent, Spent, Follow;
    WarmedRecord(c, t, u, r, i, probes, time);
    NowLate(c, t.nodes, v, w, r, t.accounts[r].nodes[i], i, probes, time + TimeSpent(c, probes, more));
    ActivatedAfterRefusal(c, t, u, v, w, r, skip, probes, i, best, more);
  }

  /** The activated node is failed exactly when it was warmed and the last result to arrive before its warm-up was over
      was a refusal; it never is when every probe has to succeed. */
  lemma ActivatedNodeState(
    c: WarmupConfig, t: Tables, u: Tables, r: Ref, skip: set<string>,
    probes: (string, nat) -> Probe, i: string, warmed: seq<string>)
    requires Activation(c, t, u, r, skip, probes, Some(i), warmed)
    ensures i in t.accounts[r].nodes && t.accounts[r].nodes[i] in u.nodes
    ensures u.nodes[t.accounts[r].nodes[i]].failed <==>
            c.enabled && RefusedLast(c, Of(probes, i), Tries(c), Spent(c, Of(probes, i), Tries(c)))
    ensures c.requiredSuccess >= Tries(c) ==> !u.nodes[t.accounts[r].nodes[i]].failed
  {
    hide Activation, Selected, AfterProbes;
    ActivationFacts(c, t, u, r, skip, probes, i, warmed);
    WarmedNodeState(c, t.nodes[t.accounts[r].nodes[i]], Of(probes, i), Tries(c), Spent(c, Of(probes, i), Tries(c)));
  }

  lemma ActivationFacts(
    c: WarmupConfig, t: Tables, u: Tables, r: Ref, skip: set<string>,
    probes: (string, nat) -> Probe, i: string, warmed: seq<string>)
    requires Activation(c, t, u, r, skip, probes, Some(i), warmed)
    ensures r in t.accounts && Eligible(t.accounts[r], t.nodes, i) && t.accounts[r].nodes[i] in u.nodes
    ensures c.enabled ==> Successes(c, Of(probes, i), Tries(c)) >= c.requiredSuccess
    ensures var p := t.accounts[r].nodes[i];
            u.nodes[p] == if c.enabled then AfterProbes(c, t.nodes[p], Of(probes, i), Tries(c),
              Spent(c, Of(probes, i), Tries(c))) else t.nodes[p]
  {
    hide AfterProbes;
    if c.enabled {
      ElapsedLast(c, probes, warmed);
    }
  }

  /** With one success required out of two probes, a node that answers and then refuses is activated failed. */
  lemma ActivatedThoughFailed(
    t: Tables, u: Tables, r: Ref, probes: (string, nat) -> Probe,
    i: string, warmed: seq<string>)
    requires var c := WarmupConfig(true, 2, Retry.SECOND, 1);
             Activation(c, t, u, r, {}, probes, Some(i), warmed)
    requires probes(i, 0) == Probe(true, 0) && probes(i, 1) == Probe(false, 0)
    ensures i in t.accounts[r].nodes && t.accounts[r].nodes[i] in u.nodes && u.nodes[t.accounts[r].nodes[i]].failed
  {
    hide Activation;
    var c, mine := WarmupConfig(true, 2, Retry.SECOND, 1), Of(probes, i);
    ActivatedNodeState(c, t, u, r, {}, probes, i, warmed);
    assert Spent(c, mine, 1) == 0 && Spent(c, mine, 2) == 0;
    assert Arrival(c, mine, 0) == 0 && Arrival(c, mine, 1) == 0;
    assert !mine(1).ok;
    assert RefusedLast(c, mine, 2, 0);
  }

  // ---------- failure handling ----------

  /** The longest time reselection can take in an account of `n` nodes. */
  function HandlingTime(c: WarmupConfig, n: nat): nat {
    if c.enabled then WarmupTime(c, n) else 0
  }

  /** Of `nodes`, only those in `marked` and `probed` turned from healthy to failed. */
  ghost predicate FailuresExplained(
    nodes: map<string, Ref>, h: NodeTable, g: NodeTable, marked: set<string>, probed: set<string>)
  {
    forall i :: i in nodes && nodes[i] in h && nodes[i] in g && g[nodes[i]].failed && !h[nodes[i]].failed ==>
                  i in marked || i in probed
  }

  lemma {:induction false} WarmupTimeMonotone(c: WarmupConfig, m: nat, n: nat)
    requires m <= n
    ensures WarmupTime(c, m) <= WarmupTime(c, n)
  {
    if m < n {
      WarmupTimeMonotone(c, m, n - 1);
    }
  }

  lemma {:induction false} DistinctFits(s: seq<string>, all: set<string>)
    requires Distinct(s) && forall i :: i in s ==> i in all
    ensures |s| <= |all|
  {
    if s != [] {
      var rest := s[..|s| - 1];
      var x := s[|s| - 1];
      forall i | i in rest
        ensures i in all - {x}
      {
      }
      DistinctFits(rest, all - {x});
    }
  }

  /** Marking node `i` failed and reselecting: a drift in which only `i` and the warmed nodes can have failed. The
      marked node is not among them. */
  lemma MarkedAndReselected(
    c: WarmupConfig, t: Tables, u: Tables, v: Tables, r: Ref,
    i: string, probes: (string, nat) -> Probe, best: Option<string>, warmed: seq<string>)
    requires r in t.accounts && OwnRecords(t.accounts[r], t.nodes) && i in t.accounts[r].nodes
    requires var n := t.nodes[t.accounts[r].nodes[i]];
             u.nodes == t.nodes[t.accounts[r].nodes[i] := n.(failed := true, failStreak := if n.failStreak == 0 then 1
               else n.failStreak)]
    requires u.accounts == Listed(t.accounts, r, i) && Activation(c, u, v, r, {}, probes, best, warmed)
    ensures Drift(t, v, r) && FailuresExplained(t.accounts[r].nodes, t.nodes, v.nodes, {i}, Elements(warmed))
            && i !in warmed
    ensures forall j :: j in warmed ==> Eligible(t.accounts[r], t.nodes, j)
    ensures WarmupTime(c, |warmed|) <= HandlingTime(c, |t.accounts[r].nodes|)
  {
    forall j, k | j in t.accounts[r].nodes && k in t.accounts[r].nodes
      && t.accounts[r].nodes[j] == t.accounts[r].nodes[k]
      ensures j == k
    {
      assert t.nodes[t.accounts[r].nodes[j]].id == j;
    }
    hide AfterProbes;
    NodeDrift(t, r, i, u.nodes[t.accounts[r].nodes[i]]);
    DriftTransitive(t, u, v, r);
    DistinctFits(warmed, t.accounts[r].nodes.Keys);
    if c.enabled {
      WarmupTimeMonotone(c, |warmed|, |t.accounts[r].nodes|);
    }
  }
}
