/** The journal of a server: every change of the registry in the order in which they happened, each with what it made
    of the maps and tables, and what it says about why a node is the active one of its account. */
module Journal {
  import opened Common
  import opened Nodes
  import opened Probes
  import opened Warmup
  import opened Priority

  /** The registry at one moment. */
  datatype Snapshot = Snapshot(maps: Maps, tables: Tables)

  /** What can change it. */
  datatype Event =
    | AccountCreated(account: Ref, record: Account)
    | AccountUpdated(account: Ref, name: string, key: string)
    | AccountDeleted(id: string)
    | NodeAdded(account: Ref, node: string, state: Node)
    | NodeWeighed(node: string, weight: int)
    | NodeDeleted(node: string)
    | NodeDisabled(node: string)
    | NodeEnabled(node: string)
    | HealthChecked(node: string, ok: bool)
    | AttemptCounted(node: string, ok: bool, strike: bool)
    | MarkedFailed(node: string)
    | Reselection(account: Ref, probes: (string, nat) -> Probe, best: Option<string>, warmed: seq<string>)
    | Takeover(account: Ref, node: string, inUse: Option<string>)
    | ByHand(account: Ref, node: string)

  datatype Step = Step(event: Event, to: Snapshot)

  datatype Journal = Journal(start: Snapshot, steps: seq<Step>) {
    /** The registry after the first `k` steps. */
    function At(k: nat): Snapshot
      requires k <= |steps|
    {
      if k == 0 then start else steps[k - 1].to
    }

    function Now(): Snapshot {
      At(|steps|)
    }

    /** The event before step `k`. */
    function Before(k: nat): Option<Event>
      requires k <= |steps|
    {
      if k == 0 then None else Some(steps[k - 1].event)
    }

    function Then(e: Event, s: Snapshot): Journal {
      Journal(start, steps + [Step(e, s)])
    }
  }

  /** An attempt, successful or not, counted in a node's record; one with a strike lengthens its failure streak. */
  function Metered(n: Node, ok: bool, strike: bool): Node {
    var counted :=
      if ok then n.(requests := n.requests + 1, failed := false, failStreak := 0)
      else n.(requests := n.requests + 1, failCount := n.failCount + 1);
    if strike then counted.(failStreak := counted.failStreak + 1) else counted
  }

  // ---------- one step ----------

  /** The record of node `i` became `n`, and the FailedSet of its account says `failed` of it. */
  ghost predicate Rewrites(s: Snapshot, t: Snapshot, i: string, n: Node, failed: bool)
    requires Knows(s, i)
  {
    t == s.(tables := Tables(Follow(s.tables.accounts, s.maps.owner[i], i, failed),
      s.tables.nodes[s.maps.index[i] := n]))
  }

  ghost predicate Knows(s: Snapshot, i: string) {
    && i in s.maps.index && s.maps.index[i] in s.tables.nodes
    && i in s.maps.owner && s.maps.owner[i] in s.tables.accounts
  }

  /** Node `i` of account `r` became the active one and nothing else changed. */
  ghost predicate Activates(s: Snapshot, t: Snapshot, r: Ref, i: string) {
    && Knows(s, i) && s.maps.owner[i] == r
    && t == s.(tables := s.tables.WithActive(r, i))
  }

  /** Node `i`, which is not disabled, takes over: from the node in use, which is the active one and is failed or
      dearer, or because nothing is in use, the reselection just before having found no node that passes. */
  ghost predicate MayTakeOver(before: Option<Event>, s: Snapshot, r: Ref, i: string, inUse: Option<string>)
    requires Knows(s, i) && r in s.tables.accounts
  {
    var a, h := s.tables.accounts[r], s.tables.nodes;
    && !h[s.maps.index[i]].disabled
    && match inUse
       case None => before.Some? && before.value.Reselection? && before.value.account == r && before.value.best.None?
       case Some(j) =>
         && a.activeId == j && j in a.nodes && a.nodes[j] in h
         && (h[a.nodes[j]].failed || h[s.maps.index[i]].weight < h[a.nodes[j]].weight)
  }

  /** The new and empty account `r` came in. */
  ghost predicate Opens(s: Snapshot, t: Snapshot, r: Ref, a: Account) {
    && r !in s.tables.accounts && a.nodes == map[] && a.activeId == "" && a.failedSet == {}
    && t == Snapshot(s.maps.(byId := s.maps.byId[a.id := r], byKey := s.maps.byKey[a.proxyKey := r]),
                     s.tables.(accounts := s.tables.accounts[r := a]))
  }

  /** Account `r` has this name and key now. */
  ghost predicate Renames(s: Snapshot, t: Snapshot, r: Ref, name: string, key: string) {
    && r in s.tables.accounts && t.maps == s.maps.(byKey := t.maps.byKey)
    && var a := s.tables.accounts[r].(name := name, proxyKey := key);
       t.tables == s.tables.(accounts := s.tables.accounts[r := a])
  }

  /** The account and its nodes left the maps. */
  ghost predicate Closes(s: Snapshot, t: Snapshot, id: string) {
    && id in s.maps.byId && s.maps.byId[id] in s.tables.accounts
    && var a := s.tables.accounts[s.maps.byId[id]];
       t == s.(maps := Maps(s.maps.byId - {id}, s.maps.byKey - {a.proxyKey},
                            s.maps.index - a.nodes.Keys, s.maps.owner - a.nodes.Keys))
  }

  /** Node `i` with the fresh record `n` came to account `r`. */
  ghost predicate Joins(s: Snapshot, t: Snapshot, r: Ref, i: string, n: Node) {
    var u := s.tables;
    && Registered(s.maps.byId, u.accounts, r) && i !in s.maps.index
    && n == Node(i, n.createdAt, u.accounts[r].id, n.weight, false, false, 0, 0, 0) && n.weight >= 1
    && i in t.maps.index && t.maps.index[i] !in u.nodes
    && var p := t.maps.index[i];
       t == Snapshot(s.maps.(index := s.maps.index[i := p], owner := s.maps.owner[i := r]),
                     Tables(u.accounts[r := u.accounts[r].(nodes := u.accounts[r].nodes[i := p])], u.nodes[p := n]))
  }

  /** Event `e`, coming after `before`, takes the registry from `s` to `t`. */
  ghost predicate Leads(c: WarmupConfig, before: Option<Event>, s: Snapshot, e: Event, t: Snapshot) {
    var u := s.tables;
    match e
    case AccountCreated(r, a) => Opens(s, t, r, a)
    case AccountUpdated(r, name, key) => Renames(s, t, r, name, key)
    case AccountDeleted(id) => Closes(s, t, id)
    case NodeAdded(r, i, n) => Joins(s, t, r, i, n)
    case NodeWeighed(i, w) =>
      Knows(s, i) && t == s.(tables := u.WithNode(s.maps.index[i], u.nodes[s.maps.index[i]].(weight := w)))
    case NodeDeleted(i) =>
      && Knows(s, i)
      && var r := s.maps.owner[i];
         var a := u.accounts[r];
         t == Snapshot(s.maps.(index := s.maps.index - {i}, owner := s.maps.owner - {i}),
                       u.(accounts := u.accounts[r := a.(nodes := a.nodes - {i}, failedSet := a.failedSet - {i},
                                                         activeId := if a.activeId == i then "" else a.activeId)]))
    case NodeDisabled(i) =>
      Knows(s, i) && t == s.(tables := u.WithNode(s.maps.index[i], u.nodes[s.maps.index[i]].(disabled := true)))
    case NodeEnabled(i) =>
      Knows(s, i) && Rewrites(s, t, i, Enabled(u.nodes[s.maps.index[i]]), false)
    case HealthChecked(i, ok) =>
      Knows(s, i) && Rewrites(s, t, i, Checked(u.nodes[s.maps.index[i]], ok), !ok)
    case AttemptCounted(i, ok, strike) =>
      && Knows(s, i) && !u.nodes[s.maps.index[i]].failed
      && t == s.(tables := u.WithNode(s.maps.index[i], Metered(u.nodes[s.maps.index[i]], ok, strike)))
    case MarkedFailed(i) =>
      Knows(s, i) && Rewrites(s, t, i, Checked(u.nodes[s.maps.index[i]], false), true)
    case Reselection(r, probes, best, warmed) =>
      t.maps == s.maps && Registered(s.maps.byId, u.accounts, r)
        && Activation(c, u, t.tables, r, {}, probes, best, warmed)
    case Takeover(r, i, inUse) =>
      Activates(s, t, r, i) && MayTakeOver(before, s, r, i, inUse)
    case ByHand(r, i) =>
      Activates(s, t, r, i)
  }

  lemma AccountChanged(c: WarmupConfig, s: Snapshot, e: Event, t: Snapshot)
    requires || (e.AccountCreated? && Opens(s, t, e.account, e.record))
             || (e.AccountUpdated? && Renames(s, t, e.account, e.name, e.key))
             || (e.AccountDeleted? && Closes(s, t, e.id)) || (e.NodeAdded? && Joins(s, t, e.account, e.node, e.state))
    ensures forall before :: Leads(c, before, s, e, t)
  {
    hide Opens, Renames, Closes, Joins;
  }

  /** Rewriting the record of node `i`, the FailedSet of its account left alone. */
  lemma NodeRewritten(c: WarmupConfig, s: Snapshot, t: Snapshot, e: Event, i: string, n: Node)
    requires Knows(s, i) && t == s.(tables := s.tables.WithNode(s.maps.index[i], n))
    requires var m := s.tables.nodes[s.maps.index[i]];
             || (e.NodeWeighed? && e.node == i && n == m.(weight := e.weight))
             || (e == NodeDisabled(i) && n == m.(disabled := true))
             || (e.AttemptCounted? && e.node == i && !m.failed && n == Metered(m, e.ok, e.strike))
    ensures forall before :: Leads(c, before, s, e, t)
  {
  }

  lemma NodeCleared(c: WarmupConfig, s: Snapshot, t: Snapshot, i: string)
    requires Knows(s, i)
    requires t == s.(tables := Tables(Unlisted(s.tables.accounts, s.maps.owner[i], i),
                                      s.tables.nodes[s.maps.index[i] := Enabled(s.tables.nodes[s.maps.index[i]])]))
    ensures forall before :: Leads(c, before, s, NodeEnabled(i), t)
  {
  }

  /** At every moment the maps agree with the tables, and every event takes the registry from each to the next. */
  ghost predicate IsJournal(c: WarmupConfig, j: Journal) {
    && j.start.maps.Agree(j.start.tables)
    && forall k :: 0 <= k < |j.steps| ==> IsStep(c, j, k)
  }

  ghost predicate IsStep(c: WarmupConfig, j: Journal, k: nat)
    requires k < |j.steps|
  {
    && j.steps[k].to.maps.Agree(j.steps[k].to.tables)
    && Leads(c, j.Before(k), j.At(k), j.steps[k].event, j.steps[k].to)
  }

  lemma JournalGrows(c: WarmupConfig, j: Journal, e: Event, s: Snapshot)
    requires IsJournal(c, j) && s.maps.Agree(s.tables) && Leads(c, j.Before(|j.steps|), j.Now(), e, s)
    ensures IsJournal(c, j.Then(e, s)) && j.Then(e, s).Now() == s
  {
    hide Leads, Consistent;
    var more := j.Then(e, s);
    forall k | 0 <= k < |more.steps|
      ensures IsStep(c, more, k)
    {
      assert more.Before(k) == j.Before(k) && more.At(k) == j.At(k);
      assert k < |j.steps| ==> IsStep(c, j, k);
    }
  }

  /** The journal has grown by exactly these events. */
  ghost predicate Adds(j: Journal, k: Journal, events: seq<Event>) {
    && k.start == j.start && |k.steps| == |j.steps| + |events| && j.steps <= k.steps
    && forall n :: 0 <= n < |events| ==> k.steps[|j.steps| + n].event == events[n]
  }

  lemma AddsMore(j: Journal, k: Journal, l: Journal, early: seq<Event>, late: seq<Event>)
    requires Adds(j, k, early) && Adds(k, l, late)
    ensures Adds(j, l, early + late)
  {
    forall n | 0 <= n < |early + late|
      ensures l.steps[|j.steps| + n].event == (early + late)[n]
    {
      if n < |early| {
        assert l.steps[|j.steps| + n] == k.steps[|j.steps| + n];
      } else {
        assert |j.steps| + n == |k.steps| + (n - |early|);
      }
    }
  }

  /** What the second half of an operation adds. */
  function ReselectionIf(
    needed: bool, r: Ref, probes: (string, nat) -> Probe, best: Option<string>, warmed: seq<string>): seq<Event>
  {
    if needed then [Reselection(r, probes, best, warmed)] else []
  }

  /** Node `i` has just been enabled and the active node of its account been asked for, with answer `cur`. */
  ghost predicate JustAsked(before: Option<Event>, v: Tables, r: Ref, i: string, cur: Option<string>) {
    && r in v.accounts && i in v.accounts[r].nodes && v.accounts[r].nodes[i] in v.nodes
    && !v.nodes[v.accounts[r].nodes[i]].disabled
    && match cur
       case None => before.Some? && before.value.Reselection? && before.value.account == r && before.value.best.None?
       case Some(x) => v.accounts[r].activeId == x && x in v.accounts[r].nodes && v.accounts[r].nodes[x] in v.nodes
  }

  lemma AskedJustNow(
    c: WarmupConfig, j: Journal, k: Journal, u: Tables, v: Tables, r: Ref, i: string, probes: (string, nat) -> Probe,
    best: Option<string>, warmed: seq<string>)
    requires r in u.accounts && Complete(u.accounts[r], u.nodes) && i in u.accounts[r].nodes
    requires !u.nodes[u.accounts[r].nodes[i]].disabled
    requires var needed := !HasUsableNode(u.accounts[r], u.nodes);
             && Reselected(c, needed, u, v, r, probes, best, warmed)
             && Adds(j, k, [NodeEnabled(i)] + ReselectionIf(needed, r, probes, best, warmed))
    ensures JustAsked(k.Before(|k.steps|), v, r, i, InUse(u.accounts[r], u.nodes, best))
  {
    hide AfterProbes, Elapsed, NoBetterLeftOut, Passes;
    var needed := !HasUsableNode(u.accounts[r], u.nodes);
    if needed {
      var added := [NodeEnabled(i)] + ReselectionIf(needed, r, probes, best, warmed);
      assert added[1] == Reselection(r, probes, best, warmed) && k.steps[|j.steps| + 1].event == added[1];
      assert Drift(u, v, r) && SameNode(u.nodes[u.accounts[r].nodes[i]], v.nodes[u.accounts[r].nodes[i]]);
    }
  }

  // ---------- why a node is active ----------

  /** Event `e` made node `i` the active one of account `r`. */
  predicate Chooses(e: Event, r: Ref, i: string) {
    match e
    case Reselection(q, _, best, _) => q == r && best == Some(i)
    case Takeover(q, j, _) => q == r && j == i
    case ByHand(q, j) => q == r && j == i
    case _ => false
  }

  /** Only a choice makes a node active. */
  lemma OnlyChoicesActivate(c: WarmupConfig, before: Option<Event>, s: Snapshot, e: Event, t: Snapshot, r: Ref)
    requires Leads(c, before, s, e, t) && r in t.tables.accounts && t.tables.accounts[r].activeId != ""
    ensures Chooses(e, r, t.tables.accounts[r].activeId)
            || (r in s.tables.accounts && s.tables.accounts[r].activeId == t.tables.accounts[r].activeId)
  {
    hide Selected, AfterProbes, Elapsed, SameNode, Eligible, NoBetterLeftOut;
  }

  /** Node `i` has been the active one of account `r` since step `k`, which chose it by its rule: a reselection chose a
      node that was eligible and passed its warm-up when every better eligible one failed its own; a takeover was by a
      node that was not disabled, from a node in use that was failed or dearer or because none of the account's
      eligible nodes had passed the warm-up just before. */
  ghost predicate ActiveBecause(c: WarmupConfig, j: Journal, r: Ref, i: string, k: nat) {
    && k < |j.steps| && Chooses(j.steps[k].event, r, i) && ActiveFrom(j, r, i, k + 1)
    && ChoiceObeysRule(c, j, k)
  }

  ghost predicate ChoiceObeysRule(c: WarmupConfig, j: Journal, k: nat)
    requires k < |j.steps|
  {
    var u := j.At(k).tables;
    match j.steps[k].event
    case Reselection(r, probes, best, _) => r in u.accounts && Selected(c, u.accounts[r], u.nodes, {}, probes, best)
    case Takeover(r, i, inUse) => TookOver(c, j, k, r, i, inUse)
    case _ => true
  }

  ghost predicate TookOver(c: WarmupConfig, j: Journal, k: nat, r: Ref, i: string, inUse: Option<string>)
    requires k < |j.steps|
  {
    var u := j.At(k).tables;
    && r in u.accounts && i in u.accounts[r].nodes && u.accounts[r].nodes[i] in u.nodes
    && var a, n := u.accounts[r], u.nodes[u.accounts[r].nodes[i]];
       && !n.disabled
       && match inUse
          case None => k > 0 && NonePassed(c, j, k - 1, r)
          case Some(x) =>
            && a.activeId == x && x in a.nodes && a.nodes[x] in u.nodes
            && (u.nodes[a.nodes[x]].failed || n.weight < u.nodes[a.nodes[x]].weight)
  }

  /** Step `k` was a reselection of account `r` in which every eligible node failed its warm-up. */
  ghost predicate NonePassed(c: WarmupConfig, j: Journal, k: nat, r: Ref)
    requires k < |j.steps|
  {
    var u, e := j.At(k).tables, j.steps[k].event;
    && e.Reselection? && e.account == r && r in u.accounts
    && forall x :: Eligible(u.accounts[r], u.nodes, x) ==> !Passes(c, Of(e.probes, x))
  }

  /** Node `i` is the active one of account `r` at every moment from step `k` on. */
  ghost predicate ActiveFrom(j: Journal, r: Ref, i: string, k: nat) {
    forall l :: k <= l <= |j.steps| ==> r in j.At(l).tables.accounts && j.At(l).tables.accounts[r].activeId == i
  }

  ghost predicate IsExplained(c: WarmupConfig, j: Journal, r: Ref, i: string) {
    ActiveFrom(j, r, i, 0) || exists k: nat :: ActiveBecause(c, j, r, i, k)
  }

  lemma RulesObeyed(c: WarmupConfig, j: Journal, k: nat)
    requires IsJournal(c, j) && k < |j.steps|
    ensures ChoiceObeysRule(c, j, k)
  {
    hide Consistent, Passes, AfterProbes, Elapsed, Eligible, NoBetterLeftOut, SameNode;
    assert IsStep(c, j, k);
    match j.steps[k].event {
      case Takeover(r, i, inUse) =>
        var s := j.At(k);
        AgreesAt(c, j, k);
        NodeFacts(s.maps.byId, s.maps.byKey, s.maps.index, s.maps.owner, s.tables.accounts, s.tables.nodes, i);
        if inUse.None? {
          assert IsStep(c, j, k - 1);
        }
      case _ =>
    }
  }

  lemma AgreesAt(c: WarmupConfig, j: Journal, k: nat)
    requires IsJournal(c, j) && k <= |j.steps|
    ensures j.At(k).maps.Agree(j.At(k).tables)
  {
    hide Leads, Consistent;
    if k > 0 {
      assert IsStep(c, j, k - 1);
    }
  }

  /** Every active node was active when the journal began and has been ever since, or it was chosen by a later step that
      obeyed its rule and has been active from then on. */
  lemma {:induction false} ActiveWasChosen(c: WarmupConfig, j: Journal, r: Ref)
    requires IsJournal(c, j) && r in j.Now().tables.accounts && j.Now().tables.accounts[r].activeId != ""
    ensures var i := j.Now().tables.accounts[r].activeId;
            IsExplained(c, j, r, i)
    decreases |j.steps|
  {
    hide Leads, Consistent, ChoiceObeysRule, ActiveFrom, IsJournal;
    var n, i := |j.steps|, j.Now().tables.accounts[r].activeId;
    if n == 0 {
      AlwaysFrom(j, r, i);
    } else {
      StepFacts(c, j, n - 1);
      if Chooses(j.steps[n - 1].event, r, i) {
        RulesObeyed(c, j, n - 1);
        AlwaysFrom(j, r, i);
        assert ActiveBecause(c, j, r, i, n - 1);
      } else {
        OnlyChoicesActivate(c, j.Before(n - 1), j.At(n - 1), j.steps[n - 1].event, j.steps[n - 1].to, r);
        var shorter := Journal(j.start, j.steps[..n - 1]);
        Shorter(c, j);
        ActiveWasChosen(c, shorter, r);
        if ActiveFrom(shorter, r, i, 0) {
          ActiveLonger(j, r, i, 0);
        } else {
          var k: nat :| ActiveBecause(c, shorter, r, i, k);
          ActiveLonger(j, r, i, k + 1);
          RulesObeyed(c, j, k);
          assert ActiveBecause(c, j, r, i, k);
        }
      }
    }
  }

  lemma StepFacts(c: WarmupConfig, j: Journal, k: nat)
    requires IsJournal(c, j) && k < |j.steps|
    ensures Leads(c, j.Before(k), j.At(k), j.steps[k].event, j.steps[k].to)
  {
    hide Leads, Consistent;
    assert IsStep(c, j, k);
  }

  /** At the last moment, that is from it on. */
  lemma AlwaysFrom(j: Journal, r: Ref, i: string)
    requires r in j.Now().tables.accounts && j.Now().tables.accounts[r].activeId == i
    ensures ActiveFrom(j, r, i, |j.steps|)
  {
  }

  lemma ActiveLonger(j: Journal, r: Ref, i: string, k: nat)
    requires j.steps != [] && ActiveFrom(Journal(j.start, j.steps[..|j.steps| - 1]), r, i, k)
    requires r in j.Now().tables.accounts && j.Now().tables.accounts[r].activeId == i
    ensures ActiveFrom(j, r, i, k)
  {
    var shorter := Journal(j.start, j.steps[..|j.steps| - 1]);
    forall l | k <= l <= |j.steps|
      ensures r in j.At(l).tables.accounts && j.At(l).tables.accounts[r].activeId == i
    {
      assert l < |j.steps| ==> j.At(l) == shorter.At(l);
    }
  }

  lemma Shorter(c: WarmupConfig, j: Journal)
    requires IsJournal(c, j) && j.steps != []
    ensures var shorter := Journal(j.start, j.steps[..|j.steps| - 1]);
            IsJournal(c, shorter) && shorter.Now() == j.At(|j.steps| - 1)
  {
    hide Leads, Consistent;
    var shorter := Journal(j.start, j.steps[..|j.steps| - 1]);
    forall k | 0 <= k < |shorter.steps|
      ensures IsStep(c, shorter, k)
    {
      assert IsStep(c, j, k);
      assert shorter.Before(k) == j.Before(k) && shorter.At(k) == j.At(k);
    }
  }

  // ---------- active though disabled ----------

  ghost predicate IsDisabled(s: Snapshot, r: Ref, i: string) {
    && Registered(s.maps.byId, s.tables.accounts, r) && i in s.tables.accounts[r].nodes
    && s.tables.accounts[r].nodes[i] in s.tables.nodes && s.tables.nodes[s.tables.accounts[r].nodes[i]].disabled
  }

  /** The event rewrites one node's record, if any. */
  predicate IsRewriting(e: Event) {
    e.NodeWeighed? || e.NodeDisabled? || e.NodeEnabled? || e.HealthChecked? || e.AttemptCounted? || e.MarkedFailed?
  }

  /** Only disabling disables: of a node that stays active every other event finds the flag as it leaves it. */
  lemma OnlyDisablingDisables(
    c: WarmupConfig, before: Option<Event>, s: Snapshot, e: Event, t: Snapshot, r: Ref, i: string)
    requires s.maps.Agree(s.tables) && Leads(c, before, s, e, t) && e != NodeDisabled(i) && IsDisabled(t, r, i)
    requires r in s.tables.accounts && s.tables.accounts[r].activeId == i == t.tables.accounts[r].activeId != ""
    ensures IsDisabled(s, r, i)
  {
    hide AfterProbes, Elapsed, Selected, NoBetterLeftOut, Eligible, Consistent;
    NodeFacts(s.maps.byId, s.maps.byKey, s.maps.index, s.maps.owner, s.tables.accounts, s.tables.nodes, i);
    if IsRewriting(e) {
      RewritingDisables(c, before, s, e, t, r, i);
    } else if e.Reselection? {
      assert Drift(s.tables, t.tables, e.account);
    } else if e.NodeAdded? || e.NodeDeleted? {
      NodesDisable(c, before, s, e, t, r, i);
    }
  }

  lemma RewritingDisables(
    c: WarmupConfig, before: Option<Event>, s: Snapshot, e: Event, t: Snapshot, r: Ref, i: string)
    requires s.maps.Agree(s.tables) && Leads(c, before, s, e, t) && e != NodeDisabled(i) && IsDisabled(t, r, i)
    requires IsRewriting(e)
    ensures IsDisabled(s, r, i)
  {
    hide Consistent;
    assert Registered(s.maps.byId, s.tables.accounts, r);
    OwnerFacts(s, r, i);
    NodeFacts(s.maps.byId, s.maps.byKey, s.maps.index, s.maps.owner, s.tables.accounts, s.tables.nodes, e.node);
  }

  lemma NodesDisable(
    c: WarmupConfig, before: Option<Event>, s: Snapshot, e: Event, t: Snapshot, r: Ref, i: string)
    requires s.maps.Agree(s.tables) && Leads(c, before, s, e, t) && IsDisabled(t, r, i)
             && (e.NodeAdded? || e.NodeDeleted?)
    ensures IsDisabled(s, r, i)
  {
    hide Consistent;
    assert Registered(s.maps.byId, s.tables.accounts, r);
    if i in s.tables.accounts[r].nodes {
      OwnerFacts(s, r, i);
    }
  }

  lemma OwnerFacts(s: Snapshot, r: Ref, i: string)
    requires s.maps.Agree(s.tables) && Registered(s.maps.byId, s.tables.accounts, r) && i in s.tables.accounts[r].nodes
    ensures i in s.maps.owner && s.maps.owner[i] == r && i in s.maps.index
    ensures s.maps.index[i] == s.tables.accounts[r].nodes[i] && s.maps.index[i] in s.tables.nodes
    ensures s.tables.nodes[s.maps.index[i]].id == i
  {
    assert i in s.maps.owner && s.maps.owner[i] == r;
    assert i in s.maps.index;
  }

  lemma ChosenEnabled(c: WarmupConfig, j: Journal, r: Ref, i: string, k: nat)
    requires IsJournal(c, j) && ActiveBecause(c, j, r, i, k) && !j.steps[k].event.ByHand?
    ensures !IsDisabled(j.At(k + 1), r, i)
  {
    hide AfterProbes, Elapsed, Passes, NoBetterLeftOut, Consistent;
    StepFacts(c, j, k);
    if j.steps[k].event.Reselection? {
      assert Drift(j.At(k).tables, j.At(k + 1).tables, r);
      assert Eligible(j.At(k).tables.accounts[r], j.At(k).tables.nodes, i);
    }
  }

  /** A node that is active because of a reselection or a takeover and disabled now was disabled afterwards. */
  lemma {:induction false} DisabledAfterwards(c: WarmupConfig, j: Journal, r: Ref, i: string, k: nat, now: nat)
    requires IsJournal(c, j) && ActiveBecause(c, j, r, i, k) && !j.steps[k].event.ByHand? && i != ""
    requires k < now <= |j.steps| && IsDisabled(j.At(now), r, i)
    ensures exists l :: k < l < now && j.steps[l].event == NodeDisabled(i)
    decreases now
  {
    hide Leads, Consistent;
    StepFacts(c, j, now - 1);
    AgreesAt(c, j, now - 1);
    if now == k + 1 {
      ChosenEnabled(c, j, r, i, k);
    } else if j.steps[now - 1].event != NodeDisabled(i) {
      OnlyDisablingDisables(c, j.Before(now - 1), j.At(now - 1), j.steps[now - 1].event, j.At(now), r, i);
      DisabledAfterwards(c, j, r, i, k, now - 1);
    }
  }
}
