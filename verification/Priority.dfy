/** Where an account's requests go. With warm-up off, and as long as nobody activates a node by hand, the
    active node of an account is unset or is a cheapest eligible one whenever there is an eligible one. */
module Priority {
  import opened Common
  import opened Nodes
  import opened Probes
  import opened Warmup

  /** No node has the empty id, which stands for "no active node"; the active node, if any, is a cheapest
      eligible one unless none is eligible. */
  ghost predicate Cheapest(a: Account, h: NodeTable) {
    && "" !in a.nodes
    && (a.activeId != "" ==>
      && a.activeId in a.nodes
      && forall i :: Eligible(a, h, i) ==>
                       Eligible(a, h, a.activeId) && h[a.nodes[a.activeId]].weight <= h[a.nodes[i]].weight)
  }

  ghost predicate Settled(byId: map<string, Ref>, t: Tables) {
    forall r :: Registered(byId, t.accounts, r) ==> Cheapest(t.accounts[r], t.nodes)
  }

  /** Nothing outside account `r` and its nodes changed. */
  ghost predicate Local(t: Tables, u: Tables, r: Ref) {
    && t.accounts.Keys == u.accounts.Keys && r in t.accounts && u.accounts[r].id == t.accounts[r].id
    && (forall q :: q in t.accounts && q != r ==> u.accounts[q] == t.accounts[q])
    && (forall p :: p in t.nodes ==>
          p in u.nodes && (u.nodes[p] == t.nodes[p] || IsNodeOf(t.accounts[r], t.nodes[p], p)))
  }

  lemma DriftIsLocal(t: Tables, u: Tables, r: Ref)
    requires Drift(t, u, r)
    ensures Local(t, u, r)
  {
  }

  lemma LocalTransitive(t: Tables, u: Tables, v: Tables, r: Ref)
    requires Local(t, u, r) && Local(u, v, r)
    requires forall i :: i in u.accounts[r].nodes && u.accounts[r].nodes[i] in t.nodes ==>
             i in t.accounts[r].nodes && t.accounts[r].nodes[i] == u.accounts[r].nodes[i]
    requires forall p :: p in t.nodes ==> u.nodes[p].id == t.nodes[p].id
    ensures Local(t, v, r)
  {
    forall p | p in t.nodes
      ensures p in v.nodes && (v.nodes[p] == t.nodes[p] || IsNodeOf(t.accounts[r], t.nodes[p], p))
    {
      assert p in u.nodes && (u.nodes[p] == t.nodes[p] || IsNodeOf(t.accounts[r], t.nodes[p], p));
      assert v.nodes[p] == u.nodes[p] || IsNodeOf(u.accounts[r], u.nodes[p], p);
    }
  }

  lemma NodesNotShared(maps: Maps, t: Tables, r: Ref, q: Ref, i: string)
    requires maps.Agree(t) && Registered(maps.byId, t.accounts, r) && Registered(maps.byId, t.accounts, q)
    requires q != r && i in t.accounts[q].nodes
    ensures t.accounts[q].nodes[i] in t.nodes && !IsNodeOf(t.accounts[r], t.nodes[t.accounts[q].nodes[i]],
              t.accounts[q].nodes[i])
  {
    assert i in maps.owner && maps.owner[i] == q;
    assert i in maps.index && t.nodes[maps.index[i]].id == i;
    assert i !in t.accounts[r].nodes;
  }

  /** No two accounts share a node, so a change inside one account cannot unsettle another. */
  lemma SettledLocally(maps: Maps, t: Tables, u: Tables, r: Ref)
    requires maps.Agree(t) && Settled(maps.byId, t)
    requires Registered(maps.byId, t.accounts, r) && Local(t, u, r) && Cheapest(u.accounts[r], u.nodes)
    ensures Settled(maps.byId, u)
  {
    hide Consistent, Cheapest, IsNodeOf;
    forall q | Registered(maps.byId, u.accounts, q)
      ensures Cheapest(u.accounts[q], u.nodes)
    {
      if q != r {
        assert Registered(maps.byId, t.accounts, q);
        forall i | i in t.accounts[q].nodes
          ensures t.accounts[q].nodes[i] in t.nodes
                  && u.nodes[t.accounts[q].nodes[i]] == t.nodes[t.accounts[q].nodes[i]]
        {
          NodesNotShared(maps, t, r, q, i);
        }
        SameRecords(t.accounts[q], t.nodes, u.nodes);
      }
    }
  }

  lemma SameRecords(a: Account, h: NodeTable, g: NodeTable)
    requires Cheapest(a, h)
    requires forall i :: i in a.nodes ==> a.nodes[i] in h && a.nodes[i] in g && g[a.nodes[i]] == h[a.nodes[i]]
    ensures Cheapest(a, g)
  {
    assert forall i :: Eligible(a, g, i) ==> Eligible(a, h, i);
  }

  /** A reselection without warm-up settles the account. */
  lemma CheapestActivated(
    c: WarmupConfig, t: Tables, u: Tables, r: Ref,
    probes: (string, nat) -> Probe, best: Option<string>, warmed: seq<string>)
    requires Activation(c, t, u, r, {}, probes, best, warmed) && !c.enabled
    requires (t.accounts[r].activeId != "" ==> t.accounts[r].activeId in t.accounts[r].nodes)
             && "" !in t.accounts[r].nodes
    ensures Cheapest(u.accounts[r], u.nodes)
  {
  }

  // ---------- operations that may reselect ----------

  /** The FailedSet and the node records of an account agree. */
  ghost predicate Tracked(a: Account, h: NodeTable) {
    OwnRecords(a, h) && forall i :: i in a.failedSet <==> i in a.nodes && h[a.nodes[i]].failed
  }

  lemma RegisteredIsTracked(maps: Maps, t: Tables, r: Ref)
    requires maps.Agree(t) && Registered(maps.byId, t.accounts, r)
    ensures Tracked(t.accounts[r], t.nodes)
  {
    forall i | i in t.accounts[r].nodes
      ensures t.nodes[t.accounts[r].nodes[i]].id == i
    {
      assert i in maps.owner && maps.owner[i] == r;
      assert i in maps.index;
    }
  }

  /** The second half of an operation: reselect if the first half calls for it. */
  ghost predicate Reselected(
    c: WarmupConfig, needed: bool, t: Tables, u: Tables, r: Ref,
    probes: (string, nat) -> Probe, best: Option<string>, warmed: seq<string>)
  {
    if needed then Activation(c, t, u, r, {}, probes, best, warmed)
    else u.accounts == t.accounts && u.nodes == t.nodes && best == None && warmed == []
  }

  lemma NotReselected(
    c: WarmupConfig, t: Tables, u: Tables, r: Ref, probes: (string, nat) -> Probe, best: Option<string>,
    warmed: seq<string>)
    requires Reselected(c, false, t, u, r, probes, best, warmed)
    ensures u == t && best == None && warmed == []
  {
  }

  lemma ReselectedShape(
    c: WarmupConfig, needed: bool, t: Tables, u: Tables, r: Ref,
    probes: (string, nat) -> Probe, best: Option<string>, warmed: seq<string>)
    requires Reselected(c, needed, t, u, r, probes, best, warmed) && r in t.accounts
    ensures r in u.accounts && u.accounts[r].nodes == t.accounts[r].nodes && u.accounts[r].id == t.accounts[r].id
    ensures forall p :: p in t.nodes ==> p in u.nodes && u.nodes[p].weight == t.nodes[p].weight
  {
    if needed {
      forall p | p in t.nodes
        ensures p in u.nodes && u.nodes[p].weight == t.nodes[p].weight
      {
        assert SameNode(t.nodes[p], u.nodes[p]);
      }
    }
  }

  /** The first half of an operation on account `r`: it leaves the account settled or asks for a reselection. */
  ghost predicate Staged(t: Tables, u: Tables, r: Ref, needed: bool) {
    && Local(t, u, r)
    && (u.accounts[r].activeId != "" ==> u.accounts[r].activeId in u.accounts[r].nodes) && "" !in u.accounts[r].nodes
    && (!needed ==> Cheapest(u.accounts[r], u.nodes))
    && (forall i :: i in u.accounts[r].nodes && u.accounts[r].nodes[i] in t.nodes ==>
      i in t.accounts[r].nodes && t.accounts[r].nodes[i] == u.accounts[r].nodes[i])
    && (forall p :: p in t.nodes ==> u.nodes[p].id == t.nodes[p].id)
  }

  lemma SettledThrough(maps: Maps, c: WarmupConfig, t: Tables, u: Tables, v: Tables, r: Ref,
    needed: bool, probes: (string, nat) -> Probe, best: Option<string>, warmed: seq<string>)
    requires maps.Agree(t) && Settled(maps.byId, t) && Registered(maps.byId, t.accounts, r)
    requires Staged(t, u, r, needed) && Reselected(c, needed, u, v, r, probes, best, warmed) && !c.enabled
    ensures Settled(maps.byId, v)
  {
    hide Consistent, Settled, Local, Cheapest, Drift, Activation;
    if needed {
      CheapestActivated(c, u, v, r, probes, best, warmed);
      assert Local(u, v, r) by {
        ActivationDrifts(c, u, v, r, probes, best, warmed);
        DriftIsLocal(u, v, r);
      }
      LocalTransitive(t, u, v, r);
    }
    SettledLocally(maps, t, v, r);
  }

  lemma ActivationDrifts(
    c: WarmupConfig, t: Tables, u: Tables, r: Ref,
    probes: (string, nat) -> Probe, best: Option<string>, warmed: seq<string>)
    requires Activation(c, t, u, r, {}, probes, best, warmed)
    ensures Drift(t, u, r)
  {
  }

  lemma StagedAdd(t: Tables, r: Ref, i: string, p: Ref, n: Node)
    requires r in t.accounts && Tracked(t.accounts[r], t.nodes) && Cheapest(t.accounts[r], t.nodes)
    requires i !in t.accounts[r].nodes && i != "" && p !in t.nodes && !n.failed && !n.disabled
    ensures var u := Tables(t.accounts[r := t.accounts[r].(nodes := t.accounts[r].nodes[i := p])], t.nodes[p := n]);
            Complete(u.accounts[r], u.nodes) && Staged(t, u, r, Displaces(n, u.accounts[r], u.nodes))
  {
  }

  lemma RewriteStaged(t: Tables, r: Ref, i: string, n: Node)
    requires r in t.accounts && Tracked(t.accounts[r], t.nodes) && Cheapest(t.accounts[r], t.nodes)
             && i in t.accounts[r].nodes && n.id == i
    ensures var u := Tables(Follow(t.accounts, r, i, n.failed), t.nodes[t.accounts[r].nodes[i] := n]);
            && Staged(t, u, r, true)
            && forall j :: j != i ==>
                 && (Eligible(u.accounts[r], u.nodes, j) <==> Eligible(t.accounts[r], t.nodes, j))
                 && (j in t.accounts[r].nodes ==> u.nodes[t.accounts[r].nodes[j]] == t.nodes[t.accounts[r].nodes[j]])
  {
    forall j, k | j in t.accounts[r].nodes && k in t.accounts[r].nodes
      && t.accounts[r].nodes[j] == t.accounts[r].nodes[k]
      ensures j == k
    {
      assert t.nodes[t.accounts[r].nodes[j]].id == j;
    }
  }

  lemma StagedRewrite(t: Tables, r: Ref, i: string, n: Node)
    requires r in t.accounts && Tracked(t.accounts[r], t.nodes) && Cheapest(t.accounts[r], t.nodes)
             && i in t.accounts[r].nodes && n.id == i
    ensures var was := t.nodes[t.accounts[r].nodes[i]];
            var u := Tables(Follow(t.accounts, r, i, n.failed), t.nodes[t.accounts[r].nodes[i] := n]);
            && Staged(t, u, r, true)
            && (n == was ==> Staged(t, u, r, false))
            && (n == was.(disabled := true) ==> Staged(t, u, r, t.accounts[r].activeId == i))
            && (n == Checked(was, true) ==> Staged(t, u, r, Promotes(was, t.accounts[r], t.nodes)))
            && (n == Checked(was, false) ==> Staged(t, u, r, t.accounts[r].activeId == i))
  {
    hide Local;
    RewriteStaged(t, r, i, n);
  }

  /** The freshly enabled node `n` replaces the node in use. */
  predicate TakesOver(n: Node, cur: Option<string>, a: Account, h: NodeTable)
    requires Complete(a, h)
  {
    cur.None? || cur.value !in a.nodes || h[a.nodes[cur.value]].failed || n.weight < h[a.nodes[cur.value]].weight
  }

  function Enabled(n: Node): Node {
    n.(disabled := false, failed := false, failStreak := 0)
  }

  /** The node in use after asking for the active node of an account. */
  function InUse(a: Account, h: NodeTable, best: Option<string>): Option<string>
    requires Complete(a, h)
  {
    if HasUsableNode(a, h) then Some(a.activeId) else best
  }

  lemma ColdActivation(
    c: WarmupConfig, t: Tables, u: Tables, r: Ref, i: string,
    probes: (string, nat) -> Probe, best: Option<string>, warmed: seq<string>)
    requires Activation(c, t, u, r, {}, probes, best, warmed) && !c.enabled && r in t.accounts
             && Eligible(t.accounts[r], t.nodes, i)
    ensures u.nodes == t.nodes && best.Some? && u.accounts == t.accounts[r := t.accounts[r].(activeId := best.value)]
    ensures Eligible(t.accounts[r], t.nodes, best.value)
            && t.nodes[t.accounts[r].nodes[best.value]].weight <= t.nodes[t.accounts[r].nodes[i]].weight
  {
  }

  lemma LocalActive(t: Tables, u: Tables, r: Ref, i: string)
    requires Local(t, u, r)
    ensures r in u.accounts && Local(t, u.WithActive(r, i), r)
  {
  }

  /** Node `i` is enabled while another node is in use. */
  lemma EnabledBeside(a: Account, h: NodeTable, b: Account, g: NodeTable, i: string)
    requires Tracked(a, h) && Cheapest(a, h) && i in a.nodes && Complete(b, g) && HasUsableNode(b, g)
    requires b == a.(failedSet := a.failedSet - {i}) && a.activeId != i && a.activeId != ""
    requires Eligible(b, g, i)
    requires forall j :: j != i ==> (Eligible(b, g, j) <==> Eligible(a, h, j))
                                    && (j in a.nodes ==> g[a.nodes[j]] == h[a.nodes[j]])
    ensures var cur := g[b.nodes[b.activeId]];
            Cheapest(if g[b.nodes[i]].weight < cur.weight then b.(activeId := i) else b, g)
  {
    assert Eligible(a, h, a.activeId);
    assert forall j :: Eligible(b.(activeId := i), g, j) <==> Eligible(b, g, j);
  }

  lemma StagedEnable(
    c: WarmupConfig, t: Tables, r: Ref, i: string, v: Tables,
    probes: (string, nat) -> Probe, best: Option<string>, warmed: seq<string>)
    requires r in t.accounts && Tracked(t.accounts[r], t.nodes) && Cheapest(t.accounts[r], t.nodes)
             && i in t.accounts[r].nodes && !c.enabled
    requires var p := t.accounts[r].nodes[i];
             var u := Tables(Unlisted(t.accounts, r, i), t.nodes[p := Enabled(t.nodes[p])]);
             && Complete(u.accounts[r], u.nodes)
             && Reselected(c, !HasUsableNode(u.accounts[r], u.nodes), u, v, r, probes, best, warmed)
    ensures r in v.accounts && Complete(v.accounts[r], v.nodes)
    ensures var p := t.accounts[r].nodes[i];
            var u := Tables(Unlisted(t.accounts, r, i), t.nodes[p := Enabled(t.nodes[p])]);
            var takes := TakesOver(u.nodes[p], InUse(u.accounts[r], u.nodes, best), v.accounts[r], v.nodes);
            Staged(t, if takes then v.WithActive(r, i) else v, r, false)
  {
    hide Local, Activation;
    var n := Enabled(t.nodes[t.accounts[r].nodes[i]]);
    RewriteStaged(t, r, i, n);
    var u := Tables(Unlisted(t.accounts, r, i), t.nodes[t.accounts[r].nodes[i] := n]);
    var a := u.accounts[r];
    assert Eligible(a, u.nodes, i);
    if !HasUsableNode(a, u.nodes) {
      CheapestActivated(c, u, v, r, probes, best, warmed);
      ColdActivation(c, u, v, r, i, probes, best, warmed);
    }
    var w := if TakesOver(n, InUse(a, u.nodes, best), v.accounts[r], v.nodes) then v.WithActive(r, i) else v;
    LocalActive(t, u, r, v.accounts[r].activeId);
    LocalActive(t, u, r, i);
    assert v.nodes == u.nodes && forall j :: Eligible(w.accounts[r], v.nodes, j) <==> Eligible(a, u.nodes, j);
    if HasUsableNode(a, u.nodes) && a.activeId != i {
      EnabledBeside(t.accounts[r], t.nodes, a, u.nodes, i);
    }
  }

  /** Where nothing usable is active, a freshly enabled node that is cheaper than every other eligible one takes over
      even though it has just failed its warm-up, from the node that was chosen in its place or from none. */
  lemma EnabledThoughRefused(
    c: WarmupConfig, u: Tables, v: Tables, r: Ref, i: string,
    probes: (string, nat) -> Probe, best: Option<string>, warmed: seq<string>)
    requires r in u.accounts && Reselected(c, true, u, v, r, probes, best, warmed)
    requires Eligible(u.accounts[r], u.nodes, i) && !Passes(c, Of(probes, i))
    requires forall j :: Eligible(u.accounts[r], u.nodes, j) && j != i ==>
                           u.nodes[u.accounts[r].nodes[i]].weight < u.nodes[u.accounts[r].nodes[j]].weight
    requires r in v.accounts && Complete(v.accounts[r], v.nodes)
    ensures i in v.accounts[r].nodes && TakesOver(v.nodes[v.accounts[r].nodes[i]], best, v.accounts[r], v.nodes)
  {
    hide Passes, AfterProbes, Elapsed, NoBetterLeftOut;
    ReselectedShape(c, true, u, v, r, probes, best, warmed);
  }

  // ---------- operations that never reselect ----------

  lemma SettledDelete(maps: Maps, t: Tables, i: string)
    requires maps.Agree(t) && Settled(maps.byId, t) && i in maps.owner
    ensures maps.owner[i] in t.accounts
    ensures var a := t.accounts[maps.owner[i]];
            var b := a.(nodes := a.nodes - {i}, failedSet := a.failedSet - {i},
                activeId := if a.activeId == i then "" else a.activeId);
            Settled(maps.byId, t.(accounts := t.accounts[maps.owner[i] := b]))
  {
    hide Consistent;
    NodeFacts(maps.byId, maps.byKey, maps.index, maps.owner, t.accounts, t.nodes, i);
    var r := maps.owner[i];
    var a := t.accounts[r];
    var b := a.(nodes := a.nodes - {i}, failedSet := a.failedSet - {i},
                activeId := if a.activeId == i then "" else a.activeId);
    assert Cheapest(a, t.nodes);
    assert forall j :: Eligible(b, t.nodes, j) ==> Eligible(a, t.nodes, j);
    var u := t.(accounts := t.accounts[r := b]);
    assert Local(t, u, r);
    SettledLocally(maps, t, u, r);
  }

  /** Creating, renaming, rekeying and deleting accounts unsettles none of them. */
  lemma SettledAccounts(
    byId: map<string, Ref>, t: Tables, byId': map<string, Ref>, u: AccountTable)
    requires Settled(byId, t)
    requires forall q :: Registered(byId', u, q) ==>
               || (Registered(byId, t.accounts, q) && u[q] == t.accounts[q].(name := u[q].name,
                 proxyKey := u[q].proxyKey))
               || (u[q].activeId == "" && "" !in u[q].nodes)
    ensures Settled(byId', Tables(u, t.nodes))
  {
    forall q | Registered(byId', u, q)
      ensures Cheapest(u[q], t.nodes)
    {
      if Registered(byId, t.accounts, q) && u[q] == t.accounts[q].(name := u[q].name, proxyKey := u[q].proxyKey) {
        assert Cheapest(t.accounts[q], t.nodes);
        assert forall i :: Eligible(u[q], t.nodes, i) <==> Eligible(t.accounts[q], t.nodes, i);
      }
    }
  }

  // ---------- the same from the registry's point of view ----------

  lemma SettledAdd(maps: Maps, t: Tables, r: Ref, i: string, p: Ref, n: Node)
    requires maps.Agree(t) && Settled(maps.byId, t) && Registered(maps.byId, t.accounts, r)
    requires i !in maps.index && i != "" && p !in t.nodes && !n.failed && !n.disabled
    ensures var u := Tables(t.accounts[r := t.accounts[r].(nodes := t.accounts[r].nodes[i := p])], t.nodes[p := n]);
            Complete(u.accounts[r], u.nodes) && Staged(t, u, r, Displaces(n, u.accounts[r], u.nodes))
  {
    RegisteredIsTracked(maps, t, r);
    assert i in t.accounts[r].nodes ==> i in maps.owner;
    StagedAdd(t, r, i, p, n);
  }

  lemma SettledRewrite(maps: Maps, t: Tables, i: string, n: Node)
    requires maps.Agree(t) && Settled(maps.byId, t) && i in maps.index && n.id == i
    ensures i in maps.owner && maps.owner[i] in t.accounts && maps.index[i] in t.nodes
            && Complete(t.accounts[maps.owner[i]], t.nodes)
    ensures var r, was := maps.owner[i], t.nodes[maps.index[i]];
            var u := Tables(Follow(t.accounts, r, i, n.failed), t.nodes[maps.index[i] := n]);
            && Staged(t, u, r, true)
            && (n == was ==> Staged(t, u, r, false))
            && (n == was.(disabled := true) ==> Staged(t, u, r, t.accounts[r].activeId == i))
            && (n == Checked(was, true) ==> Staged(t, u, r, Promotes(was, t.accounts[r], t.nodes)))
            && (n == Checked(was, false) ==> Staged(t, u, r, t.accounts[r].activeId == i))
  {
    hide Consistent, Staged, Cheapest;
    NodeFacts(maps.byId, maps.byKey, maps.index, maps.owner, t.accounts, t.nodes, i);
    RegisteredIsTracked(maps, t, maps.owner[i]);
    StagedRewrite(t, maps.owner[i], i, n);
  }

  lemma SettledEnable(maps: Maps, c: WarmupConfig, t: Tables, i: string, v: Tables,
    probes: (string, nat) -> Probe, best: Option<string>, warmed: seq<string>)
    requires maps.Agree(t) && Settled(maps.byId, t) && i in maps.index && !c.enabled
    requires i in maps.owner && maps.owner[i] in t.accounts && maps.index[i] in t.nodes
    requires var r, p := maps.owner[i], maps.index[i];
             var u := Tables(Unlisted(t.accounts, r, i), t.nodes[p := Enabled(t.nodes[p])]);
             && Complete(u.accounts[r], u.nodes)
             && Reselected(c, !HasUsableNode(u.accounts[r], u.nodes), u, v, r, probes, best, warmed)
    ensures maps.owner[i] in v.accounts && Complete(v.accounts[maps.owner[i]], v.nodes) && maps.index[i] in v.nodes
    ensures var r, p := maps.owner[i], maps.index[i];
            var u := Tables(Unlisted(t.accounts, r, i), t.nodes[p := Enabled(t.nodes[p])]);
            var takes := TakesOver(v.nodes[p], InUse(u.accounts[r], u.nodes, best), v.accounts[r], v.nodes);
            Settled(maps.byId, if takes then v.WithActive(r, i) else v)
  {
    NodeFacts(maps.byId, maps.byKey, maps.index, maps.owner, t.accounts, t.nodes, i);
    var r := maps.owner[i];
    RegisteredIsTracked(maps, t, r);
    StagedEnable(c, t, r, i, v, probes, best, warmed);
    var u := Tables(Unlisted(t.accounts, r, i), t.nodes[maps.index[i] := Enabled(t.nodes[maps.index[i]])]);
    ReselectedShape(c, !HasUsableNode(u.accounts[r], u.nodes), u, v, r, probes, best, warmed);
    var takes := TakesOver(u.nodes[maps.index[i]], InUse(u.accounts[r], u.nodes, best), v.accounts[r], v.nodes);
    SettledLocally(maps, t, if takes then v.WithActive(r, i) else v, r);
  }
}
