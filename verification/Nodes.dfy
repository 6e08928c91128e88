/** Accounts, their upstream nodes and the maps that index them: every operation the server performs
    under its registry lock, each proved to keep the maps consistent. Node and account records live
    in two tables addressed by reference, so that the sharing of one record by several maps, and the
    possibility of the maps disagreeing, are part of the model. */
module Nodes {
  import opened Common

  const DEFAULT_ACCOUNT: string := "default"

  type Ref = nat

  datatype Node = Node(
    id: string,
    createdAt: int,
    accountId: string,
    weight: int,
    failed: bool,
    disabled: bool,
    failStreak: nat,
    requests: nat,
    failCount: nat)

  datatype Account = Account(
    id: string,
    name: string,
    proxyKey: string,
    failLimit: int,
    nodes: map<string, Ref>,
    activeId: string,
    failedSet: set<string>)

  type NodeTable = map<Ref, Node>
  type AccountTable = map<Ref, Account>

  datatype Outcome =
    | Done
    | NameRequired
    | KeyRequired
    | KeyExists
    | IdRequired
    | Forbidden
    | NotFound
    | AccountRequired
    | BadUrl

  // ---------- consistency ----------

  ghost predicate Registered(byId: map<string, Ref>, t: AccountTable, r: Ref) {
    r in t && t[r].id in byId && byId[t[r].id] == r
  }

  /** `byKey` maps each non-empty key to the one registered account that holds it. */
  ghost predicate KeysAgree(byId: map<string, Ref>, byKey: map<string, Ref>, t: AccountTable) {
    && (forall k :: k in byId ==> byId[k] in t && t[byId[k]].id == k)
    && (forall k :: k in byKey ==> k != "" && Registered(byId, t, byKey[k]) && t[byKey[k]].proxyKey == k)
    && (forall r :: Registered(byId, t, r) && t[r].proxyKey != "" ==>
          t[r].proxyKey in byKey && byKey[t[r].proxyKey] == r)
  }

  /** Every indexed node is the node of that id of a registered account, its owner. */
  ghost predicate IndexSound(
    byId: map<string, Ref>, index: map<string, Ref>, owner: map<string, Ref>, t: AccountTable, h: NodeTable)
  {
    && (forall i :: i in index <==> i in owner)
    && (forall i :: i in index ==>
          && index[i] in h && h[index[i]].id == i
          && Registered(byId, t, owner[i]) && h[index[i]].accountId == t[owner[i]].id
          && i in t[owner[i]].nodes && t[owner[i]].nodes[i] == index[i])
  }

  /** Every node of a registered account is indexed under that account. */
  ghost predicate IndexComplete(byId: map<string, Ref>, owner: map<string, Ref>, t: AccountTable) {
    forall r, i :: Registered(byId, t, r) && i in t[r].nodes ==> i in owner && owner[i] == r
  }

  /** `index` and `owner` hold exactly the nodes of registered accounts, each with its owner. */
  ghost predicate IndexAgrees(
    byId: map<string, Ref>, index: map<string, Ref>, owner: map<string, Ref>, t: AccountTable, h: NodeTable)
  {
    IndexSound(byId, index, owner, t, h) && IndexComplete(byId, owner, t)
  }

  /** Every FailedSet is exactly the account's failed nodes, and a failed node has a failure streak. */
  ghost predicate FailuresAgree(byId: map<string, Ref>, t: AccountTable, h: NodeTable) {
    && (forall r, i :: Registered(byId, t, r) && i in t[r].nodes ==> t[r].nodes[i] in h)
    && (forall r, i :: Registered(byId, t, r) ==>
          (i in t[r].failedSet <==> i in t[r].nodes && h[t[r].nodes[i]].failed))
    && (forall p :: p in h && h[p].failed ==> h[p].failStreak >= 1)
  }

  ghost predicate Consistent(
    byId: map<string, Ref>, byKey: map<string, Ref>, index: map<string, Ref>, owner: map<string, Ref>,
    t: AccountTable, h: NodeTable)
  {
    KeysAgree(byId, byKey, t) && IndexAgrees(byId, index, owner, t, h) && FailuresAgree(byId, t, h)
  }

  /** The records the maps refer to. */
  datatype Tables = Tables(accounts: AccountTable, nodes: NodeTable) {
    function WithActive(r: Ref, i: string): Tables
      requires r in accounts
    {
      this.(accounts := accounts[r := accounts[r].(activeId := i)])
    }

    function WithNode(p: Ref, n: Node): Tables {
      this.(nodes := nodes[p := n])
    }
  }

  /** The maps of the registry: accounts by id and by key, nodes by id, and whose they are. */
  datatype Maps = Maps(
    byId: map<string, Ref>, byKey: map<string, Ref>, index: map<string, Ref>, owner: map<string, Ref>)
  {
    ghost predicate Agree(t: Tables) {
      Consistent(byId, byKey, index, owner, t.accounts, t.nodes)
    }
  }

  /** The same accounts with the same identities, keys and nodes. */
  ghost predicate SameShape(t: AccountTable, u: AccountTable) {
    t.Keys == u.Keys &&
    forall r :: r in t ==> t[r].id == u[r].id && t[r].proxyKey == u[r].proxyKey && t[r].nodes == u[r].nodes
  }

  lemma KeysFrame(byId: map<string, Ref>, byKey: map<string, Ref>, t: AccountTable, u: AccountTable)
    requires KeysAgree(byId, byKey, t) && SameShape(t, u)
    ensures KeysAgree(byId, byKey, u)
  {
    forall r | Registered(byId, u, r)
      ensures Registered(byId, t, r)
    {
    }
  }

  lemma IndexFrame(
    byId: map<string, Ref>, index: map<string, Ref>, owner: map<string, Ref>,
    t: AccountTable, h: NodeTable, u: AccountTable, g: NodeTable)
    requires IndexAgrees(byId, index, owner, t, h) && SameShape(t, u)
    requires forall p :: p in h ==> p in g && g[p].id == h[p].id && g[p].accountId == h[p].accountId
    ensures IndexAgrees(byId, index, owner, u, g)
  {
    forall r | Registered(byId, u, r)
      ensures Registered(byId, t, r)
    {
    }
  }

  /** `u` is `t` except that node `i` is in its account's FailedSet exactly when `n` is failed. */
  ghost predicate FailedSetFollows(t: AccountTable, u: AccountTable, a: Ref, i: string, n: Node) {
    && SameShape(t, u) && a in t
    && (forall r :: r in t && r != a ==> u[r].failedSet == t[r].failedSet)
    && u[a].failedSet == if n.failed then t[a].failedSet + {i} else t[a].failedSet - {i}
  }

  lemma FailuresUpdate(
    byId: map<string, Ref>, index: map<string, Ref>, owner: map<string, Ref>,
    t: AccountTable, h: NodeTable, u: AccountTable, i: string, n: Node)
    requires IndexAgrees(byId, index, owner, t, h) && FailuresAgree(byId, t, h) && i in index
    requires (n.failed ==> n.failStreak >= 1) && n.id == i && FailedSetFollows(t, u, owner[i], i, n)
    ensures FailuresAgree(byId, u, h[index[i] := n])
  {
    forall r | Registered(byId, u, r)
      ensures Registered(byId, t, r)
    {
    }
    OthersElsewhere(byId, index, owner, t, h, i);
    FailuresElsewhere(byId, t, h, u, owner[i], i, index[i], n);
  }

  lemma FailuresElsewhere(
    byId: map<string, Ref>, t: AccountTable, h: NodeTable, u: AccountTable, a: Ref, i: string, p: Ref, n: Node)
    requires FailuresAgree(byId, t, h) && FailedSetFollows(t, u, a, i, n) && (n.failed ==> n.failStreak >= 1)
    requires i in t[a].nodes && t[a].nodes[i] == p
    requires forall r :: Registered(byId, u, r) ==> Registered(byId, t, r)
    requires forall r, j :: Registered(byId, t, r) && j in t[r].nodes ==> (t[r].nodes[j] == p <==> j == i)
    requires forall r :: Registered(byId, t, r) && i in t[r].nodes ==> r == a
    ensures FailuresAgree(byId, u, h[p := n])
  {
  }

  /** No other node of a registered account shares the record of node `i`. */
  lemma OthersElsewhere(
    byId: map<string, Ref>, index: map<string, Ref>, owner: map<string, Ref>, t: AccountTable, h: NodeTable, i: string)
    requires IndexAgrees(byId, index, owner, t, h) && i in index
    ensures forall r, j :: Registered(byId, t, r) && j in t[r].nodes ==>
                             t[r].nodes[j] in h && (t[r].nodes[j] == index[i] <==> j == i)
  {
    forall r, j | Registered(byId, t, r) && j in t[r].nodes
      ensures t[r].nodes[j] in h && (t[r].nodes[j] == index[i] <==> j == i)
    {
      assert j in owner && owner[j] == r;
      assert h[index[j]].id == j;
    }
  }

  /** Rewriting one indexed node and, with it, its account's FailedSet keeps the maps consistent. */
  lemma NodeUpdated(
    byId: map<string, Ref>, byKey: map<string, Ref>, index: map<string, Ref>, owner: map<string, Ref>,
    t: AccountTable, h: NodeTable, u: AccountTable, i: string, n: Node)
    requires Consistent(byId, byKey, index, owner, t, h) && i in index
    requires n.id == i && n.accountId == h[index[i]].accountId && (n.failed ==> n.failStreak >= 1)
    requires FailedSetFollows(t, u, owner[i], i, n)
    ensures Consistent(byId, byKey, index, owner, u, h[index[i] := n])
  {
    KeysFrame(byId, byKey, t, u);
    IndexFrame(byId, index, owner, t, h, u, h[index[i] := n]);
    FailuresUpdate(byId, index, owner, t, h, u, i, n);
  }

  /** An account, with the nodes it brings, whose id, key and node ids are not in use yet. */
  ghost predicate CanJoin(
    byId: map<string, Ref>, byKey: map<string, Ref>, index: map<string, Ref>, t: AccountTable, h: NodeTable, r: Ref)
  {
    && r in t && t[r].id !in byId && t[r].proxyKey !in byKey
    && (forall i :: i in t[r].nodes ==> i !in index && t[r].nodes[i] in h && h[t[r].nodes[i]].id == i)
    && (forall i :: i in t[r].failedSet <==> i in t[r].nodes && h[t[r].nodes[i]].failed)
  }

  /** The nodes of account `a` are stamped with its id. */
  function Stamped(h: NodeTable, a: Account, todo: set<string>): NodeTable {
    map p | p in h ::
      if h[p].id in a.nodes && h[p].id !in todo && a.nodes[h[p].id] == p then h[p].(accountId := a.id) else h[p]
  }

  function Entries(a: Account, todo: set<string>): map<string, Ref> {
    map i | i in a.nodes && i !in todo :: a.nodes[i]
  }

  function Owners(a: Account, r: Ref, todo: set<string>): map<string, Ref> {
    map i | i in a.nodes && i !in todo :: r
  }

  lemma StampOne(h: NodeTable, a: Account, r: Ref, todo: set<string>, i: string)
    requires i in todo && i in a.nodes && a.nodes[i] in h && h[a.nodes[i]].id == i
    ensures var g, p := Stamped(h, a, todo), a.nodes[i];
            p in g && Stamped(h, a, todo - {i}) == g[p := g[p].(accountId := a.id)]
    ensures Entries(a, todo - {i}) == Entries(a, todo)[i := a.nodes[i]]
    ensures Owners(a, r, todo - {i}) == Owners(a, r, todo)[i := r]
  {
  }

  lemma IndexBounds(h: NodeTable, m: map<string, Ref>, a: Account, r: Ref)
    ensures Stamped(h, a, a.nodes.Keys) == h
    ensures m + Entries(a, a.nodes.Keys) == m && m + Owners(a, r, a.nodes.Keys) == m
    ensures Entries(a, {}) == a.nodes
  {
    assert Entries(a, a.nodes.Keys) == map[] && Owners(a, r, a.nodes.Keys) == map[];
  }

  lemma PlusUpdate(m: map<string, Ref>, e: map<string, Ref>, i: string, x: Ref)
    ensures m + e[i := x] == (m + e)[i := x]
  {
  }

  lemma NothingToIndex(h: NodeTable, m: map<string, Ref>, a: Account, r: Ref)
    requires a.nodes == map[]
    ensures Stamped(h, a, {}) == h && m + a.nodes == m && m + Owners(a, r, {}) == m
  {
  }

  lemma Joined(
    byId: map<string, Ref>, byKey: map<string, Ref>, index: map<string, Ref>, owner: map<string, Ref>,
    t: AccountTable, h: NodeTable, r: Ref)
    requires Consistent(byId, byKey, index, owner, t, h) && CanJoin(byId, byKey, index, t, h, r)
    ensures var a := t[r];
            Consistent(byId[a.id := r], if a.proxyKey == "" then byKey else byKey[a.proxyKey := r],
                       index + a.nodes, owner + Owners(a, r, {}), t, Stamped(h, a, {}))
  {
    var a := t[r];
    var b := byId[a.id := r];
    forall q
      ensures Registered(b, t, q) <==> q == r || Registered(byId, t, q)
    {
    }
    JoinedKeys(byId, byKey, t, r);
    JoinedIndex(byId, index, owner, t, h, r);
    JoinedFailures(byId, t, h, r);
  }

  lemma JoinedKeys(byId: map<string, Ref>, byKey: map<string, Ref>, t: AccountTable, r: Ref)
    requires KeysAgree(byId, byKey, t) && r in t && t[r].id !in byId && t[r].proxyKey !in byKey
    requires forall q :: Registered(byId[t[r].id := r], t, q) <==> q == r || Registered(byId, t, q)
    ensures KeysAgree(byId[t[r].id := r], if t[r].proxyKey == "" then byKey else byKey[t[r].proxyKey := r], t)
  {
  }

  lemma JoinedFailures(byId: map<string, Ref>, t: AccountTable, h: NodeTable, r: Ref)
    requires FailuresAgree(byId, t, h) && CanJoin(byId, map[], map[], t, h, r)
    requires forall q :: Registered(byId[t[r].id := r], t, q) <==> q == r || Registered(byId, t, q)
    ensures FailuresAgree(byId[t[r].id := r], t, Stamped(h, t[r], {}))
  {
    StampedRecords(h, t[r]);
  }

  lemma StampedRecords(h: NodeTable, a: Account)
    ensures var g := Stamped(h, a, {});
            && g.Keys == h.Keys
            && (forall p :: p in h ==>
                  g[p].id == h[p].id && g[p].failed == h[p].failed && g[p].failStreak == h[p].failStreak)
            && (forall p :: p in h && h[p].id !in a.nodes ==> g[p] == h[p])
            && (forall i :: i in a.nodes && a.nodes[i] in h && h[a.nodes[i]].id == i ==>
              g[a.nodes[i]].accountId == a.id)
  {
  }

  lemma JoinedIndex(byId: map<string, Ref>, index: map<string, Ref>, owner: map<string, Ref>, t: AccountTable,
      h: NodeTable, r: Ref)
    requires IndexAgrees(byId, index, owner, t, h) && CanJoin(byId, map[], index, t, h, r)
    ensures IndexAgrees(byId[t[r].id := r], index + t[r].nodes, owner + Owners(t[r], r, {}), t, Stamped(h, t[r], {}))
  {
    StampedRecords(h, t[r]);
    forall q
      ensures Registered(byId[t[r].id := r], t, q) <==> q == r || Registered(byId, t, q)
    {
    }
    JoinedIndexWith(byId, index, owner, t, h, r, Stamped(h, t[r], {}), owner + Owners(t[r], r, {}));
  }

  lemma JoinedIndexWith(
    byId: map<string, Ref>, index: map<string, Ref>, owner: map<string, Ref>, t: AccountTable, h: NodeTable, r: Ref,
    g: NodeTable, o: map<string, Ref>)
    requires IndexAgrees(byId, index, owner, t, h) && CanJoin(byId, map[], index, t, h, r)
    requires forall q :: Registered(byId[t[r].id := r], t, q) <==> q == r || Registered(byId, t, q)
    requires o.Keys == owner.Keys + t[r].nodes.Keys
    requires forall i :: i in o ==> o[i] == if i in t[r].nodes then r else owner[i]
    requires forall p :: p in h ==> p in g && g[p].id == h[p].id
    requires forall p :: p in h && h[p].id !in t[r].nodes ==> g[p] == h[p]
    requires forall i :: i in t[r].nodes ==> g[t[r].nodes[i]].accountId == t[r].id
    ensures IndexAgrees(byId[t[r].id := r], index + t[r].nodes, o, t, g)
  {
    JoinedComplete(byId, owner, t, r, o);
    var x := index + t[r].nodes;
    assert forall i :: i in x ==> x[i] == if i in t[r].nodes then t[r].nodes[i] else index[i];
    assert forall i :: i in x <==> i in o;
  }

  lemma JoinedComplete(byId: map<string, Ref>, owner: map<string, Ref>, t: AccountTable, r: Ref, o: map<string, Ref>)
    requires IndexComplete(byId, owner, t) && r in t
    requires forall q :: Registered(byId[t[r].id := r], t, q) <==> q == r || Registered(byId, t, q)
    requires forall i :: i in t[r].nodes ==> i !in owner
    requires o.Keys == owner.Keys + t[r].nodes.Keys
    requires forall i :: i in o ==> o[i] == if i in t[r].nodes then r else owner[i]
    ensures IndexComplete(byId[t[r].id := r], o, t)
  {
  }

  lemma RekeyedKeys(byId: map<string, Ref>, byKey: map<string, Ref>, t: AccountTable, r: Ref, key: string)
    requires KeysAgree(byId, byKey, t) && Registered(byId, t, r)
    requires key != "" && (key in byKey ==> byKey[key] == r)
    ensures KeysAgree(byId, (byKey - {t[r].proxyKey})[key := r], t[r := t[r].(proxyKey := key)])
  {
    forall q
      ensures Registered(byId, t[r := t[r].(proxyKey := key)], q) <==> Registered(byId, t, q)
    {
    }
  }

  lemma Rekeyed(
    byId: map<string, Ref>, byKey: map<string, Ref>, index: map<string, Ref>, owner: map<string, Ref>,
    t: AccountTable, h: NodeTable, id: string, key: string)
    requires Consistent(byId, byKey, index, owner, t, h) && id in byId
    requires key != "" && (key in byKey ==> byKey[key] == byId[id])
    ensures byId[id] in t
    ensures var r := byId[id];
            Consistent(byId, (byKey - {t[r].proxyKey})[key := r], index, owner, t[r := t[r].(proxyKey := key)], h)
  {
    var r := byId[id];
    RekeyedKeys(byId, byKey, t, r, key);
    SameNodes(byId, index, owner, t, h, t[r := t[r].(proxyKey := key)]);
  }

  /** In consistent maps a key belongs to an account exactly when the ids match. */
  lemma KeyHolder(
    byId: map<string, Ref>, byKey: map<string, Ref>, index: map<string, Ref>, owner: map<string, Ref>,
    t: AccountTable, h: NodeTable, id: string, key: string)
    requires Consistent(byId, byKey, index, owner, t, h) && id in byId && key in byKey
    ensures byKey[key] in t && byId[id] in t && t[byId[id]].id == id
    ensures t[byKey[key]].id == id <==> byKey[key] == byId[id]
    ensures key == t[byId[id]].proxyKey ==> byKey[key] == byId[id]
    ensures key != ""
  {
  }

  lemma SameNodes(
    byId: map<string, Ref>, index: map<string, Ref>, owner: map<string, Ref>,
    t: AccountTable, h: NodeTable, u: AccountTable)
    requires IndexAgrees(byId, index, owner, t, h) && FailuresAgree(byId, t, h) && t.Keys == u.Keys
    requires forall r :: r in t ==> t[r].id == u[r].id && t[r].nodes == u[r].nodes && t[r].failedSet == u[r].failedSet
    ensures IndexAgrees(byId, index, owner, u, h) && FailuresAgree(byId, u, h)
  {
    forall q
      ensures Registered(byId, u, q) <==> Registered(byId, t, q)
    {
    }
  }

  lemma RegisteredAfterRemoval(byId: map<string, Ref>, byKey: map<string, Ref>, t: AccountTable, id: string, q: Ref)
    requires KeysAgree(byId, byKey, t) && id in byId
    ensures Registered(byId, t, byId[id])
    ensures Registered(byId - {id}, t, q) <==> Registered(byId, t, q) && q != byId[id]
  {
  }

  lemma RemovedKeys(byId: map<string, Ref>, byKey: map<string, Ref>, t: AccountTable, id: string)
    requires KeysAgree(byId, byKey, t) && id in byId
    ensures KeysAgree(byId - {id}, byKey - {t[byId[id]].proxyKey}, t)
  {
    forall q
      ensures Registered(byId - {id}, t, q) <==> Registered(byId, t, q) && q != byId[id]
    {
      RegisteredAfterRemoval(byId, byKey, t, id, q);
    }
    RegisteredAfterRemoval(byId, byKey, t, id, byId[id]);
  }

  lemma Removed(
    byId: map<string, Ref>, byKey: map<string, Ref>, index: map<string, Ref>, owner: map<string, Ref>,
    t: AccountTable, h: NodeTable, id: string)
    requires Consistent(byId, byKey, index, owner, t, h) && id in byId
    ensures var a := t[byId[id]];
            Consistent(byId - {id}, byKey - {a.proxyKey}, index - a.nodes.Keys, owner - a.nodes.Keys, t, h)
  {
    RemovedKeys(byId, byKey, t, id);
    RegisteredAfterRemoval(byId, byKey, t, id, byId[id]);
    forall q
      ensures Registered(byId - {id}, t, q) <==> Registered(byId, t, q) && q != byId[id]
    {
      RegisteredAfterRemoval(byId, byKey, t, id, q);
    }
    RemovedIndex(byId, index, owner, t, h, id);
  }

  lemma RemovedIndex(
    byId: map<string, Ref>, index: map<string, Ref>, owner: map<string, Ref>, t: AccountTable, h: NodeTable, id: string)
    requires IndexAgrees(byId, index, owner, t, h) && id in byId && Registered(byId, t, byId[id])
    requires forall q :: Registered(byId - {id}, t, q) <==> Registered(byId, t, q) && q != byId[id]
    ensures var a := t[byId[id]]; IndexAgrees(byId - {id}, index - a.nodes.Keys, owner - a.nodes.Keys, t, h)
  {
    var gone := t[byId[id]].nodes.Keys;
    forall i | i in owner
      ensures i in gone <==> owner[i] == byId[id]
    {
      assert i in index;
    }
    assert index.Keys - gone == (index - gone).Keys && owner.Keys - gone == (owner - gone).Keys;
  }

  /** The same registered accounts after account `r` changed its nodes. */
  lemma RegisteredAfterChange(byId: map<string, Ref>, t: AccountTable, r: Ref, a: Account, q: Ref)
    requires r in t && a.id == t[r].id
    ensures Registered(byId, t[r := a], q) <==> Registered(byId, t, q)
  {
  }

  lemma NodeAdded(
    byId: map<string, Ref>, byKey: map<string, Ref>, index: map<string, Ref>, owner: map<string, Ref>,
    t: AccountTable, h: NodeTable, r: Ref, i: string, p: Ref, n: Node)
    requires Consistent(byId, byKey, index, owner, t, h) && Registered(byId, t, r)
    requires i !in index && p !in h && n.id == i && n.accountId == t[r].id && !n.failed
    ensures Consistent(byId, byKey, index[i := p], owner[i := r],
                       t[r := t[r].(nodes := t[r].nodes[i := p])], h[p := n])
  {
    var a := t[r].(nodes := t[r].nodes[i := p]);
    forall q
      ensures Registered(byId, t[r := a], q) <==> Registered(byId, t, q)
    {
      RegisteredAfterChange(byId, t, r, a, q);
    }
    assert i !in t[r].nodes;
    KeysChange(byId, byKey, t, r, a);
    NodeAddedIndex(byId, index, owner, t, h, r, i, p, n);
    NodeAddedFailures(byId, t, h, r, i, p, n);
  }

  lemma KeysChange(byId: map<string, Ref>, byKey: map<string, Ref>, t: AccountTable, r: Ref, a: Account)
    requires KeysAgree(byId, byKey, t) && r in t && a.id == t[r].id && a.proxyKey == t[r].proxyKey
    ensures KeysAgree(byId, byKey, t[r := a])
  {
    forall q
      ensures Registered(byId, t[r := a], q) <==> Registered(byId, t, q)
    {
      RegisteredAfterChange(byId, t, r, a, q);
    }
  }

  lemma NodeAddedIndex(
    byId: map<string, Ref>, index: map<string, Ref>, owner: map<string, Ref>,
    t: AccountTable, h: NodeTable, r: Ref, i: string, p: Ref, n: Node)
    requires IndexAgrees(byId, index, owner, t, h) && Registered(byId, t, r)
    requires i !in index && p !in h && n.id == i && n.accountId == t[r].id
    requires var a := t[r].(nodes := t[r].nodes[i := p]);
             forall q :: Registered(byId, t[r := a], q) <==> Registered(byId, t, q)
    ensures IndexAgrees(byId, index[i := p], owner[i := r], t[r := t[r].(nodes := t[r].nodes[i := p])], h[p := n])
  {
  }

  lemma NodeAddedFailures(byId: map<string, Ref>, t: AccountTable, h: NodeTable, r: Ref, i: string, p: Ref, n: Node)
    requires FailuresAgree(byId, t, h) && Registered(byId, t, r) && i !in t[r].nodes && p !in h && !n.failed
    requires var a := t[r].(nodes := t[r].nodes[i := p]);
             forall q :: Registered(byId, t[r := a], q) <==> Registered(byId, t, q)
    ensures FailuresAgree(byId, t[r := t[r].(nodes := t[r].nodes[i := p])], h[p := n])
  {
  }

  ghost predicate Without(a: Account, b: Account, i: string) {
    a == b.(nodes := b.nodes - {i}, failedSet := b.failedSet - {i}, activeId := a.activeId)
  }

  lemma NodeRemoved(
    byId: map<string, Ref>, byKey: map<string, Ref>, index: map<string, Ref>, owner: map<string, Ref>,
    t: AccountTable, h: NodeTable, i: string, a: Account)
    requires Consistent(byId, byKey, index, owner, t, h) && i in index && Without(a, t[owner[i]], i)
    ensures Consistent(byId, byKey, index - {i}, owner - {i}, t[owner[i] := a], h)
  {
    forall q
      ensures Registered(byId, t[owner[i] := a], q) <==> Registered(byId, t, q)
    {
      RegisteredAfterChange(byId, t, owner[i], a, q);
    }
    KeysChange(byId, byKey, t, owner[i], a);
    NodeRemovedIndex(byId, index, owner, t, h, i, a);
    NodeRemovedFailures(byId, t, h, owner[i], i, a);
  }

  lemma NodeRemovedIndex(
    byId: map<string, Ref>, index: map<string, Ref>, owner: map<string, Ref>, t: AccountTable, h: NodeTable, i: string,
    a: Account)
    requires IndexAgrees(byId, index, owner, t, h) && i in index && Without(a, t[owner[i]], i)
    requires forall q :: Registered(byId, t[owner[i] := a], q) <==> Registered(byId, t, q)
    ensures IndexAgrees(byId, index - {i}, owner - {i}, t[owner[i] := a], h)
  {
  }

  lemma NodeRemovedFailures(byId: map<string, Ref>, t: AccountTable, h: NodeTable, r: Ref, i: string, a: Account)
    requires FailuresAgree(byId, t, h) && Registered(byId, t, r) && Without(a, t[r], i)
    requires forall q :: Registered(byId, t[r := a], q) <==> Registered(byId, t, q)
    ensures FailuresAgree(byId, t[r := a], h)
  {
  }

  /** What the maps say about one node id. */
  lemma NodeFacts(
    byId: map<string, Ref>, byKey: map<string, Ref>, index: map<string, Ref>, owner: map<string, Ref>,
    t: AccountTable, h: NodeTable, i: string)
    requires Consistent(byId, byKey, index, owner, t, h)
    ensures i in index <==> i in owner
    ensures i in index ==>
              && index[i] in h && h[index[i]].id == i && (h[index[i]].failed ==> h[index[i]].failStreak >= 1)
              && Registered(byId, t, owner[i]) && h[index[i]].accountId == t[owner[i]].id
              && i in t[owner[i]].nodes && t[owner[i]].nodes[i] == index[i]
              && (forall j :: j in t[owner[i]].nodes ==> t[owner[i]].nodes[j] in h)
  {
  }

  /** What the maps say about one account id. */
  lemma AccountFacts(
    byId: map<string, Ref>, byKey: map<string, Ref>, index: map<string, Ref>, owner: map<string, Ref>,
    t: AccountTable, h: NodeTable, id: string)
    requires Consistent(byId, byKey, index, owner, t, h) && id in byId
    ensures Registered(byId, t, byId[id]) && t[byId[id]].id == id
    ensures var key := t[byId[id]].proxyKey; key != "" ==> key in byKey && byKey[key] == byId[id]
    ensures forall j :: j in t[byId[id]].nodes ==> t[byId[id]].nodes[j] in h && h[t[byId[id]].nodes[j]].id == j
  {
    var r := byId[id];
    forall j | j in t[r].nodes
      ensures t[r].nodes[j] in h && h[t[r].nodes[j]].id == j
    {
      assert j in owner && owner[j] == r;
      assert j in index;
    }
  }

  // ---------- selection ----------

  /** A node requests may be routed to. */
  predicate Eligible(a: Account, h: NodeTable, i: string) {
    && i in a.nodes && a.nodes[i] in h
    && !h[a.nodes[i]].failed && !h[a.nodes[i]].disabled && i !in a.failedSet
  }

  /** The order in which nodes are preferred for activation: cheaper first, then older. */
  predicate Better(n: Node, m: Node) {
    n.weight < m.weight || (n.weight == m.weight && n.createdAt < m.createdAt)
  }

  ghost predicate Complete(a: Account, h: NodeTable) {
    forall i :: i in a.nodes ==> a.nodes[i] in h
  }

  /** Some cheapest eligible node outside `skip`; None exactly when every other node is failed or disabled. */
  method SelectHealthyNodeExcluding(a: Account, h: NodeTable, skip: set<string>) returns (best: Option<string>)
    requires Complete(a, h)
    ensures best.None? <==> forall i :: Eligible(a, h, i) ==> i in skip
    ensures best.None? ==>
              forall i :: i in a.nodes && i !in skip && i !in a.failedSet ==>
                h[a.nodes[i]].failed || h[a.nodes[i]].disabled
    ensures best.Some? ==>
              && Eligible(a, h, best.value) && best.value !in skip
              && !h[a.nodes[best.value]].failed && !h[a.nodes[best.value]].disabled && best.value !in a.failedSet
              && forall i :: Eligible(a, h, i) && i !in skip ==> h[a.nodes[best.value]].weight <= h[a.nodes[i]].weight
  {
    best := None;
    var todo := a.nodes.Keys;
    while todo != {}
      invariant todo <= a.nodes.Keys
      invariant best.None? ==> forall i :: Eligible(a, h, i) && i !in todo ==> i in skip
      invariant best.Some? ==>
                  && Eligible(a, h, best.value) && best.value !in skip
                  && forall i :: Eligible(a, h, i) && i !in skip && i !in todo ==>
                                   h[a.nodes[best.value]].weight <= h[a.nodes[i]].weight
      decreases |todo|
    {
      var i :| i in todo;
      todo := todo - {i};
      var n := h[a.nodes[i]];
      if n.failed || n.disabled || i in a.failedSet || i in skip {
        continue;
      }
      if best.None? || n.weight < h[a.nodes[best.value]].weight {
        best := Some(i);
      }
    }
  }

  /** A cheapest eligible node outside `skip`, the oldest of several; None exactly when there is none. */
  method SelectBestNodeExcluding(a: Account, h: NodeTable, skip: set<string>) returns (best: Option<string>)
    requires Complete(a, h)
    ensures best.None? <==> forall i :: Eligible(a, h, i) ==> i in skip
    ensures best.Some? ==>
              && Eligible(a, h, best.value) && best.value !in skip
              && !h[a.nodes[best.value]].failed && !h[a.nodes[best.value]].disabled && best.value !in a.failedSet
              && forall i :: Eligible(a, h, i) && i !in skip ==>
                               var b, n := h[a.nodes[best.value]], h[a.nodes[i]];
                               b.weight < n.weight || (b.weight == n.weight && b.createdAt <= n.createdAt)
  {
    best := None;
    var todo := a.nodes.Keys;
    while todo != {}
      invariant todo <= a.nodes.Keys
      invariant best.None? ==> forall i :: Eligible(a, h, i) && i !in todo ==> i in skip
      invariant best.Some? ==>
                  && Eligible(a, h, best.value) && best.value !in skip
                  && forall i :: Eligible(a, h, i) && i !in skip && i !in todo ==>
                                   var b, n := h[a.nodes[best.value]], h[a.nodes[i]];
                                   b.weight < n.weight || (b.weight == n.weight && b.createdAt <= n.createdAt)
      decreases |todo|
    {
      var i :| i in todo;
      todo := todo - {i};
      var n := h[a.nodes[i]];
      if n.failed || n.disabled || i in a.failedSet || i in skip {
        continue;
      }
      if best.None? || Better(n, h[a.nodes[best.value]]) {
        best := Some(i);
      }
    }
  }

  // ---------- the registry ----------

  /** A reference not in use. */
  method Unused(used: set<Ref>) returns (r: Ref)
    ensures r !in used
  {
    r := 0;
    var rest := used;
    while r in used
      invariant rest <= used && forall x :: x in used && x !in rest ==> x < r
      decreases |rest|
    {
      rest := rest - {r};
      r := r + 1;
    }
  }

  class Registry {
    var accountById: map<string, Ref>
    var accounts: map<string, Ref>
    var nodeIndex: map<string, Ref>
    var nodeAccount: map<string, Ref>
    var accountTable: AccountTable
    var nodeTable: NodeTable
    var defaultAccount: Option<Ref>
    var failLimit: int

    ghost predicate Valid()
      reads this
    {
      Consistent(accountById, accounts, nodeIndex, nodeAccount, accountTable, nodeTable)
    }

    ghost function AllMaps(): Maps
      reads this
    {
      Maps(accountById, accounts, nodeIndex, nodeAccount)
    }

    ghost function View(): Tables
      reads this
    {
      Tables(accountTable, nodeTable)
    }

    constructor ()
      ensures Valid() && accountById == map[] && nodeIndex == map[] && defaultAccount == None
    {
      accountById, accounts, nodeIndex, nodeAccount := map[], map[], map[], map[];
      accountTable, nodeTable := map[], map[];
      defaultAccount, failLimit := None, 0;
    }

    /** What the maps say about node `i`. */
    lemma LookUp(i: string)
      requires Valid()
      ensures i in nodeIndex <==> i in nodeAccount
      ensures i in nodeIndex ==>
                && nodeIndex[i] in nodeTable && nodeTable[nodeIndex[i]].id == i
                && Registered(accountById, accountTable, nodeAccount[i])
                && i in accountTable[nodeAccount[i]].nodes && accountTable[nodeAccount[i]].nodes[i] == nodeIndex[i]
                && accountTable == (if nodeTable[nodeIndex[i]].failed then Listed(accountTable, nodeAccount[i], i)
                                    else Unlisted(accountTable, nodeAccount[i], i))
    {
      hide Consistent;
      NodeFacts(accountById, accounts, nodeIndex, nodeAccount, accountTable, nodeTable, i);
      if i in nodeIndex {
        AlreadyListed(accountById, accounts, nodeIndex, nodeAccount, accountTable, nodeTable, i);
      }
    }

    /** What the maps say about the nodes of a registered account. */
    lemma LookUpAccount(r: Ref)
      requires Valid() && Registered(accountById, accountTable, r)
      ensures var a := accountTable[r];
              && (forall i :: i in a.nodes ==>
                    i in nodeIndex && nodeIndex[i] == a.nodes[i] && i in nodeAccount && nodeAccount[i] == r
                    && a.nodes[i] in nodeTable && nodeTable[a.nodes[i]].id == i)
              && (forall i :: i in a.nodes ==> (i in a.failedSet <==> nodeTable[a.nodes[i]].failed))
    {
      forall i | i in accountTable[r].nodes
        ensures i in nodeIndex && nodeIndex[i] == accountTable[r].nodes[i] && nodeAccount[i] == r
      {
        assert i in nodeAccount && nodeAccount[i] == r;
        assert i in nodeIndex;
      }
    }

    // ---------- accounts ----------

    /** Enters an account and the nodes it brings into the maps, over whatever they hold under its id, its key and its
        nodes' ids. If they hold nothing there, the maps still agree. */
    method RegisterAccount(r: Ref)
      requires r in accountTable
      requires var a := accountTable[r];
               forall i :: i in a.nodes ==> a.nodes[i] in nodeTable && nodeTable[a.nodes[i]].id == i
      modifies this`accountById, this`accounts, this`nodeIndex, this`nodeAccount, this`nodeTable
      modifies this`defaultAccount, this`failLimit
      ensures old(Valid() && CanJoin(accountById, accounts, nodeIndex, accountTable, nodeTable, r)) ==> Valid()
      ensures var a := accountTable[r];
              && accountById == old(accountById)[a.id := r]
              && accounts == (if a.proxyKey == "" then old(accounts) else old(accounts)[a.proxyKey := r])
              && nodeIndex == old(nodeIndex) + a.nodes && nodeAccount == old(nodeAccount) + Owners(a, r, {})
              && nodeTable == Stamped(old(nodeTable), a, {})
              && defaultAccount == (if a.id == DEFAULT_ACCOUNT then Some(r) else old(defaultAccount))
              && failLimit == (if a.id == DEFAULT_ACCOUNT then a.failLimit else old(failLimit))
    {
      hide Consistent, CanJoin;
      if Valid() && CanJoin(accountById, accounts, nodeIndex, accountTable, nodeTable, r) {
        Joined(accountById, accounts, nodeIndex, nodeAccount, accountTable, nodeTable, r);
      }
      EnterAccount(r);
      IndexNodes(accountTable[r], r);
    }

    /** The part of RegisterAccount that concerns the account itself. */
    method EnterAccount(r: Ref)
      requires r in accountTable
      modifies this`accountById, this`accounts, this`defaultAccount, this`failLimit
      ensures var a := accountTable[r];
              && accountById == old(accountById)[a.id := r]
              && accounts == (if a.proxyKey == "" then old(accounts) else old(accounts)[a.proxyKey := r])
              && defaultAccount == (if a.id == DEFAULT_ACCOUNT then Some(r) else old(defaultAccount))
              && failLimit == (if a.id == DEFAULT_ACCOUNT then a.failLimit else old(failLimit))
    {
      var a := accountTable[r];
      accountById := accountById[a.id := r];
      if a.proxyKey != "" {
        accounts := accounts[a.proxyKey := r];
      }
      if a.id == DEFAULT_ACCOUNT {
        defaultAccount := Some(r);
        failLimit := a.failLimit;
      }
    }

    /** The loop of RegisterAccount over the nodes the account brings. */
    method IndexNodes(a: Account, r: Ref)
      requires forall i :: i in a.nodes ==> a.nodes[i] in nodeTable && nodeTable[a.nodes[i]].id == i
      modifies this`nodeIndex, this`nodeAccount, this`nodeTable
      ensures nodeIndex == old(nodeIndex) + a.nodes
      ensures nodeAccount == old(nodeAccount) + Owners(a, r, {})
      ensures nodeTable == Stamped(old(nodeTable), a, {})
    {
      var todo := a.nodes.Keys;
      IndexBounds(nodeTable, nodeIndex, a, r);
      IndexBounds(nodeTable, nodeAccount, a, r);
      while todo != {}
        invariant todo <= a.nodes.Keys
        invariant nodeIndex == old(nodeIndex) + Entries(a, todo)
        invariant nodeAccount == old(nodeAccount) + Owners(a, r, todo)
        invariant nodeTable == Stamped(old(nodeTable), a, todo)
        decreases |todo|
      {
        var i :| i in todo;
        StampOne(old(nodeTable), a, r, todo, i);
        PlusUpdate(old(nodeIndex), Entries(a, todo), i, a.nodes[i]);
        PlusUpdate(old(nodeAccount), Owners(a, r, todo), i, r);
        todo := todo - {i};
        nodeIndex := nodeIndex[i := a.nodes[i]];
        nodeAccount := nodeAccount[i := r];
        var p := a.nodes[i];
        nodeTable := nodeTable[p := nodeTable[p].(accountId := a.id)];
      }
    }

    /** `freshId` is the clock-derived identifier of the new account. */
    method CreateAccount(name: string, key: string, freshId: string) returns (result: Outcome)
      requires Valid() && freshId !in accountById
      modifies this
      ensures Valid()
      ensures result == if name == "" then NameRequired else if key == "" then KeyRequired
                        else if key in old(accounts) then KeyExists else Done
      ensures result != Done ==>
                accountById == old(accountById) && accounts == old(accounts) && accountTable == old(accountTable)
      ensures result == Done ==>
                && freshId in accountById && accountById[freshId] !in old(accountTable)
                && accountById == old(accountById)[freshId := accountById[freshId]]
                && accounts == old(accounts)[key := accountById[freshId]]
                && accountTable ==
                   old(accountTable)[accountById[freshId] := Account(freshId, name, key, old(failLimit), map[], "", {})]
      ensures nodeIndex == old(nodeIndex) && nodeAccount == old(nodeAccount) && nodeTable == old(nodeTable)
    {
      hide Consistent;
      if name == "" {
        return NameRequired;
      }
      if key == "" {
        return KeyRequired;
      }
      if key in accounts {
        return KeyExists;
      }
      var r := Unused(accountTable.Keys);
      var a := Account(freshId, name, key, failLimit, map[], "", {});
      AccountAllocated(accountById, accounts, nodeIndex, nodeAccount, accountTable, nodeTable, r, a);
      NothingToIndex(nodeTable, nodeIndex, a, r);
      NothingToIndex(nodeTable, nodeAccount, a, r);
      accountTable := accountTable[r := a];
      RegisterAccount(r);
      result := Done;
    }

    /** A key change is refused when another account holds the key; the name is changed even then. */
    method UpdateAccount(id: string, name: string, key: string) returns (result: Outcome)
      requires Valid()
      modifies this`accounts, this`accountTable
      ensures Valid()
      ensures result == if id !in accountById then NotFound
                        else if key != "" && key in old(accounts) && old(accounts)[key] != accountById[id]
                        then KeyExists
                        else Done
      ensures result == NotFound ==> accountTable == old(accountTable)
      ensures result != NotFound ==>
                var a := old(accountTable)[accountById[id]];
                accountTable == old(accountTable)[accountById[id] :=
                  a.(name := if name == "" then a.name else name,
                     proxyKey := if key == "" || result == KeyExists then a.proxyKey else key)]
      ensures result != Done || key == "" ==> accounts == old(accounts)
      ensures result == Done && key != "" ==>
                accounts == (old(accounts) - {old(accountTable)[accountById[id]].proxyKey})[key := accountById[id]]
    {
      hide Consistent;
      if id !in accountById {
        return NotFound;
      }
      AccountFacts(accountById, accounts, nodeIndex, nodeAccount, accountTable, nodeTable, id);
      Rename(id, name);
      AccountFacts(accountById, accounts, nodeIndex, nodeAccount, accountTable, nodeTable, id);
      var r := accountById[id];
      var a := accountTable[r];
      if key in accounts {
        KeyHolder(accountById, accounts, nodeIndex, nodeAccount, accountTable, nodeTable, id, key);
      }
      if key == "" || key == a.proxyKey {
        return Done;
      }
      if key in accounts && accountTable[accounts[key]].id != a.id {
        return KeyExists;
      }
      Rekeyed(accountById, accounts, nodeIndex, nodeAccount, accountTable, nodeTable, id, key);
      accounts := accounts - {a.proxyKey};
      accountTable := accountTable[r := a.(proxyKey := key)];
      accounts := accounts[key := r];
      result := Done;
    }

    method Rename(id: string, name: string)
      requires Valid() && id in accountById
      modifies this`accountTable
      ensures Valid()
      ensures var a := old(accountTable)[accountById[id]];
              accountTable == old(accountTable)[accountById[id] := a.(name := if name == "" then a.name else name)]
    {
      hide Consistent;
      AccountFacts(accountById, accounts, nodeIndex, nodeAccount, accountTable, nodeTable, id);
      var r := accountById[id];
      var a := accountTable[r];
      if name != "" {
        a := a.(name := name);
        Renamed(accountById, accounts, nodeIndex, nodeAccount, accountTable, nodeTable, r, a);
        accountTable := accountTable[r := a];
      }
    }

    method DeleteAccount(id: string) returns (result: Outcome)
      requires Valid()
      modifies this`accountById, this`accounts, this`nodeIndex, this`nodeAccount
      ensures Valid()
      ensures result == if id == "" then IdRequired else if id == DEFAULT_ACCOUNT then Forbidden
                        else if id !in old(accountById) then NotFound else Done
      ensures result != Done ==> accountById == old(accountById) && accounts == old(accounts)
                                 && nodeIndex == old(nodeIndex) && nodeAccount == old(nodeAccount)
      ensures result == Done ==>
                var a := accountTable[old(accountById)[id]];
                && accountById == old(accountById) - {id} && accounts == old(accounts) - {a.proxyKey}
                && nodeIndex == old(nodeIndex) - a.nodes.Keys && nodeAccount == old(nodeAccount) - a.nodes.Keys
    {
      hide Consistent;
      if id == "" {
        return IdRequired;
      }
      if id == DEFAULT_ACCOUNT {
        return Forbidden;
      }
      if id !in accountById {
        return NotFound;
      }
      AccountFacts(accountById, accounts, nodeIndex, nodeAccount, accountTable, nodeTable, id);
      Removed(accountById, accounts, nodeIndex, nodeAccount, accountTable, nodeTable, id);
      var a := accountTable[accountById[id]];
      UnindexNodes(a);
      accounts := accounts - {a.proxyKey};
      accountById := accountById - {id};
      result := Done;
    }

    /** The loop of DeleteAccount over the nodes of the account. */
    method UnindexNodes(a: Account)
      modifies this`nodeIndex, this`nodeAccount
      ensures nodeIndex == old(nodeIndex) - a.nodes.Keys && nodeAccount == old(nodeAccount) - a.nodes.Keys
    {
      var todo := a.nodes.Keys;
      while todo != {}
        invariant todo <= a.nodes.Keys
        invariant nodeIndex == old(nodeIndex) - (a.nodes.Keys - todo)
        invariant nodeAccount == old(nodeAccount) - (a.nodes.Keys - todo)
        decreases |todo|
      {
        var i :| i in todo;
        todo := todo - {i};
        nodeIndex := nodeIndex - {i};
        nodeAccount := nodeAccount - {i};
      }
    }

    // ---------- nodes ----------

    /** `freshId` is the clock-derived identifier of the new node. The caller reselects when the new
        node is cheaper than the active one or there is no usable active node. */
    method AddNode(accountId: string, url: string, parses: bool, weight: int, freshId: string, now: int)
      returns (result: Outcome, reselect: bool)
      requires Valid() && freshId !in nodeIndex
      modifies this`nodeIndex, this`nodeAccount, this`accountTable, this`nodeTable
      ensures Valid()
      ensures result == if accountId !in accountById then AccountRequired
                        else if url == "" || !parses then BadUrl else Done
      ensures result != Done ==>
                !reselect && nodeIndex == old(nodeIndex) && nodeAccount == old(nodeAccount)
                && accountTable == old(accountTable) && nodeTable == old(nodeTable)
      ensures result == Done ==>
                var r := accountById[accountId];
                var a := old(accountTable)[r];
                && freshId in nodeIndex && nodeIndex[freshId] !in old(nodeTable)
                && nodeTable == old(nodeTable)[nodeIndex[freshId] := nodeTable[nodeIndex[freshId]]]
                && var n := nodeTable[nodeIndex[freshId]];
                && n.id == freshId && n.createdAt == now && n.accountId == accountId
                && n.weight == (if weight <= 0 then 1 else weight)
                && !n.failed && !n.disabled && n.failStreak == 0 && n.requests == 0 && n.failCount == 0
                && nodeIndex == old(nodeIndex)[freshId := nodeIndex[freshId]]
                && nodeAccount == old(nodeAccount)[freshId := r]
                && accountTable == old(accountTable)[r := a.(nodes := a.nodes[freshId := nodeIndex[freshId]])]
                && (reselect <==> Displaces(n, accountTable[r], nodeTable))
                && (!reselect <==>
                      && a.activeId in a.nodes.Keys + {freshId}
                      && var cur := nodeTable[accountTable[r].nodes[a.activeId]];
                         !cur.failed && !cur.disabled && n.weight >= cur.weight)
    {
      hide Consistent;
      if accountId !in accountById {
        return AccountRequired, false;
      }
      AccountFacts(accountById, accounts, nodeIndex, nodeAccount, accountTable, nodeTable, accountId);
      if url == "" || !parses {
        return BadUrl, false;
      }
      var r := accountById[accountId];
      var a := accountTable[r];
      var n := Node(freshId, now, accountId, if weight <= 0 then 1 else weight, false, false, 0, 0, 0);
      var p := Unused(nodeTable.Keys);
      NodeAdded(accountById, accounts, nodeIndex, nodeAccount, accountTable, nodeTable, r, freshId, p, n);
      accountTable := accountTable[r := a.(nodes := a.nodes[freshId := p])];
      nodeTable := nodeTable[p := n];
      nodeIndex := nodeIndex[freshId := p];
      nodeAccount := nodeAccount[freshId := r];
      return Done, Displaces(n, accountTable[r], nodeTable);
    }

    method UpdateNode(i: string, url: string, parses: bool, weight: int) returns (result: Outcome, reselect: bool)
      requires Valid()
      modifies this`nodeTable, this`accountTable
      ensures Valid() && accountTable == old(accountTable)
      ensures result == if url == "" || !parses then BadUrl else if i !in nodeIndex then NotFound else Done
      ensures result != Done ==> nodeTable == old(nodeTable) && !reselect
      ensures result == Done ==>
                var n := old(nodeTable)[nodeIndex[i]].(weight := if weight <= 0 then 1 else weight);
                nodeTable == old(nodeTable)[nodeIndex[i] := n]
                  && (reselect <==> n.weight != old(nodeTable)[nodeIndex[i]].weight)
    {
      hide Consistent;
      NodeFacts(accountById, accounts, nodeIndex, nodeAccount, accountTable, nodeTable, i);
      if url == "" || !parses {
        return BadUrl, false;
      }
      if i !in nodeIndex {
        return NotFound, false;
      }
      var before := nodeTable[nodeIndex[i]];
      Rewrite(i, before.(weight := if weight <= 0 then 1 else weight));
      return Done, before.weight != nodeTable[nodeIndex[i]].weight;
    }

    method DeleteNode(i: string) returns (result: Outcome)
      requires Valid()
      modifies this`nodeIndex, this`nodeAccount, this`accountTable
      ensures Valid()
      ensures result == if i in old(nodeIndex) then Done else NotFound
      ensures nodeIndex == old(nodeIndex) - {i} && nodeAccount == old(nodeAccount) - {i}
      ensures result == NotFound ==> accountTable == old(accountTable)
      ensures result == Done ==>
                var r := old(nodeAccount)[i];
                var a := old(accountTable)[r];
                accountTable == old(accountTable)[r :=
                  a.(nodes := a.nodes - {i}, failedSet := a.failedSet - {i},
                     activeId := if a.activeId == i then "" else a.activeId)]
    {
      hide Consistent;
      NodeFacts(accountById, accounts, nodeIndex, nodeAccount, accountTable, nodeTable, i);
      if i !in nodeIndex {
        return NotFound;
      }
      var r := nodeAccount[i];
      var a := accountTable[r];
      a := a.(nodes := a.nodes - {i});
      a := a.(failedSet := a.failedSet - {i});
      if a.activeId == i {
        a := a.(activeId := "");
      }
      NodeRemoved(accountById, accounts, nodeIndex, nodeAccount, accountTable, nodeTable, i, a);
      accountTable := accountTable[r := a];
      nodeIndex := nodeIndex - {i};
      nodeAccount := nodeAccount - {i};
      result := Done;
    }

    /** Makes `i` the active node of account `r`, whatever its state. */
    method SetActive(r: Ref, i: string)
      requires Valid() && r in accountTable
      modifies this`accountTable
      ensures Valid()
      ensures accountTable == old(accountTable)[r := old(accountTable)[r].(activeId := i)]
    {
      hide Consistent;
      Activated(accountById, accounts, nodeIndex, nodeAccount, accountTable, nodeTable, r, i);
      accountTable := accountTable[r := accountTable[r].(activeId := i)];
    }

    method Activate(i: string) returns (result: Outcome)
      requires Valid()
      modifies this`accountTable
      ensures Valid()
      ensures result == if i in nodeIndex then Done else NotFound
      ensures result == NotFound ==> accountTable == old(accountTable)
      ensures result == Done ==>
                accountTable == old(accountTable)[nodeAccount[i] := old(accountTable)[nodeAccount[i]].(activeId := i)]
    {
      hide Consistent;
      NodeFacts(accountById, accounts, nodeIndex, nodeAccount, accountTable, nodeTable, i);
      if i !in nodeAccount || i !in accountTable[nodeAccount[i]].nodes {
        return NotFound;
      }
      SetActive(nodeAccount[i], i);
      result := Done;
    }

    method DisableNode(i: string) returns (result: Outcome, wasActive: bool)
      requires Valid()
      modifies this`nodeTable, this`accountTable
      ensures Valid() && accountTable == old(accountTable)
      ensures result == if i in nodeIndex then Done else NotFound
      ensures nodeTable == if result == NotFound then old(nodeTable)
                           else old(nodeTable)[nodeIndex[i] := old(nodeTable)[nodeIndex[i]].(disabled := true)]
      ensures wasActive <==> result == Done && accountTable[nodeAccount[i]].activeId == i
    {
      hide Consistent;
      NodeFacts(accountById, accounts, nodeIndex, nodeAccount, accountTable, nodeTable, i);
      if i !in nodeIndex {
        return NotFound, false;
      }
      Rewrite(i, nodeTable[nodeIndex[i]].(disabled := true));
      return Done, accountTable[nodeAccount[i]].activeId == i;
    }

    method EnableNode(i: string) returns (result: Outcome)
      requires Valid()
      modifies this`nodeTable, this`accountTable
      ensures Valid()
      ensures result == if i in nodeIndex then Done else NotFound
      ensures result == NotFound ==> nodeTable == old(nodeTable) && accountTable == old(accountTable)
      ensures result == Done ==>
                && nodeTable == old(nodeTable)[nodeIndex[i] :=
                     old(nodeTable)[nodeIndex[i]].(disabled := false, failed := false, failStreak := 0)]
                && accountTable == Unlisted(old(accountTable), nodeAccount[i], i)
    {
      hide Consistent;
      NodeFacts(accountById, accounts, nodeIndex, nodeAccount, accountTable, nodeTable, i);
      if i !in nodeIndex {
        return NotFound;
      }
      Rewrite(i, nodeTable[nodeIndex[i]].(disabled := false, failed := false, failStreak := 0));
      result := Done;
    }

    // ---------- what requests and health checks do to a node ----------

    /** Stores a new record for node `i` and enters it in, or strikes it from, the FailedSet. */
    method Rewrite(i: string, n: Node)
      requires Valid() && i in nodeIndex && n.id == i && n.accountId == nodeTable[nodeIndex[i]].accountId
      requires n.failed ==> n.failStreak >= 1
      modifies this`nodeTable, this`accountTable
      ensures Valid()
      ensures nodeTable == old(nodeTable)[nodeIndex[i] := n]
      ensures accountTable == if n.failed then Listed(old(accountTable), nodeAccount[i], i)
                              else Unlisted(old(accountTable), nodeAccount[i], i)
      ensures n.failed == old(nodeTable)[nodeIndex[i]].failed ==> accountTable == old(accountTable)
    {
      hide Consistent;
      NodeFacts(accountById, accounts, nodeIndex, nodeAccount, accountTable, nodeTable, i);
      var r := nodeAccount[i];
      var a := accountTable[r];
      Rewritten(accountById, accounts, nodeIndex, nodeAccount, accountTable, nodeTable, i, n);
      accountTable := accountTable[r := a.(failedSet := if n.failed then a.failedSet + {i} else a.failedSet - {i})];
      nodeTable := nodeTable[nodeIndex[i] := n];
    }

    /** Counts one more failure; true when the streak has reached the limit (at least 1). */
    method ShouldFail(i: string) returns (reached: bool)
      requires Valid()
      modifies this`nodeTable, this`accountTable
      ensures Valid() && accountTable == old(accountTable)
      ensures nodeTable == if i !in nodeIndex then old(nodeTable)
                           else var n := old(nodeTable)[nodeIndex[i]];
                                old(nodeTable)[nodeIndex[i] := n.(failStreak := n.failStreak + 1)]
      ensures reached <==>
              i in nodeIndex && nodeTable[nodeIndex[i]].failStreak >= if failLimit < 1 then 1 else failLimit
    {
      hide Consistent;
      NodeFacts(accountById, accounts, nodeIndex, nodeAccount, accountTable, nodeTable, i);
      if i !in nodeIndex {
        return false;
      }
      var n := nodeTable[nodeIndex[i]];
      Rewrite(i, n.(failStreak := n.failStreak + 1));
      var limit := failLimit;
      if limit < 1 {
        limit := 1;
      }
      return n.failStreak + 1 >= limit;
    }

    /** Marks a node failed, in its record and in its account's FailedSet. */
    method MarkFailed(i: string)
      requires Valid()
      modifies this`nodeTable, this`accountTable
      ensures Valid()
      ensures i !in nodeIndex ==> nodeTable == old(nodeTable) && accountTable == old(accountTable)
      ensures i in nodeIndex ==>
                var n := old(nodeTable)[nodeIndex[i]];
                && nodeTable == old(nodeTable)[nodeIndex[i] :=
                     n.(failed := true, failStreak := if n.failStreak == 0 then 1 else n.failStreak)]
                && accountTable == Listed(old(accountTable), nodeAccount[i], i)
    {
      hide Consistent;
      NodeFacts(accountById, accounts, nodeIndex, nodeAccount, accountTable, nodeTable, i);
      if i in nodeIndex {
        var n := nodeTable[nodeIndex[i]];
        if n.failStreak == 0 {
          n := n.(failStreak := 1);
        }
        Rewrite(i, n.(failed := true));
      }
    }

    /** Counts a finished attempt; a 200 clears the failure state whatever it was. */
    method RecordMetrics(i: string, status: int)
      requires Valid()
      modifies this`nodeTable, this`accountTable
      ensures Valid()
      ensures i !in nodeIndex ==> nodeTable == old(nodeTable) && accountTable == old(accountTable)
      ensures i in nodeIndex ==>
                var n := old(nodeTable)[nodeIndex[i]];
                nodeTable == old(nodeTable)[nodeIndex[i] :=
                  if status == 200 then n.(requests := n.requests + 1, failed := false, failStreak := 0)
                  else n.(requests := n.requests + 1, failCount := n.failCount + 1)]
      ensures i in nodeIndex ==>
                accountTable == if status == 200 then Unlisted(old(accountTable), nodeAccount[i], i)
                  else old(accountTable)
    {
      hide Consistent;
      NodeFacts(accountById, accounts, nodeIndex, nodeAccount, accountTable, nodeTable, i);
      if i in nodeIndex {
        var n := nodeTable[nodeIndex[i]];
        if status != 200 {
          Rewrite(i, n.(requests := n.requests + 1, failCount := n.failCount + 1));
        } else {
          Rewrite(i, n.(requests := n.requests + 1, failed := false, failStreak := 0));
        }
      }
    }

    /** Applies a health-check result; answers whether a full check should reselect the active node. */
    method ApplyHealth(i: string, ok: bool) returns (promote: bool, lostActive: bool)
      requires Valid()
      modifies this`nodeTable, this`accountTable
      ensures Valid()
      ensures i !in nodeIndex ==>
                nodeTable == old(nodeTable) && accountTable == old(accountTable) && !promote && !lostActive
      ensures i in nodeIndex ==>
                var n, a := old(nodeTable)[nodeIndex[i]], old(accountTable)[nodeAccount[i]];
                && nodeTable == old(nodeTable)[nodeIndex[i] :=
                     if ok then n.(failed := false, failStreak := 0)
                     else n.(failed := true, failStreak := if n.failStreak == 0 then 1 else n.failStreak)]
                && accountTable == (if ok then Unlisted(old(accountTable), nodeAccount[i], i)
                                    else Listed(old(accountTable), nodeAccount[i], i))
                && (forall j :: j in a.nodes ==> a.nodes[j] in old(nodeTable))
                && (promote <==> ok && Promotes(n, a, old(nodeTable)))
                && (promote <==>
                      && ok && !n.disabled
                      && (n.failed || a.activeId !in a.nodes
                          || n.weight < old(nodeTable)[a.nodes[a.activeId]].weight || a.activeId == ""))
                && (lostActive <==> !ok && a.activeId == i)
    {
      hide Consistent;
      NodeFacts(accountById, accounts, nodeIndex, nodeAccount, accountTable, nodeTable, i);
      if i !in nodeIndex {
        return false, false;
      }
      var n, a := nodeTable[nodeIndex[i]], accountTable[nodeAccount[i]];
      promote := ok && Promotes(n, a, nodeTable);
      lostActive := !ok && a.activeId == i;
      if ok {
        Rewrite(i, n.(failed := false, failStreak := 0));
      } else {
        MarkFailed(i);
      }
    }
  }

  /** Account `r` with node `i` in its FailedSet. */
  function Listed(t: AccountTable, r: Ref, i: string): AccountTable
    requires r in t
  {
    t[r := t[r].(failedSet := t[r].failedSet + {i})]
  }

  /** Account `r` without node `i` in its FailedSet. */
  function Unlisted(t: AccountTable, r: Ref, i: string): AccountTable
    requires r in t
  {
    t[r := t[r].(failedSet := t[r].failedSet - {i})]
  }

  /** A new node `n` warrants a reselection: there is no usable active node, or `n` is cheaper. */
  predicate Displaces(n: Node, a: Account, h: NodeTable)
    requires forall i :: i in a.nodes ==> a.nodes[i] in h
  {
    a.activeId !in a.nodes ||
    var cur := h[a.nodes[a.activeId]];
    cur.failed || cur.disabled || n.weight < cur.weight
  }

  /** A node `n` found healthy warrants a reselection: it is back from failure, there is no active node, or
      `n` is cheaper than the active one. */
  predicate Promotes(n: Node, a: Account, h: NodeTable)
    requires forall i :: i in a.nodes ==> a.nodes[i] in h
  {
    !n.disabled &&
    (n.failed || a.activeId == "" || a.activeId !in a.nodes || n.weight < h[a.nodes[a.activeId]].weight)
  }

  /** The active node of `a` can be used. */
  predicate HasUsableNode(a: Account, h: NodeTable)
    requires forall i :: i in a.nodes ==> a.nodes[i] in h
  {
    a.activeId in a.nodes && !h[a.nodes[a.activeId]].failed && !h[a.nodes[a.activeId]].disabled
  }

  lemma AlreadyListed(
    byId: map<string, Ref>, byKey: map<string, Ref>, index: map<string, Ref>, owner: map<string, Ref>,
    t: AccountTable, h: NodeTable, i: string)
    requires Consistent(byId, byKey, index, owner, t, h) && i in index
    ensures t == if h[index[i]].failed then Listed(t, owner[i], i) else Unlisted(t, owner[i], i)
  {
    var a := t[owner[i]];
    assert i in a.failedSet <==> h[index[i]].failed;
    assert a.failedSet == if h[index[i]].failed then a.failedSet + {i} else a.failedSet - {i};
  }

  lemma Rewritten(
    byId: map<string, Ref>, byKey: map<string, Ref>, index: map<string, Ref>, owner: map<string, Ref>,
    t: AccountTable, h: NodeTable, i: string, n: Node)
    requires Consistent(byId, byKey, index, owner, t, h) && i in index
    requires n.id == i && n.accountId == h[index[i]].accountId && (n.failed ==> n.failStreak >= 1)
    ensures owner[i] in t
    ensures var u := if n.failed then Listed(t, owner[i], i) else Unlisted(t, owner[i], i);
            && Consistent(byId, byKey, index, owner, u, h[index[i] := n])
            && (n.failed == h[index[i]].failed ==> u == t)
  {
    hide Consistent;
    NodeFacts(byId, byKey, index, owner, t, h, i);
    var u := if n.failed then Listed(t, owner[i], i) else Unlisted(t, owner[i], i);
    NodeUpdated(byId, byKey, index, owner, t, h, u, i, n);
    AlreadyListed(byId, byKey, index, owner, t, h, i);
  }

  /** An account record outside the maps changes nothing. */
  lemma AccountAllocated(
    byId: map<string, Ref>, byKey: map<string, Ref>, index: map<string, Ref>, owner: map<string, Ref>,
    t: AccountTable, h: NodeTable, r: Ref, a: Account)
    requires Consistent(byId, byKey, index, owner, t, h) && r !in t && a.id !in byId
    ensures Consistent(byId, byKey, index, owner, t[r := a], h)
  {
    forall q
      ensures Registered(byId, t[r := a], q) <==> Registered(byId, t, q)
    {
    }
    AllocatedIndex(byId, index, owner, t, h, r, a);
    AllocatedFailures(byId, t, h, r, a);
  }

  lemma AllocatedIndex(
    byId: map<string, Ref>, index: map<string, Ref>, owner: map<string, Ref>, t: AccountTable, h: NodeTable, r: Ref,
    a: Account)
    requires IndexAgrees(byId, index, owner, t, h) && r !in t && a.id !in byId
    requires forall q :: Registered(byId, t[r := a], q) <==> Registered(byId, t, q)
    ensures IndexAgrees(byId, index, owner, t[r := a], h)
  {
  }

  lemma AllocatedFailures(byId: map<string, Ref>, t: AccountTable, h: NodeTable, r: Ref, a: Account)
    requires FailuresAgree(byId, t, h) && r !in t && a.id !in byId
    requires forall q :: Registered(byId, t[r := a], q) <==> Registered(byId, t, q)
    ensures FailuresAgree(byId, t[r := a], h)
  {
  }

  lemma Renamed(
    byId: map<string, Ref>, byKey: map<string, Ref>, index: map<string, Ref>, owner: map<string, Ref>,
    t: AccountTable, h: NodeTable, r: Ref, a: Account)
    requires Consistent(byId, byKey, index, owner, t, h) && r in t && a == t[r].(name := a.name)
    ensures Consistent(byId, byKey, index, owner, t[r := a], h)
  {
    KeysChange(byId, byKey, t, r, a);
    SameNodes(byId, index, owner, t, h, t[r := a]);
  }

  lemma Activated(
    byId: map<string, Ref>, byKey: map<string, Ref>, index: map<string, Ref>, owner: map<string, Ref>,
    t: AccountTable, h: NodeTable, r: Ref, i: string)
    requires Consistent(byId, byKey, index, owner, t, h) && r in t
    ensures Consistent(byId, byKey, index, owner, t[r := t[r].(activeId := i)], h)
  {
    KeysChange(byId, byKey, t, r, t[r].(activeId := i));
    SameNodes(byId, index, owner, t, h, t[r := t[r].(activeId := i)]);
  }
}
