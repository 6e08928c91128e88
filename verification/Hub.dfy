/** The WebSocket hub. `Run` owns the client map and serves three bounded queues; request handlers, the
    clients' reader and writer goroutines act on the queues between any two of its steps. */
module Hub {
  import opened Common
  const QUEUE: nat := 10
  const BROADCASTS: nat := 256
  const BUFFER: nat := 256

  type Client = nat

  datatype Message = Message(account: string, text: string, encodes: bool)

  /** What happened to a client's `send` channel. */
  datatype Event =
    | Delivered(client: Client, message: Message)
    | Closed(client: Client)

  /** Where `Run` is: in its select, about to offer a message to the next client, or committed to
      unregistering a client whose buffer was full. */
  datatype Loop =
    | Idle
    | Offering(message: Message, todo: seq<Client>)
    | Ejecting(message: Message, client: Client, todo: seq<Client>)

  datatype State = State(
    clients: map<string, set<Client>>,
    register: seq<Client>,
    unregister: seq<Client>,
    broadcast: seq<Message>,
    account: map<Client, string>,
    send: map<Client, seq<Message>>,
    closed: set<Client>,
    loop: Loop,
    log: seq<Event>)

  const EMPTY: State := State(map[], [], [], [], map[], map[], {}, Idle, [])

  // ---------- steps ----------

  datatype Step =
    /** A handler accepts a connection and queues its only registration. */
    | Join(client: Client, account: string)
    /** A reader goroutine ends and queues its client for removal. */
    | Leave(client: Client)
    /** Some part of the server broadcasts. */
    | Publish(message: Message)
    /** A writer goroutine takes the oldest message of its client. */
    | Drain(client: Client)
    /** `Run` takes from one of its queues; for a broadcast the clients come in any order. */
    | TakeRegister
    | TakeUnregister
    | TakeBroadcast(order: seq<Client>)
    /** `Run` offers the message to the next client, or sends the client it is committed to. */
    | Offer
    | Eject

  function Members(s: State, account: string): set<Client> {
    if account in s.clients then s.clients[account] else {}
  }

  ghost predicate IsOrder(order: seq<Client>, members: set<Client>) {
    Distinct(order) && forall c :: c in order <==> c in members
  }

  ghost predicate Can(s: State, e: Step) {
    match e
    case Join(c, _) => c !in s.account && |s.register| < QUEUE
    case Leave(c) => c in s.account && |s.unregister| < QUEUE
    case Publish(_) => |s.broadcast| < BROADCASTS
    case Drain(c) => c in s.send && s.send[c] != []
    case TakeRegister => s.loop.Idle? && s.register != [] && s.register[0] in s.account
    case TakeUnregister => s.loop.Idle? && s.unregister != [] && s.unregister[0] in s.account
    case TakeBroadcast(order) =>
      s.loop.Idle? && s.broadcast != [] && IsOrder(order, Members(s, s.broadcast[0].account))
    case Offer => s.loop.Offering? && s.loop.todo != [] && s.loop.todo[0] in s.send
    case Eject => s.loop.Ejecting? && |s.unregister| < QUEUE
  }

  function Added(s: State, c: Client): State
    requires c in s.account
  {
    var a := s.account[c];
    s.(clients := s.clients[a := Members(s, a) + {c}])
  }

  /** Removing a client that is not in the map does nothing. */
  function Removed(s: State, c: Client): State
    requires c in s.account
  {
    var a := s.account[c];
    if c !in Members(s, a) then s
    else
      var rest := s.clients[a] - {c};
      s.(clients := if rest == {} then s.clients - {a} else s.clients[a := rest],
         closed := s.closed + {c},
         log := s.log + [Closed(c)])
  }

  function Resume(m: Message, todo: seq<Client>): Loop {
    if todo == [] then Idle else Offering(m, todo)
  }

  function Offered(s: State): State
    requires s.loop.Offering? && s.loop.todo != [] && s.loop.todo[0] in s.send
  {
    var m, c, rest := s.loop.message, s.loop.todo[0], s.loop.todo[1..];
    if |s.send[c]| < BUFFER then
      s.(send := s.send[c := s.send[c] + [m]], log := s.log + [Delivered(c, m)], loop := Resume(m, rest))
    else s.(loop := Ejecting(m, c, rest))
  }

  function Ejected(s: State): State
    requires s.loop.Ejecting?
  {
    s.(unregister := s.unregister + [s.loop.client], loop := Resume(s.loop.message, s.loop.todo))
  }

  function Started(s: State, order: seq<Client>): State
    requires s.broadcast != []
  {
    var m := s.broadcast[0];
    s.(broadcast := s.broadcast[1..], loop := if m.encodes then Resume(m, order) else Idle)
  }

  ghost function Do(s: State, e: Step): State
    requires Can(s, e)
  {
    match e
    case Join(c, a) => s.(account := s.account[c := a], send := s.send[c := []], register := s.register + [c])
    case Leave(c) => s.(unregister := s.unregister + [c])
    case Publish(m) => s.(broadcast := s.broadcast + [m])
    case Drain(c) => s.(send := s.send[c := s.send[c][1..]])
    case TakeRegister => Added(s, s.register[0]).(register := s.register[1..])
    case TakeUnregister => Removed(s, s.unregister[0]).(unregister := s.unregister[1..])
    case TakeBroadcast(order) => Started(s, order)
    case Offer => Offered(s)
    case Eject => Ejected(s)
  }

  // ---------- safety ----------

  /** Messages stay inside their account, and nothing happens to a channel after it was closed: neither a
      write nor a second close. */
  ghost predicate SafeLog(account: map<Client, string>, log: seq<Event>) {
    && (forall i :: 0 <= i < |log| && log[i].Delivered? ==>
          log[i].client in account && account[log[i].client] == log[i].message.account)
    && forall i, j :: 0 <= i < j < |log| && log[i].Closed? ==> log[j].client != log[i].client
  }

  ghost predicate ClosedAsLogged(closed: set<Client>, log: seq<Event>) {
    forall i :: 0 <= i < |log| && log[i].Closed? ==> log[i].client in closed
  }

  /** Registered clients are open, in their own account's set, and not waiting to be registered. */
  ghost predicate MapSound(s: State) {
    forall a :: a in s.clients ==>
                  s.clients[a] != {} &&
                  forall c :: c in s.clients[a] ==>
                                c in s.account && s.account[c] == a && c !in s.closed && c !in s.register
  }

  ghost predicate QueuesSound(s: State) {
    && |s.register| <= QUEUE && |s.unregister| <= QUEUE && |s.broadcast| <= BROADCASTS
    && Distinct(s.register)
    && (forall c :: c in s.register ==> c in s.account && c !in s.closed)
    && (forall c :: c in s.unregister ==> c in s.account)
    && s.closed <= s.account.Keys && s.send.Keys == s.account.Keys
    && forall c :: c in s.send ==> |s.send[c]| <= BUFFER
  }

  /** While a message is being offered, the clients still to be served are registered under its account. */
  ghost predicate LoopSound(s: State) {
    match s.loop
    case Idle => true
    case Offering(m, todo) =>
      todo != [] && forall c :: c in todo ==> c in Members(s, m.account)
    case Ejecting(m, c, todo) =>
      c in Members(s, m.account) && forall d :: d in todo ==> d in Members(s, m.account)
  }

  ghost predicate Sound(s: State) {
    MapSound(s) && QueuesSound(s) && LoopSound(s) && SafeLog(s.account, s.log) && ClosedAsLogged(s.closed, s.log)
  }

  lemma LogGrows(account: map<Client, string>, closed: set<Client>, log: seq<Event>, e: Event)
    requires SafeLog(account, log) && ClosedAsLogged(closed, log) && e.client !in closed
    requires e.Delivered? ==> e.client in account && account[e.client] == e.message.account
    ensures SafeLog(account, log + [e])
    ensures ClosedAsLogged(if e.Closed? then closed + {e.client} else closed, log + [e])
  {
  }

  lemma RegisterIsSound(s: State)
    requires Sound(s) && Can(s, TakeRegister)
    ensures Sound(Do(s, TakeRegister))
  {
    var c, t := s.register[0], Do(s, TakeRegister);
    assert c in s.register && c !in t.register;
    assert forall d :: d in t.register ==> d in s.register;
  }

  lemma UnregisterIsSound(s: State)
    requires Sound(s) && Can(s, TakeUnregister)
    ensures Sound(Do(s, TakeUnregister))
  {
    var c, t := s.unregister[0], Do(s, TakeUnregister);
    assert forall d :: d in t.unregister ==> d in s.unregister;
    if c in Members(s, s.account[c]) {
      LogGrows(s.account, s.closed, s.log, Closed(c));
    }
  }

  lemma BroadcastIsSound(s: State, order: seq<Client>)
    requires Sound(s) && Can(s, TakeBroadcast(order))
    ensures Sound(Do(s, TakeBroadcast(order)))
  {
  }

  lemma OfferIsSound(s: State)
    requires Sound(s) && Can(s, Offer)
    ensures Sound(Do(s, Offer))
  {
    var m, todo, t := s.loop.message, s.loop.todo, Do(s, Offer);
    var c := todo[0];
    assert c in todo;
    assert forall d :: d in todo[1..] ==> d in todo;
    if |s.send[c]| < BUFFER {
      LogGrows(s.account, s.closed, s.log, Delivered(c, m));
    }
  }

  lemma EjectIsSound(s: State)
    requires Sound(s) && Can(s, Eject)
    ensures Sound(Do(s, Eject))
  {
  }

  lemma JoinIsSound(s: State, c: Client, a: string)
    requires Sound(s) && Can(s, Join(c, a))
    ensures Sound(Do(s, Join(c, a)))
  {
    var t := Do(s, Join(c, a));
    assert forall d :: d in t.register <==> d in s.register || d == c;
    assert forall b, d :: b in s.clients && d in s.clients[b] ==> d != c;
  }

  lemma OthersAreSound(s: State, e: Step)
    requires Sound(s) && Can(s, e) && (e.Leave? || e.Publish? || e.Drain?)
    ensures Sound(Do(s, e))
  {
  }

  lemma StepIsSound(s: State, e: Step)
    requires Sound(s) && Can(s, e)
    ensures Sound(Do(s, e))
  {
    hide Sound, Can, Do;
    match e {
      case TakeRegister => RegisterIsSound(s);
      case TakeUnregister => UnregisterIsSound(s);
      case TakeBroadcast(order) => BroadcastIsSound(s, order);
      case Offer => OfferIsSound(s);
      case Eject => EjectIsSound(s);
      case Join(c, a) => JoinIsSound(s, c, a);
      case _ => OthersAreSound(s, e);
    }
  }

  // ---------- runs ----------

  ghost predicate Next(from: State, to: State) {
    exists e :: Can(from, e) && to == Do(from, e)
  }

  ghost predicate IsRun(run: seq<State>) {
    run != [] && forall k :: 0 < k < |run| ==> Next(run[k - 1], run[k])
  }

  /** In every run from the empty hub a message reaches only clients of its own account, no channel is
      closed twice, none is written after it was closed, and no queue overflows. */
  lemma {:induction false} EveryRunIsSafe(run: seq<State>)
    requires IsRun(run) && run[0] == EMPTY
    ensures forall k :: 0 <= k < |run| ==> Sound(run[k])
  {
    hide Sound, Can, Do;
    if |run| == 1 {
      EmptyIsSound();
    } else {
      var before := run[..|run| - 1];
      assert forall k :: 0 <= k < |before| ==> before[k] == run[k];
      EveryRunIsSafe(before);
      assert Next(run[|run| - 2], run[|run| - 1]);
      var e :| Can(run[|run| - 2], e) && run[|run| - 1] == Do(run[|run| - 2], e);
      assert Sound(before[|run| - 2]);
      StepIsSound(run[|run| - 2], e);
    }
  }

  lemma EmptyIsSound()
    ensures Sound(EMPTY) && AllPlaced(EMPTY) && AllDelivered(EMPTY)
  {
  }

  /** The messages delivered to client `c`, in order. */
  function DeliveredTo(log: seq<Event>, c: Client): seq<Message> {
    if log == [] then []
    else
      var last := log[|log| - 1];
      DeliveredTo(log[..|log| - 1], c) + if last.Delivered? && last.client == c then [last.message] else []
  }

  /** What a client has not read yet is the last part of what was delivered to it. */
  ghost predicate EndsWith(all: seq<Message>, last: seq<Message>) {
    |last| <= |all| && all[|all| - |last|..] == last
  }

  lemma DeliveredNext(log: seq<Event>, e: Event, c: Client, unread: seq<Message>)
    requires EndsWith(DeliveredTo(log, c), unread)
    ensures EndsWith(DeliveredTo(log + [e], c), if e.Delivered? && e.client == c then unread + [e.message] else unread)
    ensures unread != [] ==> EndsWith(DeliveredTo(log, c), unread[1..])
  {
    assert (log + [e])[..|log|] == log;
  }

  /** Every client that has joined waits for its registration, is registered, or is closed, and its closing was
      logged. */
  ghost predicate AllPlaced(s: State) {
    && (forall c :: c in s.account ==> c in s.register || c in Members(s, s.account[c]) || c in s.closed)
    && forall c :: c in s.closed ==> Closed(c) in s.log
  }

  ghost predicate AllDelivered(s: State) {
    forall c :: c in s.send ==> EndsWith(DeliveredTo(s.log, c), s.send[c])
  }

  lemma StepDelivers(s: State, e: Step)
    requires AllDelivered(s) && Can(s, e)
    ensures AllDelivered(Do(s, e))
  {
    hide EndsWith, DeliveredTo;
    var t := Do(s, e);
    forall c | c in t.send
      ensures EndsWith(DeliveredTo(t.log, c), t.send[c])
    {
      if e.Join? && c == e.client {
        NothingUnread(t.log, c);
      } else if t.log != s.log {
        DeliveredNext(s.log, t.log[|s.log|], c, s.send[c]);
        assert t.log == s.log + [t.log[|s.log|]];
      } else {
        DeliveredNext(s.log, Closed(c), c, s.send[c]);
      }
    }
  }

  lemma NothingUnread(log: seq<Event>, c: Client)
    ensures EndsWith(DeliveredTo(log, c), [])
  {
  }

  lemma StepPlaces(s: State, e: Step)
    requires Sound(s) && AllPlaced(s) && Can(s, e)
    ensures AllPlaced(Do(s, e))
  {
    match e {
      case Join(c, a) => JoinPlaces(s, c, a);
      case TakeRegister => RegisterPlaces(s);
      case TakeUnregister => UnregisterPlaces(s);
      case Offer => assert Do(s, e).log[..|s.log|] == s.log;
      case _ =>
    }
  }

  lemma JoinPlaces(s: State, c: Client, a: string)
    requires Sound(s) && AllPlaced(s) && Can(s, Join(c, a))
    ensures AllPlaced(Do(s, Join(c, a)))
  {
    hide SafeLog, LoopSound;
    var t := Do(s, Join(c, a));
    assert t.register[|s.register|] == c;
    assert forall d :: d in s.register ==> d in t.register;
    assert forall d :: d in s.account ==> d in t.account && t.account[d] == s.account[d];
  }

  lemma RegisterPlaces(s: State)
    requires Sound(s) && AllPlaced(s) && Can(s, TakeRegister)
    ensures AllPlaced(Do(s, TakeRegister))
  {
    hide SafeLog, LoopSound;
    var t := Do(s, TakeRegister);
    assert forall c :: c in s.register ==> c == s.register[0] || c in t.register;
  }

  lemma UnregisterPlaces(s: State)
    requires Sound(s) && AllPlaced(s) && Can(s, TakeUnregister)
    ensures AllPlaced(Do(s, TakeUnregister))
  {
    hide SafeLog, LoopSound;
    var t := Do(s, TakeUnregister);
    assert t.log[..|s.log|] == s.log;
    assert t.closed != s.closed ==> t.log[|s.log|] == Closed(s.unregister[0]);
  }

  /** A client that has joined is in exactly one of three places: queued for its registration, registered under its
      account, or closed, and then its closing was logged. No queue holds more than its capacity, and what a client has
      not read yet is the last of what was delivered to it. */
  ghost predicate Orderly(s: State) {
    && (forall c :: c in s.account ==>
          var member := s.account[c] in s.clients && c in s.clients[s.account[c]];
          && (c in s.closed <==> c !in s.register && !member) && !(c in s.register && member)
          && (c in s.closed <==> Closed(c) in s.log))
    && |s.register| <= 10 && |s.unregister| <= 10 && |s.broadcast| <= 256
    && forall c :: c in s.send ==> |s.send[c]| <= 256 && EndsWith(DeliveredTo(s.log, c), s.send[c])
  }

  lemma IsOrderly(s: State)
    requires Sound(s) && AllPlaced(s) && AllDelivered(s)
    ensures Orderly(s)
  {
    forall c | c in s.account
      ensures c in s.closed <==> Closed(c) in s.log
    {
      if Closed(c) in s.log {
        var i :| 0 <= i < |s.log| && s.log[i] == Closed(c);
        assert s.log[i].Closed? && s.log[i].client in s.closed;
      }
    }
  }

  /** So it is in every run. */
  lemma {:induction false} EveryClientIsSomewhere(run: seq<State>)
    requires IsRun(run) && run[0] == EMPTY
    ensures forall k :: 0 <= k < |run| ==> AllPlaced(run[k]) && AllDelivered(run[k]) && Orderly(run[k])
  {
    hide Sound, AllPlaced, AllDelivered, Orderly, Can, Do;
    EveryRunIsSafe(run);
    var n := |run| - 1;
    if n > 0 {
      var before := run[..n];
      assert forall k :: 0 <= k < n ==> before[k] == run[k];
      EveryClientIsSomewhere(before);
      assert Next(run[n - 1], run[n]);
      var e :| Can(run[n - 1], e) && run[n] == Do(run[n - 1], e);
      assert AllPlaced(before[n - 1]) && AllDelivered(before[n - 1]);
      StepPlaces(run[n - 1], e);
      StepDelivers(run[n - 1], e);
    } else {
      EmptyIsSound();
    }
    IsOrderly(run[n]);
  }

  // ---------- blocking ----------

  /** `Run` is committed to unregistering a client and finds the queue full. */
  predicate Blocked(s: State) {
    s.loop.Ejecting? && |s.unregister| >= QUEUE
  }

  /** Only `Run` takes from the unregister queue, so once it waits for room there it waits forever: the
      client map never changes again, nothing more is delivered, and only as many broadcasts as the queue
      has room for are ever accepted, whatever handlers, readers and writers do. */
  lemma {:induction false} BlockedForever(run: seq<State>)
    requires IsRun(run) && Blocked(run[0]) && |run[0].broadcast| <= BROADCASTS
    ensures forall k :: 0 <= k < |run| ==>
                          && Blocked(run[k]) && run[k].loop == run[0].loop
                          && run[k].unregister == run[0].unregister && run[k].clients == run[0].clients
                          && run[k].log == run[0].log && run[0].broadcast <= run[k].broadcast
                            && |run[k].broadcast| <= BROADCASTS
  {
    if |run| > 1 {
      var before := run[..|run| - 1];
      assert forall k :: 0 <= k < |before| ==> before[k] == run[k];
      BlockedForever(before);
      assert Next(run[|run| - 2], run[|run| - 1]);
      assert Blocked(before[|run| - 2]);
    }
  }

  /** The clients of `todo` whose buffers are full. */
  function Full(s: State, todo: seq<Client>): (n: nat)
    ensures n <= |todo|
  {
    if todo == [] then 0
    else Full(s, todo[1..]) + if IsFull(s, todo[0]) then 1 else 0
  }

  /** `Run` carries on with a broadcast, undisturbed, until it is back in its select or blocked. */
  ghost function CarryOn(s: State): State
    requires s.loop.Offering? ==> forall c :: c in s.loop.todo ==> c in s.send
    requires s.loop.Ejecting? ==> forall c :: c in s.loop.todo ==> c in s.send
    decreases match s.loop
              case Idle => 0
              case Offering(_, todo) => 2 * |todo|
              case Ejecting(_, _, todo) => 2 * |todo| + 1
  {
    if Can(s, Offer) then CarryOn(Do(s, Offer))
    else if Can(s, Eject) then CarryOn(Do(s, Eject))
    else s
  }

  predicate IsFull(s: State, c: Client) {
    c in s.send && |s.send[c]| >= BUFFER
  }

  lemma {:induction false} FullKept(s: State, t: State, todo: seq<Client>)
    requires forall c :: c in todo ==> (IsFull(s, c) <==> IsFull(t, c))
    ensures Full(s, todo) == Full(t, todo)
  {
    if todo != [] {
      assert todo[0] in todo;
      assert forall c :: c in todo[1..] ==> c in todo;
      FullKept(s, t, todo[1..]);
    }
  }

  /** The clients not yet served after the first one was. */
  lemma RestOf(todo: seq<Client>)
    requires todo != [] && Distinct(todo)
    ensures todo[0] !in todo[1..] && Distinct(todo[1..]) && forall c :: c in todo <==> c == todo[0] || c in todo[1..]
  {
  }

  /** `t` is `s` after `message` was offered to the clients of `todo`. */
  ghost predicate Served(s: State, t: State, message: Message, todo: seq<Client>) {
    && t.send.Keys == s.send.Keys && s.unregister <= t.unregister
    && forall c :: c in s.send ==>
                     && t.send[c] == (if c in todo && !IsFull(s, c) then s.send[c] + [message] else s.send[c])
                     && (c in todo && IsFull(s, c) ==> c in t.unregister)
  }

  lemma SameFull(s: State, t: State, c: Client)
    requires c in s.send && c in t.send && t.send[c] == s.send[c]
    ensures IsFull(t, c) <==> IsFull(s, c)
  {
  }

  lemma ServedFirst(s: State, u: State, t: State, m: Message, todo: seq<Client>)
    requires todo != [] && Distinct(todo) && Served(s, u, m, [todo[0]]) && Served(u, t, m, todo[1..])
    ensures Served(s, t, m, todo)
  {
    hide IsFull, Distinct;
    RestOf(todo);
    forall c | c in s.send
      ensures t.send[c] == if c in todo && !IsFull(s, c) then s.send[c] + [m] else s.send[c]
      ensures c in todo && IsFull(s, c) ==> c in t.unregister
    {
      if c in todo[1..] {
        assert u.send[c] == s.send[c];
        SameFull(s, u, c);
      }
    }
  }

  /** A broadcast that is not disturbed completes exactly when the account's clients with full buffers are
      no more than the free places of the unregister queue; otherwise `Run` blocks for good. When it
      completes, every client with room has the message and every other one is queued for removal. */
  lemma {:induction false} BroadcastCompletes(s: State)
    requires s.loop.Offering? && s.loop.todo != [] && Distinct(s.loop.todo) && |s.unregister| <= QUEUE
    requires forall c :: c in s.loop.todo ==> c in s.send
    ensures CarryOn(s).loop.Idle? || Blocked(CarryOn(s))
    ensures CarryOn(s).loop.Idle? <==> Full(s, s.loop.todo) <= QUEUE - |s.unregister|
    ensures CarryOn(s).loop.Idle? ==> Served(s, CarryOn(s), s.loop.message, s.loop.todo)
    decreases |s.loop.todo|
  {
    var m, c, rest := s.loop.message, s.loop.todo[0], s.loop.todo[1..];
    RestOf(s.loop.todo);
    var t := Do(s, Offer);
    var u := if IsFull(s, c) && Can(t, Eject) then Do(t, Eject) else t;
    FullKept(s, u, rest);
    assert CarryOn(s) == CarryOn(t) == CarryOn(u);
    if !Blocked(u) {
      assert Served(s, u, m, [c]);
      if rest != [] {
        BroadcastCompletes(u);
      }
      if CarryOn(u).loop.Idle? {
        ServedFirst(s, u, CarryOn(u), m, s.loop.todo);
      }
    }
  }

  // ---------- a run that blocks ----------

  ghost predicate Reaches(s: State, t: State) {
    exists run :: IsRun(run) && run[0] == s && run[|run| - 1] == t
  }

  lemma Stays(s: State)
    ensures Reaches(s, s)
  {
    assert IsRun([s]);
  }

  lemma OneMoreStep(s: State, t: State, e: Step)
    requires Reaches(s, t) && Can(t, e)
    ensures Reaches(s, Do(t, e))
  {
    hide Can, Do;
    var run :| IsRun(run) && run[0] == s && run[|run| - 1] == t;
    var longer := run + [Do(t, e)];
    assert Next(t, Do(t, e));
    assert forall k :: 0 <= k < |run| ==> longer[k] == run[k];
    assert IsRun(longer);
  }

  /** Carrying on takes steps of `Run` only, which change neither the client map nor who joined nor what is queued
      for registration or broadcasting. */
  lemma {:induction false} CarriedOn(from: State, s: State)
    requires Reaches(from, s)
    requires s.loop.Offering? ==> forall c :: c in s.loop.todo ==> c in s.send
    requires s.loop.Ejecting? ==> forall c :: c in s.loop.todo ==> c in s.send
    ensures Reaches(from, CarryOn(s))
    ensures CarryOn(s) == s.(send := CarryOn(s).send, unregister := CarryOn(s).unregister, loop := CarryOn(s).loop,
              log := CarryOn(s).log)
    decreases match s.loop
              case Idle => 0
              case Offering(_, todo) => 2 * |todo|
              case Ejecting(_, _, todo) => 2 * |todo| + 1
  {
    hide Reaches;
    if Can(s, Offer) {
      OneMoreStep(from, s, Offer);
      CarriedOn(from, Do(s, Offer));
    } else if Can(s, Eject) {
      OneMoreStep(from, s, Eject);
      CarriedOn(from, Do(s, Eject));
    }
  }

  /** The clients below `n`, all of one account, are registered, and each has `k` messages waiting. */
  ghost predicate Waiting(s: State, account: string, n: nat, k: nat) {
    && s.loop.Idle? && s.register == [] && s.unregister == [] && s.broadcast == []
    && (forall c: Client :: c in s.account <==> c < n) && (forall c :: c in s.account ==> s.account[c] == account)
    && (forall c: Client :: c in Members(s, account) <==> c < n)
    && s.send.Keys == s.account.Keys && forall c :: c in s.send ==> |s.send[c]| == k
  }

  lemma {:induction false} Gather(account: string, n: nat) returns (s: State)
    ensures Reaches(EMPTY, s) && Waiting(s, account, n, 0)
  {
    hide Reaches;
    if n == 0 {
      Stays(EMPTY);
      s := EMPTY;
    } else {
      var before := Gather(account, n - 1);
      OneMoreStep(EMPTY, before, Join(n - 1, account));
      var joined := Do(before, Join(n - 1, account));
      OneMoreStep(EMPTY, joined, TakeRegister);
      s := Do(joined, TakeRegister);
      OneMoreClient(before, joined, s, account, n - 1);
    }
  }

  lemma OneMoreClient(s: State, t: State, u: State, account: string, n: nat)
    requires Waiting(s, account, n, 0) && Can(s, Join(n, account)) && t == Do(s, Join(n, account))
    requires Can(t, TakeRegister) && u == Do(t, TakeRegister)
    ensures Waiting(u, account, n + 1, 0)
  {
    assert t.register == [n] && u.register == [];
    assert Members(u, account) == Members(s, account) + {n};
  }

  /** Publishing a message and taking it from the queue. */
  lemma StartBroadcast(s: State, m: Message, order: seq<Client>)
    requires Reaches(EMPTY, s) && s.loop.Idle? && s.broadcast == [] && m.encodes && order != []
    requires IsOrder(order, Members(s, m.account))
    ensures Reaches(EMPTY, s.(loop := Offering(m, order)))
  {
    hide Reaches;
    OneMoreStep(EMPTY, s, Publish(m));
    var published := Do(s, Publish(m));
    assert published.broadcast == [m] && [m][1..] == [];
    OneMoreStep(EMPTY, published, TakeBroadcast(order));
  }

  /** The clients below `n` in order. */
  lemma Ascending(n: nat, members: set<Client>) returns (order: seq<Client>)
    requires forall c: Client :: c in members <==> c < n
    ensures IsOrder(order, members) && |order| == n
  {
    order := seq(n, c => c);
    forall c: Client | c in members
      ensures c in order
    {
      assert order[c] == c;
    }
  }

  /** One more message is broadcast to the waiting clients. */
  lemma OneMoreBroadcast(s: State, m: Message, n: nat, k: nat) returns (t: State)
    requires Reaches(EMPTY, s) && Waiting(s, m.account, n, k) && n > 0 && m.encodes
    ensures Reaches(EMPTY, t) && (if k < BUFFER || n <= QUEUE then t.loop.Idle? else Blocked(t))
    ensures k < BUFFER ==> Waiting(t, m.account, n, k + 1)
    ensures k >= BUFFER ==> t.send == s.send && t.account == s.account && t.broadcast == []
  {
    hide Reaches, CarryOn, Full, Blocked, Served;
    var order := Ascending(n, Members(s, m.account));
    StartBroadcast(s, m, order);
    var offering := s.(loop := Offering(m, order));
    CarriedOn(EMPTY, offering);
    BroadcastCompletes(offering);
    AtMostFull(offering);
    AllOrNone(offering, order, k >= BUFFER);
    if k >= BUFFER {
      NothingSent(offering);
    }
    t := CarryOn(offering);
    if k < BUFFER {
      AllServed(s, offering, t, m, order, n, k);
    }
  }

  lemma AllServed(s: State, offering: State, t: State, m: Message, order: seq<Client>, n: nat, k: nat)
    requires Waiting(s, m.account, n, k) && k < BUFFER && IsOrder(order, Members(s, m.account))
    requires offering == s.(loop := Offering(m, order)) && Served(offering, t, m, order)
    requires t == offering.(send := t.send, unregister := [], loop := Idle, log := t.log)
    ensures Waiting(t, m.account, n, k + 1)
  {
    assert Members(t, m.account) == Members(s, m.account);
  }

  lemma {:induction false} AtMostFull(s: State)
    requires s.loop.Offering? && forall c :: c in s.loop.todo ==> c in s.send
    requires Distinct(s.loop.todo)
    ensures |CarryOn(s).unregister| <= |s.unregister| + Full(s, s.loop.todo)
    decreases |s.loop.todo|
  {
    if s.loop.todo != [] {
      var c, rest := s.loop.todo[0], s.loop.todo[1..];
      RestOf(s.loop.todo);
      var t := Do(s, Offer);
      var u := if IsFull(s, c) && Can(t, Eject) then Do(t, Eject) else t;
      FullKept(s, u, rest);
      assert CarryOn(s) == CarryOn(t) == CarryOn(u);
      if !Blocked(u) && rest != [] {
        AtMostFull(u);
      }
    }
  }

  lemma {:induction false} NothingSent(s: State)
    requires s.loop.Offering? && forall c :: c in s.loop.todo ==> c in s.send
    requires Distinct(s.loop.todo) && forall c :: c in s.loop.todo ==> IsFull(s, c)
    ensures CarryOn(s).send == s.send
    decreases |s.loop.todo|
  {
    if s.loop.todo != [] {
      var c, rest := s.loop.todo[0], s.loop.todo[1..];
      RestOf(s.loop.todo);
      var t := Do(s, Offer);
      var u := if Can(t, Eject) then Do(t, Eject) else t;
      assert IsFull(s, c);
      assert CarryOn(s) == CarryOn(t) == CarryOn(u);
      if !Blocked(u) && rest != [] {
        NothingSent(u);
      }
    }
  }

  lemma {:induction false} AllOrNone(s: State, todo: seq<Client>, full: bool)
    requires forall c :: c in todo ==> (IsFull(s, c) <==> full)
    ensures Full(s, todo) == if full then |todo| else 0
  {
    if todo != [] {
      assert todo[0] in todo && forall c :: c in todo[1..] ==> c in todo;
      AllOrNone(s, todo[1..], full);
    }
  }

  lemma {:induction false} Fill(m: Message, n: nat, k: nat) returns (s: State)
    requires n > 0 && k <= BUFFER && m.encodes
    ensures Reaches(EMPTY, s) && Waiting(s, m.account, n, k)
  {
    hide Reaches, Waiting;
    if k == 0 {
      s := Gather(m.account, n);
    } else {
      var before := Fill(m, n, k - 1);
      s := OneMoreBroadcast(before, m, n, k - 1);
    }
  }

  /** Publishers fill the queue of broadcasts of a hub that serves none. */
  lemma {:induction false} QueueUp(s: State, m: Message, n: nat) returns (t: State)
    requires Reaches(EMPTY, s) && n <= BROADCASTS - |s.broadcast|
    ensures Reaches(EMPTY, t) && |t.broadcast| == |s.broadcast| + n && t == s.(broadcast := t.broadcast)
  {
    hide Reaches;
    if n == 0 {
      t := s;
    } else {
      var before := QueueUp(s, m, n - 1);
      OneMoreStep(EMPTY, before, Publish(m));
      t := Do(before, Publish(m));
    }
  }

  /** The hub can come to a standstill: eleven clients of one account that read nothing, and 257 broadcasts to it. Ten
      removals wait then, every client has 256 messages it has not read, and 256 more broadcasts can be queued. */
  lemma StandstillIsReachable(m: Message)
    requires m.encodes
    ensures exists run :: IsRun(run) && run[0] == EMPTY &&
              var s := run[|run| - 1];
              && Blocked(s) && |s.unregister| == 10 && |s.broadcast| == 256
              && |s.account| == 11 && forall c :: c in s.account ==> c in s.send && |s.send[c]| == 256
  {
    hide Reaches;
    var s := Fill(m, QUEUE + 1, BUFFER);
    var t := OneMoreBroadcast(s, m, QUEUE + 1, BUFFER);
    var u := QueueUp(t, m, BROADCASTS);
    var run := RunTo(u);
    EveryClientIsSomewhere(run);
    Below(QUEUE + 1, u.account.Keys);
    assert |u.account| == |u.account.Keys|;
  }

  lemma {:induction false} Below(n: nat, all: set<nat>)
    requires forall c: nat :: c in all <==> c < n
    ensures |all| == n
  {
    if n == 0 {
      assert all == {};
    } else {
      Below(n - 1, all - {n - 1});
    }
  }

  lemma RunTo(t: State) returns (run: seq<State>)
    requires Reaches(EMPTY, t)
    ensures IsRun(run) && run[0] == EMPTY && run[|run| - 1] == t
  {
    run :| IsRun(run) && run[0] == EMPTY && run[|run| - 1] == t;
  }

  // ---------- the hub as it is programmed ----------

  class WSHub {
    var clients: map<string, set<Client>>
    var register: seq<Client>
    var unregister: seq<Client>
    var broadcast: seq<Message>
    var account: map<Client, string>
    var send: map<Client, seq<Message>>
    var closed: set<Client>
    ghost var loop: Loop
    ghost var log: seq<Event>

    constructor ()
      ensures View() == EMPTY
    {
      clients, register, unregister, broadcast, account := map[], [], [], [], map[];
      send, closed, loop, log := map[], {}, Idle, [];
    }

    ghost function View(): State
      reads this
    {
      State(clients, register, unregister, broadcast, account, send, closed, loop, log)
    }

    method AddClient(c: Client)
      requires c in account
      modifies this`clients
      ensures View() == Added(old(View()), c)
      ensures account[c] in clients && c in clients[account[c]]
    {
      var a := account[c];
      if a !in clients {
        clients := clients[a := {}];
      }
      clients := clients[a := clients[a] + {c}];
    }

    method RemoveClient(c: Client)
      requires c in account
      modifies this`clients, this`closed, this`log
      ensures View() == Removed(old(View()), c)
      ensures var a := account[c];
              var member := a in old(clients) && c in old(clients)[a];
              && !(a in clients && c in clients[a]) && closed == old(closed) + (if member then {c} else {})
              && log == old(log) + (if member then [Closed(c)] else [])
    {
      var a := account[c];
      if a in clients && c in clients[a] {
        clients := clients[a := clients[a] - {c}];
        closed := closed + {c};
        log := log + [Closed(c)];
        if clients[a] == {} {
          clients := clients - {a};
        }
      }
    }

    /** Offers a message to the clients of its account, in any order; `blocked` when it never returns. */
    method BroadcastToAccount(m: Message) returns (blocked: bool, order: seq<Client>)
      requires loop.Idle? && |unregister| <= QUEUE
      requires forall a, c :: a in clients && c in clients[a] ==> c in send
      modifies this`send, this`unregister, this`loop, this`log
      ensures IsOrder(order, Members(old(View()), m.account))
      ensures var from := old(View()).(loop := if m.encodes then Resume(m, order) else Idle);
              (from.loop.Offering? ==> forall c :: c in from.loop.todo ==> c in from.send) && View() == CarryOn(from)
      ensures blocked <==> Blocked(View())
    {
      var members := if m.account in clients then clients[m.account] else {};
      order := InSomeOrder(members);
      assert members == {} <==> order == [] by {
        if order != [] {
          assert order[0] in order;
        }
      }
      if members == {} || !m.encodes {
        assert View() == old(View()).(loop := if m.encodes then Resume(m, order) else Idle);
        return false, order;
      }
      blocked := OfferToAll(m, order);
    }

    /** The loop of BroadcastToAccount. */
    method OfferToAll(m: Message, order: seq<Client>) returns (blocked: bool)
      requires loop.Idle? && |unregister| <= QUEUE && order != [] && forall c :: c in order ==> c in send
      modifies this`send, this`unregister, this`loop, this`log
      ensures View() == CarryOn(old(View()).(loop := Offering(m, order)))
      ensures blocked <==> Blocked(View())
    {
      hide CarryOn, Can, Full;
      var todo := order;
      loop := Offering(m, todo);
      ghost var from := View();
      while todo != []
        invariant loop == Resume(m, todo) && |unregister| <= QUEUE && forall c :: c in todo ==> c in send
        invariant CarryOn(View()) == CarryOn(from)
        decreases |todo|
      {
        var c := todo[0];
        ghost var before := View();
        assert c in todo;
        CarriesOn(before);
        todo := todo[1..];
        if |send[c]| < BUFFER {
          send, loop := send[c := send[c] + [m]], Resume(m, todo);
          log := log + [Delivered(c, m)];
          assert View() == Offered(before);
        } else {
          loop := Ejecting(m, c, todo);
          assert View() == Offered(before);
          CarriesOn(View());
          if |unregister| >= QUEUE {
            return true;
          }
          unregister, loop := unregister + [c], Resume(m, todo);
          assert View() == Ejected(Offered(before));
        }
      }
      CarriesOn(View());
      blocked := false;
    }
  }

  lemma CarriesOn(s: State)
    requires s.loop.Offering? ==> s.loop.todo != [] && forall c :: c in s.loop.todo ==> c in s.send
    requires s.loop.Ejecting? ==> forall c :: c in s.loop.todo ==> c in s.send
    ensures s.loop.Idle? || Blocked(s) ==> CarryOn(s) == s
    ensures s.loop.Offering? ==>
              Can(s, Offer) && (Do(s, Offer).loop.Ejecting? ==> forall c :: c in Do(s, Offer).loop.todo ==> c in s.send)
    ensures s.loop.Offering? ==>
              && (forall c :: c in s.loop.todo[1..] ==> c in Do(s, Offer).send)
              && CarryOn(s) == CarryOn(Do(s, Offer))
    ensures s.loop.Ejecting? && !Blocked(s) ==> Can(s, Eject) && CarryOn(s) == CarryOn(Do(s, Eject))
  {
  }

  /** The order in which a map happens to be walked. */
  method InSomeOrder(members: set<Client>) returns (order: seq<Client>)
    ensures IsOrder(order, members)
  {
    order := [];
    var todo := members;
    while todo != {}
      invariant todo <= members && IsOrder(order, members - todo)
      decreases |todo|
    {
      var c :| c in todo;
      todo := todo - {c};
      order := order + [c];
    }
  }
}
