/** The process-wide client registry and `Client::connect`, whose calls may interleave because the
    registry lock is released between its steps (src/lib.rs). */
module Registry {
  import opened Basics

  type Socket = Text

  /** The version a connection manager reports. */
  type Version = Text

  /** Whether a reported version compares equal to the extension's own, in the version library's sense. */
  type Check = Version -> bool

  /** A connected gRPC client; `id` is the identity of the shared pointer. */
  datatype Conn = Conn(id: nat, version: Version)

  /** What happens when a new client is created and asked for its version. */
  datatype Reply = Refused | CallFailed | Unparsable | Answers(version: Version)

  datatype Result = Connected(conn: Conn) | Error | Panicked

  datatype Phase =
    | Looking
    | Missed
    | Verified(conn: Conn)
    | Inserted
    | Returned(result: Result)

  datatype Call = Call(socket: Socket, phase: Phase)

  datatype State = State(clients: map<Socket, Conn>, calls: map<nat, Call>, nextId: nat)

  /** One atomic step of one call; `made` says whether the PHP object of a client that was found could be
      built. */
  datatype Action =
    | Begin(call: nat, socket: Socket)
    | Lookup(call: nat, made: bool)
    | Create(call: nat, reply: Reply)
    | Insert(call: nat)
    | Relook(call: nat, made: bool)

  // ----- The steps -----

  /** The creation of a client and the version check. */
  function Checked(same: Check, id: nat, reply: Reply): Phase {
    match reply
    case Refused => Returned(Error)
    case CallFailed => Returned(Error)
    case Unparsable => Returned(Panicked)
    case Answers(v) => if same(v) then Verified(Conn(id, v)) else Returned(Error)
  }

  predicate At(s: State, i: nat, phase: Phase) {
    i in s.calls && s.calls[i].phase == phase
  }

  function Move(s: State, i: nat, phase: Phase): State
    requires i in s.calls
  {
    s.(calls := s.calls[i := s.calls[i].(phase := phase)])
  }

  /** An action that is not enabled does nothing. */
  function Act(same: Check, s: State, a: Action): State {
    match a
    case Begin(i, socket) => if i in s.calls then s else s.(calls := s.calls[i := Call(socket, Looking)])
    case Lookup(i, made) =>
      if !At(s, i, Looking) then s
      else if s.calls[i].socket in s.clients && made then Move(s, i, Returned(Connected(s.clients[s.calls[i].socket])))
      else Move(s, i, Missed)
    case Create(i, reply) =>
      if !At(s, i, Missed) then s
      else Move(s, i, Checked(same, s.nextId, reply)).(nextId := s.nextId + 1)
    case Insert(i) =>
      if i !in s.calls || !s.calls[i].phase.Verified? then s
      else Move(s, i, Inserted).(clients := s.clients[s.calls[i].socket := s.calls[i].phase.conn])
    case Relook(i, made) =>
      if !At(s, i, Inserted) then s
      else if s.calls[i].socket in s.clients && made then Move(s, i, Returned(Connected(s.clients[s.calls[i].socket])))
      else Move(s, i, Returned(Error))
  }

  function Run(same: Check, s: State, acts: seq<Action>): State {
    if acts == [] then s else Act(same, Run(same, s, acts[..|acts| - 1]), acts[|acts| - 1])
  }

  const EMPTY := State(map[], map[], 0)

  // ----- The objects -----

  /** The global map of clients; each method body runs under its lock or calls one that does. */
  class Clients {
    var clients: map<Socket, Conn>

    constructor ()
      ensures clients == map[]
    {
      clients := map[];
    }

    method Persist(socket: Socket, c: Conn)
      modifies this
      ensures clients == old(clients)[socket := c]
    {
      clients := clients[socket := c];
    }

    method GetPersisted(socket: Socket, made: bool) returns (c: Option<Conn>)
      ensures c.Some? <==> socket in clients && made
      ensures c.Some? ==> c.value == clients[socket]
    {
      c := if socket in clients && made then Some(clients[socket]) else None;
    }

    /** A call of `connect` with no other call in between; `id` names the client it may create. */
    method Connect(same: Check, socket: Socket, id: nat, reply: Reply, looked: bool, relooked: bool)
      returns (result: Result)
      modifies this
      ensures (clients, result) == Alone(same, old(clients), socket, id, reply, looked, relooked)
      ensures socket in old(clients) && looked ==> clients == old(clients) && result == Connected(clients[socket])
      ensures !(socket in old(clients) && looked) ==>
                match reply
                case Answers(v) =>
                  if same(v)
                  then clients == old(clients)[socket := Conn(id, v)]
                       && result == if relooked then Connected(Conn(id, v)) else Error
                  else clients == old(clients) && result == Error
                case Unparsable => clients == old(clients) && result == Panicked
                case _ => clients == old(clients) && result == Error
    {
      var found := GetPersisted(socket, looked);
      if found.Some? {
        return Connected(found.value);
      }
      if reply.Refused? || reply.CallFailed? {
        return Error;
      }
      if reply.Unparsable? {
        return Panicked;
      }
      if !same(reply.version) {
        return Error;
      }
      Persist(socket, Conn(id, reply.version));
      found := GetPersisted(socket, relooked);
      if found.Some? {
        return Connected(found.value);
      }
      return Error;
    }
  }

  /** An undisturbed call returns the registered client, or registers and returns a new one whose
      version matches; `looked` and `relooked` say whether the two lookups could build the PHP object. */
  function Alone(same: Check, clients: map<Socket, Conn>, socket: Socket, id: nat, reply: Reply,
                 looked: bool, relooked: bool)
    : (map<Socket, Conn>, Result)
  {
    if socket in clients && looked then (clients, Connected(clients[socket]))
    else if reply.Answers? && same(reply.version)
    then (clients[socket := Conn(id, reply.version)], if relooked then Connected(Conn(id, reply.version)) else Error)
    else (clients, if reply.Unparsable? then Panicked else Error)
  }

  /** The five steps of a call, run without interruption, are the sequential `connect`. */
  lemma AloneIsRun(same: Check, s: State, i: nat, socket: Socket, reply: Reply, looked: bool, relooked: bool)
    requires i !in s.calls
    ensures var acts := [Begin(i, socket), Lookup(i, looked), Create(i, reply), Insert(i), Relook(i, relooked)];
      var (clients, result) := Alone(same, s.clients, socket, s.nextId, reply, looked, relooked);
      && Run(same, s, acts).clients == clients
      && At(Run(same, s, acts), i, Returned(result))
  {
    var s2 := Act(same, Act(same, s, Begin(i, socket)), Lookup(i, looked));
    RunFive(same, s, Begin(i, socket), Lookup(i, looked), Create(i, reply), Insert(i), Relook(i, relooked));
  }

  lemma RunFive(same: Check, s: State, a: Action, b: Action, c: Action, d: Action, e: Action)
    ensures Run(same, s, [a, b, c, d, e])
         == Act(same, Act(same, Act(same, Act(same, Act(same, s, a), b), c), d), e)
  {
    assert [] + [a] == [a] && [a] + [b] == [a, b] && [a, b] + [c] == [a, b, c];
    assert [a, b, c] + [d] == [a, b, c, d] && [a, b, c, d] + [e] == [a, b, c, d, e];
    RunMore(same, s, [], a);
    RunMore(same, s, [a], b);
    RunMore(same, s, [a, b], c);
    RunMore(same, s, [a, b, c], d);
    RunMore(same, s, [a, b, c, d], e);
  }

  lemma RunMore(same: Check, s: State, acts: seq<Action>, a: Action)
    ensures Run(same, s, acts + [a]) == Act(same, Run(same, s, acts), a)
  {
    assert (acts + [a])[..|acts|] == acts;
  }

  // ----- Safety of every run -----

  /** Every registered or returned client passed the version check, and a call that inserted its
      client will find the socket registered. */
  ghost predicate Sound(same: Check, s: State) {
    && (forall k | k in s.clients :: same(s.clients[k].version))
    && forall i | i in s.calls :: SoundCall(same, s.clients, s.calls[i])
  }

  predicate SoundCall(same: Check, clients: map<Socket, Conn>, call: Call) {
    match call.phase
    case Verified(c) => same(c.version)
    case Inserted => call.socket in clients
    case Returned(Connected(c)) => same(c.version)
    case _ => true
  }

  /** A client waiting to be inserted is not registered yet and waits in one call only. */
  ghost predicate Fresh(s: State) {
    && (forall k | k in s.clients :: s.clients[k].id < s.nextId)
    && (forall i | Waits(s, i) :: s.calls[i].phase.conn.id < s.nextId)
    && (forall i, k | Waits(s, i) && k in s.clients :: s.clients[k].id != s.calls[i].phase.conn.id)
    && forall i, j | Waits(s, i) && Waits(s, j) && i != j :: s.calls[i].phase.conn.id != s.calls[j].phase.conn.id
  }

  predicate Waits(s: State, i: nat) {
    i in s.calls && s.calls[i].phase.Verified?
  }

  ghost predicate Inv(same: Check, s: State) {
    Sound(same, s) && Fresh(s)
  }

  lemma ActKeepsSound(same: Check, s: State, a: Action)
    requires Sound(same, s)
    ensures Sound(same, Act(same, s, a))
  {
    var s' := Act(same, s, a);
    forall i | i in s'.calls
      ensures SoundCall(same, s'.clients, s'.calls[i])
    {
      assert i in s.calls ==> SoundCall(same, s.clients, s.calls[i]);
    }
  }

  lemma ActKeepsFresh(same: Check, s: State, a: Action)
    requires Fresh(s)
    ensures Fresh(Act(same, s, a))
  {
    if a.Create? && At(s, a.call, Missed) {
      CreateKeepsFresh(same, s, a.call, a.reply);
    } else if a.Insert? && Waits(s, a.call) {
      InsertKeepsFresh(same, s, a.call);
    } else {
      OtherKeepsFresh(same, s, a);
    }
  }

  lemma CreateKeepsFresh(same: Check, s: State, i: nat, reply: Reply)
    requires Fresh(s) && At(s, i, Missed)
    ensures Fresh(Act(same, s, Create(i, reply)))
  {
    var s' := Act(same, s, Create(i, reply));
    assert forall j | Waits(s', j) ::
        if j == i then s'.calls[j].phase.conn.id == s.nextId else Waits(s, j) && s'.calls[j] == s.calls[j];
  }

  lemma OtherKeepsFresh(same: Check, s: State, a: Action)
    requires Fresh(s) && !(a.Create? && At(s, a.call, Missed)) && !(a.Insert? && Waits(s, a.call))
    ensures Fresh(Act(same, s, a))
  {
    var s' := Act(same, s, a);
    assert s'.clients == s.clients && s'.nextId == s.nextId;
    forall i | Waits(s', i) ensures Waits(s, i) && s'.calls[i] == s.calls[i] {
      OtherWaits(same, s, a, i);
    }
  }

  lemma OtherWaits(same: Check, s: State, a: Action, i: nat)
    requires !(a.Create? && At(s, a.call, Missed)) && Waits(Act(same, s, a), i)
    ensures Waits(s, i) && Act(same, s, a).calls[i] == s.calls[i]
  {
  }

  lemma InsertKeepsFresh(same: Check, s: State, i: nat)
    requires Fresh(s) && Waits(s, i)
    ensures Fresh(Act(same, s, Insert(i)))
  {
    var s' := Act(same, s, Insert(i));
    assert forall j | Waits(s', j) :: j != i && Waits(s, j) && s'.calls[j] == s.calls[j];
  }

  lemma ActKeepsInv(same: Check, s: State, a: Action)
    requires Inv(same, s)
    ensures Inv(same, Act(same, s, a))
  {
    ActKeepsSound(same, s, a);
    ActKeepsFresh(same, s, a);
  }

  /** In every run every registered client has passed the version check, every client returned has
      too, and no call that inserted a client misses it afterwards. */
  lemma {:induction false} RegistrySafe(same: Check, acts: seq<Action>)
    ensures Inv(same, Run(same, EMPTY, acts))
  {
    if acts != [] {
      RegistrySafe(same, acts[..|acts| - 1]);
      ActKeepsInv(same, Run(same, EMPTY, acts[..|acts| - 1]), acts[|acts| - 1]);
    }
  }

  /** A client just persisted is still registered when it is looked up again: the final error of `connect`
      occurs exactly if the PHP object cannot be built. */
  lemma RelookFinds(same: Check, acts: seq<Action>, i: nat, made: bool)
    requires At(Run(same, EMPTY, acts), i, Inserted)
    ensures var s := Run(same, EMPTY, acts);
      && s.calls[i].socket in s.clients
      && Act(same, s, Relook(i, made)).calls[i].phase
         == Returned(if made then Connected(s.clients[s.calls[i].socket]) else Error)
  {
    RegistrySafe(same, acts);
  }

  lemma ActForgetsNothing(same: Check, s: State, a: Action)
    ensures s.clients.Keys <= Act(same, s, a).clients.Keys
    ensures forall i | i in s.calls ::
              && i in Act(same, s, a).calls
              && Act(same, s, a).calls[i].socket == s.calls[i].socket
              && (s.calls[i].phase.Returned? ==> Act(same, s, a).calls[i] == s.calls[i])
  {
  }

  /** Registered sockets stay registered and returned results never change. */
  lemma {:induction false} NothingForgotten(same: Check, s: State, acts: seq<Action>)
    ensures s.clients.Keys <= Run(same, s, acts).clients.Keys
    ensures forall i | i in s.calls ::
              && i in Run(same, s, acts).calls
              && Run(same, s, acts).calls[i].socket == s.calls[i].socket
              && (s.calls[i].phase.Returned? ==> Run(same, s, acts).calls[i] == s.calls[i])
  {
    if acts != [] {
      NothingForgotten(same, s, acts[..|acts| - 1]);
      ActForgetsNothing(same, Run(same, s, acts[..|acts| - 1]), acts[|acts| - 1]);
    }
  }

  /** The step in which a call returns a client reads that client from the registry. */
  lemma ReturnReads(same: Check, s: State, a: Action, i: nat, c: Conn)
    requires !At(s, i, Returned(Connected(c))) && At(Act(same, s, a), i, Returned(Connected(c)))
    ensures i in s.calls && s.calls[i].socket in s.clients && s.clients[s.calls[i].socket] == c
    ensures Act(same, s, a).calls[i].socket == s.calls[i].socket
  {
  }

  /** A client returned by a call was the registered one at the moment `k` of the run at which it was
      read. */
  lemma {:induction false} ResultWasRegistered(same: Check, acts: seq<Action>, i: nat, c: Conn) returns (k: nat)
    requires At(Run(same, EMPTY, acts), i, Returned(Connected(c)))
    ensures k < |acts|
    ensures Run(same, EMPTY, acts).calls[i].socket in Run(same, EMPTY, acts[..k]).clients
    ensures Run(same, EMPTY, acts[..k]).clients[Run(same, EMPTY, acts).calls[i].socket] == c
    ensures !At(Run(same, EMPTY, acts[..k]), i, Returned(Connected(c)))
    ensures At(Run(same, EMPTY, acts[..k + 1]), i, Returned(Connected(c)))
  {
    var n := |acts| - 1;
    var init := acts[..n];
    var s := Run(same, EMPTY, init);
    assert acts[..n + 1] == acts;
    if At(s, i, Returned(Connected(c))) {
      k := ResultWasRegistered(same, init, i, c);
      assert init[..k] == acts[..k] && init[..k + 1] == acts[..k + 1];
      NothingForgotten(same, s, [acts[n]]);
      assert Run(same, s, [acts[n]]) == Act(same, Run(same, s, [acts[n]][..0]), acts[n]);
    } else {
      k := n;
      ReturnReads(same, s, acts[n], i, c);
    }
  }

  // ----- Stability -----

  /** The socket is registered and no call that earlier missed it is still going to insert. */
  predicate Settled(s: State, socket: Socket) {
    && socket in s.clients
    && forall i | i in s.calls && s.calls[i].socket == socket ::
         !s.calls[i].phase.Missed? && !s.calls[i].phase.Verified?
  }

  /** The step does not fail to build the PHP object of a registered client. */
  predicate Builds(a: Action) {
    (a.Lookup? ==> a.made) && (a.Relook? ==> a.made)
  }

  lemma ActSettled(same: Check, s: State, a: Action, socket: Socket)
    requires Settled(s, socket) && Builds(a)
    ensures Settled(Act(same, s, a), socket) && Act(same, s, a).clients[socket] == s.clients[socket]
    ensures forall i | i in Act(same, s, a).calls && Act(same, s, a).calls[i].socket == socket ::
              (i in s.calls && Act(same, s, a).calls[i] == s.calls[i])
              || !Act(same, s, a).calls[i].phase.Returned?
              || (i in s.calls && !s.calls[i].phase.Returned?
                  && Act(same, s, a).calls[i].phase == Returned(Connected(s.clients[socket])))
  {
  }

  /** Once settled, a socket keeps its client as long as PHP objects can be built, and every call on it that
      returns from then on returns that same client. */
  lemma {:induction false} SettledForever(same: Check, s: State, acts: seq<Action>, socket: Socket)
    requires Settled(s, socket) && forall a | a in acts :: Builds(a)
    ensures Settled(Run(same, s, acts), socket)
    ensures Run(same, s, acts).clients[socket] == s.clients[socket]
    ensures forall i | i in Run(same, s, acts).calls && Run(same, s, acts).calls[i].socket == socket ::
              var phase := Run(same, s, acts).calls[i].phase;
              phase.Returned? && !(i in s.calls && s.calls[i].phase.Returned?)
              ==> phase == Returned(Connected(s.clients[socket]))
  {
    if acts != [] {
      SettledForever(same, s, acts[..|acts| - 1], socket);
      ActSettled(same, Run(same, s, acts[..|acts| - 1]), acts[|acts| - 1], socket);
    }
  }

  /** A registered socket that is not settled can still lose its client. */
  lemma UnsettledMayChange(same: Check, own: Version, s: State, socket: Socket) returns (acts: seq<Action>)
    requires same(own)
    requires Inv(same, s) && socket in s.clients && !Settled(s, socket)
    ensures forall a | a in acts :: Builds(a)
    ensures socket in Run(same, s, acts).clients && Run(same, s, acts).clients[socket] != s.clients[socket]
  {
    var i :| i in s.calls && s.calls[i].socket == socket
             && (s.calls[i].phase.Missed? || s.calls[i].phase.Verified?);
    if s.calls[i].phase.Verified? {
      acts := [Insert(i)];
      assert Run(same, s, acts) == Act(same, Run(same, s, acts[..0]), Insert(i));
    } else {
      acts := [Create(i, Answers(own)), Insert(i)];
      var s1 := Act(same, s, Create(i, Answers(own)));
      assert acts[..1][..0] == [] && Run(same, s, acts[..1]) == s1;
      assert Run(same, s, acts) == Act(same, s1, Insert(i));
    }
  }

  /** A reachable registration is permanent, as long as PHP objects can be built, exactly when it is settled;
      `own` is the extension's own version. */
  lemma PermanentIffSettled(same: Check, own: Version, acts: seq<Action>, socket: Socket)
    requires same(own)
    requires socket in Run(same, EMPTY, acts).clients
    ensures var s := Run(same, EMPTY, acts);
      Settled(s, socket)
      <==> forall more: seq<Action> | (forall a | a in more :: Builds(a)) ::
             socket in Run(same, s, more).clients && Run(same, s, more).clients[socket] == s.clients[socket]
  {
    var s := Run(same, EMPTY, acts);
    RegistrySafe(same, acts);
    if Settled(s, socket) {
      forall more: seq<Action> | forall a | a in more :: Builds(a)
        ensures socket in Run(same, s, more).clients && Run(same, s, more).clients[socket] == s.clients[socket]
      {
        SettledForever(same, s, more, socket);
      }
    } else {
      var more := UnsettledMayChange(same, own, s, socket);
    }
  }

  /** A lookup that cannot build the PHP object makes its call replace even a settled registration. */
  lemma UnbuiltReplaces(same: Check, own: Version, acts: seq<Action>, i: nat, socket: Socket)
    requires same(own) && socket in Run(same, EMPTY, acts).clients && i !in Run(same, EMPTY, acts).calls
    ensures var s := Run(same, EMPTY, acts);
      var more := [Begin(i, socket), Lookup(i, false), Create(i, Answers(own)), Insert(i), Relook(i, true)];
      && socket in Run(same, s, more).clients && Run(same, s, more).clients[socket] != s.clients[socket]
      && At(Run(same, s, more), i, Returned(Connected(Run(same, s, more).clients[socket])))
  {
    RegistrySafe(same, acts);
    AloneIsRun(same, Run(same, EMPTY, acts), i, socket, Answers(own), false, true);
  }

  /** Two calls that overlap before either inserts: the registration of the first is not final, and the
      second replaces it although the first call may already have returned it. */
  lemma OverlapReplaces(same: Check, own: Version, socket: Socket)
    requires same(own)
    ensures var acts := [Begin(0, socket), Begin(1, socket), Lookup(0, true), Lookup(1, true),
                         Create(0, Answers(own)), Create(1, Answers(own)), Insert(0), Relook(0, true)];
      var s, first, second := Run(same, EMPTY, acts), Conn(0, own), Conn(1, own);
      && !Settled(s, socket) && socket in s.clients && s.clients[socket] == first
      && At(s, 0, Returned(Connected(first)))
      && Run(same, EMPTY, acts + [Insert(1)]).clients == map[socket := second]
  {
    var two := Overlapping(own, socket);
    BothVerified(same, own, socket);
    var front := [Begin(0, socket), Begin(1, socket), Lookup(0, true), Lookup(1, true),
                  Create(0, Answers(own)), Create(1, Answers(own))];
    RunMore(same, EMPTY, front, Insert(0));
    RunMore(same, EMPTY, front + [Insert(0)], Relook(0, true));
    RunMore(same, EMPTY, front + [Insert(0)] + [Relook(0, true)], Insert(1));
    assert front + [Insert(0)] + [Relook(0, true)]
        == [Begin(0, socket), Begin(1, socket), Lookup(0, true), Lookup(1, true),
            Create(0, Answers(own)), Create(1, Answers(own)), Insert(0), Relook(0, true)];
    OverlapEnds(same, own, socket, two);
  }

  /** Two calls on one socket, both about to insert. */
  function Overlapping(own: Version, socket: Socket): State {
    State(map[], map[0 := Call(socket, Verified(Conn(0, own))), 1 := Call(socket, Verified(Conn(1, own)))], 2)
  }

  lemma BothVerified(same: Check, own: Version, socket: Socket)
    requires same(own)
    ensures Run(same, EMPTY, [Begin(0, socket), Begin(1, socket), Lookup(0, true), Lookup(1, true),
                              Create(0, Answers(own)), Create(1, Answers(own))])
         == Overlapping(own, socket)
  {
    var front := [Begin(0, socket), Begin(1, socket), Lookup(0, true), Lookup(1, true), Create(0, Answers(own))];
    RunFive(same, EMPTY, front[0], front[1], front[2], front[3], front[4]);
    RunMore(same, EMPTY, front, Create(1, Answers(own)));
    BothMiss(same, socket);
    BothCreate(same, own, socket, State(map[], map[0 := Call(socket, Missed), 1 := Call(socket, Missed)], 0));
    assert front + [Create(1, Answers(own))]
        == [Begin(0, socket), Begin(1, socket), Lookup(0, true), Lookup(1, true),
            Create(0, Answers(own)), Create(1, Answers(own))];
  }

  lemma BothCreate(same: Check, own: Version, socket: Socket, s: State)
    requires same(own) && s == State(map[], map[0 := Call(socket, Missed), 1 := Call(socket, Missed)], 0)
    ensures Act(same, Act(same, s, Create(0, Answers(own))), Create(1, Answers(own))) == Overlapping(own, socket)
  {
    assert Act(same, s, Create(0, Answers(own)))
        == State(map[], map[0 := Call(socket, Verified(Conn(0, own))), 1 := Call(socket, Missed)], 1);
  }

  lemma BothMiss(same: Check, socket: Socket)
    ensures var s := Act(same, Act(same, EMPTY, Begin(0, socket)), Begin(1, socket));
      Act(same, Act(same, s, Lookup(0, true)), Lookup(1, true))
         == State(map[], map[0 := Call(socket, Missed), 1 := Call(socket, Missed)], 0)
  {
    var s := Act(same, Act(same, EMPTY, Begin(0, socket)), Begin(1, socket));
    assert s == State(map[], map[0 := Call(socket, Looking), 1 := Call(socket, Looking)], 0);
  }

  lemma OverlapEnds(same: Check, own: Version, socket: Socket, two: State)
    requires two == Overlapping(own, socket)
    ensures var s, first, second := Act(same, Act(same, two, Insert(0)), Relook(0, true)), Conn(0, own), Conn(1, own);
      && !Settled(s, socket) && socket in s.clients && s.clients[socket] == first
      && At(s, 0, Returned(Connected(first)))
      && Act(same, s, Insert(1)).clients == map[socket := second]
  {
    var s := Act(same, Act(same, two, Insert(0)), Relook(0, true));
    var call := Call(socket, Verified(Conn(1, own)));
    assert s == State(map[socket := Conn(0, own)],
                      map[0 := Call(socket, Returned(Connected(Conn(0, own)))), 1 := call], 2);
    assert 1 in s.calls && s.calls[1] == call;
    assert Act(same, s, Insert(1)).clients == s.clients[socket := Conn(1, own)];
  }
}
