/**
 The pool (src/pool.rs) and runs of many clients and statements. A step of a run is one whole
 operation with the effect its method in `Clients` promises, cancelled and failed ones included.
 */
module Pools {
  import opened Wrappers
  import opened Values
  import opened Native
  import opened Operations
  import opened Clients

  datatype RecyclingMethod = ResetRecycling | PingRecycling

  class TdsManager {
    var recyclingMethod: RecyclingMethod

    constructor ()
      ensures recyclingMethod == ResetRecycling
    {
      recyclingMethod := ResetRecycling;
    }

    method WithRecyclingMethod(recycling: RecyclingMethod)
      modifies this
      ensures recyclingMethod == recycling
    {
      recyclingMethod := recycling;
    }

    /** Whether `client` may be handed out again; the pool discards it unless the result is success. */
    method Recycle(client: Client, token: Addr, answer: Answer) returns (o: Await<()>)
      requires client.Valid()
      modifies client`preparedSession, client.inner
      ensures client.Valid() && old(client.inner.history) <= client.inner.history
      ensures Recycled(recyclingMethod, old(client.inner.conn), old(client.preparedSession), token,
                       o == Ready(Ok(())), client.inner.conn, client.preparedSession)
    {
      var usable := EnsureUsable(client.inner.conn);
      if usable.Err? {
        return Ready(Err(usable.error));
      }
      match recyclingMethod {
        case ResetRecycling =>
          o := client.ResetSession(token, answer);
        case PingRecycling =>
          var result := client.Ping();
          o := Ready(result);
      }
    }
  }

  /** The effect of recycling on a client's connection and session token. */
  predicate Recycled(recycling: RecyclingMethod, c: Conn, session: Addr, token: Addr, handedOut: bool, c': Conn, session': Addr) {
    if c.dead then !handedOut && c' == c && session' == session
    else
      match recycling
      case PingRecycling => handedOut && c' == c && session' == session
      case ResetRecycling => Reset(c, handedOut, c') && session' == token
  }

  // ---------------------------------------------------------------------
  // Runs
  // ---------------------------------------------------------------------

  datatype ClientState = ClientState(conn: Conn, token: Addr)

  /** A live statement, and the client and session epoch that issued its handle. */
  datatype Held = Held(stmt: PreparedStatement, owner: nat, epoch: nat)

  /**
   Clients and statements by identity; identities are never used twice, addresses of session tokens
   are. `issued` records every handle a server has returned, with its client and epoch.
   */
  datatype World = World(
    clients: map<nat, ClientState>,
    pooled: set<nat>,
    held: map<nat, Held>,
    nextId: nat,
    issued: set<(nat, nat, int)>)

  const NOTHING := World(map[], {}, map[], 0, {})

  /** Addresses that some `Arc` still refers to. */
  ghost predicate InUse(w: World, a: Addr) {
    || (exists id | id in w.clients :: w.clients[id].token == a)
    || (exists s | s in w.held :: w.held[s].stmt.session == a)
  }

  datatype Event =
    | Connect(token: Addr)
    | Operate(id: nat, request: Request)
    | PrepareOk(id: nat, stmt: PreparedStatement, declaration: string, outputs: seq<ColumnValues>)
    | UseHeld(id: nat, s: nat, request: Request)
    | DropHeld(s: nat)
    | ResetBy(id: nat, token: Addr, succeeded: bool)
    | Return(id: nat)
    | Checkout(id: nat, recycling: RecyclingMethod, token: Addr, handedOut: bool)
    | Discard(id: nat)

  predicate Borrowed(w: World, id: nat) {
    id in w.clients && id !in w.pooled
  }

  function WithConn(w: World, id: nat, conn: Conn): World
    requires id in w.clients
  {
    w.(clients := w.clients[id := w.clients[id].(conn := conn)])
  }

  /** The handle a request uses, if any. */
  function HandleOf(request: Request): Option<int> {
    match request
    case ExecutePrepared(handle, _) => Some(handle)
    case Unprepare(handle) => Some(handle)
    case _ => None
  }

  /** The allocator returns an address that no live `Arc` has. */
  ghost predicate Step(w: World, e: Event, w': World) {
    match e
    case Connect(token) =>
      && !InUse(w, token)
      && w.nextId in w'.clients
      && var c := w'.clients[w.nextId];
      && c.token == token && Clean(c.conn) && !c.conn.resetArmed && c.conn.sent == []
      && w' == w.(clients := w.clients[w.nextId := c], nextId := w.nextId + 1)
    case Operate(id, request) =>
      && Borrowed(w, id) && id in w'.clients && HandleOf(request).None?
      && Served(w.clients[id].conn, request, w'.clients[id].conn)
      && w' == WithConn(w, id, w'.clients[id].conn)
    case PrepareOk(id, stmt, declaration, outputs) =>
      && outputs == [ColumnValues.Int(stmt.handle)]
      && Borrowed(w, id) && id in w'.clients
      && var c, c' := w.clients[id].conn, w'.clients[id].conn;
      && !c.dead && Served(c, Request.Prepare(stmt.sql, declaration), c') && !c'.dead
      && stmt.session == w.clients[id].token
      && w' == WithConn(w, id, c').(held := w.held[w.nextId := Held(stmt, id, c.epoch)],
                                    nextId := w.nextId + 1,
                                    issued := w.issued + {(id, c.epoch, stmt.handle)})
    case UseHeld(id, s, request) =>
      && Borrowed(w, id) && id in w'.clients && s in w.held
      && var c, c', stmt := w.clients[id].conn, w'.clients[id].conn, w.held[s].stmt;
      && HandleOf(request) == Some(stmt.handle)
      && (if !c.dead && stmt.session != w.clients[id].token then c' == c else Served(c, request, c'))
      && w' == WithConn(w, id, c').(held := if request.Unprepare? then w.held - {s} else w.held)
    case DropHeld(s) =>
      w' == w.(held := w.held - {s})
    case ResetBy(id, token, succeeded) =>
      && Borrowed(w, id) && id in w'.clients && !InUse(w, token)
      && Recycled(ResetRecycling, w.clients[id].conn, w.clients[id].token, token,
                  succeeded, w'.clients[id].conn, w'.clients[id].token)
      && w' == w.(clients := w.clients[id := w'.clients[id]])
    case Return(id) =>
      Borrowed(w, id) && w' == w.(pooled := w.pooled + {id})
    case Checkout(id, recycling, token, handedOut) =>
      && id in w.clients && id in w.pooled && id in w'.clients && !InUse(w, token)
      && Recycled(recycling, w.clients[id].conn, w.clients[id].token, token,
                  handedOut, w'.clients[id].conn, w'.clients[id].token)
      && w' == w.(clients := w.clients[id := w'.clients[id]],
                  pooled := if handedOut then w.pooled - {id} else w.pooled)
    case Discard(id) =>
      w' == w.(clients := w.clients - {id}, pooled := w.pooled - {id})
  }

  ghost predicate Run(worlds: seq<World>, events: seq<Event>) {
    && |worlds| == |events| + 1
    && worlds[0] == NOTHING
    && forall i | 0 <= i < |events| :: Step(worlds[i], events[i], worlds[i + 1])
  }

  // ---------------------------------------------------------------------
  // The methods' effects are steps
  // ---------------------------------------------------------------------

  /** Any call that does not use a handle: a query, an execution, a stream however far read, a bulk load, a failed prepare. */
  lemma ServedIsOperate(w: World, id: nat, request: Request, c': Conn)
    requires Borrowed(w, id) && HandleOf(request).None? && Served(w.clients[id].conn, request, c')
    ensures Step(w, Operate(id, request), WithConn(w, id, c'))
  {
  }

  /** What `Client.Prepare` delivers when it succeeds. */
  lemma PreparedIsStep(w: World, id: nat, sql: string, declaration: string, answer: Answer,
                       o: Await<PreparedStatement>, c': Conn)
    requires Borrowed(w, id) && o.Ready? && o.result.Ok?
    requires Delivered(w.clients[id].conn, Request.Prepare(sql, declaration), answer,
                       PreparedFrom(answer, sql, w.clients[id].token), o, c')
    ensures var stmt, c := o.result.value, w.clients[id].conn;
      Step(w, PrepareOk(id, stmt, declaration, answer.outputs),
           WithConn(w, id, c').(held := w.held[w.nextId := Held(stmt, id, c.epoch)], nextId := w.nextId + 1,
                                issued := w.issued + {(id, c.epoch, stmt.handle)}))
  {
    PreparedFromOutput(answer, sql, w.clients[id].token);
  }

  /** The world after a statement was used; unpreparing consumes it. */
  function AfterUse(w: World, id: nat, s: nat, request: Request, c': Conn): World
    requires id in w.clients
  {
    WithConn(w, id, c').(held := if request.Unprepare? then w.held - {s} else w.held)
  }

  /** What the calls that use a statement promise. */
  lemma UsedIsStep<A(!new)>(w: World, id: nat, s: nat, request: Request, answer: Answer,
                            expected: Result<A>, o: Await<A>, c': Conn)
    requires Borrowed(w, id) && s in w.held && HandleOf(request) == Some(w.held[s].stmt.handle)
    requires Used(w.clients[id].conn, w.clients[id].token, w.held[s].stmt, request, answer, expected, o, c')
    ensures Step(w, UseHeld(id, s, request), AfterUse(w, id, s, request, c'))
  {
  }

  /** What `Client.ResetSession` promises: the token is renewed on a live connection, and the reset succeeds or kills. */
  lemma ResetIsStep(w: World, id: nat, token: Addr, o: Await<()>, c': ClientState)
    requires Borrowed(w, id) && !InUse(w, token)
    requires var c := w.clients[id];
      && (c.conn.dead ==> o == Ready(Err(ConnectionClosed)) && c'.token == c.token)
      && (!c.conn.dead ==> c'.token == token)
      && Reset(c.conn, o == Ready(Ok(())), c'.conn)
    ensures Step(w, ResetBy(id, token, o == Ready(Ok(()))), w.(clients := w.clients[id := c']))
  {
  }

  /** What `TdsManager.Recycle` promises. */
  lemma RecycledIsStep(w: World, id: nat, recycling: RecyclingMethod, token: Addr, o: Await<()>, c': ClientState)
    requires id in w.clients && id in w.pooled && !InUse(w, token)
    requires Recycled(recycling, w.clients[id].conn, w.clients[id].token, token, o == Ready(Ok(())), c'.conn, c'.token)
    ensures var handedOut := o == Ready(Ok(()));
      Step(w, Checkout(id, recycling, token, handedOut),
           w.(clients := w.clients[id := c'], pooled := if handedOut then w.pooled - {id} else w.pooled))
  {
  }

  // ---------------------------------------------------------------------
  // The invariant
  // ---------------------------------------------------------------------

  /** What is true of one client on its own. */
  ghost predicate ClientOk(w: World, id: nat)
    requires id in w.clients
  {
    var c := w.clients[id].conn;
    && id < w.nextId
    && Idle(c)
    && (forall k | 0 <= k < |c.sent| :: SentOk(w.issued, id, c.sent[k]))
  }

  /** The reset flag went out on a baseline batch only; a handle, to where it was issued only. */
  predicate SentOk(issued: set<(nat, nat, int)>, id: nat, sent: Sent) {
    && (sent.reset ==> sent.request == Batch(BASELINE))
    && (HandleOf(sent.request).Some? ==> (id, sent.epoch, HandleOf(sent.request).value) in issued)
  }

  /** Equal addresses mean the same session, and in a live session the converse. */
  predicate Matched(c: ClientState, id: nat, h: Held) {
    && (h.stmt.session == c.token ==> h.owner == id && h.epoch == c.conn.epoch)
    && (h.owner == id ==> h.epoch <= c.conn.epoch)
    && (h.owner == id && h.epoch == c.conn.epoch && !c.conn.dead ==> h.stmt.session == c.token)
  }

  ghost predicate Inv(w: World) {
    && (forall id | id in w.clients :: ClientOk(w, id))
    && (forall i, j | i in w.clients && j in w.clients && i != j :: w.clients[i].token != w.clients[j].token)
    && (forall s | s in w.held :: s < w.nextId && w.held[s].owner < w.nextId)
    && (forall s | s in w.held :: (w.held[s].owner, w.held[s].epoch, w.held[s].stmt.handle) in w.issued)
    && (forall id, s | id in w.clients && s in w.held :: Matched(w.clients[id], id, w.held[s]))
  }

  /** An ordinary operation whose handle, if it uses one, was issued here keeps its client in order. */
  lemma ServedKeeps(issued: set<(nat, nat, int)>, id: nat, c: Conn, request: Request, c': Conn)
    requires Served(c, request, c') && Idle(c)
    requires forall k | 0 <= k < |c.sent| :: SentOk(issued, id, c.sent[k])
    requires HandleOf(request).Some? && !c.dead ==> (id, c.epoch, HandleOf(request).value) in issued
    ensures Idle(c') && c'.epoch == c.epoch && (c.dead ==> c'.dead)
    ensures forall k | 0 <= k < |c'.sent| :: SentOk(issued, id, c'.sent[k])
  {
  }

  /** So does recycling, under whatever method. */
  lemma RecycledKeeps(issued: set<(nat, nat, int)>, id: nat, recycling: RecyclingMethod, c: Conn, session: Addr,
                      token: Addr, handedOut: bool, c': Conn, session': Addr)
    requires Recycled(recycling, c, session, token, handedOut, c', session') && Idle(c)
    requires forall k | 0 <= k < |c.sent| :: SentOk(issued, id, c.sent[k])
    ensures Idle(c') && c.epoch <= c'.epoch && (c.dead ==> c'.dead)
    ensures (session' == session && c' == c) || (session' == token && (c'.dead || c'.epoch > c.epoch))
    ensures forall k | 0 <= k < |c'.sent| :: SentOk(issued, id, c'.sent[k])
  {
  }

  lemma ConnectKeepsInv(w: World, token: Addr, w': World)
    requires Inv(w) && Step(w, Connect(token), w')
    ensures Inv(w')
  {
    forall i | i in w'.clients ensures ClientOk(w', i) {
      assert i in w.clients ==> ClientOk(w, i);
    }
    forall i, s | i in w'.clients && s in w'.held ensures Matched(w'.clients[i], i, w'.held[s]) {
      if i in w.clients {
        assert Matched(w.clients[i], i, w.held[s]);
      } else {
        assert w.held[s].stmt.session != token;
      }
    }
  }

  /** A step that changes one client's connection, within its epoch, and at most drops statements. */
  lemma ConnKeepsInv(w: World, id: nat, w': World)
    requires Inv(w) && id in w.clients && id in w'.clients
    requires w'.clients == w.clients[id := w.clients[id].(conn := w'.clients[id].conn)]
    requires w'.nextId == w.nextId && w'.issued == w.issued
    requires forall s | s in w'.held :: s in w.held && w'.held[s] == w.held[s]
    requires var c, c' := w.clients[id].conn, w'.clients[id].conn;
      && Idle(c') && c'.epoch == c.epoch && (c.dead ==> c'.dead)
      && forall k | 0 <= k < |c'.sent| :: SentOk(w.issued, id, c'.sent[k])
    ensures Inv(w')
  {
    forall i | i in w'.clients ensures ClientOk(w', i) {
      assert ClientOk(w, i);
    }
    forall i, s | i in w'.clients && s in w'.held ensures Matched(w'.clients[i], i, w'.held[s]) {
      assert Matched(w.clients[i], i, w.held[s]);
    }
  }

  lemma UseKeepsInv(w: World, id: nat, s: nat, request: Request, w': World)
    requires Inv(w) && Step(w, UseHeld(id, s, request), w')
    ensures Inv(w')
  {
    var c := w.clients[id].conn;
    assert ClientOk(w, id);
    assert Matched(w.clients[id], id, w.held[s]);
    if c.dead || w.held[s].stmt.session == w.clients[id].token {
      ServedKeeps(w.issued, id, c, request, w'.clients[id].conn);
    }
    ConnKeepsInv(w, id, w');
  }

  /** Steps that touch no connection. */
  lemma BookkeepingKeepsInv(w: World, w': World)
    requires Inv(w) && w'.nextId == w.nextId && w'.issued == w.issued
    requires forall i | i in w'.clients :: i in w.clients && w'.clients[i] == w.clients[i]
    requires forall s | s in w'.held :: s in w.held && w'.held[s] == w.held[s]
    ensures Inv(w')
  {
    forall i | i in w'.clients ensures ClientOk(w', i) {
      assert ClientOk(w, i);
    }
    forall i, s | i in w'.clients && s in w'.held ensures Matched(w'.clients[i], i, w'.held[s]) {
      assert Matched(w.clients[i], i, w.held[s]);
    }
  }

  lemma StepKeepsInv(w: World, e: Event, w': World)
    requires Inv(w) && Step(w, e, w')
    ensures Inv(w')
  {
    hide Inv;
    match e
    case Connect(token) => ConnectKeepsInv(w, token, w');
    case Operate(id, request) => OperateKeepsInv(w, id, request, w');
    case PrepareOk(id, stmt, declaration, outputs) => PrepareKeepsInv(w, id, stmt, declaration, outputs, w');
    case UseHeld(id, s, request) => UseKeepsInv(w, id, s, request, w');
    case ResetBy(id, token, succeeded) => RecycleKeepsInv(w, id, ResetRecycling, token, succeeded, w');
    case Checkout(id, recycling, token, handedOut) => RecycleKeepsInv(w, id, recycling, token, handedOut, w');
    case DropHeld(_) => BookkeepingKeepsInv(w, w');
    case Return(_) => BookkeepingKeepsInv(w, w');
    case Discard(_) => BookkeepingKeepsInv(w, w');
  }

  lemma OperateKeepsInv(w: World, id: nat, request: Request, w': World)
    requires Inv(w) && Step(w, Operate(id, request), w')
    ensures Inv(w')
  {
    assert ClientOk(w, id);
    ServedKeeps(w.issued, id, w.clients[id].conn, request, w'.clients[id].conn);
    ConnKeepsInv(w, id, w');
  }

  lemma PrepareKeepsInv(w: World, id: nat, stmt: PreparedStatement, declaration: string, outputs: seq<ColumnValues>, w': World)
    requires Inv(w) && Step(w, PrepareOk(id, stmt, declaration, outputs), w')
    ensures Inv(w')
  {
    var c' := w'.clients[id].conn;
    ServedKeeps(w.issued, id, w.clients[id].conn, Request.Prepare(stmt.sql, declaration), c');
    forall i | i in w'.clients ensures ClientOk(w', i) {
      assert ClientOk(w, i);
    }
    forall i, s | i in w'.clients && s in w'.held ensures Matched(w'.clients[i], i, w'.held[s]) {
      if s != w.nextId {
        assert Matched(w.clients[i], i, w.held[s]);
      }
    }
  }

  lemma RecycleKeepsInv(w: World, id: nat, recycling: RecyclingMethod, token: Addr, handedOut: bool, w': World)
    requires Inv(w) && id in w.clients && !InUse(w, token) && id in w'.clients
    requires Recycled(recycling, w.clients[id].conn, w.clients[id].token, token,
                      handedOut, w'.clients[id].conn, w'.clients[id].token)
    requires w'.clients == w.clients[id := w'.clients[id]]
    requires w'.held == w.held && w'.nextId == w.nextId && w'.issued == w.issued
    ensures Inv(w')
  {
    RecycledKeeps(w.issued, id, recycling, w.clients[id].conn, w.clients[id].token, token,
                  handedOut, w'.clients[id].conn, w'.clients[id].token);
    forall i | i in w'.clients ensures ClientOk(w', i) {
      assert ClientOk(w, i);
    }
    forall i, s | i in w'.clients && s in w'.held ensures Matched(w'.clients[i], i, w'.held[s]) {
      assert Matched(w.clients[i], i, w.held[s]);
      assert w.held[s].stmt.session != token;
    }
  }

  lemma {:induction false} RunKeepsInv(worlds: seq<World>, events: seq<Event>, i: nat)
    requires Run(worlds, events) && i < |worlds|
    ensures Inv(worlds[i])
  {
    if i > 0 {
      RunKeepsInv(worlds, events, i - 1);
      StepKeepsInv(worlds[i - 1], events[i - 1], worlds[i]);
    }
  }

  // ---------------------------------------------------------------------
  // Prepared handles
  // ---------------------------------------------------------------------

  /**
   At every moment of every run: if a statement's token has the address of a client's token, then the
   statement was prepared on that client in its present session, even though addresses are reused;
   and on a live client the test refuses no statement of the present session.
   */
  lemma PtrEqMeansSameSession(worlds: seq<World>, events: seq<Event>, i: nat, id: nat, s: nat)
    requires Run(worlds, events) && i < |worlds| && id in worlds[i].clients && s in worlds[i].held
    ensures var c, h := worlds[i].clients[id], worlds[i].held[s];
      && (ValidateSession(h.stmt, c.token).Ok? ==> h.owner == id && h.epoch == c.conn.epoch)
      && (!c.conn.dead ==> (ValidateSession(h.stmt, c.token).Ok? <==> h.owner == id && h.epoch == c.conn.epoch))
  {
    RunKeepsInv(worlds, events, i);
    assert Matched(worlds[i].clients[id], id, worlds[i].held[s]);
  }

  /** A handle is issued by a successful prepare on that client in that epoch, and by nothing else. */
  lemma {:induction false} IssuedByPrepare(worlds: seq<World>, events: seq<Event>, i: nat, id: nat, epoch: nat, handle: int)
    returns (j: nat)
    requires Run(worlds, events) && i < |worlds| && (id, epoch, handle) in worlds[i].issued
    ensures j < i && events[j].PrepareOk? && events[j].id == id && events[j].outputs == [ColumnValues.Int(handle)]
    ensures id in worlds[j].clients && worlds[j].clients[id].conn.epoch == epoch
  {
    var e := events[i - 1];
    if (id, epoch, handle) in worlds[i - 1].issued {
      j := IssuedByPrepare(worlds, events, i - 1, id, epoch, handle);
    } else {
      j := i - 1;
    }
  }

  /** Every handle ever sent was issued before on the same client and in the same session epoch. */
  lemma HandlesStayHome(worlds: seq<World>, events: seq<Event>, i: nat, id: nat, k: nat) returns (j: nat)
    requires Run(worlds, events) && i < |worlds| && id in worlds[i].clients
    requires k < |worlds[i].clients[id].conn.sent|
    requires HandleOf(worlds[i].clients[id].conn.sent[k].request).Some?
    ensures j < i && events[j].PrepareOk? && events[j].id == id
    ensures events[j].outputs == [ColumnValues.Int(HandleOf(worlds[i].clients[id].conn.sent[k].request).value)]
    ensures id in worlds[j].clients
         && worlds[j].clients[id].conn.epoch == worlds[i].clients[id].conn.sent[k].epoch
  {
    RunKeepsInv(worlds, events, i);
    var sent := worlds[i].clients[id].conn.sent[k];
    assert ClientOk(worlds[i], id);
    assert SentOk(worlds[i].issued, id, sent);
    j := IssuedByPrepare(worlds, events, i, id, sent.epoch, HandleOf(sent.request).value);
  }

  // ---------------------------------------------------------------------
  // Recycling
  // ---------------------------------------------------------------------

  /** A client as every borrower of a reset connection finds it. */
  predicate Pristine(c: Conn) {
    Clean(c) && Drained(c) && !c.resetArmed && c.session == Session(map[], {}, false, {}, ReadCommitted)
  }

  /** The checkouts that promise a clean session. */
  predicate HandsOutReset(e: Event) {
    e.Checkout? && e.recycling == ResetRecycling && e.handedOut
  }

  /** The statements a client would accept. */
  function Usable(w: World, id: nat): set<nat>
    requires id in w.clients
  {
    set s | s in w.held && ValidateSession(w.held[s].stmt, w.clients[id].token).Ok?
  }

  /** A client handed out under reset recycling is pristine and accepts no statement. */
  lemma HandedOutPristine(w: World, e: Event, w': World)
    requires Step(w, e, w') && HandsOutReset(e)
    ensures e.id in w'.clients && Pristine(w'.clients[e.id].conn)
    ensures Usable(w', e.id) == {}
  {
  }

  /** What of its client a borrower can tell from the session and from statements it got hold of. */
  datatype Outlook = Outlook(live: bool, drained: bool, session: Session, usable: set<nat>)

  function OutlookOf(w: World, id: nat): Outlook
    requires id in w.clients
  {
    var c := w.clients[id].conn;
    Outlook(Clean(c), Drained(c), c.session, Usable(w, id))
  }

  /** Any two borrowers start with the same outlook, from whatever worlds they got their clients. */
  lemma BorrowersCannotTell(u: World, d: Event, u': World, w: World, e: Event, w': World)
    requires Step(u, d, u') && HandsOutReset(d) && Step(w, e, w') && HandsOutReset(e)
    ensures d.id in u'.clients && e.id in w'.clients && OutlookOf(u', d.id) == OutlookOf(w', e.id)
  {
    HandedOutPristine(u, d, u');
    HandedOutPristine(w, e, w');
  }

  /** The epoch never falls, requests are never forgotten, and new ones belong to the present epoch or a later one. */
  predicate Grown(c: Conn, c': Conn) {
    && c.epoch <= c'.epoch && c.sent <= c'.sent
    && forall k | |c.sent| <= k < |c'.sent| :: c'.sent[k].epoch >= c.epoch
  }

  lemma StepGrows(w: World, e: Event, w': World, id: nat)
    requires Step(w, e, w') && id in w.clients && id in w'.clients && id != w.nextId
    ensures Grown(w.clients[id].conn, w'.clients[id].conn)
  {
    match e
    case Connect(_) => assert w'.clients[id] == w.clients[id];
    case _ =>
  }

  lemma {:induction false} RunGrows(worlds: seq<World>, events: seq<Event>, i: nat, j: nat, id: nat)
    requires Run(worlds, events) && i <= j < |worlds| && id in worlds[i].clients && id in worlds[j].clients
    ensures Grown(worlds[i].clients[id].conn, worlds[j].clients[id].conn)
    decreases j
  {
    hide Step;
    if i < j {
      RunKeepsInv(worlds, events, i);
      assert ClientOk(worlds[i], id);
      GoneStaysGone(worlds, events, i, j - 1, id);
      RunGrows(worlds, events, i, j - 1, id);
      IdsGrow(worlds, events, i, j - 1);
      StepGrows(worlds[j - 1], events[j - 1], worlds[j], id);
    }
  }

  /** A statement held at two moments is the same one throughout. */
  lemma {:induction false} HeldStays(worlds: seq<World>, events: seq<Event>, i: nat, j: nat, s: nat)
    requires Run(worlds, events) && i <= j < |worlds| && s < worlds[i].nextId && s in worlds[j].held
    ensures s in worlds[i].held && worlds[j].held[s] == worlds[i].held[s]
    decreases j
  {
    if i < j {
      IdsGrow(worlds, events, i, j - 1);
      assert Step(worlds[j - 1], events[j - 1], worlds[j]);
      HeldStays(worlds, events, i, j - 1, s);
    }
  }

  lemma ResetOpensEpoch(worlds: seq<World>, events: seq<Event>, i: nat, j: nat)
    requires Run(worlds, events) && i < j < |worlds| && HandsOutReset(events[i]) && events[i].id in worlds[j].clients
    ensures events[i].id in worlds[i].clients && events[i].id in worlds[i + 1].clients
    ensures var id := events[i].id;
      && worlds[i].clients[id].conn.epoch < worlds[j].clients[id].conn.epoch
      && Grown(worlds[i + 1].clients[id].conn, worlds[j].clients[id].conn)
      && worlds[i + 1].clients[id].conn.epoch == worlds[i].clients[id].conn.epoch + 1
  {
    assert Step(worlds[i], events[i], worlds[i + 1]);
    RunGrows(worlds, events, i + 1, j, events[i].id);
  }

  /**
   A reset checkout invalidates every statement prepared before it, for good: whoever still holds one,
   this client refuses it at every later moment, however addresses are reused.
   */
  lemma OldStatementsStayOut(worlds: seq<World>, events: seq<Event>, i: nat, j: nat, s: nat)
    requires Run(worlds, events) && i < j < |worlds| && HandsOutReset(events[i])
    requires events[i].id in worlds[j].clients && s < worlds[i].nextId && s in worlds[j].held
    ensures ValidateSession(worlds[j].held[s].stmt, worlds[j].clients[events[i].id].token).Err?
  {
    var id := events[i].id;
    ResetOpensEpoch(worlds, events, i, j);
    HeldStays(worlds, events, i, j, s);
    RunKeepsInv(worlds, events, i);
    assert Matched(worlds[i].clients[id], id, worlds[i].held[s]);
    PtrEqMeansSameSession(worlds, events, j, id, s);
  }

  /** Every handle a client sends after a reset checkout was issued on it by a prepare after that checkout. */
  lemma HandlesAfterCheckout(worlds: seq<World>, events: seq<Event>, i: nat, j: nat, k: nat) returns (p: nat)
    requires Run(worlds, events) && i < j < |worlds| && HandsOutReset(events[i])
    requires events[i].id in worlds[j].clients && events[i].id in worlds[i + 1].clients
    requires |worlds[i + 1].clients[events[i].id].conn.sent| <= k < |worlds[j].clients[events[i].id].conn.sent|
    requires HandleOf(worlds[j].clients[events[i].id].conn.sent[k].request).Some?
    ensures i < p < j && events[p].PrepareOk? && events[p].id == events[i].id
    ensures events[p].outputs == [ColumnValues.Int(HandleOf(worlds[j].clients[events[i].id].conn.sent[k].request).value)]
  {
    var id := events[i].id;
    ResetOpensEpoch(worlds, events, i, j);
    p := HandlesStayHome(worlds, events, j, id, k);
    if p <= i {
      RunGrows(worlds, events, p, i, id);
    }
  }

  /** Between two moments the server returned this handle to a prepare on this client. */
  predicate IssuedBetween(events: seq<Event>, i: nat, j: nat, id: nat, handle: int) {
    exists p: nat | i < p < j && p < |events| ::
      events[p].PrepareOk? && events[p].id == id && events[p].outputs == [ColumnValues.Int(handle)]
  }

  /**
   A reset checkout, seen from any later moment of the run: it handed out a pristine client; the
   statements the client accepts are all younger than the checkout; and every handle it has sent since
   was issued on it since.
   */
  lemma CheckoutStartsAfresh(worlds: seq<World>, events: seq<Event>, i: nat, j: nat)
    requires Run(worlds, events) && i < j < |worlds| && HandsOutReset(events[i]) && events[i].id in worlds[j].clients
    ensures events[i].id in worlds[i + 1].clients && Pristine(worlds[i + 1].clients[events[i].id].conn)
    ensures forall s | s in Usable(worlds[j], events[i].id) :: s >= worlds[i].nextId
    ensures var since, sent := |worlds[i + 1].clients[events[i].id].conn.sent|, worlds[j].clients[events[i].id].conn.sent;
      forall k | since <= k < |sent| && HandleOf(sent[k].request).Some? ::
        IssuedBetween(events, i, j, events[i].id, HandleOf(sent[k].request).value)
  {
    HandedOutPristine(worlds[i], events[i], worlds[i + 1]);
    hide Step;
    forall s | s in Usable(worlds[j], events[i].id) ensures s >= worlds[i].nextId {
      if s < worlds[i].nextId {
        OldStatementsStayOut(worlds, events, i, j, s);
      }
    }
    var since, sent := |worlds[i + 1].clients[events[i].id].conn.sent|, worlds[j].clients[events[i].id].conn.sent;
    forall k | since <= k < |sent| && HandleOf(sent[k].request).Some?
      ensures IssuedBetween(events, i, j, events[i].id, HandleOf(sent[k].request).value)
    {
      var p := HandlesAfterCheckout(worlds, events, i, j, k);
    }
  }

  /** The reset flag has only ever left on a baseline batch, on any client of any run. */
  lemma FlagOnBaselineOnly(worlds: seq<World>, events: seq<Event>, i: nat, id: nat, k: nat)
    requires Run(worlds, events) && i < |worlds| && id in worlds[i].clients
    requires k < |worlds[i].clients[id].conn.sent| && worlds[i].clients[id].conn.sent[k].reset
    ensures worlds[i].clients[id].conn.sent[k].request == Batch("SET TRANSACTION ISOLATION LEVEL READ COMMITTED")
  {
    RunKeepsInv(worlds, events, i);
    assert ClientOk(worlds[i], id);
    assert SentOk(worlds[i].issued, id, worlds[i].clients[id].conn.sent[k]);
  }

  lemma DeadStep(w: World, e: Event, w': World, id: nat)
    requires Step(w, e, w') && id in w.clients && w.clients[id].conn.dead && id in w'.clients && id != w.nextId
    ensures w'.clients[id].conn.dead
  {
    match e
    case Connect(_) => assert w'.clients[id] == w.clients[id];
    case _ =>
  }

  /** A dead client stays dead for as long as it exists. */
  lemma {:induction false} DeadStaysDead(worlds: seq<World>, events: seq<Event>, i: nat, j: nat, id: nat)
    requires Run(worlds, events) && i <= j < |worlds|
    requires id in worlds[i].clients && worlds[i].clients[id].conn.dead && id in worlds[j].clients
    ensures worlds[j].clients[id].conn.dead
    decreases j
  {
    RunKeepsInv(worlds, events, i);
    assert ClientOk(worlds[i], id);
    if i < j {
      GoneStaysGone(worlds, events, i, j - 1, id);
      DeadStaysDead(worlds, events, i, j - 1, id);
      RunKeepsInv(worlds, events, j - 1);
      assert ClientOk(worlds[j - 1], id);
      DeadStep(worlds[j - 1], events[j - 1], worlds[j], id);
    }
  }

  /** A client that exists later than a moment it was known at has existed in between. */
  lemma {:induction false} GoneStaysGone(worlds: seq<World>, events: seq<Event>, i: nat, j: nat, id: nat)
    requires Run(worlds, events) && i <= j && j + 1 < |worlds|
    requires id < worlds[i].nextId && id in worlds[j + 1].clients
    ensures id in worlds[j].clients
    decreases j
  {
    IdsGrow(worlds, events, i, j);
    assert Step(worlds[j], events[j], worlds[j + 1]);
  }

  lemma {:induction false} IdsGrow(worlds: seq<World>, events: seq<Event>, i: nat, j: nat)
    requires Run(worlds, events) && i <= j < |worlds|
    ensures worlds[i].nextId <= worlds[j].nextId
    decreases j
  {
    if i < j {
      IdsGrow(worlds, events, i, j - 1);
      assert Step(worlds[j - 1], events[j - 1], worlds[j]);
    }
  }

  /** A failed or cancelled reset retires the client: under either method it is never handed out again. */
  lemma FailedResetRetires(worlds: seq<World>, events: seq<Event>, i: nat, j: nat)
    requires Run(worlds, events) && i < j < |events|
    requires || (events[i].ResetBy? && !events[i].succeeded)
             || (events[i].Checkout? && events[i].recycling == ResetRecycling && !events[i].handedOut)
    ensures events[j].Checkout? && events[j].id == events[i].id ==> !events[j].handedOut
  {
    assert Step(worlds[i], events[i], worlds[i + 1]);
    assert Step(worlds[j], events[j], worlds[j + 1]);
    if events[j].Checkout? && events[j].id == events[i].id {
      DeadStaysDead(worlds, events, i + 1, j, events[i].id);
    }
  }
}
