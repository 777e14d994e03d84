/**
 The client (src/client.rs). Every method is one future polled to its end or dropped while a native
 call is in flight; `Dropped` is the latter. A future dropped before its first poll does nothing
 and is not modelled. The server's answer and the allocator's choice are arguments.
 */
module Clients {
  import opened Wrappers
  import opened Values
  import opened Rows
  import opened Replies
  import opened Params
  import opened Native
  import opened Operations
  import D = Declaration

  /** Address of an `Arc<()>`. */
  type Addr = nat

  datatype PreparedStatement = PreparedStatement(handle: int, sql: string, session: Addr)

  function ValidateSession(stmt: PreparedStatement, session: Addr): Result<()> {
    if stmt.session == session then Ok(()) else Err(InvalidPreparedStatement)
  }

  /** The batch that carries the reset flag: the flag leaves the isolation level to it. */
  const BASELINE := "SET TRANSACTION ISOLATION LEVEL READ COMMITTED"

  // ---------------------------------------------------------------------
  // What a call may do to its connection
  // ---------------------------------------------------------------------

  /** Between operations: dead, or at a clean boundary with no reset pending. */
  predicate Idle(c: Conn) {
    c.dead || (!c.torn && !c.resetArmed)
  }

  /**
   The whole effect of an ordinary operation for `request`: none on a dead connection; otherwise
   the request is sent at most once, without the reset flag, in the same session epoch.
   */
  predicate Served(c: Conn, request: Request, c': Conn) {
    if c.dead then c' == c
    else
      && Idle(c')
      && c'.epoch == c.epoch
      && (c'.sent == c.sent || c'.sent == c.sent + [Sent(request, c.epoch, false)])
  }

  /**
   An operation's outcome. Unless it is dropped or a native call fails on its own account, it hands
   over exactly what this request's own answer is meant to deliver, whatever was outstanding before.
   A success always does, and leaves nothing outstanding.
   */
  ghost predicate Delivered<A(!new)>(c: Conn, request: Request, answer: Answer, expected: Result<A>, o: Await<A>, c': Conn) {
    && Served(c, request, c')
    && (c.dead ==> o == Ready(Err(ConnectionClosed)))
    && (!c.dead && o.Dropped? ==> c'.dead)
    && (!c.dead && o.Ready? && c'.failures == c.failures ==> o.result == expected)
    && (o.Ready? && o.result.Ok? ==>
          && o.result == expected
          && Clean(c') && Drained(c')
          && c'.sent == c.sent + [Sent(request, c.epoch, false)]
          && c'.session == SessionAfter(c.session, false, request, answer))
  }

  /** A call that uses a statement: one of another client or session is refused with nothing touched. */
  ghost predicate Used<A(!new)>(c: Conn, session: Addr, stmt: PreparedStatement, request: Request, answer: Answer,
                                expected: Result<A>, o: Await<A>, c': Conn) {
    && (!c.dead && stmt.session != session ==> o == Ready(Err(InvalidPreparedStatement)) && c' == c)
    && (c.dead || stmt.session == session ==> Delivered(c, request, answer, expected, o, c'))
  }

  /** The statement made of the one integer handle that `sp_prepare` returns. */
  function PreparedFrom(answer: Answer, sql: string, session: Addr): Result<PreparedStatement> {
    match Failure(answer.statements)
    case Some(e) => Err(e)
    case None =>
      if |answer.outputs| == 1 && answer.outputs[0].Int? then
        (match answer.outputs[0] case Int(handle) => Ok(PreparedStatement(handle, sql, session)))
      else Err(ProtocolError)
  }

  /** A statement is made of the one handle the server returned, for the text and session it was prepared with. */
  predicate IssuedBy(sql: string, session: Addr, answer: Answer, o: Await<PreparedStatement>) {
    o.Ready? && o.result.Ok? ==>
      && answer.outputs == [ColumnValues.Int(o.result.value.handle)]
      && o.result.value.sql == sql && o.result.value.session == session
  }

  /** A sound answer with one integer output makes a statement, any other makes none. */
  predicate Issues(answer: Answer, o: Await<PreparedStatement>)
    requires o.Ready?
  {
    o.result.Ok? <==> Sound(answer.statements) && |answer.outputs| == 1 && answer.outputs[0].Int?
  }

  lemma PreparedFromOutput(answer: Answer, sql: string, session: Addr)
    ensures IssuedBy(sql, session, answer, Ready(PreparedFrom(answer, sql, session)))
    ensures Issues(answer, Ready(PreparedFrom(answer, sql, session)))
  {
    FailureEndsAll(answer.statements, 0);
  }

  /** A request that is sent and drained fails only at the start of its answer; the rest is not read. */
  function Acknowledged(answer: Answer): Result<()> {
    if answer.statements != [] && answer.statements[0].Broken? then Err(Error.Native(answer.statements[0].fault.code))
    else Ok(())
  }

  /** Row counts still to be collected when `result` is the statement just reached. */
  function CountsFrom(result: StatementResult, c: Conn): Result<seq<nat>> {
    match result
    case Rows => Counts(Left(c))
    case NoRows(Some(n)) => Counted([n], Counts(c.rest))
    case NoRows(None) => Counts(c.rest)
    case End => Ok([])
  }

  function Counted(counts: seq<nat>, rest: Result<seq<nat>>): Result<seq<nat>> {
    match rest
    case Ok(more) => Ok(counts + more)
    case Err(e) => Err(e)
  }

  /**
   The whole effect of a reset. A success leaves the default session at READ COMMITTED with nothing
   outstanding, the reset flag having gone out on the baseline batch alone; anything else is dead.
   */
  predicate Reset(c: Conn, succeeded: bool, c': Conn) {
    if c.dead then !succeeded && c' == c
    else
      var sent := [Sent(Batch(BASELINE), c.epoch + 1, true)];
      if succeeded then
        && Clean(c') && Drained(c') && !c'.resetArmed
        && c'.session == Session(map[], {}, false, {}, ReadCommitted) && c'.epoch == c.epoch + 1 && c'.sent == c.sent + sent
      else
        && c'.dead
        && (|| (c'.sent == c.sent && c'.epoch == c.epoch)
            || (c'.sent == c.sent + sent && c'.epoch == c.epoch + 1))
  }

  /** Moving to the next statement loses none of the counts still to come. */
  lemma NextCounts(c: Conn)
    requires c.cursor.None?
    ensures var (r, c') := Advance(c);
      && SameRequests(c, c') && c'.torn == c.torn
      && match r
         case Err(e) => Counts(c.rest) == Err(e)
         case Ok(result) =>
           && CountsFrom(result, c') == Counts(c.rest)
           && (result.Rows? <==> c'.cursor.Some?)
           && (if result.End? then Drained(c') && |c.rest| == 0 else |c'.rest| == |c.rest| - 1)
           && c'.dead == c.dead
  {
    var (r, c') := Advance(c);
    if c.rest != [] {
      assert c.rest == [c.rest[0]] + c.rest[1..];
      assert r.Ok? && r.value.Rows? ==> Left(c') == c.rest;
      if c.rest[0] == Count(None) {
        CountedNothing(Counts(c.rest[1..]));
      }
    }
  }

  /**
   How a request on a drained connection starts: at the first statement of its own answer with nothing
   of the answer lost, or with an error, which is the answer's own or the driver's.
   */
  ghost predicate Started(c: Conn, request: Request, answer: Answer, result: Result<StatementResult>, c': Conn) {
    && c'.sent == c.sent + [Sent(request, c.epoch, false)] && c'.epoch == c.epoch && !c'.resetArmed
    && match result
       case Ok(first) =>
         && Clean(c') && c'.failures == c.failures && c'.outputs == answer.outputs
         && c'.session == SessionAfter(c.session, false, request, answer)
         && ResultSets(Left(c'), 0) == ResultSets(answer.statements, 0)
         && CountsFrom(first, c') == Counts(answer.statements)
         && Failure(Left(c')) == Failure(answer.statements)
         && Acknowledged(answer) == Ok(())
         && (first.Rows? <==> c'.cursor.Some?)
         && (first.End? ==> Drained(c'))
       case Err(e) =>
         && (c'.dead || !c'.torn)
         && (|| c'.failures == c.failures + 1
             || (&& c'.failures == c.failures
                 && ResultSets(answer.statements, 0) == Err(e) && Counts(answer.statements) == Err(e)
                 && Failure(answer.statements) == Some(e) && Acknowledged(answer) == Err(e)))
  }

  /** Reaching the first statement of an answer loses nothing of it. */
  lemma FirstStatement(c: Conn, request: Request, answer: Answer)
    requires Clean(c) && Drained(c) && !c.resetArmed
    ensures var (r, c') := Advance(Answered(c, request, answer)); Started(c, request, answer, r, c')
  {
    var answered := Answered(c, request, answer);
    assert answered.rest == answer.statements && Left(answered) == answered.rest;
    AdvanceOnceDelivers(answered, 0);
    StartAcknowledged(c, request, answer);
    NextCounts(answered);
    AdvanceOnceFails(answered);
    hide ResultSets;
    hide Counts;
    hide CountsFrom;
    hide Failure;
    hide Acknowledged;
    hide Advance;
    hide Left;
  }

  /** On a drained connection a request starts as its own answer does. */
  lemma StartAcknowledged(c: Conn, request: Request, answer: Answer)
    requires Drained(c)
    ensures var (r, c') := Advance(Answered(c, request, answer));
      && (match r case Err(e) => Acknowledged(answer) == Err(e) case Ok(_) => Acknowledged(answer) == Ok(()))
      && c'.failures == c.failures && c'.torn == c.torn && (r.Ok? ==> c'.dead == c.dead)
      && c'.sent == Posted(c, request).sent && c'.epoch == Posted(c, request).epoch && !c'.resetArmed
      && c'.session == SessionAfter(c.session, c.resetArmed, request, answer)
  {
    assert [] + answer.statements == answer.statements;
  }

  /** The result sets to come are the current row set's rows, then those of the statements after it. */
  lemma CollectOne(c: Conn, index: nat)
    requires c.cursor.Some?
    ensures var k := c.cursor.value;
      ResultSets(Left(c), index)
      == match k.broken
         case Some(f) => Err(Error.Native(f.code))
         case None => Prepend([RowsOf(k.columns, k.rows, index)], ResultSets(c.rest, index + 1))
  {
    assert Left(c)[1..] == c.rest;
  }

  class Client {
    const inner: TdsClient
    const unicode: bool
    const names: D.TypeNames
    var preparedSession: Addr

    ghost predicate Valid()
      reads this, inner
    {
      inner.Valid() && !inner.guarded && Idle(inner.conn)
    }

    constructor (inner: TdsClient, unicode: bool, names: D.TypeNames, session: Addr)
      requires inner.Valid() && !inner.guarded && Idle(inner.conn)
      ensures Valid() && this.inner == inner && preparedSession == session
    {
      this.inner := inner;
      this.unicode := unicode;
      this.names := names;
      this.preparedSession := session;
    }

    /** Ends an operation: a dropped future drops its armed guard, a finished one completes it. */
    method Conclude<A>(operation: Operation, o: Await<A>)
      requires operation.Live() && operation.client == inner
      requires o.Ready? ==> inner.conn.torn ==> inner.conn.dead
      modifies operation, inner
      ensures inner.Valid() && !inner.guarded && old(inner.history) <= inner.history
      ensures inner.conn == if o.Dropped? then old(inner.conn).(dead := true) else old(inner.conn)
    {
      if o.Dropped? {
        operation.Drop();
      } else {
        operation.Complete();
      }
    }

    // Requests ------------------------------------------------------------

    /** The request on a drained connection, inside an operation. */
    method ExecuteDrained(request: Request, answer: Answer) returns (o: Await<StatementResult>)
      requires inner.Startable() && !inner.conn.resetArmed && Drained(inner.conn)
      modifies inner
      ensures inner.Valid() && inner.guarded && old(inner.history) <= inner.history
      ensures o.Dropped? ==>
        && inner.conn.sent == old(inner.conn).sent + [Sent(request, old(inner.conn).epoch, false)]
        && inner.conn.epoch == old(inner.conn).epoch && !inner.conn.resetArmed
      ensures o.Ready? ==> Started(old(inner.conn), request, answer, o.result, inner.conn)
    {
      FirstStatement(inner.conn, request, answer);
      hide Advance;
      hide ResultSets;
      hide Counts;
      hide CountsFrom;
      hide Failure;
      hide Acknowledged;
      hide SessionAfter;
      o := inner.Execute(request, answer);
    }

    /** `close_query` followed by the request, inside an operation. */
    method DrainAndExecute(request: Request, answer: Answer) returns (o: Await<StatementResult>)
      requires inner.Startable() && !inner.conn.resetArmed
      modifies inner
      ensures inner.Valid() && inner.guarded && old(inner.history) <= inner.history
      ensures !inner.conn.resetArmed && inner.conn.epoch == old(inner.conn).epoch
      ensures || inner.conn.sent == old(inner.conn).sent
              || inner.conn.sent == old(inner.conn).sent + [Sent(request, old(inner.conn).epoch, false)]
      ensures o.Ready? ==> inner.conn.dead || !inner.conn.torn
      ensures o.Ready? && (o.result.Ok? || inner.conn.failures == old(inner.conn).failures) ==>
                Started(old(inner.conn), request, answer, o.result, inner.conn)
    {
      var closed := inner.CloseQuery();
      if closed.Dropped? {
        return Dropped;
      } else if closed.result.Err? {
        return Ready(Err(closed.result.error));
      }
      hide ResultSets;
      hide Counts;
      hide CountsFrom;
      hide Failure;
      hide Acknowledged;
      hide SessionAfter;
      o := ExecuteDrained(request, answer);
    }

    /** The common shape of the operations that collect result sets. */
    method RunQuery(request: Request, answer: Answer) returns (o: Await<seq<seq<Row>>>)
      requires Valid()
      modifies inner
      ensures Valid() && old(inner.history) <= inner.history
      ensures Delivered(old(inner.conn), request, answer, ResultSets(answer.statements, 0), o, inner.conn)
    {
      var operation := NewOperation(inner);
      if operation.Err? {
        return Ready(Err(operation.error));
      }
      hide ResultSets;
      hide Counts;
      hide SessionAfter;
      var started := DrainAndExecute(request, answer);
      if started.Dropped? {
        o := Dropped;
      } else if started.result.Err? {
        o := Ready(Err(started.result.error));
      } else {
        o := CollectResults();
      }
      Conclude(operation.value, o);
    }

    /** As `RunQuery`, for the operations that collect row counts. */
    method RunExecute(request: Request, answer: Answer) returns (o: Await<seq<nat>>)
      requires Valid()
      modifies inner
      ensures Valid() && old(inner.history) <= inner.history
      ensures Delivered(old(inner.conn), request, answer, Counts(answer.statements), o, inner.conn)
    {
      var operation := NewOperation(inner);
      if operation.Err? {
        return Ready(Err(operation.error));
      }
      hide ResultSets;
      hide Counts;
      hide SessionAfter;
      var started := DrainAndExecute(request, answer);
      if started.Dropped? {
        o := Dropped;
      } else if started.result.Err? {
        o := Ready(Err(started.result.error));
      } else {
        o := CollectExecuteResults(started.result.value);
      }
      Conclude(operation.value, o);
    }

    method SimpleQuery(sql: string, answer: Answer) returns (o: Await<seq<seq<Row>>>)
      requires Valid()
      modifies inner
      ensures Valid() && old(inner.history) <= inner.history
      ensures Delivered(old(inner.conn), Batch(sql), answer, ResultSets(answer.statements, 0), o, inner.conn)
    {
      o := RunQuery(Batch(sql), answer);
    }

    /** The request a text with parameters becomes. */
    function RequestFor(sql: string, params: seq<SqlType>): Request {
      if params == [] then Batch(sql) else ExecuteSql(sql, BuildParams(params, unicode))
    }

    method Query(sql: string, params: seq<SqlType>, answer: Answer) returns (o: Await<seq<seq<Row>>>)
      requires Valid()
      modifies inner
      ensures Valid() && old(inner.history) <= inner.history
      ensures Delivered(old(inner.conn), RequestFor(sql, params), answer, ResultSets(answer.statements, 0), o, inner.conn)
    {
      if params == [] {
        o := SimpleQuery(sql, answer);
      } else {
        o := RunQuery(ExecuteSql(sql, BuildParams(params, unicode)), answer);
      }
    }

    method Execute(sql: string, params: seq<SqlType>, answer: Answer) returns (o: Await<seq<nat>>)
      requires Valid()
      modifies inner
      ensures Valid() && old(inner.history) <= inner.history
      ensures Delivered(old(inner.conn), RequestFor(sql, params), answer, Counts(answer.statements), o, inner.conn)
    {
      o := RunExecute(RequestFor(sql, params), answer);
    }

    // Prepared statements -------------------------------------------------

    /** Sends `sp_prepare`; on success the statement is bound to the present session token. */
    method Prepare(sql: string, paramTypes: seq<SqlType>, answer: Answer) returns (o: Await<PreparedStatement>)
      requires Valid()
      modifies inner
      ensures Valid() && old(inner.history) <= inner.history
      ensures IssuedBy(sql, preparedSession, answer, o)
      ensures !old(inner.conn).dead && o.Ready? && inner.conn.failures == old(inner.conn).failures ==>
                D.ParameterDeclaration(names, paramTypes, unicode).Ok? ==> Issues(answer, o)
      ensures var declaration := D.ParameterDeclaration(names, paramTypes, unicode);
        match declaration
        case Ok(text) =>
          Delivered(old(inner.conn), Request.Prepare(sql, text), answer,
                    PreparedFrom(answer, sql, preparedSession), o, inner.conn)
        case Err(e) =>
          && (o.Ready? ==> o.result.Err?)
          && (old(inner.conn).dead ==> o == Ready(Err(ConnectionClosed)))
          && (o.Ready? && !old(inner.conn).dead && inner.conn.failures == old(inner.conn).failures ==> o.result == Err(e))
          && inner.conn.sent == old(inner.conn).sent
          && Served(old(inner.conn), Request.Prepare(sql, ""), inner.conn)
    {
      var operation := NewOperation(inner);
      if operation.Err? {
        return Ready(Err(operation.error));
      }
      var closed := inner.CloseQuery();
      if closed.Dropped? {
        o := Dropped;
      } else if closed.result.Err? {
        o := Ready(Err(closed.result.error));
      } else {
        o := PrepareStatement(sql, paramTypes, answer);
      }
      Conclude(operation.value, o);
    }

    /** `PreparedStatement::prepare`, on a drained connection. */
    method PrepareStatement(sql: string, paramTypes: seq<SqlType>, answer: Answer) returns (o: Await<PreparedStatement>)
      requires inner.Startable() && !inner.conn.resetArmed && Drained(inner.conn)
      modifies inner
      ensures inner.Valid() && inner.guarded && old(inner.history) <= inner.history
      ensures o.Ready? ==> inner.conn.dead || !inner.conn.torn
      ensures IssuedBy(sql, preparedSession, answer, o)
      ensures o.Ready? && inner.conn.failures == old(inner.conn).failures ==>
                D.ParameterDeclaration(names, paramTypes, unicode).Ok? ==> Issues(answer, o)
      ensures match D.ParameterDeclaration(names, paramTypes, unicode)
        case Err(e) => inner.conn == old(inner.conn) && o == Ready(Err(e))
        case Ok(declaration) =>
          var request := Request.Prepare(sql, declaration);
          && !inner.conn.resetArmed && inner.conn.epoch == old(inner.conn).epoch
          && inner.conn.sent == old(inner.conn).sent + [Sent(request, old(inner.conn).epoch, false)]
          && (o.Ready? ==>
                || inner.conn.failures == old(inner.conn).failures + 1
                || (inner.conn.failures == old(inner.conn).failures && o.result == PreparedFrom(answer, sql, preparedSession)))
          && (o.Ready? && o.result.Ok? ==>
                && o.result == PreparedFrom(answer, sql, preparedSession)
                && Clean(inner.conn) && Drained(inner.conn)
                && inner.conn.session == SessionAfter(old(inner.conn).session, false, request, answer))
    {
      var declaration := D.ParameterDeclaration(names, paramTypes, unicode);
      if declaration.Err? {
        return Ready(Err(declaration.error));
      }
      var request := Request.Prepare(sql, declaration.value);
      PreparedFromOutput(answer, sql, preparedSession);
      hide Issues;
      hide IssuedBy;
      hide ResultSets;
      hide Counts;
      hide CountsFrom;
      hide SessionAfter;
      hide Acknowledged;
      var started := ExecuteDrained(request, answer);
      if started.Dropped? {
        return Dropped;
      } else if started.result.Err? {
        return Ready(Err(started.result.error));
      }
      var skipped := SkipAll();
      if skipped.Dropped? {
        return Dropped;
      } else if skipped.result.Err? {
        return Ready(Err(skipped.result.error));
      }
      var values := inner.conn.outputs;
      if |values| == 1 && values[0].Int? {
        match values[0] {
          case Int(handle) => o := Ready(Ok(PreparedStatement(handle, sql, preparedSession)));
        }
      } else {
        o := Ready(Err(ProtocolError));
      }
    }

    /** Reads and ignores everything outstanding. */
    method SkipAll() returns (o: Await<()>)
      requires inner.Startable()
      modifies inner
      ensures inner.Valid() && inner.guarded && old(inner.history) <= inner.history
      ensures SameRequests(old(inner.conn), inner.conn)
      ensures o.Ready? ==> inner.conn.dead || !inner.conn.torn
      ensures o.Ready? ==>
        match Failure(old(Left(inner.conn)))
        case None => o.result == Ok(())
        case Some(e) => o.result == Err(e)
      ensures o.Ready? && o.result.Ok? ==> Clean(inner.conn) && Drained(inner.conn)
    {
      while true
        invariant inner.Startable() && old(inner.history) <= inner.history
        invariant SameRequests(old(inner.conn), inner.conn)
        invariant Failure(Left(inner.conn)) == Failure(old(Left(inner.conn)))
        decreases |inner.conn.rest|
      {
        AdvanceKeeps(inner.conn);
        AdvanceFails(inner.conn);
        var more := inner.AdvanceRows();
        if more.Dropped? {
          return Dropped;
        } else if more.result.Err? {
          return Ready(Err(more.result.error));
        } else if !more.result.value {
          break;
        }
      }
      o := Ready(Ok(()));
    }

    method QueryPrepared(stmt: PreparedStatement, params: seq<SqlType>, answer: Answer)
      returns (o: Await<seq<seq<Row>>>)
      requires Valid()
      modifies inner
      ensures Valid() && old(inner.history) <= inner.history
      ensures Used(old(inner.conn), preparedSession, stmt, ExecutePrepared(stmt.handle, BuildParams(params, unicode)), answer,
                   ResultSets(answer.statements, 0), o, inner.conn)
    {
      var checked := CheckStatement(stmt);
      if checked.Err? {
        return Ready(Err(checked.error));
      }
      o := RunQuery(ExecutePrepared(stmt.handle, BuildParams(params, unicode)), answer);
    }

    method ExecutePreparedStatement(stmt: PreparedStatement, params: seq<SqlType>, answer: Answer)
      returns (o: Await<seq<nat>>)
      requires Valid()
      modifies inner
      ensures Valid() && old(inner.history) <= inner.history
      ensures Used(old(inner.conn), preparedSession, stmt, ExecutePrepared(stmt.handle, BuildParams(params, unicode)), answer,
                   Counts(answer.statements), o, inner.conn)
    {
      var checked := CheckStatement(stmt);
      if checked.Err? {
        return Ready(Err(checked.error));
      }
      o := RunExecute(ExecutePrepared(stmt.handle, BuildParams(params, unicode)), answer);
    }

    /** The checks made before a statement's operation: liveness first, then the session. */
    function CheckStatement(stmt: PreparedStatement): Result<()>
      reads this, inner
    {
      if inner.conn.dead then Err(ConnectionClosed) else ValidateSession(stmt, preparedSession)
    }

    method UnprepareStatement(stmt: PreparedStatement, answer: Answer) returns (o: Await<()>)
      requires Valid()
      modifies inner
      ensures Valid() && old(inner.history) <= inner.history
      ensures Used(old(inner.conn), preparedSession, stmt, Unprepare(stmt.handle), answer,
                   Acknowledged(answer), o, inner.conn)
    {
      var checked := CheckStatement(stmt);
      if checked.Err? {
        return Ready(Err(checked.error));
      }
      var operation := NewOperation(inner);
      assert operation.Ok?;
      var started := DrainAndExecute(Unprepare(stmt.handle), answer);
      if started.Dropped? {
        o := Dropped;
      } else if started.result.Err? {
        o := Ready(Err(started.result.error));
      } else {
        o := inner.CloseQuery();
        assert o.Ready? && o.result.Ok? ==> o.result.value == ();
      }
      Conclude(operation.value, o);
    }

    // Sessions ------------------------------------------------------------

    /**
     Resets the session; `token` is where the allocator puts the new session's `Arc`. Unless the
     reset succeeds the connection is dead afterwards.
     */
    method ResetSession(token: Addr, answer: Answer) returns (o: Await<()>)
      requires Valid()
      modifies this`preparedSession, inner
      ensures Valid() && old(inner.history) <= inner.history
      ensures old(inner.conn).dead ==> o == Ready(Err(ConnectionClosed)) && preparedSession == old(preparedSession)
      ensures !old(inner.conn).dead ==> preparedSession == token
      ensures !old(inner.conn).dead && o.Ready? && inner.conn.failures == old(inner.conn).failures ==>
                o.result == Acknowledged(answer)
      ensures Reset(old(inner.conn), o == Ready(Ok(())), inner.conn)
    {
      if inner.conn.dead {
        return Ready(Err(ConnectionClosed));
      }
      preparedSession := token;
      var reset := new SessionReset(inner);
      o := ResetBody(answer);
      if o == Ready(Ok(())) {
        reset.complete := true;
      }
      reset.Drop();
    }

    method ResetBody(answer: Answer) returns (o: Await<()>)
      requires inner.Startable() && !inner.conn.resetArmed
      modifies inner
      ensures inner.Valid() && inner.guarded && old(inner.history) <= inner.history
      ensures var sent := [Sent(Batch(BASELINE), old(inner.conn).epoch + 1, true)];
        && (|| (inner.conn.sent == old(inner.conn).sent && inner.conn.epoch == old(inner.conn).epoch)
            || (inner.conn.sent == old(inner.conn).sent + sent && inner.conn.epoch == old(inner.conn).epoch + 1))
        && (o == Ready(Ok(())) ==>
              && inner.conn.sent == old(inner.conn).sent + sent
              && Clean(inner.conn) && Drained(inner.conn) && !inner.conn.resetArmed
              && inner.conn.session == DEFAULT_SESSION)
      ensures o.Ready? && inner.conn.failures == old(inner.conn).failures ==> o.result == Acknowledged(answer)
    {
      var closed := inner.CloseQuery();
      if closed.Dropped? || closed.result.Err? {
        return closed;
      }
      inner.PrepareResetConnection();
      StartAcknowledged(inner.conn, Batch(BASELINE), answer);
      hide Advance;
      hide Acknowledged;
      var started := inner.Execute(Batch(BASELINE), answer);
      if started.Dropped? {
        return Dropped;
      } else if started.result.Err? {
        return Ready(Err(started.result.error));
      }
      o := inner.CloseQuery();
      assert o.Ready? && o.result.Ok? ==> o.result.value == ();
    }

    /** Cached health only: no I/O, nothing consumed. */
    method Ping() returns (result: Result<()>)
      requires Valid()
      ensures inner.conn.dead ==> result == Err(ConnectionClosed)
      ensures !inner.conn.dead ==> result == Ok(()) && Clean(inner.conn) && !inner.conn.resetArmed
    {
      result := EnsureUsable(inner.conn);
    }

    // Collecting ----------------------------------------------------------

    /** The inner loop of `collect_results`: all rows of the current row set. */
    method CollectSet(resultIndex: nat) returns (o: Await<seq<Row>>)
      requires inner.Startable() && inner.conn.cursor.Some?
      modifies inner
      ensures inner.Valid() && inner.guarded && old(inner.history) <= inner.history
      ensures SameRequests(old(inner.conn), inner.conn)
      ensures o.Ready? ==>
        var k := old(inner.conn).cursor.value;
        match k.broken
        case None =>
          && o.result == Ok(RowsOf(k.columns, k.rows, resultIndex))
          && inner.conn == old(inner.conn).(cursor := None)
        case Some(f) => o.result == Err(Error.Native(f.code)) && (inner.conn.dead || !inner.conn.torn)
    {
      var schema := FromMetadata(inner.conn.cursor.value.columns);
      var writer := new BridgeRowWriter(schema, resultIndex);
      var rows: seq<Row> := [];
      ghost var k, n := inner.conn.cursor.value, 0;
      while true
        invariant inner.Startable() && old(inner.history) <= inner.history
        invariant writer.Valid() && writer.values == []
        invariant 0 <= n <= |k.rows|
        invariant inner.conn == old(inner.conn).(cursor := Some(k.(rows := k.rows[n..])))
        invariant rows == RowsOf(k.columns, k.rows[..n], resultIndex)
        decreases |k.rows| - n
      {
        var more := inner.NextRowInto(writer);
        if more.Dropped? {
          return Dropped;
        } else if more.result.Err? {
          return Ready(Err(more.result.error));
        } else if !more.result.value {
          break;
        }
        var row := writer.TakeRow();
        rows := rows + [row];
        n := n + 1;
      }
      assert k.rows[..n] == k.rows;
      o := Ready(Ok(rows));
    }

    /** `advance_to_rows` after a finished row set: what is collected from here on stays the same. */
    method ToNextSet(ghost index: nat) returns (o: Await<bool>)
      requires inner.Startable() && inner.conn.cursor.None?
      modifies inner
      ensures inner.Valid() && inner.guarded && old(inner.history) <= inner.history
      ensures SameRequests(old(inner.conn), inner.conn)
      ensures o.Ready? ==> inner.conn.dead || !inner.conn.torn
      ensures o.Ready? ==>
        match o.result
        case Ok(true) =>
          && Clean(inner.conn) && inner.conn.cursor.Some? && |inner.conn.rest| < old(|inner.conn.rest|)
          && ResultSets(Left(inner.conn), index) == old(ResultSets(inner.conn.rest, index))
        case Ok(false) => Clean(inner.conn) && Drained(inner.conn) && old(ResultSets(inner.conn.rest, index)) == Ok([])
        case Err(e) => old(ResultSets(inner.conn.rest, index)) == Err(e)
    {
      AdvanceKeeps(inner.conn);
      AdvanceSkips(inner.conn, index);
      hide ResultSets;
      hide Items;
      hide AdvanceToRows;
      o := inner.AdvanceRows();
    }

    method CollectResults() returns (o: Await<seq<seq<Row>>>)
      requires inner.Startable()
      modifies inner
      ensures inner.Valid() && inner.guarded && old(inner.history) <= inner.history
      ensures SameRequests(old(inner.conn), inner.conn)
      ensures o.Ready? ==> inner.conn.dead || !inner.conn.torn
      ensures o.Ready? ==> o.result == ResultSets(old(Left(inner.conn)), 0)
      ensures o.Ready? && o.result.Ok? ==> Clean(inner.conn) && Drained(inner.conn)
    {
      var resultSets: seq<seq<Row>> := [];
      var resultIndex := 0;
      ghost var all := ResultSets(Left(inner.conn), 0);
      PrependNothing(all);
      hide ResultSets;
      hide RowsOf;
      hide AdvanceToRows;
      hide Items;
      while true
        invariant inner.Startable() && old(inner.history) <= inner.history
        invariant SameRequests(old(inner.conn), inner.conn)
        invariant all == ResultSets(old(Left(inner.conn)), 0)
        invariant all == Prepend(resultSets, ResultSets(Left(inner.conn), resultIndex))
        decreases |Left(inner.conn)|
      {
        if inner.conn.cursor.None? {
          var reached := ToNextSet(resultIndex);
          if reached.Dropped? {
            return Dropped;
          } else if reached.result.Err? {
            return Ready(Err(reached.result.error));
          } else if !reached.result.value {
            assert resultSets + [] == resultSets;
            break;
          }
        }
        CollectOne(inner.conn, resultIndex);
        var rows := CollectSet(resultIndex);
        if rows.Dropped? {
          return Dropped;
        } else if rows.result.Err? {
          return Ready(Err(rows.result.error));
        }
        PrependOne(resultSets, rows.result.value, ResultSets(inner.conn.rest, resultIndex + 1));
        resultSets := resultSets + [rows.result.value];
        resultIndex := resultIndex + 1;
        var more := ToNextSet(resultIndex);
        if more.Dropped? {
          return Dropped;
        } else if more.result.Err? {
          return Ready(Err(more.result.error));
        } else if !more.result.value {
          assert resultSets + [] == resultSets;
          break;
        }
      }
      o := Ready(Ok(resultSets));
    }

    method CollectExecuteResults(first: StatementResult) returns (o: Await<seq<nat>>)
      requires inner.Startable() && (first.Rows? <==> inner.conn.cursor.Some?) && (first.End? ==> Drained(inner.conn))
      modifies inner
      ensures inner.Valid() && inner.guarded && old(inner.history) <= inner.history
      ensures SameRequests(old(inner.conn), inner.conn)
      ensures o.Ready? ==> inner.conn.dead || !inner.conn.torn
      ensures o.Ready? ==> o.result == CountsFrom(first, old(inner.conn))
      ensures o.Ready? && o.result.Ok? ==> Clean(inner.conn) && Drained(inner.conn)
    {
      var counts: seq<nat> := [];
      var result := first;
      ghost var all := CountsFrom(first, inner.conn);
      CountedNothing(all);
      hide Counts;
      hide Advance;
      while !result.End?
        invariant inner.Startable() && old(inner.history) <= inner.history
        invariant SameRequests(old(inner.conn), inner.conn)
        invariant result.Rows? <==> inner.conn.cursor.Some?
        invariant result.End? ==> Drained(inner.conn)
        invariant all == Counted(counts, CountsFrom(result, inner.conn))
        decreases |inner.conn.rest| + if result.End? then 0 else 1
      {
        var counted := CountStatement(result);
        if counted.Dropped? {
          return Dropped;
        } else if counted.result.Err? {
          return Ready(Err(counted.result.error));
        }
        CountedMore(counts, counted.result.value, Counts(inner.conn.rest));
        counts := counts + counted.result.value;
        NextCounts(inner.conn);
        var next := inner.AdvanceStatement();
        if next.Dropped? {
          return Dropped;
        } else if next.result.Err? {
          return Ready(Err(next.result.error));
        }
        result := next.result.value;
      }
      assert counts + [] == counts;
      o := Ready(Ok(counts));
    }

    /** What one statement adds to the counts. */
    method CountStatement(result: StatementResult) returns (o: Await<seq<nat>>)
      requires inner.Startable() && !result.End? && (result.Rows? <==> inner.conn.cursor.Some?)
      modifies inner
      ensures inner.Valid() && inner.guarded && old(inner.history) <= inner.history
      ensures SameRequests(old(inner.conn), inner.conn)
      ensures o.Ready? ==> inner.conn.dead || !inner.conn.torn
      ensures o.Ready? && o.result.Err? ==> CountsFrom(result, old(inner.conn)) == Err(o.result.error)
      ensures o.Ready? && o.result.Ok? ==>
        && inner.conn == old(inner.conn).(cursor := None)
        && CountsFrom(result, old(inner.conn)) == Counted(o.result.value, Counts(inner.conn.rest))
    {
      match result {
        case Rows =>
          assert Left(inner.conn)[1..] == inner.conn.rest;
          var count := CountRows();
          if count.Dropped? {
            o := Dropped;
          } else if count.result.Err? {
            o := Ready(Err(count.result.error));
          } else {
            o := Ready(Ok([count.result.value]));
          }
        case NoRows(Some(n)) =>
          o := Ready(Ok([n]));
        case NoRows(None) =>
          CountedNothing(Counts(inner.conn.rest));
          o := Ready(Ok([]));
      }
    }

    /** Counts the rows of the current row set by reading them. */
    method CountRows() returns (o: Await<nat>)
      requires inner.Startable() && inner.conn.cursor.Some?
      modifies inner
      ensures inner.Valid() && inner.guarded && old(inner.history) <= inner.history
      ensures SameRequests(old(inner.conn), inner.conn)
      ensures o.Ready? ==>
        var k := old(inner.conn).cursor.value;
        match k.broken
        case None => o.result == Ok(|k.rows|) && inner.conn == old(inner.conn).(cursor := None)
        case Some(f) => o.result == Err(Error.Native(f.code)) && (inner.conn.dead || !inner.conn.torn)
    {
      var count := 0;
      ghost var k := inner.conn.cursor.value;
      while true
        invariant inner.Startable() && old(inner.history) <= inner.history
        invariant 0 <= count <= |k.rows|
        invariant inner.conn == old(inner.conn).(cursor := Some(k.(rows := k.rows[count..])))
        decreases |k.rows| - count
      {
        var row := inner.ReadRow();
        if row.Dropped? {
          return Dropped;
        } else if row.result.Err? {
          return Ready(Err(row.result.error));
        } else if row.result.value.None? {
          break;
        }
        count := count + 1;
      }
      o := Ready(Ok(count));
    }
  }

  lemma CountedNothing(rest: Result<seq<nat>>)
    ensures Counted([], rest) == rest
  {
    if rest.Ok? {
      assert [] + rest.value == rest.value;
    }
  }

  lemma CountedMore(counts: seq<nat>, more: seq<nat>, rest: Result<seq<nat>>)
    ensures Counted(counts, Counted(more, rest)) == Counted(counts + more, rest)
  {
    if rest.Ok? {
      assert counts + (more + rest.value) == counts + more + rest.value;
    }
  }
}
