/**
 The native driver, as far as the bridge relies on it.

 A native call starts I/O, may be abandoned there by a caller that drops it, and otherwise ends at
 a clean boundary or marks the connection dead. What the server answers is an argument of the call
 that sends the request; every answer is possible, failures at any point of it included.
 */
module Native {
  import opened Wrappers
  import opened Values
  import opened Rows
  import opened Replies
  import opened Params
  import G = Guard

  // ---------------------------------------------------------------------
  // The server session
  // ---------------------------------------------------------------------

  datatype Isolation = ReadUncommitted | ReadCommitted | RepeatableRead | SnapshotIsolation | Serializable

  datatype Session = Session(settings: map<string, string>, temporaries: set<string>, inTransaction: bool,
                             handles: set<int>, isolation: Isolation)

  const DEFAULT_SESSION := Session(map[], {}, false, {}, ReadCommitted)

  /** RESETCONNECTION (section 2.2.3.1.2 of MS-TDS) restores everything but the isolation level. */
  function AfterReset(session: Session): Session {
    DEFAULT_SESSION.(isolation := session.isolation)
  }

  datatype Request =
    | Batch(sql: string)
    | ExecuteSql(sql: string, params: seq<RpcParameter>)
    | Prepare(sql: string, declaration: string)
    | ExecutePrepared(handle: int, params: seq<RpcParameter>)
    | Unprepare(handle: int)
    | BulkLoad(table: string, rows: seq<LoadRow>)

  /** The server's answer: results, output parameters, and the session state it leaves behind. */
  datatype Answer = Answer(statements: seq<Statement>, outputs: seq<ColumnValues>, session: Session)

  /** The isolation level that a batch of one SET statement asks for. */
  function IsolationSetBy(sql: string): Option<Isolation> {
    if sql == "SET TRANSACTION ISOLATION LEVEL READ UNCOMMITTED" then Some(ReadUncommitted)
    else if sql == "SET TRANSACTION ISOLATION LEVEL READ COMMITTED" then Some(ReadCommitted)
    else if sql == "SET TRANSACTION ISOLATION LEVEL REPEATABLE READ" then Some(RepeatableRead)
    else if sql == "SET TRANSACTION ISOLATION LEVEL SNAPSHOT" then Some(SnapshotIsolation)
    else if sql == "SET TRANSACTION ISOLATION LEVEL SERIALIZABLE" then Some(Serializable)
    else None
  }

  /**
   The session after a request. A SET of the isolation level changes that and nothing else, after the reset
   that its flag may ask for; any other request may leave any session.
   */
  function SessionAfter(session: Session, reset: bool, request: Request, answer: Answer): Session {
    match request
    case Batch(sql) =>
      (match IsolationSetBy(sql)
       case Some(level) => (if reset then AfterReset(session) else session).(isolation := level)
       case None => answer.session)
    case _ => answer.session
  }

  // ---------------------------------------------------------------------
  // The connection
  // ---------------------------------------------------------------------

  /** A request as it went out: the session epoch it belongs to, and whether it carried the reset flag. */
  datatype Sent = Sent(request: Request, epoch: nat, reset: bool)

  /** Rows of the current row set not read yet. */
  datatype Cursor = Cursor(columns: seq<Column>, rows: seq<seq<ColumnValues>>, broken: Option<Fault>)

  /** `failures` counts the native calls that failed on their own account, not for what the server answered. */
  datatype Conn = Conn(
    dead: bool,
    torn: bool,
    cursor: Option<Cursor>,
    rest: seq<Statement>,
    outputs: seq<ColumnValues>,
    resetArmed: bool,
    session: Session,
    epoch: nat,
    sent: seq<Sent>,
    failures: nat)

  /** The dead flag and the reading position may change, nothing else. */
  predicate SameRequests(c: Conn, c': Conn) {
    c' == c.(dead := c'.dead, torn := c'.torn, cursor := c'.cursor, rest := c'.rest)
  }

  predicate Clean(c: Conn) {
    !c.dead && !c.torn
  }

  /** Nothing outstanding. */
  predicate Drained(c: Conn) {
    c.cursor.None? && c.rest == []
  }

  /** The statements still to be read, the current row set first. */
  function Left(c: Conn): seq<Statement> {
    match c.cursor
    case None => c.rest
    case Some(k) => [RowSet(k.columns, k.rows, k.broken)] + c.rest
  }

  /** The request leaves, carrying the reset flag if it is armed; a carried flag opens a new epoch. */
  function Posted(c: Conn, request: Request): Conn {
    var epoch := if c.resetArmed then c.epoch + 1 else c.epoch;
    c.(sent := c.sent + [Sent(request, epoch, c.resetArmed)], epoch := epoch, resetArmed := false)
  }

  /** The server has answered: its results line up behind whatever was outstanding. */
  function Answered(c: Conn, request: Request, answer: Answer): Conn {
    Posted(c, request).(rest := c.rest + answer.statements, outputs := answer.outputs,
                        session := SessionAfter(c.session, c.resetArmed, request, answer))
  }

  datatype StatementResult = Rows | NoRows(affected: Option<nat>) | End

  function Failed<A>(c: Conn, f: Fault): (Result<A>, Conn) {
    (Err(Error.Native(f.code)), c.(dead := c.dead || f.fatal))
  }

  /** Moves to the next statement, skipping unread rows of the current one up to its failure. */
  function Advance(c: Conn): (Result<StatementResult>, Conn) {
    var c0 := c.(cursor := None);
    if c.cursor.Some? && c.cursor.value.broken.Some? then Failed(c0, c.cursor.value.broken.value)
    else if c.rest == [] then (Ok(End), c0)
    else
      var c1 := c0.(rest := c.rest[1..]);
      match c.rest[0]
      case Count(n) => (Ok(NoRows(n)), c1)
      case Broken(f) => Failed(c1, f)
      case RowSet(columns, rows, broken) => (Ok(Rows), c1.(cursor := Some(Cursor(columns, rows, broken))))
  }

  /** Moves to the next statement with rows. */
  function AdvanceToRows(c: Conn): (Result<bool>, Conn)
    decreases |c.rest|
  {
    match Advance(c)
    case (Ok(Rows), c') => (Ok(true), c')
    case (Ok(End), c') => (Ok(false), c')
    case (Ok(NoRows(_)), c') => AdvanceToRows(c')
    case (Err(e), c') => (Err(e), c')
  }

  /** Reads one row of the current row set. */
  function NextRow(c: Conn): (Result<Option<seq<ColumnValues>>>, Conn) {
    match c.cursor
    case None => (Ok(None), c)
    case Some(k) =>
      if k.rows != [] then (Ok(Some(k.rows[0])), c.(cursor := Some(k.(rows := k.rows[1..]))))
      else
        match k.broken
        case Some(f) => Failed(c.(cursor := None), f)
        case None => (Ok(None), c.(cursor := None))
  }

  /** `close_query` consumes all outstanding results; if it fails it may stop anywhere before. */
  predicate Closed(c: Conn, result: Result<()>, c': Conn) {
    && SameRequests(c.(failures := c'.failures), c')
    && c'.failures == c.failures + (if result.Ok? then 0 else 1)
    && (result.Ok? ==> Clean(c') && Drained(c'))
    && (result.Err? ==> c'.dead || !c'.torn)
  }

  /**
   Sending ends with the first statement of the answer or, with an error, in a dead connection or
   in one that has no answer to read.
   */
  predicate Executed(c: Conn, request: Request, answer: Answer, result: Result<StatementResult>, c': Conn) {
    || (result, c') == Advance(Answered(c, request, answer))
    || (result.Err? && c' == Posted(c, request).(dead := c'.dead, failures := c.failures + 1))
  }

  class TdsClient {
    var conn: Conn
    /** A guard of the bridge is armed on this connection. */
    ghost var guarded: bool
    ghost var history: seq<G.Snapshot>

    ghost function Now(): G.Snapshot
      reads this
    {
      G.Snapshot(conn.dead, conn.torn, guarded)
    }

    /** The recorded history is a run of the guard protocol up to the present state. */
    ghost predicate Valid()
      reads this
    {
      G.Run(history) && history[|history| - 1] == Now()
    }

    /** A guarded operation may start native I/O. */
    ghost predicate Startable()
      reads this
    {
      Valid() && guarded && Clean(conn)
    }

    /** A native call is in flight. */
    ghost predicate InFlight()
      reads this
    {
      Valid() && guarded && conn.torn && !conn.dead
    }

    constructor (session: Session)
      ensures Valid() && !guarded
      ensures Clean(conn) && Drained(conn) && !conn.resetArmed && conn.sent == [] && conn.session == session
    {
      conn := Conn(false, false, None, [], [], false, session, 0, [], 0);
      guarded := false;
      history := [G.CONNECTED];
    }

    ghost method Record()
      requires G.Run(history) && G.Next(history[|history| - 1], Now())
      modifies this`history
      ensures Valid() && history == old(history) + [Now()]
    {
      G.Extend(history, Now());
      history := history + [Now()];
    }

    // Flags ---------------------------------------------------------------

    ghost method Arm()
      requires Valid() && !guarded && !conn.dead
      modifies this`guarded, this`history
      ensures Valid() && guarded && old(history) <= history
    {
      guarded := true;
      Record();
    }

    ghost method Disarm()
      requires Valid() && guarded && (conn.torn ==> conn.dead)
      modifies this`guarded, this`history
      ensures Valid() && !guarded && old(history) <= history
    {
      guarded := false;
      Record();
    }

    /** Called by a guard that is dropped while armed. */
    method MarkConnectionDead()
      requires Valid() && guarded
      modifies this
      ensures Valid() && !guarded && old(history) <= history
      ensures conn == old(conn).(dead := true)
    {
      conn := conn.(dead := true);
      guarded := false;
      Record();
    }

    method PrepareResetConnection()
      requires Valid()
      modifies this`conn
      ensures Valid() && conn == old(conn).(resetArmed := true)
    {
      conn := conn.(resetArmed := true);
    }

    // Native I/O ----------------------------------------------------------

    method Begin()
      requires Startable()
      modifies this
      ensures InFlight() && old(history) <= history
      ensures conn == old(conn).(torn := true)
    {
      conn := conn.(torn := true);
      Record();
    }

    /** The call in flight ends in `next`. */
    method Settle(next: Conn)
      requires InFlight() && (next.torn ==> next.dead)
      modifies this
      ensures Valid() && guarded && old(history) <= history
      ensures conn == next
    {
      conn := next;
      Record();
    }

    method FinishCloseQuery() returns (result: Result<()>)
      requires InFlight()
      modifies this
      ensures Valid() && guarded && old(history) <= history
      ensures Closed(old(conn).(torn := false), result, conn)
    {
      if {
        case true =>
          Settle(conn.(torn := false, cursor := None, rest := []));
          result := Ok(());
        case true =>
          var dead: bool, code: int, position: nat := *, *, *;
          var left := if position <= |conn.rest| then conn.rest[position..] else [];
          Settle(conn.(torn := false, dead := dead, cursor := None, rest := left, failures := conn.failures + 1));
          result := Err(Error.Native(code));
      }
    }

    method CloseQuery() returns (o: Await<()>)
      requires Startable()
      modifies this
      ensures Valid() && guarded && old(history) <= history
      ensures o.Dropped? ==> conn == old(conn).(torn := true)
      ensures o.Ready? ==> Closed(old(conn), o.result, conn)
    {
      Begin();
      if * {
        return Dropped;
      }
      var result := FinishCloseQuery();
      o := Ready(result);
    }

    /** Puts a request on the wire. */
    method Send(request: Request)
      requires Startable()
      modifies this
      ensures InFlight() && old(history) <= history
      ensures conn == Posted(old(conn), request).(torn := true)
    {
      conn := Posted(conn, request);
      Begin();
    }

    /** Ends the send of `request`, which found the connection as `before`. */
    method FinishExecute(before: Conn, request: Request, answer: Answer) returns (result: Result<StatementResult>)
      requires InFlight() && Clean(before)
      requires conn == Posted(before, request).(torn := true)
      modifies this
      ensures Valid() && guarded && old(history) <= history
      ensures Executed(before, request, answer, result, conn)
    {
      if {
        case true =>
          var (r, next) := Advance(Answered(before, request, answer));
          Settle(next);
          result := r;
        case true =>
          var dead: bool, code: int := *, *;
          Settle(conn.(torn := false, dead := dead, failures := conn.failures + 1));
          result := Err(Error.Native(code));
      }
    }

    method Execute(request: Request, answer: Answer) returns (o: Await<StatementResult>)
      requires Startable()
      modifies this
      ensures Valid() && guarded && old(history) <= history
      ensures o.Dropped? ==> conn == Posted(old(conn), request).(torn := true)
      ensures o.Ready? ==> Executed(old(conn), request, answer, o.result, conn)
    {
      var before := conn;
      Send(request);
      if * {
        return Dropped;
      }
      var result := FinishExecute(before, request, answer);
      o := Ready(result);
    }

    method AdvanceStatement() returns (o: Await<StatementResult>)
      requires Startable()
      modifies this
      ensures Valid() && guarded && old(history) <= history
      ensures o.Dropped? ==> conn == old(conn).(torn := true)
      ensures o.Ready? ==> (o.result, conn) == Advance(old(conn))
    {
      var before := conn;
      Begin();
      if * {
        return Dropped;
      }
      var (result, next) := Advance(before);
      Settle(next);
      o := Ready(result);
    }

    method FinishAdvanceToRows() returns (result: Result<bool>)
      requires InFlight()
      modifies this
      ensures Valid() && guarded && old(history) <= history
      ensures (result, conn) == AdvanceToRows(old(conn).(torn := false))
    {
      AdvanceKeeps(conn.(torn := false));
      var (r, next) := AdvanceToRows(conn.(torn := false));
      Settle(next);
      result := r;
    }

    method AdvanceRows() returns (o: Await<bool>)
      requires Startable()
      modifies this
      ensures Valid() && guarded && old(history) <= history
      ensures o.Dropped? ==> conn == old(conn).(torn := true)
      ensures o.Ready? ==> (o.result, conn) == AdvanceToRows(old(conn))
    {
      Begin();
      if * {
        return Dropped;
      }
      var result := FinishAdvanceToRows();
      o := Ready(result);
    }

    /** Decodes one row into the writer, one call per cell. */
    method FinishNextRowInto(writer: BridgeRowWriter) returns (result: Result<bool>)
      requires InFlight() && writer.Valid() && writer.values == []
      modifies this, writer
      ensures Valid() && guarded && old(history) <= history
      ensures writer.Valid()
      ensures var (r, next) := NextRow(old(conn).(torn := false));
        && conn == next
        && match r
           case Err(e) => result == Err(e) && writer.values == []
           case Ok(None) => result == Ok(false) && writer.values == []
           case Ok(Some(row)) => result == Ok(true) && writer.values == row
    {
      var (r, next) := NextRow(conn.(torn := false));
      Settle(next);
      match r {
        case Err(e) => result := Err(e);
        case Ok(None) => result := Ok(false);
        case Ok(Some(row)) =>
          for i := 0 to |row|
            invariant Valid() && guarded && conn == next && old(history) <= history
            invariant writer.Valid() && writer.values == row[..i]
          {
            writer.Write(row[i]);
          }
          result := Ok(true);
      }
    }

    method NextRowInto(writer: BridgeRowWriter) returns (o: Await<bool>)
      requires Startable() && writer.Valid() && writer.values == []
      modifies this, writer
      ensures Valid() && guarded && old(history) <= history
      ensures writer.Valid()
      ensures o.Dropped? ==> conn == old(conn).(torn := true)
      ensures o.Ready? ==>
        var (r, next) := NextRow(old(conn));
        && conn == next
        && match r
           case Err(e) => o.result == Err(e) && writer.values == []
           case Ok(None) => o.result == Ok(false) && writer.values == []
           case Ok(Some(row)) => o.result == Ok(true) && writer.values == row
    {
      Begin();
      if * {
        return Dropped;
      }
      var result := FinishNextRowInto(writer);
      o := Ready(result);
    }

    method ReadRow() returns (o: Await<Option<seq<ColumnValues>>>)
      requires Startable()
      modifies this
      ensures Valid() && guarded && old(history) <= history
      ensures o.Dropped? ==> conn == old(conn).(torn := true)
      ensures o.Ready? ==> (o.result, conn) == NextRow(old(conn))
    {
      var before := conn;
      Begin();
      if * {
        return Dropped;
      }
      var (result, next) := NextRow(before);
      Settle(next);
      o := Ready(result);
    }
  }

  // ---------------------------------------------------------------------
  // Reading, against what the answer is meant to deliver
  // ---------------------------------------------------------------------

  lemma {:induction false} AdvanceKeeps(c: Conn)
    ensures var (r, c') := AdvanceToRows(c);
      && SameRequests(c, c') && c'.torn == c.torn
      && (r.Ok? ==> c'.dead == c.dead)
      && |c'.rest| <= |c.rest|
      && (r == Ok(true) ==> c'.cursor.Some? && |c'.rest| < |c.rest|)
      && (r == Ok(false) ==> Drained(c'))
    decreases |c.rest|
  {
    match Advance(c)
    case (Ok(NoRows(_)), c') => AdvanceKeeps(c');
    case _ =>
  }

  /** One step to the next statement loses no result set and no item. */
  lemma AdvanceOnceDelivers(c: Conn, index: nat)
    requires c.cursor.None?
    ensures var (r, c') := Advance(c);
      match r
      case Err(e) => ResultSets(c.rest, index) == Err(e) && Items(c.rest, index) == [Err(e)]
      case Ok(_) => ResultSets(Left(c'), index) == ResultSets(c.rest, index) && Items(Left(c'), index) == Items(c.rest, index)
  {
    if c.rest != [] && c.rest[0].RowSet? {
      assert Left(Advance(c).1) == c.rest;
    }
  }

  /** Skipping statements without rows changes neither what is collected nor what is streamed. */
  lemma {:induction false} AdvanceSkips(c: Conn, index: nat)
    requires c.cursor.None?
    ensures var (r, c') := AdvanceToRows(c);
      match r
      case Ok(true) => ResultSets(c.rest, index) == ResultSets(Left(c'), index)
                    && Items(c.rest, index) == Items(Left(c'), index)
      case Ok(false) => ResultSets(c.rest, index) == Ok([]) && Items(c.rest, index) == []
      case Err(e) => ResultSets(c.rest, index) == Err(e) && Items(c.rest, index) == [Err(e)]
    decreases |c.rest|
  {
    AdvanceOnceDelivers(c, index);
    match Advance(c)
    case (Ok(NoRows(_)), c') => AdvanceSkips(c', index);
    case _ =>
  }

  /** One step fails on the statement it leaves or on a broken one it meets, and passes sound ones. */
  lemma AdvanceOnceFails(c: Conn)
    ensures var (r, c') := Advance(c);
      match r
      case Ok(_) => Failure(Left(c)) == Failure(Left(c')) && (r.value.End? ==> Failure(Left(c)) == None)
      case Err(e) => Failure(Left(c)) == Some(e)
  {
    if c.cursor.Some? {
      assert Left(c)[1..] == c.rest;
    }
    if c.rest != [] {
      var c' := Advance(c).1;
      if c'.cursor.Some? {
        assert Left(c')[1..] == c.rest[1..];
      }
    }
  }

  /** Skipping to the next row set, unread rows included, fails on the first failing statement it meets. */
  lemma {:induction false} AdvanceFails(c: Conn)
    ensures var (r, c') := AdvanceToRows(c);
      match r
      case Ok(more) => Failure(Left(c)) == Failure(Left(c')) && (!more ==> Failure(Left(c)) == None)
      case Err(e) => Failure(Left(c)) == Some(e)
    decreases |c.rest|
  {
    hide Failure;
    AdvanceOnceFails(c);
    match Advance(c)
    case (Ok(NoRows(_)), c') => AdvanceFails(c');
    case _ =>
  }
}
