/**
 The generator behind `Client::query_compat` (src/client.rs): an async stream that takes a fresh
 guard for every read, so that it can be dropped safely at each yield point.
 */
module Streams {
  import opened Wrappers
  import opened Rows
  import opened Replies
  import opened Native
  import opened Operations
  import opened Clients

  /**
   Where the generator is suspended: not started; at a yield, after an item; inside a native call,
   with its guard armed; or finished.
   */
  datatype Phase =
    | Unstarted
    | Closing
    | Sending
    | Seeking
    | YieldedMetadata
    | YieldedRow
    | Reading
    | Moving
    | Finished
  {
    predicate InCall() {
      Closing? || Sending? || Seeking? || Reading? || Moving?
    }

    /** The request has not been answered yet. */
    predicate Opening() {
      Unstarted? || Closing? || Sending?
    }

    predicate InSet() {
      YieldedMetadata? || YieldedRow? || Reading?
    }
  }

  class CompatGenerator {
    const client: TdsClient
    const request: Request
    const answer: Answer
    /** The connection as the stream found it. */
    ghost const start: Conn
    var phase: Phase
    var schema: RowSchema
    var resultIndex: nat
    var writer: BridgeRowWriter
    var operation: Operation?
    /** The connection as the latest native call found it. */
    var before: Conn

    /** The connection without the call in flight. */
    ghost function Settled(): Conn
      reads this, client
    {
      if phase.InCall() then before else client.conn
    }

    /** A native call is in flight under an armed guard of this stream. */
    ghost predicate Guarded()
      reads this, client, operation
    {
      && operation != null && operation.client == client && operation.Live()
      && client.InFlight() && Clean(before)
      && client.conn == (if phase.Sending? then Posted(before, request) else before).(torn := true)
    }

    ghost predicate Valid()
      reads this, client, writer, operation
    {
      && client.Valid() && writer.Valid() && writer.values == []
      && (if phase.InCall() then Guarded() else !client.guarded)
      && Idle(Settled()) && Served(start, request, Settled())
      && (phase.Unstarted? ==> client.conn == start)
      && (phase.Opening() || phase.Seeking? ==> resultIndex == 0)
      && (phase.Sending? ==> Drained(before) && before.sent == start.sent)
      && (!phase.Finished? ==> Settled().failures == start.failures)
      && (phase.Closing? ==> before == start)
      && (phase.Seeking? || phase.Moving? ==> before.cursor.None?)
      && (phase.InSet() ==>
            && Clean(Settled()) && Settled().cursor.Some?
            && schema == SchemaOf(Settled().cursor.value.columns))
      && (phase.YieldedRow? || phase.Reading? ==> writer.schema == schema && writer.resultIndex == resultIndex)
    }

    /** The items still to come, if the driver and the server go through with the request. */
    ghost function Remaining(): seq<Result<QueryItem>>
      requires phase.InSet() ==> Settled().cursor.Some?
      reads this, client
    {
      if phase.Finished? then []
      else if phase.Opening() then Items(answer.statements, 0)
      else if phase.InSet() then
        var k := Settled().cursor.value;
        ItemsInSet(k.columns, k.rows, k.broken, Settled().rest, resultIndex)
      else Items(Settled().rest, resultIndex)
    }

    constructor (client: TdsClient, request: Request, answer: Answer)
      requires client.Valid() && !client.guarded && Idle(client.conn)
      ensures Valid() && phase.Unstarted?
      ensures this.client == client && this.request == request && this.answer == answer && start == client.conn
      ensures fresh(writer) && operation == null
    {
      this.client := client;
      this.request := request;
      this.answer := answer;
      start := client.conn;
      phase := Unstarted;
      schema := RowSchema([], map[]);
      resultIndex := 0;
      operation := null;
      before := client.conn;
      writer := new BridgeRowWriter(RowSchema([], map[]), 0);
    }

    /** Takes a guard and starts a native call under it. */
    method StartCall(call: Phase)
      requires client.Valid() && !client.guarded && Clean(client.conn)
      requires call.InCall() && !call.Sending?
      modifies this`operation, this`before, this`phase, client
      ensures phase == call && Guarded() && fresh(operation) && before == old(client.conn)
      ensures old(client.history) <= client.history
    {
      var guard := NewOperation(client);
      operation := guard.value;
      before := client.conn;
      client.Begin();
      phase := call;
    }

    /** No call in flight and no guard armed, at a clean boundary or dead. */
    ghost predicate Resting()
      reads this, client, writer
    {
      && client.Valid() && !client.guarded && writer.Valid() && writer.values == []
      && Idle(client.conn) && Served(start, request, client.conn)
    }

    /** The stream ends with an error. */
    method Fail(error: Error) returns (p: Poll<Result<QueryItem>>)
      requires Resting()
      modifies this`phase
      ensures Valid() && phase.Finished? && p == Item(Err(error))
    {
      phase := Finished;
      p := Item(Err(error));
    }

    /** Yields the metadata of the row set just reached. */
    method YieldMetadata() returns (p: Poll<Result<QueryItem>>)
      requires Resting() && Clean(client.conn) && client.conn.cursor.Some? && client.conn.failures == start.failures
      modifies this`schema, this`phase
      ensures Valid() && phase.YieldedMetadata?
      ensures p.Item? && p.item.Ok? && Items(Left(client.conn), resultIndex) == [p.item] + Remaining()
    {
      assert Left(client.conn)[1..] == client.conn.rest;
      schema := FromMetadata(client.conn.cursor.value.columns);
      phase := YieldedMetadata;
      p := Item(Ok(Metadata(schema, resultIndex)));
    }

    /** Starts `advance_to_rows` after the answer's first statement or after a row set. */
    method StartSkip(call: Phase)
      requires Resting() && Clean(client.conn) && client.conn.cursor.None? && client.conn.failures == start.failures
      requires call.Moving? || (call.Seeking? && resultIndex == 0)
      modifies this`operation, this`before, this`phase, client
      ensures Valid() && phase == call && fresh(operation) && old(client.history) <= client.history
      ensures Remaining() == Items(old(client.conn.rest), resultIndex)
    {
      StartCall(call);
    }

    /**
     One poll. Every item delivered is the next one of this request's own answer; pending changes
     nothing; the stream ends after its last item, or after one error. The error is the answer's own,
     unless the connection was dead or the driver failed on its own account before the answer began.
     */
    method PollNext() returns (p: Poll<Result<QueryItem>>)
      requires Valid()
      modifies this, client, writer, operation
      ensures Valid() && old(client.history) <= client.history
      ensures writer == old(writer) || fresh(writer)
      ensures operation == old(operation) || fresh(operation)
      ensures p.Pending? ==> phase.InCall() && Remaining() == old(Remaining())
      ensures p.Item? && p.item.Ok? ==> old(Remaining()) == [p.item] + Remaining()
      ensures p.Item? && p.item.Err? ==> phase.Finished?
      ensures p.Item? && p.item.Err? && (!old(phase).Opening() || client.conn.failures == start.failures) ==>
                old(Remaining()) == [p.item] || (old(phase).Unstarted? && old(client.conn).dead)
      ensures p.Exhausted? ==> phase.Finished? && old(Remaining()) == []
      ensures old(phase).Unstarted? && old(client.conn).dead ==>
                p == Item(Err(ConnectionClosed)) && client.conn == old(client.conn)
    {
      if phase.Finished? {
        return Exhausted;
      }
      if phase.Unstarted? && client.conn.dead {
        var refused := NewOperation(client);
        phase := Finished;
        return Item(Err(refused.error));
      }
      Resume();
      p := Continue();
    }

    /** From a yield point to the next native call. */
    method Resume()
      requires Valid() && !phase.Finished? && (phase.Unstarted? ==> !client.conn.dead)
      modifies this, client
      ensures Valid() && old(client.history) <= client.history
      ensures phase.InCall() && Remaining() == old(Remaining())
      ensures phase.Opening() <==> old(phase).Opening()
      ensures writer == old(writer) || fresh(writer)
      ensures operation == old(operation) || fresh(operation)
    {
      match phase {
        case Unstarted =>
          StartCall(Closing);
        case YieldedMetadata =>
          writer := new BridgeRowWriter(schema, resultIndex);
          StartRead();
        case YieldedRow =>
          StartRead();
        case _ =>
      }
    }

    /** Starts reading a row into the current writer. */
    method StartRead()
      requires Valid() && (phase.YieldedMetadata? || phase.YieldedRow?)
      requires writer.schema == schema && writer.resultIndex == resultIndex
      modifies this`operation, this`before, this`phase, client
      ensures Valid() && phase.Reading? && fresh(operation) && old(client.history) <= client.history
      ensures Remaining() == old(Remaining())
    {
      StartCall(Reading);
    }

    /** From native call to native call, as far as they are ready. */
    method Continue() returns (p: Poll<Result<QueryItem>>)
      requires Valid() && phase.InCall()
      modifies this, client, writer, operation
      ensures Valid() && old(client.history) <= client.history
      ensures writer == old(writer)
      ensures operation == old(operation) || fresh(operation)
      ensures p.Pending? ==> phase.InCall() && Remaining() == old(Remaining())
      ensures p.Item? && p.item.Ok? ==> old(Remaining()) == [p.item] + Remaining()
      ensures p.Item? && p.item.Err? ==> phase.Finished?
      ensures p.Item? && p.item.Err? && (!old(phase).Opening() || client.conn.failures == start.failures) ==>
                old(Remaining()) == [p.item]
      ensures p.Exhausted? ==> phase.Finished? && old(Remaining()) == []
    {
      hide ItemsInSet;
      hide Items;
      if phase.Closing? {
        if * {
          return Poll.Pending;
        }
        p := EndClose();
        if !phase.Sending? {
          return;
        }
      }
      if phase.Sending? {
        if * {
          return Poll.Pending;
        }
        p := EndSend();
        if !phase.Seeking? {
          return;
        }
      }
      if phase.Reading? {
        if * {
          return Poll.Pending;
        }
        p := EndRead();
        if !phase.Moving? {
          return;
        }
      }
      if * {
        return Poll.Pending;
      }
      p := EndAdvance();
    }

    /** `close_query` has ended: on success the request goes out. */
    method EndClose() returns (p: Poll<Result<QueryItem>>)
      requires Valid() && phase.Closing?
      modifies this, client, operation
      ensures Valid() && old(client.history) <= client.history
      ensures writer == old(writer) && operation == old(operation)
      ensures if phase.Sending? then Remaining() == old(Remaining())
              else phase.Finished? && p.Item? && p.item.Err?
      ensures phase.Finished? ==> client.conn.failures > start.failures
    {
      var closed := client.FinishCloseQuery();
      if closed.Err? {
        operation.Complete();
        p := Fail(closed.error);
        return;
      }
      before := client.conn;
      client.Send(request);
      phase := Sending;
      p := Poll.Pending;
    }

    /** Ends the request and its guard, at the first statement of the answer. */
    method FinishSend() returns (result: Result<StatementResult>)
      requires Valid() && phase.Sending?
      modifies client, operation
      ensures Resting() && old(client.history) <= client.history
      ensures result.Ok? ==>
        && Clean(client.conn) && client.conn.failures == start.failures
        && Items(Left(client.conn), 0) == Items(answer.statements, 0)
      ensures result.Err? && client.conn.failures == start.failures ==> Items(answer.statements, 0) == [Err(result.error)]
    {
      hide Items;
      hide ItemsInSet;
      hide Executed;
      result := client.FinishExecute(before, request, answer);
      SendEnds(before, request, answer, result, client.conn);
      operation.Complete();
    }

    /** The request has ended: on success the stream looks for the first row set. */
    method EndSend() returns (p: Poll<Result<QueryItem>>)
      requires Valid() && phase.Sending?
      modifies this, client, operation
      ensures Valid() && old(client.history) <= client.history
      ensures writer == old(writer) && (operation == old(operation) || fresh(operation))
      ensures if phase.Seeking? then Remaining() == old(Remaining())
              else if phase.YieldedMetadata? then p.Item? && p.item.Ok? && old(Remaining()) == [p.item] + Remaining()
              else phase.Finished? && p.Item? && p.item.Err?
      ensures phase.Finished? && client.conn.failures == start.failures ==> old(Remaining()) == [p.item]
    {
      hide ItemsInSet;
      hide Items;
      var result := FinishSend();
      if result.Err? {
        p := Fail(result.error);
        return;
      }
      resultIndex := 0;
      if client.conn.cursor.Some? {
        p := YieldMetadata();
      } else {
        StartSkip(Seeking);
        p := Poll.Pending;
      }
    }

    /** Ends a row read and its guard: one row is in the writer, or the set is at its end. */
    method FinishRead() returns (result: Result<bool>)
      requires Valid() && phase.Reading?
      modifies client, operation, writer
      ensures client.Valid() && !client.guarded && writer.Valid() && old(client.history) <= client.history
      ensures writer.schema == schema && writer.resultIndex == resultIndex
      ensures Idle(client.conn) && Served(start, request, client.conn)
      ensures match NextRow(before).0
        case Err(e) => result == Err(e) && writer.values == []
        case Ok(None) => result == Ok(false) && writer.values == [] && client.conn == before.(cursor := None)
        case Ok(Some(row)) =>
          var k := before.cursor.value;
          && result == Ok(true) && writer.values == row && k.rows != [] && row == k.rows[0]
          && client.conn == before.(cursor := Some(k.(rows := k.rows[1..])))
    {
      result := client.FinishNextRowInto(writer);
      operation.Complete();
    }

    /** Takes the row out of the writer and yields it. */
    method YieldRow() returns (p: Poll<Result<QueryItem>>)
      requires client.Valid() && !client.guarded && writer.Valid()
      requires writer.schema == schema && writer.resultIndex == resultIndex
      requires Idle(client.conn) && Served(start, request, client.conn)
      requires client.conn.failures == start.failures
      requires Clean(client.conn) && client.conn.cursor.Some? && schema == SchemaOf(client.conn.cursor.value.columns)
      modifies this`phase, writer
      ensures Valid() && phase.YieldedRow?
      ensures p == Item(Ok(RowItem(RowOf(schema, old(writer.values), resultIndex))))
    {
      var row := writer.TakeRow();
      phase := YieldedRow;
      p := Item(Ok(RowItem(row)));
    }

    /** A row read has ended: a row is yielded, or the stream moves on to the next set. */
    method EndRead() returns (p: Poll<Result<QueryItem>>)
      requires Valid() && phase.Reading?
      modifies this, client, operation, writer
      ensures Valid() && old(client.history) <= client.history
      ensures writer == old(writer) && (operation == old(operation) || fresh(operation))
      ensures if phase.Moving? then Remaining() == old(Remaining())
              else if phase.YieldedRow? then p.Item? && p.item.Ok? && old(Remaining()) == [p.item] + Remaining()
              else phase.Finished? && p.Item? && p.item.Err? && old(Remaining()) == [p.item]
    {
      NextItem(before.cursor.value, before.rest, resultIndex);
      hide ItemsInSet;
      hide Items;
      var result := FinishRead();
      if result.Err? {
        p := Fail(result.error);
        return;
      }
      if result.value {
        p := YieldRow();
        return;
      }
      resultIndex := resultIndex + 1;
      StartSkip(Moving);
      p := Poll.Pending;
    }

    /** Ends `advance_to_rows` and its guard: what is left to stream starts at the next row set, if there is one. */
    method FinishSkip() returns (result: Result<bool>)
      requires Valid() && (phase.Seeking? || phase.Moving?)
      modifies client, operation
      ensures Resting() && old(client.history) <= client.history
      ensures client.conn.failures == start.failures
      ensures match result
        case Ok(true) =>
          && Clean(client.conn) && client.conn.cursor.Some?
          && Items(Left(client.conn), resultIndex) == Items(before.rest, resultIndex)
        case Ok(false) => Items(before.rest, resultIndex) == []
        case Err(e) => Items(before.rest, resultIndex) == [Err(e)]
    {
      hide ItemsInSet;
      hide Items;
      hide AdvanceToRows;
      SkipEnds(before, resultIndex);
      result := client.FinishAdvanceToRows();
      operation.Complete();
    }

    /** `advance_to_rows` has ended. */
    method EndAdvance() returns (p: Poll<Result<QueryItem>>)
      requires Valid() && (phase.Seeking? || phase.Moving?)
      modifies this, client, operation
      ensures Valid() && old(client.history) <= client.history
      ensures writer == old(writer) && operation == old(operation)
      ensures p.Item? && p.item.Ok? ==> old(Remaining()) == [p.item] + Remaining()
      ensures p.Item? && p.item.Err? ==> phase.Finished? && old(Remaining()) == [p.item]
      ensures p.Exhausted? ==> phase.Finished? && old(Remaining()) == []
      ensures !p.Pending?
    {
      hide ItemsInSet;
      hide Items;
      var result := FinishSkip();
      if result.Err? {
        p := Fail(result.error);
        return;
      }
      if !result.value {
        phase := Finished;
        return Exhausted;
      }
      p := YieldMetadata();
    }

    /** Dropping the stream: harmless at a yield, deadly inside a native call. */
    method Drop()
      requires Valid()
      modifies this, client, operation
      ensures client.Valid() && !client.guarded && old(client.history) <= client.history
      ensures phase.Finished? && Served(start, request, client.conn)
      ensures if old(phase).InCall() then client.conn.dead else client.conn == old(client.conn)
    {
      if phase.InCall() {
        operation.Drop();
      }
      phase := Finished;
    }
  }

  /** Where a request's first answer leaves the connection, and what is left to stream from there. */
  lemma SendEnds(c: Conn, request: Request, answer: Answer, result: Result<StatementResult>, c': Conn)
    requires Executed(c, request, answer, result, c') && Clean(c) && Drained(c) && !c.resetArmed
    ensures c'.epoch == c.epoch && c'.sent == c.sent + [Sent(request, c.epoch, false)] && Idle(c')
    ensures result.Ok? ==> Clean(c') && c'.failures == c.failures && Items(Left(c'), 0) == Items(answer.statements, 0)
    ensures result.Err? && c'.failures == c.failures ==> Items(answer.statements, 0) == [Err(result.error)]
  {
    var statements := answer.statements;
    assert [] + statements == statements;
    if statements != [] && result.Ok? && result.value.Rows? {
      assert Left(c') == statements;
    }
  }

  /** Where a skip to the next row set leaves the connection, and what is left to stream from there. */
  lemma SkipEnds(c: Conn, index: nat)
    requires Clean(c) && c.cursor.None? && !c.resetArmed
    ensures var (r, c') := AdvanceToRows(c);
      && c'.epoch == c.epoch && c'.sent == c.sent && c'.failures == c.failures && Idle(c') && (c'.torn ==> c'.dead)
      && match r
         case Ok(true) => Clean(c') && c'.cursor.Some? && Items(Left(c'), index) == Items(c.rest, index)
         case Ok(false) => Items(c.rest, index) == []
         case Err(e) => Items(c.rest, index) == [Err(e)]
  {
    AdvanceKeeps(c);
    AdvanceSkips(c, index);
  }

  /** Reading one row of a set takes off its next item. */
  lemma NextItem(k: Cursor, rest: seq<Statement>, index: nat)
    ensures var items := ItemsInSet(k.columns, k.rows, k.broken, rest, index);
      if k.rows != [] then
        items == [Ok(RowItem(RowOf(SchemaOf(k.columns), k.rows[0], index)))]
                 + ItemsInSet(k.columns, k.rows[1..], k.broken, rest, index)
      else
        match k.broken
        case Some(f) => items == [Err(Error.Native(f.code))]
        case None => items == Items(rest, index + 1)
  {
    if k.rows != [] {
      assert RowItems(k.columns, k.rows, index)
          == [Ok(RowItem(RowOf(SchemaOf(k.columns), k.rows[0], index)))] + RowItems(k.columns, k.rows[1..], index);
    }
  }
}
