/** Bulk loads: the incremental request, the row encoder and the guarded send (src/bulk.rs). */
module Bulk {
  import opened Wrappers
  import opened Values
  import opened Conversion
  import opened Native
  import opened Operations
  import opened Clients
  import M = Meanings

  type Tokens = seq<ColumnData>

  /** The rows a request accepts: those as wide as the first one offered. */
  function Accepted(offered: seq<Tokens>): (rows: seq<Tokens>) {
    if offered == [] then []
    else
      var before := Accepted(offered[..|offered| - 1]);
      var last := offered[|offered| - 1];
      if |last| == |offered[0]| then before + [last] else before
  }

  /** Acceptance of one more row, in terms of all rows offered before. */
  lemma AcceptedNext(offered: seq<Tokens>, row: Tokens)
    ensures Accepted(offered + [row])
         == if offered == [] || |row| == |offered[0]| then Accepted(offered) + [row] else Accepted(offered)
  {
    assert (offered + [row])[..|offered|] == offered;
  }

  /** The rows of one width, in their order. */
  function OfWidth(rows: seq<Tokens>, width: nat): (r: seq<Tokens>)
    ensures forall row | row in r :: |row| == width
  {
    if rows == [] then [] else (if |rows[0]| == width then [rows[0]] else []) + OfWidth(rows[1..], width)
  }

  lemma {:induction false} OfWidthNext(rows: seq<Tokens>, row: Tokens, width: nat)
    ensures OfWidth(rows + [row], width) == OfWidth(rows, width) + (if |row| == width then [row] else [])
  {
    if rows == [] {
      assert rows + [row] == [row];
    } else {
      var first := if |rows[0]| == width then [rows[0]] else [];
      assert (rows + [row])[1..] == rows[1..] + [row];
      assert OfWidth(rows, width) == first + OfWidth(rows[1..], width);
      assert OfWidth(rows + [row], width) == first + OfWidth(rows[1..] + [row], width);
      OfWidthNext(rows[1..], row, width);
      hide *;
    }
  }

  /** The accepted rows are those of the first row's width, in the order offered. */
  lemma {:induction false} AcceptedRows(offered: seq<Tokens>)
    requires offered != []
    ensures Accepted(offered) == OfWidth(offered, |offered[0]|)
  {
    var front, last := offered[..|offered| - 1], offered[|offered| - 1];
    assert offered == front + [last];
    OfWidthNext(front, last, |offered[0]|);
    if front != [] {
      assert front[0] == offered[0];
      AcceptedRows(front);
    }
  }

  // ---------------------------------------------------------------------
  // Errors of the input
  // ---------------------------------------------------------------------

  const BULK_INPUT_PREFIXES: seq<string> := [
    "Row ", "Column index ", "Binary data length ", "String length ", "SQL_VARIANT data size ",
    "SQL_VARIANT total size ", "Cannot serialize NULL ", "Unsupported TDS type ", "Invalid UTF-16 data: ",
    "Conversion error: "
  ]

  /** The message of an error; `detail` is the part of the text that is not modelled. */
  function Displayed(error: Error, detail: string): string {
    match error
    case ColumnNotFound(name) => "Column not found: " + name
    case ColumnIndexOutOfBounds(_, _) => "Column index " + detail
    case Conversion => "Conversion error: " + detail
    case BulkInput => "BULK UPLOAD input failure: " + detail
    case InvalidPreparedStatement => "Prepared statement belongs to a different or reset client session"
    case _ => "TDS error: " + detail
  }

  /** `e` is the usage error that carries the message of `cause`. */
  ghost predicate Wraps(e: Error, cause: Error) {
    exists detail :: e == Usage(Message(Displayed(cause, detail)))
  }

  lemma WrappedText(cause: Error, detail: string)
    ensures Wraps(Usage(Message(Displayed(cause, detail))), cause)
  {
  }

  predicate IsBulkInputMessage(message: string) {
    exists prefix | prefix in BULK_INPUT_PREFIXES :: prefix <= message
  }

  /** The bridge's own usage errors begin with none of the prefixes. */
  function MapCompatBulkError(error: Error): Error {
    match error
    case Usage(Message(text)) => if IsBulkInputMessage(text) then BulkInput else error
    case _ => error
  }

  /** The message of a conversion error is recognised when it comes back from the driver. */
  lemma ConversionErrorsSurface(e: Error)
    requires Wraps(e, Error.Conversion)
    ensures MapCompatBulkError(e) == BulkInput
  {
    var detail :| e == Usage(Message(Displayed(Error.Conversion, detail)));
    var prefix := BULK_INPUT_PREFIXES[9];
    assert prefix in BULK_INPUT_PREFIXES && prefix <= Displayed(Error.Conversion, detail);
  }

  /** Every other error passes through as it is: only a usage error whose message begins so is remapped. */
  lemma OtherErrorsPass(e: Error)
    ensures MapCompatBulkError(e) == e || MapCompatBulkError(e) == BulkInput
    ensures MapCompatBulkError(e) != e ==>
      && e.Usage? && e.reason.Message?
      && var text := e.reason.text;
         || "Row " <= text || "Column index " <= text || "Binary data length " <= text || "String length " <= text
         || "SQL_VARIANT data size " <= text || "SQL_VARIANT total size " <= text || "Cannot serialize NULL " <= text
         || "Unsupported TDS type " <= text || "Invalid UTF-16 data: " <= text || "Conversion error: " <= text
  {
    if MapCompatBulkError(e) != e {
      var prefix :| prefix in BULK_INPUT_PREFIXES && prefix <= e.reason.text;
    }
  }

  // ---------------------------------------------------------------------
  // Rows on the wire
  // ---------------------------------------------------------------------

  /** The cells of a row, or why a cell has no wire form. */
  function RowCells(row: LoadRow): seq<Result<ColumnValues>> {
    match row
    case TokenRow(values) => seq(|values|, i requires 0 <= i < |values| => IntoColumnValue(values[i]))
    case ArrowRow(batch, rowIdx) =>
      seq(|batch.columns|, c requires 0 <= c < |batch.columns| =>
        if rowIdx < |batch.columns[c]| then batch.columns[c][rowIdx] else Err(Usage(OutOfRange)))
  }

  /** A row's cells are its values as cells, in order, each denoting its value; or the batch's cells of that row. */
  lemma CellsOfRow(row: LoadRow)
    ensures row.TokenRow? ==>
              && |RowCells(row)| == |row.values|
              && forall i | 0 <= i < |row.values| :: SameCell(row.values[i], RowCells(row)[i])
    ensures row.ArrowRow? ==>
              && |RowCells(row)| == |row.batch.columns|
              && forall c | 0 <= c < |row.batch.columns| && row.rowIdx < |row.batch.columns[c]| ::
                   RowCells(row)[c] == row.batch.columns[c][row.rowIdx]
  {
    if row.TokenRow? {
      forall i | 0 <= i < |row.values| ensures SameCell(row.values[i], RowCells(row)[i]) {
        M.IntoCellKeeps(row.values[i]);
      }
    }
  }

  /** A value and what it is written as. */
  predicate SameCell(value: ColumnData, cell: Result<ColumnValues>) {
    match cell
    case Err(_) => value.Native?
    case Ok(c) => !value.Native? && if c.Null? then M.Nothing(M.OfData(value)) else M.OfData(value) == M.OfCell(c)
  }

  /** Why the first cell without a wire form has none. */
  function CellProblem(cells: seq<Result<ColumnValues>>): Option<Error> {
    if cells == [] then None
    else if cells[0].Err? then Some(cells[0].error)
    else CellProblem(cells[1..])
  }

  /** The first cell problem of the first row that has one. */
  function LoadProblem(rows: seq<LoadRow>): Option<Error> {
    if rows == [] then None
    else
      match CellProblem(RowCells(rows[0]))
      case Some(e) => Some(e)
      case None => LoadProblem(rows[1..])
  }

  /** Sound cells as they are written, from column `index` on. */
  function Written(cells: seq<Result<ColumnValues>>, index: nat): seq<(nat, ColumnValues)>
    requires forall c | c in cells :: c.Ok?
  {
    seq(|cells|, k requires 0 <= k < |cells| => ((index + k) as nat, cells[k].value))
  }

  lemma {:induction false} ProblemAt(cells: seq<Result<ColumnValues>>, k: nat)
    requires k <= |cells| && forall c | c in cells[..k] :: c.Ok?
    ensures k == |cells| ==> CellProblem(cells) == None
    ensures k < |cells| && cells[k].Err? ==> CellProblem(cells) == Some(cells[k].error)
  {
    if k > 0 {
      assert cells[..k] == [cells[0]] + cells[1..][..k - 1] && cells[0] in cells[..k];
      ProblemAt(cells[1..], k - 1);
    }
  }

  /** The driver's packet writer: it may refuse a cell for the destination's sake. */
  class PacketWriter {
    var cells: seq<(nat, ColumnValues)>
    var refusal: Option<Error>

    constructor ()
      ensures cells == [] && refusal == None
    {
      cells := [];
      refusal := None;
    }

    method WriteColumnValue(index: nat, value: ColumnValues) returns (result: Result<()>)
      modifies this
      ensures result.Ok? ==> cells == old(cells) + [(index, value)] && refusal == old(refusal)
      ensures result.Err? ==> cells == old(cells) && refusal == Some(result.error)
    {
      if * {
        cells := cells + [(index, value)];
        result := Ok(());
      } else {
        var error: Error := *;
        refusal := Some(error);
        result := Err(error);
      }
    }
  }

  /**
   Writes a row's cells to consecutive columns up to the first one that has no wire form, whose error is
   wrapped, or that the writer refuses, with its own error; `next - columnIndex` cells are then written.
   */
  method WriteToPacket(row: LoadRow, writer: PacketWriter, columnIndex: nat) returns (result: Result<()>, next: nat)
    requires writer.refusal == None
    modifies writer
    ensures var cells, written := RowCells(row), next - columnIndex;
      && 0 <= written <= |cells|
      && (forall c | c in cells[..written] :: c.Ok?)
      && writer.cells == old(writer.cells) + Written(cells[..written], columnIndex)
      && (result.Ok? ==> written == |cells| && CellProblem(cells) == None && writer.refusal == None)
      && (result.Err? ==>
            && written < |cells|
            && match writer.refusal
               case Some(e) => result.error == e
               case None => CellProblem(cells).Some? && Wraps(result.error, CellProblem(cells).value))
  {
    var cells := RowCells(row);
    next := columnIndex;
    for k := 0 to |cells|
      invariant next == columnIndex + k && writer.refusal == None
      invariant forall c | c in cells[..k] :: c.Ok?
      invariant writer.cells == old(writer.cells) + Written(cells[..k], columnIndex)
    {
      assert cells[..k + 1] == cells[..k] + [cells[k]];
      if cells[k].Err? {
        ProblemAt(cells, k);
        var detail: string := *;
        result := Err(Usage(Message(Displayed(cells[k].error, detail))));
        WrappedText(cells[k].error, detail);
        return;
      }
      var accepted := writer.WriteColumnValue(next, cells[k].value);
      if accepted.Err? {
        return Err(accepted.error), next;
      }
      assert Written(cells[..k + 1], columnIndex) == Written(cells[..k], columnIndex) + [(next, cells[k].value)];
      next := next + 1;
    }
    ProblemAt(cells, |cells|);
    assert cells[..|cells|] == cells;
    result := Ok(());
  }

  // ---------------------------------------------------------------------
  // The native load
  // ---------------------------------------------------------------------

  /** All cells of all rows, each row from column 0 on. */
  function AllWritten(rows: seq<LoadRow>): seq<(nat, ColumnValues)>
    requires LoadProblem(rows) == None
  {
    if rows == [] then []
    else
      SoundCells(RowCells(rows[0]));
      Written(RowCells(rows[0]), 0) + AllWritten(rows[1..])
  }

  lemma {:induction false} SoundCells(cells: seq<Result<ColumnValues>>)
    requires CellProblem(cells) == None
    ensures forall c | c in cells :: c.Ok?
  {
    if cells != [] {
      SoundCells(cells[1..]);
      assert cells == [cells[0]] + cells[1..];
    }
  }

  lemma WrittenFirst(rows: seq<LoadRow>, n: nat)
    requires rows != [] && n == |RowCells(rows[0])| && CellProblem(RowCells(rows[0])) == None
    ensures LoadProblem(rows) == LoadProblem(rows[1..])
    ensures forall c | c in RowCells(rows[0])[..n] :: c.Ok?
    ensures LoadProblem(rows) == None ==> AllWritten(rows) == Written(RowCells(rows[0])[..n], 0) + AllWritten(rows[1..])
  {
    SoundCells(RowCells(rows[0]));
    assert RowCells(rows[0])[..n] == RowCells(rows[0]);
  }

  /** The driver writes the rows one after the other and stops at the first that fails. */
  method WriteRows(rows: seq<LoadRow>, writer: PacketWriter) returns (result: Result<()>)
    requires writer.refusal == None
    modifies writer
    ensures result.Ok? ==> writer.refusal == None && LoadProblem(rows) == None
    ensures result.Ok? ==> writer.cells == old(writer.cells) + AllWritten(rows)
    ensures result.Err? ==>
      match writer.refusal
      case Some(e) => result.error == e
      case None => LoadProblem(rows).Some? && Wraps(result.error, LoadProblem(rows).value)
  {
    var left := rows;
    assert AllWritten([]) == [];
    assert writer.cells + [] == writer.cells;
    hide AllWritten;
    hide Written;
    hide RowCells;
    hide Displayed;
    while left != []
      invariant writer.refusal == None
      invariant LoadProblem(left) == LoadProblem(rows)
      invariant LoadProblem(rows) == None ==> writer.cells + AllWritten(left) == old(writer.cells) + AllWritten(rows)
      decreases |left|
    {
      var written, next := WriteToPacket(left[0], writer, 0);
      if written.Err? {
        return written;
      }
      WrittenFirst(left, next);
      left := left[1..];
    }
    result := Ok(());
  }

  /**
   The driver's bulk copy: it sends the load, writes all rows and reads the number of rows loaded. It
   hands on the error of a row as it is.
   */
  method WriteToServer(client: TdsClient, table: string, rows: seq<LoadRow>) returns (o: Await<nat>)
    requires client.Startable()
    modifies client
    ensures client.Valid() && client.guarded && old(client.history) <= client.history
    ensures client.conn.sent == Posted(old(client.conn), BulkLoad(table, rows)).sent
    ensures client.conn.epoch == Posted(old(client.conn), BulkLoad(table, rows)).epoch && !client.conn.resetArmed
    ensures o.Ready? ==> client.conn.dead || !client.conn.torn
    ensures o.Ready? && o.result.Ok? ==> !client.conn.dead && o.result.value == |rows| && LoadProblem(rows) == None
    ensures o.Ready? && client.conn.failures == old(client.conn).failures ==>
      match LoadProblem(rows)
      case None => o.result == Ok(|rows|)
      case Some(e) => o.result.Err? && Wraps(o.result.error, e)
  {
    client.Send(BulkLoad(table, rows));
    if * {
      return Dropped;
    }
    var writer := new PacketWriter();
    var written := WriteRows(rows, writer);
    var dead: bool := *;
    if written.Err? {
      var own := if writer.refusal.Some? then 1 else 0;
      client.Settle(client.conn.(torn := false, dead := dead, failures := client.conn.failures + own));
      return Ready(Err(written.error));
    }
    if * {
      client.Settle(client.conn.(torn := false));
      o := Ready(Ok(|rows|));
    } else {
      var error: Error := *;
      client.Settle(client.conn.(torn := false, dead := dead, failures := client.conn.failures + 1));
      o := Ready(Err(error));
    }
  }

  class BulkInsert {
    const client: TdsClient
    const table: string

    constructor (client: TdsClient, table: string)
      ensures this.client == client && this.table == table
    {
      this.client := client;
      this.table := table;
    }

    /** Sends all rows in one guarded native bulk copy, which fails for the first cell without a wire form. */
    method Send(rows: seq<LoadRow>) returns (o: Await<nat>)
      requires client.Valid() && !client.guarded && Idle(client.conn)
      modifies client
      ensures client.Valid() && !client.guarded && old(client.history) <= client.history
      ensures Served(old(client.conn), BulkLoad(table, rows), client.conn)
      ensures old(client.conn).dead ==> o == Ready(Err(ConnectionClosed))
      ensures !old(client.conn).dead ==>
                client.conn.sent == old(client.conn).sent + [Sent(BulkLoad(table, rows), old(client.conn).epoch, false)]
      ensures !old(client.conn).dead && o.Dropped? ==> client.conn.dead
      ensures o.Ready? && o.result.Ok? ==> o.result.value == |rows| && Clean(client.conn) && LoadProblem(rows) == None
      ensures !old(client.conn).dead && o.Ready? && client.conn.failures == old(client.conn.failures) ==>
        match LoadProblem(rows)
        case None => o.result == Ok(|rows|)
        case Some(e) => o.result.Err? && Wraps(o.result.error, e)
    {
      var operation := NewOperation(client);
      if operation.Err? {
        return Ready(Err(operation.error));
      }
      o := WriteToServer(client, table, rows);
      if o.Dropped? {
        operation.value.Drop();
      } else {
        operation.value.Complete();
      }
    }
  }

  // ---------------------------------------------------------------------
  // The incremental request
  // ---------------------------------------------------------------------

  /** One more request has gone out: the load of exactly these rows, in order. */
  predicate Loads(c: Conn, table: string, rows: seq<Tokens>, c': Conn) {
    && |c'.sent| == |c.sent| + 1 && c'.sent[..|c.sent|] == c.sent
    && var last := c'.sent[|c.sent|];
       && last.epoch == c.epoch && !last.reset && last.request.BulkLoad? && last.request.table == table
       && |last.request.rows| == |rows| && forall i | 0 <= i < |rows| :: last.request.rows[i] == TokenRow(rows[i])
  }

  function TokenRows(rows: seq<Tokens>): seq<LoadRow> {
    seq(|rows|, i requires 0 <= i < |rows| => TokenRow(rows[i]))
  }

  predicate NativeIn(row: Tokens) {
    exists d | d in row :: d.Native?
  }

  /** Some value has no cell form. */
  predicate HasNative(rows: seq<Tokens>) {
    exists row | row in rows :: NativeIn(row)
  }

  lemma {:induction false} RowProblem(row: Tokens, k: nat)
    requires k <= |row| && forall d | d in row[..k] :: !d.Native?
    ensures CellProblem(RowCells(TokenRow(row))) == if NativeIn(row) then Some(Error.Conversion) else None
    decreases |row| - k
  {
    var cells := RowCells(TokenRow(row));
    assert forall c | c in cells[..k] :: c.Ok? by {
      forall i | 0 <= i < k ensures cells[i].Ok? {
        assert row[..k][i] == row[i];
      }
    }
    ProblemAt(cells, k);
    if k == |row| {
      assert row[..k] == row;
    } else if row[k].Native? {
      assert row[k] in row;
    } else {
      assert row[..k + 1] == row[..k] + [row[k]];
      RowProblem(row, k + 1);
    }
  }

  /** A token row fails to load exactly for a `Native` value, with a conversion error. */
  lemma {:induction false} NativeIsTheProblem(rows: seq<Tokens>)
    ensures LoadProblem(TokenRows(rows)) == if HasNative(rows) then Some(Error.Conversion) else None
  {
    if rows != [] {
      assert rows == [rows[0]] + rows[1..];
      assert TokenRows(rows)[1..] == TokenRows(rows[1..]);
      if NativeIn(rows[0]) {
        assert rows[0] in rows;
      } else if HasNative(rows[1..]) {
        var row :| row in rows[1..] && NativeIn(row);
        assert row in rows;
      }
      RowProblem(rows[0], 0);
      NativeIsTheProblem(rows[1..]);
    }
  }

  class BulkLoadRequest {
    const bulk: BulkInsert
    var rows: seq<Tokens>
    var rowWidth: Option<nat>
    /** Every row `Send` was called with. */
    ghost var offered: seq<Tokens>

    ghost predicate Valid()
      reads this
    {
      && rows == Accepted(offered)
      && rowWidth == if offered == [] then None else Some(|offered[0]|)
    }

    constructor (bulk: BulkInsert)
      ensures Valid() && this.bulk == bulk && offered == []
    {
      this.bulk := bulk;
      rows := [];
      rowWidth := None;
      offered := [];
    }

    /** The first row sets the width; a row of another width is refused and changes nothing. */
    method Send(row: Tokens) returns (result: Result<()>)
      requires Valid()
      modifies this
      ensures Valid() && offered == old(offered) + [row]
      ensures result.Ok? <==> old(offered) == [] || |row| == |old(offered)[0]|
      ensures result.Err? ==> result == Err(BulkInput) && rows == old(rows) && rowWidth == old(rowWidth)
    {
      AcceptedNext(offered, row);
      offered := offered + [row];
      match rowWidth {
        case Some(expected) =>
          if |row| != expected {
            return Err(BulkInput);
          }
        case None =>
          rowWidth := Some(|row|);
      }
      rows := rows + [row];
      result := Ok(());
    }

    /**
     Passes exactly the accepted rows, in order, to one native load, whose outcome is `sent`. Unless the
     driver fails on its own account, it fails exactly for a `Native` value, and then as an input error.
     */
    method Finalize() returns (o: Await<seq<nat>>, ghost sent: Await<nat>)
      requires Valid() && bulk.client.Valid() && !bulk.client.guarded && Idle(bulk.client.conn)
      modifies bulk.client
      ensures bulk.client.Valid() && !bulk.client.guarded
      ensures var c := old(bulk.client.conn);
        if c.dead then bulk.client.conn == c && sent == Ready(Err(ConnectionClosed))
        else Loads(c, bulk.table, Accepted(offered), bulk.client.conn)
      ensures o.Ready? && o.result.Ok? ==> o.result.value == [|Accepted(offered)|] && !HasNative(Accepted(offered))
      ensures !old(bulk.client.conn).dead && o.Ready? && bulk.client.conn.failures == old(bulk.client.conn.failures) ==>
                o.result == if HasNative(Accepted(offered)) then Err(BulkInput) else Ok([|Accepted(offered)|])
      ensures match sent
        case Dropped => o.Dropped?
        case Ready(Err(e)) => o == Ready(Err(MapCompatBulkError(e)))
        case Ready(Ok(_)) => o.Ready? && o.result.Ok?
    {
      NativeIsTheProblem(rows);
      var outcome := bulk.Send(TokenRows(rows));
      sent := outcome;
      match outcome {
        case Dropped => o := Dropped;
        case Ready(Err(e)) =>
          if Wraps(e, Error.Conversion) {
            ConversionErrorsSurface(e);
          }
          o := Ready(Err(MapCompatBulkError(e)));
        case Ready(Ok(n)) => o := Ready(Ok([n]));
      }
    }
  }
}
