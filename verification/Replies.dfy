/**
 A server's answer to one request, and what each way of reading it is meant to deliver:
 collected result sets, the item stream, and row counts.
 */
module Replies {
  import opened Wrappers
  import opened Values
  import opened Rows

  /** A reported failure; a fatal one also kills the connection. */
  datatype Fault = Fault(code: int, fatal: bool)

  /** One statement's part of an answer. A broken row set fails after its rows. */
  datatype Statement =
    | RowSet(columns: seq<Column>, rows: seq<seq<ColumnValues>>, broken: Option<Fault>)
    | Count(affected: Option<nat>)
    | Broken(fault: Fault)

  datatype QueryItem = Metadata(schema: RowSchema, index: nat) | RowItem(row: Row)

  ghost function RowsOf(columns: seq<Column>, rows: seq<seq<ColumnValues>>, index: nat): seq<Row> {
    seq(|rows|, k requires 0 <= k < |rows| => RowOf(SchemaOf(columns), rows[k], index))
  }

  /** The result sets of an answer, numbered from `index`, or its first failure. */
  ghost function ResultSets(answer: seq<Statement>, index: nat): Result<seq<seq<Row>>> {
    if answer == [] then Ok([])
    else
      match answer[0]
      case Count(_) => ResultSets(answer[1..], index)
      case Broken(f) => Err(Error.Native(f.code))
      case RowSet(_, _, Some(f)) => Err(Error.Native(f.code))
      case RowSet(columns, rows, None) =>
        var rest :- ResultSets(answer[1..], index + 1);
        Ok([RowsOf(columns, rows, index)] + rest)
  }

  ghost function RowItems(columns: seq<Column>, rows: seq<seq<ColumnValues>>, index: nat): seq<Result<QueryItem>> {
    seq(|rows|, k requires 0 <= k < |rows| => Ok(RowItem(RowOf(SchemaOf(columns), rows[k], index))))
  }

  /** The items of an answer: metadata before each set's rows, and one error at its first failure. */
  ghost function Items(answer: seq<Statement>, index: nat): seq<Result<QueryItem>>
    decreases |answer|, 1
  {
    if answer == [] then []
    else
      match answer[0]
      case Count(_) => Items(answer[1..], index)
      case Broken(f) => [Err(Error.Native(f.code))]
      case RowSet(columns, rows, broken) =>
        [Ok(Metadata(SchemaOf(columns), index))] + ItemsInSet(columns, rows, broken, answer[1..], index)
  }

  /** The items left once a set's metadata and some of its rows are read. */
  ghost function ItemsInSet(columns: seq<Column>, rows: seq<seq<ColumnValues>>, broken: Option<Fault>,
                            rest: seq<Statement>, index: nat): seq<Result<QueryItem>>
    decreases |rest|, 2
  {
    RowItems(columns, rows, index)
    + match broken
      case Some(f) => [Err(Error.Native(f.code))]
      case None => Items(rest, index + 1)
  }

  /** Row counts in statement order: rows of a row set, the count of a counted statement. */
  function Counts(answer: seq<Statement>): Result<seq<nat>> {
    if answer == [] then Ok([])
    else
      match answer[0]
      case Count(None) => Counts(answer[1..])
      case Count(Some(n)) =>
        var rest :- Counts(answer[1..]);
        Ok([n] + rest)
      case Broken(f) => Err(Error.Native(f.code))
      case RowSet(_, _, Some(f)) => Err(Error.Native(f.code))
      case RowSet(_, rows, None) =>
        var rest :- Counts(answer[1..]);
        Ok([|rows|] + rest)
  }

  // ---------------------------------------------------------------------
  // The readings agree
  // ---------------------------------------------------------------------

  /** Collecting items: each metadata opens a set, rows go to the last set, an error ends it all. */
  function Collect(items: seq<Result<QueryItem>>, sets: seq<seq<Row>>): Result<seq<seq<Row>>>
    decreases |items|
  {
    if items == [] then Ok(sets)
    else
      match items[0]
      case Err(e) => Err(e)
      case Ok(item) => Collect(items[1..], Added(sets, item))
  }

  function Added(sets: seq<seq<Row>>, item: QueryItem): (r: seq<seq<Row>>)
    ensures |r| >= |sets|
  {
    match item
    case Metadata(_, _) => sets + [[]]
    case RowItem(row) =>
      var started := if sets == [] then [[]] else sets;
      started[|started| - 1 := started[|started| - 1] + [row]]
  }

  /** The last set with some rows added. */
  function Extended(sets: seq<seq<Row>>, rows: seq<Row>): seq<seq<Row>>
    requires sets != []
  {
    sets[..|sets| - 1] + [sets[|sets| - 1] + rows]
  }

  lemma ExtendedByOne(sets: seq<seq<Row>>, row: Row, rows: seq<Row>)
    requires sets != []
    ensures Added(sets, RowItem(row)) == Extended(sets, [row])
    ensures Extended(Extended(sets, [row]), rows) == Extended(sets, [row] + rows)
    ensures Extended(sets, []) == sets
  {
    var last := sets[|sets| - 1];
    assert last + [row] + rows == last + ([row] + rows) && last + [] == last;
    assert sets[..|sets| - 1] + [last] == sets;
  }

  lemma {:induction false} CollectRows(columns: seq<Column>, rows: seq<seq<ColumnValues>>, index: nat,
                                       rest: seq<Result<QueryItem>>, sets: seq<seq<Row>>)
    requires sets != []
    ensures Collect(RowItems(columns, rows, index) + rest, sets) == Collect(rest, Extended(sets, RowsOf(columns, rows, index)))
    decreases |rows|
  {
    var items, all := RowItems(columns, rows, index) + rest, RowsOf(columns, rows, index);
    if rows == [] {
      assert items == rest && all == [];
      ExtendedByOne(sets, RowOf(SchemaOf(columns), [], index), []);
    } else {
      var row, more := RowOf(SchemaOf(columns), rows[0], index), RowsOf(columns, rows[1..], index);
      assert items[0] == Ok(RowItem(row)) && all == [row] + more;
      assert items[1..] == RowItems(columns, rows[1..], index) + rest;
      ExtendedByOne(sets, row, more);
      assert Collect(items, sets) == Collect(items[1..], Added(sets, RowItem(row)));
      hide *;
      CollectRows(columns, rows[1..], index, rest, Extended(sets, [row]));
    }
  }

  function Prepend(sets: seq<seq<Row>>, rest: Result<seq<seq<Row>>>): Result<seq<seq<Row>>> {
    match rest
    case Ok(more) => Ok(sets + more)
    case Err(e) => Err(e)
  }

  lemma PrependNothing(rest: Result<seq<seq<Row>>>)
    ensures Prepend([], rest) == rest
  {
    if rest.Ok? {
      assert [] + rest.value == rest.value;
    }
  }

  lemma PrependOne(sets: seq<seq<Row>>, one: seq<Row>, rest: Result<seq<seq<Row>>>)
    ensures Prepend(sets, Prepend([one], rest)) == Prepend(sets + [one], rest)
  {
    if rest.Ok? {
      assert sets + ([one] + rest.value) == sets + [one] + rest.value;
    }
  }

  lemma ExtendedFresh(sets: seq<seq<Row>>, rows: seq<Row>)
    ensures Extended(sets + [[]], rows) == sets + [rows]
  {
    var none: seq<Row> := [];
    assert none + rows == rows && (sets + [none])[..|sets|] == sets;
  }

  /** Metadata and rows of one set are collected as that set; a failure after them ends it all. */
  lemma CollectSetItems(columns: seq<Column>, rows: seq<seq<ColumnValues>>, index: nat,
                        tail: seq<Result<QueryItem>>, sets: seq<seq<Row>>)
    ensures var item: Result<QueryItem> := Ok(Metadata(SchemaOf(columns), index));
      Collect([item] + (RowItems(columns, rows, index) + tail), sets)
      == Collect(tail, sets + [RowsOf(columns, rows, index)])
  {
    var item: Result<QueryItem> := Ok(Metadata(SchemaOf(columns), index));
    var after := RowItems(columns, rows, index) + tail;
    assert ([item] + after)[1..] == after;
    assert Collect([item] + after, sets) == Collect(after, sets + [[]]);
    hide *;
    CollectRows(columns, rows, index, tail, sets + [[]]);
    ExtendedFresh(sets, RowsOf(columns, rows, index));
  }

  lemma {:induction false} CollectItems(answer: seq<Statement>, index: nat, sets: seq<seq<Row>>)
    ensures Collect(Items(answer, index), sets) == Prepend(sets, ResultSets(answer, index))
  {
    if answer == [] {
      assert sets + [] == sets;
    } else {
      match answer[0]
      case Count(_) => CollectItems(answer[1..], index, sets);
      case Broken(_) =>
      case RowSet(columns, rows, Some(f)) =>
        var error: seq<Result<QueryItem>> := [Err(Error.Native(f.code))];
        CollectSetItems(columns, rows, index, error, sets);
        assert Collect(error, sets + [RowsOf(columns, rows, index)]) == Err(Error.Native(f.code));
      case RowSet(columns, rows, None) =>
        var mine, more := RowsOf(columns, rows, index), answer[1..];
        CollectSetItems(columns, rows, index, Items(more, index + 1), sets);
        assert ResultSets(answer, index) == Prepend([mine], ResultSets(more, index + 1));
        CollectItems(more, index + 1, sets + [mine]);
        PrependOne(sets, mine, ResultSets(more, index + 1));
    }
  }

  /** The collected item stream equals the collected result sets, failures included. */
  lemma StreamAgreesWithCollect(answer: seq<Statement>)
    ensures Collect(Items(answer, 0), []) == ResultSets(answer, 0)
  {
    CollectItems(answer, 0, []);
    if ResultSets(answer, 0).Ok? {
      assert [] + ResultSets(answer, 0).value == ResultSets(answer, 0).value;
    }
  }

  /** The rows an item stream yields on its own, up to its first error. */
  function RowsOnly(items: seq<Result<QueryItem>>): (r: seq<Result<Row>>)
    ensures |r| <= |items|
  {
    if items == [] then []
    else
      match items[0]
      case Err(e) => [Err(e)]
      case Ok(RowItem(row)) => [Ok(row)] + RowsOnly(items[1..])
      case Ok(Metadata(_, _)) => RowsOnly(items[1..])
  }

  function Flatten(sets: seq<seq<Row>>): seq<Row> {
    if sets == [] then [] else sets[0] + Flatten(sets[1..])
  }

  function OkRows(rows: seq<Row>): seq<Result<Row>> {
    seq(|rows|, i requires 0 <= i < |rows| => Ok(rows[i]))
  }

  lemma {:induction false} RowsOnlyOfSet(columns: seq<Column>, rows: seq<seq<ColumnValues>>, index: nat,
                                         rest: seq<Result<QueryItem>>)
    ensures RowsOnly(RowItems(columns, rows, index) + rest) == OkRows(RowsOf(columns, rows, index)) + RowsOnly(rest)
    decreases |rows|
  {
    var items := RowItems(columns, rows, index) + rest;
    if rows == [] {
      assert items == rest;
    } else {
      assert items[1..] == RowItems(columns, rows[1..], index) + rest;
      RowsOnlyOfSet(columns, rows[1..], index, rest);
      assert OkRows(RowsOf(columns, rows, index))
          == [Ok(RowOf(SchemaOf(columns), rows[0], index))] + OkRows(RowsOf(columns, rows[1..], index));
    }
  }

  // ---------------------------------------------------------------------
  // Result indexes, empty sets, failures
  // ---------------------------------------------------------------------

  function RowSetCount(answer: seq<Statement>): nat {
    if answer == [] then 0 else (if answer[0].RowSet? then 1 else 0) + RowSetCount(answer[1..])
  }

  /** Number of row sets among the first `n` statements. */
  function SetsBefore(answer: seq<Statement>, n: nat): nat
    requires n <= |answer|
  {
    if n == 0 then 0 else SetsBefore(answer, n - 1) + if answer[n - 1].RowSet? then 1 else 0
  }

  lemma {:induction false} SetsBeforeRest(answer: seq<Statement>, n: nat)
    requires 0 < n <= |answer|
    ensures SetsBefore(answer, n) == (if answer[0].RowSet? then 1 else 0) + SetsBefore(answer[1..], n - 1)
  {
    if n > 1 {
      SetsBeforeRest(answer, n - 1);
    }
  }

  /** A collected set is what one row set of the answer says, cell by cell. */
  ghost predicate SetHolds(s: Statement, rows: seq<Row>, place: nat)
    requires s.RowSet?
  {
    |rows| == |s.rows| && forall k | 0 <= k < |s.rows| :: Holds(rows[k], s.columns, s.rows[k], place)
  }

  /**
   Collecting gives one set for each row set of the answer, empty or not, in order: the columns and cells
   the server sent for it, and its place on every row.
   */
  lemma {:induction false} CollectedCells(answer: seq<Statement>, index: nat)
    requires ResultSets(answer, index).Ok?
    ensures |ResultSets(answer, index).value| == SetsBefore(answer, |answer|)
    ensures forall i | 0 <= i < |answer| && answer[i].RowSet? ::
              && SetsBefore(answer, i) < |ResultSets(answer, index).value|
              && SetHolds(answer[i], ResultSets(answer, index).value[SetsBefore(answer, i)], index + SetsBefore(answer, i))
  {
    if answer != [] {
      var next := index + if answer[0].RowSet? then 1 else 0;
      CollectedCells(answer[1..], next);
      SetsBeforeRest(answer, |answer|);
      var sets, later := ResultSets(answer, index).value, ResultSets(answer[1..], next).value;
      assert sets[if answer[0].RowSet? then 1 else 0..] == later;
      forall i | 0 <= i < |answer| && answer[i].RowSet?
        ensures SetsBefore(answer, i) < |sets| && SetHolds(answer[i], sets[SetsBefore(answer, i)], index + SetsBefore(answer, i))
      {
        if i == 0 {
          RowsHold(answer[0].columns, answer[0].rows, index);
        } else {
          SetsBeforeRest(answer, i);
          assert answer[1..][i - 1] == answer[i];
        }
      }
    }
  }

  lemma RowsHold(columns: seq<Column>, rows: seq<seq<ColumnValues>>, index: nat)
    ensures |RowsOf(columns, rows, index)| == |rows|
    ensures forall k | 0 <= k < |rows| :: Holds(RowsOf(columns, rows, index)[k], columns, rows[k], index)
  {
    forall k | 0 <= k < |rows| ensures Holds(RowsOf(columns, rows, index)[k], columns, rows[k], index) {
      RowHolds(columns, rows[k], index);
    }
  }

  /** Items that say what the answer says, cell by cell, up to its first failure. */
  ghost predicate Mirrors(items: seq<Result<QueryItem>>, answer: seq<Statement>, next: nat) {
    if answer == [] then items == []
    else
      match answer[0]
      case Count(_) => Mirrors(items, answer[1..], next)
      case Broken(f) => items == [Err(Error.Native(f.code))]
      case RowSet(columns, rows, broken) =>
        && |items| > |rows| && OpensSet(items[0], columns, next)
        && (forall k | 0 <= k < |rows| :: HoldsRow(items[k + 1], columns, rows[k], next))
        && match broken
           case Some(f) => items[|rows| + 1..] == [Err(Error.Native(f.code))]
           case None => Mirrors(items[|rows| + 1..], answer[1..], next + 1)
  }

  ghost predicate OpensSet(item: Result<QueryItem>, columns: seq<Column>, place: nat) {
    && item.Ok? && item.value.Metadata? && item.value.index == place
    && item.value.schema.columns == columns && Indexed(columns, item.value.schema.nameMap)
  }

  ghost predicate HoldsRow(item: Result<QueryItem>, columns: seq<Column>, cells: seq<ColumnValues>, place: nat) {
    item.Ok? && item.value.RowItem? && Holds(item.value.row, columns, cells, place)
  }

  /** The streamed items are the columns and cells the server sent, in order, each set opened by its metadata. */
  lemma {:induction false} StreamedCells(answer: seq<Statement>, index: nat)
    ensures Mirrors(Items(answer, index), answer, index)
  {
    if answer != [] {
      match answer[0]
      case Count(_) => StreamedCells(answer[1..], index);
      case Broken(_) =>
      case RowSet(columns, rows, broken) =>
        var items, n := Items(answer, index), |rows|;
        var own := RowItems(columns, rows, index);
        var after := ItemsInSet(columns, rows, broken, answer[1..], index);
        assert items == [Ok(Metadata(SchemaOf(columns), index))] + after;
        assert after == own + after[n..] && items[n + 1..] == after[n..];
        NameMapIsIndex(columns);
        RowsHold(columns, rows, index);
        forall k | 0 <= k < n ensures HoldsRow(items[k + 1], columns, rows[k], index) {
          assert items[k + 1] == RowItems(columns, rows, index)[k];
          RowHolds(columns, rows[k], index);
        }
        StreamedCells(answer[1..], index + 1);
    }
  }

  /** Metadata opens the places in turn from `next` on, and every row belongs to the place opened last. */
  predicate Numbered(items: seq<Result<QueryItem>>, next: nat) {
    if items == [] then true
    else
      match items[0]
      case Err(_) => |items| == 1
      case Ok(Metadata(_, index)) => index == next && Numbered(items[1..], next + 1)
      case Ok(RowItem(row)) => row.resultIndex + 1 == next && Numbered(items[1..], next)
  }

  lemma {:induction false} RowsNumbered(columns: seq<Column>, rows: seq<seq<ColumnValues>>, index: nat,
                                        rest: seq<Result<QueryItem>>)
    requires Numbered(rest, index + 1)
    ensures Numbered(RowItems(columns, rows, index) + rest, index + 1)
    decreases |rows|
  {
    var items := RowItems(columns, rows, index) + rest;
    if rows == [] {
      assert items == rest;
    } else {
      assert items[1..] == RowItems(columns, rows[1..], index) + rest;
      RowsNumbered(columns, rows[1..], index, rest);
    }
  }

  /** Whatever the answer, streamed metadata and rows carry their result set's place, up to any failure. */
  lemma {:induction false} ItemsAreNumbered(answer: seq<Statement>, index: nat)
    ensures Numbered(Items(answer, index), index)
  {
    if answer != [] {
      match answer[0]
      case Count(_) => ItemsAreNumbered(answer[1..], index);
      case Broken(_) =>
      case RowSet(columns, rows, broken) =>
        ItemsAreNumbered(answer[1..], index + 1);
        var rest := match broken case Some(f) => [Err(Error.Native(f.code))] case None => Items(answer[1..], index + 1);
        RowsNumbered(columns, rows, index, rest);
        assert Items(answer, index)[1..] == RowItems(columns, rows, index) + rest;
    }
  }

  predicate SoundOne(s: Statement) {
    s.Count? || (s.RowSet? && s.broken.None?)
  }

  predicate Sound(answer: seq<Statement>) {
    forall s | s in answer :: SoundOne(s)
  }

  lemma SoundFirst(statements: seq<Statement>)
    requires statements != []
    ensures Sound(statements) <==> SoundOne(statements[0]) && Sound(statements[1..])
  {
    assert statements == [statements[0]] + statements[1..];
  }

  /** The first failure of an answer. */
  function Failure(answer: seq<Statement>): Option<Error> {
    if answer == [] then None
    else
      match answer[0]
      case Broken(f) => Some(Error.Native(f.code))
      case RowSet(_, _, Some(f)) => Some(Error.Native(f.code))
      case _ => Failure(answer[1..])
  }

  /** Every reading ends in the answer's first failure, and succeeds exactly when no statement fails. */
  lemma {:induction false} FailureEndsAll(answer: seq<Statement>, index: nat)
    ensures Failure(answer).None? <==> Sound(answer)
    ensures forall e :: ResultSets(answer, index) == Err(e) <==> Failure(answer) == Some(e)
    ensures forall e :: Counts(answer) == Err(e) <==> Failure(answer) == Some(e)
  {
    if answer != [] {
      FailureEndsAll(answer[1..], if answer[0].RowSet? then index + 1 else index);
      SoundFirst(answer);
    }
  }

  lemma ItemsOfFirst(first: Statement, rest: seq<Statement>, index: nat)
    requires SoundOne(first)
    ensures Items([first] + rest, index)
         == Items([first], index) + Items(rest, index + if first.RowSet? then 1 else 0)
    ensures forall item | item in Items([first], index) :: item.Ok?
  {
    assert ([first] + rest)[1..] == rest;
    match first
    case Count(_) =>
    case RowSet(columns, rows, _) =>
      var own := [Ok(Metadata(SchemaOf(columns), index))] + RowItems(columns, rows, index);
      assert Items([], index + 1) == [] && [first][1..] == [];
      assert RowItems(columns, rows, index) + [] == RowItems(columns, rows, index);
      assert ItemsInSet(columns, rows, None, [], index) == RowItems(columns, rows, index);
      assert Items([first], index) == own;
      assert Items([first] + rest, index) == own + Items(rest, index + 1);
  }

  /** A sound beginning streams its own items, none an error, and then whatever follows it. */
  lemma {:induction false} ItemsOfConcat(before: seq<Statement>, rest: seq<Statement>, index: nat)
    requires Sound(before)
    ensures Items(before + rest, index) == Items(before, index) + Items(rest, index + RowSetCount(before))
    ensures forall item | item in Items(before, index) :: item.Ok?
  {
    if before == [] {
      assert before + rest == rest;
    } else {
      var first, more := before[0], before[1..];
      var next := index + if first.RowSet? then 1 else 0;
      assert before == [first] + more && before + rest == [first] + (more + rest);
      SoundFirst(before);
      ItemsOfFirst(first, more, index);
      ItemsOfFirst(first, more + rest, index);
      ItemsOfConcat(more, rest, next);
      assert index + RowSetCount(before) == next + RowSetCount(more);
      hide *;
    }
  }

  /** What is streamed of a failing statement. */
  ghost function FailureItems(failing: Statement, index: nat): seq<Result<QueryItem>>
    requires !SoundOne(failing)
  {
    match failing
    case Broken(f) => [Err(Error.Native(f.code))]
    case RowSet(columns, rows, broken) =>
      [Ok(Metadata(SchemaOf(columns), index))] + RowItems(columns, rows, index) + [Err(Error.Native(broken.value.code))]
  }

  /** A failing statement cuts the stream there: the items before it, then one error. */
  lemma FailureCutsStream(before: seq<Statement>, failing: Statement, after: seq<Statement>, index: nat)
    requires Sound(before) && !SoundOne(failing)
    ensures Items(before + [failing] + after, index)
         == Items(before, index) + FailureItems(failing, index + RowSetCount(before))
    ensures forall item | item in Items(before, index) :: item.Ok?
  {
    var rest := [failing] + after;
    assert before + [failing] + after == before + rest;
    ItemsOfConcat(before, rest, index);
    assert Items(rest, index + RowSetCount(before)) == FailureItems(failing, index + RowSetCount(before));
  }

  // ---------------------------------------------------------------------
  // The row stream of any answer
  // ---------------------------------------------------------------------

  lemma {:induction false} RowsOnlyOfConcat(a: seq<Result<QueryItem>>, b: seq<Result<QueryItem>>)
    requires forall item | item in a :: item.Ok?
    ensures RowsOnly(a + b) == RowsOnly(a) + RowsOnly(b)
  {
    if a == [] {
      assert a + b == b;
    } else {
      assert a[0] in a && (a + b)[1..] == a[1..] + b;
      RowsOnlyOfConcat(a[1..], b);
    }
  }

  lemma OkRowsOfConcat(a: seq<Row>, b: seq<Row>)
    ensures OkRows(a + b) == OkRows(a) + OkRows(b)
  {
  }

  /** The rows of one statement. */
  ghost function OwnRows(s: Statement, index: nat): seq<Row> {
    match s
    case RowSet(columns, rows, _) => RowsOf(columns, rows, index)
    case _ => []
  }

  lemma RowsOfFirst(first: Statement, index: nat)
    requires SoundOne(first)
    ensures RowsOnly(Items([first], index)) == OkRows(OwnRows(first, index))
  {
    match first
    case Count(_) =>
    case RowSet(columns, rows, _) =>
      RowsOnlyOfSet(columns, rows, index, []);
      assert Items([], index + 1) == [] && [first][1..] == [];
      assert Items([first], index)[1..] == RowItems(columns, rows, index) + [];
      assert OkRows(RowsOf(columns, rows, index)) + [] == OkRows(RowsOf(columns, rows, index));
  }

  lemma SetsOfFirst(first: Statement, more: seq<Statement>, index: nat)
    requires ResultSets([first] + more, index).Ok?
    ensures SoundOne(first) && ResultSets(more, index + if first.RowSet? then 1 else 0).Ok?
    ensures Flatten(ResultSets([first] + more, index).value)
         == OwnRows(first, index) + Flatten(ResultSets(more, index + if first.RowSet? then 1 else 0).value)
  {
    assert ([first] + more)[1..] == more;
    var all := ResultSets([first] + more, index).value;
    assert first.RowSet? ==> all[0] == OwnRows(first, index) && all[1..] == ResultSets(more, index + 1).value;
  }

  /** Without failures the row stream is the concatenation of the result sets. */
  lemma {:induction false} FlattenedSets(answer: seq<Statement>, index: nat)
    requires ResultSets(answer, index).Ok?
    ensures RowsOnly(Items(answer, index)) == OkRows(Flatten(ResultSets(answer, index).value))
  {
    if answer != [] {
      var first, more := answer[0], answer[1..];
      var next := index + if first.RowSet? then 1 else 0;
      assert answer == [first] + more;
      hide *;
      SetsOfFirst(first, more, index);
      ItemsOfFirst(first, more, index);
      RowsOnlyOfConcat(Items([first], index), Items(more, next));
      RowsOfFirst(first, index);
      FlattenedSets(more, next);
      OkRowsOfConcat(OwnRows(first, index), Flatten(ResultSets(more, next).value));
    }
  }

  /** Number of statements before the first failing one. */
  function SoundLength(answer: seq<Statement>): (n: nat)
    ensures n <= |answer| && Sound(answer[..n]) && (n < |answer| ==> !SoundOne(answer[n]))
  {
    if answer == [] || !SoundOne(answer[0]) then 0
    else
      var n := SoundLength(answer[1..]);
      assert answer[..n + 1] == [answer[0]] + answer[1..][..n];
      n + 1
  }

  /** The failure reported is that of the first failing statement. */
  lemma {:induction false} FailureIsFirst(answer: seq<Statement>)
    ensures var n := SoundLength(answer);
      if n == |answer| then Failure(answer) == None
      else
        Failure(answer) == Some(Error.Native(
          match answer[n] case Broken(f) => f.code case RowSet(_, _, Some(f)) => f.code case _ => 0))
  {
    if answer != [] {
      FailureIsFirst(answer[1..]);
    }
  }

  /** The rows of a failing statement, and its error. */
  ghost function FailureRows(failing: Statement, index: nat): seq<Result<Row>>
    requires !SoundOne(failing)
  {
    match failing
    case Broken(f) => [Err(Error.Native(f.code))]
    case RowSet(columns, rows, broken) => OkRows(RowsOf(columns, rows, index)) + [Err(Error.Native(broken.value.code))]
  }

  lemma FailureRowsOnly(failing: Statement, index: nat)
    requires !SoundOne(failing)
    ensures RowsOnly(FailureItems(failing, index)) == FailureRows(failing, index)
  {
    match failing
    case Broken(_) =>
    case RowSet(columns, rows, broken) =>
      var e: seq<Result<QueryItem>> := [Err(Error.Native(broken.value.code))];
      RowsOnlyOfSet(columns, rows, index, e);
      assert FailureItems(failing, index)[1..] == RowItems(columns, rows, index) + e;
  }

  /**
   The row stream of any answer: the concatenation of the result sets before the first failing
   statement, then the rows of that statement and one error; nothing after it.
   */
  lemma FlattenedStream(answer: seq<Statement>, index: nat)
    ensures var n := SoundLength(answer);
      && ResultSets(answer[..n], index).Ok?
      && RowsOnly(Items(answer, index))
      == OkRows(Flatten(ResultSets(answer[..n], index).value))
         + (if n == |answer| then [] else FailureRows(answer[n], index + RowSetCount(answer[..n])))
  {
    hide *;
    var n := SoundLength(answer);
    var before := answer[..n];
    FailureEndsAll(before, index);
    FlattenedSets(before, index);
    if n == |answer| {
      assert before == answer;
    } else {
      var failing := answer[n];
      assert answer == before + [failing] + answer[n + 1..];
      FailureCutsStream(before, failing, answer[n + 1..], index);
      RowsOnlyOfConcat(Items(before, index), FailureItems(failing, index + RowSetCount(before)));
      FailureRowsOnly(failing, index + RowSetCount(before));
    }
  }
}
