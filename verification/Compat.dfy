/** The compatibility stream with its one-item look-ahead, and its collectors (src/compat.rs). */
module Compat {
  import opened Wrappers
  import opened Rows
  import opened Replies

  type Polled = Poll<Result<QueryItem>>

  /** The items of a series of polls. */
  function ReadyItems(script: seq<Polled>): seq<Result<QueryItem>> {
    if script == [] then []
    else (if script[0].Item? then [script[0].item] else []) + ReadyItems(script[1..])
  }

  /** The items before the first end of stream. */
  function UntilEnd(script: seq<Polled>): seq<Result<QueryItem>> {
    if script == [] || script[0].Exhausted? then []
    else (if script[0].Item? then [script[0].item] else []) + UntilEnd(script[1..])
  }

  /** The schema of the last metadata, unless an error came after it. */
  function CurrentColumns(pulled: seq<Result<QueryItem>>): Option<RowSchema> {
    if pulled == [] then None
    else
      match pulled[|pulled| - 1]
      case Err(_) => None
      case Ok(Metadata(schema, _)) => Some(schema)
      case Ok(RowItem(_)) => CurrentColumns(pulled[..|pulled| - 1])
  }

  lemma ColumnsAfter(pulled: seq<Result<QueryItem>>, item: Result<QueryItem>)
    ensures CurrentColumns(pulled + [item])
         == match item
            case Err(_) => None
            case Ok(Metadata(schema, _)) => Some(schema)
            case Ok(RowItem(_)) => CurrentColumns(pulled)
  {
    assert (pulled + [item])[..|pulled|] == pulled;
  }

  /** Item `i` is the last metadata, and no error came after it. */
  predicate Current(pulled: seq<Result<QueryItem>>, i: nat) {
    && i < |pulled| && pulled[i].Ok? && pulled[i].value.Metadata?
    && forall j | i < j < |pulled| :: pulled[j].Ok? && pulled[j].value.RowItem?
  }

  /** There are columns exactly when some metadata is current, and they are those of that metadata. */
  lemma {:induction false} ColumnsAreCurrent(pulled: seq<Result<QueryItem>>)
    ensures forall i: nat | Current(pulled, i) :: CurrentColumns(pulled) == Some(pulled[i].value.schema)
    ensures CurrentColumns(pulled).Some? ==> exists i: nat :: Current(pulled, i)
  {
    if pulled != [] {
      var last := |pulled| - 1;
      var before := pulled[..last];
      ColumnsAreCurrent(before);
      if pulled[last].Ok? && pulled[last].value.RowItem? {
        forall i: nat | Current(pulled, i) ensures CurrentColumns(pulled) == Some(pulled[i].value.schema) {
          assert Current(before, i);
        }
        if CurrentColumns(before).Some? {
          var i: nat :| Current(before, i);
          assert Current(pulled, i);
        }
      } else if pulled[last].Ok? {
        assert Current(pulled, last);
        assert forall i: nat | Current(pulled, i) :: i >= last;
      }
    }
  }

  lemma CollectStep(item: QueryItem, rest: seq<Result<QueryItem>>, sets: seq<seq<Row>>)
    ensures Collect([Ok(item)] + rest, sets) == Collect(rest, Added(sets, item))
  {
    assert ([Ok(item)] + rest)[1..] == rest;
  }

  /** Any inner stream: its script is what its polls will return, and then it is exhausted. */
  class InnerStream {
    var script: seq<Polled>

    constructor (script: seq<Polled>)
      ensures this.script == script
    {
      this.script := script;
    }

    method PollNext() returns (p: Polled)
      modifies this
      ensures if old(script) == [] then p.Exhausted? && script == []
              else p == old(script)[0] && script == old(script)[1..]
    {
      if script == [] {
        p := Exhausted;
      } else {
        p := script[0];
        script := script[1..];
      }
    }
  }

  class QueryStream {
    const inner: InnerStream
    var peeked: Option<Result<QueryItem>>
    var columns: Option<RowSchema>
    /** Everything taken from the inner stream, and everything handed to the caller. */
    ghost var pulled: seq<Result<QueryItem>>
    ghost var delivered: seq<Result<QueryItem>>

    function Peeked(): seq<Result<QueryItem>>
      reads this
    {
      if peeked.Some? then [peeked.value] else []
    }

    /** Only the look-ahead is withheld; it is never an error. */
    ghost predicate Valid()
      reads this
    {
      && pulled == delivered + Peeked()
      && (peeked.Some? ==> peeked.value.Ok?)
      && columns == CurrentColumns(pulled)
      && (peeked.Some? && peeked.value.value.Metadata? ==> columns == Some(peeked.value.value.schema))
    }

    /** All items of the stream, pulled or not. */
    ghost function All(): seq<Result<QueryItem>>
      reads this, inner
    {
      pulled + ReadyItems(inner.script)
    }

    /** What a consumer is still going to see before the stream ends. */
    ghost function Ahead(): seq<Result<QueryItem>>
      reads this, inner
    {
      Peeked() + UntilEnd(inner.script)
    }

    constructor (inner: InnerStream)
      ensures Valid() && this.inner == inner && peeked == None && delivered == [] && pulled == []
    {
      this.inner := inner;
      peeked := None;
      columns := None;
      pulled := [];
      delivered := [];
    }

    method PollNext() returns (p: Polled)
      requires Valid()
      modifies this, inner
      ensures Valid() && peeked.None? && All() == old(All())
      ensures delivered == old(delivered) + (if p.Item? then [p.item] else [])
      ensures p.Item? ==> old(Ahead()) == [p.item] + Ahead()
      ensures p.Pending? ==> old(Ahead()) == Ahead()
      ensures p.Exhausted? ==> old(Ahead()) == []
      ensures |inner.script| + |Peeked()| <= old(|inner.script| + |Peeked()|) - if p.Exhausted? then 0 else 1
    {
      hide CurrentColumns;
      if peeked.Some? {
        p := Item(peeked.value);
        peeked := None;
      } else {
        p := inner.PollNext();
        if p.Item? {
          ColumnsAfter(pulled, p.item);
          pulled := pulled + [p.item];
          assert old(All()) == old(pulled) + ([p.item] + ReadyItems(inner.script));
        }
      }
      if p.Item? {
        delivered := delivered + [p.item];
        match p.item {
          case Ok(Metadata(schema, _)) => columns := Some(schema);
          case Err(_) => columns := None;
          case Ok(RowItem(_)) =>
        }
      }
    }

    /**
     Looks ahead by one item. An error is delivered here, once; any other item is kept for the next
     poll. Dropping the call while the inner stream is pending loses nothing.
     */
    method Columns() returns (o: Await<Option<seq<Column>>>)
      requires Valid()
      modifies this, inner
      ensures Valid() && All() == old(All())
      ensures o.Dropped? ==> delivered == old(delivered) && peeked == None
      ensures o.Ready? && o.result.Err? ==> delivered == old(delivered) + [Err(o.result.error)] && peeked == None
      ensures o.Ready? && o.result.Ok? ==> delivered == old(delivered)
      ensures o.Ready? && o.result.Ok? ==>
                o.result.value == match CurrentColumns(pulled) case None => None case Some(s) => Some(s.columns)
    {
      hide CurrentColumns;
      var looking := peeked.None?;
      while looking
        invariant Valid() && All() == old(All()) && delivered == old(delivered)
        invariant looking ==> peeked.None?
        decreases |inner.script| + if looking then 1 else 0
      {
        var p := inner.PollNext();
        match p {
          case Pending =>
            if * {
              return Dropped;
            }
          case Exhausted =>
            looking := false;
          case Item(item) =>
            ColumnsAfter(pulled, item);
            assert old(All()) == pulled + ([item] + ReadyItems(inner.script));
            pulled := pulled + [item];
            assert All() == old(All());
            match item {
              case Err(error) =>
                delivered := delivered + [item];
                columns := None;
                return Ready(Err(error));
              case Ok(Metadata(schema, _)) =>
                columns := Some(schema);
                peeked := Some(item);
              case Ok(RowItem(_)) =>
                peeked := Some(item);
            }
            looking := false;
        }
      }
      match columns {
        case None => o := Ready(Ok(None));
        case Some(schema) => o := Ready(Ok(Some(schema.columns)));
      }
    }

    /** Collects all result sets. */
    method IntoResults() returns (o: Await<seq<seq<Row>>>)
      requires Valid()
      modifies this, inner
      ensures o.Ready? ==> o.result == Collect(old(Ahead()), [])
    {
      var results: seq<seq<Row>> := [];
      hide UntilEnd;
      hide CurrentColumns;
      hide ReadyItems;
      while true
        invariant Valid()
        invariant Collect(old(Ahead()), []) == Collect(Ahead(), results)
        decreases |inner.script| + |Peeked()|
      {
        var p := PollNext();
        match p {
          case Pending =>
            if * {
              return Dropped;
            }
          case Exhausted =>
            break;
          case Item(Err(error)) =>
            return Ready(Err(error));
          case Item(Ok(Metadata(_, _))) =>
            CollectStep(p.item.value, Ahead(), results);
            results := results + [[]];
          case Item(Ok(RowItem(row))) =>
            CollectStep(p.item.value, Ahead(), results);
            if results == [] {
              results := [[]];
            }
            results := results[|results| - 1 := results[|results| - 1] + [row]];
        }
      }
      o := Ready(Ok(results));
    }

    /** Collects the first result set, draining the others. */
    method IntoFirstResult() returns (o: Await<seq<Row>>)
      requires Valid()
      modifies this, inner
      ensures o.Ready? ==>
        match Collect(old(Ahead()), [])
        case Err(e) => o.result == Err(e)
        case Ok(sets) => o.result == Ok(if sets == [] then [] else sets[0])
    {
      var all := IntoResults();
      match all {
        case Dropped => o := Dropped;
        case Ready(Err(e)) => o := Ready(Err(e));
        case Ready(Ok(sets)) => o := Ready(Ok(if sets == [] then [] else sets[0]));
      }
    }

    /** The first row of the first result set; an empty first set gives none, whatever follows it. */
    method IntoRow() returns (o: Await<Option<Row>>)
      requires Valid()
      modifies this, inner
      ensures o.Ready? ==>
        match Collect(old(Ahead()), [])
        case Err(e) => o.result == Err(e)
        case Ok(sets) => o.result == Ok(if sets == [] || sets[0] == [] then None else Some(sets[0][0]))
    {
      var first := IntoFirstResult();
      match first {
        case Dropped => o := Dropped;
        case Ready(Err(e)) => o := Ready(Err(e));
        case Ready(Ok(rows)) => o := Ready(Ok(if rows == [] then None else Some(rows[0])));
      }
    }
  }

  /**
   Any interleaving of look-aheads and polls: items and errors come out in the order of the inner
   stream, each once, with at most one item still withheld.
   */
  method Interleave(stream: QueryStream, calls: seq<bool>) returns (out: seq<Result<QueryItem>>)
    requires stream.Valid() && stream.delivered == [] && stream.pulled == []
    modifies stream, stream.inner
    ensures stream.Valid()
    ensures out + stream.Peeked() + ReadyItems(stream.inner.script) == ReadyItems(old(stream.inner.script))
    ensures stream.columns == CurrentColumns(out + stream.Peeked())
  {
    out := [];
    for i := 0 to |calls|
      invariant stream.Valid() && stream.delivered == out
      invariant stream.All() == old(stream.All())
    {
      if calls[i] {
        var columns := stream.Columns();
        if columns.Ready? && columns.result.Err? {
          out := out + [Err(columns.result.error)];
        }
      } else {
        var p := stream.PollNext();
        if p.Item? {
          out := out + [p.item];
        }
      }
    }
  }

  lemma RowsOnlyStep(item: Result<QueryItem>, rest: seq<Result<QueryItem>>)
    ensures item.Err? ==> RowsOnly([item] + rest) == [Err(item.error)]
    ensures item.Ok? && item.value.RowItem? ==> RowsOnly([item] + rest) == [Ok(item.value.row)] + RowsOnly(rest)
    ensures item.Ok? && item.value.Metadata? ==> RowsOnly([item] + rest) == RowsOnly(rest)
  {
    assert ([item] + rest)[1..] == rest;
  }

  /** The row-only stream over compatibility items; it ends after its first error. */
  class CompatRowStream {
    const items: QueryStream
    var ended: bool

    ghost function Ahead(): seq<Result<Row>>
      reads this, items, items.inner
    {
      if ended then [] else RowsOnly(items.Ahead())
    }

    /** Polls left in the inner stream, the look-ahead included. */
    ghost function Left(): nat
      reads items, items.inner
    {
      |items.inner.script| + |items.Peeked()|
    }

    constructor (items: QueryStream)
      ensures this.items == items && !ended
    {
      this.items := items;
      ended := false;
    }

    method PollNext() returns (p: Poll<Result<Row>>)
      requires items.Valid()
      modifies this, items, items.inner
      ensures items.Valid()
      ensures p.Item? ==> old(Ahead()) == [p.item] + Ahead()
      ensures p.Pending? ==> old(Ahead()) == Ahead()
      ensures p.Exhausted? ==> old(Ahead()) == [] && ended
      ensures !p.Exhausted? ==> Left() < old(Left())
    {
      assert RowsOnly([]) == [];
      hide RowsOnly;
      hide UntilEnd;
      hide CurrentColumns;
      hide ReadyItems;
      while !ended
        invariant items.Valid() && Ahead() == old(Ahead())
        invariant Left() <= old(Left())
        decreases Left(), !ended
      {
        var next := items.PollNext();
        if next.Item? {
          RowsOnlyStep(next.item, items.Ahead());
        }
        match next {
          case Pending =>
            return Poll.Pending;
          case Exhausted =>
            ended := true;
          case Item(Err(e)) =>
            ended := true;
            return Item(Err(e));
          case Item(Ok(RowItem(row))) =>
            return Item(Ok(row));
          case Item(Ok(Metadata(_, _))) =>
        }
      }
      p := Exhausted;
    }
  }
}
