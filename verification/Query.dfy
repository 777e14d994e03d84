/** Buffered results: the row stream over collected result sets, and execution counts (src/query.rs). */
module Queries {
  import opened Wrappers
  import opened Rows
  import opened Replies

  function TotalRows(sets: seq<seq<Row>>): nat {
    if sets == [] then 0 else |sets[0]| + TotalRows(sets[1..])
  }

  lemma {:induction false} FlattenedLength(sets: seq<seq<Row>>)
    ensures |Flatten(sets)| == TotalRows(sets)
  {
    if sets != [] {
      FlattenedLength(sets[1..]);
    }
  }

  /** The rows of all result sets, one by one. */
  class RowStream {
    var sets: seq<seq<Row>>
    var current: seq<Row>
    var remaining: nat

    /** The rows still to come. */
    ghost function Ahead(): seq<Row>
      reads this
    {
      current + Flatten(sets)
    }

    ghost predicate Valid()
      reads this
    {
      remaining == |Ahead()|
    }

    /** `QueryResult::into_row_stream` */
    constructor (resultSets: seq<seq<Row>>)
      ensures Valid() && Ahead() == Flatten(resultSets)
    {
      remaining := TotalRows(resultSets);
      if resultSets == [] {
        sets, current := [], [];
      } else {
        sets, current := resultSets[1..], resultSets[0];
      }
      FlattenedLength(resultSets);
    }

    /** Yields the next row, skipping empty sets; the end is final. */
    method PollNext() returns (p: Poll<Result<Row>>)
      requires Valid()
      modifies this
      ensures Valid() && !p.Pending?
      ensures p.Item? ==> p.item.Ok? && old(Ahead()) == [p.item.value] + Ahead()
      ensures p.Exhausted? <==> old(Ahead()) == []
      ensures p.Exhausted? ==> Ahead() == []
    {
      while true
        invariant Valid() && Ahead() == old(Ahead())
        decreases |sets|
      {
        if current != [] {
          p := Item(Ok(current[0]));
          current := current[1..];
          remaining := remaining - 1;
          return;
        }
        if sets == [] {
          return Exhausted;
        }
        current := sets[0];
        sets := sets[1..];
      }
    }

    /** Exact in every state. */
    method SizeHint() returns (lower: nat, upper: Option<nat>)
      requires Valid()
      ensures lower == |Ahead()| && upper == Some(|Ahead()|)
    {
      lower, upper := remaining, Some(remaining);
    }
  }

  /** Drains a row stream. */
  method CollectRowStream(resultSets: seq<seq<Row>>) returns (rows: seq<Row>)
    ensures rows == Flatten(resultSets)
  {
    var stream := new RowStream(resultSets);
    rows := [];
    while true
      invariant fresh(stream) && stream.Valid()
      invariant rows + stream.Ahead() == Flatten(resultSets)
      decreases |stream.Ahead()|
    {
      var p := stream.PollNext();
      if p.Exhausted? {
        break;
      }
      rows := rows + [p.item.value];
    }
  }

  // ---------------------------------------------------------------------
  // Execution results
  // ---------------------------------------------------------------------

  function Total(counts: seq<nat>): nat {
    if counts == [] then 0 else counts[0] + Total(counts[1..])
  }

  /** What either `into_iter` hands out. */
  class CountIterator {
    var rest: seq<nat>

    constructor (counts: seq<nat>)
      ensures rest == counts
    {
      rest := counts;
    }

    method Next() returns (count: Option<nat>)
      modifies this
      ensures if old(rest) == [] then count == None && rest == []
              else count == Some(old(rest)[0]) && rest == old(rest)[1..]
    {
      if rest == [] {
        return None;
      }
      count := Some(rest[0]);
      rest := rest[1..];
    }
  }

  datatype ExecuteResult = ExecuteResult(counts: seq<nat>) {
    function RowsAffected(): seq<nat> {
      counts
    }

    function TotalAffected(): nat {
      Total(counts)
    }

    /** The inherent method and the trait's both come down to the vector's own iterator. */
    method IntoIter() returns (iter: CountIterator)
      ensures fresh(iter) && iter.rest == counts
    {
      iter := new CountIterator(counts);
    }
  }

  /** What one statement reports, if anything. */
  function CountOf(s: Statement): Option<nat> {
    match s
    case RowSet(_, rows, _) => Some(|rows|)
    case Count(n) => n
    case Broken(_) => None
  }

  /** Number of statements that report something among the first `i`. */
  function CountedBefore(answer: seq<Statement>, i: nat): nat
    requires i <= |answer|
  {
    if i == 0 then 0 else CountedBefore(answer, i - 1) + if CountOf(answer[i - 1]).Some? then 1 else 0
  }

  function AffectedRows(answer: seq<Statement>): nat {
    if answer == [] then 0 else CountOf(answer[0]).GetOr(0) + AffectedRows(answer[1..])
  }

  lemma {:induction false} CountedRest(answer: seq<Statement>, i: nat)
    requires 0 < i <= |answer|
    ensures CountedBefore(answer, i)
         == (if CountOf(answer[0]).Some? then 1 else 0) + CountedBefore(answer[1..], i - 1)
  {
    if i > 1 {
      CountedRest(answer, i - 1);
    }
  }

  lemma {:induction false} CountsInPlace(answer: seq<Statement>)
    requires Sound(answer)
    ensures Counts(answer).Ok? && |Counts(answer).value| == CountedBefore(answer, |answer|)
    ensures forall i | 0 <= i < |answer| && CountOf(answer[i]).Some? ::
              && CountedBefore(answer, i) < |Counts(answer).value|
              && Counts(answer).value[CountedBefore(answer, i)] == CountOf(answer[i]).value
    ensures Total(Counts(answer).value) == AffectedRows(answer)
  {
    if answer != [] {
      SoundFirst(answer);
      CountsInPlace(answer[1..]);
      CountedRest(answer, |answer|);
      var counts, rest := Counts(answer).value, Counts(answer[1..]).value;
      assert CountOf(answer[0]).Some? ==> counts[1..] == rest;
      forall i | 0 <= i < |answer| && CountOf(answer[i]).Some?
        ensures CountedBefore(answer, i) < |counts| && counts[CountedBefore(answer, i)] == CountOf(answer[i]).value
      {
        if i > 0 {
          CountedRest(answer, i);
          assert answer[1..][i - 1] == answer[i];
        }
      }
    }
  }

  /**
   The result of executing an answer without failures, read to the end: one entry for each statement
   that reports a count, in statement order, the same from both iterators, and their sum as the total.
   */
  method ReadExecuteResult(answer: seq<Statement>) returns (affected: seq<nat>, total: nat, yielded: seq<nat>)
    requires Sound(answer)
    ensures |affected| == CountedBefore(answer, |answer|) && yielded == affected
    ensures forall i | 0 <= i < |answer| && CountOf(answer[i]).Some? ::
              CountedBefore(answer, i) < |affected| && affected[CountedBefore(answer, i)] == CountOf(answer[i]).value
    ensures total == AffectedRows(answer)
  {
    CountsInPlace(answer);
    hide CountOf;
    hide CountedBefore;
    hide Counts;
    hide AffectedRows;
    var result := ExecuteResult(Counts(answer).value);
    affected, total := result.RowsAffected(), result.TotalAffected();
    var iter := result.IntoIter();
    yielded := Yielded(iter);
  }

  /** Everything an iterator still hands out. */
  method Yielded(iter: CountIterator) returns (yielded: seq<nat>)
    modifies iter
    ensures yielded == old(iter.rest)
  {
    yielded := [];
    while true
      invariant yielded + iter.rest == old(iter.rest)
      decreases |iter.rest|
    {
      var count := iter.Next();
      if count.None? {
        break;
      }
      yielded := yielded + [count.value];
    }
  }

  lemma {:induction false} TotalOfConcat(a: seq<nat>, b: seq<nat>)
    ensures Total(a + b) == Total(a) + Total(b)
  {
    if a == [] {
      assert a + b == b;
    } else {
      assert (a + b)[1..] == a[1..] + b;
      TotalOfConcat(a[1..], b);
    }
  }

  function CountsOfOne(s: Statement): seq<nat> {
    match CountOf(s)
    case None => []
    case Some(n) => [n]
  }

  lemma CountsOfFirst(first: Statement, rest: seq<Statement>)
    ensures Counts([first] + rest).Ok? <==> SoundOne(first) && Counts(rest).Ok?
    ensures Counts([first] + rest).Ok? ==> Counts([first] + rest).value == CountsOfOne(first) + Counts(rest).value
  {
    assert ([first] + rest)[1..] == rest;
  }

  lemma CountsAssociate(a: seq<nat>, b: seq<nat>, c: seq<nat>)
    ensures a + (b + c) == a + b + c
  {
  }

  /** Counts and their total add up over consecutive parts of an answer. */
  lemma {:induction false} CountsOfConcat(a: seq<Statement>, b: seq<Statement>)
    requires Counts(a).Ok? && Counts(b).Ok?
    ensures Counts(a + b) == Ok(Counts(a).value + Counts(b).value)
    ensures Total(Counts(a + b).value) == Total(Counts(a).value) + Total(Counts(b).value)
  {
    TotalOfConcat(Counts(a).value, Counts(b).value);
    if a == [] {
      assert a + b == b && Counts(a).value == [];
      assert [] + Counts(b).value == Counts(b).value;
    } else {
      var first, more := a[0], a[1..];
      assert a == [first] + more && a + b == [first] + (more + b);
      CountsOfFirst(first, more);
      CountsOfFirst(first, more + b);
      hide *;
      CountsOfConcat(more, b);
      CountsAssociate(CountsOfOne(first), Counts(more).value, Counts(b).value);
    }
  }
}
