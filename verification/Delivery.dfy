/**
 `query_compat` driven to its end: the generator's polls, seen through the look-ahead stream and its
 collector, give what `collect_results` gives for the same answer.
 */
module Delivery {
  import opened Wrappers
  import opened Rows
  import opened Replies
  import opened Native
  import opened Clients
  import opened Streams
  import opened Compat

  predicate Endless(script: seq<Polled>) {
    forall e | e in script :: !e.Exhausted?
  }

  lemma {:induction false} UntilEndOfConcat(script: seq<Polled>, p: Polled)
    requires Endless(script)
    ensures UntilEnd(script + [p]) == UntilEnd(script) + (if p.Item? then [p.item] else [])
  {
    if script == [] {
      assert script + [p] == [p];
    } else {
      assert script[0] in script;
      assert (script + [p])[1..] == script[1..] + [p];
      assert forall e | e in script[1..] :: e in script;
      UntilEndOfConcat(script[1..], p);
    }
  }

  lemma {:induction false} CollectFails(items: seq<Result<QueryItem>>, e: Error, sets: seq<seq<Row>>)
    ensures Collect(items + [Err(e)], sets).Err?
  {
    if items == [] {
      assert items + [Err(e)] == [Err(e)];
    } else {
      assert (items + [Err(e)])[1..] == items[1..] + [Err(e)];
      if items[0].Ok? {
        CollectFails(items[1..], e, Added(sets, items[0].value));
      }
    }
  }

  lemma {:induction false} RowsOnlyFails(items: seq<Result<QueryItem>>, e: Error)
    requires Errorless(items)
    ensures RowsOnly(items + [Err(e)]) == RowsOnly(items) + [Err(e)]
  {
    RowsOnlyOfConcat(items, [Err(e)]);
  }

  predicate Errorless(items: seq<Result<QueryItem>>) {
    forall item | item in items :: item.Ok?
  }

  /** The items came in order up to some point, and then an error. */
  predicate Cut(items: seq<Result<QueryItem>>, all: seq<Result<QueryItem>>) {
    && items != [] && items[|items| - 1].Err?
    && Errorless(items[..|items| - 1]) && items[..|items| - 1] <= all
  }

  /** Collecting a cut stream fails, and its rows are a beginning of all rows and one error. */
  lemma CutReads(items: seq<Result<QueryItem>>, all: seq<Result<QueryItem>>)
    requires Cut(items, all)
    ensures Collect(items, []).Err?
    ensures RowsOnly(items) != [] && RowsOnly(items)[|RowsOnly(items)| - 1].Err?
    ensures RowsOnly(items)[..|RowsOnly(items)| - 1] <= RowsOnly(all)
  {
    var front, e := items[..|items| - 1], items[|items| - 1].error;
    assert items == front + [Err(e)];
    CollectFails(front, e, []);
    RowsOnlyFails(front, e);
    BeginningReads(front, all);
  }

  lemma BeginningReads(items: seq<Result<QueryItem>>, all: seq<Result<QueryItem>>)
    requires Errorless(items) && items <= all
    ensures RowsOnly(items) <= RowsOnly(all)
  {
    assert all == items + all[|items|..];
    RowsOnlyOfConcat(items, all[|items|..]);
  }

  /** One more poll keeps what came and what is to come together, or ends it all. */
  lemma EndOfPoll(script: seq<Polled>, p: Polled, before: seq<Result<QueryItem>>, after: seq<Result<QueryItem>>,
                  all: seq<Result<QueryItem>>)
    requires Endless(script) && Errorless(UntilEnd(script)) && UntilEnd(script) + before == all
    requires p.Pending? ==> after == before
    requires p.Item? && p.item.Ok? ==> before == [p.item] + after
    requires p.Exhausted? ==> before == []
    ensures (p.Item? && p.item.Err? && before == [p.item]) || p.Exhausted? ==> UntilEnd(script + [p]) == all
    ensures p.Item? && p.item.Err? ==> Cut(UntilEnd(script + [p]), all)
    ensures p.Pending? || (p.Item? && p.item.Ok?) ==>
              Endless(script + [p]) && Errorless(UntilEnd(script + [p])) && UntilEnd(script + [p]) + after == all
  {
    UntilEndOfConcat(script, p);
    if p.Item? && p.item.Err? {
      assert UntilEnd(script + [p])[..|UntilEnd(script)|] == UntilEnd(script);
    }
  }

  /**
   Polls a fresh generator until it ends or fails, then drops it; it is dropped early if it is not
   ready within `polls` polls.
   */
  method PollToEnd(client: TdsClient, request: Request, answer: Answer, polls: nat) returns (script: seq<Polled>, over: bool)
    requires client.Valid() && !client.guarded && Idle(client.conn)
    modifies client
    ensures client.Valid() && !client.guarded && old(client.history) <= client.history
    ensures Served(old(client.conn), request, client.conn)
    ensures var items, all := UntilEnd(script), Items(answer.statements, 0);
      && (!over ==> Errorless(items) && items <= all)
      && (over ==> items == all || Cut(items, all))
      && (over && !old(client.conn.dead) && client.conn.failures == old(client.conn.failures) ==> items == all)
    ensures old(client.conn.dead) && polls > 0 ==> over && UntilEnd(script) == [Err(ConnectionClosed)]
  {
    var generator := new CompatGenerator(client, request, answer);
    ghost var all := Items(answer.statements, 0);
    script := [];
    over := false;
    assert UntilEnd(script) + generator.Remaining() == all;
    hide *;
    for i := 0 to polls
      invariant generator.Valid() && generator.client == client && generator.start == old(client.conn)
      invariant generator.request == request
      invariant fresh(generator.writer) && (generator.operation != null ==> fresh(generator.operation))
      invariant old(client.history) <= client.history
      invariant !over ==> Endless(script) && Errorless(UntilEnd(script)) && UntilEnd(script) + generator.Remaining() == all
      invariant over ==> generator.phase.Finished? && (UntilEnd(script) == all || Cut(UntilEnd(script), all))
      invariant over && !old(client.conn.dead) && client.conn.failures == old(client.conn.failures) ==> UntilEnd(script) == all
      invariant i == 0 ==> !over && generator.phase.Unstarted? && UntilEnd(script) == [] && client.conn == old(client.conn)
      invariant old(client.conn.dead) && i > 0 ==> over && UntilEnd(script) == [Err(ConnectionClosed)]
    {
      if over {
        break;
      }
      ghost var before := generator.Remaining();
      var p := generator.PollNext();
      EndOfPoll(script, p, before, generator.Remaining(), all);
      UntilEndOfConcat(script, p);
      script := script + [p];
      over := p.Exhausted? || (p.Item? && p.item.Err?);
    }
    generator.Drop();
  }

  /**
   `query_compat` followed by `into_results`. Success gives exactly the result sets of this
   request's own answer, whatever was outstanding, as `collect_results` does.
   */
  method QueryCompatResults(client: TdsClient, request: Request, answer: Answer, polls: nat) returns (o: Await<seq<seq<Row>>>)
    requires client.Valid() && !client.guarded && Idle(client.conn)
    modifies client
    ensures client.Valid() && !client.guarded && old(client.history) <= client.history
    ensures Served(old(client.conn), request, client.conn)
    ensures o.Ready? && old(client.conn.dead) && polls > 0 ==> o == Ready(Err(ConnectionClosed))
    ensures o.Ready? && o.result.Ok? ==> o.result == ResultSets(answer.statements, 0)
    ensures o.Ready? && !old(client.conn.dead) && client.conn.failures == old(client.conn.failures) ==>
              o.result == ResultSets(answer.statements, 0)
  {
    var script, over := PollToEnd(client, request, answer, polls);
    if !over {
      return Dropped;
    }
    var inner := new InnerStream(script);
    var stream := new QueryStream(inner);
    StreamAgreesWithCollect(answer.statements);
    if UntilEnd(script) != Items(answer.statements, 0) {
      CutReads(UntilEnd(script), Items(answer.statements, 0));
    }
    assert stream.Ahead() == UntilEnd(script);
    o := stream.IntoResults();
  }

  /** As `QueryCompatResults`, for the first result set; the others are drained. */
  method QueryCompatFirst(client: TdsClient, request: Request, answer: Answer, polls: nat) returns (o: Await<seq<Row>>)
    requires client.Valid() && !client.guarded && Idle(client.conn)
    modifies client
    ensures client.Valid() && !client.guarded && old(client.history) <= client.history
    ensures Served(old(client.conn), request, client.conn)
    ensures o.Ready? && (o.result.Ok? || (!old(client.conn.dead) && client.conn.failures == old(client.conn.failures))) ==>
      match ResultSets(answer.statements, 0)
      case Err(e) => o.result == Err(e)
      case Ok(sets) => o.result == Ok(if sets == [] then [] else sets[0])
  {
    var script, over := PollToEnd(client, request, answer, polls);
    if !over {
      return Dropped;
    }
    var inner := new InnerStream(script);
    var stream := new QueryStream(inner);
    StreamAgreesWithCollect(answer.statements);
    if UntilEnd(script) != Items(answer.statements, 0) {
      CutReads(UntilEnd(script), Items(answer.statements, 0));
    }
    assert stream.Ahead() == UntilEnd(script);
    o := stream.IntoFirstResult();
  }

  /**
   `query_streamed`, and `query_compat` followed by `into_row_stream`: the rows of this request's own
   answer in order, up to its first failure, reported once. A driver failing on its own account, or a
   stream dropped early, cuts the rows short and changes none.
   */
  method QueryStreamed(client: TdsClient, request: Request, answer: Answer, polls: nat)
    returns (rows: seq<Result<Row>>, over: bool)
    requires client.Valid() && !client.guarded && Idle(client.conn)
    modifies client
    ensures client.Valid() && !client.guarded && old(client.history) <= client.history
    ensures Served(old(client.conn), request, client.conn)
    ensures var all := RowsOnly(Items(answer.statements, 0));
      && (!over ==> rows <= all)
      && (over ==> rows == all || (rows != [] && rows[|rows| - 1].Err? && rows[..|rows| - 1] <= all))
      && (over && !old(client.conn.dead) && client.conn.failures == old(client.conn.failures) ==> rows == all)
    ensures old(client.conn.dead) && polls > 0 ==> over && rows == [Err(ConnectionClosed)]
  {
    var script: seq<Polled>;
    script, over := PollToEnd(client, request, answer, polls);
    ghost var items, all := UntilEnd(script), Items(answer.statements, 0);
    if !over {
      BeginningReads(items, all);
    } else if items != all {
      CutReads(items, all);
    }
    rows := StreamRows(script);
  }

  /** The rows that come out of a row stream. */
  method CollectRows(stream: CompatRowStream) returns (rows: seq<Result<Row>>)
    requires stream.items.Valid()
    modifies stream, stream.items, stream.items.inner
    ensures rows == old(stream.Ahead())
  {
    hide *;
    rows := [];
    assert rows + stream.Ahead() == stream.Ahead();
    while true
      invariant stream.items.Valid()
      invariant rows + stream.Ahead() == old(stream.Ahead())
      decreases stream.Left()
    {
      ghost var before := stream.Ahead();
      var p := stream.PollNext();
      if p.Exhausted? {
        assert rows + [] == rows;
        break;
      }
      if p.Item? {
        assert rows + before == rows + [p.item] + stream.Ahead();
        rows := rows + [p.item];
      }
    }
  }

  method StreamRows(script: seq<Polled>) returns (rows: seq<Result<Row>>)
    ensures rows == RowsOnly(UntilEnd(script))
  {
    var inner := new InnerStream(script);
    var items := new QueryStream(inner);
    var stream := new CompatRowStream(items);
    assert items.Ahead() == UntilEnd(script);
    hide UntilEnd;
    hide RowsOnly;
    rows := CollectRows(stream);
  }
}
