/** Arrow dates and timestamps as TDS values, and the expansion of record batches (src/bulk_arrow.rs). */
module Arrow {
  import opened Wrappers
  import opened Values
  import opened Native
  import opened Clients
  import B = Bulk
  import T = Temporal

  const EPOCH_OFFSET_DAYS: int := 719_162
  const NANOS_PER_DAY: int := 86_400 * 1_000_000_000

  predicate I64(n: int) {
    -0x8000_0000_0000_0000 <= n < 0x8000_0000_0000_0000
  }

  predicate I32(n: int) {
    -0x8000_0000 <= n < 0x8000_0000
  }

  predicate U32(n: int) {
    0 <= n < 0x1_0000_0000
  }

  // ---------------------------------------------------------------------
  // Timestamps
  // ---------------------------------------------------------------------

  datatype TimeUnit = Second | Millisecond | Microsecond | Nanosecond

  function NanosPer(unit: TimeUnit): int {
    match unit
    case Second => 1_000_000_000
    case Millisecond => 1_000_000
    case Microsecond => 1_000
    case Nanosecond => 1
  }

  function SaturatingMul(a: int, b: int): (r: int)
    ensures I64(r)
  {
    var p := a * b;
    if p < -0x8000_0000_0000_0000 then -0x8000_0000_0000_0000
    else if p >= 0x8000_0000_0000_0000 then 0x7FFF_FFFF_FFFF_FFFF
    else p
  }

  function TimestampToSql(unit: TimeUnit, value: int): Result<SqlDateTime2> {
    var nanos := SaturatingMul(value, NanosPer(unit));
    var daysUnix := nanos / NANOS_PER_DAY;
    var intraday := nanos % NANOS_PER_DAY;
    if intraday < 0 then Err(Usage(OutOfRange))
    else
      var daysTds := daysUnix + EPOCH_OFFSET_DAYS;
      if !I64(daysTds) then Err(Usage(Overflow))
      else if !U32(daysTds) then Err(Usage(PredatesEpoch))
      else Ok(SqlDateTime2(daysTds, SqlTime(intraday, DEFAULT_VARTIME_SCALE)))
  }

  /** Nanoseconds since 1970 that a converted timestamp denotes. */
  function Instant(dt: SqlDateTime2): int {
    (dt.days - EPOCH_OFFSET_DAYS) * NANOS_PER_DAY + dt.time.ticks
  }

  /** The instant lies in the 64-bit range of nanoseconds, so that no multiplication saturates. */
  predicate Representable(unit: TimeUnit, value: int) {
    I64(value * NanosPer(unit))
  }

  /**
   Every timestamp converts: no error is reachable, the time of day is within a day, the day lies
   in a fixed range, and the instant is exact as long as the unit conversion does not saturate.
   */
  lemma TimestampConverts(unit: TimeUnit, value: int)
    requires I64(value)
    ensures var r := TimestampToSql(unit, value);
      && r.Ok?
      && r.value.time.ticks < NANOS_PER_DAY && r.value.time.scale == 7
      && 612_410 <= r.value.days <= 825_913
      && Instant(r.value) == SaturatingMul(value, NanosPer(unit))
      && (Instant(r.value) == value * NanosPer(unit) <==> Representable(unit, value))
  {
    var nanos := SaturatingMul(value, NanosPer(unit));
    assert nanos == (nanos / NANOS_PER_DAY) * NANOS_PER_DAY + nanos % NANOS_PER_DAY;
  }

  /** Instants determine days and time of day, so equal instants convert equally across units. */
  lemma UnitsAgree(unit: TimeUnit, value: int, unit': TimeUnit, value': int)
    requires I64(value) && I64(value') && Representable(unit, value) && Representable(unit', value')
    ensures TimestampToSql(unit, value) == TimestampToSql(unit', value')
       <==> value * NanosPer(unit) == value' * NanosPer(unit')
  {
    TimestampConverts(unit, value);
    TimestampConverts(unit', value');
  }

  /** The units are what they are called: a whole second converts alike in each, and nanoseconds are themselves. */
  lemma UnitsAreDecimal(value: int)
    requires I64(value) && I64(value * 1_000_000_000)
    ensures var r := TimestampToSql(Second, value);
      && TimestampToSql(Millisecond, value * 1_000) == r
      && TimestampToSql(Microsecond, value * 1_000_000) == r
      && TimestampToSql(Nanosecond, value * 1_000_000_000) == r
      && r.Ok? && Instant(r.value) == value * 1_000_000_000
  {
    TimestampConverts(Second, value);
  }

  /** A later timestamp never converts to an earlier day or, on the same day, to an earlier time. */
  lemma TimestampsAreMonotone(unit: TimeUnit, a: int, b: int)
    requires I64(a) && I64(b) && a <= b
    ensures TimestampToSql(unit, a).Ok? && TimestampToSql(unit, b).Ok?
    ensures var x, y := TimestampToSql(unit, a).value, TimestampToSql(unit, b).value;
      x.days < y.days || (x.days == y.days && x.time.ticks <= y.time.ticks)
  {
    TimestampConverts(unit, a);
    TimestampConverts(unit, b);
    assert a * NanosPer(unit) <= b * NanosPer(unit);
  }

  // ---------------------------------------------------------------------
  // Dates and times of day
  // ---------------------------------------------------------------------

  function Date32ToSql(value: int): Result<SqlDate> {
    var days := value + EPOCH_OFFSET_DAYS;
    if !I32(days) then Err(Usage(Overflow))
    else if !U32(days) then Err(Usage(PredatesEpoch))
    else if days > LAST_SQL_DAY then Err(Error.Native(0))
    else Ok(SqlDate(days))
  }

  /** A date converts exactly from 0001-01-01 to 9999-12-31, to its own day; each error has its range. */
  lemma Date32Converts(value: int)
    requires I32(value)
    ensures var r := Date32ToSql(value);
      && (r.Ok? <==> -719_162 <= value <= 2_932_896)
      && (r.Ok? ==> r.value.days == value + EPOCH_OFFSET_DAYS)
      && (r == Err(Usage(PredatesEpoch)) <==> value < -719_162)
      && (r == Err(Usage(Overflow)) <==> value > 0x7FFF_FFFF - EPOCH_OFFSET_DAYS)
  {
  }

  /** Day 0 is 1970-01-01, and every date is encoded as the date libraries encode it. */
  lemma Date32CountsFrom1970(value: int)
    requires I32(value)
    ensures Date32ToSql(value).Ok? <==> T.DateToSql(T.YearStart(1970) + value).Some?
    ensures Date32ToSql(value).Ok? ==> Some(Date32ToSql(value).value) == T.DateToSql(T.YearStart(1970) + value)
  {
  }

  function WithinDay(nanos: nat): Result<SqlTime> {
    if nanos >= NANOS_PER_DAY then Err(Usage(OutOfRange)) else Ok(SqlTime(nanos, DEFAULT_VARTIME_SCALE))
  }

  function Time64ToSql(unit: TimeUnit, value: int): Result<SqlTime> {
    match unit
    case Microsecond =>
      if value < 0 then Err(Usage(Negative))
      else if value * 1_000 >= 0x1_0000_0000_0000_0000 then Err(Usage(Overflow))
      else WithinDay(value * 1_000)
    case Nanosecond => if value < 0 then Err(Usage(Negative)) else WithinDay(value)
    case _ => Err(Usage(UnsupportedType))
  }

  /** A time of day converts exactly within its day, in the two units Arrow has for it; each error has its range. */
  lemma Time64Converts(unit: TimeUnit, value: int)
    requires I64(value)
    ensures var r, nanos, known := Time64ToSql(unit, value), value * NanosPer(unit), unit.Microsecond? || unit.Nanosecond?;
      && (r.Ok? <==> known && 0 <= nanos < NANOS_PER_DAY)
      && (r.Ok? ==> r.value == SqlTime(nanos, DEFAULT_VARTIME_SCALE))
      && (r == Err(Usage(UnsupportedType)) <==> !known)
      && (r == Err(Usage(Negative)) <==> known && value < 0)
      && (r == Err(Usage(Overflow)) <==> unit.Microsecond? && value > 18_446_744_073_709_551)
      && (r.Err? ==> r.error.Usage?)
  {
  }

  // ---------------------------------------------------------------------
  // Record batches
  // ---------------------------------------------------------------------

  /** Number of rows before batch `k`. */
  function Offset(batches: seq<RecordBatch>, k: nat): nat
    requires k <= |batches|
  {
    if k == 0 then 0 else Offset(batches, k - 1) + batches[k - 1].rows
  }

  lemma {:induction false} OffsetsIncrease(batches: seq<RecordBatch>, j: nat, k: nat)
    requires j <= k <= |batches|
    ensures Offset(batches, j) <= Offset(batches, k)
    decreases k
  {
    if j < k {
      OffsetsIncrease(batches, j, k - 1);
    }
  }

  /** Position of row `i` of batch `k` in batch order. */
  function Place(batches: seq<RecordBatch>, k: nat, i: nat): nat
    requires k < |batches|
  {
    Offset(batches, k) + i
  }

  /** The first `n` batches are expanded in place. */
  ghost predicate Expanded(batches: seq<RecordBatch>, n: nat, rows: seq<LoadRow>)
    requires n <= |batches|
  {
    forall k, i | 0 <= k < n && 0 <= i < batches[k].rows ::
      Place(batches, k, i) < |rows| && rows[Place(batches, k, i)] == ArrowRow(batches[k], i)
  }

  /** All rows of all batches, each at its place. */
  method ExpandBatches(batches: seq<RecordBatch>) returns (rows: seq<LoadRow>)
    ensures |rows| == Offset(batches, |batches|)
    ensures Expanded(batches, |batches|, rows)
  {
    rows := [];
    for b := 0 to |batches|
      invariant |rows| == Offset(batches, b)
      invariant Expanded(batches, b, rows)
    {
      var n := batches[b].rows;
      for rowIdx := 0 to n
        invariant |rows| == Offset(batches, b) + rowIdx
        invariant Expanded(batches, b, rows)
        invariant forall i | 0 <= i < rowIdx :: rows[Place(batches, b, i)] == ArrowRow(batches[b], i)
      {
        rows := rows + [ArrowRow(batches[b], rowIdx)];
      }
    }
  }

  /** Every position is the place of exactly one row of one batch. */
  lemma {:induction false} EveryPlaceIsOneRow(batches: seq<RecordBatch>, n: nat, p: nat) returns (k: nat, i: nat)
    requires n <= |batches| && p < Offset(batches, n)
    ensures k < n && i < batches[k].rows && Place(batches, k, i) == p
    ensures forall k', i' | 0 <= k' < |batches| && 0 <= i' < batches[k'].rows ::
              Place(batches, k', i') == p ==> k' == k && i' == i
  {
    if Offset(batches, n - 1) <= p {
      k, i := n - 1, p - Offset(batches, n - 1);
      forall k', i' | 0 <= k' < |batches| && 0 <= i' < batches[k'].rows && Place(batches, k', i') == p
        ensures k' == k && i' == i
      {
        if k' < k {
          OffsetsIncrease(batches, k' + 1, k);
        } else if k < k' {
          OffsetsIncrease(batches, k + 1, k');
        }
      }
    } else {
      k, i := EveryPlaceIsOneRow(batches, n - 1, p);
    }
  }

  /**
   `send_arrow_batches`: exactly the expanded rows, in order, go out in one guarded load. Unless the driver
   fails on its own account, all of them are loaded or the first cell that does not convert is reported.
   */
  method SendArrowBatches(bulk: B.BulkInsert, batches: seq<RecordBatch>) returns (o: Await<nat>, ghost rows: seq<LoadRow>)
    requires bulk.client.Valid() && !bulk.client.guarded && Idle(bulk.client.conn)
    modifies bulk.client
    ensures bulk.client.Valid() && !bulk.client.guarded
    ensures |rows| == Offset(batches, |batches|) && Expanded(batches, |batches|, rows)
    ensures var c := old(bulk.client.conn);
      if c.dead then bulk.client.conn == c && o == Ready(Err(ConnectionClosed))
      else bulk.client.conn.sent == c.sent + [Sent(BulkLoad(bulk.table, rows), c.epoch, false)]
    ensures !old(bulk.client.conn).dead && o.Dropped? ==> bulk.client.conn.dead
    ensures o.Ready? && o.result.Ok? ==> o.result.value == Offset(batches, |batches|) && B.LoadProblem(rows) == None
    ensures !old(bulk.client.conn).dead && o.Ready? && bulk.client.conn.failures == old(bulk.client.conn.failures) ==>
      match B.LoadProblem(rows)
      case None => o.result == Ok(Offset(batches, |batches|))
      case Some(e) => o.result.Err? && B.Wraps(o.result.error, e)
  {
    var expanded := ExpandBatches(batches);
    rows := expanded;
    o := bulk.Send(expanded);
  }
}
