/**
 Dates and times on their way to the server (src/query.rs) and back (src/row.rs). A calendar
 date is its day number, 1 being 0001-01-01, so that the calendar libraries' own arithmetic
 stays outside the model. `None` stands for a refused value; for the encoders that is a panic.
 */
module Temporal {
  import opened Wrappers
  import opened Values

  const SECOND: nat := 1_000_000_000
  const DAY: nat := 86_400
  const TICKS_PER_DAY: nat := 864_000_000_000
  const DAY_1900: int := 693_596
  const DAY_1970: int := 719_163

  /** First and last day of chrono's calendar, of the years -262143 to 262142. */
  const MIN_DAY: int := -95_746_129
  const MAX_DAY: int := 95_745_399

  /** Seconds since midnight; a fraction of one second or more is a leap second. */
  datatype NaiveTime = NaiveTime(secs: nat, nanos: nat)
  datatype NaiveDateTime = NaiveDateTime(date: int, time: NaiveTime)
  datatype OffsetDateTime = OffsetDateTime(utc: NaiveDateTime, offset: int)

  /** The times chrono holds: `with_nanosecond` puts a leap fraction on any second. */
  predicate ValidTime(t: NaiveTime) {
    t.secs < DAY && t.nanos < 2 * SECOND
  }

  predicate ValidOffset(offset: int) {
    -(DAY as int) < offset < DAY as int
  }

  /** Rust's signed division, which rounds toward zero. */
  function TruncatingDiv(a: int, b: int): int
    requires b > 0
  {
    if a >= 0 then a / b else -(-a / b)
  }

  function AsU32(n: nat): nat {
    n % 0x1_0000_0000
  }

  function AsI32(n: nat): int
    requires n < 0x1_0000_0000
  {
    if n < 0x8000_0000 then n else n - 0x1_0000_0000
  }

  // ---------------------------------------------------------------------
  // Encoding
  // ---------------------------------------------------------------------

  function DateToSql(date: int): Option<SqlDate> {
    if 0 <= date - 1 <= LAST_SQL_DAY then Some(SqlDate(date - 1)) else None
  }

  function TimeToSql(t: NaiveTime): SqlTime {
    SqlTime((t.secs * 1_000_000_000 + t.nanos) / 100, DEFAULT_VARTIME_SCALE)
  }

  function DateTimeToSql(dt: NaiveDateTime): Option<SqlDateTime2> {
    match DateToSql(dt.date)
    case None => None
    case Some(d) => Some(SqlDateTime2(d.days, TimeToSql(dt.time)))
  }

  function OffsetToSql(dt: OffsetDateTime): Option<SqlDateTimeOffset> {
    match DateTimeToSql(dt.utc)
    case None => None
    case Some(d) => Some(SqlDateTimeOffset(d, TruncatingDiv(dt.offset, 60)))
  }

  // ---------------------------------------------------------------------
  // Decoding
  // ---------------------------------------------------------------------

  function DayFromCe(day: int): Option<int> {
    if MIN_DAY <= day <= MAX_DAY then Some(day) else None
  }

  function DateFromDays(days: nat): Option<int> {
    if days < 0x1_0000_0000 then DayFromCe(AsI32(days) + 1) else None
  }

  function TimeFromMidnight(secs: nat, nanos: nat): Option<NaiveTime> {
    var t := NaiveTime(secs, nanos);
    if ValidTime(t) && (nanos >= SECOND ==> secs % 60 == 59) then Some(t) else None
  }

  function TimeFromTicks(ticks: nat): Option<NaiveTime> {
    var total := ticks * 100;
    TimeFromMidnight(AsU32(total / 1_000_000_000), total % 1_000_000_000)
  }

  function Joined(date: Option<int>, time: Option<NaiveTime>): Option<NaiveDateTime> {
    if date.Some? && time.Some? then Some(NaiveDateTime(date.value, time.value)) else None
  }

  function DateTimeFromSql(dt: SqlDateTime2): Option<NaiveDateTime> {
    Joined(DateFromDays(dt.days), TimeFromTicks(dt.time.ticks))
  }

  function OffsetFromSql(dto: SqlDateTimeOffset): Option<OffsetDateTime> {
    match DateTimeFromSql(dto.datetime2)
    case None => None
    case Some(utc) =>
      if ValidOffset(dto.offset * 60) then Some(OffsetDateTime(utc, dto.offset * 60)) else None
  }

  /** `datetime` counts 1/300 s since midnight. */
  function LegacyTime(ticks: nat): Option<NaiveTime> {
    var ms := ticks * 10 / 3;
    TimeFromMidnight(AsU32(ms / 1000), AsU32((ms % 1000) * 1_000_000))
  }

  function LegacyFromSql(dt: SqlDateTime): Option<NaiveDateTime> {
    Joined(DayFromCe(DAY_1900 + dt.days), LegacyTime(dt.ticks))
  }

  function SmallFromSql(dt: SqlSmallDateTime): Option<NaiveDateTime> {
    Joined(DayFromCe(DAY_1900 + dt.days), TimeFromMidnight(dt.minutes * 60, 0))
  }

  // ---------------------------------------------------------------------
  // Round trips
  // ---------------------------------------------------------------------

  function Floored(t: NaiveTime): NaiveTime {
    NaiveTime(t.secs, t.nanos - t.nanos % 100)
  }

  /** Splitting nanoseconds since midnight gives back their seconds and their fraction. */
  lemma SplitSeconds(secs: nat, nanos: nat)
    requires nanos < SECOND
    ensures (secs * 1_000_000_000 + nanos) / 1_000_000_000 == secs
    ensures (secs * 1_000_000_000 + nanos) % 1_000_000_000 == nanos
  {
  }

  lemma TicksOfTime(t: NaiveTime)
    ensures TimeToSql(t).ticks == t.secs * 10_000_000 + t.nanos / 100
    ensures TimeToSql(t).ticks * 100 == t.secs * 1_000_000_000 + Floored(t).nanos
  {
    var n := t.nanos;
    assert t.secs * 1_000_000_000 + n == 100 * (t.secs * 10_000_000 + n / 100) + n % 100;
    assert (t.secs * 1_000_000_000 + n) / 100 == t.secs * 10_000_000 + n / 100;
  }

  /** What an encoded time reads back as: the time of a leap second falls into the next second, if the day has one. */
  function ReadBack(t: NaiveTime): Option<NaiveTime> {
    if t.nanos < SECOND then Some(Floored(t))
    else if t.secs == DAY - 1 then None
    else Some(NaiveTime(t.secs + 1, Floored(t).nanos - SECOND))
  }

  lemma SplitTicks(secs: nat, nanos: nat, ticks: nat)
    requires nanos < SECOND && secs <= DAY && ticks * 100 == secs * 1_000_000_000 + nanos
    ensures TimeFromTicks(ticks) == if secs < DAY then Some(NaiveTime(secs, nanos)) else None
  {
    SplitSeconds(secs, nanos);
  }

  /** Every time reads back as `ReadBack` says, which is itself floored to 100 ns exactly outside leap seconds. */
  lemma TimeRoundTrip(t: NaiveTime)
    requires ValidTime(t)
    ensures TimeFromTicks(TimeToSql(t).ticks) == ReadBack(t)
    ensures ReadBack(t) == Some(Floored(t)) <==> t.nanos < SECOND
    ensures t.nanos < SECOND ==> TimeToSql(t).ticks < TICKS_PER_DAY
  {
    hide TimeFromTicks;
    TicksOfTime(t);
    hide TimeToSql;
    if t.nanos < SECOND {
      SplitTicks(t.secs, Floored(t).nanos, TimeToSql(t).ticks);
    } else {
      SplitTicks(t.secs + 1, Floored(t).nanos - SECOND, TimeToSql(t).ticks);
    }
  }

  /** A leap second at the end of a day is encoded, and cannot be read again. */
  lemma LastLeapSecondIsLost()
    ensures ValidTime(NaiveTime(86_399, 1_500_000_000))
    ensures TimeFromTicks(TimeToSql(NaiveTime(86_399, 1_500_000_000)).ticks) == None
  {
  }

  /**
   A tick count is read exactly when its seconds, cut to 32 bits, are a time of day; it then encodes
   back to itself exactly when it lies within one day, since the cut drops the rest. The 40 bits of
   a TIME on the wire hold no count that the cut lets through.
   */
  lemma TicksRoundTrip(ticks: nat)
    ensures TimeFromTicks(ticks).Some? <==> ticks / 10_000_000 % 0x1_0000_0000 < DAY
    ensures ticks < TICKS_PER_DAY ==> TimeFromTicks(ticks).Some?
    ensures TimeFromTicks(ticks).Some? ==>
              (TimeToSql(TimeFromTicks(ticks).value) == SqlTime(ticks, DEFAULT_VARTIME_SCALE) <==> ticks < TICKS_PER_DAY)
    ensures ticks < 0x100_0000_0000 ==> (TimeFromTicks(ticks).Some? <==> ticks < TICKS_PER_DAY)
  {
    var secs, rest := ticks / 10_000_000, ticks % 10_000_000;
    SplitSeconds(secs, rest * 100);
    assert ticks * 100 == secs * 1_000_000_000 + rest * 100;
  }

  /** Day number of January 1st of a year, by the Gregorian rule of leap years. */
  function YearStart(year: int): int {
    var past := year - 1;
    365 * past + past / 4 - past / 100 + past / 400 + 1
  }

  /** The constants of the code are the days they stand for. */
  lemma EpochsAreDays()
    ensures DAY_1900 == YearStart(1900) && DAY_1970 == YearStart(1970)
    ensures LAST_SQL_DAY == YearStart(10_000) - YearStart(1) - 1
    ensures MIN_DAY == YearStart(-262_143) && MAX_DAY == YearStart(262_143) - 1
  {
  }

  /** 0001-01-01 is day 0 on the wire and each next date the next day, up to 9999-12-31. */
  lemma DatesCountUp(date: int)
    ensures DateToSql(YearStart(1)) == Some(SqlDate(0))
    ensures YearStart(1) <= date < YearStart(10_000) - 1 ==>
              && DateToSql(date).Some? && DateToSql(date + 1).Some?
              && DateToSql(date + 1).value.days == DateToSql(date).value.days + 1
  {
  }

  /** A date is encoded exactly from 0001-01-01 to 9999-12-31, and is then read back as itself. */
  lemma DateRoundTrip(date: int)
    ensures DateToSql(date).Some? <==> 1 <= date <= 3_652_059
    ensures DateToSql(date).Some? ==> DateFromDays(DateToSql(date).value.days) == Some(date)
  {
  }

  /** Ticks of about 2^32 seconds, beyond any TIME on the wire, read as midnight. */
  lemma CutTicksReadAsMidnight()
    ensures TimeFromTicks(0x1_0000_0000 * 10_000_000) == Some(NaiveTime(0, 0))
  {
  }

  /** Date and time read back together, or not at all. */
  lemma DateTimeRoundTrip(dt: NaiveDateTime)
    requires ValidTime(dt.time) && DateToSql(dt.date).Some?
    ensures DateTimeFromSql(DateTimeToSql(dt).value) == Joined(Some(dt.date), ReadBack(dt.time))
    ensures DateTimeFromSql(DateTimeToSql(dt).value) == Some(NaiveDateTime(dt.date, Floored(dt.time)))
       <==> dt.time.nanos < SECOND
  {
    TimeRoundTrip(dt.time);
    DateRoundTrip(dt.date);
  }

  lemma WholeMinutes(offset: int)
    requires ValidOffset(offset)
    ensures var back := TruncatingDiv(offset, 60) * 60;
      && ValidOffset(back)
      && (back == offset <==> offset % 60 == 0)
      && -60 < back - offset < 60
      && (offset >= 0 ==> 0 <= back <= offset)
      && (offset <= 0 ==> offset <= back <= 0)
  {
  }

  /** The wire holds the UTC date and time, and the offset's whole minutes with its sign. */
  lemma OffsetIsUtcAndMinutes(dt: OffsetDateTime)
    requires ValidOffset(dt.offset) && DateToSql(dt.utc.date).Some?
    ensures var sql := OffsetToSql(dt).value;
      && Some(sql.datetime2) == DateTimeToSql(dt.utc)
      && -60 < sql.offset * 60 - dt.offset < 60
      && (dt.offset >= 0 ==> 0 <= sql.offset * 60 <= dt.offset)
      && (dt.offset <= 0 ==> dt.offset <= sql.offset * 60 <= 0)
  {
    WholeMinutes(dt.offset);
    hide TruncatingDiv;
  }

  /**
   The UTC instant survives for every offset, as date and time read back without one. The offset
   loses its seconds toward zero, so it survives exactly when it is a whole number of minutes.
   */
  lemma OffsetRoundTrip(dt: OffsetDateTime)
    requires ValidTime(dt.utc.time) && ValidOffset(dt.offset) && DateToSql(dt.utc.date).Some?
    ensures var back, utc := OffsetFromSql(OffsetToSql(dt).value), Joined(Some(dt.utc.date), ReadBack(dt.utc.time));
      && (back.Some? <==> utc.Some?)
      && (back.Some? ==>
            && back.value.utc == utc.value
            && (back.value.offset == dt.offset <==> dt.offset % 60 == 0)
            && -60 < back.value.offset - dt.offset < 60
            && (dt.offset >= 0 ==> 0 <= back.value.offset <= dt.offset)
            && (dt.offset <= 0 ==> dt.offset <= back.value.offset <= 0))
  {
    DateTimeRoundTrip(dt.utc);
    WholeMinutes(dt.offset);
    hide DateTimeFromSql;
    hide ReadBack;
    hide TruncatingDiv;
  }

  // ---------------------------------------------------------------------
  // The three date libraries
  // ---------------------------------------------------------------------

  datatype Ymd = Ymd(year: int, month: nat, day: nat)

  /** Clock fields, as the `time` and `jiff` crates hold them. */
  datatype Clock = Clock(hour: nat, minute: nat, second: nat, nanos: nat)

  /** Date and clock fields in UTC. */
  datatype Civil = Civil(date: Ymd, clock: Clock)

  /** chrono's calendar: the day number of the dates that exist, and back. */
  datatype Calendar = Calendar(number: Ymd -> Option<int>, fields: int -> Ymd)

  ghost predicate Gregorian(cal: Calendar) {
    && (forall f :: cal.number(f).Some? ==> cal.fields(cal.number(f).value) == f)
    && (forall d | MIN_DAY <= d <= MAX_DAY :: cal.number(cal.fields(d)) == Some(d))
    && (forall d | 1 <= d <= LAST_SQL_DAY + 1 :: 1 <= cal.fields(d).year <= 9999)
  }

  predicate ValidClock(c: Clock) {
    c.hour < 24 && c.minute < 60 && c.second < 60 && c.nanos < SECOND
  }

  function AsI16(n: int): int {
    (n + 0x8000) % 0x1_0000 - 0x8000
  }

  function ClockToSql(c: Clock): SqlTime {
    var nanos := c.hour * 3_600_000_000_000 + c.minute * 60_000_000_000 + c.second * 1_000_000_000 + c.nanos;
    SqlTime(nanos / 100, DEFAULT_VARTIME_SCALE)
  }

  function YmdToSql(cal: Calendar, f: Ymd): Option<SqlDate> {
    match cal.number(f)
    case None => None
    case Some(day) => DateToSql(day)
  }

  function CivilToSql(cal: Calendar, c: Civil): Option<SqlDateTime2> {
    match YmdToSql(cal, c.date)
    case None => None
    case Some(d) => Some(SqlDateTime2(d.days, ClockToSql(c.clock)))
  }

  function LocalToSql(cal: Calendar, utc: Civil, offset: int): Option<SqlDateTimeOffset> {
    match CivilToSql(cal, utc)
    case None => None
    case Some(d) => Some(SqlDateTimeOffset(d, TruncatingDiv(offset, 60)))
  }

  /** Both crates accept years -9999 to 9999; `jiff` is handed a year cut to 16 bits. */
  function TimeDate(cal: Calendar, day: int): Option<Ymd> {
    var f := cal.fields(day);
    if -9999 <= f.year <= 9999 then Some(f) else None
  }

  function JiffDate(cal: Calendar, day: int): Option<Ymd> {
    var f := cal.fields(day);
    var g := f.(year := AsI16(f.year));
    if -9999 <= g.year <= 9999 && cal.number(g).Some? then Some(g) else None
  }

  /** The readers of both crates go through chrono's hour, minute, second and nanosecond. */
  function ClockFromChrono(t: NaiveTime): Option<Clock> {
    var c := Clock(t.secs / 3600, t.secs / 60 % 60, t.secs % 60, t.nanos);
    if ValidClock(c) then Some(c) else None
  }

  function CivilOf(date: Option<Ymd>, clock: Option<Clock>): Option<Civil> {
    if date.Some? && clock.Some? then Some(Civil(date.value, clock.value)) else None
  }

  function TimeCivil(cal: Calendar, dt: NaiveDateTime): Option<Civil> {
    CivilOf(TimeDate(cal, dt.date), ClockFromChrono(dt.time))
  }

  function JiffCivil(cal: Calendar, dt: NaiveDateTime): Option<Civil> {
    CivilOf(JiffDate(cal, dt.date), ClockFromChrono(dt.time))
  }

  /** Seconds and nanoseconds since 1970. */
  datatype Timestamp = Timestamp(secs: int, nanos: nat)

  function TimestampOf(utc: NaiveDateTime): Timestamp {
    Timestamp((utc.date - DAY_1970) * 86_400 + utc.time.secs, utc.time.nanos)
  }

  /** The chrono value with the same fields. */
  function ChronoTime(c: Clock): NaiveTime {
    NaiveTime(c.hour * 3600 + c.minute * 60 + c.second, c.nanos)
  }

  function ChronoOf(cal: Calendar, c: Civil): NaiveDateTime
    requires cal.number(c.date).Some?
  {
    NaiveDateTime(cal.number(c.date).value, ChronoTime(c.clock))
  }

  lemma ClockIsChrono(c: Clock)
    requires ValidClock(c)
    ensures ValidTime(ChronoTime(c)) && ClockToSql(c) == TimeToSql(ChronoTime(c))
    ensures ClockFromChrono(Floored(ChronoTime(c))) == Some(c.(nanos := c.nanos - c.nanos % 100))
  {
    var secs := c.hour * 3600 + c.minute * 60 + c.second;
    assert secs / 60 == c.hour * 60 + c.minute;
  }

  /** Equal fields are encoded equally by every library, alone, together and with an offset. */
  lemma LibrariesAgree(cal: Calendar, c: Civil, offset: int)
    requires cal.number(c.date).Some? && ValidClock(c.clock)
    ensures YmdToSql(cal, c.date) == DateToSql(ChronoOf(cal, c).date)
    ensures ClockToSql(c.clock) == TimeToSql(ChronoOf(cal, c).time)
    ensures CivilToSql(cal, c) == DateTimeToSql(ChronoOf(cal, c))
    ensures LocalToSql(cal, c, offset) == OffsetToSql(OffsetDateTime(ChronoOf(cal, c), offset))
  {
    ClockIsChrono(c.clock);
  }

  function FlooredCivil(c: Civil): Civil {
    c.(clock := c.clock.(nanos := c.clock.nanos - c.clock.nanos % 100))
  }

  /** Both other crates read every encoded date and time back, floored to 100 ns. */
  lemma CivilRoundTrip(cal: Calendar, c: Civil)
    requires Gregorian(cal) && ValidClock(c.clock) && CivilToSql(cal, c).Some?
    ensures var dt := DateTimeFromSql(CivilToSql(cal, c).value);
      && dt == Some(NaiveDateTime(ChronoOf(cal, c).date, Floored(ChronoOf(cal, c).time)))
      && TimeCivil(cal, dt.value) == Some(FlooredCivil(c)) && JiffCivil(cal, dt.value) == Some(FlooredCivil(c))
  {
    LibrariesAgree(cal, c, 0);
    ClockIsChrono(c.clock);
    hide ClockToSql;
    hide ClockFromChrono;
    hide DateTimeFromSql;
    DateTimeRoundTrip(ChronoOf(cal, c));
  }

  /** The largest offset, 25:59:59, that the other crates hold. */
  const MAX_OFFSET: int := 93_599

  /**
   The types of the other crates that carry an offset: the UTC fields come back floored to 100 ns, and the
   same instant with them; the offset comes back as whole minutes toward zero, so it survives exactly when
   it is whole minutes. An offset of a day or more is encoded and cannot be read.
   */
  lemma LocalRoundTrip(cal: Calendar, c: Civil, offset: int)
    requires Gregorian(cal) && ValidClock(c.clock) && CivilToSql(cal, c).Some? && -MAX_OFFSET <= offset <= MAX_OFFSET
    ensures LocalToSql(cal, c, offset).Some?
    ensures var back := OffsetFromSql(LocalToSql(cal, c, offset).value);
      && (back.Some? <==> ValidOffset(offset))
      && (back.Some? ==>
            && TimeCivil(cal, back.value.utc) == Some(FlooredCivil(c))
            && TimestampOf(back.value.utc) == TimestampOf(ChronoOf(cal, FlooredCivil(c)))
            && back.value.offset == TruncatingDiv(offset, 60) * 60
            && (back.value.offset == offset <==> offset % 60 == 0))
  {
    CivilRoundTrip(cal, c);
    if ValidOffset(offset) {
      WholeMinutes(offset);
    }
    hide CivilToSql;
    hide DateTimeFromSql;
    hide TimeCivil;
    hide JiffCivil;
  }

  /** An offset of one day is encoded and cannot be read again. */
  lemma DayOffsetIsLost(cal: Calendar, c: Civil)
    requires Gregorian(cal) && ValidClock(c.clock) && CivilToSql(cal, c).Some?
    ensures LocalToSql(cal, c, 86_400).Some? && OffsetFromSql(LocalToSql(cal, c, 86_400).value) == None
  {
    LocalRoundTrip(cal, c, 86_400);
  }

  // ---------------------------------------------------------------------
  // Legacy datetime
  // ---------------------------------------------------------------------

  function NanosOfDay(t: NaiveTime): nat {
    t.secs * SECOND + t.nanos
  }

  /** Below 25,920,000 every 32-bit count is a time of day; from there on none is. */
  lemma LegacyTicksInDay(ticks: nat)
    requires ticks < 0x1_0000_0000
    ensures LegacyTime(ticks).Some? <==> ticks < 25_920_000
    ensures LegacyTime(ticks).Some? ==> NanosOfDay(LegacyTime(ticks).value) == ticks * 10 / 3 * 1_000_000
  {
  }

  /** It is the time of day, in 1/300 s, cut to whole milliseconds. */
  lemma LegacyTicksAreThreeHundredths(ticks: nat)
    requires ticks < 25_920_000
    ensures LegacyTime(ticks).Some?
    ensures var nanos := NanosOfDay(LegacyTime(ticks).value);
      nanos % 1_000_000 == 0 && 0 <= ticks * 1_000_000_000 - 300 * nanos < 300 * 1_000_000
  {
    LegacyTicksInDay(ticks);
  }

  /** DATETIME counts days from 1900-01-01, before it too. */
  lemma LegacyDate(dt: SqlDateTime)
    requires dt.ticks < 0x1_0000_0000
    ensures LegacyFromSql(dt).Some? <==> dt.ticks < 25_920_000 && MIN_DAY <= YearStart(1900) + dt.days <= MAX_DAY
    ensures LegacyFromSql(dt).Some? ==>
              LegacyFromSql(dt).value.date == YearStart(1900) + dt.days && Some(LegacyFromSql(dt).value.time) == LegacyTime(dt.ticks)
  {
    LegacyTicksInDay(dt.ticks);
    hide LegacyTime;
  }

  /** SMALLDATETIME counts days from 1900-01-01 and minutes of the day. */
  lemma SmallDate(dt: SqlSmallDateTime)
    requires dt.days < 0x1_0000 && dt.minutes < 0x1_0000
    ensures SmallFromSql(dt)
         == if dt.minutes < 24 * 60 then Some(NaiveDateTime(YearStart(1900) + dt.days, NaiveTime(60 * dt.minutes, 0))) else None
  {
  }

  lemma LegacyTicksStrictlyIncrease(a: nat, b: nat)
    requires a < b < 25_920_000
    ensures LegacyTime(a).Some? && LegacyTime(b).Some?
    ensures NanosOfDay(LegacyTime(a).value) < NanosOfDay(LegacyTime(b).value)
    ensures LegacyTime(a) != LegacyTime(b)
  {
    LegacyTicksInDay(a);
    LegacyTicksInDay(b);
    assert a * 10 / 3 < b * 10 / 3;
  }
}
