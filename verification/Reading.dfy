/**
 What typed access reads (src/row.rs, src/compat/conversion.rs), in terms of what a cell denotes and
 of what the encoders write.
 */
module Reading {
  import opened Wrappers
  import opened Values
  import opened Temporal
  import opened Conversion
  import opened Rows
  import M = Meanings

  /** Row `row` has `cell` at position `i`. */
  predicate Has(row: Row, i: nat, cell: ColumnValues) {
    Faithful(row) && i < |row.values| && row.values[i] == cell
  }

  // ---------------------------------------------------------------------
  // Columns
  // ---------------------------------------------------------------------

  /** Access by position reaches that cell, and past the last one it is an error. */
  lemma ByPosition(given: Given, row: Row, i: nat, target: Target)
    requires Faithful(row)
    ensures Get(given, row, Index(i), target).Ok? <==> i < |row.values|
    ensures i >= |row.values| ==> Get(given, row, Index(i), target) == Err(ColumnIndexOutOfBounds(i, |row.values|))
    ensures i < |row.values| ==>
              Get(given, row, Index(i), target) == Ok(FromSqlWithStr(given, target, row.values[i], DecodedText(row.values[i])))
  {
    hide FromSqlWithStr;
  }

  lemma NamePosition(row: Row, name: string, i: nat)
    requires Indexed(row.schema.columns, row.schema.nameMap) && FirstNamed(row.schema.columns, name, i)
    ensures ColumnIndex(row.schema, name) == Some(i)
  {
    assert row.schema.columns[i].name in row.schema.nameMap;
    assert FirstNamed(row.schema.columns, name, row.schema.nameMap[name]);
  }

  /** Access by name is access to the first column of exactly that name. */
  lemma ByName(given: Given, row: Row, name: string, i: nat, target: Target)
    requires Faithful(row)
    requires Indexed(row.schema.columns, row.schema.nameMap) && FirstNamed(row.schema.columns, name, i)
    ensures Get(given, row, Name(name), target) == Get(given, row, Index(i), target)
    ensures GetCompat(given, row, Name(name), target) == GetCompat(given, row, Index(i), target)
  {
    NamePosition(row, name, i);
    hide FromSqlWithStr;
    hide CompatDecode;
  }

  /** A name that no column has is an error, whatever its case. */
  lemma ByUnknownName(given: Given, row: Row, name: string, target: Target)
    requires Indexed(row.schema.columns, row.schema.nameMap)
    requires forall k | 0 <= k < |row.schema.columns| :: row.schema.columns[k].name != name
    ensures Get(given, row, Name(name), target) == Err(ColumnNotFound(name))
    ensures GetCompat(given, row, Name(name), target) == Err(ColumnNotFound(name))
  {
    assert name in row.schema.nameMap ==> FirstNamed(row.schema.columns, name, row.schema.nameMap[name]);
  }

  /** Access up to case is access to the best match, and an error when nothing matches. */
  lemma ByNameIgnoringCase(given: Given, row: Row, name: string, i: nat, target: Target)
    requires Indexed(row.schema.columns, row.schema.nameMap)
    ensures BestMatch(row.schema.columns, name, i) ==> GetCi(given, row, name, target) == Get(given, row, Index(i), target)
    ensures (forall k | 0 <= k < |row.schema.columns| :: !EqIgnoreAsciiCase(row.schema.columns[k].name, name)) ==>
              GetCi(given, row, name, target) == Err(ColumnNotFound(name))
  {
    LookupFindsBestMatch(row.schema, name);
    hide Get;
    var found := ResolveNameCi(row.schema, name);
    hide ResolveNameCi;
    if BestMatch(row.schema.columns, name, i) {
      BestMatchMatches(row.schema.columns, name, i);
      hide EqIgnoreAsciiCase;
      assert found.Ok?;
      BestMatchIsUnique(row.schema.columns, name, i, found.value);
    }
  }

  lemma BestMatchMatches(columns: seq<Column>, name: string, i: nat)
    requires BestMatch(columns, name, i)
    ensures i < |columns| && EqIgnoreAsciiCase(columns[i].name, name)
  {
  }

  lemma BestMatchIsUnique(columns: seq<Column>, name: string, i: nat, j: nat)
    requires BestMatch(columns, name, i) && BestMatch(columns, name, j)
    ensures i == j
  {
    hide EqIgnoreAsciiCase;
  }

  // ---------------------------------------------------------------------
  // Cells without a date or time
  // ---------------------------------------------------------------------

  function Denoted(cell: ColumnValues): Option<M.Denotation> {
    if cell.Null? then None else Some(M.OfCell(cell))
  }

  /** Bits of the integer types. */
  function Width(target: Target): nat {
    match target
    case TU8 => 8
    case TI16 => 16
    case TI32 => 32
    case TI64 => 64
    case _ => 0
  }

  lemma CellOf(given: Given, row: Row, i: nat, target: Target)
    requires Faithful(row) && i < |row.values|
    ensures Get(given, row, Index(i), target)
         == Ok(if target.TStr? then (match DecodedText(row.values[i]) case None => None case Some(t) => Some(VText(t)))
               else FromSql(given, target, row.values[i]))
  {
    hide FromSql;
  }

  /** An integer type reads the number of every integer cell as wide as itself or narrower, and nothing else. */
  lemma ReadsIntegers(given: Given, row: Row, i: nat, target: Target)
    requires Faithful(row) && i < |row.values| && Width(target) > 0
    ensures Get(given, row, Index(i), target)
         == Ok(match Denoted(row.values[i])
               case Some(Whole(bits, Some(n))) => if bits <= Width(target) then Some(VInt(n)) else None
               case _ => None)
  {
    CellOf(given, row, i, target);
    hide Get;
    hide DecodedText;
    hide CalendarFromSql;
  }

  /** Flags, floats, identifiers and bytes are read as they are, a single also as a double, and from nothing else. */
  lemma ReadsPayloads(given: Given, row: Row, i: nat, target: Target)
    requires Faithful(row) && i < |row.values|
    requires target.TBool? || target.TF32? || target.TF64? || target.TUuid? || target.TVec? || target.TSlice?
    ensures Get(given, row, Index(i), target)
         == Ok(match Denoted(row.values[i])
               case Some(Flag(Some(b))) => if target.TBool? then Some(VBool(b)) else None
               case Some(Approximate(bits, Some(p))) =>
                 if bits == 64 && target.TF64? then Some(VF64(p))
                 else if bits == 32 && target.TF64? then Some(VWidened(p))
                 else if bits == 32 && target.TF32? then Some(VF32(p))
                 else None
               case Some(Identifier(Some(id))) => if target.TUuid? then Some(VUuid(id)) else None
               case Some(Bytestring(Some(b))) => if target.TVec? || target.TSlice? then Some(VBytes(b)) else None
               case _ => None)
  {
    CellOf(given, row, i, target);
    hide Get;
    hide DecodedText;
    hide CalendarFromSql;
  }

  /** Owned and borrowed text alike are read from text, XML and JSON cells, and from nothing else. */
  lemma ReadsText(given: Given, row: Row, i: nat, target: Target)
    requires Faithful(row) && i < |row.values| && (target.TString? || target.TStr?)
    ensures Get(given, row, Index(i), target)
         == Ok(match Denoted(row.values[i])
               case Some(Words(Some(t))) => Some(VText(t))
               case Some(XmlWords(Some(t))) => Some(VText(t))
               case Some(JsonWords(Some(t))) => Some(VText(t))
               case _ => None)
  {
    CellOf(given, row, i, target);
    hide Get;
    hide CalendarFromSql;
  }

  /** JSON and decimals are what the parsers make of the cell; money is a count of 1/10000. */
  lemma ReadsParsed(given: Given, row: Row, i: nat, target: Target)
    requires Faithful(row) && i < |row.values| && (target.TJson? || target.TDecimal?)
    ensures Get(given, row, Index(i), target)
         == Ok(match Denoted(row.values[i])
               case Some(Words(Some(t))) => if target.TJson? then ParsedJson(given, t) else None
               case Some(JsonWords(Some(t))) => if target.TJson? then ParsedJson(given, t) else None
               case Some(Exactly(Some(p))) => if target.TDecimal? then ParsedDecimal(given, p) else None
               case Some(SmallCash(Some(m))) => if target.TDecimal? then Some(VMoney(m.units)) else None
               case Some(Cash(Some(m))) => if target.TDecimal? then Some(VMoney(MoneyUnits(m))) else None
               case _ => None)
  {
    CellOf(given, row, i, target);
    hide Get;
    hide DecodedText;
    hide CalendarFromSql;
  }

  function ParsedJson(given: Given, text: string): Option<Value> {
    match given.parseJson(text)
    case None => None
    case Some(j) => Some(VJson(j))
  }

  function ParsedDecimal(given: Given, parts: DecimalParts): Option<Value> {
    match given.parseDecimal(parts)
    case None => None
    case Some(d) => Some(VDecimal(d))
  }

  /** The two halves of a MONEY are the high and the low 32 bits of its count, the low one without its sign. */
  lemma MoneyIsTwoHalves(m: SqlMoney)
    requires -0x8000_0000 <= m.lsb < 0x8000_0000 && -0x8000_0000 <= m.msb < 0x8000_0000
    ensures MoneyUnits(m) / 0x1_0000_0000 == m.msb
    ensures (MoneyUnits(m) - m.lsb) % 0x1_0000_0000 == 0
    ensures -0x8000_0000_0000_0000 <= MoneyUnits(m) < 0x8000_0000_0000_0000
  {
  }

  // ---------------------------------------------------------------------
  // Dates and times
  // ---------------------------------------------------------------------

  /** The cells each date or time type looks at. */
  predicate Dated(target: Target, cell: ColumnValues) {
    match target
    case TNaiveDate | TTimeDate | TJiffDate => cell.Date? || cell.DateTime2? || cell.DateTime?
    case TNaiveTime | TTimeTime | TJiffTime => cell.Time?
    case TNaiveDateTime | TTimePrimitive | TJiffDateTime => cell.DateTime2? || cell.DateTime? || cell.SmallDateTime?
    case TDateTimeOffset | TTimeOffset | TJiffTimestamp | TJiffZoned => cell.DateTimeOffset?
    case _ => false
  }

  lemma ReadsNoOtherCell(given: Given, row: Row, i: nat, target: Target)
    requires Faithful(row) && i < |row.values| && Calendrical(target) && !Dated(target, row.values[i])
    ensures Get(given, row, Index(i), target) == Ok(None)
  {
    CellOf(given, row, i, target);
    hide Get;
    hide DecodedText;
    hide PlainFromSql;
  }

  lemma CalendarCell(given: Given, row: Row, i: nat, cell: ColumnValues, target: Target)
    requires Has(row, i, cell) && Calendrical(target)
    ensures Get(given, row, Index(i), target) == Ok(CalendarFromSql(given, target, cell))
  {
    CellOf(given, row, i, target);
    hide Get;
    hide DecodedText;
    hide PlainFromSql;
    hide CalendarFromSql;
  }

  /** A date is read back as encoded, as chrono's date and as the fields of the other crates. */
  lemma ReadsEncodedDate(given: Given, row: Row, i: nat, date: int)
    requires DateToSql(date).Some? && Has(row, i, ColumnValues.Date(DateToSql(date).value)) && Gregorian(given.calendar)
    ensures Get(given, row, Index(i), TNaiveDate) == Ok(Some(VDate(date)))
    ensures Get(given, row, Index(i), TTimeDate) == Ok(Some(VYmd(given.calendar.fields(date))))
    ensures Get(given, row, Index(i), TJiffDate) == Ok(Some(VYmd(given.calendar.fields(date))))
  {
    var cell := ColumnValues.Date(DateToSql(date).value);
    CalendarCell(given, row, i, cell, TNaiveDate);
    CalendarCell(given, row, i, cell, TTimeDate);
    CalendarCell(given, row, i, cell, TJiffDate);
    DateRoundTrip(date);
    hide Get;
    hide DateFromDays;
  }

  /** A time is read back as `ReadBack` says, with the same clock fields by the other crates. */
  lemma ReadsEncodedTime(given: Given, row: Row, i: nat, t: NaiveTime)
    requires ValidTime(t) && Has(row, i, ColumnValues.Time(TimeToSql(t)))
    ensures Get(given, row, Index(i), TNaiveTime) == Ok(match ReadBack(t) case None => None case Some(r) => Some(VTime(r)))
    ensures var clock := match ReadBack(t) case None => None case Some(r) => Some(VClock(FieldsOf(r)));
      Get(given, row, Index(i), TTimeTime) == Ok(clock) && Get(given, row, Index(i), TJiffTime) == Ok(clock)
  {
    var cell := ColumnValues.Time(TimeToSql(t));
    CalendarCell(given, row, i, cell, TNaiveTime);
    CalendarCell(given, row, i, cell, TTimeTime);
    CalendarCell(given, row, i, cell, TJiffTime);
    TimeRoundTrip(t);
    ReadBackIsValid(t);
    if ReadBack(t).Some? {
      FieldsAreRead(ReadBack(t).value);
    }
    hide Get;
    hide TimeFromTicks;
    hide ReadBack;
    hide FieldsOf;
    hide ClockFromChrono;
  }

  /** The clock fields of a time. */
  function FieldsOf(t: NaiveTime): Clock {
    Clock(t.secs / 3600, t.secs % 3600 / 60, t.secs % 60, t.nanos)
  }

  lemma FieldsAreRead(t: NaiveTime)
    requires t.secs < DAY && t.nanos < SECOND
    ensures ClockFromChrono(t) == Some(FieldsOf(t)) && ChronoTime(FieldsOf(t)) == t
  {
    assert t.secs % 3600 / 60 == t.secs / 60 % 60;
  }

  lemma ReadBackIsValid(t: NaiveTime)
    requires ValidTime(t)
    ensures ReadBack(t).Some? ==> ReadBack(t).value.secs < DAY && ReadBack(t).value.nanos < SECOND
  {
  }

  /** Date and time are read back together, and the date alone as well. */
  lemma ReadsEncodedDateTime(given: Given, row: Row, i: nat, dt: NaiveDateTime)
    requires ValidTime(dt.time) && DateTimeToSql(dt).Some? && Has(row, i, ColumnValues.DateTime2(DateTimeToSql(dt).value))
    ensures Get(given, row, Index(i), TNaiveDateTime)
         == Ok(match ReadBack(dt.time) case None => None case Some(r) => Some(VDateTime(NaiveDateTime(dt.date, r))))
    ensures Get(given, row, Index(i), TNaiveDate) == Ok(Some(VDate(dt.date)))
  {
    var cell := ColumnValues.DateTime2(DateTimeToSql(dt).value);
    CalendarCell(given, row, i, cell, TNaiveDateTime);
    CalendarCell(given, row, i, cell, TNaiveDate);
    DateTimeRoundTrip(dt);
    DateRoundTrip(dt.date);
    hide Get;
    hide DateFromDays;
    hide DateTimeFromSql;
    hide ReadBack;
    hide TimeToSql;
  }

  /** The other crates read back the fields they encoded, floored to 100 ns. */
  lemma ReadsEncodedCivil(given: Given, row: Row, i: nat, c: Civil)
    requires Gregorian(given.calendar) && ValidClock(c.clock) && CivilToSql(given.calendar, c).Some?
    requires Has(row, i, ColumnValues.DateTime2(CivilToSql(given.calendar, c).value))
    ensures Get(given, row, Index(i), TTimePrimitive) == Ok(Some(VCivil(FlooredCivil(c))))
    ensures Get(given, row, Index(i), TJiffDateTime) == Ok(Some(VCivil(FlooredCivil(c))))
  {
    var cell := ColumnValues.DateTime2(CivilToSql(given.calendar, c).value);
    CalendarCell(given, row, i, cell, TTimePrimitive);
    CalendarCell(given, row, i, cell, TJiffDateTime);
    CivilRoundTrip(given.calendar, c);
    hide Get;
    hide CivilToSql;
    hide DateTimeFromSql;
    hide TimeCivil;
    hide JiffCivil;
    hide FlooredCivil;
  }

  /** A moment with an offset is read back in UTC, with its offset in whole minutes toward zero. */
  lemma ReadsEncodedOffset(given: Given, row: Row, i: nat, dt: OffsetDateTime)
    requires ValidTime(dt.utc.time) && ValidOffset(dt.offset) && OffsetToSql(dt).Some?
    requires Has(row, i, ColumnValues.DateTimeOffset(OffsetToSql(dt).value))
    ensures var minutes := if dt.offset >= 0 then dt.offset / 60 else -(-dt.offset / 60);
      Get(given, row, Index(i), TDateTimeOffset)
      == Ok(match ReadBack(dt.utc.time)
            case None => None
            case Some(r) => Some(VOffset(OffsetDateTime(NaiveDateTime(dt.utc.date, r), minutes * 60))))
  {
    var cell := ColumnValues.DateTimeOffset(OffsetToSql(dt).value);
    CalendarCell(given, row, i, cell, TDateTimeOffset);
    DateTimeRoundTrip(dt.utc);
    hide Get;
    hide DateTimeFromSql;
    hide ReadBack;
    hide DateTimeToSql;
  }

  /** So it is by the other crates, `jiff` reading instants within its range only. */
  lemma ReadsEncodedLocal(given: Given, row: Row, i: nat, c: Civil, offset: int)
    requires Gregorian(given.calendar) && ValidClock(c.clock) && ValidOffset(offset)
    requires CivilToSql(given.calendar, c).Some? && LocalToSql(given.calendar, c, offset).Some?
    requires Has(row, i, ColumnValues.DateTimeOffset(LocalToSql(given.calendar, c, offset).value))
    ensures var minutes := if offset >= 0 then offset / 60 else -(-offset / 60);
      Get(given, row, Index(i), TTimeOffset) == Ok(Some(VLocal(FlooredCivil(c), minutes * 60)))
    ensures given.calendar.number(FlooredCivil(c).date).Some?
    ensures var minutes := if offset >= 0 then offset / 60 else -(-offset / 60);
      var instant := TimestampOf(ChronoOf(given.calendar, FlooredCivil(c)));
      && Get(given, row, Index(i), TJiffTimestamp) == Ok(if given.isInstant(instant) then Some(VTimestamp(instant)) else None)
      && Get(given, row, Index(i), TJiffZoned)
      == Ok(if given.isInstant(instant) then Some(VZoned(instant, minutes * 60)) else None)
  {
    var cell := ColumnValues.DateTimeOffset(LocalToSql(given.calendar, c, offset).value);
    CalendarCell(given, row, i, cell, TTimeOffset);
    CalendarCell(given, row, i, cell, TJiffTimestamp);
    CalendarCell(given, row, i, cell, TJiffZoned);
    LocalRoundTrip(given.calendar, c, offset);
    hide Get;
    hide LocalToSql;
    hide CivilToSql;
    hide OffsetFromSql;
    hide TimeCivil;
  }

  /** DATETIME is read as days from 1900-01-01 and its time of day, the date alone whatever the time. */
  lemma ReadsLegacy(given: Given, row: Row, i: nat, d: SqlDateTime)
    requires Has(row, i, ColumnValues.DateTime(d)) && d.ticks < 0x1_0000_0000
    ensures var day := YearStart(1900) + d.days;
      && Get(given, row, Index(i), TNaiveDate) == Ok(if MIN_DAY <= day <= MAX_DAY then Some(VDate(day)) else None)
      && (d.ticks >= 25_920_000 ==> Get(given, row, Index(i), TNaiveDateTime) == Ok(None))
      && (d.ticks < 25_920_000 ==>
            && LegacyTime(d.ticks).Some?
            && Get(given, row, Index(i), TNaiveDateTime)
            == Ok(if MIN_DAY <= day <= MAX_DAY then Some(VDateTime(NaiveDateTime(day, LegacyTime(d.ticks).value))) else None))
  {
    CalendarCell(given, row, i, ColumnValues.DateTime(d), TNaiveDate);
    CalendarCell(given, row, i, ColumnValues.DateTime(d), TNaiveDateTime);
    LegacyTicksInDay(d.ticks);
    LegacyDate(d);
    hide Get;
    hide LegacyTime;
  }

  /** SMALLDATETIME is read as days from 1900-01-01 and minutes of the day. */
  lemma ReadsSmall(given: Given, row: Row, i: nat, d: SqlSmallDateTime)
    requires Has(row, i, ColumnValues.SmallDateTime(d)) && d.days < 0x1_0000 && d.minutes < 0x1_0000
    ensures Get(given, row, Index(i), TNaiveDateTime)
         == Ok(if d.minutes >= 24 * 60 then None
               else Some(VDateTime(NaiveDateTime(YearStart(1900) + d.days, NaiveTime(60 * d.minutes, 0)))))
  {
    CalendarCell(given, row, i, ColumnValues.SmallDateTime(d), TNaiveDateTime);
    SmallDate(d);
    hide Get;
    hide SmallFromSql;
  }

  // ---------------------------------------------------------------------
  // Compatibility access
  // ---------------------------------------------------------------------

  /** The compatibility values of a row denote its cells, one by one; they are owned, and empty for NULLs. */
  lemma CompatValuesKeep(row: Row)
    requires Faithful(row)
    ensures |BuildCompatValues(row)| == |row.values|
    ensures forall i | 0 <= i < |row.values| ::
              var data := BuildCompatValues(row)[i];
              && IntoOwned(data) == data
              && if row.values[i].Null? then M.Nothing(M.OfData(data)) else M.OfData(data) == M.OfCell(row.values[i])
  {
    forall i | 0 <= i < |row.values|
      ensures var data := BuildCompatValues(row)[i];
        && IntoOwned(data) == data
        && if row.values[i].Null? then M.Nothing(M.OfData(data)) else M.OfData(data) == M.OfCell(row.values[i])
    {
      CompatValueAt(row, i);
      var seen := ColumnDataRef(row.values[i], DecodedText(row.values[i]), TypeAt(row.schema, i));
      M.CellViewKeeps(row.values[i], DecodedText(row.values[i]), TypeAt(row.schema, i));
      M.IntoOwnedKeeps(seen);
      OwnedTwice(seen);
      hide IntoOwned;
      hide ColumnDataRef;
      hide M.OfData;
      hide M.OfCell;
      hide M.Nothing;
    }
  }

  lemma OwnedTwice(data: ColumnData)
    ensures IntoOwned(IntoOwned(data)) == IntoOwned(data)
  {
  }

  /** The one kind of cell, or the few, that compatibility access accepts for a type. */
  predicate OwnKind(target: Target, cell: ColumnValues) {
    match target
    case TBool => cell.Bit?
    case TU8 => cell.TinyInt?
    case TI16 => cell.SmallInt?
    case TI32 => cell.Int?
    case TI64 => cell.BigInt?
    case TF32 => cell.Real?
    case TF64 => cell.Float?
    case TString | TStr => cell.String?
    case TJson => cell.Json? || cell.String?
    case TUuid => cell.Guid?
    case TVec | TSlice => cell.Bytes?
    case TDecimal => cell.Decimal? || cell.Numeric?
    case TNaiveDate | TTimeDate | TJiffDate => cell.Date?
    case TNaiveTime | TTimeTime | TJiffTime => cell.Time?
    case TNaiveDateTime | TTimePrimitive | TJiffDateTime => cell.DateTime? || cell.SmallDateTime? || cell.DateTime2?
    case TDateTimeOffset | TTimeOffset | TJiffTimestamp | TJiffZoned => cell.DateTimeOffset?
  }

  lemma AcceptsOwnDates(target: Target, cell: ColumnValues, columnType: ColumnType)
    requires !cell.Null? && Calendrical(target)
    ensures Accepts(target, CellData(cell, columnType)) <==> OwnKind(target, cell)
  {
    hide NullColumnData;
  }

  lemma AcceptsOwnPlain(target: Target, cell: ColumnValues, columnType: ColumnType)
    requires !cell.Null? && !Calendrical(target)
    ensures Accepts(target, CellData(cell, columnType)) <==> OwnKind(target, cell)
  {
    hide NullColumnData;
  }

  lemma AcceptsOwnKind(target: Target, cell: ColumnValues, columnType: ColumnType)
    requires !cell.Null?
    ensures Accepts(target, CellData(cell, columnType)) <==> OwnKind(target, cell)
  {
    if Calendrical(target) {
      AcceptsOwnDates(target, cell, columnType);
    } else {
      AcceptsOwnPlain(target, cell, columnType);
    }
    hide *;
  }

  /**
   Compatibility access to a cell that is not NULL succeeds exactly for a cell of the type's own kind that
   native access reads, and then with the same value.
   */
  lemma CompatReads(given: Given, row: Row, i: nat, target: Target)
    requires Faithful(row) && i < |row.values| && !row.values[i].Null?
    ensures Get(given, row, Index(i), target).Ok?
    ensures var native := Get(given, row, Index(i), target);
      GetCompat(given, row, Index(i), target)
      == if OwnKind(target, row.values[i]) && native.value.Some? then native else Err(Error.Conversion)
  {
    CompatCell(given, target, row.values[i], TypeAt(row.schema, i));
    CompatValueAt(row, i);
    hide CompatDecode;
    hide FromSqlWithStr;
    hide OwnKind;
  }

  lemma OwnedReads(given: Given, target: Target, cell: ColumnValues, columnType: ColumnType)
    requires !cell.Null? && !cell.Vector?
    ensures DecodeOwned(given, target, CellData(cell, columnType))
         == match FromSql(given, target, cell) case Some(v) => Ok(Some(v)) case None => Err(Error.Conversion)
  {
    CellRoundTrip(cell, DecodedText(cell), columnType);
    CanonicalDecodesAlike(given, target, cell);
    hide FromSql;
    hide IntoColumnValue;
    hide ColumnDataRef;
    hide IntoOwned;
  }

  lemma BorrowedText(given: Given, cell: ColumnValues, columnType: ColumnType)
    requires cell.String?
    ensures CompatDecode(given, TStr, CellData(cell, columnType)) == Ok(FromSqlWithStr(given, TStr, cell, DecodedText(cell)))
    ensures DecodedText(cell).Some?
  {
    hide NullColumnData;
    hide DecodeOwned;
  }

  lemma BorrowedBytes(given: Given, cell: ColumnValues, columnType: ColumnType)
    requires cell.Bytes?
    ensures CompatDecode(given, TSlice, CellData(cell, columnType))
         == Ok(FromSqlWithStr(given, TSlice, cell, DecodedText(cell)))
    ensures FromSqlWithStr(given, TSlice, cell, DecodedText(cell)).Some?
  {
    hide NullColumnData;
    hide DecodeOwned;
    hide CalendarFromSql;
  }

  lemma OwnedIfAccepted(given: Given, target: Target, data: ColumnData)
    requires !target.TStr? && !target.TSlice?
    ensures CompatDecode(given, target, data)
         == if Accepts(target, data) then DecodeOwned(given, target, data) else Err(Error.Conversion)
  {
    hide Accepts;
    hide DecodeOwned;
  }

  lemma RefusedIfNotAccepted(given: Given, target: Target, data: ColumnData)
    requires !Accepts(target, data)
    ensures CompatDecode(given, target, data) == Err(Error.Conversion)
  {
    hide Accepts;
  }

  lemma CompatCell(given: Given, target: Target, cell: ColumnValues, columnType: ColumnType)
    requires !cell.Null?
    ensures var native := FromSqlWithStr(given, target, cell, DecodedText(cell));
      CompatDecode(given, target, CellData(cell, columnType))
      == if OwnKind(target, cell) && native.Some? then Ok(native) else Err(Error.Conversion)
  {
    hide CellData;
    hide Accepts;
    hide FromSql;
    hide DecodeOwned;
    hide CompatDecode;
    AcceptsOwnKind(target, cell, columnType);
    if !OwnKind(target, cell) {
      RefusedIfNotAccepted(given, target, CellData(cell, columnType));
    } else if target.TStr? {
      BorrowedText(given, cell, columnType);
    } else if target.TSlice? {
      BorrowedBytes(given, cell, columnType);
    } else {
      OwnedIfAccepted(given, target, CellData(cell, columnType));
      OwnedReads(given, target, cell, columnType);
    }
  }
}
