/**
 Rows (src/row.rs): schemas and column lookup, the writer that fills a row in place, the lazily
 built compatibility values, and typed access in both its forms.
 */
module Rows {
  import opened Wrappers
  import opened Values
  import opened Conversion
  import opened Temporal

  // ---------------------------------------------------------------------
  // Schemas
  // ---------------------------------------------------------------------

  datatype Column = Column(name: string, columnType: ColumnType)
  datatype RowSchema = RowSchema(columns: seq<Column>, nameMap: map<string, nat>)

  /** `i` is the first column called `name`. */
  predicate FirstNamed(columns: seq<Column>, name: string, i: nat) {
    i < |columns| && columns[i].name == name && forall j | 0 <= j < i :: columns[j].name != name
  }

  /** The name index holds exactly the column names, each with its first position. */
  ghost predicate Indexed(columns: seq<Column>, nameMap: map<string, nat>) {
    && (forall name | name in nameMap :: FirstNamed(columns, name, nameMap[name]))
    && (forall i | 0 <= i < |columns| :: columns[i].name in nameMap)
  }

  /** The only index that fits the columns. */
  ghost function NameMap(columns: seq<Column>): map<string, nat> {
    if columns == [] then map[]
    else
      var last := |columns| - 1;
      var before := NameMap(columns[..last]);
      if columns[last].name in before then before else before[columns[last].name := last]
  }

  /** A new name is added with its position; a repeated one changes nothing. */
  lemma IndexedNext(columns: seq<Column>, before: map<string, nat>, last: Column)
    requires Indexed(columns, before)
    ensures Indexed(columns + [last], if last.name in before then before else before[last.name := |columns|])
  {
    var all, m := columns + [last], if last.name in before then before else before[last.name := |columns|];
    forall name | name in m ensures FirstNamed(all, name, m[name]) {
      if name in before {
        assert FirstNamed(columns, name, before[name]);
      } else {
        forall j | 0 <= j < |columns| ensures all[j].name != name {
          assert columns[j].name in before;
        }
      }
    }
  }

  lemma {:induction false} NameMapIsIndex(columns: seq<Column>)
    ensures Indexed(columns, NameMap(columns))
  {
    if columns != [] {
      var last := |columns| - 1;
      NameMapIsIndex(columns[..last]);
      IndexedNext(columns[..last], NameMap(columns[..last]), columns[last]);
      assert columns == columns[..last] + [columns[last]];
    }
  }

  lemma IndexIsUnique(columns: seq<Column>, m: map<string, nat>, n: map<string, nat>)
    requires Indexed(columns, m) && Indexed(columns, n)
    ensures m == n
  {
    forall name ensures name in m <==> name in n {
      if name in m { assert columns[m[name]].name in n; }
      if name in n { assert columns[n[name]].name in m; }
    }
    assert m.Keys == n.Keys;
    forall name | name in m ensures m[name] == n[name] {
      assert FirstNamed(columns, name, m[name]) && FirstNamed(columns, name, n[name]);
    }
  }

  ghost function SchemaOf(columns: seq<Column>): RowSchema {
    RowSchema(columns, NameMap(columns))
  }

  method FromMetadata(metadata: seq<Column>) returns (schema: RowSchema)
    ensures Indexed(metadata, schema.nameMap)
    ensures schema == SchemaOf(metadata)
  {
    var nameMap: map<string, nat> := map[];
    for index := 0 to |metadata|
      invariant Indexed(metadata[..index], nameMap)
    {
      IndexedNext(metadata[..index], nameMap, metadata[index]);
      assert metadata[..index + 1] == metadata[..index] + [metadata[index]];
      var name := metadata[index].name;
      if name !in nameMap {
        nameMap := nameMap[name := index];
      }
    }
    assert metadata[..|metadata|] == metadata;
    schema := RowSchema(metadata, nameMap);
    NameMapIsIndex(metadata);
    IndexIsUnique(metadata, nameMap, NameMap(metadata));
  }

  function LowerAscii(c: char): char {
    if 'A' <= c <= 'Z' then (c as int + 32) as char else c
  }

  predicate EqIgnoreAsciiCase(a: string, b: string) {
    |a| == |b| && forall i | 0 <= i < |a| :: LowerAscii(a[i]) == LowerAscii(b[i])
  }

  /** Two characters are equal up to ASCII case when they are the same, or the two cases of one letter. */
  lemma AsciiCase(c: char, d: char)
    ensures LowerAscii(c) == LowerAscii(d)
       <==> c == d || ('A' <= c <= 'Z' && d as int == c as int + 32) || ('A' <= d <= 'Z' && c as int == d as int + 32)
  {
  }

  /** Names are equal up to case when they are so letter by letter, to the last one. */
  lemma NamesByLetters(a: string, c: char, b: string, d: char)
    ensures EqIgnoreAsciiCase(a + [c], b + [d]) <==> EqIgnoreAsciiCase(a, b) && LowerAscii(c) == LowerAscii(d)
    ensures EqIgnoreAsciiCase("", "") && !EqIgnoreAsciiCase("", a + [c]) && !EqIgnoreAsciiCase(a + [c], "")
  {
    if |a| == |b| {
      assert (a + [c])[|a|] == c && (b + [d])[|a|] == d;
      assert (a + [c])[..|a|] == a && (b + [d])[..|a|] == b;
      assert forall i | 0 <= i < |a| :: (a + [c])[i] == a[i] && (b + [d])[i] == b[i];
    }
  }

  function ColumnIndex(schema: RowSchema, name: string): Option<nat> {
    if name in schema.nameMap then Some(schema.nameMap[name]) else None
  }

  function Position(columns: seq<Column>, name: string): (r: Option<nat>)
    ensures r.Some? ==> r.value < |columns| && EqIgnoreAsciiCase(columns[r.value].name, name)
    ensures r.Some? ==> forall j | 0 <= j < r.value :: !EqIgnoreAsciiCase(columns[j].name, name)
    ensures r.None? ==> forall j | 0 <= j < |columns| :: !EqIgnoreAsciiCase(columns[j].name, name)
  {
    if columns == [] then None
    else if EqIgnoreAsciiCase(columns[0].name, name) then Some(0)
    else
      match Position(columns[1..], name)
      case None => None
      case Some(i) => Some(i + 1)
  }

  function ResolveNameCi(schema: RowSchema, name: string): Result<nat> {
    match ColumnIndex(schema, name)
    case Some(i) => Ok(i)
    case None =>
      match Position(schema.columns, name)
      case Some(i) => Ok(i)
      case None => Err(ColumnNotFound(name))
  }

  /** `i` is the first column with that exact name or, when there is none, the first up to ASCII case. */
  ghost predicate BestMatch(columns: seq<Column>, name: string, i: nat) {
    if exists k | 0 <= k < |columns| :: columns[k].name == name then FirstNamed(columns, name, i)
    else
      && i < |columns| && EqIgnoreAsciiCase(columns[i].name, name)
      && forall j | 0 <= j < i :: !EqIgnoreAsciiCase(columns[j].name, name)
  }

  /** Lookup finds the best match, and fails exactly when no column matches at all. */
  lemma LookupFindsBestMatch(schema: RowSchema, name: string)
    requires Indexed(schema.columns, schema.nameMap)
    ensures ColumnIndex(schema, name).Some? <==> exists k | 0 <= k < |schema.columns| :: schema.columns[k].name == name
    ensures forall i :: ColumnIndex(schema, name) == Some(i) ==> FirstNamed(schema.columns, name, i)
    ensures forall i :: ResolveNameCi(schema, name) == Ok(i) ==> BestMatch(schema.columns, name, i)
    ensures ResolveNameCi(schema, name).Err?
       <==> forall k | 0 <= k < |schema.columns| :: !EqIgnoreAsciiCase(schema.columns[k].name, name)
  {
    if exists k | 0 <= k < |schema.columns| :: schema.columns[k].name == name {
      var k :| 0 <= k < |schema.columns| && schema.columns[k].name == name;
      assert schema.columns[k].name in schema.nameMap;
    }
    if name in schema.nameMap {
      assert FirstNamed(schema.columns, name, schema.nameMap[name]);
      assert EqIgnoreAsciiCase(schema.columns[schema.nameMap[name]].name, name);
    }
  }

  // ---------------------------------------------------------------------
  // Rows and the writer that builds them
  // ---------------------------------------------------------------------

  datatype Row = Row(schema: RowSchema, values: seq<ColumnValues>, resultIndex: nat, decoded: seq<Option<string>>)

  function DecodeAll(values: seq<ColumnValues>): (r: seq<Option<string>>)
    ensures |r| == |values|
  {
    seq(|values|, i requires 0 <= i < |values| => DecodedText(values[i]))
  }

  function FromSchema(schema: RowSchema, values: seq<ColumnValues>): Row {
    Row(schema, values, 0, DecodeAll(values))
  }

  /** The row a result set's reader makes of the cells of one wire row. */
  function RowOf(schema: RowSchema, values: seq<ColumnValues>, resultIndex: nat): Row {
    FromSchema(schema, values).(resultIndex := resultIndex)
  }

  /** What every constructed row satisfies: each text beside its cell. */
  predicate Faithful(row: Row) {
    && |row.decoded| == |row.values|
    && forall i | 0 <= i < |row.values| :: row.decoded[i] == DecodedText(row.values[i])
  }

  /** A row of the given columns and cells, in their order, at a place. */
  ghost predicate Holds(row: Row, columns: seq<Column>, cells: seq<ColumnValues>, place: nat) {
    && row.schema.columns == columns && Indexed(columns, row.schema.nameMap)
    && row.values == cells && row.resultIndex == place && Faithful(row)
  }

  /** Rows are built as they should hold, whether by hand or by the writer. */
  lemma RowHolds(columns: seq<Column>, cells: seq<ColumnValues>, place: nat)
    ensures Holds(RowOf(SchemaOf(columns), cells, place), columns, cells, place)
    ensures Holds(FromSchema(SchemaOf(columns), cells), columns, cells, 0)
  {
    NameMapIsIndex(columns);
  }

  /** Fills two parallel vectors as the driver decodes cells. */
  class BridgeRowWriter {
    const schema: RowSchema
    const resultIndex: nat
    var values: seq<ColumnValues>
    var decodedStrings: seq<Option<string>>

    /** The vectors are in lockstep, each text beside its cell. */
    ghost predicate Valid()
      reads this
    {
      decodedStrings == DecodeAll(values)
    }

    constructor (schema: RowSchema, resultIndex: nat)
      ensures Valid() && values == []
      ensures this.schema == schema && this.resultIndex == resultIndex
    {
      this.schema := schema;
      this.resultIndex := resultIndex;
      values := [];
      decodedStrings := [];
    }

    /** The `write_*` callbacks, one per kind of cell. */
    method Write(value: ColumnValues)
      requires Valid()
      modifies this
      ensures Valid() && values == old(values) + [value]
    {
      values := values + [value];
      match value {
        case String(s) => decodedStrings := decodedStrings + [Some(s.ToUtf8())];
        case Xml(x) => decodedStrings := decodedStrings + [Some(x.text)];
        case Json(j) => decodedStrings := decodedStrings + [Some(j.text)];
        case _ => decodedStrings := decodedStrings + [None];
      }
    }

    /** Hands over the written cells as a row and starts over with empty vectors. */
    method TakeRow() returns (row: Row)
      requires Valid()
      modifies this
      ensures Valid() && values == []
      ensures row == RowOf(schema, old(values), resultIndex)
      ensures row.schema == schema && row.values == old(values) && row.resultIndex == resultIndex && Faithful(row)
    {
      row := Row(schema, values, resultIndex, decodedStrings);
      values := [];
      decodedStrings := [];
    }
  }

  // ---------------------------------------------------------------------
  // Compatibility values
  // ---------------------------------------------------------------------

  function TypeAt(schema: RowSchema, i: nat): ColumnType {
    if i < |schema.columns| then schema.columns[i].columnType else NullType
  }

  function BuildCompatValues(row: Row): seq<ColumnData> {
    var n := if |row.values| <= |row.decoded| then |row.values| else |row.decoded|;
    seq(n, i requires 0 <= i < n => IntoOwned(ColumnDataRef(row.values[i], row.decoded[i], TypeAt(row.schema, i))))
  }

  function Zip(columns: seq<Column>, data: seq<ColumnData>): seq<(Column, ColumnData)> {
    if columns == [] || data == [] then []
    else [(columns[0], data[0])] + Zip(columns[1..], data[1..])
  }

  lemma {:induction false} ZipPairs(columns: seq<Column>, data: seq<ColumnData>)
    ensures |Zip(columns, data)| == if |columns| <= |data| then |columns| else |data|
    ensures forall i | 0 <= i < |Zip(columns, data)| :: Zip(columns, data)[i] == (columns[i], data[i])
  {
    if columns != [] && data != [] {
      ZipPairs(columns[1..], data[1..]);
    }
  }

  /** A row with its once-filled cache of compatibility values. */
  class CachedRow {
    const row: Row
    var compatValues: Option<seq<ColumnData>>

    ghost predicate Valid()
      reads this
    {
      compatValues.Some? ==> compatValues.value == BuildCompatValues(row)
    }

    constructor (row: Row)
      ensures Valid() && this.row == row
    {
      this.row := row;
      compatValues := None;
    }

    method CompatValues() returns (values: seq<ColumnData>)
      requires Valid()
      modifies this
      ensures Valid() && values == BuildCompatValues(row)
    {
      if compatValues.None? {
        compatValues := Some(BuildCompatValues(row));
      }
      values := compatValues.value;
    }

    /** Columns beside their values, in column order. */
    method Cells() returns (cells: seq<(Column, ColumnData)>)
      requires Valid()
      modifies this
      ensures Valid()
      ensures var values := BuildCompatValues(row);
        && |cells| == (if |row.schema.columns| <= |values| then |row.schema.columns| else |values|)
        && forall i | 0 <= i < |cells| :: cells[i] == (row.schema.columns[i], values[i])
    {
      var values := CompatValues();
      cells := Zip(row.schema.columns, values);
      ZipPairs(row.schema.columns, values);
    }

    /** Consumes the row: the cached values if they were built, else the same values afresh. */
    method IntoIter() returns (values: seq<ColumnData>)
      requires Valid()
      ensures values == BuildCompatValues(row)
    {
      match compatValues {
        case Some(cached) => values := cached;
        case None => values := BuildCompatValues(row);
      }
    }

    method TryGetCompat(given: Given, col: Col, target: Target) returns (r: Result<Option<Value>>)
      requires Valid()
      modifies this
      ensures Valid() && r == GetCompat(given, row, col, target)
    {
      var i :- Resolve(row, col);
      var values := CompatValues();
      if i >= |values| {
        return Err(ColumnIndexOutOfBounds(i, |values|));
      }
      r := CompatDecode(given, target, values[i]);
    }
  }

  // ---------------------------------------------------------------------
  // Typed access
  // ---------------------------------------------------------------------

  /** The Rust types both decoders accept. */
  datatype Target =
    | TBool | TU8 | TI16 | TI32 | TI64 | TF32 | TF64 | TString | TStr | TJson | TUuid
    | TVec | TSlice | TNaiveDate | TNaiveTime | TNaiveDateTime | TDateTimeOffset | TDecimal
    | TTimeDate | TTimeTime | TTimePrimitive | TTimeOffset
    | TJiffDate | TJiffTime | TJiffDateTime | TJiffTimestamp | TJiffZoned

  datatype Value =
    | VBool(bool)
    | VInt(int)
    | VF32(bits: Bits)
    | VF64(bits: Bits)
    | VWidened(single: Bits)
    | VText(text: string)
    | VJson(json: string)
    | VUuid(Uuid)
    | VBytes(Bytes)
    | VDate(date: int)
    | VTime(NaiveTime)
    | VDateTime(NaiveDateTime)
    | VOffset(OffsetDateTime)
    | VDecimal(text: string)
    | VMoney(units: int)
    | VYmd(Ymd)
    | VClock(Clock)
    | VCivil(Civil)
    | VLocal(utc: Civil, offset: int)
    | VTimestamp(Timestamp)
    | VZoned(timestamp: Timestamp, offset: int)

  /** Parsers, the calendar and the instants of `jiff`, all outside the model. */
  datatype Given = Given(
    parseJson: string -> Option<string>,
    parseDecimal: DecimalParts -> Option<string>,
    calendar: Calendar,
    isInstant: Timestamp -> bool)

  function Lift<A>(o: Option<A>, f: A -> Value): Option<Value> {
    match o
    case None => None
    case Some(a) => Some(f(a))
  }

  function MoneyUnits(m: SqlMoney): int {
    m.msb * 0x1_0000_0000 + m.lsb % 0x1_0000_0000
  }

  // The chrono readers, through which the other date types are read.

  function DateFrom(value: ColumnValues): Option<int> {
    match value
    case Date(d) => DateFromDays(d.days)
    case DateTime2(d) => DateFromDays(d.days)
    case DateTime(d) => DayFromCe(DAY_1900 + d.days)
    case _ => None
  }

  function TimeFrom(value: ColumnValues): Option<NaiveTime> {
    match value
    case Time(t) => TimeFromTicks(t.ticks)
    case _ => None
  }

  function DateTimeFrom(value: ColumnValues): Option<NaiveDateTime> {
    match value
    case DateTime2(d) => DateTimeFromSql(d)
    case DateTime(d) => LegacyFromSql(d)
    case SmallDateTime(d) => SmallFromSql(d)
    case _ => None
  }

  function OffsetFrom(value: ColumnValues): Option<OffsetDateTime> {
    match value
    case DateTimeOffset(d) => OffsetFromSql(d)
    case _ => None
  }

  function Then<A, B>(o: Option<A>, f: A -> Option<B>): Option<B> {
    match o
    case None => None
    case Some(a) => f(a)
  }

  function InstantOf(given: Given, utc: NaiveDateTime): Option<Timestamp> {
    if given.isInstant(TimestampOf(utc)) then Some(TimestampOf(utc)) else None
  }

  /** The date and time types of the three libraries. */
  predicate Calendrical(target: Target) {
    || target.TNaiveDate? || target.TNaiveTime? || target.TNaiveDateTime? || target.TDateTimeOffset?
    || target.TTimeDate? || target.TTimeTime? || target.TTimePrimitive? || target.TTimeOffset?
    || target.TJiffDate? || target.TJiffTime? || target.TJiffDateTime? || target.TJiffTimestamp? || target.TJiffZoned?
  }

  function CalendarFromSql(given: Given, target: Target, value: ColumnValues): Option<Value>
    requires Calendrical(target)
  {
    match target
    case TNaiveDate => Lift(DateFrom(value), d => VDate(d))
    case TTimeDate => Lift(Then(DateFrom(value), d => TimeDate(given.calendar, d)), f => VYmd(f))
    case TJiffDate => Lift(Then(DateFrom(value), d => JiffDate(given.calendar, d)), f => VYmd(f))
    case TNaiveTime => Lift(TimeFrom(value), t => VTime(t))
    case TTimeTime | TJiffTime => Lift(Then(TimeFrom(value), t => ClockFromChrono(t)), c => VClock(c))
    case TNaiveDateTime => Lift(DateTimeFrom(value), t => VDateTime(t))
    case TTimePrimitive => Lift(Then(DateTimeFrom(value), t => TimeCivil(given.calendar, t)), c => VCivil(c))
    case TJiffDateTime => Lift(Then(DateTimeFrom(value), t => JiffCivil(given.calendar, t)), c => VCivil(c))
    case TDateTimeOffset => Lift(OffsetFrom(value), t => VOffset(t))
    case TTimeOffset =>
      (match OffsetFrom(value)
       case None => None
       case Some(t) => Lift(TimeCivil(given.calendar, t.utc), c => VLocal(c, t.offset)))
    case TJiffTimestamp => Lift(Then(OffsetFrom(value), (t: OffsetDateTime) => InstantOf(given, t.utc)), i => VTimestamp(i))
    case TJiffZoned =>
      (match OffsetFrom(value)
       case None => None
       case Some(t) => Lift(InstantOf(given, t.utc), i => VZoned(i, t.offset)))
  }

  function PlainFromSql(given: Given, target: Target, value: ColumnValues): Option<Value> {
    match (target, value)
    case (TBool, Bit(v)) => Some(VBool(v))
    case (TU8, TinyInt(v)) => Some(VInt(v))
    case (TI16, SmallInt(v)) => Some(VInt(v))
    case (TI16, TinyInt(v)) => Some(VInt(v))
    case (TI32, Int(v)) => Some(VInt(v))
    case (TI32, SmallInt(v)) => Some(VInt(v))
    case (TI32, TinyInt(v)) => Some(VInt(v))
    case (TI64, BigInt(v)) => Some(VInt(v))
    case (TI64, Int(v)) => Some(VInt(v))
    case (TI64, SmallInt(v)) => Some(VInt(v))
    case (TI64, TinyInt(v)) => Some(VInt(v))
    case (TF32, Real(v)) => Some(VF32(v))
    case (TF64, Float(v)) => Some(VF64(v))
    case (TF64, Real(v)) => Some(VWidened(v))
    case (TString, String(s)) => Some(VText(s.ToUtf8()))
    case (TString, Xml(x)) => Some(VText(x.text))
    case (TString, Json(j)) => Some(VText(j.text))
    case (TJson, Json(j)) => Lift(given.parseJson(j.text), t => VJson(t))
    case (TJson, String(s)) => Lift(given.parseJson(s.ToUtf8()), t => VJson(t))
    case (TUuid, Guid(v)) => Some(VUuid(v))
    case (TVec, Bytes(b)) => Some(VBytes(b))
    case (TSlice, Bytes(b)) => Some(VBytes(b))
    case (TDecimal, Decimal(d)) => Lift(given.parseDecimal(d), t => VDecimal(t))
    case (TDecimal, Numeric(d)) => Lift(given.parseDecimal(d), t => VDecimal(t))
    case (TDecimal, SmallMoney(m)) => Some(VMoney(m.units))
    case (TDecimal, Money(m)) => Some(VMoney(MoneyUnits(m)))
    case _ => None
  }

  /** `FromSql::from_sql`; borrowed text cannot be read from the cell itself. */
  function FromSql(given: Given, target: Target, value: ColumnValues): Option<Value> {
    if Calendrical(target) then CalendarFromSql(given, target, value) else PlainFromSql(given, target, value)
  }

  function FromSqlWithStr(given: Given, target: Target, value: ColumnValues, decoded: Option<string>): Option<Value> {
    if target.TStr? then Lift(decoded, t => VText(t)) else FromSql(given, target, value)
  }

  /** The compatibility variants each type is read from. */
  predicate Accepts(target: Target, data: ColumnData) {
    match target
    case TBool => data.Bit?
    case TU8 => data.U8? || data == ColumnData.I32(None)
    case TI16 => data.I16? || data == ColumnData.U8(None) || data == ColumnData.I32(None)
    case TI32 => data.I32? || data == ColumnData.U8(None)
    case TI64 => data.I64? || data == ColumnData.U8(None) || data == ColumnData.I32(None)
    case TF32 => data.F32?
    case TF64 => data.F64?
    case TString | TStr => data.String?
    case TJson => data.Json? || data.String?
    case TUuid => data.Guid?
    case TVec | TSlice => data.Binary?
    case TNaiveDate | TTimeDate | TJiffDate => data.Date?
    case TNaiveTime | TTimeTime | TJiffTime => data.Time?
    case TNaiveDateTime | TTimePrimitive | TJiffDateTime => data.DateTime? || data.SmallDateTime? || data.DateTime2?
    case TDateTimeOffset | TTimeOffset | TJiffTimestamp | TJiffZoned => data.DateTimeOffset?
    case TDecimal => data.Numeric?
  }

  function DecodeOwned(given: Given, target: Target, data: ColumnData): Result<Option<Value>> {
    var value :- IntoColumnValue(data);
    if value.Null? then Ok(None)
    else
      match FromSql(given, target, value)
      case Some(v) => Ok(Some(v))
      case None => Err(Error.Conversion)
  }

  function CompatDecode(given: Given, target: Target, data: ColumnData): Result<Option<Value>> {
    if !Accepts(target, data) then Err(Error.Conversion)
    else match (target, data)
      case (TStr, String(None)) => Ok(None)
      case (TStr, String(Some(s))) => Ok(Some(VText(s.value)))
      case (TSlice, Binary(None)) => Ok(None)
      case (TSlice, Binary(Some(b))) => Ok(Some(VBytes(b.value)))
      case _ => DecodeOwned(given, target, data)
  }

  datatype Col = Index(i: nat) | Name(name: string)

  function Resolve(row: Row, col: Col): Result<nat> {
    match col
    case Index(i) => if i >= |row.values| then Err(ColumnIndexOutOfBounds(i, |row.values|)) else Ok(i)
    case Name(name) =>
      match ColumnIndex(row.schema, name)
      case Some(i) => Ok(i)
      case None => Err(ColumnNotFound(name))
  }

  /** `Row::try_get` */
  function Get(given: Given, row: Row, col: Col, target: Target): Result<Option<Value>> {
    var i :- Resolve(row, col);
    if i >= |row.values| then Err(ColumnIndexOutOfBounds(i, |row.values|))
    else
      var decoded := if i < |row.decoded| then row.decoded[i] else None;
      Ok(FromSqlWithStr(given, target, row.values[i], decoded))
  }

  /** `Row::try_get_ci` */
  function GetCi(given: Given, row: Row, name: string, target: Target): Result<Option<Value>> {
    var i :- ResolveNameCi(row.schema, name);
    Get(given, row, Index(i), target)
  }

  /** `Row::try_get_compat` over freshly built compatibility values */
  function GetCompat(given: Given, row: Row, col: Col, target: Target): Result<Option<Value>> {
    var i :- Resolve(row, col);
    var values := BuildCompatValues(row);
    if i >= |values| then Err(ColumnIndexOutOfBounds(i, |values|))
    else CompatDecode(given, target, values[i])
  }

  /** Only date and time cells are read as dates and times. */
  lemma CalendarIgnores(given: Given, target: Target, value: ColumnValues)
    requires Calendrical(target)
    requires !value.Date? && !value.Time? && !value.DateTime? && !value.SmallDateTime?
          && !value.DateTime2? && !value.DateTimeOffset?
    ensures CalendarFromSql(given, target, value) == None
  {
  }

  lemma SameTextDecodesAlike(given: Given, target: Target, a: SqlString, b: SqlString)
    requires a.ToUtf8() == b.ToUtf8()
    ensures FromSql(given, target, ColumnValues.String(a)) == FromSql(given, target, ColumnValues.String(b))
  {
    if Calendrical(target) {
      CalendarIgnores(given, target, ColumnValues.String(a));
      CalendarIgnores(given, target, ColumnValues.String(b));
    }
    hide CalendarFromSql;
    hide Calendrical;
  }

  lemma DecimalDecodesAsNumeric(given: Given, target: Target, d: DecimalParts)
    ensures FromSql(given, target, ColumnValues.Decimal(d)) == FromSql(given, target, ColumnValues.Numeric(d))
  {
    if Calendrical(target) {
      CalendarIgnores(given, target, ColumnValues.Decimal(d));
      CalendarIgnores(given, target, ColumnValues.Numeric(d));
    }
    hide CalendarFromSql;
    hide Calendrical;
  }

  /** Re-encoding a cell does not change what it decodes to. */
  lemma CanonicalDecodesAlike(given: Given, target: Target, value: ColumnValues)
    ensures FromSql(given, target, Canonical(value)) == FromSql(given, target, value)
  {
    hide FromSql;
    match value
    case String(s) =>
      Reencoded(s);
      SameTextDecodesAlike(given, target, SqlString.FromUtf8(s.ToUtf8()), s);
    case Decimal(d) =>
      DecimalDecodesAsNumeric(given, target, d);
    case _ =>
  }

  predicate Refines(compat: Result<Option<Value>>, native: Result<Option<Value>>) {
    compat == native || compat == Err(Error.Conversion)
  }

  /** What the compatibility decoder is given for a cell. */
  function CellData(value: ColumnValues, columnType: ColumnType): ColumnData {
    IntoOwned(ColumnDataRef(value, DecodedText(value), columnType))
  }

  lemma DecodedOwned(given: Given, target: Target, value: ColumnValues, columnType: ColumnType)
    ensures DecodeOwned(given, target, CellData(value, columnType)) == Ok(FromSql(given, target, value))
         || DecodeOwned(given, target, CellData(value, columnType)) == Err(Error.Conversion)
  {
    hide FromSql;
    CanonicalDecodesAlike(given, target, value);
    CellRoundTrip(value, DecodedText(value), columnType);
    hide IntoColumnValue;
    hide ColumnDataRef;
    hide IntoOwned;
    if value.Null? {
      NullReadsAsNone(given, target);
    }
  }

  lemma NullReadsAsNone(given: Given, target: Target)
    ensures FromSql(given, target, ColumnValues.Null) == None
  {
    if Calendrical(target) {
      CalendarIgnores(given, target, ColumnValues.Null);
    }
    hide CalendarFromSql;
    hide Calendrical;
  }

  lemma NullHasNoPayload(t: ColumnType)
    ensures NullColumnData(t).String? ==> NullColumnData(t) == ColumnData.String(None)
    ensures NullColumnData(t).Binary? ==> NullColumnData(t) == ColumnData.Binary(None)
  {
  }

  /** Text reaches the compatibility side from text cells and NULLs only, and bytes from bytes. */
  lemma BorrowableText(value: ColumnValues, columnType: ColumnType)
    ensures CellData(value, columnType).String? ==>
      if value.Null? then CellData(value, columnType) == ColumnData.String(None)
      else value.String? && CellData(value, columnType) == ColumnData.String(Some(Owned(DecodedText(value).GetOr(""))))
  {
    if value.Null? {
      NullHasNoPayload(columnType);
    }
    hide NullColumnData;
  }

  function BytesIn(value: ColumnValues): Bytes {
    match value
    case Bytes(b) => b
    case _ => []
  }

  lemma BorrowableBytes(value: ColumnValues, columnType: ColumnType)
    ensures CellData(value, columnType).Binary? ==>
      if value.Null? then CellData(value, columnType) == ColumnData.Binary(None)
      else value.Bytes? && CellData(value, columnType) == ColumnData.Binary(Some(Owned(BytesIn(value))))
  {
    if value.Null? {
      NullHasNoPayload(columnType);
    }
    hide NullColumnData;
  }

  /** Text and bytes are borrowed as the native reader borrows them. */
  lemma BorrowedCell(given: Given, target: Target, value: ColumnValues, columnType: ColumnType)
    requires target.TStr? || target.TSlice?
    ensures Refines(CompatDecode(given, target, CellData(value, columnType)),
                    Ok(FromSqlWithStr(given, target, value, DecodedText(value))))
  {
    BorrowableText(value, columnType);
    BorrowableBytes(value, columnType);
    NullReadsAsNone(given, target);
    hide CellData;
    hide DecodeOwned;
  }

  /** Whatever the compatibility decoder reads from a cell, the native decoder reads too. */
  lemma DecodedCell(given: Given, target: Target, value: ColumnValues, columnType: ColumnType)
    ensures Refines(CompatDecode(given, target, CellData(value, columnType)),
                    Ok(FromSqlWithStr(given, target, value, DecodedText(value))))
  {
    if target.TStr? || target.TSlice? {
      BorrowedCell(given, target, value, columnType);
    } else {
      hide CellData;
      hide DecodeOwned;
      DecodedOwned(given, target, value, columnType);
    }
  }

  lemma CompatValueAt(row: Row, i: nat)
    requires Faithful(row) && i < |row.values|
    ensures |BuildCompatValues(row)| == |row.values|
    ensures BuildCompatValues(row)[i] == CellData(row.values[i], TypeAt(row.schema, i))
  {
  }

  /**
   Compatibility access refines native access: it gives the same result, or a conversion error
   where native access gives none. Both fail alike on a missing column.
   */
  lemma CompatRefinesNative(given: Given, row: Row, col: Col, target: Target)
    requires Faithful(row)
    ensures Refines(GetCompat(given, row, col, target), Get(given, row, col, target))
    ensures Get(given, row, col, target).Err? ==> GetCompat(given, row, col, target) == Get(given, row, col, target)
  {
    hide CompatDecode;
    hide FromSqlWithStr;
    var r := Resolve(row, col);
    if r.Ok? && r.value < |row.values| {
      CompatValueAt(row, r.value);
      DecodedCell(given, target, row.values[r.value], TypeAt(row.schema, r.value));
    } else if r.Ok? && |row.values| > 0 {
      CompatValueAt(row, 0);
    }
  }

  /** Whether a Rust type accepts the SQL NULL of a column type. */
  predicate NullReadable(target: Target, t: ColumnType) {
    match target
    case TBool => t.BitType?
    case TU8 => t.Int1? || t.Int4?
    case TI16 => t.Int1? || t.Int2? || t.Int4?
    case TI32 => t.Int1? || t.Int4?
    case TI64 => t.Int1? || t.Int4? || t.Int8?
    case TF32 => t.Float4?
    case TF64 => t.Float8?
    case TString | TStr => Textual(t)
    case TJson => Textual(t) || t.JsonType?
    case TUuid => t.GuidType?
    case TVec | TSlice => Opaque(t)
    case TNaiveDate | TTimeDate | TJiffDate => t.DateType?
    case TNaiveTime | TTimeTime | TJiffTime => t.TimeType?
    case TNaiveDateTime | TTimePrimitive | TJiffDateTime => t.Datetime? || t.Datetime4? || t.Datetime2?
    case TDateTimeOffset | TTimeOffset | TJiffTimestamp | TJiffZoned => t.DatetimeOffset?
    case TDecimal => t.Decimaln? || t.Numericn?
  }

  predicate Textual(t: ColumnType) {
    t.NVarcharType? || t.VarcharType? || t.NCharType? || t.CharType? || t.NTextType? || t.TextType? || t.NullType?
  }

  predicate Opaque(t: ColumnType) {
    || t.BinaryType? || t.VarBinaryType? || t.ImageType? || t.BigVarBin? || t.Ssvariant?
    || t.Geography? || t.Geometry? || t.UdtType? || t.VectorType?
  }

  predicate Whole(target: Target) {
    target.TBool? || target.TU8? || target.TI16? || target.TI32? || target.TI64?
  }

  lemma NullAcceptedWhole(target: Target, columnType: ColumnType)
    requires Whole(target)
    ensures Accepts(target, NullColumnData(columnType)) <==> NullReadable(target, columnType)
  {
  }

  lemma NullVariants(t: ColumnType)
    ensures NullColumnData(t).F32? <==> t.Float4?
    ensures NullColumnData(t).F64? <==> t.Float8?
    ensures NullColumnData(t).String? <==> Textual(t)
    ensures NullColumnData(t).Json? <==> t.JsonType?
    ensures NullColumnData(t).Guid? <==> t.GuidType?
    ensures NullColumnData(t).Binary? <==> Opaque(t)
    ensures NullColumnData(t).Numeric? <==> t.Decimaln? || t.Numericn?
  {
  }

  lemma NullTemporalVariants(t: ColumnType)
    ensures NullColumnData(t).Date? <==> t.DateType?
    ensures NullColumnData(t).Time? <==> t.TimeType?
    ensures NullColumnData(t).DateTime? <==> t.Datetime?
    ensures NullColumnData(t).SmallDateTime? <==> t.Datetime4?
    ensures NullColumnData(t).DateTime2? <==> t.Datetime2?
    ensures NullColumnData(t).DateTimeOffset? <==> t.DatetimeOffset?
  {
  }

  lemma NullAcceptedOther(target: Target, columnType: ColumnType)
    requires !Whole(target)
    ensures Accepts(target, NullColumnData(columnType)) <==> NullReadable(target, columnType)
  {
    hide NullColumnData;
    hide Textual;
    hide Opaque;
    NullVariants(columnType);
    NullTemporalVariants(columnType);
  }

  lemma NullAccepted(target: Target, columnType: ColumnType)
    ensures Accepts(target, NullColumnData(columnType)) <==> NullReadable(target, columnType)
  {
    hide Accepts;
    hide NullColumnData;
    hide NullReadable;
    if Whole(target) {
      NullAcceptedWhole(target, columnType);
    } else {
      NullAcceptedOther(target, columnType);
    }
  }

  lemma NullDecodes(given: Given, target: Target, columnType: ColumnType)
    ensures CompatDecode(given, target, NullColumnData(columnType))
         == if Accepts(target, NullColumnData(columnType)) then Ok(None) else Err(Error.Conversion)
  {
    NullCell(columnType);
    NullHasNoPayload(columnType);
    hide FromSql;
    hide Accepts;
    hide NullColumnData;
    hide IntoColumnValue;
  }

  /** A NULL cell reads as `Ok(None)` exactly for the listed column types, else it is a conversion error. */
  lemma NullDecoding(given: Given, row: Row, col: Col, i: nat, target: Target)
    requires Faithful(row) && Resolve(row, col) == Ok(i) && i < |row.values| && row.values[i].Null?
    ensures Get(given, row, col, target) == Ok(None)
    ensures GetCompat(given, row, col, target)
         == if NullReadable(target, if i < |row.schema.columns| then row.schema.columns[i].columnType else NullType)
            then Ok(None) else Err(Error.Conversion)
  {
    hide CompatDecode;
    hide NullColumnData;
    hide Accepts;
    hide NullReadable;
    CompatValueAt(row, i);
    NullReadsAsNone(given, target);
    hide FromSql;
    hide BuildCompatValues;
    NullAccepted(target, TypeAt(row.schema, i));
    NullDecodes(given, target, TypeAt(row.schema, i));
    NullCell(TypeAt(row.schema, i));
  }
}
