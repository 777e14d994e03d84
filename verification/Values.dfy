/**
 The three value representations of the bridge: parameters (`SqlType`), row cells
 (`ColumnValues`) and the compatibility values (`ColumnData`), with the driver's payload types.
 Floats are carried as bit patterns and numbers as unbounded integers: no conversion modelled
 here computes with them.
 */
module Values {
  import opened Wrappers
  import T = Text

  type Bits = nat

  /** Driver text. Encodings other than UTF-16 are represented by the text they decode to. */
  datatype SqlString = Utf16(units: seq<T.Unit>) | OtherEncoding(text: string) {
    function ToUtf8(): string {
      match this
      case Utf16(units) => T.DecodeUtf16(units)
      case OtherEncoding(text) => text
    }

    static function FromUtf8(text: string): SqlString {
      Utf16(T.EncodeUtf16(text))
    }
  }

  datatype SqlXml = SqlXml(text: string)
  datatype SqlJson = SqlJson(text: string)
  datatype DecimalParts = DecimalParts(positive: bool, precision: nat, scale: nat, magnitude: nat)
  datatype SqlDate = SqlDate(days: nat)
  /** `ticks` is the driver's `time_nanoseconds`, which the bridge fills with 100 ns ticks. */
  datatype SqlTime = SqlTime(ticks: nat, scale: nat)
  datatype SqlDateTime = SqlDateTime(days: int, ticks: nat)
  datatype SqlSmallDateTime = SqlSmallDateTime(days: nat, minutes: nat)
  datatype SqlDateTime2 = SqlDateTime2(days: nat, time: SqlTime)
  datatype SqlDateTimeOffset = SqlDateTimeOffset(datetime2: SqlDateTime2, offset: int)
  datatype SqlMoney = SqlMoney(lsb: int, msb: int)
  datatype SqlSmallMoney = SqlSmallMoney(units: int)
  datatype VectorBase = Float32 | Float16
  datatype SqlVector = SqlVector(base: VectorBase, elements: seq<Bits>)
  datatype TvpTypeName = TvpTypeName(schema: Option<string>, name: string)
  datatype UdtTypeName = UdtTypeName(database: Option<string>, schema: Option<string>, name: string)
  type Uuid = nat
  type Bytes = seq<nat>

  const DEFAULT_VARTIME_SCALE: nat := 7

  /** The last day a `SqlDate` accepts, 9999-12-31, counted from 0001-01-01 as 0. */
  const LAST_SQL_DAY: nat := 3_652_058

  datatype SqlType =
    | Bit(Option<bool>)
    | TinyInt(Option<int>)
    | SmallInt(Option<int>)
    | Int(Option<int>)
    | BigInt(Option<int>)
    | Real(Option<Bits>)
    | Float(Option<Bits>)
    | Decimal(Option<DecimalParts>)
    | Numeric(Option<DecimalParts>)
    | Money(Option<SqlMoney>)
    | SmallMoney(Option<SqlSmallMoney>)
    | Time(Option<SqlTime>)
    | DateTime2(Option<SqlDateTime2>)
    | DateTimeOffset(Option<SqlDateTimeOffset>)
    | SmallDateTime(Option<SqlSmallDateTime>)
    | DateTime(Option<SqlDateTime>)
    | Date(Option<SqlDate>)
    | NVarchar(Option<SqlString>, nat)
    | NVarcharMax(Option<SqlString>)
    | Varchar(Option<SqlString>, nat)
    | VarcharMax(Option<SqlString>)
    | VarBinary(Option<Bytes>, nat)
    | VarBinaryMax(Option<Bytes>)
    | Binary(Option<Bytes>, nat)
    | Char(Option<SqlString>, nat)
    | NChar(Option<SqlString>, nat)
    | Text(Option<SqlString>)
    | NText(Option<SqlString>)
    | Image(Option<Bytes>)
    | Json(Option<SqlJson>)
    | Xml(Option<SqlXml>)
    | Guid(Option<Uuid>)
    | Vector(Option<SqlVector>, nat, VectorBase)
    | Variant(inner: SqlType)
    | Table(TvpTypeName, Option<seq<seq<ColumnValues>>>)
    | Udt(UdtTypeName, Option<Bytes>)

  datatype ColumnValues =
    | Null
    | Bit(bool)
    | TinyInt(int)
    | SmallInt(int)
    | Int(int)
    | BigInt(int)
    | Real(Bits)
    | Float(Bits)
    | Decimal(DecimalParts)
    | Numeric(DecimalParts)
    | String(SqlString)
    | Bytes(Bytes)
    | Xml(SqlXml)
    | Json(SqlJson)
    | Guid(Uuid)
    | Date(SqlDate)
    | Time(SqlTime)
    | DateTime(SqlDateTime)
    | SmallDateTime(SqlSmallDateTime)
    | DateTime2(SqlDateTime2)
    | DateTimeOffset(SqlDateTimeOffset)
    | Money(SqlMoney)
    | SmallMoney(SqlSmallMoney)
    | Vector(SqlVector)

  /** Borrowed or owned data. */
  datatype Cow<+D> = Borrowed(value: D) | Owned(value: D)

  datatype ColumnData =
    | Bit(Option<bool>)
    | U8(Option<int>)
    | I16(Option<int>)
    | I32(Option<int>)
    | I64(Option<int>)
    | F32(Option<Bits>)
    | F64(Option<Bits>)
    | String(Option<Cow<string>>)
    | Guid(Option<Uuid>)
    | Binary(Option<Cow<Bytes>>)
    | Numeric(Option<DecimalParts>)
    | Xml(Option<Cow<string>>)
    | DateTime(Option<SqlDateTime>)
    | SmallDateTime(Option<SqlSmallDateTime>)
    | Time(Option<SqlTime>)
    | Date(Option<SqlDate>)
    | DateTime2(Option<SqlDateTime2>)
    | DateTimeOffset(Option<SqlDateTimeOffset>)
    | Money(Option<SqlMoney>)
    | SmallMoney(Option<SqlSmallMoney>)
    | Json(Option<Cow<string>>)
    | Native(sql: SqlType)

  datatype ColumnType =
    | NullType | BitType | Int1 | Int2 | Int4 | Int8 | Float4 | Float8
    | Datetime | Datetime2 | Datetime4 | DatetimeOffset | DateType | TimeType
    | Decimaln | Numericn | MoneyType | Money4 | GuidType
    | NVarcharType | VarcharType | NCharType | CharType | NTextType | TextType
    | BinaryType | VarBinaryType | ImageType | XmlType | JsonType | VectorType
    | BigVarBin | Ssvariant | Geography | Geometry | UdtType

  /**
   An Arrow record batch: its number of rows, and per column what each cell converts to. The identity
   tells batches with equal cells apart.
   */
  datatype RecordBatch = RecordBatch(id: int, rows: nat, columns: seq<seq<Result<ColumnValues>>>)

  /** The rows a bulk load accepts: compatibility values, or one row of a record batch. */
  datatype LoadRow = TokenRow(values: seq<ColumnData>) | ArrowRow(batch: RecordBatch, rowIdx: nat)
}
