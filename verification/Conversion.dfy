/**
 Conversions between parameters, row cells and compatibility values
 (src/compat/conversion.rs), and the laws of the triangle they form.
 */
module Conversion {
  import opened Wrappers
  import opened Values
  import T = Text

  // ---------------------------------------------------------------------
  // The conversions
  // ---------------------------------------------------------------------

  function OwnedText(value: Option<SqlString>): Option<Cow<string>> {
    match value
    case None => None
    case Some(s) => Some(Owned(s.ToUtf8()))
  }

  function OwnedBytes(value: Option<Bytes>): Option<Cow<Bytes>> {
    match value
    case None => None
    case Some(b) => Some(Owned(b))
  }

  function FromNative(value: SqlType): ColumnData {
    match value
    case Bit(v) => ColumnData.Bit(v)
    case TinyInt(v) => ColumnData.U8(v)
    case SmallInt(v) => ColumnData.I16(v)
    case Int(v) => ColumnData.I32(v)
    case BigInt(v) => ColumnData.I64(v)
    case Real(v) => ColumnData.F32(v)
    case Float(v) => ColumnData.F64(v)
    case Decimal(v) => ColumnData.Numeric(v)
    case Numeric(v) => ColumnData.Numeric(v)
    case Money(v) => ColumnData.Money(v)
    case SmallMoney(v) => ColumnData.SmallMoney(v)
    case Time(v) => ColumnData.Time(v)
    case DateTime2(v) => ColumnData.DateTime2(v)
    case DateTimeOffset(v) => ColumnData.DateTimeOffset(v)
    case SmallDateTime(v) => ColumnData.SmallDateTime(v)
    case DateTime(v) => ColumnData.DateTime(v)
    case Date(v) => ColumnData.Date(v)
    case NVarchar(v, _) => ColumnData.String(OwnedText(v))
    case NVarcharMax(v) => ColumnData.String(OwnedText(v))
    case Varchar(v, _) => ColumnData.String(OwnedText(v))
    case VarcharMax(v) => ColumnData.String(OwnedText(v))
    case Char(v, _) => ColumnData.String(OwnedText(v))
    case NChar(v, _) => ColumnData.String(OwnedText(v))
    case Text(v) => ColumnData.String(OwnedText(v))
    case NText(v) => ColumnData.String(OwnedText(v))
    case VarBinary(v, _) => ColumnData.Binary(OwnedBytes(v))
    case VarBinaryMax(v) => ColumnData.Binary(OwnedBytes(v))
    case Binary(v, _) => ColumnData.Binary(OwnedBytes(v))
    case Image(v) => ColumnData.Binary(OwnedBytes(v))
    case Json(v) => ColumnData.Json(match v case None => None case Some(j) => Some(Owned(j.text)))
    case Xml(v) => ColumnData.Xml(match v case None => None case Some(x) => Some(Owned(x.text)))
    case Guid(v) => ColumnData.Guid(v)
    case Vector(_, _, _) => ColumnData.Native(value)
    case Variant(_) => ColumnData.Native(value)
    case Table(_, _) => ColumnData.Native(value)
    case Udt(_, _) => ColumnData.Native(value)
  }

  /** Text goes out as `NVarchar(4000)` unless it is longer than 4000 UTF-16 code units. */
  function ToSql(data: ColumnData): SqlType {
    match data
    case Bit(v) => SqlType.Bit(v)
    case U8(v) => SqlType.TinyInt(v)
    case I16(v) => SqlType.SmallInt(v)
    case I32(v) => SqlType.Int(v)
    case I64(v) => SqlType.BigInt(v)
    case F32(v) => SqlType.Real(v)
    case F64(v) => SqlType.Float(v)
    case String(None) => SqlType.NVarchar(None, 4000)
    case String(Some(v)) =>
      if |T.EncodeUtf16(v.value)| > 4000 then SqlType.NVarcharMax(Some(SqlString.FromUtf8(v.value)))
      else SqlType.NVarchar(Some(SqlString.FromUtf8(v.value)), 4000)
    case Guid(v) => SqlType.Guid(v)
    case Binary(v) => SqlType.VarBinaryMax(match v case None => None case Some(b) => Some(b.value))
    case Numeric(v) => SqlType.Numeric(v)
    case Xml(v) => SqlType.Xml(match v case None => None case Some(x) => Some(SqlXml(x.value)))
    case DateTime(v) => SqlType.DateTime(v)
    case SmallDateTime(v) => SqlType.SmallDateTime(v)
    case Time(v) => SqlType.Time(v)
    case Date(v) => SqlType.Date(v)
    case DateTime2(v) => SqlType.DateTime2(v)
    case DateTimeOffset(v) => SqlType.DateTimeOffset(v)
    case Money(v) => SqlType.Money(v)
    case SmallMoney(v) => SqlType.SmallMoney(v)
    case Json(v) => SqlType.Json(match v case None => None case Some(j) => Some(SqlJson(j.value)))
    case Native(v) => v
  }

  function Owning<D>(value: Option<Cow<D>>): Option<Cow<D>> {
    match value
    case None => None
    case Some(v) => Some(Owned(v.value))
  }

  function IntoOwned(data: ColumnData): ColumnData {
    match data
    case String(v) => ColumnData.String(Owning(v))
    case Binary(v) => ColumnData.Binary(Owning(v))
    case Xml(v) => ColumnData.Xml(Owning(v))
    case Json(v) => ColumnData.Json(Owning(v))
    case _ => data
  }

  function IntoColumnValue(data: ColumnData): Result<ColumnValues> {
    match data
    case Bit(Some(v)) => Ok(ColumnValues.Bit(v))
    case U8(Some(v)) => Ok(ColumnValues.TinyInt(v))
    case I16(Some(v)) => Ok(ColumnValues.SmallInt(v))
    case I32(Some(v)) => Ok(ColumnValues.Int(v))
    case I64(Some(v)) => Ok(ColumnValues.BigInt(v))
    case F32(Some(v)) => Ok(ColumnValues.Real(v))
    case F64(Some(v)) => Ok(ColumnValues.Float(v))
    case String(Some(v)) => Ok(ColumnValues.String(SqlString.FromUtf8(v.value)))
    case Guid(Some(v)) => Ok(ColumnValues.Guid(v))
    case Binary(Some(v)) => Ok(ColumnValues.Bytes(v.value))
    case Numeric(Some(v)) => Ok(ColumnValues.Numeric(v))
    case Xml(Some(v)) => Ok(ColumnValues.Xml(SqlXml(v.value)))
    case DateTime(Some(v)) => Ok(ColumnValues.DateTime(v))
    case SmallDateTime(Some(v)) => Ok(ColumnValues.SmallDateTime(v))
    case Time(Some(v)) => Ok(ColumnValues.Time(v))
    case Date(Some(v)) => Ok(ColumnValues.Date(v))
    case DateTime2(Some(v)) => Ok(ColumnValues.DateTime2(v))
    case DateTimeOffset(Some(v)) => Ok(ColumnValues.DateTimeOffset(v))
    case Money(Some(v)) => Ok(ColumnValues.Money(v))
    case SmallMoney(Some(v)) => Ok(ColumnValues.SmallMoney(v))
    case Json(Some(v)) => Ok(ColumnValues.Json(SqlJson(v.value)))
    case Native(_) => Err(Error.Conversion)
    case _ => Ok(ColumnValues.Null)
  }

  function BorrowText(decoded: Option<string>, own: string): Option<Cow<string>> {
    match decoded
    case Some(text) => Some(Cow.Borrowed(text))
    case None => Some(Cow.Owned(own))
  }

  function ColumnDataRef(value: ColumnValues, decoded: Option<string>, columnType: ColumnType): ColumnData {
    match value
    case TinyInt(v) => ColumnData.U8(Some(v))
    case SmallInt(v) => ColumnData.I16(Some(v))
    case Int(v) => ColumnData.I32(Some(v))
    case BigInt(v) => ColumnData.I64(Some(v))
    case Real(v) => ColumnData.F32(Some(v))
    case Float(v) => ColumnData.F64(Some(v))
    case Decimal(v) => ColumnData.Numeric(Some(v))
    case Numeric(v) => ColumnData.Numeric(Some(v))
    case Bit(v) => ColumnData.Bit(Some(v))
    case String(v) => ColumnData.String(BorrowText(decoded, v.ToUtf8()))
    case DateTime(v) => ColumnData.DateTime(Some(v))
    case Date(v) => ColumnData.Date(Some(v))
    case Time(v) => ColumnData.Time(Some(v))
    case DateTime2(v) => ColumnData.DateTime2(Some(v))
    case DateTimeOffset(v) => ColumnData.DateTimeOffset(Some(v))
    case SmallDateTime(v) => ColumnData.SmallDateTime(Some(v))
    case SmallMoney(v) => ColumnData.SmallMoney(Some(v))
    case Money(v) => ColumnData.Money(Some(v))
    case Bytes(v) => ColumnData.Binary(Some(Cow.Borrowed(v)))
    case Xml(v) => ColumnData.Xml(BorrowText(decoded, v.text))
    case Null => NullColumnData(columnType)
    case Guid(v) => ColumnData.Guid(Some(v))
    case Json(v) => ColumnData.Json(BorrowText(decoded, v.text))
    case Vector(v) => ColumnData.Native(SqlType.Vector(Some(v), |v.elements|, v.base))
  }

  function NullColumnData(columnType: ColumnType): ColumnData {
    match columnType
    case BitType => ColumnData.Bit(None)
    case Int1 => ColumnData.U8(None)
    case Int2 => ColumnData.I16(None)
    case Int4 => ColumnData.I32(None)
    case Int8 => ColumnData.I64(None)
    case Float4 => ColumnData.F32(None)
    case Float8 => ColumnData.F64(None)
    case Datetime => ColumnData.DateTime(None)
    case Datetime4 => ColumnData.SmallDateTime(None)
    case Datetime2 => ColumnData.DateTime2(None)
    case DatetimeOffset => ColumnData.DateTimeOffset(None)
    case DateType => ColumnData.Date(None)
    case TimeType => ColumnData.Time(None)
    case Decimaln | Numericn => ColumnData.Numeric(None)
    case MoneyType => ColumnData.Money(None)
    case Money4 => ColumnData.SmallMoney(None)
    case GuidType => ColumnData.Guid(None)
    case XmlType => ColumnData.Xml(None)
    case JsonType => ColumnData.Json(None)
    case NVarcharType | VarcharType | NCharType | CharType | NTextType | TextType | NullType =>
      ColumnData.String(None)
    case BinaryType | VarBinaryType | ImageType | BigVarBin | Ssvariant
       | Geography | Geometry | UdtType | VectorType => ColumnData.Binary(None)
  }

  // ---------------------------------------------------------------------
  // Compatibility value -> parameter -> compatibility value
  // ---------------------------------------------------------------------

  /** Parameters with no compatibility shape of their own. */
  predicate NativeOnly(value: SqlType) {
    value.Vector? || value.Variant? || value.Table? || value.Udt?
  }

  lemma CompatTextRoundTrip(text: Cow<string>)
    ensures FromNative(ToSql(ColumnData.String(Some(text)))) == ColumnData.String(Some(Owned(text.value)))
  {
    T.DecodeEncoded(text.value);
  }

  lemma CompatValueRoundTrip(data: ColumnData)
    requires !data.Native? && (data.String? ==> data == ColumnData.String(None))
    ensures FromNative(ToSql(data)) == IntoOwned(data)
  {
  }

  /**
   Encoding and decoding a compatibility value gives back the owned value, exactly when a
   `Native` payload is one of the native-only parameters.
   */
  lemma CompatRoundTrip(data: ColumnData)
    ensures FromNative(ToSql(data)) == IntoOwned(data) <==> (data.Native? ==> NativeOnly(data.sql))
  {
    match data
    case String(Some(v)) => CompatTextRoundTrip(v);
    case Native(_) =>
    case _ =>
      hide FromNative;
      hide ToSql;
      CompatValueRoundTrip(data);
  }

  /** A native integer is not one of them: it comes back as the compatibility integer. */
  lemma NativeIntegerIsReshaped()
    ensures var data := ColumnData.Native(SqlType.Int(Some(5)));
      FromNative(ToSql(data)) == ColumnData.I32(Some(5)) && IntoOwned(data) == data
  {
  }

  // ---------------------------------------------------------------------
  // Parameter -> compatibility value -> parameter
  // ---------------------------------------------------------------------

  /** What a parameter denotes, up to the SQL type that carries it. */
  datatype Meaning =
    | Characters(text: Option<string>)
    | Octets(bytes: Option<Bytes>)
    | Exact(parts: Option<DecimalParts>)
    | Itself(value: SqlType)

  function TextOf(value: Option<SqlString>): Option<string> {
    match value
    case None => None
    case Some(s) => Some(s.ToUtf8())
  }

  function Denotes(value: SqlType): Meaning {
    match value
    case NVarchar(v, _) => Characters(TextOf(v))
    case NVarcharMax(v) => Characters(TextOf(v))
    case Varchar(v, _) => Characters(TextOf(v))
    case VarcharMax(v) => Characters(TextOf(v))
    case Char(v, _) => Characters(TextOf(v))
    case NChar(v, _) => Characters(TextOf(v))
    case Text(v) => Characters(TextOf(v))
    case NText(v) => Characters(TextOf(v))
    case VarBinary(v, _) => Octets(v)
    case VarBinaryMax(v) => Octets(v)
    case Binary(v, _) => Octets(v)
    case Image(v) => Octets(v)
    case Decimal(v) => Exact(v)
    case Numeric(v) => Exact(v)
    case _ => Itself(value)
  }

  function Normalize(value: SqlType): SqlType {
    ToSql(FromNative(value))
  }

  predicate WellFormedText(s: SqlString) {
    s.Utf16? && T.Paired(s.units)
  }

  /** The parameters that normalisation leaves alone. */
  predicate Normal(value: SqlType) {
    match Denotes(value)
    case Characters(None) => value == SqlType.NVarchar(None, 4000)
    case Characters(Some(text)) =>
      if T.Utf16Length(text) > 4000 then
        (match value case NVarcharMax(Some(s)) => WellFormedText(s) case _ => false)
      else
        (match value case NVarchar(Some(s), 4000) => WellFormedText(s) case _ => false)
    case Octets(_) => value.VarBinaryMax?
    case Exact(_) => value.Numeric?
    case Itself(_) => true
  }

  /** Re-encoding text as UTF-16 keeps the text, and keeps the units exactly when none is unpaired. */
  lemma Reencoded(s: SqlString)
    ensures SqlString.FromUtf8(s.ToUtf8()).ToUtf8() == s.ToUtf8()
    ensures WellFormedText(SqlString.FromUtf8(s.ToUtf8()))
    ensures SqlString.FromUtf8(s.ToUtf8()) == s <==> WellFormedText(s)
  {
    var text := s.ToUtf8();
    T.DecodeEncoded(text);
    T.EncodeDecoded(T.EncodeUtf16(text));
    if s.Utf16? {
      T.EncodeDecoded(s.units);
    }
  }

  function TextParameter(text: string): SqlType {
    if T.Utf16Length(text) > 4000 then SqlType.NVarcharMax(Some(SqlString.FromUtf8(text)))
    else SqlType.NVarchar(Some(SqlString.FromUtf8(text)), 4000)
  }

  lemma NormalizedText(value: SqlType, text: string)
    requires Denotes(value) == Characters(Some(text))
    ensures Normalize(value) == TextParameter(text)
  {
    T.EncodedLength(text);
  }

  lemma NormalizeText(value: SqlType, text: string)
    requires Denotes(value) == Characters(Some(text))
    ensures Denotes(Normalize(value)) == Denotes(value)
    ensures Normal(Normalize(value))
  {
    NormalizedText(value, text);
    Reencoded(OtherEncoding(text));
  }

  lemma NormalTextIsFixed(value: SqlType, text: string)
    requires Denotes(value) == Characters(Some(text))
    ensures Normalize(value) == value <==> Normal(value)
  {
    NormalizedText(value, text);
    match value {
      case NVarchar(Some(s), _) => Reencoded(s);
      case NVarcharMax(Some(s)) => Reencoded(s);
      case _ =>
    }
  }

  lemma NormalizeData(value: SqlType)
    requires Denotes(value) == Characters(None) || Denotes(value).Octets? || Denotes(value).Exact?
    ensures Denotes(Normalize(value)) == Denotes(value)
    ensures Normal(Normalize(value))
    ensures Normalize(value) == value <==> Normal(value)
  {
    hide T.EncodeUtf16;
    hide T.Utf16Length;
  }

  /** The parameters that are kept as they are. */
  lemma NormalizeItself(value: SqlType)
    requires Denotes(value).Itself?
    ensures Normalize(value) == value && Normal(value)
  {
    hide T.EncodeUtf16;
  }

  /** Normalisation keeps the denoted value and its nullness, and fixes exactly the normal parameters. */
  lemma NormalizeKeepsMeaning(value: SqlType)
    ensures Denotes(Normalize(value)) == Denotes(value)
    ensures Normal(Normalize(value))
    ensures Normalize(value) == value <==> Normal(value)
  {
    hide Normalize;
    hide Normal;
    match Denotes(value)
    case Characters(Some(text)) =>
      NormalizeText(value, text);
      NormalTextIsFixed(value, text);
    case Itself(_) =>
      NormalizeItself(value);
    case _ =>
      NormalizeData(value);
  }

  lemma NormalizeIsIdempotent(value: SqlType)
    ensures Normalize(Normalize(value)) == Normalize(value)
  {
    NormalizeKeepsMeaning(value);
    NormalizeKeepsMeaning(Normalize(value));
  }

  /** Text is sent as `NVarchar(4000)` exactly when it has at most 4000 UTF-16 code units. */
  lemma TextParameterType(text: Cow<string>)
    ensures ToSql(ColumnData.String(Some(text))) == TextParameter(text.value)
    ensures Denotes(ToSql(ColumnData.String(Some(text)))) == Characters(Some(text.value))
  {
    T.EncodedLength(text.value);
    T.DecodeEncoded(text.value);
  }

  // ---------------------------------------------------------------------
  // Row cell -> compatibility value -> row cell
  // ---------------------------------------------------------------------

  /** The text a row decodes eagerly for a cell, if it is textual. */
  function DecodedText(value: ColumnValues): Option<string> {
    match value
    case String(s) => Some(s.ToUtf8())
    case Xml(x) => Some(x.text)
    case Json(j) => Some(j.text)
    case _ => None
  }

  /** The cell that comes back: decimals as numerics, text re-encoded as UTF-16. */
  function Canonical(value: ColumnValues): ColumnValues {
    match value
    case Decimal(v) => ColumnValues.Numeric(v)
    case String(s) => ColumnValues.String(SqlString.FromUtf8(s.ToUtf8()))
    case _ => value
  }

  /** `decoded` is a cell's own text or absent, as every row stores it. */
  predicate FaithfulText(value: ColumnValues, decoded: Option<string>) {
    decoded.Some? ==> decoded == DecodedText(value)
  }

  lemma NullCell(columnType: ColumnType)
    ensures IntoColumnValue(NullColumnData(columnType)) == Ok(ColumnValues.Null)
    ensures IntoOwned(NullColumnData(columnType)) == NullColumnData(columnType)
  {
    NullIsEmpty(columnType);
    hide NullColumnData;
  }

  /** A typed NULL is one of the variants, without a payload. */
  predicate Empty(data: ColumnData) {
    match data
    case Bit(v) => v.None?
    case U8(v) => v.None?
    case I16(v) => v.None?
    case I32(v) => v.None?
    case I64(v) => v.None?
    case F32(v) => v.None?
    case F64(v) => v.None?
    case String(v) => v.None?
    case Guid(v) => v.None?
    case Binary(v) => v.None?
    case Numeric(v) => v.None?
    case Xml(v) => v.None?
    case DateTime(v) => v.None?
    case SmallDateTime(v) => v.None?
    case Time(v) => v.None?
    case Date(v) => v.None?
    case DateTime2(v) => v.None?
    case DateTimeOffset(v) => v.None?
    case Money(v) => v.None?
    case SmallMoney(v) => v.None?
    case Json(v) => v.None?
    case Native(_) => false
  }

  lemma NullIsEmpty(columnType: ColumnType)
    ensures Empty(NullColumnData(columnType))
  {
  }

  /** Owning borrowed data does not change the cell it becomes. */
  lemma OwnedIsSameCell(data: ColumnData)
    ensures IntoColumnValue(IntoOwned(data)) == IntoColumnValue(data)
  {
  }

  lemma CellRoundTrip(value: ColumnValues, decoded: Option<string>, columnType: ColumnType)
    requires FaithfulText(value, decoded)
    ensures IntoColumnValue(ColumnDataRef(value, decoded, columnType))
         == if value.Vector? then Err(Error.Conversion) else Ok(Canonical(value))
    ensures IntoColumnValue(IntoOwned(ColumnDataRef(value, decoded, columnType)))
         == IntoColumnValue(ColumnDataRef(value, decoded, columnType))
  {
    NullCell(columnType);
    OwnedIsSameCell(ColumnDataRef(value, decoded, columnType));
    hide NullColumnData;
    hide IntoOwned;
  }

  /** The cells that come back unchanged. */
  lemma CanonicalCells(value: ColumnValues)
    ensures Canonical(value) == value
       <==> match value
            case Decimal(_) => false
            case String(s) => WellFormedText(s)
            case _ => true
    ensures DecodedText(Canonical(value)) == DecodedText(value)
    ensures Canonical(Canonical(value)) == Canonical(value)
  {
    match value
    case String(s) => Reencoded(s);
    case _ =>
  }
}
