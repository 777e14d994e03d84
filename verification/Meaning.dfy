/**
 What parameters, compatibility values and row cells denote, each read on its own, and the law that
 no conversion between them changes it.
 */
module Meanings {
  import opened Wrappers
  import opened Values
  import opened Conversion
  import opened Params
  import T = Text

  /** A kind of value and its payload; an absent payload is NULL. */
  datatype Denotation =
    | Flag(flag: Option<bool>)
    | Whole(bits: nat, number: Option<int>)
    | Approximate(bits: nat, pattern: Option<Bits>)
    | Exactly(parts: Option<DecimalParts>)
    | Words(text: Option<string>)
    | XmlWords(text: Option<string>)
    | JsonWords(text: Option<string>)
    | Bytestring(bytes: Option<Bytes>)
    | Identifier(id: Option<Uuid>)
    | Day(day: Option<SqlDate>)
    | Clock(time: Option<SqlTime>)
    | Moment(moment: Option<SqlDateTime2>)
    | LocalMoment(local: Option<SqlDateTimeOffset>)
    | LegacyMoment(legacy: Option<SqlDateTime>)
    | SmallMoment(small: Option<SqlSmallDateTime>)
    | Cash(cash: Option<SqlMoney>)
    | SmallCash(smallCash: Option<SqlSmallMoney>)
    | Special(value: SqlType)

  function TextIn(s: Option<SqlString>): Option<string> {
    if s.None? then None else Some(s.value.ToUtf8())
  }

  function OfParameter(value: SqlType): Denotation {
    match value
    case Bit(v) => Flag(v)
    case TinyInt(v) => Whole(8, v)
    case SmallInt(v) => Whole(16, v)
    case Int(v) => Whole(32, v)
    case BigInt(v) => Whole(64, v)
    case Real(v) => Approximate(32, v)
    case Float(v) => Approximate(64, v)
    case Decimal(v) => Exactly(v)
    case Numeric(v) => Exactly(v)
    case Money(v) => Cash(v)
    case SmallMoney(v) => SmallCash(v)
    case Time(v) => Clock(v)
    case DateTime2(v) => Moment(v)
    case DateTimeOffset(v) => LocalMoment(v)
    case SmallDateTime(v) => SmallMoment(v)
    case DateTime(v) => LegacyMoment(v)
    case Date(v) => Day(v)
    case NVarchar(v, _) => Words(TextIn(v))
    case NVarcharMax(v) => Words(TextIn(v))
    case Varchar(v, _) => Words(TextIn(v))
    case VarcharMax(v) => Words(TextIn(v))
    case Char(v, _) => Words(TextIn(v))
    case NChar(v, _) => Words(TextIn(v))
    case Text(v) => Words(TextIn(v))
    case NText(v) => Words(TextIn(v))
    case VarBinary(v, _) => Bytestring(v)
    case VarBinaryMax(v) => Bytestring(v)
    case Binary(v, _) => Bytestring(v)
    case Image(v) => Bytestring(v)
    case Json(v) => JsonWords(if v.None? then None else Some(v.value.text))
    case Xml(v) => XmlWords(if v.None? then None else Some(v.value.text))
    case Guid(v) => Identifier(v)
    case Vector(_, _, _) => Special(value)
    case Variant(_) => Special(value)
    case Table(_, _) => Special(value)
    case Udt(_, _) => Special(value)
  }

  function Contents<A>(c: Option<Cow<A>>): Option<A> {
    if c.None? then None else Some(c.value.value)
  }

  function OfData(data: ColumnData): Denotation {
    match data
    case Bit(v) => Flag(v)
    case U8(v) => Whole(8, v)
    case I16(v) => Whole(16, v)
    case I32(v) => Whole(32, v)
    case I64(v) => Whole(64, v)
    case F32(v) => Approximate(32, v)
    case F64(v) => Approximate(64, v)
    case String(v) => Words(Contents(v))
    case Guid(v) => Identifier(v)
    case Binary(v) => Bytestring(Contents(v))
    case Numeric(v) => Exactly(v)
    case Xml(v) => XmlWords(Contents(v))
    case DateTime(v) => LegacyMoment(v)
    case SmallDateTime(v) => SmallMoment(v)
    case Time(v) => Clock(v)
    case Date(v) => Day(v)
    case DateTime2(v) => Moment(v)
    case DateTimeOffset(v) => LocalMoment(v)
    case Money(v) => Cash(v)
    case SmallMoney(v) => SmallCash(v)
    case Json(v) => JsonWords(Contents(v))
    case Native(value) => OfParameter(value)
  }

  function OfCell(cell: ColumnValues): Denotation
    requires !cell.Null?
  {
    match cell
    case Bit(v) => Flag(Some(v))
    case TinyInt(v) => Whole(8, Some(v))
    case SmallInt(v) => Whole(16, Some(v))
    case Int(v) => Whole(32, Some(v))
    case BigInt(v) => Whole(64, Some(v))
    case Real(v) => Approximate(32, Some(v))
    case Float(v) => Approximate(64, Some(v))
    case Decimal(v) => Exactly(Some(v))
    case Numeric(v) => Exactly(Some(v))
    case String(v) => Words(Some(v.ToUtf8()))
    case Bytes(v) => Bytestring(Some(v))
    case Xml(v) => XmlWords(Some(v.text))
    case Json(v) => JsonWords(Some(v.text))
    case Guid(v) => Identifier(Some(v))
    case Date(v) => Day(Some(v))
    case Time(v) => Clock(Some(v))
    case DateTime(v) => LegacyMoment(Some(v))
    case SmallDateTime(v) => SmallMoment(Some(v))
    case DateTime2(v) => Moment(Some(v))
    case DateTimeOffset(v) => LocalMoment(Some(v))
    case Money(v) => Cash(Some(v))
    case SmallMoney(v) => SmallCash(Some(v))
    case Vector(v) => Special(SqlType.Vector(Some(v), |v.elements|, v.base))
  }

  predicate Absent(d: Denotation) {
    match d
    case Flag(v) => v.None?
    case Whole(_, v) => v.None?
    case Approximate(_, v) => v.None?
    case Exactly(v) => v.None?
    case Words(v) => v.None?
    case XmlWords(v) => v.None?
    case JsonWords(v) => v.None?
    case Bytestring(v) => v.None?
    case Identifier(v) => v.None?
    case Day(v) => v.None?
    case Clock(v) => v.None?
    case Moment(v) => v.None?
    case LocalMoment(v) => v.None?
    case LegacyMoment(v) => v.None?
    case SmallMoment(v) => v.None?
    case Cash(v) => v.None?
    case SmallCash(v) => v.None?
    case Special(_) => false
  }

  predicate IsNull(value: SqlType) {
    match value
    case Vector(v, _, _) => v.None?
    case Variant(inner) => IsNull(inner)
    case Table(_, v) => v.None?
    case Udt(_, v) => v.None?
    case _ => Absent(OfParameter(value))
  }

  /** A value that carries nothing. */
  predicate Nothing(d: Denotation) {
    if d.Special? then IsNull(d.value) else Absent(d)
  }

  // ---------------------------------------------------------------------
  // Parameters and compatibility values
  // ---------------------------------------------------------------------

  predicate CarriesWords(value: SqlType) {
    OfParameter(value).Words? || OfParameter(value).Bytestring?
  }

  lemma FromNativeKeepsWords(value: SqlType)
    requires CarriesWords(value)
    ensures OfData(FromNative(value)) == OfParameter(value)
  {
    hide T.DecodeUtf16;
  }

  lemma FromNativeKeepsOther(value: SqlType)
    requires !CarriesWords(value)
    ensures OfData(FromNative(value)) == OfParameter(value)
  {
    hide T.DecodeUtf16;
  }

  /** A parameter viewed as a compatibility value denotes what it denoted. */
  lemma FromNativeKeeps(value: SqlType)
    ensures OfData(FromNative(value)) == OfParameter(value)
  {
    if CarriesWords(value) {
      FromNativeKeepsWords(value);
    } else {
      FromNativeKeepsOther(value);
    }
    hide *;
  }

  lemma ToSqlKeepsText(text: Cow<string>)
    ensures OfParameter(ToSql(ColumnData.String(Some(text)))) == Words(Some(text.value))
  {
    T.DecodeEncoded(text.value);
  }

  lemma ToSqlKeepsOther(data: ColumnData)
    requires data.String? ==> data == ColumnData.String(None)
    ensures OfParameter(ToSql(data)) == OfData(data)
  {
    hide T.EncodeUtf16;
    hide T.DecodeUtf16;
  }

  /** A compatibility value sent as a parameter denotes what it denoted, text being encoded as UTF-16. */
  lemma ToSqlKeeps(data: ColumnData)
    ensures OfParameter(ToSql(data)) == OfData(data)
  {
    hide ToSql;
    hide OfParameter;
    match data
    case String(Some(text)) => ToSqlKeepsText(text);
    case _ => ToSqlKeepsOther(data);
  }

  lemma IntoOwnedKeeps(data: ColumnData)
    ensures OfData(IntoOwned(data)) == OfData(data)
  {
  }

  // ---------------------------------------------------------------------
  // Compatibility values and cells
  // ---------------------------------------------------------------------

  lemma SoundCellViewKeeps(cell: ColumnValues, decoded: Option<string>, columnType: ColumnType)
    requires FaithfulText(cell, decoded) && !cell.Null?
    ensures OfData(ColumnDataRef(cell, decoded, columnType)) == OfCell(cell)
  {
    hide NullColumnData;
  }

  /** A cell viewed as a compatibility value denotes what it denoted; a NULL becomes an empty value. */
  lemma CellViewKeeps(cell: ColumnValues, decoded: Option<string>, columnType: ColumnType)
    requires FaithfulText(cell, decoded)
    ensures !cell.Null? ==> OfData(ColumnDataRef(cell, decoded, columnType)) == OfCell(cell)
    ensures cell.Null? ==> Nothing(OfData(ColumnDataRef(cell, decoded, columnType)))
  {
    if cell.Null? {
      NullIsNothing(columnType);
    } else {
      SoundCellViewKeeps(cell, decoded, columnType);
    }
    hide NullColumnData;
    hide OfData;
    hide Nothing;
  }

  lemma NullIsNothing(columnType: ColumnType)
    ensures Nothing(OfData(NullColumnData(columnType))) && !NullColumnData(columnType).Native?
  {
    NullIsEmpty(columnType);
    hide NullColumnData;
  }

  lemma IntoCellKeepsOther(data: ColumnData)
    requires !data.Native? && (data.String? ==> data == ColumnData.String(None))
    ensures IntoColumnValue(data).Ok?
    ensures IntoColumnValue(data).value.Null? <==> Absent(OfData(data))
    ensures !Absent(OfData(data)) ==> OfCell(IntoColumnValue(data).value) == OfData(data)
  {
  }

  lemma IntoCellKeepsText(text: Cow<string>)
    ensures var data := ColumnData.String(Some(text));
      && IntoColumnValue(data).Ok? && !IntoColumnValue(data).value.Null?
      && OfCell(IntoColumnValue(data).value) == OfData(data)
  {
    T.DecodeEncoded(text.value);
  }

  /** The empty value a NULL becomes is of the kind of its column; spatial and other opaque columns hold bytes. */
  lemma NullKinds(columnType: ColumnType)
    ensures OfData(NullColumnData(columnType))
         == match columnType
            case BitType => Flag(None)
            case Int1 => Whole(8, None)
            case Int2 => Whole(16, None)
            case Int4 => Whole(32, None)
            case Int8 => Whole(64, None)
            case Float4 => Approximate(32, None)
            case Float8 => Approximate(64, None)
            case Decimaln | Numericn => Exactly(None)
            case MoneyType => Cash(None)
            case Money4 => SmallCash(None)
            case GuidType => Identifier(None)
            case XmlType => XmlWords(None)
            case JsonType => JsonWords(None)
            case DateType => Day(None)
            case TimeType => Clock(None)
            case Datetime => LegacyMoment(None)
            case Datetime4 => SmallMoment(None)
            case Datetime2 => Moment(None)
            case DatetimeOffset => LocalMoment(None)
            case NullType | NVarcharType | VarcharType | NCharType | CharType | NTextType | TextType => Words(None)
            case _ => Bytestring(None)
  {
  }

  /** A compatibility value turned into a cell denotes what it denoted; native parameters have no cell, empty values a NULL. */
  lemma IntoCellKeeps(data: ColumnData)
    ensures IntoColumnValue(data).Err? <==> data.Native?
    ensures !data.Native? ==> (IntoColumnValue(data).value.Null? <==> Nothing(OfData(data)))
    ensures !data.Native? && !Nothing(OfData(data)) ==> OfCell(IntoColumnValue(data).value) == OfData(data)
  {
    match data
    case String(Some(text)) => IntoCellKeepsText(text);
    case Native(_) =>
    case _ =>
      IntoCellKeepsOther(data);
      hide IntoColumnValue;
      hide OfCell;
      hide Absent;
  }

  // ---------------------------------------------------------------------
  // Parameters on their way out
  // ---------------------------------------------------------------------

  predicate UnicodeText(value: SqlType) {
    value.NVarchar? || value.NVarcharMax?
  }

  /** String encoding keeps what a parameter denotes; without it no variable Unicode text is left. */
  lemma EncodingKeeps(value: SqlType, unicode: bool)
    ensures OfParameter(EncodeStringParameters(value, unicode)) == OfParameter(value)
    ensures EncodeStringParameters(value, unicode) == value <==> unicode || !UnicodeText(value)
    ensures !unicode ==> !UnicodeText(EncodeStringParameters(value, unicode))
  {
  }

  /** Each sent parameter denotes the parameter given at its place. */
  lemma SentParametersKeep(params: seq<SqlType>, unicode: bool)
    ensures |BuildParams(params, unicode)| == |params|
    ensures forall i | 0 <= i < |params| ::
              OfParameter(BuildParams(params, unicode)[i].value) == OfParameter(params[i])
  {
    forall i | 0 <= i < |params| ensures OfParameter(BuildParams(params, unicode)[i].value) == OfParameter(params[i]) {
      EncodingKeeps(params[i], unicode);
    }
  }

  lemma TypedNullIsAbsent(value: SqlType)
    requires !OfParameter(value).Special?
    ensures !OfParameter(IntoTypedNull(value)).Special? && Absent(OfParameter(IntoTypedNull(value)))
  {
  }

  lemma AbsentIsTypedNull(value: SqlType)
    requires !OfParameter(value).Special? && Absent(OfParameter(value))
    ensures IntoTypedNull(value) == value
  {
  }

  lemma SpecialTypedNull(value: SqlType)
    requires value.Vector? || value.Table? || value.Udt?
    ensures IsNull(IntoTypedNull(value))
    ensures IntoTypedNull(value) == value <==> IsNull(value)
  {
    hide OfParameter;
    hide Absent;
  }

  lemma PlainIsNull(value: SqlType)
    requires !OfParameter(value).Special?
    ensures IsNull(value) <==> Absent(OfParameter(value))
  {
    hide Absent;
  }

  /** A typed NULL is NULL, and exactly the NULLs are their own typed NULL. */
  lemma {:induction false} TypedNullIsNull(value: SqlType)
    ensures IsNull(IntoTypedNull(value))
    ensures IntoTypedNull(value) == value <==> IsNull(value)
  {
    if value.Variant? {
      TypedNullIsNull(value.inner);
    } else if value.Vector? || value.Table? || value.Udt? {
      SpecialTypedNull(value);
      hide *;
    } else {
      TypedNullIsAbsent(value);
      PlainIsNull(value);
      if Absent(OfParameter(value)) {
        AbsentIsTypedNull(value);
      }
      PlainIsNull(IntoTypedNull(value));
      hide *;
    }
  }
}
