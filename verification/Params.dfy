/** Parameter values on their way into an RPC (src/query.rs). A parameter stands for its `to_sql()`. */
module Params {
  import opened Wrappers
  import opened Values
  import opened Text

  datatype RpcParameter = RpcParameter(name: Option<string>, value: SqlType)

  function EncodeStringParameters(value: SqlType, unicode: bool): SqlType {
    if unicode then value
    else
      match value
      case NVarchar(v, len) => SqlType.Varchar(v, len)
      case NVarcharMax(v) => SqlType.VarcharMax(v)
      case _ => value
  }

  function ParameterName(i: nat): string {
    "@P" + Digits(i + 1)
  }

  function BuildParams(params: seq<SqlType>, unicode: bool): seq<RpcParameter> {
    seq(|params|, i requires 0 <= i < |params| =>
      RpcParameter(Some(ParameterName(i)), EncodeStringParameters(params[i], unicode)))
  }

  function IntoTypedNull(value: SqlType): SqlType {
    match value
    case Bit(_) => SqlType.Bit(None)
    case TinyInt(_) => SqlType.TinyInt(None)
    case SmallInt(_) => SqlType.SmallInt(None)
    case Int(_) => SqlType.Int(None)
    case BigInt(_) => SqlType.BigInt(None)
    case Real(_) => SqlType.Real(None)
    case Float(_) => SqlType.Float(None)
    case Decimal(_) => SqlType.Decimal(None)
    case Numeric(_) => SqlType.Numeric(None)
    case Money(_) => SqlType.Money(None)
    case SmallMoney(_) => SqlType.SmallMoney(None)
    case Time(_) => SqlType.Time(None)
    case DateTime2(_) => SqlType.DateTime2(None)
    case DateTimeOffset(_) => SqlType.DateTimeOffset(None)
    case SmallDateTime(_) => SqlType.SmallDateTime(None)
    case DateTime(_) => SqlType.DateTime(None)
    case Date(_) => SqlType.Date(None)
    case NVarchar(_, len) => SqlType.NVarchar(None, len)
    case NVarcharMax(_) => SqlType.NVarcharMax(None)
    case Varchar(_, len) => SqlType.Varchar(None, len)
    case VarcharMax(_) => SqlType.VarcharMax(None)
    case VarBinary(_, len) => SqlType.VarBinary(None, len)
    case VarBinaryMax(_) => SqlType.VarBinaryMax(None)
    case Binary(_, len) => SqlType.Binary(None, len)
    case Char(_, len) => SqlType.Char(None, len)
    case NChar(_, len) => SqlType.NChar(None, len)
    case Text(_) => SqlType.Text(None)
    case NText(_) => SqlType.NText(None)
    case Image(_) => SqlType.Image(None)
    case Json(_) => SqlType.Json(None)
    case Xml(_) => SqlType.Xml(None)
    case Guid(_) => SqlType.Guid(None)
    case Vector(_, dimensions, base) => SqlType.Vector(None, dimensions, base)
    case Variant(inner) => SqlType.Variant(IntoTypedNull(inner))
    case Table(name, _) => SqlType.Table(name, None)
    case Udt(name, _) => SqlType.Udt(name, None)
  }
}
