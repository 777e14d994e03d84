/**
 The parameter declaration of a prepared statement (src/prepared.rs), and a parser that reads
 every declaration list back. The server type names come from the driver and are a parameter.
 */
module Declaration {
  import opened Wrappers
  import opened Values
  import opened Text
  import opened Params

  type TypeNames = SqlType -> Result<string>

  predicate IsPlain(c: char) {
    'a' <= c <= 'z' || 'A' <= c <= 'Z' || IsDigit(c) || c == '_'
  }

  /** The driver's type names are nonempty words. */
  ghost predicate PlainNames(names: TypeNames) {
    forall t :: names(t).Ok? ==> names(t).value != "" && forall c | c in names(t).value :: IsPlain(c)
  }

  // ---------------------------------------------------------------------
  // Printing
  // ---------------------------------------------------------------------

  /** Every `]` doubled. */
  function Escaped(identifier: string): string {
    if identifier == "" then ""
    else (if identifier[0] == ']' then "]]" else [identifier[0]]) + Escaped(identifier[1..])
  }

  function QuoteIdentifier(identifier: string): string {
    "[" + Escaped(identifier) + "]"
  }

  function Join(parts: seq<string>, separator: string): string {
    if parts == [] then ""
    else if |parts| == 1 then parts[0]
    else parts[0] + separator + Join(parts[1..], separator)
  }

  function NonEmpty(part: Option<string>): Option<string> {
    if part == Some("") then None else part
  }

  function UdtParts(name: UdtTypeName): seq<string> {
    var database, schema := NonEmpty(name.database), NonEmpty(name.schema);
    (if database.Some? then [QuoteIdentifier(database.value)] else [])
    + (if schema.Some? then [QuoteIdentifier(schema.value)] else if database.Some? then [""] else [])
    + [QuoteIdentifier(name.name)]
  }

  /** The text in parentheses after a type name, if any. */
  function Suffix(value: SqlType): Option<string> {
    match value
    case NVarcharMax(_) => Some("MAX")
    case VarcharMax(_) => Some("MAX")
    case VarBinaryMax(_) => Some("MAX")
    case NVarchar(_, len) => Some(if len > 4000 then "MAX" else Digits(len))
    case Varchar(_, len) => Some(if len > 8000 then "MAX" else Digits(len))
    case VarBinary(_, len) => Some(if len > 8000 then "MAX" else Digits(len))
    case Binary(_, len) => Some(Digits(len))
    case Char(_, len) => Some(Digits(len))
    case NChar(_, len) => Some(Digits(len))
    case Decimal(None) => Some("18,10")
    case Numeric(None) => Some("18,10")
    case Decimal(Some(p)) => Some(Digits(p.precision) + "," + Digits(p.scale))
    case Numeric(Some(p)) => Some(Digits(p.precision) + "," + Digits(p.scale))
    case Time(t) => Some(Digits(match t case None => DEFAULT_VARTIME_SCALE case Some(v) => v.scale))
    case DateTime2(t) => Some(Digits(match t case None => DEFAULT_VARTIME_SCALE case Some(v) => v.time.scale))
    case DateTimeOffset(t) =>
      Some(Digits(match t case None => DEFAULT_VARTIME_SCALE case Some(v) => v.datetime2.time.scale))
    case Vector(_, dimensions, Float32) => Some(Digits(dimensions))
    case Vector(_, dimensions, Float16) => Some(Digits(dimensions) + ", float16")
    case _ => None
  }

  function SqlDeclaration(names: TypeNames, value: SqlType): Result<string> {
    match value
    case Table(name, _) =>
      Ok(QuoteIdentifier(name.schema.GetOr("dbo")) + "." + QuoteIdentifier(name.name) + " READONLY")
    case Udt(name, _) => Ok(Join(UdtParts(name), "."))
    case _ =>
      var name :- names(value);
      match Suffix(value)
      case None => Ok(name)
      case Some(suffix) => Ok(name + "(" + suffix + ")")
  }

  /** The encoding `prepare` applies on its own before declaring a parameter. */
  function PreparedEncoding(value: SqlType, unicode: bool): SqlType {
    match (value, unicode)
    case (NVarchar(v, len), false) => SqlType.Varchar(v, len)
    case (NVarcharMax(v), false) => SqlType.VarcharMax(v)
    case _ => value
  }

  function Entry(i: nat, declaration: string): string {
    "@P" + Digits(i + 1) + " " + declaration
  }

  /** The entries of parameters `from`, `from + 1`, ..., or the first error. */
  function Entries(names: TypeNames, params: seq<SqlType>, unicode: bool, from: nat): Result<seq<string>>
    requires from <= |params|
    decreases |params| - from
  {
    if from == |params| then Ok([])
    else
      var declaration :- SqlDeclaration(names, PreparedEncoding(params[from], unicode));
      var rest :- Entries(names, params, unicode, from + 1);
      Ok([Entry(from, declaration)] + rest)
  }

  function ParameterDeclaration(names: TypeNames, params: seq<SqlType>, unicode: bool): Result<string> {
    var entries :- Entries(names, params, unicode, 0);
    Ok(Join(entries, ", "))
  }

  // ---------------------------------------------------------------------
  // What a declaration means
  // ---------------------------------------------------------------------

  datatype Args = NoArgs | Max | Length(n: nat) | Precise(precision: nat, scale: nat) | HalfVector(n: nat)

  datatype Declared =
    | TableType(owner: string, name: string)
    | UserType(database: Option<string>, schema: Option<string>, name: string)
    | BuiltIn(typeName: string, args: Args)

  function ArgsOf(value: SqlType): Args {
    match value
    case NVarcharMax(_) => Max
    case VarcharMax(_) => Max
    case VarBinaryMax(_) => Max
    case NVarchar(_, len) => if len <= 4000 then Length(len) else Max
    case Varchar(_, len) => if len <= 8000 then Length(len) else Max
    case VarBinary(_, len) => if len <= 8000 then Length(len) else Max
    case Binary(_, len) => Length(len)
    case Char(_, len) => Length(len)
    case NChar(_, len) => Length(len)
    case Decimal(None) => Precise(18, 10)
    case Numeric(None) => Precise(18, 10)
    case Decimal(Some(p)) => Precise(p.precision, p.scale)
    case Numeric(Some(p)) => Precise(p.precision, p.scale)
    case Time(None) => Length(7)
    case Time(Some(t)) => Length(t.scale)
    case DateTime2(None) => Length(7)
    case DateTime2(Some(t)) => Length(t.time.scale)
    case DateTimeOffset(None) => Length(7)
    case DateTimeOffset(Some(t)) => Length(t.datetime2.time.scale)
    case Vector(_, n, Float32) => Length(n)
    case Vector(_, n, Float16) => HalfVector(n)
    case _ => NoArgs
  }

  /** An absent table schema means `dbo`; an empty database or schema of a user type means none. */
  function DeclaredType(names: TypeNames, value: SqlType): Result<Declared> {
    match value
    case Table(name, _) => Ok(TableType(name.schema.GetOr("dbo"), name.name))
    case Udt(name, _) => Ok(UserType(NonEmpty(name.database), NonEmpty(name.schema), name.name))
    case _ =>
      var name :- names(value);
      Ok(BuiltIn(name, ArgsOf(value)))
  }

  // ---------------------------------------------------------------------
  // Parsing
  // ---------------------------------------------------------------------

  /** What follows a prefix, if `s` has it. */
  function Strip(s: string, prefix: string): (r: Option<string>)
    ensures r.Some? ==> |s| == |prefix| + |r.value|
  {
    if |prefix| <= |s| && s[..|prefix|] == prefix then Some(s[|prefix|..]) else None
  }

  /** Reads an identifier whose opening bracket is behind us. */
  function ParseQuoted(s: string): (r: Option<(string, string)>)
    ensures r.Some? ==> |r.value.1| < |s|
  {
    if s == "" then None
    else if s[0] != ']' then
      match ParseQuoted(s[1..])
      case None => None
      case Some((name, rest)) => Some(([s[0]] + name, rest))
    else if |s| > 1 && s[1] == ']' then
      match ParseQuoted(s[2..])
      case None => None
      case Some((name, rest)) => Some(("]" + name, rest))
    else Some(("", s[1..]))
  }

  function PlainSpan(s: string): (n: nat)
    ensures n <= |s|
  {
    if s == "" || !IsPlain(s[0]) then 0 else 1 + PlainSpan(s[1..])
  }

  /** Reads a number of at least one digit. */
  function ParseNumber(s: string): (r: Option<(nat, string)>)
    ensures r.Some? ==> |r.value.1| < |s|
  {
    var n := DigitSpan(s);
    if n == 0 then None else Some((Number(s[..n]), s[n..]))
  }

  /** Reads what follows the first number of an argument list. */
  function ParseArgsAfter(n: nat, s: string): (r: Option<(Args, string)>)
    ensures r.Some? ==> |r.value.1| < |s|
  {
    match Strip(s, ")")
    case Some(rest) => Some((Length(n), rest))
    case None =>
      match Strip(s, ", float16)")
      case Some(rest) => Some((HalfVector(n), rest))
      case None =>
        match Strip(s, ",")
        case None => None
        case Some(second) =>
          match ParseNumber(second)
          case None => None
          case Some((m, tail)) =>
            match Strip(tail, ")")
            case None => None
            case Some(rest) => Some((Precise(n, m), rest))
  }

  /** Reads arguments whose opening parenthesis is behind us. */
  function ParseArgs(s: string): (r: Option<(Args, string)>)
    ensures r.Some? ==> |r.value.1| < |s|
  {
    match Strip(s, "MAX)")
    case Some(rest) => Some((Max, rest))
    case None =>
      match ParseNumber(s)
      case None => None
      case Some((n, rest)) => ParseArgsAfter(n, rest)
  }

  /** Reads what follows the first two parts of a qualified name. */
  function ParseThird(first: string, second: string, s: string): (r: Option<(Declared, string)>)
    ensures r.Some? ==> |r.value.1| <= |s|
  {
    match Strip(s, ".[")
    case Some(more) =>
      (match ParseQuoted(more)
       case None => None
       case Some((third, rest)) => Some((UserType(Some(first), Some(second), third), rest)))
    case None =>
      match Strip(s, " READONLY")
      case Some(rest) => Some((TableType(first, second), rest))
      case None => Some((UserType(None, Some(first), second), s))
  }

  /** Reads a bracketed name whose opening bracket is behind us. */
  function ParseName(s: string): (r: Option<(Declared, string)>)
    ensures r.Some? ==> |r.value.1| < |s|
  {
    match ParseQuoted(s)
    case None => None
    case Some((first, r1)) =>
      match Strip(r1, ".[")
      case Some(more) =>
        (match ParseQuoted(more)
         case None => None
         case Some((second, r2)) => ParseThird(first, second, r2))
      case None =>
        match Strip(r1, "..[")
        case Some(more) =>
          (match ParseQuoted(more)
           case None => None
           case Some((second, r2)) => Some((UserType(Some(first), None, second), r2)))
        case None => Some((UserType(None, None, first), r1))
  }

  function ParseBuiltIn(name: string, s: string): (r: Option<(Declared, string)>)
    ensures r.Some? ==> |r.value.1| <= |s|
  {
    match Strip(s, "(")
    case None => Some((BuiltIn(name, NoArgs), s))
    case Some(more) =>
      match ParseArgs(more)
      case None => None
      case Some((args, rest)) => Some((BuiltIn(name, args), rest))
  }

  function ParseDeclared(s: string): (r: Option<(Declared, string)>)
    ensures r.Some? ==> |r.value.1| < |s|
  {
    match Strip(s, "[")
    case Some(name) => ParseName(name)
    case None =>
      var n := PlainSpan(s);
      if n == 0 then None else ParseBuiltIn(s[..n], s[n..])
  }

  function ParseEntry(s: string): (r: Option<((nat, Declared), string)>)
    ensures r.Some? ==> |r.value.1| < |s|
  {
    match Strip(s, "@P")
    case None => None
    case Some(numbered) =>
      match ParseNumber(numbered)
      case None => None
      case Some((n, rest)) =>
        match Strip(rest, " ")
        case None => None
        case Some(declared) =>
          match ParseDeclared(declared)
          case None => None
          case Some((d, tail)) => Some(((n, d), tail))
  }

  /** Reads a whole declaration list. */
  function ParseList(s: string): Option<seq<(nat, Declared)>>
    decreases |s|
  {
    if s == "" then Some([])
    else
      match ParseEntry(s)
      case None => None
      case Some((entry, rest)) =>
        if rest == "" then Some([entry])
        else
          match Strip(rest, ", ")
          case None => None
          case Some(more) =>
            if more == "" then None
            else
              match ParseList(more)
              case None => None
              case Some(entries) => Some([entry] + entries)
  }

  // ---------------------------------------------------------------------
  // Printed declarations are read back
  // ---------------------------------------------------------------------

  /** What can follow an entry: nothing, or the separator. */
  predicate Follows(rest: string) {
    rest == "" || rest[0] == ','
  }

  lemma StripConcat(prefix: string, rest: string)
    ensures Strip(prefix + rest, prefix) == Some(rest)
  {
    assert (prefix + rest)[..|prefix|] == prefix;
    assert (prefix + rest)[|prefix|..] == rest;
  }

  /** A text that ends or differs within the prefix does not have it. */
  lemma NoStrip(s: string, prefix: string, i: nat)
    requires i < |prefix| && (i >= |s| || s[i] != prefix[i])
    ensures Strip(s, prefix) == None
  {
    if |prefix| <= |s| {
      assert s[..|prefix|][i] != prefix[i];
    }
  }

  lemma {:induction false} QuotedRoundTrip(name: string, rest: string)
    requires rest == "" || rest[0] != ']'
    ensures ParseQuoted(Escaped(name) + "]" + rest) == Some((name, rest))
  {
    var s := Escaped(name) + "]" + rest;
    if name == "" {
      assert s == "]" + rest;
      assert s[1..] == rest;
    } else {
      var tail := Escaped(name[1..]) + "]" + rest;
      QuotedRoundTrip(name[1..], rest);
      if name[0] == ']' {
        assert s == "]]" + tail;
        assert s[2..] == tail;
      } else {
        assert s == [name[0]] + tail;
        assert s[1..] == tail;
      }
      assert name == [name[0]] + name[1..];
    }
  }

  lemma {:induction false} SpanOfPlain(d: string, rest: string)
    requires (forall c | c in d :: IsPlain(c)) && (rest == "" || !IsPlain(rest[0]))
    ensures PlainSpan(d + rest) == |d|
  {
    if d == "" {
      assert d + rest == rest;
    } else {
      SpanOfPlain(d[1..], rest);
      assert (d + rest)[1..] == d[1..] + rest;
    }
  }

  lemma NumberRoundTrip(n: nat, rest: string)
    requires rest == "" || !IsDigit(rest[0])
    ensures ParseNumber(Digits(n) + rest) == Some((n, rest))
  {
    var s := Digits(n) + rest;
    SpanOfDigits(Digits(n), rest);
    NumberOfDigits(n);
    assert s[..|Digits(n)|] == Digits(n) && s[|Digits(n)|..] == rest;
  }

  /** The text of an argument list and of what follows it, without the opening parenthesis. */
  function ArgsText(args: Args, rest: string): string
    requires !args.NoArgs?
  {
    match args
    case Max => "MAX)" + rest
    case Length(n) => Digits(n) + (")" + rest)
    case Precise(p, s) => Digits(p) + ("," + (Digits(s) + (")" + rest)))
    case HalfVector(n) => Digits(n) + (", float16)" + rest)
  }

  lemma NumericArgs(n: nat, tail: string)
    requires tail != "" && !IsDigit(tail[0])
    ensures ParseArgs(Digits(n) + tail) == ParseArgsAfter(n, tail)
  {
    assert (Digits(n) + tail)[0] == Digits(n)[0];
    NoStrip(Digits(n) + tail, "MAX)", 0);
    NumberRoundTrip(n, tail);
  }

  lemma PreciseArgs(p: nat, q: nat, rest: string)
    ensures ParseArgsAfter(p, "," + (Digits(q) + (")" + rest))) == Some((Precise(p, q), rest))
  {
    var second := Digits(q) + (")" + rest);
    NoStrip("," + second, ")", 0);
    assert ("," + second)[1] == Digits(q)[0];
    NoStrip("," + second, ", float16)", 1);
    StripConcat(",", second);
    NumberRoundTrip(q, ")" + rest);
    StripConcat(")", rest);
  }

  lemma ArgsRoundTrip(args: Args, rest: string)
    requires !args.NoArgs?
    ensures ParseArgs(ArgsText(args, rest)) == Some((args, rest))
  {
    hide Strip;
    hide ParseNumber;
    match args
    case Max => StripConcat("MAX)", rest);
    case Length(n) =>
      NumericArgs(n, ")" + rest);
      StripConcat(")", rest);
    case HalfVector(n) =>
      NumericArgs(n, ", float16)" + rest);
      NoStrip(", float16)" + rest, ")", 0);
      StripConcat(", float16)", rest);
    case Precise(p, q) =>
      NumericArgs(p, "," + (Digits(q) + (")" + rest)));
      PreciseArgs(p, q, rest);
  }

  /** The text of a quoted identifier and of what follows it, without the opening bracket. */
  function Quoted(name: string, rest: string): string {
    Escaped(name) + "]" + rest
  }

  /** The text of a declared type and of what follows it. */
  function Printed(d: Declared, rest: string): string {
    match d
    case TableType(owner, name) => "[" + Quoted(owner, ".[" + Quoted(name, " READONLY" + rest))
    case UserType(None, None, name) => "[" + Quoted(name, rest)
    case UserType(None, Some(schema), name) => "[" + Quoted(schema, ".[" + Quoted(name, rest))
    case UserType(Some(db), None, name) => "[" + Quoted(db, "..[" + Quoted(name, rest))
    case UserType(Some(db), Some(schema), name) =>
      "[" + Quoted(db, ".[" + Quoted(schema, ".[" + Quoted(name, rest)))
    case BuiltIn(name, args) => name + (if args.NoArgs? then rest else "(" + ArgsText(args, rest))
  }

  lemma NameRoundTrip(d: Declared, rest: string)
    requires !d.BuiltIn? && Follows(rest)
    ensures ParseDeclared(Printed(d, rest)) == Some((d, rest))
  {
    hide Strip;
    hide ParseQuoted;
    match d
    case TableType(owner, name) =>
      var r2 := " READONLY" + rest;
      var r1 := ".[" + Quoted(name, r2);
      StripConcat("[", Quoted(owner, r1));
      QuotedRoundTrip(owner, r1);
      StripConcat(".[", Quoted(name, r2));
      QuotedRoundTrip(name, r2);
      NoStrip(r2, ".[", 0);
      StripConcat(" READONLY", rest);
    case UserType(None, None, name) =>
      StripConcat("[", Quoted(name, rest));
      QuotedRoundTrip(name, rest);
      NoStrip(rest, ".[", 0);
      NoStrip(rest, "..[", 0);
    case UserType(None, Some(schema), name) =>
      var r1 := ".[" + Quoted(name, rest);
      StripConcat("[", Quoted(schema, r1));
      QuotedRoundTrip(schema, r1);
      StripConcat(".[", Quoted(name, rest));
      QuotedRoundTrip(name, rest);
      NoStrip(rest, ".[", 0);
      NoStrip(rest, " READONLY", 0);
    case UserType(Some(db), None, name) =>
      var r1 := "..[" + Quoted(name, rest);
      StripConcat("[", Quoted(db, r1));
      QuotedRoundTrip(db, r1);
      NoStrip(r1, ".[", 1);
      StripConcat("..[", Quoted(name, rest));
      QuotedRoundTrip(name, rest);
    case UserType(Some(db), Some(schema), name) =>
      var r2 := ".[" + Quoted(name, rest);
      var r1 := ".[" + Quoted(schema, r2);
      StripConcat("[", Quoted(db, r1));
      QuotedRoundTrip(db, r1);
      StripConcat(".[", Quoted(schema, r2));
      QuotedRoundTrip(schema, r2);
      StripConcat(".[", Quoted(name, rest));
      QuotedRoundTrip(name, rest);
  }

  lemma BuiltInRoundTrip(name: string, args: Args, rest: string)
    requires name != "" && (forall c | c in name :: IsPlain(c)) && Follows(rest)
    ensures ParseDeclared(Printed(BuiltIn(name, args), rest)) == Some((BuiltIn(name, args), rest))
  {
    hide Strip;
    hide ParseArgs;
    var tail := if args.NoArgs? then rest else "(" + ArgsText(args, rest);
    var s := name + tail;
    assert s[0] == name[0] && name[0] in name;
    NoStrip(s, "[", 0);
    SpanOfPlain(name, tail);
    assert s[..|name|] == name && s[|name|..] == tail;
    if args.NoArgs? {
      NoStrip(tail, "(", 0);
    } else {
      StripConcat("(", ArgsText(args, rest));
      ArgsRoundTrip(args, rest);
    }
  }

  // ---------------------------------------------------------------------
  // Declarations are printed as meant
  // ---------------------------------------------------------------------

  function ArgsPrint(args: Args): string
    requires !args.NoArgs?
  {
    match args
    case Max => "MAX"
    case Length(n) => Digits(n)
    case Precise(p, s) => Digits(p) + "," + Digits(s)
    case HalfVector(n) => Digits(n) + ", float16"
  }

  lemma SuffixIsPrint(value: SqlType)
    ensures Suffix(value) == if ArgsOf(value).NoArgs? then None else Some(ArgsPrint(ArgsOf(value)))
  {
    assert Digits(18) + "," + Digits(10) == "18,10";
  }

  lemma PrintIsText(args: Args, rest: string)
    requires !args.NoArgs?
    ensures ArgsPrint(args) + (")" + rest) == ArgsText(args, rest)
  {
    hide Digits;
    match args
    case Precise(p, s) =>
      assert Digits(p) + "," + Digits(s) + (")" + rest) == Digits(p) + ("," + (Digits(s) + (")" + rest)));
    case HalfVector(n) =>
      assert ", float16" + (")" + rest) == ", float16)" + rest;
      assert Digits(n) + ", float16" + (")" + rest) == Digits(n) + (", float16" + (")" + rest));
    case Max =>
      assert "MAX" + (")" + rest) == "MAX)" + rest;
    case Length(_) =>
  }

  lemma SuffixIsArgs(value: SqlType, rest: string)
    ensures Suffix(value) == None <==> ArgsOf(value) == NoArgs
    ensures Suffix(value).Some? ==> Suffix(value).value + (")" + rest) == ArgsText(ArgsOf(value), rest)
  {
    SuffixIsPrint(value);
    hide Suffix;
    hide ArgsOf;
    if !ArgsOf(value).NoArgs? {
      PrintIsText(ArgsOf(value), rest);
    }
  }

  lemma JoinTwo(a: string, b: string, rest: string)
    ensures Join([a, b], ".") + rest == a + ("." + (b + rest))
  {
    assert [a, b][1..] == [b];
  }

  lemma JoinThree(a: string, b: string, c: string, rest: string)
    ensures Join([a, b, c], ".") + rest == a + ("." + (b + ("." + (c + rest))))
  {
    assert [a, b, c][1..] == [b, c];
    JoinTwo(b, c, rest);
    assert Join([a, b, c], ".") == a + "." + Join([b, c], ".");
    assert Join([a, b, c], ".") + rest == a + ("." + (Join([b, c], ".") + rest));
  }

  lemma QuoteThen(name: string, rest: string)
    ensures QuoteIdentifier(name) + rest == "[" + Quoted(name, rest)
  {
  }

  /** A bracketed part and its separator run together. */
  lemma PartThen(separator: string, name: string, rest: string)
    ensures separator + (QuoteIdentifier(name) + rest) == (separator + "[") + Quoted(name, rest)
  {
  }

  lemma UdtIsPrinted(name: UdtTypeName, rest: string)
    ensures Join(UdtParts(name), ".") + rest
         == Printed(UserType(NonEmpty(name.database), NonEmpty(name.schema), name.name), rest)
  {
    hide Quoted;
    hide Join;
    var database, schema := NonEmpty(name.database), NonEmpty(name.schema);
    var last := QuoteIdentifier(name.name);
    hide QuoteIdentifier;
    QuoteThen(name.name, rest);
    PartThen(".", name.name, rest);
    assert "." + "[" == ".[" && ".." + "[" == "..[";
    match (database, schema)
    case (None, None) =>
      assert UdtParts(name) == [last];
      JoinOne(last);
    case (None, Some(s)) =>
      assert UdtParts(name) == [QuoteIdentifier(s), last];
      JoinTwo(QuoteIdentifier(s), last, rest);
      QuoteThen(s, ".[" + Quoted(name.name, rest));
    case (Some(d), None) =>
      assert UdtParts(name) == [QuoteIdentifier(d), "", last];
      JoinThree(QuoteIdentifier(d), "", last, rest);
      PartThen("..", name.name, rest);
      assert "." + ("" + ("." + (last + rest))) == ".." + (last + rest);
      QuoteThen(d, "..[" + Quoted(name.name, rest));
    case (Some(d), Some(s)) =>
      assert UdtParts(name) == [QuoteIdentifier(d), QuoteIdentifier(s), last];
      JoinThree(QuoteIdentifier(d), QuoteIdentifier(s), last, rest);
      var r2 := ".[" + Quoted(name.name, rest);
      PartThen(".", s, r2);
      QuoteThen(d, ".[" + Quoted(s, r2));
  }

  lemma JoinOne(a: string)
    ensures Join([a], ".") == a
  {
  }

  lemma TableIsPrinted(owner: string, name: string, rest: string)
    ensures QuoteIdentifier(owner) + "." + QuoteIdentifier(name) + " READONLY" + rest
         == Printed(TableType(owner, name), rest)
  {
    hide Quoted;
    var r2 := " READONLY" + rest;
    PartThen(".", name, r2);
    QuoteThen(owner, ".[" + Quoted(name, r2));
    assert "." + "[" == ".[";
    hide QuoteIdentifier;
    var o, n := QuoteIdentifier(owner), QuoteIdentifier(name);
    assert o + "." + n + " READONLY" + rest == o + ("." + (n + r2));
  }

  lemma BuiltInIsPrinted(name: string, value: SqlType, rest: string)
    ensures (match Suffix(value) case None => name case Some(suffix) => name + "(" + suffix + ")") + rest
         == Printed(BuiltIn(name, ArgsOf(value)), rest)
  {
    SuffixIsArgs(value, rest);
    hide Suffix;
    hide ArgsText;
    hide ArgsOf;
    match Suffix(value)
    case None =>
    case Some(suffix) => assert name + "(" + suffix + ")" + rest == name + ("(" + (suffix + (")" + rest)));
  }

  lemma TableDeclaration(names: TypeNames, value: SqlType, rest: string)
    requires value.Table?
    ensures SqlDeclaration(names, value).Ok? && DeclaredType(names, value).Ok?
    ensures SqlDeclaration(names, value).value + rest == Printed(DeclaredType(names, value).value, rest)
  {
    hide Printed;
    hide QuoteIdentifier;
    match value
    case Table(name, _) => TableIsPrinted(name.schema.GetOr("dbo"), name.name, rest);
  }

  lemma UdtDeclaration(names: TypeNames, value: SqlType, rest: string)
    requires value.Udt?
    ensures SqlDeclaration(names, value).Ok? && DeclaredType(names, value).Ok?
    ensures SqlDeclaration(names, value).value + rest == Printed(DeclaredType(names, value).value, rest)
  {
    hide Printed;
    hide Join;
    hide UdtParts;
    hide NonEmpty;
    match value
    case Udt(name, _) => UdtIsPrinted(name, rest);
  }

  lemma BuiltInDeclaration(names: TypeNames, value: SqlType, rest: string)
    requires !value.Table? && !value.Udt?
    ensures SqlDeclaration(names, value).Err? <==> DeclaredType(names, value).Err?
    ensures SqlDeclaration(names, value).Ok? ==>
              SqlDeclaration(names, value).value + rest == Printed(DeclaredType(names, value).value, rest)
  {
    hide Printed;
    hide Suffix;
    hide ArgsOf;
    if names(value).Ok? {
      BuiltInIsPrinted(names(value).value, value, rest);
    }
  }

  lemma DeclarationIsPrinted(names: TypeNames, value: SqlType, rest: string)
    ensures SqlDeclaration(names, value).Err? <==> DeclaredType(names, value).Err?
    ensures SqlDeclaration(names, value).Ok? ==>
              SqlDeclaration(names, value).value + rest == Printed(DeclaredType(names, value).value, rest)
  {
    hide Printed;
    hide SqlDeclaration;
    hide DeclaredType;
    if value.Table? {
      TableDeclaration(names, value, rest);
    } else if value.Udt? {
      UdtDeclaration(names, value, rest);
    } else {
      BuiltInDeclaration(names, value, rest);
    }
  }

  lemma DeclaredRoundTrip(names: TypeNames, value: SqlType, rest: string)
    requires PlainNames(names) && DeclaredType(names, value).Ok? && Follows(rest)
    ensures var d := DeclaredType(names, value).value;
      ParseDeclared(Printed(d, rest)) == Some((d, rest))
  {
    hide ParseDeclared;
    hide Printed;
    hide ArgsOf;
    var d := DeclaredType(names, value).value;
    match d {
      case BuiltIn(name, args) => BuiltInRoundTrip(name, args, rest);
      case _ => NameRoundTrip(d, rest);
    }
  }

  lemma NumberedRoundTrip(i: nat, text: string, d: Declared, rest: string)
    requires ParseDeclared(text + rest) == Some((d, rest))
    ensures ParseEntry(Entry(i, text) + rest) == Some(((i + 1, d), rest))
  {
    hide ParseDeclared;
    hide Strip;
    var declared := text + rest;
    var numbered := Digits(i + 1) + (" " + declared);
    assert Entry(i, text) + rest == "@P" + numbered;
    StripConcat("@P", numbered);
    NumberRoundTrip(i + 1, " " + declared);
    StripConcat(" ", declared);
  }

  lemma EntryRoundTrip(names: TypeNames, value: SqlType, i: nat, rest: string)
    requires PlainNames(names) && SqlDeclaration(names, value).Ok? && Follows(rest)
    ensures DeclaredType(names, value).Ok?
    ensures ParseEntry(Entry(i, SqlDeclaration(names, value).value) + rest)
         == Some(((i + 1, DeclaredType(names, value).value), rest))
  {
    hide SqlDeclaration;
    hide DeclaredType;
    hide ParseDeclared;
    hide ParseEntry;
    hide Printed;
    DeclarationIsPrinted(names, value, rest);
    DeclaredRoundTrip(names, value, rest);
    NumberedRoundTrip(i, SqlDeclaration(names, value).value, DeclaredType(names, value).value, rest);
  }

  // ---------------------------------------------------------------------
  // The whole list
  // ---------------------------------------------------------------------

  /** Both encoders of string parameters agree. */
  lemma EncodersAgree(value: SqlType, unicode: bool)
    ensures PreparedEncoding(value, unicode) == EncodeStringParameters(value, unicode)
  {
  }

  /** The number in a parameter's name, which is to be `@P` and digits. */
  function NamedNumber(name: Option<string>): Option<nat> {
    if name.None? then None
    else
      match Strip(name.value, "@P")
      case None => None
      case Some(numbered) =>
        match ParseNumber(numbered)
        case Some((n, "")) => Some(n)
        case _ => None
  }

  /** Number and declared type of each sent parameter from `from` on, the number as its name says. */
  function Expected(names: TypeNames, sent: seq<RpcParameter>, from: nat): Option<seq<(nat, Declared)>>
    requires from <= |sent|
    decreases |sent| - from
  {
    if from == |sent| then Some([])
    else
      match (NamedNumber(sent[from].name), DeclaredType(names, sent[from].value), Expected(names, sent, from + 1))
      case (Some(n), Ok(d), Some(rest)) => Some([(n, d)] + rest)
      case _ => None
  }

  lemma ExpectedEnd(names: TypeNames, sent: seq<RpcParameter>)
    ensures Expected(names, sent, |sent|) == Some([])
  {
  }

  lemma ExpectedFirst(names: TypeNames, sent: seq<RpcParameter>, from: nat)
    requires from < |sent|
    ensures var number, declared, rest := NamedNumber(sent[from].name), DeclaredType(names, sent[from].value), Expected(names, sent, from + 1);
      && (Expected(names, sent, from).Some? <==> number.Some? && declared.Ok? && rest.Some?)
      && (Expected(names, sent, from).Some? ==>
            Expected(names, sent, from).value == [(number.value, declared.value)] + rest.value)
  {
    hide NamedNumber;
    hide DeclaredType;
  }

  /** Sent parameters are called `@P1`, `@P2`, ... in order. */
  lemma NamesAreNumbered(params: seq<SqlType>, unicode: bool, i: nat)
    requires i < |params|
    ensures |BuildParams(params, unicode)| == |params|
    ensures NamedNumber(BuildParams(params, unicode)[i].name) == Some(i + 1)
  {
    var digits := Digits(i + 1);
    StripConcat("@P", digits);
    assert digits + "" == digits;
    NumberRoundTrip(i + 1, "");
  }

  /** Entry and sent parameter `i` have the number `i + 1` and the same type. */
  predicate Fits(names: TypeNames, sent: RpcParameter, entry: (nat, Declared), i: nat) {
    && entry.0 == i + 1 && NamedNumber(sent.name) == Some(i + 1)
    && DeclaredType(names, sent.value) == Ok(entry.1)
  }

  /** The parsed list numbers its entries 1, 2, ..., as the sent parameters are named, and types them as sent. */
  lemma {:induction false} ExpectedEntries(names: TypeNames, params: seq<SqlType>, unicode: bool, from: nat)
    requires from <= |params|
    ensures var sent := BuildParams(params, unicode);
      var list := Expected(names, sent, from);
      && |sent| == |params|
      && (list.Some? ==>
            && |list.value| == |params| - from
            && forall i | from <= i < |params| :: Fits(names, sent[i], list.value[i - from], i))
    decreases |params| - from
  {
    if from < |params| {
      var sent := BuildParams(params, unicode);
      NamesAreNumbered(params, unicode, from);
      ExpectedFirst(names, sent, from);
      ExpectedEntries(names, params, unicode, from + 1);
      hide Expected;
      hide NamedNumber;
      hide DeclaredType;
      if Expected(names, sent, from).Some? {
        ShiftedFits(names, sent, Expected(names, sent, from).value, from);
      }
    }
  }

  lemma ShiftedFits(names: TypeNames, sent: seq<RpcParameter>, list: seq<(nat, Declared)>, from: nat)
    requires |list| == |sent| - from > 0 && Fits(names, sent[from], list[0], from)
    requires forall i | from < i < |sent| :: Fits(names, sent[i], list[1..][i - (from + 1)], i)
    ensures forall i | from <= i < |sent| :: Fits(names, sent[i], list[i - from], i)
  {
    hide Fits;
    forall i | from <= i < |sent| ensures Fits(names, sent[i], list[i - from], i) {
      if i > from {
        assert list[1..][i - (from + 1)] == list[i - from];
      }
    }
  }

  lemma JoinSplits(entries: seq<string>)
    requires entries != []
    ensures Join(entries, ", ")
         == entries[0] + (if |entries| == 1 then "" else ", " + Join(entries[1..], ", "))
  {
  }

  /**
   The declaration list is unambiguous: the parser recovers the number and the declared type of
   every parameter, and these are the types of the parameters sent when the statement runs.
   */
  lemma {:induction false} EntriesRoundTrip(names: TypeNames, params: seq<SqlType>, unicode: bool, from: nat)
    requires PlainNames(names) && from <= |params|
    ensures Entries(names, params, unicode, from).Err? <==> Expected(names, BuildParams(params, unicode), from).None?
    ensures Entries(names, params, unicode, from).Ok? ==>
              && |Entries(names, params, unicode, from).value| == |params| - from
              && (from < |params| ==> Join(Entries(names, params, unicode, from).value, ", ") != "")
              && ParseList(Join(Entries(names, params, unicode, from).value, ", "))
              == Expected(names, BuildParams(params, unicode), from)
    decreases |params| - from
  {
    hide SqlDeclaration;
    hide DeclaredType;
    hide ParseEntry;
    hide Strip;
    hide Expected;
    if from == |params| {
      ExpectedEnd(names, BuildParams(params, unicode));
    }
    if from < |params| {
      var value := BuildParams(params, unicode)[from].value;
      EncodersAgree(params[from], unicode);
      NamesAreNumbered(params, unicode, from);
      ExpectedFirst(names, BuildParams(params, unicode), from);
      hide NamedNumber;
      DeclarationIsPrinted(names, value, "");
      EntriesRoundTrip(names, params, unicode, from + 1);
      var entries := Entries(names, params, unicode, from);
      if entries.Ok? {
        var tail := entries.value[1..];
        var more := Join(tail, ", ");
        var rest := if tail == [] then "" else ", " + more;
        JoinSplits(entries.value);
        assert tail == Entries(names, params, unicode, from + 1).value;
        EntryRoundTrip(names, value, from, rest);
        StripConcat(", ", more);
        var d := DeclaredType(names, value).value;
        var text := entries.value[0] + rest;
        assert ParseEntry(text) == Some(((from + 1, d), rest));
        assert Expected(names, BuildParams(params, unicode), from).value
            == [(from + 1, d)] + Expected(names, BuildParams(params, unicode), from + 1).value;
        if tail == [] {
          var one: seq<(nat, Declared)> := [(from + 1, d)];
          assert one + [] == one;
        } else {
          assert ParseList(text).value == [(from + 1, d)] + ParseList(more).value;
        }
      }
    }
  }

  lemma DeclarationRoundTrip(names: TypeNames, params: seq<SqlType>, unicode: bool)
    requires PlainNames(names)
    ensures ParameterDeclaration(names, params, unicode).Err? <==> Expected(names, BuildParams(params, unicode), 0).None?
    ensures ParameterDeclaration(names, params, unicode).Ok? ==>
              ParseList(ParameterDeclaration(names, params, unicode).value) == Expected(names, BuildParams(params, unicode), 0)
    ensures ParameterDeclaration(names, params, unicode).Ok? ==>
      var sent, list := BuildParams(params, unicode), ParseList(ParameterDeclaration(names, params, unicode).value);
      && list.Some? && |list.value| == |sent| == |params|
      && forall i | 0 <= i < |params| :: Fits(names, sent[i], list.value[i], i)
  {
    EntriesRoundTrip(names, params, unicode, 0);
    ExpectedEntries(names, params, unicode, 0);
    assert ParameterDeclaration(names, params, unicode).Ok? ==>
        ParameterDeclaration(names, params, unicode).value == Join(Entries(names, params, unicode, 0).value, ", ");
    assert ParameterDeclaration(names, params, unicode).Ok? <==> Entries(names, params, unicode, 0).Ok?;
    hide *;
  }

  // ---------------------------------------------------------------------
  // Typed NULLs
  // ---------------------------------------------------------------------

  /** A NULL has no precision or time scale of its own. */
  predicate KeepsArgs(value: SqlType) {
    match value
    case Decimal(Some(p)) => p.precision == 18 && p.scale == 10
    case Numeric(Some(p)) => p.precision == 18 && p.scale == 10
    case Time(Some(t)) => t.scale == 7
    case DateTime2(Some(t)) => t.time.scale == 7
    case DateTimeOffset(Some(t)) => t.datetime2.time.scale == 7
    case _ => true
  }

  predicate Scaled(value: SqlType) {
    value.Decimal? || value.Numeric? || value.Time? || value.DateTime2? || value.DateTimeOffset?
  }

  lemma ScaledNullArgs(value: SqlType)
    requires Scaled(value)
    ensures ArgsOf(IntoTypedNull(value)) == ArgsOf(value) <==> KeepsArgs(value)
  {
  }

  lemma PlainNullArgs(value: SqlType)
    requires !Scaled(value)
    ensures ArgsOf(IntoTypedNull(value)) == ArgsOf(value) && KeepsArgs(value)
  {
  }

  lemma NullKeepsName(names: TypeNames, value: SqlType)
    requires value.Table? || value.Udt?
    ensures DeclaredType(names, IntoTypedNull(value)) == DeclaredType(names, value) && KeepsArgs(value)
  {
    hide ArgsOf;
  }

  lemma NullStaysBuiltIn(value: SqlType)
    requires !value.Table? && !value.Udt?
    ensures !IntoTypedNull(value).Table? && !IntoTypedNull(value).Udt?
  {
  }

  /** A typed NULL is declared like the value it stands for, except for lost precisions and scales. */
  lemma TypedNullDeclaration(names: TypeNames, value: SqlType)
    requires names(IntoTypedNull(value)) == names(value) && names(value).Ok?
    ensures DeclaredType(names, IntoTypedNull(value)) == DeclaredType(names, value) <==> KeepsArgs(value)
  {
    if value.Table? || value.Udt? {
      NullKeepsName(names, value);
    } else {
      NullStaysBuiltIn(value);
      if Scaled(value) {
        ScaledNullArgs(value);
      } else {
        PlainNullArgs(value);
      }
    }
    hide ArgsOf;
    hide IntoTypedNull;
    hide KeepsArgs;
  }

  /** The typed NULL of a time of scale 3 is declared with scale 7. */
  lemma NullTimeLosesScale(names: TypeNames)
    requires names(SqlType.Time(None)) == Ok("time") && names(SqlType.Time(Some(SqlTime(0, 3)))) == Ok("time")
    ensures DeclaredType(names, SqlType.Time(Some(SqlTime(0, 3)))) == Ok(BuiltIn("time", Length(3)))
    ensures DeclaredType(names, IntoTypedNull(SqlType.Time(Some(SqlTime(0, 3))))) == Ok(BuiltIn("time", Length(7)))
  {
  }

  // ---------------------------------------------------------------------
  // Declarations as texts
  // ---------------------------------------------------------------------

  /** A declared length holds the given one, and is unlimited only where the server allows no such length. */
  lemma DeclaredLengths(len: nat)
    ensures ArgsOf(SqlType.NVarchar(None, len)) == if len > 4000 then Max else Length(len)
    ensures ArgsOf(SqlType.Varchar(None, len)) == if len > 8000 then Max else Length(len)
    ensures ArgsOf(SqlType.VarBinary(None, len)) == if len > 8000 then Max else Length(len)
  {
  }

  lemma DeclaredFixedLengths(len: nat)
    ensures ArgsOf(SqlType.NVarcharMax(None)) == ArgsOf(SqlType.VarcharMax(None)) == ArgsOf(SqlType.VarBinaryMax(None)) == Max
    ensures ArgsOf(SqlType.Binary(None, len)) == ArgsOf(SqlType.Char(None, len)) == ArgsOf(SqlType.NChar(None, len)) == Length(len)
  {
  }

  lemma DeclaredDimensions(dimensions: nat)
    ensures ArgsOf(SqlType.Vector(None, dimensions, Float32)) == Length(dimensions)
    ensures ArgsOf(SqlType.Vector(None, dimensions, Float16)) == HalfVector(dimensions)
  {
  }

  /** Decimals and times are declared with their own precision and scale, by default 18, 10 and 7. */
  lemma DeclaredScales(parts: DecimalParts, time: SqlTime, days: nat, offset: int)
    ensures ArgsOf(SqlType.Decimal(Some(parts))) == ArgsOf(SqlType.Numeric(Some(parts))) == Precise(parts.precision, parts.scale)
    ensures ArgsOf(SqlType.Decimal(None)) == ArgsOf(SqlType.Numeric(None)) == Precise(18, 10)
    ensures ArgsOf(SqlType.Time(Some(time))) == Length(time.scale)
    ensures ArgsOf(SqlType.DateTime2(Some(SqlDateTime2(days, time)))) == Length(time.scale)
    ensures ArgsOf(SqlType.DateTimeOffset(Some(SqlDateTimeOffset(SqlDateTime2(days, time), offset)))) == Length(time.scale)
    ensures ArgsOf(SqlType.Time(None)) == ArgsOf(SqlType.DateTime2(None)) == ArgsOf(SqlType.DateTimeOffset(None)) == Length(7)
  {
  }

  predicate Declares(names: TypeNames, value: SqlType, text: string) {
    SqlDeclaration(names, value).Ok? && SqlDeclaration(names, value).value == text
  }

  lemma DigitTexts()
    ensures Digits(42) == "42" && Digits(4000) == "4000"
  {
  }

  lemma PrintedLengths(names: TypeNames)
    requires forall len :: names(SqlType.NVarchar(None, len)) == Ok("nvarchar")
    ensures Declares(names, SqlType.NVarchar(None, 42), "nvarchar(42)")
    ensures Declares(names, SqlType.NVarchar(None, 4000), "nvarchar(4000)")
    ensures Declares(names, SqlType.NVarchar(None, 4001), "nvarchar(MAX)")
  {
    DigitTexts();
    hide Digits;
  }

  lemma PrintedScales(names: TypeNames)
    requires names(SqlType.Numeric(None)) == Ok("numeric") && names(SqlType.Time(None)) == Ok("time")
    requires names(SqlType.Time(Some(SqlTime(0, 3)))) == Ok("time")
    requires forall p :: names(SqlType.Decimal(Some(p))) == Ok("decimal")
    ensures Declares(names, SqlType.Numeric(None), "numeric(18,10)")
    ensures Declares(names, SqlType.Decimal(Some(DecimalParts(true, 8, 2, 125))), "decimal(8,2)")
    ensures Declares(names, SqlType.Time(None), "time(7)")
    ensures Declares(names, SqlType.Time(Some(SqlTime(0, 3))), "time(3)")
  {
    assert Digits(8) == "8" && Digits(2) == "2" && Digits(7) == "7" && Digits(3) == "3";
  }

  lemma TableText(names: TypeNames, name: string)
    ensures Declares(names, SqlType.Table(TvpTypeName(None, name), None),
                     QuoteIdentifier("dbo") + "." + QuoteIdentifier(name) + " READONLY")
  {
    hide QuoteIdentifier;
  }

  lemma PrintedTable(names: TypeNames)
    ensures Declares(names, SqlType.Table(TvpTypeName(None, "ids"), None), "[dbo]" + "." + "[ids]" + " READONLY")
  {
    assert Escaped("dbo") == "dbo" && Escaped("ids") == "ids";
    hide Escaped;
    assert QuoteIdentifier("dbo") == "[dbo]" && QuoteIdentifier("ids") == "[ids]";
    TableText(names, "ids");
    hide *;
    assert Declares(names, SqlType.Table(TvpTypeName(None, "ids"), None),
                    QuoteIdentifier("dbo") + "." + QuoteIdentifier("ids") + " READONLY");
  }

  lemma PrintedBracket(names: TypeNames)
    ensures Declares(names, SqlType.Udt(UdtTypeName(None, Some("a]b"), "p"), None), "[a]]b].[p]")
  {
    assert Escaped("a]b") == "a]]b" && Escaped("p") == "p";
    JoinParts("[a]]b]", "[p]");
    hide Escaped;
    hide Join;
  }

  lemma PrintedGap(names: TypeNames)
    ensures Declares(names, SqlType.Udt(UdtTypeName(Some("d"), None, "p"), None), "[d]..[p]")
  {
    assert Escaped("d") == "d" && Escaped("p") == "p";
    JoinThree("[d]", "", "[p]", "");
    hide Escaped;
    hide Join;
  }

  lemma PrintedEmptyPart(names: TypeNames)
    ensures Declares(names, SqlType.Udt(UdtTypeName(Some(""), Some("t"), "p"), None), "[t].[p]")
  {
    assert Escaped("t") == "t" && Escaped("p") == "p";
    JoinParts("[t]", "[p]");
    hide Escaped;
    hide Join;
  }

  /** Identifiers are bracketed, a closing bracket doubled; empty parts are left out, a missing table schema is `dbo`. */
  lemma PrintedNames(names: TypeNames)
    ensures Declares(names, SqlType.Table(TvpTypeName(None, "ids"), None), "[dbo]" + "." + "[ids]" + " READONLY")
    ensures Declares(names, SqlType.Udt(UdtTypeName(None, Some("a]b"), "p"), None), "[a]]b].[p]")
    ensures Declares(names, SqlType.Udt(UdtTypeName(Some("d"), None, "p"), None), "[d]..[p]")
    ensures Declares(names, SqlType.Udt(UdtTypeName(Some(""), Some("t"), "p"), None), "[t].[p]")
  {
    PrintedTable(names);
    PrintedBracket(names);
    PrintedGap(names);
    PrintedEmptyPart(names);
    hide *;
  }

  lemma JoinParts(a: string, b: string)
    ensures Join([a, b], ".") == a + "." + b
  {
    assert [a, b][1..] == [b];
  }
}
