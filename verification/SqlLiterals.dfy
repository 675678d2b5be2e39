/** The SQL literals of the table model, and how a database reads them. */
module SqlLiterals {
  import opened Options
  import opened Text

  datatype Variant = Null | Bool(b: bool) | Int64(n: int) | Double(x: real) | Chars(s: string) | Color(rgba: nat)

  /** What a database holds; booleans are numbers there. */
  datatype SqlValue = SqlNull | SqlNumber(x: real) | SqlText(s: string)

  /** The text the stream operator prints for a double, and how the database reads a number that is no integer. */
  datatype Doubles = Doubles(show: real -> string, scan: string -> Option<real>)

  function Escaped(s: string): string {
    if s == "" then "" else (if s[0] == '\'' then "''" else [s[0]]) + Escaped(s[1..])
  }

  /** `variantToSqlLiteral`. */
  function Literal(d: Doubles, v: Variant): string {
    match v
    case Null => "NULL"
    case Bool(b) => if b then "1" else "0"
    case Int64(n) => if n < 0 then "-" + Digits(-n) else Digits(n)
    case Double(x) => d.show(x)
    case Chars(s) => "'" + Escaped(s) + "'"
    case Color(_) => "NULL"
  }

  // ------------------------------------------------------------------ reading

  /** A string literal after its opening quote: its value and what follows it. */
  function ReadQuoted(t: string): Option<(string, string)> {
    if t == "" then None
    else if t[0] != '\'' then
      match ReadQuoted(t[1..])
      case None => None
      case Some(r) => Some(([t[0]] + r.0, r.1))
    else if |t| > 1 && t[1] == '\'' then
      match ReadQuoted(t[2..])
      case None => None
      case Some(r) => Some((['\''] + r.0, r.1))
    else Some(("", t[1..]))
  }

  function ReadInteger(t: string): Option<int> {
    if AllDigits(t) then Some(Value(t, 10))
    else if |t| > 1 && t[0] == '-' && AllDigits(t[1..]) then
      var n: int := Value(t[1..], 10);
      Some(-n)
    else None
  }

  function ReadNumber(d: Doubles, t: string): Option<real> {
    match ReadInteger(t)
    case Some(n) => Some(n as real)
    case None => d.scan(t)
  }

  /** What a literal means to the database; `None` if the statement does not parse. */
  function ReadLiteral(d: Doubles, t: string): Option<SqlValue> {
    if t == "NULL" then Some(SqlNull)
    else if t != "" && t[0] == '\'' then
      match ReadQuoted(t[1..])
      case None => None
      case Some(r) => if r.1 == "" then Some(SqlText(r.0)) else None
    else
      match ReadNumber(d, t)
      case None => None
      case Some(x) => Some(SqlNumber(x))
  }

  /** Whatever the text, its literal is read back as that text, and ends where it ends. */
  lemma {:induction false} QuotedReadsBack(s: string, rest: string)
    requires rest == "" || rest[0] != '\''
    ensures ReadQuoted(Escaped(s) + "'" + rest) == Some((s, rest))
  {
    var t := Escaped(s) + "'" + rest;
    if s == "" {
      assert t == "'" + rest && t[1..] == rest;
    } else {
      QuotedReadsBack(s[1..], rest);
      var u := Escaped(s[1..]) + "'" + rest;
      assert s == [s[0]] + s[1..];
      if s[0] == '\'' { assert t == "''" + u && t[2..] == u; }
      else { assert t == [s[0]] + u && t[1..] == u; }
    }
  }

  lemma TextReadsBack(d: Doubles, s: string)
    ensures ReadLiteral(d, "'" + Escaped(s) + "'") == Some(SqlText(s))
  {
    var t := "'" + Escaped(s) + "'";
    QuotedReadsBack(s, "");
    assert t[1..] == Escaped(s) + "'" + "";
    assert t[0] != "NULL"[0];
  }

  lemma SignedReadsBack(n: int)
    requires n >= 0
    ensures ReadInteger(Digits(n)) == Some(n) && ReadInteger("-" + Digits(n)) == Some(-n)
    ensures Digits(n)[0] != 'N' && Digits(n)[0] != '\''
  {
    DigitsReadBack(n);
    var t := "-" + Digits(n);
    assert t[1..] == Digits(n) && !IsDigit(t[0], 10);
    assert IsDigit(Digits(n)[0], 10);
  }

  lemma NumberIsRead(d: Doubles, t: string, n: int)
    requires ReadInteger(t) == Some(n) && t != "" && t[0] != 'N' && t[0] != '\''
    ensures ReadLiteral(d, t) == Some(SqlNumber(n as real))
  {
    assert t[0] != "NULL"[0];
  }

  lemma IntegerReadsBack(d: Doubles, n: int)
    ensures ReadLiteral(d, Literal(d, Int64(n))) == Some(SqlNumber(n as real))
  {
    SignedReadsBack(if n < 0 then -n else n);
    NumberIsRead(d, Literal(d, Int64(n)), n);
  }

  // ------------------------------------------------------------------ what a literal keeps

  /** The database value that holds exactly what the variant holds; a colour has none. */
  function Denotes(v: Variant): Option<SqlValue> {
    match v
    case Null => Some(SqlNull)
    case Bool(b) => Some(SqlNumber(if b then 1.0 else 0.0))
    case Int64(n) => Some(SqlNumber(n as real))
    case Double(x) => Some(SqlNumber(x))
    case Chars(s) => Some(SqlText(s))
    case Color(_) => None
  }

  /** A colour is never kept, a double only if its printed text still determines it. */
  predicate Kept(d: Doubles, v: Variant) {
    match v
    case Color(_) => false
    case Double(x) => ReadLiteral(d, d.show(x)) == Some(SqlNumber(x))
    case _ => true
  }

  /** The database reads a literal as the value the model shows, exactly for the variants that are kept. */
  lemma LiteralKeepsExactly(d: Doubles, v: Variant)
    ensures ReadLiteral(d, Literal(d, v)) == Denotes(v) <==> Kept(d, v)
  {
    match v
    case Int64(n) => IntegerReadsBack(d, n);
    case Chars(s) => TextReadsBack(d, s);
    case Bool(b) => BoolReadsBack(d, b);
    case _ =>
  }

  lemma BoolReadsBack(d: Doubles, b: bool)
    ensures ReadLiteral(d, Literal(d, Bool(b))) == Some(SqlNumber(if b then 1.0 else 0.0))
  {
    IntegerReadsBack(d, if b then 1 else 0);
    assert Digits(1) == "1" && Digits(0) == "0";
  }

  // ------------------------------------------------------------------ what SELECT yields

  /** `typedValue`. */
  function Typed(v: SqlValue): Variant {
    match v
    case SqlNull => Null
    case SqlNumber(x) => if x.Floor as real == x then Int64(x.Floor) else Double(x)
    case SqlText(s) => Chars(s)
  }

  lemma TypedDenotes(v: SqlValue)
    ensures Denotes(Typed(v)) == Some(v)
  {
  }
}
