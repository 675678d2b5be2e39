/** Character-level helpers of the C++ library that both parsers rely on. */
module Text {
  import opened Options

  const TWO_64: nat := 0x1_0000_0000_0000_0000

  /** `std::isspace` in the C locale. */
  predicate IsSpace(c: char) {
    c == ' ' || '\t' <= c <= '\r'
  }

  /** `std::string::find(c)`: the first index of `c`, or the length when there is none. */
  function Find(s: string, c: char): (i: nat)
    ensures i <= |s|
    ensures forall k :: 0 <= k < i ==> s[k] != c
    ensures i < |s| ==> s[i] == c
  {
    if s == "" || s[0] == c then 0 else 1 + Find(s[1..], c)
  }

  /** The pieces `std::getline(stream, piece, sep)` yields: a final empty piece is not one. */
  function Pieces(s: string, sep: char): seq<string>
    decreases |s|
  {
    if s == "" then []
    else
      var i := Find(s, sep);
      [s[..i]] + (if i < |s| then Pieces(s[i + 1..], sep) else [])
  }

  function SkipSpaces(s: string): (r: string)
    ensures |r| <= |s|
  {
    if s != "" && IsSpace(s[0]) then SkipSpaces(s[1..]) else s
  }

  /** What is skipped is white space, and what is left does not begin with any. */
  lemma {:induction false} SkipSpacesCuts(s: string)
    ensures var r := SkipSpaces(s);
      && r == s[|s| - |r|..] && (r != "" ==> !IsSpace(r[0]))
      && forall k :: 0 <= k < |s| - |r| ==> IsSpace(s[k])
  {
    if s != "" && IsSpace(s[0]) {
      SkipSpacesCuts(s[1..]);
      assert forall k :: 1 <= k < |s| ==> s[k] == s[1..][k - 1];
    }
  }

  function SkipSpacesBack(s: string): (r: string)
    ensures |r| <= |s|
  {
    if s != "" && IsSpace(s[|s| - 1]) then SkipSpacesBack(s[..|s| - 1]) else s
  }

  lemma {:induction false} SkipSpacesBackCuts(s: string)
    ensures var r := SkipSpacesBack(s);
      && r == s[..|r|] && (r != "" ==> !IsSpace(r[|r| - 1]))
      && forall k :: |r| <= k < |s| ==> IsSpace(s[k])
  {
    if s != "" && IsSpace(s[|s| - 1]) {
      SkipSpacesBackCuts(s[..|s| - 1]);
    }
  }

  /** Length of the first run of non-space characters. */
  function WordLength(s: string): (n: nat)
    ensures n <= |s|
  {
    if s == "" || IsSpace(s[0]) then 0 else 1 + WordLength(s[1..])
  }

  function DigitValue(c: char): int {
    if '0' <= c <= '9' then c as int - '0' as int
    else if 'a' <= c <= 'z' then c as int - 'a' as int + 10
    else if 'A' <= c <= 'Z' then c as int - 'A' as int + 10
    else -1
  }

  predicate IsDigit(c: char, base: nat) {
    0 <= DigitValue(c) < base
  }

  function DigitRun(s: string, base: nat): (n: nat)
    ensures n <= |s|
    ensures forall k :: 0 <= k < n ==> IsDigit(s[k], base)
    ensures n < |s| ==> !IsDigit(s[n], base)
  {
    if s == "" || !IsDigit(s[0], base) then 0 else 1 + DigitRun(s[1..], base)
  }

  function Value(s: string, base: nat): nat
    requires base == 10 || base == 16
    requires forall k :: 0 <= k < |s| ==> IsDigit(s[k], base)
  {
    if s == "" then 0
    else
      assert IsDigit(s[|s| - 1], base);
      var high := Value(s[..|s| - 1], base);
      (if base == 16 then 16 * high else 10 * high) + DigitValue(s[|s| - 1])
  }

  /** `0x` is skipped in base 16 when a digit follows it. */
  function AfterPrefix(u: string, base: nat): string {
    if base == 16 && |u| > 2 && u[0] == '0' && (u[1] == 'x' || u[1] == 'X') && IsDigit(u[2], 16) then u[2..] else u
  }

  /** As many digits as there are; `None` if there are none or the value does not fit. */
  function LeadingDigits(w: string, base: nat): (v: Option<nat>)
    requires base == 10 || base == 16
    ensures v.Some? ==> v.value < TWO_64 && w != ""
  {
    var digits := w[..DigitRun(w, base)];
    if digits == "" then None
    else
      var n := Value(digits, base);
      if n < TWO_64 then Some(n) else None
  }

  /**
   `std::stoul(s, nullptr, base)` with a 64-bit `unsigned long`: spaces, a sign, `0x` in base 16,
   then digits; `None` stands for the exceptions it throws.
   */
  function Stoul(s: string, base: nat): (v: Option<nat>)
    requires base == 10 || base == 16
    ensures v.Some? ==> v.value < TWO_64 && s != ""
  {
    var t := SkipSpaces(s);
    if t != "" && t[0] == '-' then
      match LeadingDigits(AfterPrefix(t[1..], base), base)
      case None => None
      case Some(n) => Some(if n > 0 then TWO_64 - n else 0)
    else if t != "" && t[0] == '+' then LeadingDigits(AfterPrefix(t[1..], base), base)
    else LeadingDigits(AfterPrefix(t, base), base)
  }

  // ------------------------------------------------------------------ decimal numbers

  /** A number in decimal, without leading zeros. */
  function Digits(n: nat): string {
    if n < 10 then ["0123456789"[n]] else Digits(n / 10) + ["0123456789"[n % 10]]
  }

  predicate AllDigits(t: string) { t != "" && forall k :: 0 <= k < |t| ==> IsDigit(t[k], 10) }

  lemma DigitIs(n: nat)
    requires n < 10
    ensures IsDigit("0123456789"[n], 10) && DigitValue("0123456789"[n]) == n
  {
  }

  lemma {:induction false} DigitsReadBack(n: nat)
    ensures AllDigits(Digits(n)) && Value(Digits(n), 10) == n
    decreases n
  {
    DigitIs(n % 10);
    var t := Digits(n);
    if n < 10 {
      assert t[..0] == "";
    } else {
      DigitsReadBack(n / 10);
      assert t[..|t| - 1] == Digits(n / 10);
    }
  }

  /** A text of plain digits is read as its value. */
  lemma PlainDigits(h: string, base: nat)
    requires base == 10 || base == 16
    requires h != "" && (forall k :: 0 <= k < |h| ==> IsDigit(h[k], base)) && Value(h, base) < TWO_64
    requires forall k :: 0 <= k < |h| ==> !IsSpace(h[k]) && h[k] !in "+-xX"
    ensures Stoul(h, base) == Some(Value(h, base))
  {
    assert SkipSpaces(h) == h && h[0] != '-' && h[0] != '+';
    assert AfterPrefix(h, base) == h;
    DigitsAreRead(h, base);
  }

  lemma DigitsAreRead(h: string, base: nat)
    requires base == 10 || base == 16
    requires h != "" && (forall k :: 0 <= k < |h| ==> IsDigit(h[k], base)) && Value(h, base) < TWO_64
    ensures LeadingDigits(h, base) == Some(Value(h, base))
  {
    assert h[..DigitRun(h, base)] == h;
  }

  /** The decimal text of every 64-bit number reads back as that number. */
  lemma DecimalReadsBack(n: nat)
    requires n < TWO_64
    ensures Stoul(Digits(n), 10) == Some(n)
  {
    DigitsReadBack(n);
    PlainDigits(Digits(n), 10);
  }

  /** `std::stoul` throws on a text that does not begin with white space, a sign or a digit. */
  lemma NoNumber(s: string, base: nat)
    requires base == 10 || base == 16
    requires s != "" && !IsSpace(s[0]) && s[0] != '-' && s[0] != '+' && !IsDigit(s[0], base)
    ensures Stoul(s, base) == None
  {
    assert SkipSpaces(s) == s && AfterPrefix(s, base) == s && s[..DigitRun(s, base)] == "";
  }
}
