/** The lexical layer of the canonical text: quoted strings and decimal integers as
    encoding/json prints them (sections 6 and 7 of RFC 8259), and the proof that each
    can be cut off the front of a longer text in only one way. */
module JsonText {

  /** One hexadecimal digit, lower case. */
  function HexDigit(d: nat): char
    requires d < 16
  {
    if d < 10 then '0' + d as char else 'a' + (d - 10) as char
  }

  /** The letter of a two-character escape, if the encoder has one for this character. */
  function ShortEscape(c: char): (letter: char)
    ensures letter != 'u'
  {
    if c == '\"' then '\"'
    else if c == '\\' then '\\'
    else if c as int == 8 then 'b'
    else if c as int == 12 then 'f'
    else if c as int == 10 then 'n'
    else if c as int == 13 then 'r'
    else if c as int == 9 then 't'
    else '-'
  }

  /** Control characters, the HTML-sensitive characters and the two line separators
      are printed as \u escapes. */
  predicate LongEscaped(c: char) {
    ShortEscape(c) == '-' &&
    (c as int < 0x20 || c in {'<', '>', '&'} || c as int == 0x2028 || c as int == 0x2029)
  }

  function Escape(c: char): string {
    if ShortEscape(c) != '-' then ['\\', ShortEscape(c)]
    else if LongEscaped(c) then
      var n := c as int;
      ['\\', 'u', HexDigit(n / 4096), HexDigit(n / 256 % 16), HexDigit(n / 16 % 16), HexDigit(n % 16)]
    else [c]
  }

  function EscapeAll(s: string): string {
    if s == "" then "" else Escape(s[0]) + EscapeAll(s[1..])
  }

  function Quote(s: string): string {
    "\"" + EscapeAll(s) + "\""
  }

  lemma HexDigitInjective(a: nat, b: nat)
    requires a < 16 && b < 16
    requires HexDigit(a) == HexDigit(b)
    ensures a == b
  {}

  lemma ShortEscapeInjective(c: char, d: char)
    requires ShortEscape(c) == ShortEscape(d) != '-'
    ensures c == d
  {}

  lemma LongEscapeInjective(c: char, d: char)
    requires LongEscaped(c) && LongEscaped(d) && Escape(c) == Escape(d)
    ensures c == d
  {
    var m, n := c as int, d as int;
    var x, y := Escape(c), Escape(d);
    assert x[2] == y[2] && x[3] == y[3] && x[4] == y[4] && x[5] == y[5];
    HexDigitInjective(m / 4096, n / 4096);
    HexDigitInjective(m / 256 % 16, n / 256 % 16);
    HexDigitInjective(m / 16 % 16, n / 16 % 16);
    HexDigitInjective(m % 16, n % 16);
  }

  /** How long an escape is shows in its first two characters. */
  lemma EscapeShape(c: char)
    ensures ShortEscape(c) != '-' ==> Escape(c) == ['\\', ShortEscape(c)]
    ensures ShortEscape(c) == '-' && LongEscaped(c) ==> |Escape(c)| == 6 && Escape(c)[0] == '\\' && Escape(c)[1] == 'u'
    ensures ShortEscape(c) == '-' && !LongEscaped(c) ==> Escape(c) == [c] && c != '\\'
  {}

  lemma SameLengthSplit(a: string, r: string, b: string, q: string)
    requires a + r == b + q && |a| == |b|
    ensures a == b && r == q
  {
    assert a == (a + r)[..|a|] && b == (b + q)[..|b|] && r == (a + r)[|a|..] && q == (b + q)[|b|..];
  }

  /** No escape is a prefix of another one. */
  lemma EscapePrefixFree(c: char, d: char, r: string, q: string)
    requires Escape(c) + r == Escape(d) + q
    ensures c == d && r == q
  {
    EscapeShape(c);
    EscapeShape(d);
    var x, y := Escape(c) + r, Escape(d) + q;
    assert x[0] == y[0] && (x[0] == '\\' ==> x[1] == y[1]);
    SameLengthSplit(Escape(c), r, Escape(d), q);
    if ShortEscape(c) != '-' {
      ShortEscapeInjective(c, d);
    } else if LongEscaped(c) {
      LongEscapeInjective(c, d);
    }
  }

  lemma EscapeNeverQuotes(c: char)
    ensures |Escape(c)| > 0 && Escape(c)[0] != '\"'
  {}

  /** The closing quote is recognised: an escaped text cannot contain it. */
  lemma {:induction false} EscapeAllUnique(s: string, t: string, r: string, q: string)
    requires EscapeAll(s) + "\"" + r == EscapeAll(t) + "\"" + q
    ensures s == t && r == q
    decreases |s| + |t|
  {
    var x, y := EscapeAll(s) + "\"" + r, EscapeAll(t) + "\"" + q;
    if s != "" {
      EscapeNeverQuotes(s[0]);
      assert x[0] == Escape(s[0])[0];
    }
    if t != "" {
      EscapeNeverQuotes(t[0]);
      assert y[0] == Escape(t[0])[0];
    }
    assert (s == "") == (t == "");
    if s == "" {
      assert x[1..] == r && y[1..] == q;
    } else {
      var x', y' := EscapeAll(s[1..]) + "\"" + r, EscapeAll(t[1..]) + "\"" + q;
      assert x == Escape(s[0]) + x';
      assert y == Escape(t[0]) + y';
      EscapePrefixFree(s[0], t[0], x', y');
      EscapeAllUnique(s[1..], t[1..], r, q);
      assert s == [s[0]] + s[1..] && t == [t[0]] + t[1..];
    }
  }

  /** A quoted string can be read off the front of any text in only one way. */
  lemma QuoteUnique(s: string, t: string, r: string, q: string)
    requires Quote(s) + r == Quote(t) + q
    ensures s == t && r == q
  {
    var x, y := Quote(s) + r, Quote(t) + q;
    assert x[1..] == EscapeAll(s) + "\"" + r;
    assert y[1..] == EscapeAll(t) + "\"" + q;
    EscapeAllUnique(s, t, r, q);
  }

  // ---------- reading back ----------

  /** Characters printed as they are. */
  predicate Printable(c: char) {
    c as int >= 0x20 && c !in {'\"', '\\', '<', '>', '&'} && c as int != 0x2028 && c as int != 0x2029
  }

  predicate AllPrintable(s: string) { s == "" || (Printable(s[0]) && AllPrintable(s[1..])) }

  function HexValue(c: char): int {
    if '0' <= c <= '9' then c as int - '0' as int else c as int - 'a' as int + 10
  }

  predicate IsHex(c: char) { '0' <= c <= '9' || 'a' <= c <= 'f' }

  /** Every character's escape, by the character: itself, a backslash and a letter, or the four
      hexadecimal digits of its code. */
  lemma EscapeExactly(c: char)
    ensures Printable(c) ==> Escape(c) == [c]
    ensures c == '\"' ==> Escape(c) == "\\\""
    ensures c == '\\' ==> Escape(c) == "\\\\"
    ensures c == '\n' ==> Escape(c) == "\\n"
    ensures c == '\r' ==> Escape(c) == "\\r"
    ensures c == '\t' ==> Escape(c) == "\\t"
    ensures c as int == 8 ==> Escape(c) == "\\b"
    ensures c as int == 12 ==> Escape(c) == "\\f"
    ensures !Printable(c) && c !in {'\"', '\\', '\n', '\r', '\t'} && c as int != 8 && c as int != 12 ==>
      var e := Escape(c);
      && |e| == 6 && e[..2] == "\\u" && IsHex(e[2]) && IsHex(e[3]) && IsHex(e[4]) && IsHex(e[5])
      && HexValue(e[2]) * 4096 + HexValue(e[3]) * 256 + HexValue(e[4]) * 16 + HexValue(e[5]) == c as int
  {
    if LongEscaped(c) {
      var e, n := Escape(c), c as int;
      HexReadBack(n / 4096);
      HexReadBack(n / 256 % 16);
      HexReadBack(n / 16 % 16);
      HexReadBack(n % 16);
      assert e[..2] == ['\\', 'u'];
    }
  }

  lemma HexReadBack(d: nat)
    requires d < 16
    ensures IsHex(HexDigit(d)) && HexValue(HexDigit(d)) == d
  {}

  /** Text without special characters stands between its quotes as it is. */
  lemma {:induction false} PrintableUnescaped(s: string)
    requires AllPrintable(s)
    ensures EscapeAll(s) == s && Quote(s) == "\"" + s + "\""
  {
    if s != "" {
      EscapeExactly(s[0]);
      PrintableUnescaped(s[1..]);
      assert s == [s[0]] + s[1..];
    }
  }

  predicate IsDigit(c: char) { '0' <= c <= '9' }

  /** Decimal digits without leading zeros. */
  function Digits(n: nat): string {
    if n < 10 then ['0' + n as char] else Digits(n / 10) + ['0' + (n % 10) as char]
  }

  function Decimal(n: int): string {
    if n < 0 then "-" + Digits(-n) else Digits(n)
  }

  lemma {:induction false} DigitsAreDigits(n: nat)
    ensures |Digits(n)| > 0 && forall i :: 0 <= i < |Digits(n)| ==> IsDigit(Digits(n)[i])
  {
    if n >= 10 { DigitsAreDigits(n / 10); }
  }

  /** The number a row of digits stands for. */
  function NumberOf(d: string): int {
    if d == "" then 0 else 10 * NumberOf(d[..|d| - 1]) + (d[|d| - 1] as int - '0' as int)
  }

  /** The digits of a number stand for it, and do not begin with a superfluous zero. */
  lemma {:induction false} DigitsReadBack(n: nat)
    ensures NumberOf(Digits(n)) == n && DigitRun(Digits(n)) && (|Digits(n)| > 1 ==> Digits(n)[0] != '0')
    ensures n > 0 ==> Digits(n)[0] != '0'
  {
    DigitsAreDigits(n);
    if n >= 10 {
      DigitsReadBack(n / 10);
      var d := Digits(n);
      assert d[..|d| - 1] == Digits(n / 10);
    } else {
      assert NumberOf(Digits(n)[..0]) == 0;
    }
  }

  lemma DecimalReadsBack(n: int)
    ensures if n < 0 then Decimal(n) != "" && Decimal(n)[0] == '-' && NumberOf(Decimal(n)[1..]) == -n
            else NumberOf(Decimal(n)) == n
  {
    DigitsReadBack(if n < 0 then -n else n);
    if n < 0 { assert Decimal(n)[1..] == Digits(-n); }
  }

  lemma {:induction false} DigitsInjective(a: nat, b: nat)
    requires Digits(a) == Digits(b)
    ensures a == b
  {
    DigitsAreDigits(a / 10);
    DigitsAreDigits(b / 10);
    if a >= 10 && b >= 10 {
      var x, y := Digits(a), Digits(b);
      assert x[..|x| - 1] == Digits(a / 10) && y[..|y| - 1] == Digits(b / 10);
      assert x[|x| - 1] == y[|y| - 1];
      DigitsInjective(a / 10, b / 10);
    }
  }

  /** The text after a number does not continue it. */
  predicate Stops(r: string) { r == "" || !IsDigit(r[0]) }

  predicate DigitRun(d: string) {
    |d| > 0 && forall i :: 0 <= i < |d| ==> IsDigit(d[i])
  }

  function Signed(negative: bool, d: string): string {
    if negative then "-" + d else d
  }

  /** Where a run of digits ends is visible from what follows it. */
  lemma RunUnique(d: string, e: string, r: string, q: string)
    requires d + r == e + q && Stops(r) && Stops(q) && DigitRun(d) && DigitRun(e)
    ensures d == e && r == q
  {
    var x, y := d + r, e + q;
    assert r != "" ==> x[|d|] == r[0];
    assert q != "" ==> y[|e|] == q[0];
    assert |d| == |e|;
    assert d == x[..|d|] && e == y[..|e|] && r == x[|d|..] && q == y[|e|..];
  }

  lemma SignedShape(s: bool, d: string, r: string)
    requires DigitRun(d)
    ensures var x := Signed(s, d) + r;
            (x[0] == '-') == s && d + r == if s then x[1..] else x
  {
    var x := Signed(s, d) + r;
    if s {
      assert x == "-" + (d + r);
    } else {
      assert x[0] == d[0];
    }
  }

  lemma SignedUnique(s: bool, t: bool, d: string, e: string, r: string, q: string)
    requires Signed(s, d) + r == Signed(t, e) + q
    requires Stops(r) && Stops(q) && DigitRun(d) && DigitRun(e)
    ensures s == t && d == e && r == q
  {
    SignedShape(s, d, r);
    SignedShape(t, e, q);
    RunUnique(d, e, r, q);
  }

  /** A decimal followed by something that is not a digit can be read in only one way. */
  lemma DecimalUnique(a: int, b: int, r: string, q: string)
    requires Decimal(a) + r == Decimal(b) + q && Stops(r) && Stops(q)
    ensures a == b && r == q
  {
    var m, n := if a < 0 then -a else a, if b < 0 then -b else b;
    DigitsAreDigits(m);
    DigitsAreDigits(n);
    assert Decimal(a) == Signed(a < 0, Digits(m)) && Decimal(b) == Signed(b < 0, Digits(n));
    SignedUnique(a < 0, b < 0, Digits(m), Digits(n), r, q);
    DigitsInjective(m, n);
  }

  lemma DecimalHead(n: int)
    ensures |Decimal(n)| > 0
    ensures if n < 0 then Decimal(n)[0] == '-' else IsDigit(Decimal(n)[0])
  {
    DigitsAreDigits(if n < 0 then -n else n);
  }
}
