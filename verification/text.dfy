/** Character-string helpers with the meaning Python gives them:
    `str.startswith`, `" ".join`, `str.strip`, `str(int)` and `repr(str)`. */
module Text {
  import opened Base

  predicate StartsWith(s: string, prefix: string) {
    |prefix| <= |s| && s[..|prefix|] == prefix
  }

  /** `sep.join(parts)`. */
  function Join(parts: seq<string>, sep: string): string
    decreases |parts|
  {
    if |parts| == 0 then ""
    else if |parts| == 1 then parts[0]
    else parts[0] + sep + Join(parts[1..], sep)
  }

  predicate IsDigit(c: char) {
    '0' <= c <= '9'
  }

  predicate AllDigits(s: string) {
    forall i :: 0 <= i < |s| ==> IsDigit(s[i])
  }

  function DigitChar(d: nat): (c: char)
    requires d < 10
    ensures IsDigit(c) && c as int - '0' as int == d
  {
    ('0' as int + d) as char
  }

  /** Decimal rendering of a natural number, most significant digit first,
      without leading zeros. */
  function NatToString(n: nat): (s: string)
    ensures |s| >= 1 && AllDigits(s)
    ensures |s| > 1 ==> s[0] != '0'
    decreases n
  {
    if n < 10 then [DigitChar(n)] else NatToString(n / 10) + [DigitChar(n % 10)]
  }

  /** Python's `str(n)` for an integer. */
  function IntToString(n: int): string {
    if n < 0 then "-" + NatToString(-n) else NatToString(n)
  }

  /** The number a string of decimal digits denotes. */
  function DigitsValue(s: string): nat
    requires AllDigits(s)
    decreases |s|
  {
    if |s| == 0 then 0
    else DigitsValue(s[..|s| - 1]) * 10 + (s[|s| - 1] as int - '0' as int)
  }

  /** Reading back a canonical decimal integer: an optional minus sign followed
      by at least one digit; anything else is not read. */
  function ParseInt(s: string): Option<int> {
    if |s| > 1 && s[0] == '-' && AllDigits(s[1..]) then Some(0 - DigitsValue(s[1..]) as int)
    else if |s| > 0 && AllDigits(s) then Some(DigitsValue(s))
    else None
  }

  lemma {:induction false} NatToStringRoundTrip(n: nat)
    ensures DigitsValue(NatToString(n)) == n
    decreases n
  {
    var s := NatToString(n);
    if n >= 10 {
      NatToStringRoundTrip(n / 10);
      assert s[..|s| - 1] == NatToString(n / 10);
    }
  }

  /** `str(n)` loses nothing: reading the rendered text back gives `n`. */
  lemma IntToStringRoundTrip(n: int)
    ensures ParseInt(IntToString(n)) == Some(n)
  {
    var s := IntToString(n);
    if n < 0 {
      var digits := NatToString(-n);
      NatToStringRoundTrip(-n);
      assert s == "-" + digits;
      assert s[1..] == digits;
      assert |s| > 1 && s[0] == '-' && AllDigits(s[1..]);
    } else {
      NatToStringRoundTrip(n);
      assert IsDigit(s[0]);
      assert !(|s| > 1 && s[0] == '-');
    }
  }

  /** `str.isspace` for one character: the characters Python treats as
      whitespace (the separators of category Zs and those of bidirectional
      class WS, B or S). */
  predicate IsSpace(c: char) {
    ('\t' <= c <= '\r') || ('\U{001C}' <= c <= ' ') || c == '\U{0085}' || c == '\U{00A0}'
    || c == '\U{1680}' || ('\U{2000}' <= c <= '\U{200A}') || c == '\U{2028}' || c == '\U{2029}'
    || c == '\U{202F}' || c == '\U{205F}' || c == '\U{3000}'
  }

  /** `str.lstrip()`: the suffix left once leading whitespace is removed. */
  function StripStart(s: string): (r: string)
    ensures |r| <= |s| && r == s[|s| - |r|..]
    ensures forall i :: 0 <= i < |s| - |r| ==> IsSpace(s[i])
    ensures |r| > 0 ==> !IsSpace(r[0])
    decreases |s|
  {
    if |s| > 0 && IsSpace(s[0]) then StripStart(s[1..]) else s
  }

  /** `str.rstrip()`: the prefix left once trailing whitespace is removed. */
  function StripEnd(s: string): (r: string)
    ensures |r| <= |s| && r == s[..|r|]
    ensures forall i :: |r| <= i < |s| ==> IsSpace(s[i])
    ensures |r| > 0 ==> !IsSpace(r[|r| - 1])
    decreases |s|
  {
    if |s| > 0 && IsSpace(s[|s| - 1]) then StripEnd(s[..|s| - 1]) else s
  }

  /** `str.strip()`. */
  function Strip(s: string): string {
    StripEnd(StripStart(s))
  }

  /** Text with no whitespace at either end, followed by whitespace, strips
      back to itself: a key file ending in a newline still gives the key. */
  lemma {:induction false} StripTrailing(t: string, tail: string)
    requires |t| > 0 && !IsSpace(t[0]) && !IsSpace(t[|t| - 1])
    requires forall i :: 0 <= i < |tail| ==> IsSpace(tail[i])
    ensures Strip(t + tail) == t
    decreases |tail|
  {
    assert (t + tail)[0] == t[0];
    assert StripStart(t + tail) == t + tail;
    if |tail| == 0 {
      assert t + tail == t;
    } else {
      var s := t + tail;
      assert s[..|s| - 1] == t + tail[..|tail| - 1];
      StripTrailing(t, tail[..|tail| - 1]);
      assert StripStart(t + tail[..|tail| - 1]) == t + tail[..|tail| - 1] by {
        assert (t + tail[..|tail| - 1])[0] == t[0];
      }
    }
  }

  // ------------------------------------------------------------------ repr

  /** The quote `repr` puts around text: a single quote, unless the text
      holds one and no double quote. */
  function ReprQuote(s: string): (q: char)
    ensures q == '"' <==> '\'' in s && '"' !in s
    ensures q == '\'' || q == '"'
  {
    if '\'' in s && '"' !in s then '"' else '\''
  }

  function HexDigit(n: nat): (c: char)
    requires n < 16
  {
    if n < 10 then ('0' as int + n) as char else ('a' as int + n - 10) as char
  }

  function HexValue(c: char): (n: nat)
    ensures n < 16
  {
    if '0' <= c <= '9' then c as int - '0' as int
    else if 'a' <= c <= 'f' then c as int - 'a' as int + 10
    else 0
  }

  lemma HexRoundTrip(n: nat)
    requires n < 16
    ensures HexValue(HexDigit(n)) == n
  {
  }

  /** The characters `repr` writes as `\xNN`: the controls other than tab,
      newline and carriage return, DEL, the Latin-1 controls, the no-break
      space and the soft hyphen (the Latin-1 characters Python does not
      count as printable). */
  predicate HexEscaped(c: char) {
    (c < ' ' && c != '\t' && c != '\n' && c != '\r') || ('\U{007F}' <= c <= '\U{00A0}') || c == '\U{00AD}'
  }

  /** How `repr` writes one character inside quotes `q`. */
  function ReprChar(c: char, q: char): string {
    if c == q || c == '\\' then ['\\', c]
    else if c == '\t' then "\\t"
    else if c == '\n' then "\\n"
    else if c == '\r' then "\\r"
    else if HexEscaped(c) then ['\\', 'x', HexDigit(c as int / 16), HexDigit(c as int % 16)]
    else [c]
  }

  function ReprBody(s: string, q: char): string
    decreases |s|
  {
    if |s| == 0 then "" else ReprChar(s[0], q) + ReprBody(s[1..], q)
  }

  /** Python's `repr` of a `str`, as `%R` writes it into a message. */
  function Repr(s: string): (r: string)
    ensures |r| >= 2 && r[0] == ReprQuote(s) && r[|r| - 1] == ReprQuote(s)
  {
    [ReprQuote(s)] + ReprBody(s, ReprQuote(s)) + [ReprQuote(s)]
  }

  /** Reading a string literal's body back: each escape stands for the
      character it names, anything else for itself. */
  function Unescape(s: string): string
    decreases |s|
  {
    if |s| == 0 then ""
    else if s[0] == '\\' && |s| >= 4 && s[1] == 'x' then
      [(HexValue(s[2]) * 16 + HexValue(s[3])) as char] + Unescape(s[4..])
    else if s[0] == '\\' && |s| >= 2 then
      [if s[1] == 't' then '\t' else if s[1] == 'n' then '\n' else if s[1] == 'r' then '\r' else s[1]]
      + Unescape(s[2..])
    else [s[0]] + Unescape(s[1..])
  }

  lemma UnescapeReprChar(c: char, q: char, rest: string)
    requires q == '\'' || q == '"'
    ensures Unescape(ReprChar(c, q) + rest) == [c] + Unescape(rest)
  {
    var e := ReprChar(c, q);
    var s := e + rest;
    if c == q || c == '\\' || c == '\t' || c == '\n' || c == '\r' {
      assert |e| == 2 && s[0] == '\\' && s[1] == e[1] && s[2..] == rest;
    } else if HexEscaped(c) {
      var hi, lo := c as int / 16, c as int % 16;
      HexRoundTrip(hi);
      HexRoundTrip(lo);
      assert s[0] == '\\' && s[1] == 'x' && s[2] == HexDigit(hi) && s[3] == HexDigit(lo) && s[4..] == rest;
      assert ((hi * 16 + lo) as char) == c;
    } else {
      assert e == [c] && s[0] == c && s[1..] == rest;
    }
  }

  lemma {:induction false} UnescapeReprBody(s: string, q: char)
    requires q == '\'' || q == '"'
    ensures Unescape(ReprBody(s, q)) == s
    decreases |s|
  {
    if |s| > 0 {
      UnescapeReprBody(s[1..], q);
      UnescapeReprChar(s[0], q, ReprBody(s[1..], q));
      assert [s[0]] + s[1..] == s;
    }
  }

  /** `repr` loses nothing: what lies between its quotes reads back as the
      text. */
  lemma ReprReadsBack(s: string)
    ensures var r := Repr(s); Unescape(r[1..|r| - 1]) == s
  {
    var q := ReprQuote(s);
    var r := Repr(s);
    assert r[1..|r| - 1] == ReprBody(s, q);
    UnescapeReprBody(s, q);
  }

  /** A character `repr` writes as it is inside quotes `q`. */
  predicate PlainIn(c: char, q: char) {
    c != q && c != '\\' && c != '\t' && c != '\n' && c != '\r' && !HexEscaped(c)
  }

  lemma {:induction false} ReprBodyPlain(s: string, q: char)
    requires forall i :: 0 <= i < |s| ==> PlainIn(s[i], q)
    ensures ReprBody(s, q) == s
    decreases |s|
  {
    if |s| > 0 {
      ReprBodyPlain(s[1..], q);
      assert ReprChar(s[0], q) == [s[0]];
      assert [s[0]] + s[1..] == s;
    }
  }

  /** Text without a single quote, a backslash or a character Python
      escapes is written as it is, between single quotes. */
  lemma ReprPlain(s: string)
    requires forall i :: 0 <= i < |s| ==> PlainIn(s[i], '\'')
    ensures Repr(s) == "'" + s + "'"
  {
    assert '\'' !in s by {
      forall i | 0 <= i < |s| ensures s[i] != '\'' {
        assert PlainIn(s[i], '\'');
      }
    }
    ReprBodyPlain(s, '\'');
  }

  /** A single quote in the text switches to double quotes. */
  lemma ReprSwitchesQuote()
    ensures Repr("a'b") == "\"a'b\""
  {
    var s := "a'b";
    assert s[1] == '\'';
    assert ReprQuote(s) == '"';
    assert PlainIn(s[0], '"') && PlainIn(s[1], '"') && PlainIn(s[2], '"');
    ReprBodyPlain(s, '"');
  }

  /** A backslash is doubled. */
  lemma ReprDoublesBackslash()
    ensures Repr("a\\b") == "'a\\\\b'"
  {
    var s := "a\\b";
    assert ReprQuote(s) == '\'' by {
      assert forall i :: 0 <= i < |s| ==> s[i] != '\'';
    }
    assert s[1..] == "\\b" && s[2..] == "b" && s[3..] == "";
    assert ReprBody("b", '\'') == "b";
    assert ReprBody("\\b", '\'') == "\\\\b";
  }
}
