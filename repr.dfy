/** Python's `repr` of a string, which is what `str(KeyError(key))` shows:
    the text in single quotes, or in double quotes when it contains a
    single quote and no double quote; backslash, the chosen quote, tab,
    newline and carriage return escaped; every other non-printable
    character below U+0100 written as `\xhh` in lower-case hex. */
module PyRepr {

  /** The non-printable characters below U+0100 that have no short escape:
      the C0 controls other than tab, newline and carriage return, DEL, the
      C1 controls, the no-break space and the soft hyphen. */
  predicate HexEscaped(c: char)
  {
    (c < ' ' && c != '\t' && c != '\n' && c != '\r') || ('\U{7F}' <= c <= '\U{A0}') || c == '\U{AD}'
  }

  /** The quote `repr` wraps the text in. */
  function QuoteFor(s: string): (q: char)
  {
    if '\'' in s && '"' !in s then '"' else '\''
  }

  function HexDigit(n: nat): (d: char)
    requires n < 16
  {
    if n < 10 then ('0' as int + n) as char else ('a' as int + n - 10) as char
  }

  /** The value of a lower-case hex digit (0 for any other character). */
  function HexValue(d: char): (n: nat)
    ensures n < 16
  {
    if '0' <= d <= '9' then d as int - '0' as int
    else if 'a' <= d <= 'f' then d as int - 'a' as int + 10
    else 0
  }

  /** How one character is written between quotes q. */
  function EscapeChar(c: char, q: char): (r: string)
  {
    if c == '\\' then "\\\\"
    else if c == q then ['\\', q]
    else if c == '\t' then "\\t"
    else if c == '\n' then "\\n"
    else if c == '\r' then "\\r"
    else if HexEscaped(c) then ['\\', 'x', HexDigit(c as int / 16), HexDigit(c as int % 16)]
    else [c]
  }

  function EscapeAll(s: string, q: char): (r: string)
    decreases |s|
  {
    if s == [] then [] else EscapeChar(s[0], q) + EscapeAll(s[1..], q)
  }

  /** `repr(s)` for a Python `str`. */
  function Repr(s: string): (r: string)
  {
    var q := QuoteFor(s);
    [q] + EscapeAll(s, q) + [q]
  }

  /** Reads escaped text back: the inverse of EscapeAll, whatever the quote. */
  function Unescape(t: string): (s: string)
    decreases |t|
  {
    if t == [] then []
    else if t[0] == '\\' && |t| >= 2 then
      if t[1] == 't' then ['\t'] + Unescape(t[2..])
      else if t[1] == 'n' then ['\n'] + Unescape(t[2..])
      else if t[1] == 'r' then ['\r'] + Unescape(t[2..])
      else if t[1] == 'x' && |t| >= 4 then
        [(HexValue(t[2]) * 16 + HexValue(t[3])) as char] + Unescape(t[4..])
      else [t[1]] + Unescape(t[2..])
    else [t[0]] + Unescape(t[1..])
  }

  lemma HexRoundTrip(n: nat)
    requires n < 16
    ensures HexValue(HexDigit(n)) == n
  {
  }

  /** One escaped character followed by more text reads back as that
      character followed by the rest read back. */
  lemma UnescapeChar(c: char, q: char, t: string)
    requires q == '\'' || q == '"'
    ensures Unescape(EscapeChar(c, q) + t) == [c] + Unescape(t)
  {
    var e := EscapeChar(c, q);
    if HexEscaped(c) && c != '\\' && c != q && c != '\t' && c != '\n' && c != '\r' {
      var hi, lo := c as int / 16, c as int % 16;
      HexRoundTrip(hi);
      HexRoundTrip(lo);
      assert (e + t)[4..] == t;
      assert (HexValue(e[2]) * 16 + HexValue(e[3])) as char == c;
    } else if |e| == 2 {
      assert (e + t)[2..] == t;
    } else {
      assert (e + t)[1..] == t;
    }
  }

  lemma {:induction false} UnescapeEscapeAll(s: string, q: char)
    requires q == '\'' || q == '"'
    ensures Unescape(EscapeAll(s, q)) == s
    decreases |s|
  {
    if s != [] {
      UnescapeEscapeAll(s[1..], q);
      UnescapeChar(s[0], q, EscapeAll(s[1..], q));
    }
  }

  /** `repr` loses nothing: between its two quotes, which are the ones Python
      picks, the text reads back to the original string. Distinct keys
      therefore give distinct error texts. */
  lemma ReprRoundTrip(s: string)
    ensures var r := Repr(s);
      |r| >= 2 && r[0] == QuoteFor(s) && r[|r| - 1] == QuoteFor(s) &&
      Unescape(r[1..|r| - 1]) == s
  {
    var q := QuoteFor(s);
    var r := Repr(s);
    assert r[1..|r| - 1] == EscapeAll(s, q);
    UnescapeEscapeAll(s, q);
  }

  /** A character that needs no escape is written as itself. */
  ghost predicate Plain(s: string)
  {
    forall i :: 0 <= i < |s| ==>
      s[i] != '\'' && s[i] != '\\' && s[i] != '\t' && s[i] != '\n' && s[i] != '\r' && !HexEscaped(s[i])
  }

  lemma {:induction false} EscapeAllPlain(s: string)
    requires Plain(s)
    ensures EscapeAll(s, '\'') == s
    decreases |s|
  {
    if s != [] {
      assert Plain(s[1..]);
      EscapeAllPlain(s[1..]);
    }
  }

  /** Text without quotes, backslashes or non-printable characters is shown
      in single quotes unchanged. */
  lemma ReprPlain(s: string)
    requires Plain(s)
    ensures Repr(s) == "'" + s + "'"
  {
    EscapeAllPlain(s);
  }

  /** Sample texts of `repr`. */
  lemma ReprSamplePlain()
    ensures Repr("Name") == "'Name'"
  {
  }

  lemma ReprSampleApostrophe()
    ensures Repr("it's") == "\"it's\""
  {
  }

  lemma ReprSampleBothQuotes()
    ensures Repr("'\"") == "'\\'\"'"
  {
  }

  lemma ReprSampleEscapes()
    ensures Repr("a\\b") == "'a\\\\b'"
    ensures Repr("\t") == "'\\t'"
    ensures Repr("\U{1B}") == "'\\x1b'"
  {
  }
}
