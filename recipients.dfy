/** Reading the recipient address field of a row: `str(row.get("Email", "")).strip()`. */
module Recipients {
  import opened Template

  /** The characters Python's `str.isspace` accepts, which are the ones
      `str.strip()` removes when called without arguments. */
  const Whitespace: set<char> := {
    '\t', '\n', '\U{0B}', '\U{0C}', '\r', '\U{1C}', '\U{1D}', '\U{1E}', '\U{1F}', ' ',
    '\U{85}', '\U{A0}', '\U{1680}',
    '\U{2000}', '\U{2001}', '\U{2002}', '\U{2003}', '\U{2004}', '\U{2005}',
    '\U{2006}', '\U{2007}', '\U{2008}', '\U{2009}', '\U{200A}',
    '\U{2028}', '\U{2029}', '\U{202F}', '\U{205F}', '\U{3000}'
  }

  predicate IsSpace(c: char)
  {
    c in Whitespace
  }

  ghost predicate AllSpace(s: string)
  {
    forall i :: 0 <= i < |s| ==> IsSpace(s[i])
  }

  /** `s.lstrip()`: drop the leading whitespace. */
  function StripStart(s: string): (r: string)
    decreases |s|
  {
    if s != [] && IsSpace(s[0]) then StripStart(s[1..]) else s
  }

  /** `s.rstrip()`: drop the trailing whitespace. */
  function StripEnd(s: string): (r: string)
    decreases |s|
  {
    if s != [] && IsSpace(s[|s| - 1]) then StripEnd(s[..|s| - 1]) else s
  }

  /** `s.strip()`: the string without its leading and trailing whitespace. */
  function Strip(s: string): (r: string)
  {
    StripEnd(StripStart(s))
  }

  /** lstrip removes a whitespace prefix and stops at the first other character. */
  lemma {:induction false} StripStartShape(s: string)
    ensures var r := StripStart(s);
      |r| <= |s| && r == s[|s| - |r|..] && AllSpace(s[..|s| - |r|]) &&
      (r != [] ==> !IsSpace(r[0]))
    decreases |s|
  {
    if s != [] && IsSpace(s[0]) {
      StripStartShape(s[1..]);
      var r := StripStart(s[1..]);
      assert s[..|s| - |r|] == [s[0]] + s[1..][..|s| - 1 - |r|];
    }
  }

  /** rstrip removes a whitespace suffix and stops at the last other character. */
  lemma {:induction false} StripEndShape(s: string)
    ensures var r := StripEnd(s);
      |r| <= |s| && r == s[..|r|] && AllSpace(s[|r|..]) &&
      (r != [] ==> !IsSpace(r[|r| - 1]))
    decreases |s|
  {
    if s != [] && IsSpace(s[|s| - 1]) {
      var init := s[..|s| - 1];
      StripEndShape(init);
      var r := StripEnd(init);
      assert s[|r|..] == init[|r|..] + [s[|s| - 1]];
    }
  }

  /** lstrip leaves a string that starts with non-whitespace unchanged. */
  lemma StripStartKeeps(s: string)
    requires s == [] || !IsSpace(s[0])
    ensures StripStart(s) == s
  {
  }

  /** rstrip leaves a string that ends with non-whitespace unchanged. */
  lemma StripEndKeeps(s: string)
    requires s == [] || !IsSpace(s[|s| - 1])
    ensures StripEnd(s) == s
  {
  }

  /** What strip removes is whitespace at the two ends and nothing else:
      the result is the slice s[i..j] with only whitespace before i and
      after j. */
  lemma StripShape(s: string)
    ensures |Strip(s)| <= |StripStart(s)| <= |s|
    ensures var i := |s| - |StripStart(s)|;
      var j := i + |Strip(s)|;
      j <= |s| && Strip(s) == s[i..j] && AllSpace(s[..i]) && AllSpace(s[j..])
  {
    var t := StripStart(s);
    StripStartShape(s);
    StripEndShape(t);
    var r := StripEnd(t);
    var i := |s| - |t|;
    assert t == s[i..];
    assert s[i + |r|..] == t[|r|..];
  }

  /** What strip keeps neither starts nor ends with whitespace. */
  lemma StripEnds(s: string)
    ensures var r := Strip(s);
      r != [] ==> !IsSpace(r[0]) && !IsSpace(r[|r| - 1])
  {
    var t := StripStart(s);
    StripStartShape(s);
    StripEndShape(t);
    var r := StripEnd(t);
    assert r != [] ==> r[0] == t[0];
  }

  /** Stripping twice is stripping once. */
  lemma StripIdempotent(s: string)
    ensures Strip(Strip(s)) == Strip(s)
  {
    StripEnds(s);
    var r := Strip(s);
    StripStartKeeps(r);
    StripEndKeeps(r);
  }

  /** The raw address text of a row, as the dispatch loop reads it: the `Email`
      cell, or the empty string when the row has no such column, stripped. */
  function RawEmail(row: Row): (raw: string)
  {
    Strip(if "Email" in row then row["Email"] else "")
  }
}
