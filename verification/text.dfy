/** The string operations the client relies on: ECMAScript's
    `String.prototype.trim` and the blank-string test it stands for. */
module Text {

  /** The code points `trim` removes: the WhiteSpace and LineTerminator
      productions of ECMAScript (tab, vertical tab, form feed, space,
      no-break space, byte order mark, the other Unicode space separators,
      line feed, carriage return, line and paragraph separators). */
  predicate IsWhitespace(c: char) {
    var n := c as int;
    || n == 0x09 || n == 0x0A || n == 0x0B || n == 0x0C || n == 0x0D
    || n == 0x20 || n == 0xA0 || n == 0x1680
    || (0x2000 <= n <= 0x200A)
    || n == 0x2028 || n == 0x2029 || n == 0x202F || n == 0x205F
    || n == 0x3000 || n == 0xFEFF
  }

  /** A string made only of whitespace (the empty string included). */
  predicate IsBlank(s: string) {
    forall i :: 0 <= i < |s| ==> IsWhitespace(s[i])
  }

  /** Drops the leading whitespace. */
  function TrimStart(s: string): (r: string)
    ensures |r| <= |s| && r == s[|s| - |r|..]
    ensures forall i :: 0 <= i < |s| - |r| ==> IsWhitespace(s[i])
    ensures r != [] ==> !IsWhitespace(s[|s| - |r|])
  {
    if s != [] && IsWhitespace(s[0]) then TrimStart(s[1..]) else s
  }

  /** Drops the trailing whitespace. */
  function TrimEnd(s: string): (r: string)
    ensures r <= s
    ensures forall i :: |r| <= i < |s| ==> IsWhitespace(s[i])
    ensures r != [] ==> !IsWhitespace(s[|r| - 1])
  {
    if s != [] && IsWhitespace(s[|s| - 1]) then TrimEnd(s[..|s| - 1]) else s
  }

  /** `s.trim()`: leading whitespace dropped, then trailing whitespace.
      The result is a slice of `s` that neither starts nor ends with
      whitespace, and it is empty exactly when `s` is blank, so the
      JavaScript test `if (s.trim())` is `!IsBlank(s)`. */
  function Trim(s: string): (r: string)
    ensures r == [] <==> IsBlank(s)
    ensures r != [] ==> !IsWhitespace(r[0]) && !IsWhitespace(r[|r| - 1])
    ensures |r| <= |s|
  {
    if s != [] && IsWhitespace(s[0]) then Trim(s[1..]) else TrimEnd(s)
  }

  /** How many whitespace characters `s` starts with. */
  function LeadingSpaces(s: string): (n: nat)
    ensures n <= |s|
  {
    if s != [] && IsWhitespace(s[0]) then 1 + LeadingSpaces(s[1..]) else 0
  }

  /** `r` is the slice of `s` starting at `n`, and everything in `s` on
      either side of it is whitespace. */
  predicate SitsBetweenBlanks(s: string, n: nat, r: string) {
    && n + |r| <= |s|
    && r == s[n..n + |r|]
    && IsBlank(s[..n])
    && IsBlank(s[n + |r|..])
  }

  /** `Trim` keeps exactly the part of `s` between its leading and its
      trailing whitespace: the result is the slice of `s` that starts where
      the leading whitespace ends, and all that lies on either side of that
      slice is whitespace. */
  lemma {:induction false} TrimIsSlice(s: string)
    ensures SitsBetweenBlanks(s, LeadingSpaces(s), Trim(s))
  {
    if s != [] && IsWhitespace(s[0]) {
      TrimIsSlice(s[1..]);
      BehindSpace(s, LeadingSpaces(s[1..]), Trim(s[1..]));
    } else {
      AheadOfSpace(s, Trim(s));
    }
  }

  /** A prefix of `s` followed only by whitespace sits between blanks at 0. */
  lemma AheadOfSpace(s: string, r: string)
    requires r <= s
    requires forall i :: |r| <= i < |s| ==> IsWhitespace(s[i])
    ensures SitsBetweenBlanks(s, 0, r)
  {
    var u := s[|r|..];
    forall i | 0 <= i < |u|
      ensures IsWhitespace(u[i])
    {
      assert u[i] == s[|r| + i];
    }
  }

  /** Behind one more whitespace character, a slice between blanks is still
      between blanks, one position further on. */
  lemma BehindSpace(s: string, n: nat, r: string)
    requires s != [] && IsWhitespace(s[0])
    requires SitsBetweenBlanks(s[1..], n, r)
    ensures SitsBetweenBlanks(s, n + 1, r)
  {
    assert s[1..][n..n + |r|] == s[n + 1..n + 1 + |r|];
    assert s[1..][n + |r|..] == s[n + 1 + |r|..];
    BlankCons(s[0], s[1..][..n]);
    assert [s[0]] + s[1..][..n] == s[..n + 1];
  }

  /** Whitespace in front of a blank string keeps it blank. */
  lemma BlankCons(c: char, s: string)
    requires IsWhitespace(c) && IsBlank(s)
    ensures IsBlank([c] + s)
  {
    forall i | 0 <= i < |[c] + s|
      ensures IsWhitespace(([c] + s)[i])
    {
      if i > 0 {
        assert ([c] + s)[i] == s[i - 1];
      }
    }
  }

  /** `Trim` is the composition of the two one-sided trims. */
  lemma {:induction false} TrimIsBothEnds(s: string)
    ensures Trim(s) == TrimEnd(TrimStart(s))
  {
    if s != [] && IsWhitespace(s[0]) {
      TrimIsBothEnds(s[1..]);
    }
  }
}
