/**
  Character classes and the one string transformation the indexer applies to
  text it reads: the regular-expression class `\w`, the upper-case class
  `[A-Z_]`, and Python's `str.strip()` with no argument.
 */
module Text {

  /** `\w` of a Python 2 pattern compiled without the UNICODE flag: ASCII letters, digits and `_`. */
  predicate IsWordChar(c: char)
  {
    ('a' <= c <= 'z') || ('A' <= c <= 'Z') || ('0' <= c <= '9') || c == '_'
  }

  /** The character class `[A-Z_]`. */
  predicate IsConstChar(c: char)
  {
    ('A' <= c <= 'Z') || c == '_'
  }

  /**
    The characters Python 2's `unicode.isspace()` accepts, which is what
    `strip()` removes from the text of a parsed document.
   */
  predicate IsSpace(c: char)
  {
    || ('\t' <= c <= '\r')
    || ('\U{1C}' <= c <= '\U{1F}')
    || c == ' '
    || c == '\U{85}'
    || c == '\U{A0}'
    || c == '\U{1680}'
    || c == '\U{180E}'
    || ('\U{2000}' <= c <= '\U{200A}')
    || c == '\U{2028}'
    || c == '\U{2029}'
    || c == '\U{202F}'
    || c == '\U{205F}'
    || c == '\U{3000}'
  }

  ghost predicate AllSpace(s: string)
  {
    forall k :: 0 <= k < |s| ==> IsSpace(s[k])
  }

  /** Neither the first nor the last character of `s` is white space. */
  predicate NoEdgeSpace(s: string)
  {
    |s| == 0 || (!IsSpace(s[0]) && !IsSpace(s[|s| - 1]))
  }

  /**
    `r` is what remains of `s` once every leading and every trailing white-space
    character is removed: a slice of `s` with only white space around it and
    none at its own edges.
   */
  ghost predicate IsStripOf(s: string, r: string)
  {
    && NoEdgeSpace(r)
    && exists i :: StrippedAt(s, r, i)
  }

  ghost predicate StrippedAt(s: string, r: string, i: int)
  {
    && 0 <= i <= |s| - |r|
    && s[i..i + |r|] == r
    && AllSpace(s[..i])
    && AllSpace(s[i + |r|..])
  }

  /** Removes leading white space. */
  function StripLeft(s: string): (r: string)
    ensures |r| <= |s| && r == s[|s| - |r|..]
    ensures AllSpace(s[..|s| - |r|])
    ensures |r| == 0 || !IsSpace(r[0])
  {
    if |s| > 0 && IsSpace(s[0]) then StripLeft(s[1..]) else s
  }

  /** Removes trailing white space. */
  function StripRight(s: string): (r: string)
    ensures |r| <= |s| && r == s[..|r|]
    ensures AllSpace(s[|r|..])
    ensures |r| == 0 || !IsSpace(r[|r| - 1])
  {
    if |s| > 0 && IsSpace(s[|s| - 1]) then StripRight(s[..|s| - 1]) else s
  }

  /** Python's `s.strip()`. */
  function Strip(s: string): (r: string)
    ensures IsStripOf(s, r)
  {
    var l := StripLeft(s);
    var r := StripRight(l);
    assert StrippedAt(s, r, |s| - |l|) by {
      assert s[|s| - |l|..][..|r|] == r;
      assert s[|s| - |l| + |r|..] == l[|r|..];
    }
    if |r| > 0 then
      assert !IsSpace(r[0]) by { assert r[0] == l[0]; }
      r
    else
      r
  }

  /** Stripping is determined by its input: at most one string is the strip of `s`. */
  lemma StripUnique(s: string, r1: string, r2: string)
    requires IsStripOf(s, r1) && IsStripOf(s, r2)
    ensures r1 == r2
  {
    var i1 :| StrippedAt(s, r1, i1);
    var i2 :| StrippedAt(s, r2, i2);
  }

  /** Stripping a string that has no white space at its edges changes nothing. */
  lemma StripNoEdgeSpace(s: string)
    requires NoEdgeSpace(s)
    ensures Strip(s) == s
  {
    assert StrippedAt(s, s, 0) by {
      assert s[..0] == [];
      assert s[|s|..] == [];
      assert s[0..|s|] == s;
    }
    StripUnique(s, Strip(s), s);
  }

  /** `strip()` is idempotent. */
  lemma StripIdempotent(s: string)
    ensures Strip(Strip(s)) == Strip(s)
  {
    StripNoEdgeSpace(Strip(s));
  }
}
