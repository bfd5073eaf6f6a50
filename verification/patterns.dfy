/**
  The two regular expressions that classify an anchor name, each stated
  declaratively ("there is a split point such that ...") and implemented by a
  scan, with the scan proved to agree with the statement.

    METHOD_PATTERN  (.*\.?\w+)\.prototype\.(\w+)   used with `search`
    CONST_PATTERN   .*\.[A-Z_]+$                    used with `search`

  `.` is taken to match every character (anchor names hold no newline), and
  `\w` is `Text.IsWordChar`.
 */
module Patterns {
  import opened Wrappers
  import opened Text

  /** The literal `\.prototype\.` of the method pattern. */
  const Prototype: string := ".prototype."

  /* ---------------------------------------------------------------------- */
  /* METHOD_PATTERN                                                          */
  /* ---------------------------------------------------------------------- */

  /**
    `g` can be matched by the group-1 sub-pattern `.*\.?\w+`: some prefix, an
    optional dot at `i` (when `j == i + 1`), then one or more word characters
    from `j` to the end.
   */
  ghost predicate Group1Parse(g: string, i: int, j: int)
  {
    && 0 <= i <= j < |g|
    && (j == i || (j == i + 1 && g[i] == '.'))
    && forall k :: j <= k < |g| ==> IsWordChar(g[k])
  }

  /** `.*\.?\w+` accepts exactly the strings whose last character is a word character. */
  lemma Group1Shape(g: string)
    ensures (exists i, j :: Group1Parse(g, i, j)) <==> (|g| > 0 && IsWordChar(g[|g| - 1]))
  {
    if |g| > 0 && IsWordChar(g[|g| - 1]) {
      assert Group1Parse(g, |g| - 1, |g| - 1);
    }
  }

  /**
    Position `e` splits `s` as the method pattern needs: `s[..e]` is a group 1
    (it ends in a word character), the literal `.prototype.` follows, and a
    word character starts group 2 right after it.
   */
  predicate IsMethodSplit(s: string, e: int)
  {
    && 1 <= e
    && e + |Prototype| < |s|
    && IsWordChar(s[e - 1])
    && s[e..e + |Prototype|] == Prototype
    && IsWordChar(s[e + |Prototype|])
  }

  /** `METHOD_PATTERN.search(s)` succeeds. */
  ghost predicate MethodPatternMatches(s: string)
  {
    exists e :: IsMethodSplit(s, e)
  }

  /** `s[i..j]` is the longest run of word characters starting at `i`. */
  ghost predicate IsMaximalWordRun(s: string, i: int, j: int)
  {
    && 0 <= i <= j <= |s|
    && (forall k :: i <= k < j ==> IsWordChar(s[k]))
    && (j == |s| || !IsWordChar(s[j]))
  }

  /**
    The groups `search` reports: the greedy `.*` pushes group 1 to the
    rightmost split `e`, and the greedy `(\w+)` takes the whole word run after
    `.prototype.`, ending at `j`; the rest of `s` is not part of the match.
   */
  ghost predicate MethodGroups(s: string, e: int, j: int)
  {
    && IsMethodSplit(s, e)
    && (forall e' :: IsMethodSplit(s, e') ==> e' <= e)
    && IsMaximalWordRun(s, e + |Prototype|, j)
  }

  /** The two groups of a method-pattern match. */
  datatype MethodMatch = MethodMatch(group1: string, group2: string)

  /** End of the run of word characters that starts at `i`. */
  function WordRunEnd(s: string, i: nat): (j: nat)
    requires i <= |s|
    ensures IsMaximalWordRun(s, i, j)
    decreases |s| - i
  {
    if i < |s| && IsWordChar(s[i]) then WordRunEnd(s, i + 1) else i
  }

  /** Scans split positions from `k` downwards and returns the first one found. */
  function LastSplitAtOrBelow(s: string, k: int): (r: Option<nat>)
    ensures r.Some? ==> IsMethodSplit(s, r.value) && r.value <= k
    ensures r.Some? ==> forall e :: r.value < e <= k ==> !IsMethodSplit(s, e)
    ensures r.None? ==> forall e :: e <= k ==> !IsMethodSplit(s, e)
    decreases k
  {
    if k < 1 then None
    else if IsMethodSplit(s, k) then Some(k)
    else LastSplitAtOrBelow(s, k - 1)
  }

  /** `METHOD_PATTERN.search(s)`, returning the two groups when it matches. */
  function SearchMethod(s: string): (r: Option<MethodMatch>)
    ensures r.None? <==> !MethodPatternMatches(s)
    ensures r.Some? ==>
      exists e, j :: MethodGroups(s, e, j) && r.value.group1 == s[..e] && r.value.group2 == s[e + |Prototype|..j]
  {
    match LastSplitAtOrBelow(s, |s|)
    case None => None
    case Some(e) =>
      var j := WordRunEnd(s, e + |Prototype|);
      assert MethodGroups(s, e, j);
      Some(MethodMatch(s[..e], s[e + |Prototype|..j]))
  }

  /* ---------------------------------------------------------------------- */
  /* CONST_PATTERN                                                           */
  /* ---------------------------------------------------------------------- */

  /** Position `i` holds a dot followed, up to the end of `s`, by one or more `[A-Z_]`. */
  ghost predicate IsConstSplit(s: string, i: int)
  {
    && 0 <= i
    && i + 1 < |s|
    && s[i] == '.'
    && forall k :: i < k < |s| ==> IsConstChar(s[k])
  }

  /** `CONST_PATTERN.search(s)` succeeds. */
  ghost predicate ConstPatternMatches(s: string)
  {
    exists i :: IsConstSplit(s, i)
  }

  /** Start of the run of `[A-Z_]` characters that ends at `k`. */
  function ConstRunStart(s: string, k: nat): (j: nat)
    requires k <= |s|
    ensures j <= k
    ensures forall m :: j <= m < k ==> IsConstChar(s[m])
    ensures j == 0 || !IsConstChar(s[j - 1])
  {
    if k > 0 && IsConstChar(s[k - 1]) then ConstRunStart(s, k - 1) else k
  }

  /** The scan for the constant pattern: the trailing `[A-Z_]` run is non-empty and a dot precedes it. */
  function MatchesConst(s: string): (b: bool)
    ensures b <==> ConstPatternMatches(s)
  {
    var j := ConstRunStart(s, |s|);
    if 1 <= j < |s| && s[j - 1] == '.' then
      assert IsConstSplit(s, j - 1);
      true
    else
      // a dot at i ends the upper-case run, so the run would start at i + 1
      assert forall i :: IsConstSplit(s, i) ==> j == i + 1;
      false
  }
}
