/** The path-parameter pattern of the endpoint catalog: Java's
    `String.replaceFirst("\\{[^/]+}", replacement)`.

    The pattern matches an opening brace, one or more characters that are not
    a slash, and a closing brace. Java's regex engine takes the leftmost start
    at which a match exists and, because `[^/]+` is greedy, the longest match
    from that start: the match runs to the LAST closing brace before the next
    slash. The replacement is inserted literally (replacements containing `$`
    or a backslash, which Java treats specially, are excluded by callers). */
module PlaceholderRegex {
  import opened Wrappers

  /** s[i..j+1] is a match of the pattern. */
  ghost predicate IsMatch(s: string, i: int, j: int) {
    && 0 <= i
    && i + 2 <= j < |s|
    && s[i] == '{'
    && s[j] == '}'
    && (forall k :: i < k < j ==> s[k] != '/')
  }

  /** s[i..j+1] is the match Java reports: no match starts further left,
      and no longer match starts at i. */
  ghost predicate IsFirstMatch(s: string, i: int, j: int) {
    && IsMatch(s, i, j)
    && (forall i', j' :: 0 <= i' < i ==> !IsMatch(s, i', j'))
    && (forall j' :: j < j' ==> !IsMatch(s, i, j'))
  }

  ghost predicate NoMatch(s: string) {
    forall i, j :: !IsMatch(s, i, j)
  }

  /** The index of the first slash at or after k, or |s| when there is none. */
  function SlashFrom(s: string, k: nat): (e: nat)
    requires k <= |s|
    ensures k <= e <= |s|
    ensures forall m :: k <= m < e ==> s[m] != '/'
    ensures e < |s| ==> s[e] == '/'
    decreases |s| - k
  {
    if k == |s| || s[k] == '/' then k else SlashFrom(s, k + 1)
  }

  /** The index of the last closing brace in s[lo..hi], if any. */
  function LastClose(s: string, lo: nat, hi: nat): (r: Option<nat>)
    requires lo <= hi <= |s|
    ensures r.Some? ==> lo <= r.value < hi && s[r.value] == '}'
    ensures r.Some? ==> forall m :: r.value < m < hi ==> s[m] != '}'
    ensures r.None? ==> forall m :: lo <= m < hi ==> s[m] != '}'
    decreases hi - lo
  {
    if hi == lo then None
    else if s[hi - 1] == '}' then Some(hi - 1)
    else LastClose(s, lo, hi - 1)
  }

  /** The end of the longest match that starts at i, if one does. */
  function LongestMatchAt(s: string, i: nat): (r: Option<nat>)
    requires i < |s|
    ensures r.Some? ==> IsMatch(s, i, r.value)
    ensures r.Some? ==> forall j' :: r.value < j' ==> !IsMatch(s, i, j')
    ensures r.None? ==> forall j :: !IsMatch(s, i, j)
  {
    if s[i] != '{' then None
    else
      var e := SlashFrom(s, i + 1);
      if e < i + 2 then None else LastClose(s, i + 2, e)
  }

  /** The leftmost-longest match starting at or after `from`. */
  function FindFrom(s: string, from: nat): (r: Option<(nat, nat)>)
    requires from <= |s|
    ensures r.Some? ==> from <= r.value.0 && IsMatch(s, r.value.0, r.value.1)
    ensures r.Some? ==> forall i', j' :: from <= i' < r.value.0 ==> !IsMatch(s, i', j')
    ensures r.Some? ==> forall j' :: r.value.1 < j' ==> !IsMatch(s, r.value.0, j')
    ensures r.None? ==> forall i, j :: from <= i ==> !IsMatch(s, i, j)
    decreases |s| - from
  {
    if from == |s| then None
    else
      match LongestMatchAt(s, from)
      case Some(j) => Some((from, j))
      case None => FindFrom(s, from + 1)
  }

  /** The match `replaceFirst` replaces, or None when the pattern does not occur. */
  function FirstMatch(s: string): (r: Option<(nat, nat)>)
    ensures r.Some? ==> IsFirstMatch(s, r.value.0, r.value.1)
    ensures r.None? <==> NoMatch(s)
  {
    FindFrom(s, 0)
  }

  /** There is only one first match. */
  lemma FirstMatchUnique(s: string, i: int, j: int, i2: int, j2: int)
    requires IsFirstMatch(s, i, j) && IsFirstMatch(s, i2, j2)
    ensures i == i2 && j == j2
  {
  }

  /** `s.replaceFirst("\\{[^/]+}", replacement)` for a replacement without
      `$` or backslash. */
  function ReplaceFirst(s: string, replacement: string): (r: string)
    ensures NoMatch(s) ==> r == s
    ensures forall i, j :: IsFirstMatch(s, i, j) ==> r == s[..i] + replacement + s[j + 1..]
  {
    match FirstMatch(s)
    case None => s
    case Some((i, j)) =>
      assert forall i2, j2 :: IsFirstMatch(s, i2, j2) ==> i2 == i && j2 == j by {
        forall i2, j2 | IsFirstMatch(s, i2, j2) ensures i2 == i && j2 == j {
          FirstMatchUnique(s, i, j, i2, j2);
        }
      }
      s[..i] + replacement + s[j + 1..]
  }

  /** A string without an opening brace has no match. */
  lemma NoOpenNoMatch(s: string)
    requires '{' !in s
    ensures NoMatch(s)
  {
    forall i, j ensures !IsMatch(s, i, j) {
      if 0 <= i < |s| {
        assert s[i] in s;
      }
    }
  }

  /** A match in s is a match in x + s, shifted by |x|, and back. */
  lemma MatchShift(x: string, s: string, i: int, j: int)
    requires 0 <= i
    ensures IsMatch(x + s, |x| + i, |x| + j) <==> IsMatch(s, i, j)
  {
    var xs := x + s;
    if IsMatch(s, i, j) {
      forall k | |x| + i < k < |x| + j ensures xs[k] != '/' {
        assert xs[k] == s[k - |x|];
      }
    }
    if IsMatch(xs, |x| + i, |x| + j) {
      forall k | i < k < j ensures s[k] != '/' {
        assert xs[|x| + k] == s[k];
      }
    }
  }

  /** No match starts inside a prefix without an opening brace. */
  lemma NoMatchInPrefix(x: string, s: string)
    requires '{' !in x
    ensures forall i', j' :: 0 <= i' < |x| ==> !IsMatch(x + s, i', j')
  {
    var xs := x + s;
    forall i', j' | 0 <= i' < |x| ensures !IsMatch(xs, i', j') {
      assert xs[i'] == x[i'] && x[i'] in x;
    }
  }

  lemma ShiftNoMatch(x: string, s: string)
    requires '{' !in x
    requires NoMatch(s)
    ensures NoMatch(x + s)
  {
    NoMatchInPrefix(x, s);
    forall i', j' | |x| <= i' ensures !IsMatch(x + s, i', j') {
      MatchShift(x, s, i' - |x|, j' - |x|);
    }
  }

  lemma ShiftFirstMatch(x: string, s: string, i: nat, j: nat)
    requires '{' !in x
    requires IsFirstMatch(s, i, j)
    ensures IsFirstMatch(x + s, |x| + i, |x| + j)
  {
    var xs := x + s;
    var a := |x| + i;
    NoMatchInPrefix(x, s);
    MatchShift(x, s, i, j);
    forall i', j' | |x| <= i' < a ensures !IsMatch(xs, i', j') {
      MatchShift(x, s, i' - |x|, j' - |x|);
    }
    forall j' | |x| + j < j' ensures !IsMatch(xs, a, j') {
      MatchShift(x, s, i, j' - |x|);
    }
  }

  lemma ReplaceShiftedMatch(x: string, s: string, replacement: string, i: nat, j: nat)
    requires '{' !in x
    requires IsFirstMatch(s, i, j)
    ensures ReplaceFirst(x + s, replacement) == x + (s[..i] + replacement + s[j + 1..])
  {
    var xs, a, b := x + s, |x| + i, |x| + j;
    ShiftFirstMatch(x, s, i, j);
    assert ReplaceFirst(xs, replacement) == xs[..a] + replacement + xs[b + 1..];
    assert xs[..a] == x + s[..i];
    assert xs[b + 1..] == s[j + 1..];
  }

  /** A prefix without an opening brace does not move the replaced match. */
  lemma ReplaceFirstAfterPrefix(x: string, s: string, replacement: string)
    requires '{' !in x
    ensures ReplaceFirst(x + s, replacement) == x + ReplaceFirst(s, replacement)
  {
    match FirstMatch(s)
    case None =>
      ShiftNoMatch(x, s);
      assert ReplaceFirst(s, replacement) == s;
      assert ReplaceFirst(x + s, replacement) == x + s;
    case Some((i, j)) =>
      assert ReplaceFirst(s, replacement) == s[..i] + replacement + s[j + 1..];
      ReplaceShiftedMatch(x, s, replacement, i, j);
  }

  /** A string that is one match from end to end is replaced as a whole. */
  lemma ReplaceFirstWhole(s: string, replacement: string)
    requires |s| >= 3 && s[0] == '{' && s[|s| - 1] == '}'
    requires '/' !in s
    ensures ReplaceFirst(s, replacement) == replacement
  {
    forall k | 0 < k < |s| - 1 ensures s[k] != '/' {
      assert s[k] in s;
    }
    assert IsFirstMatch(s, 0, |s| - 1);
    assert s[..0] == [] && s[|s|..] == [];
  }
}
