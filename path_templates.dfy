/** Endpoint templates as sequences of literal text and named placeholders,
    and what repeated `replaceFirst` does to them.

    `Substitute` is the loop of `APIResources.withParams`: each parameter in
    turn replaces the first remaining match of the placeholder pattern. For a
    WELL-FORMED template (literal text free of braces; after each placeholder,
    no closing brace before the next slash) this is exactly "fill the
    placeholders left to right" (`SubstituteRender`). A template in which two
    placeholders are not separated by a slash is not well-formed: there the
    greedy pattern swallows both at once. */
module PathTemplates {
  import opened PlaceholderRegex

  datatype Piece = Literal(text: string) | Placeholder(name: string)

  function Text(p: Piece): string {
    match p
    case Literal(x) => x
    case Placeholder(n) => "{" + n + "}"
  }

  /** The template string that the pieces spell. */
  function Render(t: seq<Piece>): string
    decreases |t|
  {
    if t == [] then "" else Text(t[0]) + Render(t[1..])
  }

  predicate Braceless(x: string) {
    '{' !in x && '}' !in x
  }

  /** No closing brace occurs in s before its first slash. */
  predicate CloseFreeToSlash(s: string)
    decreases |s|
  {
    s == [] || s[0] == '/' || (s[0] != '}' && CloseFreeToSlash(s[1..]))
  }

  predicate WellFormed(t: seq<Piece>)
    decreases |t|
  {
    if t == [] then true
    else
      && (match t[0]
          case Literal(x) => Braceless(x)
          case Placeholder(n) => n != [] && '/' !in n && Braceless(n) && CloseFreeToSlash(Render(t[1..])))
      && WellFormed(t[1..])
  }

  function Placeholders(t: seq<Piece>): nat
    decreases |t|
  {
    if t == [] then 0 else (if t[0].Placeholder? then 1 else 0) + Placeholders(t[1..])
  }

  /** The template with its first |ps| placeholders (left to right) replaced
      by the parameters; surplus parameters are dropped, surplus placeholders
      stay as they are. */
  function Fill(t: seq<Piece>, ps: seq<string>): seq<Piece>
    decreases |t|
  {
    if t == [] then []
    else if t[0].Literal? then [t[0]] + Fill(t[1..], ps)
    else if ps == [] then t
    else [Literal(ps[0])] + Fill(t[1..], ps[1..])
  }

  /** The `withParams` loop: each parameter replaces the first remaining match. */
  function Substitute(s: string, ps: seq<string>): string
    decreases |ps|
  {
    if ps == [] then s else Substitute(ReplaceFirst(s, ps[0]), ps[1..])
  }

  // ---------------------------------------------------------------------
  // Facts about Substitute on any string
  // ---------------------------------------------------------------------

  /** With no parameters the template is returned unchanged. */
  lemma SubstituteNone(s: string)
    ensures Substitute(s, []) == s
  {
  }

  /** Once nothing matches, further parameters change nothing and raise no error. */
  lemma {:induction false} SubstituteSurplus(s: string, ps: seq<string>)
    requires NoMatch(s)
    ensures Substitute(s, ps) == s
    decreases |ps|
  {
    if ps != [] {
      SubstituteSurplus(ReplaceFirst(s, ps[0]), ps[1..]);
    }
  }

  // ---------------------------------------------------------------------
  // Facts about Fill
  // ---------------------------------------------------------------------

  lemma {:induction false} FillNone(t: seq<Piece>)
    ensures Fill(t, []) == t
    decreases |t|
  {
    if t != [] && t[0].Literal? {
      FillNone(t[1..]);
    }
  }

  /** Filling one parameter and then the rest is filling all of them. */
  lemma {:induction false} FillCompose(t: seq<Piece>, p: string, ps: seq<string>)
    ensures Fill(Fill(t, [p]), ps) == Fill(t, [p] + ps)
    decreases |t|
  {
    if t == [] {
    } else if t[0].Literal? {
      var u := Fill(t[1..], [p]);
      assert ([t[0]] + u)[1..] == u;
      FillCompose(t[1..], p, ps);
    } else {
      FillNone(t[1..]);
      assert ([Literal(p)] + t[1..])[1..] == t[1..];
      assert ([p] + ps)[1..] == ps;
    }
  }

  /** Filling with braceless text keeps a template well-formed. */
  lemma {:induction false} FillWellFormed(t: seq<Piece>, ps: seq<string>)
    requires WellFormed(t)
    requires forall k :: 0 <= k < |ps| ==> Braceless(ps[k])
    ensures WellFormed(Fill(t, ps))
    decreases |t|
  {
    if t == [] {
    } else if t[0].Literal? {
      FillWellFormed(t[1..], ps);
      assert ([t[0]] + Fill(t[1..], ps))[1..] == Fill(t[1..], ps);
    } else if ps != [] {
      FillWellFormed(t[1..], ps[1..]);
      assert ([Literal(ps[0])] + Fill(t[1..], ps[1..]))[1..] == Fill(t[1..], ps[1..]);
    }
  }

  /** k parameters fill min(k, n) of n placeholders; the remaining n - k stay. */
  lemma {:induction false} FillCount(t: seq<Piece>, ps: seq<string>)
    ensures Placeholders(Fill(t, ps)) == if |ps| >= Placeholders(t) then 0 else Placeholders(t) - |ps|
    decreases |t|
  {
    if t == [] {
    } else if t[0].Literal? {
      FillCount(t[1..], ps);
      assert ([t[0]] + Fill(t[1..], ps))[1..] == Fill(t[1..], ps);
    } else if ps != [] {
      FillCount(t[1..], ps[1..]);
      assert ([Literal(ps[0])] + Fill(t[1..], ps[1..]))[1..] == Fill(t[1..], ps[1..]);
    }
  }

  /** A well-formed template without placeholders renders without braces. */
  lemma {:induction false} NoPlaceholderBraceless(t: seq<Piece>)
    requires WellFormed(t) && Placeholders(t) == 0
    ensures Braceless(Render(t))
    decreases |t|
  {
    if t != [] {
      NoPlaceholderBraceless(t[1..]);
    }
  }

  // ---------------------------------------------------------------------
  // One replaceFirst on a rendered template
  // ---------------------------------------------------------------------

  lemma {:induction false} SlashBeforeClose(s: string, k: nat)
    requires CloseFreeToSlash(s)
    requires k < |s| && s[k] == '}'
    ensures exists m :: 0 <= m < k && s[m] == '/'
    decreases |s|
  {
    if s[0] != '/' {
      SlashBeforeClose(s[1..], k - 1);
      var m :| 0 <= m < k - 1 && s[1..][m] == '/';
      assert s[m + 1] == '/';
    }
  }

  /** A closing brace with no slash before it breaks well-formedness. */
  lemma {:induction false} CloseBeforeSlash(s: string, k: nat)
    requires k < |s| && s[k] == '}'
    requires forall m :: 0 <= m < k ==> s[m] != '/'
    ensures !CloseFreeToSlash(s)
    decreases k
  {
    if k > 0 && s[0] != '}' {
      CloseBeforeSlash(s[1..], k - 1);
    }
  }

  /** The first match of "{n}" + rest is exactly "{n}" when the rest has no
      closing brace before its first slash. */
  lemma PlaceholderIsFirstMatch(n: string, rest: string)
    requires n != [] && '/' !in n
    requires CloseFreeToSlash(rest)
    ensures IsFirstMatch("{" + n + "}" + rest, 0, |n| + 1)
  {
    var s := "{" + n + "}" + rest;
    var j := |n| + 1;
    forall k | 0 < k < j ensures s[k] != '/' {
      assert s[k] == n[k - 1] && n[k - 1] in n;
    }
    forall j' | j < j' ensures !IsMatch(s, 0, j') {
      if j' < |s| && s[j'] == '}' {
        var k := j' - j - 1;
        assert rest[k] == s[j'];
        SlashBeforeClose(rest, k);
        var m :| 0 <= m < k && rest[m] == '/';
        assert s[j + 1 + m] == '/';
      }
    }
  }

  lemma ReplaceFirstAtPlaceholder(n: string, rest: string, p: string)
    requires n != [] && '/' !in n
    requires CloseFreeToSlash(rest)
    ensures ReplaceFirst("{" + n + "}" + rest, p) == p + rest
  {
    var s := "{" + n + "}" + rest;
    var j := |n| + 1;
    PlaceholderIsFirstMatch(n, rest);
    assert ReplaceFirst(s, p) == s[..0] + p + s[j + 1..];
    assert s[..0] == [] && s[j + 1..] == rest;
  }

  /** One `replaceFirst` fills the first placeholder of a well-formed template. */
  lemma {:induction false} ReplaceFirstRender(t: seq<Piece>, p: string)
    requires WellFormed(t)
    ensures ReplaceFirst(Render(t), p) == Render(Fill(t, [p]))
    decreases |t|
  {
    if t == [] {
      NoOpenNoMatch("");
    } else if t[0].Literal? {
      var u := Fill(t[1..], [p]);
      ReplaceFirstRender(t[1..], p);
      ReplaceFirstAfterPrefix(t[0].text, Render(t[1..]), p);
      assert ([t[0]] + u)[1..] == u;
    } else {
      var f := [Literal(p)] + t[1..];
      FillNone(t[1..]);
      assert [p][1..] == [];
      assert Fill(t, [p]) == f;
      assert f[1..] == t[1..];
      assert Render(f) == p + Render(t[1..]);
      assert Render(t) == "{" + t[0].name + "}" + Render(t[1..]);
      ReplaceFirstAtPlaceholder(t[0].name, Render(t[1..]), p);
    }
  }

  /** withParams with brace-free parameters on a well-formed template fills
      its placeholders left to right: the first |ps| placeholders are replaced
      by the parameters in order, surplus parameters are ignored, and
      unmatched placeholders stay verbatim. (A parameter holding a `{` can be
      matched again by the next parameter.) */
  lemma {:induction false} SubstituteRender(t: seq<Piece>, ps: seq<string>)
    requires WellFormed(t)
    requires forall k :: 0 <= k < |ps| ==> Braceless(ps[k])
    ensures Substitute(Render(t), ps) == Render(Fill(t, ps))
    decreases |ps|
  {
    if ps == [] {
      FillNone(t);
    } else {
      var t1 := Fill(t, [ps[0]]);
      ReplaceFirstRender(t, ps[0]);
      FillWellFormed(t, [ps[0]]);
      SubstituteRender(t1, ps[1..]);
      FillCompose(t, ps[0], ps[1..]);
      assert [ps[0]] + ps[1..] == ps;
    }
  }

  /** With at least as many parameters as placeholders, no brace is left. */
  lemma ResolvedHasNoBraces(t: seq<Piece>, ps: seq<string>)
    requires WellFormed(t)
    requires forall k :: 0 <= k < |ps| ==> Braceless(ps[k])
    requires |ps| >= Placeholders(t)
    ensures Braceless(Substitute(Render(t), ps))
  {
    SubstituteRender(t, ps);
    FillWellFormed(t, ps);
    FillCount(t, ps);
    NoPlaceholderBraceless(Fill(t, ps));
  }

  /** A template that still has a placeholder shows an opening brace. */
  lemma {:induction false} PlaceholderShows(t: seq<Piece>)
    requires Placeholders(t) > 0
    ensures '{' in Render(t)
    decreases |t|
  {
    if t[0].Placeholder? {
      assert Render(t)[0] == '{';
    } else {
      PlaceholderShows(t[1..]);
      var k :| 0 <= k < |Render(t[1..])| && Render(t[1..])[k] == '{';
      assert Render(t)[|t[0].text| + k] == '{';
    }
  }

  /** With fewer parameters than placeholders, a placeholder is left in the
      result verbatim: withParams raises no error for missing parameters. */
  lemma UnresolvedKeepsBrace(t: seq<Piece>, ps: seq<string>)
    requires WellFormed(t)
    requires forall k :: 0 <= k < |ps| ==> Braceless(ps[k])
    requires |ps| < Placeholders(t)
    ensures '{' in Substitute(Render(t), ps)
  {
    SubstituteRender(t, ps);
    FillCount(t, ps);
    PlaceholderShows(Fill(t, ps));
  }

  // ---------------------------------------------------------------------
  // Substitute on the three template shapes of the catalog
  // ---------------------------------------------------------------------

  lemma SubstituteOne(s: string, p: string)
    ensures Substitute(s, [p]) == ReplaceFirst(s, p)
  {
    assert [p][1..] == [];
  }

  lemma Regroup3(x: string, a: string, b: string, c: string)
    ensures x + a + b + c == x + (a + b + c)
  {
  }

  lemma Regroup4(x: string, a: string, b: string, c: string, d: string)
    ensures x + a + b + c + d == x + (a + b + c + d)
  {
  }

  lemma Regroup7(x: string, a: string, b: string, c: string, d: string, e: string, f: string, g: string)
    ensures x + a + b + c + d + e + f + g == x + (a + b + c + d + e + f + g)
  {
  }

  /** "x{n}": the parameter takes the placeholder's place. */
  lemma SubstituteTrailing(x: string, n: string, p: string)
    requires '{' !in x && n != [] && '/' !in n
    ensures Substitute(x + "{" + n + "}", [p]) == x + p
  {
    Regroup3(x, "{", n, "}");
    assert "{" + n + "}" + [] == "{" + n + "}";
    ReplaceFirstAtPlaceholder(n, [], p);
    ReplaceFirstAfterPrefix(x, "{" + n + "}", p);
    SubstituteOne(x + "{" + n + "}", p);
  }

  /** "x{n}y" with y starting at a slash: the match stops at the slash. */
  lemma SubstituteInner(x: string, n: string, y: string, p: string)
    requires '{' !in x && n != [] && '/' !in n
    requires y != [] && y[0] == '/'
    ensures Substitute(x + "{" + n + "}" + y, [p]) == x + p + y
  {
    Regroup4(x, "{", n, "}", y);
    ReplaceFirstAtPlaceholder(n, y, p);
    ReplaceFirstAfterPrefix(x, "{" + n + "}" + y, p);
    SubstituteOne(x + "{" + n + "}" + y, p);
  }

  lemma SpanningHasNoSlash(n: string, y: string, m: string)
    requires '/' !in n && '/' !in y && '/' !in m
    ensures '/' !in "{" + n + "}" + y + "{" + m + "}"
  {
    var rest := "{" + n + "}" + y + "{" + m + "}";
    forall k | 0 <= k < |rest| ensures rest[k] != '/' {
      var a, b, c := |n| + 1, |n| + 2 + |y|, |n| + 3 + |y|;
      if 0 < k < a {
        assert rest[k] == n[k - 1] && n[k - 1] in n;
      } else if a < k < b {
        assert rest[k] == y[k - a - 1] && y[k - a - 1] in y;
      } else if c <= k < |rest| - 1 {
        assert rest[k] == m[k - c] && m[k - c] in m;
      }
    }
  }

  /** "x{n}y{m}" with no slash between the two placeholders: the greedy match
      spans both, the first parameter replaces all of "{n}y{m}", and the rest
      of the parameters find nothing left to replace. */
  lemma SubstituteSpanning(x: string, n: string, y: string, m: string, p: string, q: string)
    requires '{' !in x && '{' !in p
    requires '/' !in n && '/' !in y && '/' !in m
    ensures Substitute(x + "{" + n + "}" + y + "{" + m + "}", [p, q]) == x + p
  {
    var rest := "{" + n + "}" + y + "{" + m + "}";
    SpanningHasNoSlash(n, y, m);
    assert |rest| >= 3 && rest[0] == '{' && rest[|rest| - 1] == '}';
    ReplaceFirstWhole(rest, p);
    ReplaceFirstAfterPrefix(x, rest, p);
    Regroup7(x, "{", n, "}", y, "{", m, "}");
    SubstituteOne(x + rest, p);
    assert [p, q][1..] == [q];
    NoOpenNoMatch(x + p);
    SubstituteSurplus(x + p, [q]);
  }
}
