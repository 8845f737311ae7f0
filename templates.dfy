/**
 * The placeholder renderer of the /deploy handler (api/app.js:90-92):
 * `template.replace(/\$\{USERNAME\}/g, user).replace(/\$\{DOMAIN\}/g, domain)`.
 *
 * A global replace with a literal pattern scans left to right, replaces
 * non-overlapping matches and never rescans the text it inserts.  The
 * literal replacement `ReplaceAll` is specified by `LeftmostSplit`: the
 * template cut at the leftmost non-overlapping matches, the way
 * `split(pattern)` cuts it.  JavaScript also expands `$&`, `$$`, `` $` ``
 * and `$'` inside the replacement string; `JsReplaceAll` models that, and
 * the two agree when the replacement has no '$'.
 */
module Templates {
  import opened Sanitizer

  const UserPlaceholder := "${USERNAME}"
  const DomainPlaceholder := "${DOMAIN}"

  /** `pat` occurs in `s` starting at position `i`. */
  predicate MatchAt(s: string, pat: string, i: int)
  {
    0 <= i && i + |pat| <= |s| && s[i..i + |pat|] == pat
  }

  /** No occurrence of `pat` in `s` starts before position `n`. */
  predicate NoMatchBefore(s: string, pat: string, n: int)
  {
    forall i :: 0 <= i < n ==> !MatchAt(s, pat, i)
  }

  predicate NoMatch(s: string, pat: string)
  {
    NoMatchBefore(s, pat, |s|)
  }

  /** Literal global replacement of `pat` by `rep`. */
  function ReplaceAll(s: string, pat: string, rep: string): string
    requires pat != []
    decreases |s|
  {
    if |s| < |pat| then s
    else if s[..|pat|] == pat then rep + ReplaceAll(s[|pat|..], pat, rep)
    else [s[0]] + ReplaceAll(s[1..], pat, rep)
  }

  /** The pieces joined with `sep` between each two neighbours. */
  function Join(parts: seq<string>, sep: string): string
    requires |parts| > 0
  {
    if |parts| == 1 then parts[0] else parts[0] + sep + Join(parts[1..], sep)
  }

  /**
   * `parts` cuts `s` at the leftmost non-overlapping occurrences of `pat`:
   * joined with `pat` they give `s` back, every piece but the last is
   * followed by an occurrence that is the first one from the start of that
   * piece, and the last piece holds no occurrence at all.
   */
  ghost predicate LeftmostSplit(s: string, pat: string, parts: seq<string>)
  {
    |parts| > 0 && Join(parts, pat) == s &&
    (forall k :: 0 <= k < |parts| - 1 ==> NoMatchBefore(parts[k] + pat, pat, |parts[k]|)) &&
    NoMatch(parts[|parts| - 1], pat)
  }

  lemma MatchAtShift(c: char, s: string, pat: string, i: int)
    requires 0 <= i
    ensures MatchAt([c] + s, pat, i + 1) == MatchAt(s, pat, i)
  {
    if i + |pat| <= |s| {
      assert ([c] + s)[i + 1..i + 1 + |pat|] == s[i..i + |pat|];
    }
  }

  lemma MatchAtExtend(t: string, u: string, pat: string, i: int)
    requires 0 <= i && i + |pat| <= |t|
    ensures MatchAt(t + u, pat, i) == MatchAt(t, pat, i)
  {
    assert (t + u)[i..i + |pat|] == t[i..i + |pat|];
  }

  /** The cut of `s` at the leftmost non-overlapping occurrences of `pat`. */
  function Split(s: string, pat: string): (parts: seq<string>)
    requires pat != []
    ensures LeftmostSplit(s, pat, parts)
    decreases |s|
  {
    if |s| < |pat| then
      [s]
    else if s[..|pat|] == pat then
      var rest := Split(s[|pat|..], pat);
      assert NoMatchBefore([] + pat, pat, 0);
      assert Join([[]] + rest, pat) == [] + pat + Join(rest, pat);
      assert s == [] + pat + s[|pat|..];
      assert forall k :: 1 <= k < |rest| + 1 ==> ([[]] + rest)[k] == rest[k - 1];
      [[]] + rest
    else
      var rest := Split(s[1..], pat);
      SplitCons(s, pat, rest);
      [[s[0]] + rest[0]] + rest[1..]
  }

  /** The case of `Split` where no occurrence starts at position 0. */
  lemma SplitCons(s: string, pat: string, rest: seq<string>)
    requires pat != [] && |s| >= |pat| && s[..|pat|] != pat
    requires LeftmostSplit(s[1..], pat, rest)
    ensures LeftmostSplit(s, pat, [[s[0]] + rest[0]] + rest[1..])
  {
    var first := [s[0]] + rest[0];
    var parts := [first] + rest[1..];
    assert s == [s[0]] + s[1..];
    JoinCons(s[0], rest, pat);
    assert !MatchAt(s, pat, 0);
    forall k | 0 <= k < |parts| - 1
      ensures NoMatchBefore(parts[k] + pat, pat, |parts[k]|)
    {
      if k == 0 {
        forall i | 0 <= i < |first|
          ensures !MatchAt(first + pat, pat, i)
        {
          if i == 0 {
            MatchAtExtend(first + pat, Join(rest[1..], pat), pat, 0);
            assert (first + pat) + Join(rest[1..], pat) == s;
          } else {
            assert first + pat == [s[0]] + (rest[0] + pat);
            MatchAtShift(s[0], rest[0] + pat, pat, i - 1);
          }
        }
      } else {
        assert parts[k] == rest[k];
      }
    }
    if |parts| == 1 {
      forall i | 0 <= i < |first|
        ensures !MatchAt(first, pat, i)
      {
        if i == 0 {
          assert first == s;
        } else {
          MatchAtShift(s[0], rest[0], pat, i - 1);
        }
      }
    }
  }

  lemma JoinCons(c: char, parts: seq<string>, sep: string)
    requires |parts| > 0
    ensures Join([[c] + parts[0]] + parts[1..], sep) == [c] + Join(parts, sep)
  {
    var q := [[c] + parts[0]] + parts[1..];
    if |parts| > 1 {
      assert q[1..] == parts[1..];
    }
  }

  /**
   * Replacement skips a prefix in which no occurrence starts: that prefix is
   * copied as it is.
   */
  lemma {:induction false} ReplaceAllSkips(s: string, pat: string, rep: string, n: nat)
    requires pat != [] && n <= |s| && NoMatchBefore(s, pat, n)
    ensures ReplaceAll(s, pat, rep) == s[..n] + ReplaceAll(s[n..], pat, rep)
    decreases n
  {
    if n > 0 && |s| >= |pat| {
      assert !MatchAt(s, pat, 0);
      forall i | 0 <= i < n - 1
        ensures !MatchAt(s[1..], pat, i)
      {
        assert s == [s[0]] + s[1..];
        MatchAtShift(s[0], s[1..], pat, i);
      }
      ReplaceAllSkips(s[1..], pat, rep, n - 1);
      assert s[1..][n - 1..] == s[n..];
      assert [s[0]] + s[1..][..n - 1] == s[..n];
    } else if n > 0 {
      var tail := s[n..];
      assert |tail| == |s| - n < |pat|;
      assert ReplaceAll(tail, pat, rep) == tail;
      assert s[..n] + tail == s;
    }
  }

  /** A text without occurrences is returned unchanged. */
  lemma ReplaceAllNoMatch(s: string, pat: string, rep: string)
    requires pat != [] && NoMatch(s, pat)
    ensures ReplaceAll(s, pat, rep) == s
  {
    ReplaceAllSkips(s, pat, rep, |s|);
    assert s[..|s|] == s;
  }

  /**
   * Replacement is the leftmost cut joined with the replacement text,
   * whatever that text contains: the text between occurrences is kept and
   * inserted text is not rescanned.
   */
  lemma {:induction false} ReplaceAllIsJoin(s: string, pat: string, rep: string, parts: seq<string>)
    requires pat != [] && LeftmostSplit(s, pat, parts)
    ensures ReplaceAll(s, pat, rep) == Join(parts, rep)
    decreases |parts|
  {
    if |parts| == 1 {
      ReplaceAllNoMatch(s, pat, rep);
    } else {
      var p, rest := parts[0], parts[1..];
      var tail := Join(rest, pat);
      assert s == (p + pat) + tail;
      forall i | 0 <= i < |p|
        ensures !MatchAt(s, pat, i)
      {
        MatchAtExtend(p + pat, tail, pat, i);
      }
      ReplaceAllSkips(s, pat, rep, |p|);
      assert s[..|p|] == p;
      var t := s[|p|..];
      assert t == pat + tail;
      assert t[..|pat|] == pat && t[|pat|..] == tail;
      forall k | 0 <= k < |rest| - 1
        ensures NoMatchBefore(rest[k] + pat, pat, |rest[k]|)
      {
        assert rest[k] == parts[k + 1];
      }
      assert LeftmostSplit(tail, pat, rest);
      ReplaceAllIsJoin(tail, pat, rep, rest);
    }
  }

  /** The same statement for the cut computed by `Split`. */
  lemma ReplaceAllIsSplitJoin(s: string, pat: string, rep: string)
    requires pat != []
    ensures ReplaceAll(s, pat, rep) == Join(Split(s, pat), rep)
  {
    ReplaceAllIsJoin(s, pat, rep, Split(s, pat));
  }

  /** The two passes, USERNAME first, with literal replacement. */
  function Render(template: string, user: string, domain: string): string
  {
    ReplaceAll(ReplaceAll(template, UserPlaceholder, user), DomainPlaceholder, domain)
  }

  /**
   * A template that holds neither placeholder, for instance one whose only
   * placeholders are other `${...}` names, is rendered verbatim.
   */
  lemma RenderWithoutPlaceholders(template: string, user: string, domain: string)
    requires NoMatch(template, UserPlaceholder) && NoMatch(template, DomainPlaceholder)
    ensures Render(template, user, domain) == template
  {
    ReplaceAllNoMatch(template, UserPlaceholder, user);
    ReplaceAllNoMatch(template, DomainPlaceholder, domain);
  }

  /**
   * Text without '$' holds no placeholder, neither on its own nor next to
   * the pieces around it: every placeholder window starts with '$'.
   */
  lemma NoDollarNoMatch(s: string, pat: string)
    requires pat != [] && pat[0] == '$' && '$' !in s
    ensures NoMatch(s, pat)
  {
    forall i | 0 <= i < |s|
      ensures !MatchAt(s, pat, i)
    {
      if i + |pat| <= |s| {
        assert s[i..i + |pat|][0] == s[i];
      }
    }
  }

  /**
   * `${USERNAME}` alone renders to the user name, when that name holds no
   * '$' (a sanitised name never does): the DOMAIN pass finds nothing in it.
   */
  lemma RenderUserPlaceholder(user: string, domain: string)
    requires '$' !in user
    ensures Render(UserPlaceholder, user, domain) == user
  {
    var u := UserPlaceholder;
    assert u[..|u|] == u && u[|u|..] == [];
    assert ReplaceAll([], u, user) == [];
    assert ReplaceAll(u, u, user) == user + ReplaceAll([], u, user);
    assert ReplaceAll(u, u, user) == user;
    NoDollarNoMatch(user, DomainPlaceholder);
    ReplaceAllNoMatch(user, DomainPlaceholder, domain);
  }

  /**
   * `${DOMAIN}` alone renders to the domain, whatever the domain holds: the
   * inserted text is not rescanned, even if it contains a placeholder.
   */
  lemma RenderDomainPlaceholder(user: string, domain: string)
    ensures Render(DomainPlaceholder, user, domain) == domain
  {
    var d := DomainPlaceholder;
    assert NoMatch(d, UserPlaceholder) by {
      forall i | 0 <= i < |d|
        ensures !MatchAt(d, UserPlaceholder, i)
      {
      }
    }
    ReplaceAllNoMatch(d, UserPlaceholder, user);
    assert d[..|d|] == d && d[|d|..] == [];
    assert ReplaceAll(d, d, domain) == domain + ReplaceAll([], d, domain);
  }

  /** No character of `s` occurs in `pat`. */
  predicate Avoids(s: string, pat: string)
  {
    forall i :: 0 <= i < |s| ==> s[i] !in pat
  }

  /** Literal replacement applied to each piece. */
  function ReplaceEach(parts: seq<string>, pat: string, rep: string): (r: seq<string>)
    requires pat != []
    ensures |r| == |parts|
    ensures forall i :: 0 <= i < |parts| ==> r[i] == ReplaceAll(parts[i], pat, rep)
  {
    if parts == [] then [] else [ReplaceAll(parts[0], pat, rep)] + ReplaceEach(parts[1..], pat, rep)
  }

  /** A window that covers `c`, which is not part of the pattern, is no match. */
  lemma WindowAtBarrier(a: string, c: char, b: string, pat: string)
    requires c !in pat && |a| < |pat| <= |a| + 1 + |b|
    ensures (a + [c] + b)[..|pat|] != pat
  {
    assert (a + [c] + b)[..|pat|][|a|] == c;
  }

  /**
   * A character that is not part of the pattern is a barrier: no match
   * spans it, so replacing around it is replacing on each side.
   */
  lemma {:induction false} ReplaceAllBarrier(a: string, c: char, b: string, pat: string, rep: string)
    requires pat != [] && c !in pat
    ensures ReplaceAll(a + [c] + b, pat, rep) == ReplaceAll(a, pat, rep) + [c] + ReplaceAll(b, pat, rep)
    decreases |a|
  {
    var s := a + [c] + b;
    if |s| < |pat| {
      assert ReplaceAll(a, pat, rep) == a && ReplaceAll(b, pat, rep) == b;
    } else if |a| < |pat| {
      WindowAtBarrier(a, c, b, pat);
      if a == [] {
        assert s[1..] == b;
      } else {
        assert ReplaceAll(a[1..], pat, rep) == a[1..];
        assert a == [a[0]] + a[1..];
        assert s[1..] == a[1..] + [c] + b;
        ReplaceAllBarrier(a[1..], c, b, pat, rep);
      }
    } else {
      BarrierAfterWindow(a, c, b, pat, rep);
    }
  }

  /** The step of `ReplaceAllBarrier` when the first window lies inside `a`. */
  lemma {:induction false} BarrierAfterWindow(a: string, c: char, b: string, pat: string, rep: string)
    requires pat != [] && c !in pat && |pat| <= |a|
    ensures ReplaceAll(a + [c] + b, pat, rep) == ReplaceAll(a, pat, rep) + [c] + ReplaceAll(b, pat, rep)
    decreases |a|, 0
  {
    var s := a + [c] + b;
    assert s[..|pat|] == a[..|pat|];
    if a[..|pat|] == pat {
      assert s[|pat|..] == a[|pat|..] + [c] + b;
      ReplaceAllBarrier(a[|pat|..], c, b, pat, rep);
    } else {
      assert s[1..] == a[1..] + [c] + b;
      ReplaceAllBarrier(a[1..], c, b, pat, rep);
    }
  }

  /** Text that avoids the pattern's characters is copied through. */
  lemma {:induction false} ReplaceAllAvoiding(sep: string, b: string, pat: string, rep: string)
    requires pat != [] && Avoids(sep, pat)
    ensures ReplaceAll(sep + b, pat, rep) == sep + ReplaceAll(b, pat, rep)
    decreases |sep|
  {
    if sep != [] {
      assert sep + b == [] + [sep[0]] + (sep[1..] + b);
      ReplaceAllBarrier([], sep[0], sep[1..] + b, pat, rep);
      assert ReplaceAll([], pat, rep) == [];
      ReplaceAllAvoiding(sep[1..], b, pat, rep);
      assert [sep[0]] + (sep[1..] + ReplaceAll(b, pat, rep)) == sep + ReplaceAll(b, pat, rep);
    } else {
      assert sep + b == b;
    }
  }

  /**
   * Replacing in pieces joined by a non-empty separator that avoids the
   * pattern's characters replaces in each piece and keeps the separators.
   */
  lemma {:induction false} ReplaceAllJoin(parts: seq<string>, sep: string, pat: string, rep: string)
    requires |parts| > 0 && pat != [] && sep != [] && Avoids(sep, pat)
    ensures ReplaceAll(Join(parts, sep), pat, rep) == Join(ReplaceEach(parts, pat, rep), sep)
    decreases |parts|
  {
    if |parts| > 1 {
      var a, rest := parts[0], Join(parts[1..], sep);
      assert Join(parts, sep) == a + [sep[0]] + (sep[1..] + rest);
      ReplaceAllBarrier(a, sep[0], sep[1..] + rest, pat, rep);
      ReplaceAllAvoiding(sep[1..], rest, pat, rep);
      ReplaceAllJoin(parts[1..], sep, pat, rep);
      var r := ReplaceEach(parts, pat, rep);
      assert r[1..] == ReplaceEach(parts[1..], pat, rep);
    }
  }

  /** A sanitised name holds none of the characters of `${DOMAIN}`. */
  lemma SafeAvoidsDomain(user: string)
    requires IsSafe(user)
    ensures Avoids(user, DomainPlaceholder)
  {
    var d := DomainPlaceholder;
    forall i | 0 <= i < |user|
      ensures user[i] !in d
    {
      assert forall j :: 0 <= j < |d| ==> !IsSafeChar(d[j]);
    }
  }

  /**
   * The two passes on a template holding both placeholders: cut the
   * template at its `${USERNAME}` occurrences, replace `${DOMAIN}` inside
   * each piece, and join the pieces with the user.  For a non-empty
   * sanitised user no `${DOMAIN}` match of the second pass overlaps an
   * inserted user name, so the second pass neither rescans the inserted
   * text nor sees matches formed across it.
   */
  lemma RenderTwoPass(template: string, user: string, domain: string)
    requires user != [] && IsSafe(user)
    ensures Render(template, user, domain) ==
      Join(ReplaceEach(Split(template, UserPlaceholder), DomainPlaceholder, domain), user)
  {
    ReplaceAllIsSplitJoin(template, UserPlaceholder, user);
    SafeAvoidsDomain(user);
    ReplaceAllJoin(Split(template, UserPlaceholder), user, DomainPlaceholder, domain);
  }

  // ---------------------------------------------------------------------
  // String.prototype.replace as the source calls it

  /**
   * The replacement text that JavaScript inserts for one match: `$$` stands
   * for '$', `$&` for the match, `` $` `` for the text before it and `$'`
   * for the text after it.  The regular expressions have no capture
   * groups, so `$1`, `$<` and every other '$' are copied literally.
   */
  function Expand(rep: string, matched: string, before: string, after: string): string
    decreases |rep|
  {
    if rep == [] then []
    else if rep[0] == '$' && |rep| >= 2 && rep[1] == '$' then "$" + Expand(rep[2..], matched, before, after)
    else if rep[0] == '$' && |rep| >= 2 && rep[1] == '&' then matched + Expand(rep[2..], matched, before, after)
    else if rep[0] == '$' && |rep| >= 2 && rep[1] == '`' then before + Expand(rep[2..], matched, before, after)
    else if rep[0] == '$' && |rep| >= 2 && rep[1] == '\'' then after + Expand(rep[2..], matched, before, after)
    else [rep[0]] + Expand(rep[1..], matched, before, after)
  }

  /** JavaScript's global replace, scanning `s` from position `k`. */
  function JsReplaceFrom(s: string, pat: string, rep: string, k: nat): string
    requires pat != [] && k <= |s|
    decreases |s| - k
  {
    if k + |pat| > |s| then s[k..]
    else if s[k..k + |pat|] == pat then
      Expand(rep, pat, s[..k], s[k + |pat|..]) + JsReplaceFrom(s, pat, rep, k + |pat|)
    else [s[k]] + JsReplaceFrom(s, pat, rep, k + 1)
  }

  function JsReplaceAll(s: string, pat: string, rep: string): string
    requires pat != []
  {
    JsReplaceFrom(s, pat, rep, 0)
  }

  /** The chain exactly as api/app.js:90-92 runs it. */
  function JsRender(template: string, user: string, domain: string): string
  {
    JsReplaceAll(JsReplaceAll(template, UserPlaceholder, user), DomainPlaceholder, domain)
  }

  lemma {:induction false} ExpandLiteral(rep: string, matched: string, before: string, after: string)
    requires '$' !in rep
    ensures Expand(rep, matched, before, after) == rep
    decreases |rep|
  {
    if rep != [] {
      assert rep == [rep[0]] + rep[1..];
      ExpandLiteral(rep[1..], matched, before, after);
    }
  }

  lemma {:induction false} JsReplaceFromLiteral(s: string, pat: string, rep: string, k: nat)
    requires pat != [] && k <= |s| && '$' !in rep
    ensures JsReplaceFrom(s, pat, rep, k) == ReplaceAll(s[k..], pat, rep)
    decreases |s| - k
  {
    var t := s[k..];
    if k + |pat| <= |s| {
      assert t[..|pat|] == s[k..k + |pat|];
      if s[k..k + |pat|] == pat {
        ExpandLiteral(rep, pat, s[..k], s[k + |pat|..]);
        JsReplaceFromLiteral(s, pat, rep, k + |pat|);
        assert t[|pat|..] == s[k + |pat|..];
      } else {
        JsReplaceFromLiteral(s, pat, rep, k + 1);
        assert t[1..] == s[k + 1..] && t[0] == s[k];
      }
    }
  }

  /** Without '$' in the replacement, JavaScript's replace is literal. */
  lemma JsReplaceAllLiteral(s: string, pat: string, rep: string)
    requires pat != [] && '$' !in rep
    ensures JsReplaceAll(s, pat, rep) == ReplaceAll(s, pat, rep)
  {
    JsReplaceFromLiteral(s, pat, rep, 0);
    assert s[0..] == s;
  }

  /** The source's chain renders literally when neither value holds '$'. */
  lemma JsRenderLiteral(template: string, user: string, domain: string)
    requires '$' !in user && '$' !in domain
    ensures JsRender(template, user, domain) == Render(template, user, domain)
  {
    JsReplaceAllLiteral(template, UserPlaceholder, user);
    JsReplaceAllLiteral(ReplaceAll(template, UserPlaceholder, user), DomainPlaceholder, domain);
  }

  /**
   * A domain holding `$&` puts the placeholder itself back into the
   * rendered file instead of the domain text.
   */
  lemma JsRenderDollarDomain()
    ensures JsRender(DomainPlaceholder, "u", "$&") == DomainPlaceholder
    ensures Render(DomainPlaceholder, "u", "$&") == "$&"
  {
    var d := DomainPlaceholder;
    RenderDomainPlaceholder("u", "$&");
    assert NoMatch(d, UserPlaceholder) by {
      forall i | 0 <= i < |d|
        ensures !MatchAt(d, UserPlaceholder, i)
      {
      }
    }
    JsReplaceFromLiteral(d, UserPlaceholder, "u", 0);
    ReplaceAllNoMatch(d, UserPlaceholder, "u");
    assert d[0..] == d;
    assert d[0..|d|] == d && d[..0] == [] && d[|d|..] == [];
    assert Expand("$&", d, [], []) == d + Expand([], d, [], []);
    assert JsReplaceFrom(d, d, "$&", 0) == d + JsReplaceFrom(d, d, "$&", |d|);
  }
}
