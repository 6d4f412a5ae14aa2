/**
 * The About page's heading anchors: `createId` turns a heading's text into
 * a slug of lower-case letters, digits and single dashes.
 */
module AboutPage {
  import opened Wrappers
  import opened Text

  /** The characters a slug is made of: `[a-z0-9-]`. */
  predicate IsSlugChar(c: char) { IsLowerAlnum(c) || c == '-' }

  /** No two dashes are adjacent. */
  predicate NoDoubleDash(s: string) {
    forall i :: 0 <= i < |s| - 1 && s[i] == '-' ==> s[i + 1] != '-'
  }

  /** The letters and digits of `s`, in order. */
  function Alnums(s: string): (r: string)
    ensures forall i :: 0 <= i < |r| ==> IsLowerAlnum(r[i])
  {
    if s == [] then []
    else if IsLowerAlnum(s[0]) then [s[0]] + Alnums(s[1..])
    else Alnums(s[1..])
  }

  lemma {:induction false} AlnumsAppend(a: string, b: string)
    ensures Alnums(a + b) == Alnums(a) + Alnums(b)
  {
    if a == [] {
      assert a + b == b;
    } else {
      assert (a + b)[0] == a[0] && (a + b)[1..] == a[1..] + b;
      AlnumsAppend(a[1..], b);
    }
  }

  /** Drops the run of non-`[a-z0-9]` characters at the front. */
  function SkipSeparators(s: string): (r: string)
    ensures |r| <= |s|
    ensures r != [] ==> IsLowerAlnum(r[0])
    ensures Alnums(r) == Alnums(s)
  {
    if s != [] && !IsLowerAlnum(s[0]) then SkipSeparators(s[1..]) else s
  }

  /** What is left after the separators is a suffix of the input, and only separators went. */
  lemma {:induction false} SkipSeparatorsSuffix(s: string)
    ensures SkipSeparators(s) == s[|s| - |SkipSeparators(s)|..]
    ensures forall i :: 0 <= i < |s| - |SkipSeparators(s)| ==> !IsLowerAlnum(s[i])
    decreases |s|
  {
    if s != [] && !IsLowerAlnum(s[0]) {
      SkipSeparatorsSuffix(s[1..]);
    }
  }

  /** A run of separators before a letter or digit is skipped whole. */
  lemma {:induction false} SkipSeparatorsSkipsRun(w: string, y: string)
    requires forall i :: 0 <= i < |w| ==> !IsLowerAlnum(w[i])
    requires y != [] ==> IsLowerAlnum(y[0])
    ensures SkipSeparators(w + y) == y
    decreases |w|
  {
    if w == [] {
      assert w + y == y;
    } else {
      assert (w + y)[1..] == w[1..] + y;
      SkipSeparatorsSkipsRun(w[1..], y);
    }
  }

  /** Once a string ends in a letter or digit, what follows it is left alone. */
  lemma {:induction false} SkipSeparatorsAppend(a: string, b: string)
    requires a != [] && IsLowerAlnum(a[|a| - 1])
    ensures SkipSeparators(a + b) == SkipSeparators(a) + b
    decreases |a|
  {
    if !IsLowerAlnum(a[0]) {
      assert (a + b)[1..] == a[1..] + b;
      SkipSeparatorsAppend(a[1..], b);
    }
  }

  /**
   * `s.replace(/[^a-z0-9]+/g, '-')`: every maximal run of other characters
   * becomes a single dash.
   */
  function ReplaceRuns(s: string): (r: string)
    ensures forall i :: 0 <= i < |r| ==> IsSlugChar(r[i])
    ensures NoDoubleDash(r)
    ensures r == [] <==> s == []
    ensures r != [] ==> (r[0] == '-' <==> !IsLowerAlnum(s[0]))
    ensures Alnums(r) == Alnums(s)
    decreases |s|
  {
    if s == [] then []
    else if IsLowerAlnum(s[0]) then
      var rest := ReplaceRuns(s[1..]);
      assert Alnums([s[0]] + rest) == [s[0]] + Alnums(rest);
      [s[0]] + rest
    else
      var rest := ReplaceRuns(SkipSeparators(s[1..]));
      assert Alnums("-" + rest) == Alnums(rest);
      "-" + rest
  }

  lemma ReplaceRunsSeparator(s: string)
    requires s != [] && !IsLowerAlnum(s[0])
    ensures ReplaceRuns(s) == "-" + ReplaceRuns(SkipSeparators(s[1..]))
  {
  }

  lemma ReplaceRunsAlnum(c: char, s: string)
    requires IsLowerAlnum(c)
    ensures ReplaceRuns([c] + s) == [c] + ReplaceRuns(s)
  {
    assert ([c] + s)[1..] == s;
  }

  /**
   * The replacement works piecewise when the cut is not inside a run of
   * separators: with the identity on slugs, this says every letter and
   * digit stays where it was.
   */
  lemma {:induction false} ReplaceRunsAppend(x: string, r: string)
    requires x != [] ==> IsLowerAlnum(x[|x| - 1])
    ensures ReplaceRuns(x + r) == ReplaceRuns(x) + ReplaceRuns(r)
    decreases |x|
  {
    if x == [] {
      assert x + r == r;
    } else if IsLowerAlnum(x[0]) {
      var x' := x[1..];
      assert x' != [] ==> x'[|x'| - 1] == x[|x| - 1];
      ReplaceRunsAppend(x', r);
      assert x == [x[0]] + x';
      AppendAssoc([x[0]], x', r);
      ReplaceRunsAlnum(x[0], x');
      ReplaceRunsAlnum(x[0], x' + r);
      AppendAssoc([x[0]], ReplaceRuns(x'), ReplaceRuns(r));
    } else {
      var x' := x[1..];
      assert |x'| > 0 && x'[|x'| - 1] == x[|x| - 1];
      var t := SkipSeparators(x');
      SkipSeparatorsSuffix(x');
      assert |t| > 0 && t[|t| - 1] == x[|x| - 1];
      SkipSeparatorsAppend(x', r);
      TailOfAppend(x, r);
      ReplaceRunsSeparator(x);
      ReplaceRunsSeparator(x + r);
      ReplaceRunsAppend(t, r);
      AppendAssoc("-", ReplaceRuns(t), ReplaceRuns(r));
    }
  }

  /** A run of separators between two words becomes exactly one dash. */
  lemma ReplaceRunsJoin(x: string, sep: string, y: string)
    requires x != [] ==> IsLowerAlnum(x[|x| - 1])
    requires sep != [] && forall i :: 0 <= i < |sep| ==> !IsLowerAlnum(sep[i])
    requires y != [] ==> IsLowerAlnum(y[0])
    ensures ReplaceRuns(x + sep + y) == ReplaceRuns(x) + "-" + ReplaceRuns(y)
  {
    ReplaceRunsAppend(x, sep + y);
    AppendAssoc(x, sep, y);
    TailOfAppend(sep, y);
    SkipSeparatorsSkipsRun(sep[1..], y);
    ReplaceRunsSeparator(sep + y);
    AppendAssoc(ReplaceRuns(x), "-", ReplaceRuns(y));
  }

  /** `s.replace(/(^-|-$)/g, '')`: one leading and one trailing dash go. */
  function StripDashes(s: string): (r: string)
    ensures |r| <= |s|
  {
    var a := if s != [] && s[0] == '-' then s[1..] else s;
    if a != [] && a[|a| - 1] == '-' then a[..|a| - 1] else a
  }

  /** Stripping the edge dashes of a dash-collapsed string leaves no dash at either end and takes no letter or digit. */
  lemma StripDashesOfCollapsed(s: string)
    requires forall i :: 0 <= i < |s| ==> IsSlugChar(s[i])
    requires NoDoubleDash(s)
    ensures var r := StripDashes(s);
      (forall i :: 0 <= i < |r| ==> IsSlugChar(r[i]))
      && NoDoubleDash(r)
      && (r != [] ==> r[0] != '-' && r[|r| - 1] != '-')
      && Alnums(r) == Alnums(s)
  {
    var a := DropLeadingDash(s);
    DropTrailingDash(a);
  }

  /** The leading-dash half of the replacement. */
  lemma DropLeadingDash(s: string) returns (a: string)
    requires forall i :: 0 <= i < |s| ==> IsSlugChar(s[i])
    requires NoDoubleDash(s)
    ensures a == if s != [] && s[0] == '-' then s[1..] else s
    ensures forall i :: 0 <= i < |a| ==> IsSlugChar(a[i])
    ensures NoDoubleDash(a)
    ensures a != [] ==> a[0] != '-'
    ensures Alnums(a) == Alnums(s)
  {
    a := s;
    if s != [] && s[0] == '-' {
      a := s[1..];
      assert s == "-" + a;
      AlnumsAppend("-", a);
      assert forall i :: 0 <= i < |s| - 1 ==> a[i] == s[i + 1];
    }
  }

  /** The trailing-dash half, on a string that no longer starts with a dash. */
  lemma DropTrailingDash(a: string)
    requires forall i :: 0 <= i < |a| ==> IsSlugChar(a[i])
    requires NoDoubleDash(a)
    requires a != [] ==> a[0] != '-'
    ensures var r := if a != [] && a[|a| - 1] == '-' then a[..|a| - 1] else a;
      (forall i :: 0 <= i < |r| ==> IsSlugChar(r[i]))
      && NoDoubleDash(r)
      && (r != [] ==> r[0] != '-' && r[|r| - 1] != '-')
      && Alnums(r) == Alnums(a)
  {
    if a != [] && a[|a| - 1] == '-' {
      var r := a[..|a| - 1];
      assert a == r + "-";
      AlnumsAppend(r, "-");
      if r != [] {
        assert r[|r| - 1] == a[|a| - 2];
      }
    }
  }

  /**
   * `createId(text)`: a non-string gives the empty id; a string is
   * lower-cased, its runs of other characters become dashes, and the edge
   * dashes go.
   */
  function CreateId(text: Option<string>): (r: string)
    ensures text.None? ==> r == ""
    ensures forall i :: 0 <= i < |r| ==> IsSlugChar(r[i])
    ensures NoDoubleDash(r)
    ensures r != [] ==> r[0] != '-' && r[|r| - 1] != '-'
    ensures text.Some? ==> Alnums(r) == Alnums(ToLower(text.value))
  {
    match text
    case None => ""
    case Some(t) =>
      var collapsed := ReplaceRuns(ToLower(t));
      StripDashesOfCollapsed(collapsed);
      StripDashes(collapsed)
  }

  /** A string of slug characters without adjacent dashes is left alone by the run replacement. */
  lemma {:induction false} ReplaceRunsFixesSlugs(s: string)
    requires forall i :: 0 <= i < |s| ==> IsSlugChar(s[i])
    requires NoDoubleDash(s)
    ensures ReplaceRuns(s) == s
    decreases |s|
  {
    if s != [] {
      var t := s[1..];
      assert forall i :: 0 <= i < |t| ==> t[i] == s[i + 1];
      if IsLowerAlnum(s[0]) {
        ReplaceRunsFixesSlugs(t);
        assert s == [s[0]] + t;
      } else {
        assert t != [] ==> IsLowerAlnum(t[0]);
        assert SkipSeparators(t) == t;
        ReplaceRunsFixesSlugs(t);
        assert s == "-" + t;
      }
    }
  }

  /** Lower-casing leaves slug characters alone. */
  lemma SlugIsLowerCase(s: string)
    requires forall i :: 0 <= i < |s| ==> IsSlugChar(s[i])
    ensures ToLower(s) == s
  {
    SameChars(ToLower(s), s);
  }

  /** An id is its own id: slugging a slug changes nothing. */
  lemma CreateIdIdempotent(text: Option<string>)
    ensures CreateId(Some(CreateId(text))) == CreateId(text)
  {
    var id := CreateId(text);
    SlugIsLowerCase(id);
    ReplaceRunsFixesSlugs(id);
  }

  /**
   * Two words with any run of punctuation or blanks between them become
   * the two words joined by one dash: "Hello, World" gives "hello-world".
   */
  lemma CreateIdJoinsWords(x: string, sep: string, y: string)
    requires x != [] && forall i :: 0 <= i < |x| ==> IsLowerAlnum(x[i])
    requires sep != [] && forall i :: 0 <= i < |sep| ==> !IsLowerAlnum(LowerChar(sep[i]))
    requires y != [] && forall i :: 0 <= i < |y| ==> IsLowerAlnum(y[i])
    ensures CreateId(Some(x + sep + y)) == x + "-" + y
  {
    LowerAroundSeparator(x, sep, y);
    ReplaceRunsJoin(x, ToLower(sep), y);
    ReplaceRunsFixesSlugs(x);
    ReplaceRunsFixesSlugs(y);
    StripDashesKeepsUndashed(x + "-" + y);
  }

  lemma LowerAroundSeparator(x: string, sep: string, y: string)
    requires forall i :: 0 <= i < |x| ==> IsLowerAlnum(x[i])
    requires forall i :: 0 <= i < |y| ==> IsLowerAlnum(y[i])
    ensures ToLower(x + sep + y) == x + ToLower(sep) + y
  {
    SlugIsLowerCase(x);
    SlugIsLowerCase(y);
    ToLowerAppend(x + sep, y);
    ToLowerAppend(x, sep);
  }

  lemma StripDashesKeepsUndashed(s: string)
    requires s != [] ==> s[0] != '-' && s[|s| - 1] != '-'
    ensures StripDashes(s) == s
  {
  }
}
