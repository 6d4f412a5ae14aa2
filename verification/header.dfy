/**
 * The page header's breadcrumbs: the path's segments, their display names,
 * and a link for every segment but the last, which is the current page.
 */
module Header {
  import opened Text

  /** `pieces.filter(Boolean)`: drops the empty strings. */
  function NonEmpty(pieces: seq<string>): (r: seq<string>)
    ensures |r| <= |pieces|
    ensures forall i :: 0 <= i < |r| ==> r[i] != ""
    ensures forall w :: w in r <==> w in pieces && w != ""
  {
    if pieces == [] then []
    else if pieces[0] == "" then NonEmpty(pieces[1..])
    else [pieces[0]] + NonEmpty(pieces[1..])
  }

  lemma {:induction false} NonEmptyKeepsNonEmpty(pieces: seq<string>)
    requires forall i :: 0 <= i < |pieces| ==> pieces[i] != ""
    ensures NonEmpty(pieces) == pieces
  {
    if pieces != [] {
      NonEmptyKeepsNonEmpty(pieces[1..]);
      assert pieces == [pieces[0]] + pieces[1..];
    }
  }

  /** A single piece is kept exactly when it is not empty. */
  lemma NonEmptyOfOne(w: string)
    ensures NonEmpty([w]) == if w == "" then [] else [w]
  {
    assert [w][1..] == [];
  }

  /** The filter works piece by piece, so it keeps the order and the repeats of the pieces. */
  lemma {:induction false} NonEmptyAppend(a: seq<string>, b: seq<string>)
    ensures NonEmpty(a + b) == NonEmpty(a) + NonEmpty(b)
    decreases |a|
  {
    if a == [] {
      assert a + b == b;
    } else {
      assert (a + b)[0] == a[0] && (a + b)[1..] == a[1..] + b;
      NonEmptyAppend(a[1..], b);
    }
  }

  /** `pathname.split('/').filter(Boolean)`: the non-empty pieces, none holding a slash. */
  function PathSegments(pathname: string): (r: seq<string>)
    ensures forall i :: 0 <= i < |r| ==> r[i] != "" && '/' !in r[i]
    ensures forall w :: w in r <==> w in Split(pathname, '/') && w != ""
  {
    SplitPiecesHaveNoSep(pathname, '/');
    NonEmpty(Split(pathname, '/'))
  }

  /**
   * Segments without slashes, joined by slashes, come back as the same
   * segments in the same order, repeats included.
   */
  lemma PathSegmentsOfJoin(segments: seq<string>)
    requires forall i :: 0 <= i < |segments| ==> segments[i] != "" && '/' !in segments[i]
    ensures PathSegments(Join(segments, "/")) == segments
  {
    if segments == [] {
      NonEmptyOfOne("");
    } else {
      forall w | w in segments ensures '/' !in w {
        var k :| 0 <= k < |segments| && segments[k] == w;
      }
      SplitJoin(segments, '/');
      NonEmptyKeepsNonEmpty(segments);
    }
  }

  /** `word.charAt(0).toUpperCase() + word.slice(1)`. */
  function Capitalise(word: string): (r: string)
    ensures |r| == |word|
    ensures word != [] ==> r[0] == UpperChar(word[0]) && r[1..] == word[1..]
    ensures ' ' !in word ==> ' ' !in r
  {
    if word == [] then [] else [UpperChar(word[0])] + word[1..]
  }

  function CapitaliseAll(words: seq<string>): (r: seq<string>)
    ensures |r| == |words|
    ensures forall i :: 0 <= i < |r| ==> r[i] == Capitalise(words[i])
  {
    if words == [] then [] else [Capitalise(words[0])] + CapitaliseAll(words[1..])
  }

  /**
   * `getDisplayName(segment)`: "steam-gauge" is shown as "Gauge Game";
   * any other segment has each dash-separated part capitalised, the parts
   * joined by single spaces.
   */
  function DisplayName(segment: string): (r: string)
    ensures segment == "steam-gauge" ==> r == "Gauge Game"
  {
    if segment == "steam-gauge" then "Gauge Game"
    else Join(CapitaliseAll(Split(segment, '-')), " ")
  }

  /**
   * For a segment without spaces (other than "steam-gauge"), the display
   * name's words are exactly its capitalised parts, so there are as many
   * words as parts.
   */
  lemma DisplayNameWords(segment: string)
    requires segment != "steam-gauge" && ' ' !in segment
    ensures Split(DisplayName(segment), ' ') == CapitaliseAll(Split(segment, '-'))
    ensures |Split(DisplayName(segment), ' ')| == |Split(segment, '-')|
  {
    var parts := Split(segment, '-');
    SplitPiecesAreSubstringsAll(segment, '-');
    var words := CapitaliseAll(parts);
    forall w | w in words ensures ' ' !in w {
      var i :| 0 <= i < |words| && words[i] == w;
      NoCharInSubstring(segment, parts[i], ' ');
    }
    SplitJoin(words, ' ');
  }

  /** Every piece of a split is a substring of the split string. */
  lemma SplitPiecesAreSubstringsAll(s: string, sep: char)
    ensures forall k :: 0 <= k < |Split(s, sep)| ==> Contains(s, Split(s, sep)[k])
  {
    forall k | 0 <= k < |Split(s, sep)| ensures Contains(s, Split(s, sep)[k]) {
      SplitPiecesAreSubstrings(s, sep, k);
    }
  }

  /** A character missing from a string is missing from its substrings. */
  lemma NoCharInSubstring(s: string, sub: string, c: char)
    requires c !in s && Contains(s, sub)
    ensures c !in sub
  {
    var i :| 0 <= i <= |s| - |sub| && OccursAt(s, sub, i);
    assert forall j :: 0 <= j < |sub| ==> sub[j] == s[i + j];
  }

  /** The target of crumb `i`: `/` and the first `i + 1` segments joined by `/`. */
  function CrumbHref(segments: seq<string>, i: nat): string
    requires i < |segments|
  {
    "/" + Join(segments[..i + 1], "/")
  }

  /** A breadcrumb: a link to an ancestor page, or the current page. */
  datatype Crumb = Link(title: string, href: string) | Page(title: string)

  /** The breadcrumbs after the home link: every segment is a link but the last, which is the page. */
  function Crumbs(segments: seq<string>): (r: seq<Crumb>)
    ensures |r| == |segments|
    ensures forall i :: 0 <= i < |r| ==> r[i].title == DisplayName(segments[i])
    ensures forall i :: 0 <= i < |r| ==> (r[i].Page? <==> i == |r| - 1)
    ensures forall i :: 0 <= i < |r| - 1 ==> r[i].href == CrumbHref(segments, i)
  {
    seq(|segments|, i requires 0 <= i < |segments| =>
      if i == |segments| - 1 then Page(DisplayName(segments[i]))
      else Link(DisplayName(segments[i]), CrumbHref(segments, i)))
  }

  lemma {:induction false} JoinSnoc(words: seq<string>, w: string, sep: string)
    requires words != []
    ensures Join(words + [w], sep) == Join(words, sep) + sep + w
  {
    if |words| == 1 {
      assert (words + [w])[1..] == [w];
    } else {
      assert (words + [w])[1..] == words[1..] + [w];
      JoinSnoc(words[1..], w, sep);
    }
  }

  /** Each crumb's target extends the previous one by one segment. */
  lemma CrumbHrefExtends(segments: seq<string>, i: nat)
    requires i + 1 < |segments|
    ensures CrumbHref(segments, i + 1) == CrumbHref(segments, i) + "/" + segments[i + 1]
  {
    assert segments[..i + 2] == segments[..i + 1] + [segments[i + 1]];
    JoinSnoc(segments[..i + 1], segments[i + 1], "/");
  }

  /** Following crumb `i` leads to a path whose segments are the first `i + 1` segments. */
  lemma CrumbHrefRoundTrip(pathname: string, i: nat)
    requires i < |PathSegments(pathname)|
    ensures PathSegments(CrumbHref(PathSegments(pathname), i)) == PathSegments(pathname)[..i + 1]
  {
    var segments := PathSegments(pathname);
    var prefix := segments[..i + 1];
    var joined := Join(prefix, "/");
    assert forall w :: w in prefix ==> '/' !in w by {
      forall w | w in prefix ensures '/' !in w {
        var k :| 0 <= k < |prefix| && prefix[k] == w;
        assert w == segments[k];
      }
    }
    SplitJoin(prefix, '/');
    var href := CrumbHref(segments, i);
    assert href[0] == '/' && href[1..] == joined;
    assert Split(href, '/') == [""] + prefix;
    assert NonEmpty([""] + prefix) == NonEmpty(prefix) by {
      assert ([""] + prefix)[1..] == prefix;
    }
    NonEmptyKeepsNonEmpty(prefix);
  }
}
