/**
 * String helpers shared by the model: the ASCII part of JavaScript's
 * `toLowerCase`/`toUpperCase`, the `\s` character class, `trim`,
 * `split` on one separator character, `join`, `includes` and `startsWith`.
 */
module Text {

  predicate IsUpper(c: char) { 'A' <= c <= 'Z' }

  predicate IsLower(c: char) { 'a' <= c <= 'z' }

  predicate IsDigit(c: char) { '0' <= c <= '9' }

  /** The class `[a-z0-9]`. */
  predicate IsLowerAlnum(c: char) { IsLower(c) || IsDigit(c) }

  /** JavaScript's `\s`: white space and line terminators. */
  predicate IsSpace(c: char) {
    c == ' ' || c == '\t' || c == '\n' || c == '\r' || c == '\U{B}' || c == '\U{C}'
    || c == '\U{A0}' || c == '\U{1680}' || ('\U{2000}' <= c <= '\U{200A}')
    || c == '\U{2028}' || c == '\U{2029}' || c == '\U{202F}' || c == '\U{205F}'
    || c == '\U{3000}' || c == '\U{FEFF}'
  }

  function LowerChar(c: char): (r: char)
    ensures IsUpper(c) ==> IsLower(r)
    ensures !IsUpper(c) ==> r == c
  {
    if IsUpper(c) then (c as int + 32) as char else c
  }

  function UpperChar(c: char): (r: char)
    ensures IsLower(c) ==> IsUpper(r)
    ensures !IsLower(c) ==> r == c
  {
    if IsLower(c) then (c as int - 32) as char else c
  }

  /** `s.toLowerCase()` on the ASCII letters. */
  function ToLower(s: string): (r: string)
    ensures |r| == |s|
    ensures forall i :: 0 <= i < |s| ==> r[i] == LowerChar(s[i])
  {
    if s == [] then [] else [LowerChar(s[0])] + ToLower(s[1..])
  }

  /** Two strings that agree at every index are equal. */
  lemma SameChars(x: string, y: string)
    requires |x| == |y|
    requires forall i :: 0 <= i < |x| ==> x[i] == y[i]
    ensures x == y
  {
  }

  lemma {:induction false} ToLowerAppend(a: string, b: string)
    ensures ToLower(a + b) == ToLower(a) + ToLower(b)
  {
    var l, r := ToLower(a + b), ToLower(a) + ToLower(b);
    forall i | 0 <= i < |l| ensures l[i] == r[i] {
      if i < |a| {
        assert (a + b)[i] == a[i];
      } else {
        assert (a + b)[i] == b[i - |a|];
      }
    }
    SameChars(l, r);
  }

  /** Lower-casing twice is lower-casing once. */
  lemma ToLowerIdempotent(s: string)
    ensures ToLower(ToLower(s)) == ToLower(s)
  {
    assert forall i :: 0 <= i < |s| ==> LowerChar(LowerChar(s[i])) == LowerChar(s[i]);
  }

  /** `s.trim()`: drops white space at both ends. */
  function TrimStart(s: string): (r: string)
    ensures |r| <= |s| && r == s[|s| - |r|..]
    ensures r != [] ==> !IsSpace(r[0])
    ensures forall i :: 0 <= i < |s| - |r| ==> IsSpace(s[i])
  {
    if s != [] && IsSpace(s[0]) then TrimStart(s[1..]) else s
  }

  function TrimEnd(s: string): (r: string)
    ensures |r| <= |s| && r == s[..|r|]
    ensures r != [] ==> !IsSpace(r[|r| - 1])
    ensures forall i :: |r| <= i < |s| ==> IsSpace(s[i])
  {
    if s != [] && IsSpace(s[|s| - 1]) then TrimEnd(s[..|s| - 1]) else s
  }

  function Trim(s: string): (r: string)
    ensures r != [] ==> !IsSpace(r[0]) && !IsSpace(r[|r| - 1])
    ensures (forall i :: 0 <= i < |s| ==> IsSpace(s[i])) <==> r == []
  {
    var t := TrimStart(s);
    assert t == [] ==> forall i :: 0 <= i < |s| ==> IsSpace(s[i]);
    var u := TrimEnd(t);
    assert u != [] ==> !IsSpace(u[0]) by {
      if u != [] { assert u[0] == t[0]; }
    }
    assert t != [] ==> u != [] by {
      if t != [] {
        assert !IsSpace(t[0]);
        assert IsSpace(t[0]) || |u| > 0;
      }
    }
    u
  }

  /** What `trim()` keeps is a slice of its input. */
  lemma TrimSlice(s: string) returns (off: nat)
    ensures off + |Trim(s)| <= |s| && Trim(s) == s[off..off + |Trim(s)|]
  {
    var t := TrimStart(s);
    off := |s| - |t|;
    assert Trim(s) == t[..|Trim(s)|];
  }

  /** A string that `trim()` leaves unchanged. */
  lemma TrimNoEdgeSpace(s: string)
    requires s != [] ==> !IsSpace(s[0]) && !IsSpace(s[|s| - 1])
    ensures Trim(s) == s
  {
  }

  /** `trim()` drops one trailing blank from a string that is otherwise trimmed. */
  lemma TrimTrailingBlank(x: string)
    requires x != [] ==> !IsSpace(x[0]) && !IsSpace(x[|x| - 1])
    ensures Trim(x + " ") == x
  {
    var s := x + " ";
    if x == [] {
      assert s == " " && TrimStart(s) == [];
    } else {
      assert s[0] == x[0] && TrimStart(s) == s;
      assert s[..|s| - 1] == x && TrimEnd(s) == TrimEnd(x);
    }
  }

  /** Concatenation regroups; stated once so that proofs need not re-derive it. */
  lemma AppendAssoc<T>(a: seq<T>, b: seq<T>, c: seq<T>)
    ensures a + b + c == a + (b + c)
  {
  }

  /** Dropping the head of a concatenation drops the head of its first part. */
  lemma TailOfAppend<T>(a: seq<T>, b: seq<T>)
    requires a != []
    ensures (a + b)[0] == a[0] && (a + b)[1..] == a[1..] + b
  {
  }

  /** A run of white space before a string that does not start with any is dropped whole. */
  lemma {:induction false} TrimStartSkipsRun(w: string, y: string)
    requires forall i :: 0 <= i < |w| ==> IsSpace(w[i])
    requires y != [] ==> !IsSpace(y[0])
    ensures TrimStart(w + y) == y
    decreases |w|
  {
    if w == [] {
      assert w + y == y;
    } else {
      assert (w + y)[1..] == w[1..] + y;
      TrimStartSkipsRun(w[1..], y);
    }
  }

  /** Once a string holds a non-white-space character, what follows it is left alone. */
  lemma {:induction false} TrimStartAppend(a: string, b: string)
    requires exists i :: 0 <= i < |a| && !IsSpace(a[i])
    ensures TrimStart(a + b) == TrimStart(a) + b
    decreases |a|
  {
    var i :| 0 <= i < |a| && !IsSpace(a[i]);
    if IsSpace(a[0]) {
      assert (a + b)[1..] == a[1..] + b;
      assert a[1..][i - 1] == a[i];
      TrimStartAppend(a[1..], b);
    }
  }

  /** `s.split(sep)` for a one-character separator: never empty, `""` gives `[""]`. */
  function Split(s: string, sep: char): (r: seq<string>)
    ensures |r| >= 1
    decreases |s|
  {
    if s == [] then [""]
    else if s[0] == sep then [""] + Split(s[1..], sep)
    else var rest := Split(s[1..], sep); [[s[0]] + rest[0]] + rest[1..]
  }

  /** `words.join(sep)`. */
  function Join(words: seq<string>, sep: string): (r: string)
  {
    if words == [] then ""
    else if |words| == 1 then words[0]
    else words[0] + sep + Join(words[1..], sep)
  }

  /** No piece of a split contains the separator. */
  lemma {:induction false} SplitPiecesHaveNoSep(s: string, sep: char)
    ensures forall w :: w in Split(s, sep) ==> sep !in w
    decreases |s|
  {
    if s != [] {
      SplitPiecesHaveNoSep(s[1..], sep);
    }
  }

  /** Joining the pieces of a split with the separator gives the string back. */
  lemma {:induction false} JoinSplit(s: string, sep: char)
    ensures Join(Split(s, sep), [sep]) == s
    decreases |s|
  {
    if s != [] {
      var rest := Split(s[1..], sep);
      JoinSplit(s[1..], sep);
      if s[0] == sep {
        assert Split(s, sep) == [""] + rest;
        assert s == [sep] + s[1..];
      } else {
        assert Split(s, sep) == [[s[0]] + rest[0]] + rest[1..];
        if |rest| == 1 {
          assert s == [s[0]] + rest[0];
        } else {
          assert Join(rest, [sep]) == rest[0] + [sep] + Join(rest[1..], [sep]);
          assert s == [s[0]] + s[1..];
        }
      }
    }
  }

  /** Splitting a join gives the pieces back, when no piece holds the separator. */
  lemma {:induction false} SplitJoin(words: seq<string>, sep: char)
    requires |words| >= 1
    requires forall w :: w in words ==> sep !in w
    ensures Split(Join(words, [sep]), sep) == words
    decreases |words|, |words[0]|
  {
    var w := words[0];
    if w == [] {
      if |words| > 1 {
        SplitJoin(words[1..], sep);
        SplitJoinEmptyHead(words, sep);
      }
    } else {
      var tail := [w[1..]] + words[1..];
      assert tail[0] == w[1..] && tail[1..] == words[1..];
      assert forall v :: v in tail ==> sep !in v by {
        assert forall v :: v in tail ==> v == w[1..] || v in words;
        assert forall c :: c in w[1..] ==> c in w;
      }
      SplitJoin(tail, sep);
      assert w[0] in w && w in words;
      SplitJoinFirstChar(words, sep);
    }
  }

  /** The step of `SplitJoin` for an empty first piece. */
  lemma SplitJoinEmptyHead(words: seq<string>, sep: char)
    requires |words| > 1 && words[0] == []
    requires Split(Join(words[1..], [sep]), sep) == words[1..]
    ensures Split(Join(words, [sep]), sep) == words
  {
    var rest := Join(words[1..], [sep]);
    assert Join(words, [sep]) == [sep] + rest;
    assert ([sep] + rest)[1..] == rest;
    assert words == [""] + words[1..];
  }

  /** The step of `SplitJoin` that peels the first character of a non-empty first piece. */
  lemma SplitJoinFirstChar(words: seq<string>, sep: char)
    requires |words| >= 1 && words[0] != [] && words[0][0] != sep
    requires Split(Join([words[0][1..]] + words[1..], [sep]), sep) == [words[0][1..]] + words[1..]
    ensures Split(Join(words, [sep]), sep) == words
  {
    var w := words[0];
    var tail := [w[1..]] + words[1..];
    JoinFirstChar(words, sep);
    SplitCons(w[0], Join(tail, [sep]), sep);
    assert [w[0]] + w[1..] == w;
    assert words == [[w[0]] + w[1..]] + words[1..];
  }

  /** Joining puts the first character of the first piece first. */
  lemma JoinFirstChar(words: seq<string>, sep: char)
    requires |words| >= 1 && words[0] != []
    ensures Join(words, [sep]) == [words[0][0]] + Join([words[0][1..]] + words[1..], [sep])
  {
    var w := words[0];
    var tail := [w[1..]] + words[1..];
    assert tail[0] == w[1..] && tail[1..] == words[1..];
    assert w == [w[0]] + w[1..];
    if |words| > 1 {
      var rest := Join(words[1..], [sep]);
      assert Join(words, [sep]) == w + [sep] + rest;
      assert Join(tail, [sep]) == w[1..] + [sep] + rest;
      AppendAssoc(w, [sep], rest);
      AppendAssoc(w[1..], [sep], rest);
      AppendAssoc([w[0]], w[1..], [sep] + rest);
    }
  }

  /** Splitting after a character other than the separator extends the first piece. */
  lemma SplitCons(c: char, x: string, sep: char)
    requires c != sep
    ensures Split([c] + x, sep) == [[c] + Split(x, sep)[0]] + Split(x, sep)[1..]
  {
    assert ([c] + x)[0] == c && ([c] + x)[1..] == x;
  }

  /** What `s` occurs in after its first character, it occurs in. */
  lemma ContainsInTail(s: string, w: string)
    requires s != [] && Contains(s[1..], w)
    ensures Contains(s, w)
  {
    var i :| 0 <= i <= |s[1..]| - |w| && OccursAt(s[1..], w, i);
    assert s[i + 1..i + 1 + |w|] == s[1..][i..i + |w|];
    assert OccursAt(s, w, i + 1);
  }

  /** Past the first piece, the pieces of `s` are those of its tail (shifted by one after a separator). */
  lemma SplitLaterPieces(s: string, sep: char, k: nat)
    requires s != [] && 0 < k < |Split(s, sep)|
    ensures s[0] == sep ==> k - 1 < |Split(s[1..], sep)| && Split(s, sep)[k] == Split(s[1..], sep)[k - 1]
    ensures s[0] != sep ==> k < |Split(s[1..], sep)| && Split(s, sep)[k] == Split(s[1..], sep)[k]
  {
  }

  /** Every piece of a split is a substring of the split string. */
  lemma {:induction false} SplitPiecesAreSubstrings(s: string, sep: char, k: nat)
    requires k < |Split(s, sep)|
    ensures Contains(s, Split(s, sep)[k])
    decreases |s|
  {
    var w := Split(s, sep)[k];
    if k == 0 {
      SplitFirstIsPrefix(s, sep);
      assert OccursAt(s, w, 0);
    } else {
      SplitLaterPieces(s, sep, k);
      if s[0] == sep {
        SplitPiecesAreSubstrings(s[1..], sep, k - 1);
      } else {
        SplitPiecesAreSubstrings(s[1..], sep, k);
      }
      ContainsInTail(s, w);
    }
  }

  lemma {:induction false} SplitFirstIsPrefix(s: string, sep: char)
    ensures |Split(s, sep)[0]| <= |s| && s[..|Split(s, sep)[0]|] == Split(s, sep)[0]
    decreases |s|
  {
    if s != [] && s[0] != sep {
      SplitFirstIsPrefix(s[1..], sep);
    }
  }

  /** `sub` occurs in `s` at position `i`. */
  predicate OccursAt(s: string, sub: string, i: int) {
    0 <= i && i + |sub| <= |s| && s[i..i + |sub|] == sub
  }

  /** `s.includes(sub)`. */
  predicate Contains(s: string, sub: string) {
    exists i :: 0 <= i <= |s| - |sub| && OccursAt(s, sub, i)
  }

  /** `s.startsWith(prefix)`. */
  predicate StartsWith(s: string, prefix: string) {
    |prefix| <= |s| && s[..|prefix|] == prefix
  }

  /** A string containing `w`, where `w` starts with `sub`, contains `sub`. */
  lemma ContainsPrefixOfSubstring(s: string, w: string, sub: string)
    requires Contains(s, w) && StartsWith(w, sub)
    ensures Contains(s, sub)
  {
    var i :| 0 <= i <= |s| - |w| && OccursAt(s, w, i);
    assert s[i..i + |sub|] == w[..|sub|];
    assert OccursAt(s, sub, i);
  }

  function DigitChar(d: nat): (c: char)
    requires d < 10
    ensures IsDigit(c)
  {
    ('0' as int + d) as char
  }

  /** `String(n)` for a natural number. */
  function NatToString(n: nat): (r: string)
    ensures r != [] && forall i :: 0 <= i < |r| ==> IsDigit(r[i])
  {
    if n < 10 then [DigitChar(n)] else NatToString(n / 10) + [DigitChar(n % 10)]
  }

  /** `String(i)` for an integer. */
  function IntToString(i: int): (r: string)
    ensures r != []
  {
    if i < 0 then "-" + NatToString(-i) else NatToString(i)
  }
}
