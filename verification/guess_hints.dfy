/**
 * The hints panel of the Guess game: the ladder shown in `order`, the
 * "revealed / total" count, each card's class and each hint's title.
 */
module GuessHints {
  import opened Text
  import opened GuessTypes
  import GuessApi

  /** Orders never decrease along the list. */
  ghost predicate SortedByOrder(s: seq<LadderHint>) {
    forall i, j :: 0 <= i < j < |s| ==> s[i].order <= s[j].order
  }

  /** Every order in `s` is at least `k`. */
  ghost predicate AllAtLeast(s: seq<LadderHint>, k: int) {
    forall i :: 0 <= i < |s| ==> k <= s[i].order
  }

  /** Puts `h` after every leading hint of `sorted` whose order is not above its own. */
  function Insert(h: LadderHint, sorted: seq<LadderHint>): (r: seq<LadderHint>)
    ensures |r| == |sorted| + 1
    ensures multiset(r) == multiset(sorted) + multiset{h}
  {
    if sorted == [] then [h]
    else if h.order < sorted[0].order then [h] + sorted
    else
      assert sorted == [sorted[0]] + sorted[1..];
      [sorted[0]] + Insert(h, sorted[1..])
  }

  lemma {:induction false} InsertAtLeast(h: LadderHint, s: seq<LadderHint>, k: int)
    requires AllAtLeast(s, k) && k <= h.order
    ensures AllAtLeast(Insert(h, s), k)
  {
    if s != [] && h.order >= s[0].order {
      InsertAtLeast(h, s[1..], k);
    }
  }

  lemma ConsSorted(x: LadderHint, s: seq<LadderHint>)
    requires SortedByOrder(s) && AllAtLeast(s, x.order)
    ensures SortedByOrder([x] + s)
  {
    forall i, j | 0 <= i < j < |[x] + s| ensures ([x] + s)[i].order <= ([x] + s)[j].order {
      if i > 0 {
        assert ([x] + s)[i] == s[i - 1];
      }
      assert ([x] + s)[j] == s[j - 1];
    }
  }

  /** Inserting into a sorted list keeps it sorted. */
  lemma {:induction false} InsertSorted(h: LadderHint, s: seq<LadderHint>)
    requires SortedByOrder(s)
    ensures SortedByOrder(Insert(h, s))
  {
    if s == [] {
    } else if h.order < s[0].order {
      ConsSorted(h, s);
    } else {
      var tail := s[1..];
      assert forall i :: 0 <= i < |tail| ==> tail[i] == s[i + 1];
      InsertSorted(h, tail);
      InsertAtLeast(h, tail, s[0].order);
      ConsSorted(s[0], Insert(h, tail));
    }
  }

  /** A non-empty list is its front followed by its last element. */
  lemma SplitLast(s: seq<LadderHint>)
    requires s != []
    ensures s == s[..|s| - 1] + [s[|s| - 1]]
  {
  }

  /** `[...hints].sort((a, b) => a.order - b.order)`: a copy with the same hints, each inserted into the sorted copy of those before it. */
  function SortByOrder(hints: seq<LadderHint>): (r: seq<LadderHint>)
    ensures multiset(r) == multiset(hints)
    ensures |r| == |hints|
  {
    if hints == [] then []
    else
      var init := hints[..|hints| - 1];
      SplitLast(hints);
      Insert(hints[|hints| - 1], SortByOrder(init))
  }

  /** The copy is sorted by order. */
  lemma {:induction false} SortByOrderSorts(hints: seq<LadderHint>)
    ensures SortedByOrder(SortByOrder(hints))
  {
    if hints != [] {
      var init := hints[..|hints| - 1];
      SortByOrderSorts(init);
      InsertSorted(hints[|hints| - 1], SortByOrder(init));
    }
  }

  /** A hint whose order is not below any other goes last. */
  lemma {:induction false} InsertLast(h: LadderHint, s: seq<LadderHint>)
    requires forall i :: 0 <= i < |s| ==> s[i].order <= h.order
    ensures Insert(h, s) == s + [h]
  {
    if s != [] {
      InsertLast(h, s[1..]);
      assert s == [s[0]] + s[1..];
    }
  }

  /** Sorting an already sorted list, such as a hint ladder, changes nothing. */
  lemma {:induction false} SortKeepsSorted(hints: seq<LadderHint>)
    requires SortedByOrder(hints)
    ensures SortByOrder(hints) == hints
  {
    if hints != [] {
      var last := hints[|hints| - 1];
      var init := hints[..|hints| - 1];
      SplitLast(hints);
      assert forall i :: 0 <= i < |init| ==> init[i] == hints[i];
      assert SortedByOrder(init);
      SortKeepsSorted(init);
      InsertLast(last, init);
    }
  }

  /** `hints.filter(h => h.revealed).length`. */
  function RevealedCount(hints: seq<LadderHint>): (r: nat)
    ensures r <= |hints|
    ensures r == 0 <==> forall i :: 0 <= i < |hints| ==> !hints[i].revealed
    ensures r == |hints| <==> forall i :: 0 <= i < |hints| ==> hints[i].revealed
  {
    if hints == [] then 0
    else
      var rest := RevealedCount(hints[1..]);
      assert forall i :: 1 <= i < |hints| ==> hints[i] == hints[1..][i - 1];
      (if hints[0].revealed then 1 else 0) + rest
  }

  function RevealedOne(h: LadderHint): nat { if h.revealed then 1 else 0 }

  lemma {:induction false} RevealedCountSplit(a: seq<LadderHint>, b: seq<LadderHint>)
    ensures RevealedCount(a + b) == RevealedCount(a) + RevealedCount(b)
  {
    if a == [] {
      assert a + b == b;
    } else {
      assert (a + b)[0] == a[0] && (a + b)[1..] == a[1..] + b;
      RevealedCountSplit(a[1..], b);
    }
  }

  lemma {:induction false} RevealedCountInsert(h: LadderHint, s: seq<LadderHint>)
    ensures RevealedCount(Insert(h, s)) == RevealedCount(s) + RevealedOne(h)
  {
    if s == [] {
    } else if h.order < s[0].order {
      assert ([h] + s)[1..] == s;
    } else {
      RevealedCountInsert(h, s[1..]);
      assert ([s[0]] + Insert(h, s[1..]))[1..] == Insert(h, s[1..]);
    }
  }

  /** The header's count is the same for the list as given and as shown sorted. */
  lemma {:induction false} SortKeepsRevealedCount(hints: seq<LadderHint>)
    ensures RevealedCount(SortByOrder(hints)) == RevealedCount(hints)
  {
    if hints != [] {
      var last := hints[|hints| - 1];
      var init := hints[..|hints| - 1];
      SplitLast(hints);
      SortKeepsRevealedCount(init);
      RevealedCountInsert(last, SortByOrder(init));
      RevealedCountSplit(init, [last]);
    }
  }

  /**
   * A fresh hint ladder is shown in the order it was built, and the
   * header counts exactly one revealed hint: the review score.
   */
  lemma FreshLadderDisplay(hints: seq<LadderHint>, source: HintSource)
    requires GuessApi.IsLadder(hints, source)
    ensures SortByOrder(hints) == hints
    ensures RevealedCount(hints) == 1
  {
    assert SortByOrder(hints) == hints by {
      assert SortedByOrder(hints);
      SortKeepsSorted(hints);
    }
    assert RevealedCount(hints) == 1 by {
      var tail := hints[1..];
      assert forall i :: 0 <= i < |tail| ==> !tail[i].revealed by {
        assert forall i :: 0 <= i < |tail| ==> tail[i] == hints[i + 1];
      }
      assert RevealedCount(tail) == 0;
    }
  }

  const BaseClasses := "hint-card transition-all duration-300"

  /**
   * `getHintClass(hint)`: a hidden hint is a placeholder whatever its
   * source; a revealed store hint is "enhanced", any other revealed hint
   * "basic".
   */
  function HintClass(hint: LadderHint): (r: string)
    ensures !hint.revealed ==> r == BaseClasses + " placeholder"
    ensures hint.revealed && hint.source == SteamStore ==> r == BaseClasses + " enhanced"
    ensures hint.revealed && hint.source != SteamStore ==> r == BaseClasses + " basic"
  {
    if !hint.revealed then BaseClasses + " placeholder"
    else if hint.source == SteamStore then BaseClasses + " enhanced"
    else BaseClasses + " basic"
  }

  /**
   * The title of a revealed hint: "Letter Reveal" for both letter hints,
   * otherwise the type's name with its first character upper-cased.
   */
  function HintTitle(kind: HintType): (r: string)
    ensures kind == FirstLetter || kind == SecondLetter ==> r == "Letter Reveal"
    ensures kind != FirstLetter && kind != SecondLetter ==>
      |r| == |TypeName(kind)| && r[0] == UpperChar(TypeName(kind)[0]) && r[1..] == TypeName(kind)[1..]
  {
    if kind == FirstLetter || kind == SecondLetter then "Letter Reveal"
    else var name := TypeName(kind); [UpperChar(name[0])] + name[1..]
  }

  /** Titles tell the hint types apart, except the two letter hints, which share one. */
  lemma HintTitleDistinguishes(a: HintType, b: HintType)
    requires HintTitle(a) == HintTitle(b)
    ensures a == b || ({a, b} == {FirstLetter, SecondLetter})
  {
  }
}
