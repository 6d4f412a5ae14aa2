/**
 * The Guess game's selection engine: single draws from a pool without
 * repeating an id until the pool is used up, and the rule that decides
 * whether a typed guess names the current game.
 */
module GuessEngine {
  import opened Wrappers
  import opened Text
  import opened Rotation
  import opened GuessTypes

  /**
   * What `selectNewGame` promises, from the pool and the used set before
   * the call to the game `r` it returns and the used set after it: an
   * unused game while one is left, else any pool game after clearing the
   * set; `None` (the throw on an empty pool) exactly when the pool is empty.
   */
  ghost predicate Drawn(pool: seq<Game>, used: set<int>, r: Option<Game>, newUsed: set<int>) {
    (r.None? <==> pool == [])
    && (r.None? ==> newUsed == {})
    && (r.Some? ==>
          var avail := Unused(pool, IdOf, used);
          if avail != [] then r.value in avail && newUsed == used + {r.value.id}
          else r.value in pool && newUsed == {r.value.id})
  }

  class GuessEngine {
    const gamePool: seq<Game>
    var usedGameIds: set<int>

    constructor (initialGames: seq<Game>)
      ensures gamePool == initialGames && usedGameIds == {}
    {
      gamePool := initialGames;
      usedGameIds := {};
    }

    /** The `usedGameIds` setter: the engine keeps its own copy of `ids`. */
    method SetUsedGameIds(ids: set<int>)
      modifies this
      ensures usedGameIds == ids
    {
      usedGameIds := ids;
    }

    /**
     * A uniformly random unused game (any unused game, here); when none is
     * left the used set is cleared and any pool game is drawn. An empty pool
     * yields `undefined` (None).
     */
    method RandomUnusedGame() returns (r: Option<Game>)
      modifies this
      ensures var avail := Unused(gamePool, IdOf, old(usedGameIds));
        if avail != [] then usedGameIds == old(usedGameIds) && r.Some? && r.value in avail
        else usedGameIds == {} && (r.Some? <==> gamePool != []) && (r.Some? ==> r.value in gamePool)
    {
      var available := Unused(gamePool, IdOf, usedGameIds);
      if |available| == 0 {
        usedGameIds := {};
        if |gamePool| == 0 {
          return None;
        }
        var k :| 0 <= k < |gamePool|;
        return Some(gamePool[k]);
      }
      var k :| 0 <= k < |available|;
      return Some(available[k]);
    }

    /**
     * Draws the next game and marks its id used. `None` is the TypeError the
     * source raises on `undefined.id` when the pool is empty.
     */
    method SelectNewGame() returns (r: Option<Game>)
      modifies this
      ensures Drawn(gamePool, old(usedGameIds), r, usedGameIds)
    {
      r := RandomUnusedGame();
      if r.Some? {
        usedGameIds := usedGameIds + {r.value.id};
      }
    }

    /** `getGamePoolSize`: with distinct ids, the number of different games the pool offers. */
    function GamePoolSize(): (r: nat)
      ensures DistinctIds(gamePool, IdOf) ==> r == |Ids(gamePool, IdOf)|
    {
      assert DistinctIds(gamePool, IdOf) ==> |Ids(gamePool, IdOf)| == |gamePool| by {
        if DistinctIds(gamePool, IdOf) {
          DistinctIdsCount(gamePool, IdOf);
        }
      }
      |gamePool|
    }

    /**
     * `getAvailableGamesCount`: when the pool's ids are distinct and every
     * used id is a pool id, the number of games a draw can choose from; it
     * is the whole pool exactly when no id has been used.
     */
    function AvailableGamesCount(): (r: int)
      reads this
      ensures r <= GamePoolSize()
      ensures r == GamePoolSize() <==> usedGameIds == {}
      ensures DistinctIds(gamePool, IdOf) && usedGameIds <= Ids(gamePool, IdOf) ==>
                r == |Unused(gamePool, IdOf, usedGameIds)|
    {
      assert DistinctIds(gamePool, IdOf) && usedGameIds <= Ids(gamePool, IdOf) ==>
               |Unused(gamePool, IdOf, usedGameIds)| == |gamePool| - |usedGameIds| by {
        if DistinctIds(gamePool, IdOf) && usedGameIds <= Ids(gamePool, IdOf) {
          UnusedCount(gamePool, IdOf, usedGameIds);
        }
      }
      |gamePool| - |usedGameIds|
    }

    method Reset()
      modifies this
      ensures usedGameIds == {}
    {
      usedGameIds := {};
    }
  }

  /** A drawn game is a pool game. */
  lemma DrawnFromPool(pool: seq<Game>, used: set<int>, r: Option<Game>, newUsed: set<int>)
    requires Drawn(pool, used, r, newUsed)
    ensures r.Some? ==> r.value in pool
  {
  }

  /**
   * While some pool game is unused, a draw returns an unused pool game and
   * the used set grows by exactly its id.
   */
  lemma DrawnFresh(pool: seq<Game>, used: set<int>, r: Option<Game>, newUsed: set<int>)
    requires DistinctIds(pool, IdOf) && used <= Ids(pool, IdOf) && |used| < |pool|
    requires Drawn(pool, used, r, newUsed)
    ensures r.Some? && r.value in pool && r.value.id !in used
    ensures newUsed == used + {r.value.id} && |newUsed| == |used| + 1 && newUsed <= Ids(pool, IdOf)
  {
    UnusedNonEmpty(pool, IdOf, used);
  }

  /** Appending a game whose id is outside `used`, a superset of the drawn ids, keeps the drawn ids distinct. */
  lemma AppendFresh(pool: seq<Game>, drawn: seq<Game>, used: set<int>, g: Game)
    requires forall i, j :: 0 <= i < j < |drawn| ==> drawn[i].id != drawn[j].id
    requires forall i :: 0 <= i < |drawn| ==> drawn[i] in pool && drawn[i].id in used
    requires g in pool && g.id !in used
    ensures forall i, j :: 0 <= i < j < |drawn + [g]| ==> (drawn + [g])[i].id != (drawn + [g])[j].id
    ensures forall i :: 0 <= i < |drawn + [g]| ==> (drawn + [g])[i] in pool && (drawn + [g])[i].id in used + {g.id}
  {
    var d := drawn + [g];
    forall i, j | 0 <= i < j < |d| ensures d[i].id != d[j].id {
      assert d[i] == drawn[i];
    }
    forall i | 0 <= i < |d| ensures d[i] in pool && d[i].id in used + {g.id} {
      if i < |drawn| {
        assert d[i] == drawn[i];
      }
    }
  }

  /**
   * K consecutive draws from a fresh engine over a pool of K games with
   * distinct ids return K distinct games of the pool.
   */
  method DrawCycle(pool: seq<Game>) returns (drawn: seq<Game>)
    requires DistinctIds(pool, IdOf)
    ensures |drawn| == |pool|
    ensures forall i, j :: 0 <= i < j < |drawn| ==> drawn[i].id != drawn[j].id
    ensures forall i :: 0 <= i < |drawn| ==> drawn[i] in pool
  {
    var engine := new GuessEngine(pool);
    drawn := [];
    while |drawn| < |pool|
      invariant engine.gamePool == pool
      invariant engine.usedGameIds <= Ids(pool, IdOf)
      invariant |engine.usedGameIds| == |drawn| <= |pool|
      invariant forall i :: 0 <= i < |drawn| ==> drawn[i] in pool && drawn[i].id in engine.usedGameIds
      invariant forall i, j :: 0 <= i < j < |drawn| ==> drawn[i].id != drawn[j].id
    {
      ghost var used := engine.usedGameIds;
      var g := engine.SelectNewGame();
      DrawnFresh(engine.gamePool, used, g, engine.usedGameIds);
      AppendFresh(pool, drawn, used, g.value);
      drawn := drawn + [g.value];
    }
  }

  // ---- Guess checking ----

  /** `.replace(/[^a-z0-9\s]/g, '')`. */
  function KeepAlnumSpace(s: string): (r: string)
    ensures |r| <= |s|
    ensures forall i :: 0 <= i < |r| ==> IsLowerAlnum(r[i]) || IsSpace(r[i])
  {
    if s == [] then []
    else if IsLowerAlnum(s[0]) || IsSpace(s[0]) then [s[0]] + KeepAlnumSpace(s[1..])
    else KeepAlnumSpace(s[1..])
  }

  /** A string of `[a-z0-9\s]` is kept whole. */
  lemma {:induction false} KeepAlnumSpaceKeepsClean(s: string)
    requires forall i :: 0 <= i < |s| ==> IsLowerAlnum(s[i]) || IsSpace(s[i])
    ensures KeepAlnumSpace(s) == s
    decreases |s|
  {
    if s != [] {
      KeepAlnumSpaceKeepsClean(s[1..]);
    }
  }

  /** A string with nothing from `[a-z0-9\s]` is removed entirely. */
  lemma {:induction false} KeepAlnumSpaceDropsRest(s: string)
    requires forall i :: 0 <= i < |s| ==> !IsLowerAlnum(s[i]) && !IsSpace(s[i])
    ensures KeepAlnumSpace(s) == []
    decreases |s|
  {
    if s != [] {
      KeepAlnumSpaceDropsRest(s[1..]);
    }
  }

  lemma {:induction false} KeepAlnumSpaceAppend(a: string, b: string)
    ensures KeepAlnumSpace(a + b) == KeepAlnumSpace(a) + KeepAlnumSpace(b)
    decreases |a|
  {
    if a != [] {
      assert (a + b)[1..] == a[1..] + b;
      KeepAlnumSpaceAppend(a[1..], b);
    } else {
      assert a + b == b;
    }
  }

  /** `.replace(/\s+/g, ' ')`: every run of white space becomes one blank. */
  function CollapseSpaces(s: string): (r: string)
    ensures r == [] <==> s == []
    ensures r != [] ==> (r[0] == ' ' <==> IsSpace(s[0]))
    ensures forall i :: 0 <= i < |r| - 1 ==> !(r[i] == ' ' && r[i + 1] == ' ')
    decreases |s|
  {
    if s == [] then []
    else if IsSpace(s[0]) then [' '] + CollapseSpaces(TrimStart(s))
    else [s[0]] + CollapseSpaces(s[1..])
  }

  /**
   * Collapsing works piecewise when the cut is not inside a run of white
   * space: with the identity on text without white space, this says every
   * other character survives, in order.
   */
  lemma {:induction false} CollapseSpacesAppend(x: string, r: string)
    requires x != [] ==> !IsSpace(x[|x| - 1])
    ensures CollapseSpaces(x + r) == CollapseSpaces(x) + CollapseSpaces(r)
    decreases |x|
  {
    if x == [] {
      assert x + r == r;
    } else if IsSpace(x[0]) {
      var t := TrimStart(x);
      assert 0 <= |x| - 1 < |x| && !IsSpace(x[|x| - 1]);
      assert |t| > 0 && t[|t| - 1] == x[|x| - 1];
      TrimStartAppend(x, r);
      CollapseBlank(x);
      CollapseBlank(x + r);
      CollapseSpacesAppend(t, r);
      AppendAssoc([' '], CollapseSpaces(t), CollapseSpaces(r));
    } else {
      var x' := x[1..];
      assert x' != [] ==> x'[|x'| - 1] == x[|x| - 1];
      CollapseSpacesAppend(x', r);
      assert x == [x[0]] + x';
      AppendAssoc([x[0]], x', r);
      CollapseNonBlank(x[0], x');
      CollapseNonBlank(x[0], x' + r);
      AppendAssoc([x[0]], CollapseSpaces(x'), CollapseSpaces(r));
    }
  }

  /** A run of white space between two words collapses to one blank. */
  lemma CollapseSpacesJoin(x: string, w: string, y: string)
    requires x != [] ==> !IsSpace(x[|x| - 1])
    requires w != [] && forall i :: 0 <= i < |w| ==> IsSpace(w[i])
    requires y != [] ==> !IsSpace(y[0])
    ensures CollapseSpaces(x + w + y) == CollapseSpaces(x) + " " + CollapseSpaces(y)
  {
    CollapseSpacesAppend(x, w + y);
    AppendAssoc(x, w, y);
    TrimStartSkipsRun(w, y);
    CollapseBlank(w + y);
    AppendAssoc(CollapseSpaces(x), " ", CollapseSpaces(y));
  }

  lemma CollapseBlank(s: string)
    requires s != [] && IsSpace(s[0])
    ensures CollapseSpaces(s) == [' '] + CollapseSpaces(TrimStart(s))
  {
  }

  lemma CollapseNonBlank(c: char, s: string)
    requires !IsSpace(c)
    ensures CollapseSpaces([c] + s) == [c] + CollapseSpaces(s)
  {
    assert ([c] + s)[1..] == s;
  }

  /** A string whose only white space is single blanks is left as it is. */
  lemma {:induction false} CollapseSingleBlanks(s: string)
    requires forall i :: 0 <= i < |s| ==> IsSpace(s[i]) ==> s[i] == ' '
    requires forall i :: 0 <= i < |s| - 1 ==> !(IsSpace(s[i]) && IsSpace(s[i + 1]))
    ensures CollapseSpaces(s) == s
    decreases |s|
  {
    if s != [] {
      assert IsSpace(s[0]) ==> TrimStart(s) == s[1..] by {
        if IsSpace(s[0]) {
          TrimStartSkipsRun([s[0]], s[1..]);
          assert [s[0]] + s[1..] == s;
        }
      }
      CollapseSingleBlanks(s[1..]);
    }
  }

  /** The normalisation both sides of a guess go through. */
  function Normalise(s: string): string {
    Trim(CollapseSpaces(KeepAlnumSpace(ToLower(s))))
  }

  /** A normalised string: `[a-z0-9 ]`, single blanks, no blank at either end. */
  ghost predicate IsNormal(s: string) {
    (forall i :: 0 <= i < |s| ==> IsLowerAlnum(s[i]) || s[i] == ' ')
    && (forall i :: 0 <= i < |s| - 1 ==> !(s[i] == ' ' && s[i + 1] == ' '))
    && (s != [] ==> s[0] != ' ' && s[|s| - 1] != ' ')
  }

  /** Collapsing a string of `[a-z0-9\s]` leaves only `[a-z0-9 ]`. */
  lemma {:induction false} CollapsedChars(s: string)
    requires forall i :: 0 <= i < |s| ==> IsLowerAlnum(s[i]) || IsSpace(s[i])
    ensures forall i :: 0 <= i < |CollapseSpaces(s)| ==>
      IsLowerAlnum(CollapseSpaces(s)[i]) || CollapseSpaces(s)[i] == ' '
    decreases |s|
  {
    if s != [] {
      if IsSpace(s[0]) {
        var t := TrimStart(s);
        assert forall i :: 0 <= i < |t| ==> t[i] == s[|s| - |t| + i];
        CollapsedChars(t);
      } else {
        CollapsedChars(s[1..]);
      }
    }
  }

  /** Trimming a string of `[a-z0-9 ]` without adjacent blanks gives a normal string. */
  lemma TrimIsNormal(c: string)
    requires forall i :: 0 <= i < |c| ==> IsLowerAlnum(c[i]) || c[i] == ' '
    requires forall i :: 0 <= i < |c| - 1 ==> !(c[i] == ' ' && c[i + 1] == ' ')
    ensures IsNormal(Trim(c))
  {
    var off := TrimSlice(c);
    var u := Trim(c);
    forall i | 0 <= i < |u| ensures IsLowerAlnum(u[i]) || u[i] == ' ' {
      assert u[i] == c[off + i];
    }
    forall i | 0 <= i < |u| - 1 ensures !(u[i] == ' ' && u[i + 1] == ' ') {
      assert u[i] == c[off + i] && u[i + 1] == c[off + i + 1];
    }
  }

  /** Normalising yields a normal string. */
  lemma NormaliseIsNormal(s: string)
    ensures IsNormal(Normalise(s))
  {
    var k := KeepAlnumSpace(ToLower(s));
    CollapsedChars(k);
    TrimIsNormal(CollapseSpaces(k));
  }

  /** A string already in normal form is its own normal form. */
  lemma NormaliseOfNormal(s: string)
    requires IsNormal(s)
    ensures Normalise(s) == s
  {
    assert forall i :: 0 <= i < |s| ==> !IsUpper(s[i]) && (IsLowerAlnum(s[i]) || IsSpace(s[i]));
    SameChars(ToLower(s), s);
    KeepAlnumSpaceKeepsClean(s);
    CollapseSingleBlanks(s);
    TrimNoEdgeSpace(s);
  }

  /** A normal string holds no `:`, the character the colon check splits on. */
  lemma NormalHasNoColon(s: string)
    requires IsNormal(s)
    ensures ':' !in s
  {
    forall i | 0 <= i < |s| ensures s[i] != ':' {
      assert IsLowerAlnum(s[i]) || s[i] == ' ';
    }
  }

  /** Normalising is blind to letter case. */
  lemma NormaliseIgnoresCase(s: string)
    ensures Normalise(ToLower(s)) == Normalise(s)
  {
    ToLowerIdempotent(s);
  }

  /** Inserting a punctuation character anywhere does not change the normal form. */
  lemma NormaliseIgnoresPunctuation(a: string, c: char, b: string)
    requires !IsLowerAlnum(LowerChar(c)) && !IsSpace(LowerChar(c))
    ensures Normalise(a + [c] + b) == Normalise(a + b)
  {
    var la, lb, lc := ToLower(a), ToLower(b), LowerChar(c);
    ToLowerAppend(a + [c], b);
    ToLowerAppend(a, [c]);
    ToLowerAppend(a, b);
    assert ToLower([c]) == [lc];
    assert ToLower(a + [c] + b) == la + [lc] + lb;
    KeepAlnumSpaceAppend(la + [lc], lb);
    KeepAlnumSpaceAppend(la, [lc]);
    KeepAlnumSpaceAppend(la, lb);
    assert KeepAlnumSpace([lc]) == [];
    assert KeepAlnumSpace(la + [lc] + lb) == KeepAlnumSpace(la) + KeepAlnumSpace(lb);
    assert KeepAlnumSpace(ToLower(a + [c] + b)) == KeepAlnumSpace(ToLower(a + b));
  }

  /** The first character of each word (`word[0]`; an empty word gives nothing). */
  function Initials(words: seq<string>): (r: string)
    ensures |r| <= |words|
    ensures (forall i :: 0 <= i < |words| ==> words[i] != []) ==>
      |r| == |words| && forall i :: 0 <= i < |r| ==> r[i] == words[i][0]
    ensures (forall i :: 0 <= i < |words| ==> words[i] == []) ==> r == []
  {
    if words == [] then ""
    else (if words[0] == [] then "" else [words[0][0]]) + Initials(words[1..])
  }

  /** `createAcronym`: split on blanks, first letters, joined, lower-cased. */
  function Acronym(s: string): string {
    ToLower(Initials(Split(s, ' ')))
  }

  /** The acronym check on two normalised strings. */
  predicate AcronymMatch(normalGuess: string, normalName: string) {
    var ga := Acronym(normalGuess);
    |ga| > 1 && ga == Acronym(normalName)
  }

  /** The colon check: the text before the first `:` of each side, trimmed. */
  predicate ColonMatch(normalGuess: string, normalName: string) {
    Trim(Split(normalName, ':')[0]) == Trim(Split(normalGuess, ':')[0])
  }

  /** `.replace(/\d+/g, '')`. */
  function StripDigits(s: string): (r: string)
    ensures |r| <= |s|
    ensures forall i :: 0 <= i < |r| ==> !IsDigit(r[i])
  {
    if s == [] then []
    else if IsDigit(s[0]) then StripDigits(s[1..])
    else [s[0]] + StripDigits(s[1..])
  }

  /** A string without digits is left as it is. */
  lemma {:induction false} StripDigitsKeepsDigitless(s: string)
    requires forall i :: 0 <= i < |s| ==> !IsDigit(s[i])
    ensures StripDigits(s) == s
    decreases |s|
  {
    if s != [] {
      StripDigitsKeepsDigitless(s[1..]);
    }
  }

  /** A string of digits only is removed entirely. */
  lemma {:induction false} StripDigitsDropsNumber(s: string)
    requires forall i :: 0 <= i < |s| ==> IsDigit(s[i])
    ensures StripDigits(s) == []
    decreases |s|
  {
    if s != [] {
      StripDigitsDropsNumber(s[1..]);
    }
  }

  /** Stripping digits works piecewise, so every other character survives, in order. */
  lemma {:induction false} StripDigitsAppend(a: string, b: string)
    ensures StripDigits(a + b) == StripDigits(a) + StripDigits(b)
    decreases |a|
  {
    if a == [] {
      assert a + b == b;
    } else {
      assert (a + b)[0] == a[0] && (a + b)[1..] == a[1..] + b;
      StripDigitsAppend(a[1..], b);
      if !IsDigit(a[0]) {
        AppendAssoc([a[0]], StripDigits(a[1..]), StripDigits(b));
      }
    }
  }

  /** The digit-stripped check. */
  predicate DigitlessMatch(normalGuess: string, normalName: string) {
    Trim(StripDigits(normalName)) == Trim(StripDigits(normalGuess))
  }

  /** The colon check's part of a normal string is the whole string. */
  lemma ColonPartOfNormal(s: string)
    requires IsNormal(s)
    ensures Trim(Split(s, ':')[0]) == s
  {
    NormalHasNoColon(s);
    SplitJoin([s], ':');
    assert Join([s], [':']) == s;
    TrimNoEdgeSpace(s);
  }

  /** On normalised strings the colon check accepts exactly what the exact check accepts. */
  lemma ColonMatchIsExact(guess: string, name: string)
    ensures ColonMatch(Normalise(guess), Normalise(name)) <==> Normalise(guess) == Normalise(name)
  {
    NormaliseIsNormal(guess);
    NormaliseIsNormal(name);
    ColonPartOfNormal(Normalise(guess));
    ColonPartOfNormal(Normalise(name));
  }

  /** A string without blanks has an acronym of at most one letter. */
  lemma OneWordAcronym(s: string)
    requires ' ' !in s
    ensures |Acronym(s)| <= 1
  {
    SplitJoin([s], ' ');
  }

  /** The acronym check only accepts a guess of two or more words. */
  lemma AcronymMatchNeedsTwoWords(g: string, n: string)
    requires AcronymMatch(g, n)
    ensures ' ' in g
  {
    if ' ' !in g {
      OneWordAcronym(g);
    }
  }

  /** What `checkGuess` accepts, on the normalised guess and name. */
  predicate NormalMatch(ng: string, nn: string) {
    ng == nn || AcronymMatch(ng, nn) || DigitlessMatch(ng, nn)
  }

  /**
   * `checkGuess`: false without a game; otherwise the exact, acronym,
   * colon-prefix and digit-stripped checks are tried in turn. The colon
   * check never decides anything, so the result is the disjunction of the
   * other three.
   */
  function CheckGuess(guess: string, currentGame: Option<Game>): (r: bool)
    ensures currentGame.None? ==> !r
    ensures currentGame.Some? ==>
      var ng := Normalise(guess);
      var nn := Normalise(currentGame.value.name);
      (r <==> NormalMatch(ng, nn))
  {
    if currentGame.None? then false
    else
      var ng := Normalise(guess);
      var nn := Normalise(currentGame.value.name);
      ColonMatchIsExact(guess, currentGame.value.name);
      if ng == nn then true
      else if AcronymMatch(ng, nn) then true
      else if ColonMatch(ng, nn) then true
      else if DigitlessMatch(ng, nn) then true
      else false
  }

  lemma NormalMatchSymmetric(a: string, b: string)
    ensures NormalMatch(a, b) <==> NormalMatch(b, a)
  {
  }

  /** A guess accepted for a game named `n` is the name of a game `g` accepts as a guess. */
  lemma CheckGuessSymmetric(guess: string, g: Game, h: Game)
    requires h.name == guess
    ensures CheckGuess(guess, Some(g)) == CheckGuess(g.name, Some(h))
  {
    NormalMatchSymmetric(Normalise(guess), Normalise(g.name));
  }

  /** Every game accepts its own name, in any letter case and with any punctuation added. */
  lemma CheckGuessAcceptsOwnName(g: Game, a: string, c: char, b: string)
    requires a + b == g.name
    requires !IsLowerAlnum(LowerChar(c)) && !IsSpace(LowerChar(c))
    ensures CheckGuess(g.name, Some(g))
    ensures CheckGuess(ToLower(g.name), Some(g))
    ensures CheckGuess(a + [c] + b, Some(g))
  {
    NormaliseIgnoresCase(g.name);
    NormaliseIgnoresPunctuation(a, c, b);
  }

  /** A one-word guess is never accepted by the acronym check alone. */
  lemma OneWordGuessNeedsOtherCheck(guess: string, g: Game)
    requires ' ' !in Normalise(guess)
    ensures CheckGuess(guess, Some(g)) <==>
      Normalise(guess) == Normalise(g.name) || DigitlessMatch(Normalise(guess), Normalise(g.name))
  {
    if AcronymMatch(Normalise(guess), Normalise(g.name)) {
      AcronymMatchNeedsTwoWords(Normalise(guess), Normalise(g.name));
    }
  }

  /**
   * A guess naming a game without the number its name ends in is accepted:
   * the digit-stripped check drops the number and the blank before it.
   */
  lemma TrailingNumberMayBeOmitted(guess: string, g: Game, number: string)
    requires forall i :: 0 <= i < |Normalise(guess)| ==> !IsDigit(Normalise(guess)[i])
    requires number != [] && forall i :: 0 <= i < |number| ==> IsDigit(number[i])
    requires Normalise(g.name) == Normalise(guess) + " " + number
    ensures Trim(StripDigits(Normalise(g.name))) == Normalise(guess)
    ensures CheckGuess(guess, Some(g))
  {
    var ng := Normalise(guess);
    NormaliseIsNormal(guess);
    NormalEdges(ng);
    DropTrailingNumber(ng, number);
    assert DigitlessMatch(ng, Normalise(g.name));
  }

  /** The digit-stripped check's view of a normal string followed by a number. */
  lemma DropTrailingNumber(s: string, number: string)
    requires s != [] ==> !IsSpace(s[0]) && !IsSpace(s[|s| - 1])
    requires forall i :: 0 <= i < |s| ==> !IsDigit(s[i])
    requires forall i :: 0 <= i < |number| ==> IsDigit(number[i])
    ensures Trim(StripDigits(s + " " + number)) == s
    ensures Trim(StripDigits(s)) == s
  {
    StripDigitsAppend(s + " ", number);
    StripDigitsAppend(s, " ");
    StripDigitsKeepsDigitless(s);
    StripDigitsDropsNumber(number);
    assert StripDigits(" ") == " ";
    assert StripDigits(s + " ") == s + " ";
    assert StripDigits(s + " " + number) == s + " ";
    TrimTrailingBlank(s);
    TrimNoEdgeSpace(s);
  }

  /** A normal string has no white space at either end. */
  lemma NormalEdges(s: string)
    requires IsNormal(s)
    ensures s != [] ==> !IsSpace(s[0]) && !IsSpace(s[|s| - 1])
  {
    if s != [] {
      assert IsLowerAlnum(s[0]) && IsLowerAlnum(s[|s| - 1]);
    }
  }

  /** `checkGuess`'s own example: "portal" is accepted for "Portal 2", by the digit-stripped check. */
  lemma PortalAcceptedForPortal2(g: Game)
    requires g.name == "Portal 2"
    ensures CheckGuess("portal", Some(g))
  {
    PortalNormalForm();
    PortalFacts();
    NormaliseOfNormal("portal");
    TrailingNumberMayBeOmitted("portal", g, "2");
  }

  /** A guess sharing no word with the name is rejected: "halo" for "Portal 2". */
  lemma HaloRejectedForPortal2(g: Game)
    requires g.name == "Portal 2"
    ensures !CheckGuess("halo", Some(g))
  {
    PortalNormalForm();
    PortalFacts();
    NormaliseOfNormal("portal");
    TrailingNumberMayBeOmitted("portal", g, "2");
    HaloFacts();
    NormaliseOfNormal("halo");
    DropTrailingNumber("halo", "");
    var ng, nn := Normalise("halo"), Normalise(g.name);
    assert |ng| == 4 && |nn| == 8;
    assert !DigitlessMatch(ng, nn);
    OneWordGuessNeedsOtherCheck("halo", g);
  }

  lemma PortalNormalForm()
    ensures Normalise("Portal 2") == "portal" + " " + "2"
  {
    NormaliseIgnoresCase("Portal 2");
    PortalLowerCase();
    PortalSpelling();
    NormaliseOfNormal("portal 2");
  }

  lemma PortalLowerCase()
    ensures ToLower("Portal 2") == "portal 2"
  {
  }

  lemma PortalSpelling()
    ensures "portal 2" == "portal" + " " + "2" && IsNormal("portal 2")
  {
  }

  lemma PortalFacts()
    ensures IsNormal("portal")
    ensures forall i :: 0 <= i < |"portal"| ==> !IsDigit("portal"[i])
    ensures forall i :: 0 <= i < |"2"| ==> IsDigit("2"[i])
  {
  }

  lemma HaloFacts()
    ensures IsNormal("halo") && ' ' !in "halo"
    ensures !IsSpace("halo"[0]) && !IsSpace("halo"[3])
    ensures forall i :: 0 <= i < |"halo"| ==> !IsDigit("halo"[i])
    ensures "halo" + " " + "" == "halo" + " "
  {
  }
}
