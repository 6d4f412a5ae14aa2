/**
 * Game modes and the per-mode keys both session stores use. The key is
 * `genre-${genre}` in genre mode and the mode name otherwise; the stores
 * build it from the `genre?: string` argument in `setGameMode` and from
 * the stored `currentGenre: string | null` everywhere else.
 */
module ModeKeys {
  import opened Wrappers

  datatype Mode = Top100In2Weeks | Top100Forever | Genre

  function ModeName(m: Mode): string {
    match m
    case Top100In2Weeks => "top100in2weeks"
    case Top100Forever => "top100forever"
    case Genre => "genre"
  }

  /** `${genre}` for the optional argument: `undefined` prints as "undefined". */
  function ArgText(genre: Option<string>): string {
    match genre
    case None => "undefined"
    case Some(g) => g
  }

  /** `${currentGenre}` for the stored value: `null` prints as "null". */
  function StoredText(genre: Option<string>): string {
    match genre
    case None => "null"
    case Some(g) => g
  }

  /** The key for a mode and the printed form of a genre. */
  function KeyFor(mode: Mode, genreText: string): string {
    if mode == Genre then "genre-" + genreText else ModeName(mode)
  }

  /** Two modes, or two genres of genre mode, never share a key. */
  lemma KeyForInjective(m1: Mode, t1: string, m2: Mode, t2: string)
    requires KeyFor(m1, t1) == KeyFor(m2, t2)
    ensures m1 == m2
    ensures m1 == Genre ==> t1 == t2
  {
    var k := KeyFor(m1, t1);
    KeyInitial(m1, t1);
    KeyInitial(m2, t2);
    if m1 == Genre && m2 == Genre {
      assert t1 == k[6..] == t2;
    } else if m1 != Genre && m2 != Genre {
      assert k[7] == ModeName(m1)[7] == ModeName(m2)[7];
    }
  }

  lemma KeyInitial(m: Mode, t: string)
    ensures KeyFor(m, t) != [] && (KeyFor(m, t)[0] == 'g' <==> m == Genre)
  {
  }

  /** The key `setGameMode(mode, genre)` writes. */
  function ArgKey(mode: Mode, genre: Option<string>): string {
    KeyFor(mode, ArgText(genre))
  }

  /** The key the other actions read; a null `currentMode` gives the key "null". */
  function StoredKey(mode: Option<Mode>, genre: Option<string>): string {
    match mode
    case None => "null"
    case Some(m) => KeyFor(m, StoredText(genre))
  }

  /** `genre || null`: an absent or empty genre is stored as null. */
  function StoredGenre(genre: Option<string>): (r: Option<string>)
    ensures r.Some? <==> genre.Some? && genre.value != ""
    ensures r.Some? ==> r == genre
  {
    if genre.Some? && genre.value != "" then genre else None
  }

  /** The early-return test of `setGameMode`: `currentMode === mode && currentGenre === genre`. */
  predicate SameSelection(currentMode: Option<Mode>, currentGenre: Option<string>, mode: Mode, genre: Option<string>) {
    currentMode == Some(mode) && currentGenre.Some? && genre.Some? && currentGenre.value == genre.value
  }

  /**
   * After `setGameMode(mode, genre)` the other actions find the entry it
   * created exactly when the mode is not genre mode or the genre is a
   * non-empty string; otherwise they look under "genre-null".
   */
  lemma StoredKeyMatchesArgKey(mode: Mode, genre: Option<string>)
    ensures StoredKey(Some(mode), StoredGenre(genre)) == ArgKey(mode, genre)
            <==> mode != Genre || (genre.Some? && genre.value != "")
  {
    if mode == Genre && !(genre.Some? && genre.value != "") {
      var stored := StoredKey(Some(mode), StoredGenre(genre));
      assert stored == "genre-null";
      if genre.None? {
        assert ArgKey(mode, genre) == "genre-undefined";
        assert stored[6] != ArgKey(mode, genre)[6];
      } else {
        assert |ArgKey(mode, genre)| == 6;
      }
    }
  }

  /**
   * Repeating a `setGameMode` call returns early exactly when a non-empty
   * genre was given: without a genre the stored null never equals the
   * undefined argument.
   */
  lemma RepeatedSelectionIsSame(mode: Mode, genre: Option<string>)
    ensures SameSelection(Some(mode), StoredGenre(genre), mode, genre)
            <==> genre.Some? && genre.value != ""
  {
  }
}
