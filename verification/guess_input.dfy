/**
 * The Guess game's input box: the name suggestions computed from the
 * game pool as the player types, the keyboard selection among them, and
 * the submit guard.
 */
module GuessInput {
  import opened Wrappers
  import opened Text

  /** At most this many suggestions are shown. */
  const MaxSuggestions := 5

  /** A name is suggested when its lower-cased form contains the input or one of its words starts with it. */
  predicate Matches(name: string, input: string) {
    var lowered := ToLower(name);
    Contains(lowered, input)
    || exists k :: 0 <= k < |Split(lowered, ' ')| && StartsWith(Split(lowered, ' ')[k], input)
  }

  /** The word-prefix clause never adds a name: a word's prefix is a substring of the whole name. */
  lemma WordPrefixImpliesContains(name: string, input: string)
    ensures Matches(name, input) <==> Contains(ToLower(name), input)
  {
    var lowered := ToLower(name);
    if k :| 0 <= k < |Split(lowered, ' ')| && StartsWith(Split(lowered, ' ')[k], input) {
      SplitPiecesAreSubstrings(lowered, ' ', k);
      ContainsPrefixOfSubstring(lowered, Split(lowered, ' ')[k], input);
    }
  }

  /** The suggestion test for a fixed input. */
  function MatchesInput(input: string): string -> bool {
    name => Matches(name, input)
  }

  /** `names.filter(keep)`. */
  function Filter(names: seq<string>, keep: string -> bool): (r: seq<string>)
    ensures |r| <= |names|
  {
    if names == [] then []
    else
      var rest := Filter(names[1..], keep);
      if keep(names[0]) then [names[0]] + rest else rest
  }

  /** The filter keeps exactly the names that pass the test. */
  lemma {:induction false} FilterExactly(names: seq<string>, keep: string -> bool)
    ensures forall i :: 0 <= i < |Filter(names, keep)| ==> Filter(names, keep)[i] in names && keep(Filter(names, keep)[i])
    ensures forall n :: n in names && keep(n) ==> n in Filter(names, keep)
  {
    if names != [] {
      FilterExactly(names[1..], keep);
      assert forall n :: n in names ==> n == names[0] || n in names[1..];
      var r := Filter(names, keep);
      var rest := Filter(names[1..], keep);
      if keep(names[0]) {
        assert forall i :: 1 <= i < |r| ==> r[i] == rest[i - 1];
      }
    }
  }

  /** `names.filter(name => matches)`. */
  function FilterMatches(names: seq<string>, input: string): (r: seq<string>)
    ensures |r| <= |names|
  {
    Filter(names, MatchesInput(input))
  }

  /**
   * The filter keeps exactly the pool names whose lower-cased form
   * contains the input.
   */
  lemma FilterMatchesExactly(names: seq<string>, input: string)
    ensures forall i :: 0 <= i < |FilterMatches(names, input)| ==>
      FilterMatches(names, input)[i] in names && Contains(ToLower(FilterMatches(names, input)[i]), input)
    ensures forall n :: n in names && Contains(ToLower(n), input) ==> n in FilterMatches(names, input)
  {
    FilterExactly(names, MatchesInput(input));
    forall n ensures Matches(n, input) <==> Contains(ToLower(n), input) {
      WordPrefixImpliesContains(n, input);
    }
  }

  /** The filter keeps pool order: the matches of an earlier part of the pool come first. */
  lemma {:induction false} FilterAppend(a: seq<string>, b: seq<string>, keep: string -> bool)
    ensures Filter(a + b, keep) == Filter(a, keep) + Filter(b, keep)
  {
    if a == [] {
      assert a + b == b;
    } else {
      assert (a + b)[0] == a[0] && (a + b)[1..] == a[1..] + b;
      FilterAppend(a[1..], b, keep);
    }
  }

  function Min(a: int, b: int): int { if a <= b then a else b }

  /**
   * The first five pool names that contain `input` (the trimmed,
   * lower-cased guess), in pool order.
   */
  function SuggestFor(input: string, names: seq<string>): (r: seq<string>)
    ensures |r| == Min(MaxSuggestions, |FilterMatches(names, input)|)
    ensures forall i :: 0 <= i < |r| ==> r[i] == FilterMatches(names, input)[i]
  {
    var matched := FilterMatches(names, input);
    matched[..Min(MaxSuggestions, |matched|)]
  }

  /** The suggestion effect's result: nothing for a blank guess, otherwise the suggestions for the trimmed, lower-cased guess. */
  function Suggestions(guess: string, names: seq<string>): (r: seq<string>)
    ensures Trim(guess) == "" ==> r == []
    ensures Trim(guess) != "" ==> r == SuggestFor(Trim(ToLower(guess)), names)
    ensures |r| <= MaxSuggestions
  {
    if Trim(guess) == "" then [] else SuggestFor(Trim(ToLower(guess)), names)
  }

  /** Every suggestion is a pool name whose lower-cased form contains the input. */
  lemma SuggestionsContainInput(input: string, names: seq<string>)
    ensures var r := SuggestFor(input, names);
      forall i :: 0 <= i < |r| ==> r[i] in names && Contains(ToLower(r[i]), input)
  {
    FilterMatchesExactly(names, input);
  }

  /** With five matches or fewer, every matching pool name is suggested. */
  lemma FewMatchesAllSuggested(input: string, names: seq<string>, n: string)
    requires |FilterMatches(names, input)| <= MaxSuggestions
    requires n in names && Contains(ToLower(n), input)
    ensures n in SuggestFor(input, names)
  {
    var matched := FilterMatches(names, input);
    FilterMatchesExactly(names, input);
    assert matched[..|matched|] == matched;
  }

  datatype Key = ArrowDown | ArrowUp | Enter | Escape | OtherKey

  /**
   * The input box's state. `guess` is None once it holds `undefined`,
   * which is what Enter copies when the selection points past the list.
   */
  class SuggestionBox {
    var guess: Option<string>
    var suggestions: seq<string>
    var showSuggestions: bool
    var selectedIndex: int

    /** The selection is -1 (none) or a position of the list. */
    predicate InRange()
      reads this
    {
      -1 <= selectedIndex < |suggestions|
    }

    constructor ()
      ensures guess == Some("") && suggestions == [] && !showSuggestions && selectedIndex == -1
      ensures InRange()
    {
      guess := Some("");
      suggestions := [];
      showSuggestions := false;
      selectedIndex := -1;
    }

    /** The input's `onChange`: the new text, and the list is to be shown. */
    method Change(value: string)
      modifies this
      ensures guess == Some(value) && showSuggestions
      ensures suggestions == old(suggestions) && selectedIndex == old(selectedIndex)
    {
      guess := Some(value);
      showSuggestions := true;
    }

    /**
     * The suggestion effect as written. A blank guess empties the list and
     * leaves the selection and the visibility as they were; any other guess
     * recomputes the list, shows it when it is not empty and clears the
     * selection. An `undefined` guess throws.
     */
    method Refresh(names: seq<string>) returns (threw: bool)
      modifies this
      ensures threw <==> old(guess).None?
      ensures threw ==> suggestions == old(suggestions) && showSuggestions == old(showSuggestions)
                        && selectedIndex == old(selectedIndex)
      ensures guess == old(guess)
      ensures !threw && Trim(guess.value) == "" ==>
        suggestions == [] && showSuggestions == old(showSuggestions) && selectedIndex == old(selectedIndex)
      ensures !threw && Trim(guess.value) != "" ==>
        suggestions == Suggestions(guess.value, names) && showSuggestions == (|suggestions| > 0)
        && selectedIndex == -1
    {
      if guess.None? {
        return true;
      }
      threw := false;
      if Trim(guess.value) == "" {
        suggestions := [];
        return;
      }
      var filtered := Suggestions(guess.value, names);
      suggestions := filtered;
      showSuggestions := |filtered| > 0;
      selectedIndex := -1;
    }

    /**
     * The suggestion effect with the blank branch also clearing the
     * selection: afterwards the selection is always in range.
     */
    method RefreshCorrected(names: seq<string>) returns (threw: bool)
      modifies this
      ensures threw <==> old(guess).None?
      ensures guess == old(guess)
      ensures !threw ==> InRange() && selectedIndex == -1
      ensures !threw ==> suggestions == Suggestions(guess.value, names)
      ensures !threw && Trim(guess.value) == "" ==> showSuggestions == old(showSuggestions)
      ensures !threw && Trim(guess.value) != "" ==> showSuggestions == (|suggestions| > 0)
    {
      if guess.None? {
        return true;
      }
      threw := false;
      if Trim(guess.value) == "" {
        suggestions := [];
        selectedIndex := -1;
        return;
      }
      var filtered := Suggestions(guess.value, names);
      suggestions := filtered;
      showSuggestions := |filtered| > 0;
      selectedIndex := -1;
    }

    /**
     * `handleSubmit`: nothing happens for a missing or blank guess or while
     * a submission is in flight; otherwise the guess is submitted, the box
     * cleared and the list hidden.
     */
    method HandleSubmit(isSubmitting: bool) returns (submitted: Option<string>)
      modifies this
      ensures old(guess).None? || Trim(old(guess).value) == "" || isSubmitting ==>
        submitted.None? && guess == old(guess) && showSuggestions == old(showSuggestions)
      ensures !(old(guess).None? || Trim(old(guess).value) == "" || isSubmitting) ==>
        submitted == old(guess) && guess == Some("") && !showSuggestions
      ensures suggestions == old(suggestions) && selectedIndex == old(selectedIndex)
    {
      if guess.None? || Trim(guess.value) == "" || isSubmitting {
        return None;
      }
      submitted := guess;
      guess := Some("");
      showSuggestions := false;
    }

    /**
     * `handleKeyDown`: ignored while the list is hidden. The arrows move the
     * selection within -1 .. length - 1; Enter copies the selected
     * suggestion (or submits when nothing is selected); Escape hides the
     * list and clears the selection.
     */
    method KeyDown(key: Key, isSubmitting: bool) returns (submitted: Option<string>)
      modifies this
      ensures old(InRange()) ==> InRange()
      ensures suggestions == old(suggestions)
      ensures !old(showSuggestions) || key == OtherKey ==>
        submitted.None? && guess == old(guess) && showSuggestions == old(showSuggestions)
        && selectedIndex == old(selectedIndex)
      ensures old(showSuggestions) && key == ArrowDown ==>
        submitted.None? && guess == old(guess) && showSuggestions
        && selectedIndex == (if old(selectedIndex) < |suggestions| - 1 then old(selectedIndex) + 1 else old(selectedIndex))
      ensures old(showSuggestions) && key == ArrowUp ==>
        submitted.None? && guess == old(guess) && showSuggestions
        && selectedIndex == (if old(selectedIndex) > -1 then old(selectedIndex) - 1 else old(selectedIndex))
      ensures old(showSuggestions) && key == Enter && old(selectedIndex) > -1 ==>
        submitted.None? && !showSuggestions && selectedIndex == -1
        && guess == (if old(selectedIndex) < |suggestions| then Some(suggestions[old(selectedIndex)]) else None)
      ensures old(showSuggestions) && key == Enter && old(selectedIndex) <= -1 ==>
        selectedIndex == old(selectedIndex)
        && (old(guess).None? || Trim(old(guess).value) == "" || isSubmitting ==>
              submitted.None? && guess == old(guess) && showSuggestions)
        && (!(old(guess).None? || Trim(old(guess).value) == "" || isSubmitting) ==>
              submitted == old(guess) && guess == Some("") && !showSuggestions)
      ensures old(showSuggestions) && key == Escape ==>
        submitted.None? && guess == old(guess) && !showSuggestions && selectedIndex == -1
    {
      submitted := None;
      if !showSuggestions {
        return;
      }
      match key {
        case ArrowDown =>
          selectedIndex := if selectedIndex < |suggestions| - 1 then selectedIndex + 1 else selectedIndex;
        case ArrowUp =>
          selectedIndex := if selectedIndex > -1 then selectedIndex - 1 else selectedIndex;
        case Enter =>
          if selectedIndex > -1 {
            guess := if selectedIndex < |suggestions| then Some(suggestions[selectedIndex]) else None;
            showSuggestions := false;
            selectedIndex := -1;
          } else {
            submitted := HandleSubmit(isSubmitting);
          }
        case Escape =>
          showSuggestions := false;
          selectedIndex := -1;
        case OtherKey =>
      }
    }
  }

  /** "Apex" matches the input "a". */
  lemma ApexMatchesA()
    ensures Matches("Apex", "a")
  {
    assert ToLower("Apex") == "apex";
    assert OccursAt("apex", "a", 0);
  }

  /** The filter for "a" over the pool ["Apex"] keeps "Apex". */
  lemma FilterApexForA()
    ensures FilterMatches(["Apex"], "a") == ["Apex"]
  {
    ApexMatchesA();
    var names := ["Apex"];
    assert names[1..] == [];
  }

  /** "a" is already trimmed and lower-case. */
  lemma NormalisedA()
    ensures Trim("a") == "a" && ToLower("a") == "a"
  {
    TrimNoEdgeSpace("a");
  }

  /** A guess that is already trimmed, lower-case and not blank is matched as it stands. */
  lemma SuggestionsOfNormalised(guess: string, names: seq<string>)
    requires Trim(guess) == guess && ToLower(guess) == guess && guess != ""
    ensures Suggestions(guess, names) == SuggestFor(guess, names)
  {
  }

  /** Typing "a" with a pool holding "Apex" suggests "Apex". */
  lemma ApexSuggestedForA()
    ensures Trim("a") == "a" && Suggestions("a", ["Apex"]) == ["Apex"]
  {
    NormalisedA();
    SuggestionsOfNormalised("a", ["Apex"]);
    FilterApexForA();
  }

  /** An empty box suggests nothing. */
  lemma NothingSuggestedForEmpty(names: seq<string>)
    ensures Trim("") == "" && Suggestions("", names) == []
  {
    TrimNoEdgeSpace("");
  }

  /**
   * As written, a selection survives clearing the box: type "a" with a
   * pool holding "Apex", press ArrowDown, clear the box, press Enter, and
   * the guess becomes `undefined`.
   */
  method StaleSelectionAfterClearing() returns (picked: Option<string>, selected: int, shown: seq<string>)
    ensures picked.None? && selected == -1 && shown == []
  {
    var names := ["Apex"];
    ApexSuggestedForA();
    NothingSuggestedForEmpty(names);
    var box := new SuggestionBox();
    box.Change("a");
    var _ := box.Refresh(names);
    assert box.suggestions == ["Apex"];
    var _ := box.KeyDown(ArrowDown, false);
    assert box.selectedIndex == 0;
    box.Change("");
    var _ := box.Refresh(names);
    assert box.selectedIndex == 0 && box.suggestions == [] && box.showSuggestions;
    var _ := box.KeyDown(Enter, false);
    picked, selected, shown := box.guess, box.selectedIndex, box.suggestions;
  }

  /**
   * With the corrected effect, the same keys leave the empty guess in
   * place: Enter finds no selection and the blank guess is not submitted.
   */
  method ClearingResetsSelection() returns (picked: Option<string>, submitted: Option<string>)
    ensures picked == Some("") && submitted.None?
  {
    var names := ["Apex"];
    ApexSuggestedForA();
    NothingSuggestedForEmpty(names);
    var box := new SuggestionBox();
    box.Change("a");
    var _ := box.RefreshCorrected(names);
    var _ := box.KeyDown(ArrowDown, false);
    box.Change("");
    var _ := box.RefreshCorrected(names);
    assert box.selectedIndex == -1;
    submitted := box.KeyDown(Enter, false);
    picked := box.guess;
  }
}
