/**
 * `FSuggestions`: the completion list the panel shows, the index of the
 * selected entry (`INDEX_NONE` when there is none) and the text to
 * highlight in each row.
 */
module SuggestionList {
  import opened Wrappers

  /** `INDEX_NONE`. */
  const IndexNone: int := -1

  /** Where `StepSelectedSuggestion` moves an index: by `step`, wrapping to the last entry below 0 and to the first at or past the end. */
  function StepIndex(index: int, step: int, count: nat): (r: int)
    ensures count > 0 ==> 0 <= r < count
    ensures 0 <= index + step < count ==> r == index + step
    ensures index + step < 0 ==> r == count - 1
    ensures index + step >= count ==> r == 0
  {
    var moved := index + step;
    if moved < 0 then count - 1
    else if moved >= count then 0
    else moved
  }

  /** On an empty list no step selects anything. */
  lemma StepOnEmpty(index: int, step: int)
    ensures var r := StepIndex(index, step, 0); r == IndexNone || r == 0
  {
  }

  /** One step down and one step up come back to the same entry, across the wrap too. */
  lemma StepDownThenUp(index: int, count: nat)
    requires 0 <= index < count
    ensures StepIndex(StepIndex(index, 1, count), -1, count) == index
  {
  }

  /** With nothing selected, a step down selects the first entry and a step up the last. */
  lemma StepFromNone(count: nat)
    requires count > 0
    ensures StepIndex(IndexNone, 1, count) == 0 && StepIndex(IndexNone, -1, count) == count - 1
  {
  }

  class Suggestions {
    /** `SelectedSuggestion`: `IndexNone`, or an index into the list. */
    var selectedSuggestion: int
    /** `SuggestionsList`. */
    var suggestionsList: seq<string>
    /** `SuggestionsHighlight`. */
    var suggestionsHighlight: string

    /** A new `FSuggestions`: nothing selected, no entries, no highlight. */
    constructor ()
      ensures selectedSuggestion == IndexNone && suggestionsList == [] && suggestionsHighlight == ""
    {
      selectedSuggestion := IndexNone;
      suggestionsList := [];
      suggestionsHighlight := "";
    }

    /** `Reset`: back to the state of a new `FSuggestions`. */
    method Reset()
      modifies this
      ensures selectedSuggestion == IndexNone && suggestionsList == [] && suggestionsHighlight == ""
    {
      selectedSuggestion := IndexNone;
      suggestionsList := [];
      suggestionsHighlight := "";
    }

    /** `HasSuggestions`: the list is not empty. */
    predicate HasSuggestions()
      reads this
    {
      |suggestionsList| > 0
    }

    /** `HasSelectedSuggestion`: the index is a valid index of the list. */
    predicate HasSelectedSuggestion()
      reads this
    {
      0 <= selectedSuggestion < |suggestionsList|
    }

    /** `StepSelectedSuggestion`: only the index moves. */
    method StepSelectedSuggestion(step: int)
      modifies this
      ensures selectedSuggestion == StepIndex(old(selectedSuggestion), step, |suggestionsList|)
      ensures suggestionsList == old(suggestionsList) && suggestionsHighlight == old(suggestionsHighlight)
      ensures HasSuggestions() ==> HasSelectedSuggestion()
    {
      selectedSuggestion := selectedSuggestion + step;
      if selectedSuggestion < 0 {
        selectedSuggestion := |suggestionsList| - 1;
      } else if selectedSuggestion >= |suggestionsList| {
        selectedSuggestion := 0;
      }
    }

    /** `GetSelectedSuggestion`: the selected entry, or nothing (a null pointer) when the index is not valid. */
    function GetSelectedSuggestion(): (r: Option<string>)
      reads this
      ensures r.Some? <==> HasSelectedSuggestion()
      ensures r.Some? ==> r.value == suggestionsList[selectedSuggestion]
    {
      if HasSelectedSuggestion() then Some(suggestionsList[selectedSuggestion]) else None
    }
  }
}
