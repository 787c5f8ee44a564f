/** The first autocomplete input (app/components/AutocompleteInput.tsx) as a
    state machine. The debounced text reaching the search effect is an
    event (`Settle`) carrying that text, as the debounce hook delivers it;
    an awaited `onSearch` is split into the search start and its outcome
    (`SearchOk` or `SearchFail`). The calls made to `onChange` and
    `onSearch` are logged. */
module LegacyAutocomplete {
  import opened Text

  class Autocomplete {
    var suggestions: seq<string>
    var showSuggestions: bool
    var loading: bool
    var inputValue: string
    /** The arguments of every `onChange` call, in order. */
    var changes: seq<string>
    /** The arguments of every `onSearch` call, in order. */
    var searches: seq<string>

    /** The dropdown is only ever shown with something in it. */
    predicate Valid()
      reads this
    {
      showSuggestions ==> suggestions != []
    }

    /** Whether the suggestion list is rendered. */
    function DropdownVisible(): bool
      reads this
    {
      showSuggestions && |suggestions| > 0
    }

    constructor(value: string)
      ensures Valid()
      ensures suggestions == [] && !showSuggestions && !loading && inputValue == value
      ensures changes == [] && searches == []
    {
      suggestions := [];
      showSuggestions := false;
      loading := false;
      inputValue := value;
      changes := [];
      searches := [];
    }

    /** The search effect for the debounced text `query`: a blank query
        clears and hides the list without searching; any other starts a
        search. */
    method Settle(query: string) returns (searched: bool)
      requires Valid()
      modifies this
      ensures Valid()
      ensures searched <==> !IsBlank(query)
      ensures !searched ==> suggestions == [] && !showSuggestions && loading == old(loading)
      ensures !searched ==> searches == old(searches)
      ensures searched ==> loading && searches == old(searches) + [query]
      ensures searched ==> suggestions == old(suggestions) && showSuggestions == old(showSuggestions)
      ensures inputValue == old(inputValue) && changes == old(changes)
    {
      if IsBlank(query) {
        suggestions := [];
        showSuggestions := false;
        return false;
      }
      loading := true;
      searches := searches + [query];
      return true;
    }

    /** `onSearch` resolved with `results`: they become the suggestions, the
        list opens exactly when there are any, and loading ends. */
    method SearchOk(results: seq<string>)
      requires Valid()
      modifies this
      ensures Valid()
      ensures suggestions == results && (showSuggestions <==> results != []) && !loading
      ensures inputValue == old(inputValue) && changes == old(changes) && searches == old(searches)
    {
      suggestions := results;
      showSuggestions := |results| > 0;
      loading := false;
    }

    /** `onSearch` rejected: the list is emptied and hidden, loading ends. */
    method SearchFail()
      requires Valid()
      modifies this
      ensures Valid()
      ensures suggestions == [] && !showSuggestions && !loading
      ensures inputValue == old(inputValue) && changes == old(changes) && searches == old(searches)
    {
      suggestions := [];
      showSuggestions := false;
      loading := false;
    }

    /** `handleInputChange`: the text is taken and reported at once; the
        dropdown is left as it was. */
    method TypeText(text: string)
      requires Valid()
      modifies this
      ensures Valid()
      ensures inputValue == text && changes == old(changes) + [text]
      ensures suggestions == old(suggestions) && showSuggestions == old(showSuggestions)
      ensures loading == old(loading) && searches == old(searches)
    {
      inputValue := text;
      changes := changes + [text];
    }

    /** `handleSuggestionClick`. */
    method ClickSuggestion(s: string)
      requires Valid()
      modifies this
      ensures Valid()
      ensures inputValue == s && changes == old(changes) + [s] && !showSuggestions
      ensures suggestions == old(suggestions) && loading == old(loading) && searches == old(searches)
    {
      inputValue := s;
      changes := changes + [s];
      showSuggestions := false;
    }

    /** `handleInputFocus`: reopens the list only when it has entries. */
    method Focus()
      requires Valid()
      modifies this
      ensures Valid()
      ensures showSuggestions == (old(showSuggestions) || old(suggestions) != [])
      ensures suggestions == old(suggestions) && inputValue == old(inputValue)
      ensures loading == old(loading) && changes == old(changes) && searches == old(searches)
    {
      if |suggestions| > 0 {
        showSuggestions := true;
      }
    }

    /** A mousedown outside the wrapper hides the list and touches nothing
        else. */
    method ClickOutside()
      requires Valid()
      modifies this
      ensures Valid()
      ensures !showSuggestions
      ensures suggestions == old(suggestions) && inputValue == old(inputValue)
      ensures loading == old(loading) && changes == old(changes) && searches == old(searches)
    {
      showSuggestions := false;
    }

    /** A new `value` prop overwrites the text, without an `onChange` call. */
    method PropChange(value: string)
      requires Valid()
      modifies this
      ensures Valid()
      ensures inputValue == value
      ensures suggestions == old(suggestions) && showSuggestions == old(showSuggestions)
      ensures loading == old(loading) && changes == old(changes) && searches == old(searches)
    {
      inputValue := value;
    }
  }

  /** In every reachable state the rendered dropdown is exactly the
      `showSuggestions` flag. */
  lemma VisibleIsShowFlag(a: Autocomplete)
    requires a.Valid()
    ensures a.DropdownVisible() <==> a.showSuggestions
  {
  }

  /** Typing, a successful search, a click, refocusing, clicking outside, and
      finally a blank query. */
  method SuggestionScenario()
    returns (whileTyping: bool, afterResults: bool, picked: string, reported: seq<string>,
             afterFocus: bool, afterOutside: bool, keptSuggestions: seq<string>,
             blankSearched: bool, afterBlank: bool)
    ensures !whileTyping && afterResults
    ensures picked == "Masculino" && reported == ["Mas", "Masculino"]
    ensures afterFocus && !afterOutside && keptSuggestions == ["Masculino"]
    ensures !blankSearched && !afterBlank
  {
    var a := new Autocomplete("");
    a.TypeText("Mas");
    whileTyping := a.DropdownVisible();
    var searched := a.Settle("Mas");
    a.SearchOk(["Masculino"]);
    afterResults := a.DropdownVisible();
    a.ClickSuggestion("Masculino");
    picked := a.inputValue;
    reported := a.changes;
    a.Focus();
    afterFocus := a.DropdownVisible();
    a.ClickOutside();
    afterOutside := a.DropdownVisible();
    keptSuggestions := a.suggestions;
    blankSearched := a.Settle(" ");
    afterBlank := a.DropdownVisible();
  }

  /** A failed search and an empty result both leave the list hidden and
      loading off. */
  method FailureScenario() returns (afterFail: bool, afterEmpty: bool, loading: bool)
    ensures !afterFail && !afterEmpty && !loading
  {
    var a := new Autocomplete("Fe");
    var searched := a.Settle("Fe");
    a.SearchFail();
    afterFail := a.DropdownVisible();
    searched := a.Settle("Fem");
    a.SearchOk([]);
    afterEmpty := a.DropdownVisible();
    loading := a.loading;
  }
}
