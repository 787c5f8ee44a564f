/** The current autocomplete input
    (app/presentation/components/AutocompleteInput.tsx) as a state machine,
    with the same events as the first one. It differs in three places:
    typing opens the dropdown, a blank query and a search outcome leave the
    open flag alone, and the dropdown also opens, with a loading row, while
    a search is in flight. */
module Autocomplete {
  import opened Optional
  import opened Text

  /** What the open dropdown shows. */
  datatype Dropdown = LoadingRow | Items(items: seq<string>)

  class Autocomplete {
    var suggestions: seq<string>
    var showSuggestions: bool
    var loading: bool
    var inputValue: string
    /** The arguments of every `onChange` call, in order. */
    var changes: seq<string>
    /** The arguments of every `onSearch` call, in order. */
    var searches: seq<string>

    constructor(value: string)
      ensures suggestions == [] && !showSuggestions && !loading && inputValue == value
      ensures changes == [] && searches == []
    {
      suggestions := [];
      showSuggestions := false;
      loading := false;
      inputValue := value;
      changes := [];
      searches := [];
    }

    /** The rendered dropdown, if any: the loading row while a search is in
        flight, the suggestions otherwise. */
    function Rendered(): (d: Option<Dropdown>)
      reads this
      ensures d.Some? <==> showSuggestions && (suggestions != [] || loading)
      ensures d.Some? ==> (d.value == LoadingRow <==> loading)
      ensures d.Some? && !loading ==> d.value == Items(suggestions) && suggestions != []
    {
      if showSuggestions && (|suggestions| > 0 || loading) then
        Some(if loading then LoadingRow else Items(suggestions))
      else None
    }

    /** The search effect for the debounced text `query`: a blank query
        empties the suggestions without searching and leaves the open flag
        alone; any other starts a search. */
    method Settle(query: string) returns (searched: bool)
      modifies this
      ensures searched <==> !IsBlank(query)
      ensures !searched ==> suggestions == [] && loading == old(loading) && searches == old(searches)
      ensures searched ==> loading && searches == old(searches) + [query]
      ensures searched ==> suggestions == old(suggestions)
      ensures showSuggestions == old(showSuggestions)
      ensures inputValue == old(inputValue) && changes == old(changes)
    {
      if IsBlank(query) {
        suggestions := [];
        return false;
      }
      loading := true;
      searches := searches + [query];
      return true;
    }

    /** `onSearch` resolved: the results become the suggestions and loading
        ends. */
    method SearchOk(results: seq<string>)
      modifies this
      ensures suggestions == results && !loading
      ensures showSuggestions == old(showSuggestions)
      ensures inputValue == old(inputValue) && changes == old(changes) && searches == old(searches)
    {
      suggestions := results;
      loading := false;
    }

    /** `onSearch` rejected: no suggestions, loading ends. */
    method SearchFail()
      modifies this
      ensures suggestions == [] && !loading
      ensures showSuggestions == old(showSuggestions)
      ensures inputValue == old(inputValue) && changes == old(changes) && searches == old(searches)
    {
      suggestions := [];
      loading := false;
    }

    /** `handleInputChange`: the text is taken and reported, and the
        dropdown is opened. */
    method TypeText(text: string)
      modifies this
      ensures inputValue == text && changes == old(changes) + [text] && showSuggestions
      ensures suggestions == old(suggestions) && loading == old(loading) && searches == old(searches)
    {
      inputValue := text;
      changes := changes + [text];
      showSuggestions := true;
    }

    /** `handleSuggestionClick`. */
    method ClickSuggestion(s: string)
      modifies this
      ensures inputValue == s && changes == old(changes) + [s] && !showSuggestions
      ensures suggestions == old(suggestions) && loading == old(loading) && searches == old(searches)
    {
      inputValue := s;
      changes := changes + [s];
      showSuggestions := false;
    }

    /** `handleInputFocus`: opens the dropdown only when there are
        suggestions. */
    method Focus()
      modifies this
      ensures showSuggestions == (old(showSuggestions) || old(suggestions) != [])
      ensures suggestions == old(suggestions) && inputValue == old(inputValue)
      ensures loading == old(loading) && changes == old(changes) && searches == old(searches)
    {
      if |suggestions| > 0 {
        showSuggestions := true;
      }
    }

    /** A mousedown outside the wrapper closes the dropdown. */
    method ClickOutside()
      modifies this
      ensures !showSuggestions
      ensures suggestions == old(suggestions) && inputValue == old(inputValue)
      ensures loading == old(loading) && changes == old(changes) && searches == old(searches)
    {
      showSuggestions := false;
    }

    /** A new `value` prop overwrites the text. */
    method PropChange(value: string)
      modifies this
      ensures inputValue == value
      ensures suggestions == old(suggestions) && showSuggestions == old(showSuggestions)
      ensures loading == old(loading) && changes == old(changes) && searches == old(searches)
    {
      inputValue := value;
    }
  }

  /** Typing opens the flag but nothing is drawn until there is something to
      show; the in-flight search draws the loading row, then the results;
      a blank query empties the list while the flag stays open. */
  method TypingScenario()
    returns (afterTyping: Option<Dropdown>, inFlight: Option<Dropdown>, afterResults: Option<Dropdown>,
             flagAfterBlank: bool, afterBlank: Option<Dropdown>)
    ensures afterTyping == None
    ensures inFlight == Some(LoadingRow)
    ensures afterResults == Some(Items(["Feminino"]))
    ensures flagAfterBlank && afterBlank == None
  {
    var a := new Autocomplete("");
    a.TypeText("Fe");
    afterTyping := a.Rendered();
    assert !IsBlank("Fe") by { assert !IsSpace("Fe"[0]); }
    var searched := a.Settle("Fe");
    inFlight := a.Rendered();
    a.SearchOk(["Feminino"]);
    afterResults := a.Rendered();
    a.TypeText("");
    searched := a.Settle("");
    flagAfterBlank := a.showSuggestions;
    afterBlank := a.Rendered();
  }

  /** A failed search leaves nothing to show; a click closes the dropdown,
      and focusing reopens it only if suggestions remain. */
  method ClickScenario()
    returns (afterFail: Option<Dropdown>, picked: string, afterClick: Option<Dropdown>,
             afterFocus: Option<Dropdown>, afterProp: string)
    ensures afterFail == None
    ensures picked == "Masculino" && afterClick == None
    ensures afterFocus == Some(Items(["Masculino", "Feminino"]))
    ensures afterProp == "Outro"
  {
    var a := new Autocomplete("");
    a.TypeText("x");
    var searched := a.Settle("x");
    a.SearchFail();
    afterFail := a.Rendered();
    a.TypeText("ino");
    assert !IsBlank("ino") by { assert !IsSpace("ino"[0]); }
    searched := a.Settle("ino");
    a.SearchOk(["Masculino", "Feminino"]);
    a.ClickSuggestion("Masculino");
    picked := a.inputValue;
    afterClick := a.Rendered();
    a.Focus();
    afterFocus := a.Rendered();
    a.PropChange("Outro");
    afterProp := a.inputValue;
  }
}
