/** The search bar (src/components/ui/Search.tsx): the typed query, the focus
    flag and the suggestion dropdown, driven by the input, form, button and
    document events.  The optional `onSearch` callback is represented by
    whether it exists; a submit returns the query it would be called with. */
module SearchBar {
  import opened Wrappers
  import opened Text

  /** The recent searches offered in the dropdown. */
  const RecentSearches: seq<string> := ["prélèvement à la source", "garde alternée", "rupture conventionnelle"]

  /** What a submit passes to `onSearch`: the query as typed, only when a
      handler exists and the query holds a character other than white space. */
  function Submitted(query: string, hasHandler: bool): (r: Option<string>)
    ensures r.Some? <==> hasHandler && exists i :: 0 <= i < |query| && !IsSpace(query[i])
    ensures r.Some? ==> r.value == query
  {
    TrimEmptyIffBlank(query);
    if Trim(query) != "" && hasHandler then Some(query) else None
  }

  class SearchBar {
    const hasHandler: bool
    var query: string
    var isFocused: bool
    var showSuggestions: bool

    constructor (hasHandler: bool)
      ensures this.hasHandler == hasHandler
      ensures query == "" && !isFocused && !showSuggestions
    {
      this.hasHandler := hasHandler;
      query := "";
      isFocused := false;
      showSuggestions := false;
    }

    /** The suggestion dropdown is rendered. */
    predicate SuggestionsVisible()
      reads this
    {
      showSuggestions && query == ""
    }

    /** The clear button is rendered. */
    predicate ClearButtonShown()
      reads this
    {
      query != ""
    }

    /** The input's change event. */
    method Type(value: string)
      modifies this
      ensures query == value
      ensures isFocused == old(isFocused) && showSuggestions == old(showSuggestions)
    {
      query := value;
    }

    /** `handleSubmit`: hands the query to the handler under `Submitted`'s rule
        and always closes the dropdown. */
    method Submit() returns (searched: Option<string>)
      modifies this
      ensures searched == Submitted(old(query), hasHandler)
      ensures !showSuggestions && !SuggestionsVisible()
      ensures query == old(query) && isFocused == old(isFocused)
    {
      searched := None;
      if Trim(query) != "" && hasHandler {
        searched := Some(query);
      }
      showSuggestions := false;
    }

    /** `handleFocus` */
    method Focus()
      modifies this
      ensures isFocused && showSuggestions
      ensures query == old(query)
      ensures SuggestionsVisible() <==> query == ""
    {
      isFocused := true;
      showSuggestions := true;
    }

    /** `handleBlur`: the dropdown stays as it was. */
    method Blur()
      modifies this
      ensures !isFocused
      ensures query == old(query) && showSuggestions == old(showSuggestions)
    {
      isFocused := false;
    }

    /** The clear button: empties the query and focuses the input again, whose
        focus handler then runs (the click has moved focus to the button). */
    method Clear()
      requires ClearButtonShown()
      modifies this
      ensures query == "" && !ClearButtonShown()
      ensures isFocused && showSuggestions && SuggestionsVisible()
    {
      query := "";
      Focus();
    }

    /** A recent search picked from the dropdown. */
    method PickRecent(index: nat)
      requires index < |RecentSearches|
      modifies this
      ensures query == RecentSearches[index] && ClearButtonShown()
      ensures !showSuggestions && isFocused == old(isFocused)
    {
      query := RecentSearches[index];
      showSuggestions := false;
    }

    /** A trending link followed from the dropdown. */
    method PickPopular()
      modifies this
      ensures !showSuggestions
      ensures query == old(query) && isFocused == old(isFocused)
    {
      showSuggestions := false;
    }

    /** A document `mousedown`, inside the bar's container or not: only one
        outside hides the dropdown. */
    method MouseDown(inside: bool)
      modifies this
      ensures showSuggestions == (old(showSuggestions) && inside)
      ensures query == old(query) && isFocused == old(isFocused)
    {
      if !inside {
        showSuggestions := false;
      }
    }
  }

  /** A typed query hides the dropdown, which comes back once the query is
      cleared; submitting the empty query calls no handler and closes it. */
  method TypeThenClear(hasHandler: bool, text: string)
    returns (whileTyped: bool, afterClear: bool, searched: Option<string>, afterSubmit: bool)
    requires text != ""
    ensures !whileTyped && afterClear && searched.None? && !afterSubmit
  {
    var bar := new SearchBar(hasHandler);
    bar.Focus();
    bar.Type(text);
    whileTyped := bar.SuggestionsVisible();
    bar.Clear();
    afterClear := bar.SuggestionsVisible();
    searched := bar.Submit();
    afterSubmit := bar.SuggestionsVisible();
  }
}
