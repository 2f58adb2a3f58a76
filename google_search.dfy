/**
 * The Google search opened for a city, a state and a query: the non-empty
 * inputs joined by single spaces, percent-encoded into the `q` parameter.
 */
module GoogleSearch {
  import opened Wrappers
  import opened Text
  import opened Sequences
  import opened UriEncoding

  const SearchPrefix := "https://www.google.com/search?q="

  /** `filter(Boolean)` on strings: the empty string is the only falsy one. */
  predicate Truthy(s: string) {
    s != ""
  }

  /** `[city, state, query].filter(Boolean).join(' ')`. */
  function SearchTerms(city: string, state: string, query: string): (r: string)
    ensures r == "" <==> city == "" && state == "" && query == ""
  {
    KeptInputs(city, state, query);
    var kept := Filter([city, state, query], Truthy);
    assert kept != [] ==> Join(kept, " ") != [] by {
      if kept != [] { JoinStarts(kept, " "); }
    }
    Join(kept, " ")
  }

  /** The URL `window.open` is given. */
  function SearchUrl(city: string, state: string, query: string): (r: string)
    ensures StartsWith(r, SearchPrefix)
  {
    var url := SearchPrefix + EncodeUriComponent(SearchTerms(city, state, query));
    assert url[..|SearchPrefix|] == SearchPrefix;
    url
  }

  /** The URL is the search prefix and the encoded terms, which decode back. */
  lemma UrlCarriesTerms(city: string, state: string, query: string)
    ensures var url := SearchUrl(city, state, query);
            && StartsWith(url, SearchPrefix)
            && DecodeUriComponent(url[|SearchPrefix|..]) == Some(SearchTerms(city, state, query))
  {
    var terms := SearchTerms(city, state, query);
    var url := SearchUrl(city, state, query);
    assert url[..|SearchPrefix|] == SearchPrefix;
    assert url[|SearchPrefix|..] == EncodeUriComponent(terms);
    DecodeOfEncode(terms);
  }

  /** The inputs that are kept, in their order. */
  lemma KeptInputs(city: string, state: string, query: string)
    ensures Filter([city, state, query], Truthy)
         == (if city != "" then [city] else [])
          + (if state != "" then [state] else [])
          + (if query != "" then [query] else [])
  {
    var s := [city, state, query];
    assert s[1..] == [state, query];
    assert [state, query][1..] == [query];
    assert [query][1..] == [];
    assert Filter([query], Truthy) == (if query != "" then [query] else []) + Filter([], Truthy);
    assert Filter([state, query], Truthy)
        == (if state != "" then [state] else []) + Filter([query], Truthy);
  }

  /**
   * When no input holds whitespace, splitting the terms on whitespace gives
   * exactly the non-empty inputs in order: nothing is merged, dropped or
   * reordered.
   */
  lemma TermsSplitIntoInputs(city: string, state: string, query: string)
    requires NoWhitespace(city) && NoWhitespace(state) && NoWhitespace(query)
    requires city != "" || state != "" || query != ""
    ensures SplitWhitespace(SearchTerms(city, state, query)) == Filter([city, state, query], Truthy)
  {
    var kept := Filter([city, state, query], Truthy);
    KeptInputs(city, state, query);
    assert kept != [];
    forall k | 0 <= k < |kept| ensures kept[k] != [] && NoWhitespace(kept[k]) {
      assert kept[k] == city || kept[k] == state || kept[k] == query;
    }
    SplitJoined(kept);
  }

  /** Empty inputs are skipped, so they add no extra spaces. */
  lemma EmptyInputsSkipped(city: string, state: string, query: string)
    ensures SearchTerms("", state, query) == SearchTerms(state, "", query)
                                          == SearchTerms(state, query, "")
    ensures SearchTerms("", "", "") == ""
    ensures SearchUrl("", "", "") == SearchPrefix
  {
    KeptInputs("", state, query);
    KeptInputs(state, "", query);
    KeptInputs(state, query, "");
    KeptInputs("", "", "");
    var kept := Filter(["", state, query], Truthy);
    assert Filter([state, "", query], Truthy) == kept;
    assert Filter([state, query, ""], Truthy) == kept;
    assert EncodeUriComponent("") == "";
  }

  /** All three inputs present: joined with one space between each two. */
  lemma AllInputs(city: string, state: string, query: string)
    requires city != "" && state != "" && query != ""
    ensures SearchTerms(city, state, query) == city + " " + state + " " + query
  {
    KeptInputs(city, state, query);
    var kept := [city, state, query];
    assert Filter(kept, Truthy) == [city] + [state] + [query] == kept;
    assert kept[1..] == [state, query];
    assert [state, query][1..] == [query];
    assert Join([state, query], " ") == state + " " + query;
    assert Join(kept, " ") == city + " " + (state + " " + query);
    AppendAssoc(city + " ", state + " ", query);
    AppendAssoc(city, " ", state + " ");
    AppendAssoc(city + " " + state, " ", query);
  }

  /** A whitespace-only input is truthy, so its text is kept. */
  lemma BlankInputKept(city: string, query: string)
    requires city != "" && query != ""
    ensures SearchTerms(city, " ", query) == city + "   " + query
  {
    AllInputs(city, " ", query);
  }
}
