/**
 * The search page's state: the query parameters it reads on mount, the search
 * mode threshold, the three effects that keep the address bar in step with the
 * state, the debounce slot shared by every instance of the page, and the fetch
 * that the slot's timer starts.
 */
module Search {
  import opened Wrappers
  import opened JsText
  import opened JsNumber

  /** Query-string parameters, name to value (decoded). */
  type Query = map<string, string>

  /** Search mode needs at least this many UTF-16 code units once the text is trimmed. */
  const MinSearchLength := 3
  const DefaultPage := 1
  const DefaultPerPage := "10"

  /** `searchInput.trim().length >= 3`, where `length` counts UTF-16 code units. */
  predicate SearchMode(text: string) {
    Utf16Length(Trim(text)) >= MinSearchLength
  }

  /**
   * Search mode holds iff some stretch of the text that starts and ends with a
   * non-white-space character is at least three code units long.
   */
  lemma SearchModeIff(text: string)
    ensures SearchMode(text) <==>
      exists i, j :: 0 <= i <= j < |text| && !IsWhiteSpace(text[i]) && !IsWhiteSpace(text[j])
                     && Utf16Length(text[i..j + 1]) >= MinSearchLength
  {
    if SearchMode(text) {
      TrimmedStretch(text);
    }
    if i, j :| 0 <= i <= j < |text| && !IsWhiteSpace(text[i]) && !IsWhiteSpace(text[j])
               && Utf16Length(text[i..j + 1]) >= MinSearchLength {
      StretchInTrimmed(text, i, j);
    }
  }

  /** A non-empty trimmed text is itself a stretch from a non-white-space character to another. */
  lemma TrimmedStretch(text: string)
    requires Trim(text) != []
    ensures var a := LeadingWhiteSpace(text);
      && a + |Trim(text)| - 1 < |text|
      && !IsWhiteSpace(text[a]) && !IsWhiteSpace(text[a + |Trim(text)| - 1])
      && text[a..a + |Trim(text)|] == Trim(text)
  {
    var r, a := Trim(text), LeadingWhiteSpace(text);
    assert text[a] == r[0] && text[a + |r| - 1] == r[|r| - 1];
  }

  /** A stretch from a non-white-space character to another is no longer than the trimmed text. */
  lemma StretchInTrimmed(text: string, i: nat, j: nat)
    requires i <= j < |text| && !IsWhiteSpace(text[i]) && !IsWhiteSpace(text[j])
    ensures Utf16Length(text[i..j + 1]) <= Utf16Length(Trim(text))
  {
    var r, a := Trim(text), LeadingWhiteSpace(text);
    assert a <= i && j < a + |r|;
    Utf16LengthSlice(text, a, i, j + 1, a + |r|);
  }

  /** One letter and one emoji (two code units) already make three: the text enters search mode. */
  lemma EmojiSearchMode()
    ensures SearchMode("a\U{1F600}")
  {
    TrimKeepsTrimmed("a\U{1F600}");
  }

  /** A text of fewer than three code units is never in search mode. */
  lemma ShortTextIsNotSearch(text: string)
    requires Utf16Length(text) < MinSearchLength
    ensures !SearchMode(text)
  {
    var a := LeadingWhiteSpace(text);
    Utf16LengthSlice(text, 0, a, a + |Trim(text)|, |text|);
  }

  /** `Number(params.get("page")) || 1`: a missing, zero or non-numeric parameter gives page 1. */
  function InitialPage(query: Query): (page: int)
    ensures page != 0
    ensures "page" !in query || NumberOf(query["page"]) in {None, Some(0)} ==> page == DefaultPage
    ensures "page" in query && NumberOf(query["page"]).Some? && NumberOf(query["page"]).value != 0 ==>
      page == NumberOf(query["page"]).value
  {
    // Number(null) is 0, so a missing parameter falls back like "0" does.
    var n := if "page" in query then NumberOf(query["page"]) else Some(0);
    if n.Some? && n.value != 0 then n.value else DefaultPage
  }

  /** `params.get("per_page") || 10`: a missing or empty parameter gives the default page size. */
  function InitialPerPage(query: Query): (perPage: string)
    ensures perPage != ""
    ensures "per_page" !in query || query["per_page"] == "" ==> perPage == DefaultPerPage
    ensures "per_page" in query && query["per_page"] != "" ==> perPage == query["per_page"]
  {
    if "per_page" in query && query["per_page"] != "" then query["per_page"] else DefaultPerPage
  }

  /** `params.get("q") || ""`: a missing `q` gives the empty text. */
  function InitialText(query: Query): (text: string)
    ensures "q" !in query ==> text == ""
    ensures "q" in query ==> text == query["q"]
  {
    if "q" in query then query["q"] else ""
  }

  /** Writing a page into the `page` parameter and reading the parameters again gives that page back (0 reads as 1). */
  lemma PageParamRoundTrip(query: Query, page: int)
    ensures InitialPage(query["page" := IntToString(page)]) == if page == 0 then DefaultPage else page
  {
    NumberOfIntToString(page);
  }

  /** Writing a page size into `per_page` and reading it again gives it back (empty reads as the default). */
  lemma PerPageParamRoundTrip(query: Query, perPage: string)
    ensures InitialPerPage(query["per_page" := perPage]) == if perPage == "" then DefaultPerPage else perPage
  {
  }

  /** A product as the search endpoint lists it; the page passes it on without looking inside. */
  datatype Product = Product(id: int, title: string)

  /** What the search endpoint answers: a failure (network, non-ok status) or a page of results. */
  datatype SearchResponse = Failed | Loaded(data: seq<Product>, lastPage: int)

  /**
   * A URLSearchParams object. Every render builds a new one from the address
   * bar; the effects of that render change it in place and write it back.
   */
  class Params {
    var entries: Query

    constructor (entries: Query)
      ensures this.entries == entries
    {
      this.entries := entries;
    }
  }

  /**
   * A search the debounce timer will start: the text, page and page size of
   * the render that scheduled it, and that render's params object, which the
   * callback keeps a reference to.
   */
  datatype Request = Request(text: string, page: int, perPage: string, params: Params)

  /** One mounted search page. */
  class SearchPage {
    /** The address bar's query string, as written by `history.replaceState`. */
    var url: Query
    /** The params object of the latest render that ran effects. */
    var params: Params
    /** The module-global `timeout`: the one search waiting for its timer, if any. */
    var pending: Option<Request>
    /** Searches whose timer has fired and whose response has not yet settled, in firing order. */
    var inFlight: seq<Request>
    var isLoading: bool
    var post: seq<Product>
    var page: int
    var perPage: string
    var totalPages: int
    var searchInput: string

    /**
     * Mounting: the state is seeded from the address bar's parameters and all
     * three effects run, in the order they are declared.
     */
    constructor (location: Query)
      ensures searchInput == InitialText(location)
      ensures page == InitialPage(location) && perPage == InitialPerPage(location)
      ensures totalPages == 1 && post == [] && !isLoading && inFlight == []
      ensures fresh(params)
      ensures url == params.entries
      ensures url == (if SearchMode(searchInput) then location else location - {"q"})
                       ["page" := IntToString(page)]["per_page" := perPage]
      ensures pending == if SearchMode(searchInput) then Some(Request(searchInput, page, perPage, params)) else None
    {
      url := location;
      params := new Params(location);
      pending := None;
      inFlight := [];
      isLoading := false;
      post := [];
      page := InitialPage(location);
      perPage := InitialPerPage(location);
      totalPages := 1;
      searchInput := InitialText(location);
      new;
      SearchEffect();
      PageEffect();
      PerPageEffect();
    }

    /** A re-render: a fresh params object is read from the address bar. */
    method Render()
      modifies this
      ensures fresh(params) && params.entries == url
      ensures url == old(url) && pending == old(pending) && inFlight == old(inFlight)
      ensures isLoading == old(isLoading) && post == old(post) && page == old(page)
      ensures perPage == old(perPage) && totalPages == old(totalPages) && searchInput == old(searchInput)
    {
      params := new Params(url);
    }

    /**
     * The effect on `[searchInput, searchMode, page, perPage]`. In search mode it
     * replaces whatever search was waiting by a new one; below the threshold it
     * empties the results and drops `q` from the address bar, and leaves any
     * waiting search in place.
     */
    method SearchEffect()
      modifies this, params
      ensures params == old(params)
      ensures SearchMode(searchInput) ==>
        && pending == Some(Request(searchInput, page, perPage, params))
        && params.entries == old(params.entries) && url == old(url) && post == old(post)
      ensures !SearchMode(searchInput) ==>
        && pending == old(pending)
        && params.entries == old(params.entries) - {"q"} && url == params.entries && post == []
      ensures inFlight == old(inFlight) && isLoading == old(isLoading) && page == old(page)
      ensures perPage == old(perPage) && totalPages == old(totalPages) && searchInput == old(searchInput)
    {
      var searchMode := SearchMode(searchInput);
      if searchMode {
        // clearTimeout(timeout); timeout = setTimeout(...): the slot holds only the new search.
        pending := Some(Request(searchInput, page, perPage, params));
      } else {
        post := [];
        params.entries := params.entries - {"q"};
        url := params.entries;
      }
    }

    /** The effect on `[page]`: only the `page` parameter is set. */
    method PageEffect()
      modifies this, params
      ensures params == old(params)
      ensures params.entries == old(params.entries)["page" := IntToString(page)] && url == params.entries
      ensures pending == old(pending) && inFlight == old(inFlight) && isLoading == old(isLoading)
      ensures post == old(post) && page == old(page) && perPage == old(perPage)
      ensures totalPages == old(totalPages) && searchInput == old(searchInput)
    {
      params.entries := params.entries["page" := IntToString(page)];
      url := params.entries;
    }

    /** The effect on `[perPage]`: only the `per_page` parameter is set. */
    method PerPageEffect()
      modifies this, params
      ensures params == old(params)
      ensures params.entries == old(params.entries)["per_page" := perPage] && url == params.entries
      ensures pending == old(pending) && inFlight == old(inFlight) && isLoading == old(isLoading)
      ensures post == old(post) && page == old(page) && perPage == old(perPage)
      ensures totalPages == old(totalPages) && searchInput == old(searchInput)
    {
      params.entries := params.entries["per_page" := perPage];
      url := params.entries;
    }

    /** Typing in the search box (`setSearchInput`); an unchanged value does not re-render. */
    method ChangeSearchInput(text: string)
      modifies this
      ensures searchInput == text
      ensures page == old(page) && perPage == old(perPage) && totalPages == old(totalPages)
      ensures inFlight == old(inFlight) && isLoading == old(isLoading)
      ensures text == old(searchInput) ==>
        url == old(url) && params == old(params) && pending == old(pending) && post == old(post)
      ensures text != old(searchInput) ==> fresh(params)
      ensures text != old(searchInput) && SearchMode(text) ==>
        && pending == Some(Request(text, page, perPage, params))
        && params.entries == old(url) && url == old(url) && post == old(post)
      ensures text != old(searchInput) && !SearchMode(text) ==>
        && pending == old(pending)
        && url == old(url) - {"q"} && params.entries == url && post == []
    {
      if text != searchInput {
        searchInput := text;
        Render();
        SearchEffect();
      }
    }

    /** Choosing a page (`setPage`); an unchanged value does not re-render. */
    method ChangePage(p: int)
      modifies this
      ensures page == p
      ensures searchInput == old(searchInput) && perPage == old(perPage) && totalPages == old(totalPages)
      ensures inFlight == old(inFlight) && isLoading == old(isLoading)
      ensures p == old(page) ==>
        url == old(url) && params == old(params) && pending == old(pending) && post == old(post)
      ensures p != old(page) ==>
        && fresh(params) && params.entries == url
        && url == (if SearchMode(searchInput) then old(url) else old(url) - {"q"})["page" := IntToString(p)]
        && pending == (if SearchMode(searchInput) then Some(Request(searchInput, p, perPage, params)) else old(pending))
        && post == (if SearchMode(searchInput) then old(post) else [])
      ensures p != old(page) ==> InitialPage(url) == if p == 0 then DefaultPage else p
    {
      if p != page {
        page := p;
        Render();
        SearchEffect();
        PageEffect();
        PageParamRoundTrip(if SearchMode(searchInput) then old(url) else old(url) - {"q"}, p);
      }
    }

    /** Choosing a page size (`setPerPage`); an unchanged value does not re-render. */
    method ChangePerPage(pp: string)
      modifies this
      ensures perPage == pp
      ensures searchInput == old(searchInput) && page == old(page) && totalPages == old(totalPages)
      ensures inFlight == old(inFlight) && isLoading == old(isLoading)
      ensures pp == old(perPage) ==>
        url == old(url) && params == old(params) && pending == old(pending) && post == old(post)
      ensures pp != old(perPage) ==>
        && fresh(params) && params.entries == url
        && url == (if SearchMode(searchInput) then old(url) else old(url) - {"q"})["per_page" := pp]
        && pending == (if SearchMode(searchInput) then Some(Request(searchInput, page, pp, params)) else old(pending))
        && post == (if SearchMode(searchInput) then old(post) else [])
      ensures pp != old(perPage) ==> InitialPerPage(url) == if pp == "" then DefaultPerPage else pp
    {
      if pp != perPage {
        perPage := pp;
        Render();
        SearchEffect();
        PerPageEffect();
      }
    }

    /**
     * The debounce timer fires: the waiting search is sent and the page shows
     * its loading screen. Without a waiting search nothing happens.
     */
    method Fire()
      modifies this
      ensures old(pending).Some? ==>
        isLoading && inFlight == old(inFlight) + [old(pending).value] && pending == None
      ensures old(pending).None? ==> isLoading == old(isLoading) && inFlight == old(inFlight) && pending == None
      ensures url == old(url) && params == old(params) && post == old(post) && page == old(page)
      ensures perPage == old(perPage) && totalPages == old(totalPages) && searchInput == old(searchInput)
    {
      if pending.Some? {
        isLoading := true;
        inFlight := inFlight + [pending.value];
        pending := None;
      }
    }

    /**
     * The `i`-th search in flight settles, in whatever order responses arrive.
     * A page of results replaces the list and the page count and writes the
     * search's own params object, with `q` set to its text, to the address bar;
     * a failure changes neither. Either way the loading screen goes away.
     */
    method Settle(i: nat, response: SearchResponse)
      requires i < |inFlight|
      modifies this, inFlight[i].params
      ensures !isLoading
      ensures inFlight == old(inFlight[..i] + inFlight[i + 1..])
      ensures var req := old(inFlight[i]);
        response.Loaded? ==>
          && post == response.data && totalPages == response.lastPage
          && req.params.entries == old(req.params.entries)["q" := req.text]
          && url == req.params.entries
          && InitialText(url) == req.text
      ensures var req := old(inFlight[i]);
        response.Failed? ==>
          post == old(post) && totalPages == old(totalPages) && url == old(url)
          && req.params.entries == old(req.params.entries)
      ensures params == old(params) && pending == old(pending) && page == old(page)
      ensures perPage == old(perPage) && searchInput == old(searchInput)
    {
      var req := inFlight[i];
      if response.Loaded? {
        post := response.data;
        totalPages := response.lastPage;
        req.params.entries := req.params.entries["q" := req.text];
        url := req.params.entries;
      }
      isLoading := false;
      inFlight := inFlight[..i] + inFlight[i + 1..];
    }
  }

  /**
   * Typing twice before the timer fires sends exactly one search, with the
   * final text, whether or not the first text was long enough to search for.
   */
  method RescheduleExample(typed: string, final: string)
    requires typed != final && SearchMode(final)
  {
    var s := new SearchPage(map[]);
    assert s.inFlight == [];
    s.ChangeSearchInput(typed);
    s.ChangeSearchInput(final);
    s.Fire();
    assert |s.inFlight| == 1 && s.inFlight[0].text == final;
  }

  /**
   * Dropping below the threshold does not cancel a waiting search: it still
   * fires, and its results and its `q` come back although the box now holds
   * a text too short to search for.
   */
  method StaleSearchExample(typed: string, short: string, products: seq<Product>)
    requires SearchMode(typed) && !SearchMode(short)
  {
    assert !SearchMode("") by { assert Trim("") == ""; }
    var s := new SearchPage(map[]);
    s.ChangeSearchInput(typed);
    var waiting := s.pending.value;
    assert waiting.text == typed;
    s.ChangeSearchInput(short);
    assert s.pending == Some(waiting);
    s.Fire();
    assert s.inFlight == [waiting];
    s.Settle(0, Loaded(products, 4));
    assert s.searchInput == short && !SearchMode(s.searchInput);
    assert s.post == products;
    assert s.url == waiting.params.entries && s.url["q"] == typed;
  }
}
