/** The logic in the list screen: the query parameters built for each load,
    and the adapter contents after a load finishes or is reset. Search term
    and stored order come in as plain values, as read from the preferences. */
module NewsActivity {
  import opened Options
  import opened NewsRecord
  import QueryUtils

  // ---------------------------------------------------------------------
  // Query parameters
  // ---------------------------------------------------------------------

  /** One `key=value` pair of a query string, before percent-encoding. */
  datatype QueryParam = QueryParam(key: string, value: string)

  /** A URI: the parsed base text (its own query parameters included) and the
      parameters appended to it through `Uri.Builder`, in order. */
  datatype Uri = Uri(base: string, appended: seq<QueryParam>)

  /** The Guardian search endpoint with the API key and the contributor tags
      already in its query. */
  const GuardianRequestUrl: string :=
    "https://content.guardianapis.com/search?&api-key=3bd58974-10b7-4bcb-830a-2c076bf926bd&show-tags=contributor"

  const SearchKey: string := "q"
  const OrderByKey: string := "order-by"

  /** The order-by values held in the app's string resources, taken as given. */
  datatype OrderValues = OrderValues(relevance: string, newest: string)

  /** `Uri.Builder.appendQueryParameter`. */
  function AppendQueryParameter(u: Uri, key: string, value: string): Uri
  {
    u.(appended := u.appended + [QueryParam(key, value)])
  }

  /** Number of parameters in `ps` named `key`. */
  function CountKey(ps: seq<QueryParam>, key: string): nat
  {
    if |ps| == 0 then 0
    else (if ps[0].key == key then 1 else 0) + CountKey(ps[1..], key)
  }

  /** The order actually requested: a search term forces relevance; with no
      search term a stored relevance becomes newest, and any other stored
      order passes through unchanged. */
  function ResolveOrderBy(search: string, storedOrder: string, values: OrderValues): (orderBy: string)
    ensures search != "" ==> orderBy == values.relevance
    ensures search == "" && storedOrder == values.relevance ==> orderBy == values.newest
    ensures search == "" && storedOrder != values.relevance ==> orderBy == storedOrder
  {
    var orderBy := if search != "" then values.relevance else storedOrder;
    if search == "" && orderBy == values.relevance then values.newest else orderBy
  }

  /** Whenever the two resource values differ, the resolved order is
      relevance exactly when there is a search term. */
  lemma RelevanceIffSearchTerm(search: string, storedOrder: string, values: OrderValues)
    requires values.relevance != values.newest
    ensures ResolveOrderBy(search, storedOrder, values) == values.relevance <==> search != ""
  {
  }

  /** The URI `onCreateLoader` hands to the loader, built on `base`: `q` is
      appended only for a non-empty search term, then exactly one `order-by`
      carrying the resolved order, both after the base's own parameters, and
      nothing else is appended. */
  function BuildQueryUri(base: Uri, search: string, storedOrder: string, values: OrderValues): (r: Uri)
    ensures r.base == base.base
    ensures |r.appended| == |base.appended| + (if search != "" then 2 else 1)
    ensures r.appended[..|base.appended|] == base.appended
    ensures r.appended[|r.appended| - 1] == QueryParam(OrderByKey, ResolveOrderBy(search, storedOrder, values))
    ensures CountKey(r.appended[|base.appended|..], OrderByKey) == 1
    ensures CountKey(r.appended[|base.appended|..], SearchKey) == (if search != "" then 1 else 0)
    ensures search != "" ==> r.appended[|base.appended|] == QueryParam(SearchKey, search)
  {
    var uriBuilder := if search != "" then AppendQueryParameter(base, SearchKey, search) else base;
    var r := AppendQueryParameter(uriBuilder, OrderByKey, ResolveOrderBy(search, storedOrder, values));
    var orderParam := QueryParam(OrderByKey, ResolveOrderBy(search, storedOrder, values));
    var added := r.appended[|base.appended|..];
    assert CountKey([orderParam], OrderByKey) == 1 && CountKey([orderParam], SearchKey) == 0 by {
      assert [orderParam][1..] == [];
    }
    assert search != "" ==> added == [QueryParam(SearchKey, search), orderParam] && added[1..] == [orderParam];
    assert search == "" ==> added == [orderParam];
    r
  }

  /** `onCreateLoader`: the query URI built on the Guardian endpoint. */
  function OnCreateLoaderUri(search: string, storedOrder: string, values: OrderValues): (r: Uri)
    ensures r.base == GuardianRequestUrl
    ensures r.appended == (if search != "" then [QueryParam(SearchKey, search)] else [])
      + [QueryParam(OrderByKey, ResolveOrderBy(search, storedOrder, values))]
  {
    var r := BuildQueryUri(Uri(GuardianRequestUrl, []), search, storedOrder, values);
    assert r.appended == r.appended[0..];
    r
  }

  // ---------------------------------------------------------------------
  // The adapter
  // ---------------------------------------------------------------------

  /** The articles the list adapter holds, in display order. */
  datatype Adapter = Adapter(items: seq<News>)

  /** `ArrayAdapter.clear`. */
  function Clear(a: Adapter): Adapter
  {
    Adapter([])
  }

  /** `ArrayAdapter.addAll`. */
  function AddAll(a: Adapter, stories: seq<News>): Adapter
  {
    Adapter(a.items + stories)
  }

  /** `onLoadFinished`: the previous contents are dropped; afterwards the
      adapter holds exactly the delivered list, or nothing when no list was
      delivered. */
  function OnLoadFinished(a: Adapter, stories: Option<seq<News>>): (r: Adapter)
    ensures stories.Some? ==> r.items == stories.value
    ensures stories.None? ==> r.items == []
  {
    var cleared := Clear(a);
    if stories.Some? && |stories.value| != 0 then AddAll(cleared, stories.value) else cleared
  }

  /** `onLoaderReset`: the adapter is left empty. */
  function OnLoaderReset(a: Adapter): (r: Adapter)
    ensures |r.items| == 0
  {
    Clear(a)
  }

  /** Nothing of the previous contents survives a finished load, and a reset
      before it makes no difference. */
  lemma LoadFinishedForgetsPrevious(a: Adapter, b: Adapter, stories: Option<seq<News>>)
    ensures OnLoadFinished(a, stories) == OnLoadFinished(b, stories)
    ensures OnLoadFinished(OnLoaderReset(a), stories) == OnLoadFinished(a, stories)
    ensures OnLoadFinished(OnLoadFinished(a, stories), stories) == OnLoadFinished(a, stories)
  {
  }

  /** One whole load: whatever the adapter held, after the fetch of
      `requestUrl` is delivered it holds a non-empty list only when the URL
      was well-formed and the server answered 200 with a non-empty body, and
      that list is then the longest well-formed prefix of `results`. */
  lemma AdapterAfterFetch(
    a: Adapter, requestUrl: string, isWellFormedUrl: string -> bool, outcome: QueryUtils.HttpOutcome,
    parseJson: QueryUtils.JsonParser, parseDate: QueryUtils.DateParser)
    ensures var items := OnLoadFinished(a, QueryUtils.FetchNewsData(requestUrl, isWellFormedUrl, outcome, parseJson, parseDate)).items;
      items != [] ==>
        && isWellFormedUrl(requestUrl)
        && outcome == QueryUtils.Response(QueryUtils.HttpOk, outcome.body)
        && QueryUtils.HasEnvelope(parseJson(outcome.body))
        && QueryUtils.IsLongestWellFormedPrefix(
             QueryUtils.Envelope(outcome.body, parseJson).value, items, parseDate)
  {
  }
}
