# NewsApp core, modelled in Dafny

The app fetches Guardian search results, extracts them into `News`
records and shows them in a list. This project models the parts with real
logic:

- **Extraction** (`QueryUtils`). `extractFeatureFromNewsJson` turns the
  response text into an optional list of articles. `fetchNewsData` feeds it
  and turns every fetch failure into the empty text. JSON is modelled as an
  already-parsed value tree, following the value grammar of section 3 of
  RFC 8259. The org.json accessors (`getJSONObject`, `getJSONArray`,
  `getString`, `getJSONObject(index)`) are partial lookups that fail
  where the library throws. Text parsing and date parsing are parameters:
  `parseJson` and `parseDate`.
- **Query parameters** (`NewsActivity`). `onCreateLoader` combines the
  search term and the stored order into the appended `q` and
  `order-by` parameters. `onLoadFinished` and `onLoaderReset` update
  the adapter's contents.
- **`News`** (`NewsRecord`). This is the immutable five-field article
  record. Its date is optional, where the source holds `null`.

Files: `options.dfy` (Option), `json.dfy` (JSON tree and accessors),
`news.dfy` (`News`, `Date`), `query_utils.dfy` (extraction and
fetch), `news_activity.dfy` (query URI and adapter).

The central result is about `CollectStories`, the loop over `results`.
It yields the longest well-formed prefix of `results`. Extraction stops
at the first element whose accessors fail, and it keeps the articles
already built. A date the parser rejects does not stop it: that article
keeps an absent date.

### Failure behaviour of the extraction

- Whitespace-only text gives an empty list, not null. `TextUtils.isEmpty`
  tests only for null and `""`, so whitespace reaches the JSON parser, fails
  to parse, and the empty list is returned.
- A malformed envelope gives an empty list.
- A malformed record ends the loop. The `try` block encloses the loop, so
  the articles already added are returned.

## Model

| member | source | states |
|---|---|---|
| NewsRecord.GettersReturnConstructorArguments | app/src/main/java/com/example/android/newsapp/News.java:33-74 | each getter returns the constructor argument in its position, the absent date included; author and url are not swapped |
| NewsRecord.NewsDeterminedByGetters | app/src/main/java/com/example/android/newsapp/News.java:13-38 | two articles are equal exactly when their five fields agree |
| QueryUtils.RecordToNews | app/src/main/java/com/example/android/newsapp/QueryUtils.java:86-118 | an element yields an article exactly when it is well-formed (object, non-empty `tags` starting with an object, the four string fields, a string `webTitle` in the first tag); the article maps title, section, date as parsed, author from the first tag, and url |
| QueryUtils.CollectStories | app/src/main/java/com/example/android/newsapp/QueryUtils.java:83-122 | the result is the longest well-formed prefix of `results`: at most as long as `results`, element i built from `results[i]`, and the next element not well-formed |
| QueryUtils.LongestWellFormedPrefixUnique | app/src/main/java/com/example/android/newsapp/QueryUtils.java:83-122 | the longest well-formed prefix is unique, so the prefix characterisation determines the result |
| QueryUtils.Envelope | app/src/main/java/com/example/android/newsapp/QueryUtils.java:74-80 | the `results` array is found exactly when the text parses to an object whose `response` is an object whose `results` is an array |
| QueryUtils.ExtractFeatureFromNewsJson | app/src/main/java/com/example/android/newsapp/QueryUtils.java:60-126 | null or empty text gives no list; any other text gives a list, which is empty without the envelope and otherwise the longest well-formed prefix of `results` |
| QueryUtils.NonEmptyTextYieldsList | app/src/main/java/com/example/android/newsapp/QueryUtils.java:62-80 | a list is returned exactly for non-empty text; text that does not parse gives the empty list |
| QueryUtils.AllWellFormedKeepsEveryRecord | app/src/main/java/com/example/android/newsapp/QueryUtils.java:83-119 | when every element is well-formed, there is one article per element, in order |
| QueryUtils.FirstMalformedEndsExtraction | app/src/main/java/com/example/android/newsapp/QueryUtils.java:86-122 | the first malformed element ends extraction; the result is exactly the articles of the elements before it |
| QueryUtils.SuffixAfterMalformedIgnored | app/src/main/java/com/example/android/newsapp/QueryUtils.java:83-122 | elements after a malformed one have no effect on the result |
| QueryUtils.UnparsableDateKeepsRecord | app/src/main/java/com/example/android/newsapp/QueryUtils.java:101-118 | an element whose date string the parser rejects is still kept, with an absent date and its title and url mapped |
| QueryUtils.MissingDateEndsExtraction | app/src/main/java/com/example/android/newsapp/QueryUtils.java:101-122 | an element with no `webPublicationDate` string ends extraction just before it |
| QueryUtils.ReplacingWellFormedRecordIsLocal | app/src/main/java/com/example/android/newsapp/QueryUtils.java:83-119 | swapping one well-formed element for another changes only the article at that index |
| QueryUtils.ExtractTwoElementExample | app/src/main/java/com/example/android/newsapp/QueryUtils.java:83-122 | a one-article response followed by an element lacking `webUrl` gives exactly the first article, field by field |
| QueryUtils.CreateUrl | app/src/main/java/com/example/android/newsapp/QueryUtils.java:131-139 | a URL is built exactly when the string is well-formed |
| QueryUtils.MakeHttpRequest | app/src/main/java/com/example/android/newsapp/QueryUtils.java:144-178 | the text is non-empty only for a 200 answer on a valid URL, and is then its body; a null URL, transport failure or other status gives empty text |
| QueryUtils.FetchNewsData | app/src/main/java/com/example/android/newsapp/QueryUtils.java:41-58 | a list comes back exactly when the URL is well-formed and the answer is 200 with a non-empty body; the list is then that body's extraction |
| NewsActivity.ResolveOrderBy | app/src/main/java/com/example/android/newsapp/NewsActivity.java:118-126 | a search term forces relevance; with none, a stored relevance becomes newest and any other stored order passes through |
| NewsActivity.RelevanceIffSearchTerm | app/src/main/java/com/example/android/newsapp/NewsActivity.java:118-124 | when the two resource values differ, the resolved order is relevance if and only if the search term is non-empty |
| NewsActivity.BuildQueryUri | app/src/main/java/com/example/android/newsapp/NewsActivity.java:116-126 | the base and its parameters are kept first; `q` is appended once for a non-empty term and never otherwise; exactly one `order-by`, the last parameter, carries the resolved order; nothing else is appended |
| NewsActivity.OnCreateLoaderUri | app/src/main/java/com/example/android/newsapp/NewsActivity.java:38-129 | on the Guardian endpoint the appended parameters are `q` (only for a non-empty term) and then `order-by` |
| NewsActivity.OnLoadFinished | app/src/main/java/com/example/android/newsapp/NewsActivity.java:141-147 | afterwards the adapter holds exactly the delivered list, or nothing when no list came |
| NewsActivity.OnLoaderReset | app/src/main/java/com/example/android/newsapp/NewsActivity.java:151-154 | afterwards the adapter is empty |
| NewsActivity.LoadFinishedForgetsPrevious | app/src/main/java/com/example/android/newsapp/NewsActivity.java:141-153 | the result of a finished load does not depend on earlier contents; a reset before it changes nothing; delivering twice is the same as once |
| NewsActivity.AdapterAfterFetch | app/src/main/java/com/example/android/newsapp/NewsActivity.java:141-147 | after a fetch is delivered, a non-empty adapter implies a well-formed URL, a 200 answer with the envelope, and contents equal to the longest well-formed prefix of `results` |

## Left out

- Turning text into a JSON tree is left to org.json's parser. It is the parameter `parseJson`, and `None` means the parser throws.
- `SimpleDateFormat.parse` with its fixed pattern is the parameter `parseDate`. Its leniency and time-zone handling are that library's.
- QueryUtils.RecordToNews: does not model Android org.json's `getString` coercion of any present non-string value (number, boolean, `null`, object or array) to text. The model treats such a value as a failure.
- `new URL(...)` validity is the parameter `isWellFormedUrl`.
- HTTP I/O in `makeHttpRequest` and `readFromStream` is not modelled: connections, the 10 s read and 15 s connect timeouts, stream closing, UTF-8 line reading. A request's outcome is an input: a transport failure, or a status and body.
- QueryUtils.FetchNewsData: does not model the `ClassCastException` thrown when `new URL` accepts a URL that is not http(s), such as `file:` or `ftp:`, and `openConnection()` is cast to `HttpURLConnection`. Neither catch handles it, so `fetchNewsData` throws instead of returning null. Only the https Guardian URI reaches this call in the program.
- QueryUtils.FetchNewsData: takes a response `body` to be the text after `readFromStream` has dropped its line terminators. A body of nothing but line breaks is therefore the empty text here, which gives no list, as in the source.
- QueryUtils.FetchNewsData: does not model an `IOException` thrown by `inputStream.close()` in the `finally` block. That path leaves the text `null`, which gives no list, just like the empty text.
- `Uri.Builder` percent-encoding and the rendering of a URI to text are not modelled. Parameters stay (key, value) pairs, and the base URL's own query is kept as opaque text.
- The `R.string` order values are parameters (`OrderValues`), because the resource file is not part of this model.
- `NewsLoader` and the `LoaderManager` lifecycle are not modelled: background execution, `forceLoad`, and the null-URL guard in `loadInBackground`. This is asynchronous platform machinery, and the URI built in `onCreateLoader` is never null.
- NewsRecord.NewsDeterminedByGetters: a datatype has structural equality, while Java's `News` does not override `equals` or `hashCode`, so two articles with equal fields are distinct objects there. Nothing in the modelled code compares articles.
- `NewsAdapter` view binding and display date formatting are not modelled. They are UI code.
- The connectivity check, menus, settings navigation, browser intents and `SharedPreferences` reads are not modelled. The search term and stored order are plain inputs.
