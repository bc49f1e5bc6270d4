/** The Guardian response extraction and the fetch that feeds it. The two
    foreign libraries are parameters: `parseJson` turns response text into a
    JSON tree (org.json's parser) and `parseDate` reads a publication date
    (`SimpleDateFormat("yyyy-MM-dd'T'HH:mm:ss").parse`); each yields `None`
    where the library throws. */
module QueryUtils {
  import opened Options
  import opened JsonValue
  import opened NewsRecord

  type JsonParser = string -> Option<Json>
  type DateParser = string -> Option<Date>

  /** `TextUtils.isEmpty`: a null reference or the empty string. */
  predicate IsEmpty(text: Option<string>)
  {
    text.None? || text.value == ""
  }

  // ---------------------------------------------------------------------
  // One element of `results`
  // ---------------------------------------------------------------------

  /** An element of `results` from which an article can be built: an object
      whose `tags` is a non-empty array starting with an object, with string
      members `webTitle`, `sectionName`, `webPublicationDate` and `webUrl`,
      and a string `webTitle` in that first tag. */
  predicate WellFormedRecord(item: Json)
  {
    && item.JObject?
    && "tags" in item.members
    && item.members["tags"].JArray?
    && |item.members["tags"].elems| > 0
    && item.members["tags"].elems[0].JObject?
    && HasString(item.members, "webTitle")
    && HasString(item.members, "sectionName")
    && HasString(item.members, "webPublicationDate")
    && HasString(item.members, "webUrl")
    && HasString(item.members["tags"].elems[0].members, "webTitle")
  }

  /** The article a well-formed element denotes, read straight off the tree:
      title from `webTitle`, section from `sectionName`, the date as the
      parser reads `webPublicationDate` (absent when it cannot), author from
      the `webTitle` of the first tag, url from `webUrl`. */
  function NewsOf(item: Json, parseDate: DateParser): News
    requires WellFormedRecord(item)
  {
    var m := item.members;
    News(
      m["webTitle"].str,
      m["sectionName"].str,
      parseDate(m["webPublicationDate"].str),
      m["tags"].elems[0].members["webTitle"].str,
      m["webUrl"].str)
  }

  /** One iteration of the extraction loop, in the source's order of calls.
      Any failing accessor abandons the element; a date the parser rejects
      does not, and leaves the date absent. */
  function RecordToNews(item: Json, parseDate: DateParser): (r: Option<News>)
    ensures r.Some? <==> WellFormedRecord(item)
    ensures r.Some? ==> r.value == NewsOf(item, parseDate)
  {
    var currentNews :- AsObject(item);
    var tags :- GetJSONArray(currentNews, "tags");
    var authorObject :- ArrayGetJSONObject(tags, 0);
    var title :- GetString(currentNews, "webTitle");
    var section :- GetString(currentNews, "sectionName");
    var originalDate :- GetString(currentNews, "webPublicationDate");
    var publicationDate := parseDate(originalDate);
    var url :- GetString(currentNews, "webUrl");
    var author :- GetString(authorObject, "webTitle");
    Some(News(title, section, publicationDate, author, url))
  }

  // ---------------------------------------------------------------------
  // The `results` array
  // ---------------------------------------------------------------------

  /** `stories` is the longest well-formed prefix of `results`: each story is
      the article of the element at the same index, and the element right
      after the last story, if any, is not well-formed. */
  ghost predicate IsLongestWellFormedPrefix(results: seq<Json>, stories: seq<News>, parseDate: DateParser)
  {
    && |stories| <= |results|
    && (forall i :: 0 <= i < |stories| ==>
          WellFormedRecord(results[i]) && stories[i] == NewsOf(results[i], parseDate))
    && (|stories| < |results| ==> !WellFormedRecord(results[|stories|]))
  }

  /** The loop over `results`: articles are added in order until the first
      element whose accessors throw; that exception ends the loop and the
      articles already added are kept. */
  function CollectStories(results: seq<Json>, parseDate: DateParser): (stories: seq<News>)
    ensures IsLongestWellFormedPrefix(results, stories, parseDate)
    decreases |results|
  {
    if |results| == 0 then []
    else
      match RecordToNews(results[0], parseDate)
      case None => []
      case Some(news) =>
        var rest := CollectStories(results[1..], parseDate);
        assert forall i :: 1 <= i < |rest| + 1 ==> results[i] == results[1..][i - 1];
        assert |rest| < |results| - 1 ==> results[|rest| + 1] == results[1..][|rest|];
        [news] + rest
  }

  /** There is only one longest well-formed prefix. */
  lemma LongestWellFormedPrefixUnique(results: seq<Json>, s: seq<News>, t: seq<News>, parseDate: DateParser)
    requires IsLongestWellFormedPrefix(results, s, parseDate)
    requires IsLongestWellFormedPrefix(results, t, parseDate)
    ensures s == t
  {
  }

  // ---------------------------------------------------------------------
  // The response envelope
  // ---------------------------------------------------------------------

  /** The tree has the envelope the extraction expects: a top-level object
      whose `response` member is an object whose `results` member is an array. */
  predicate HasEnvelope(root: Option<Json>)
  {
    && root.Some?
    && root.value.JObject?
    && "response" in root.value.members
    && root.value.members["response"].JObject?
    && "results" in root.value.members["response"].members
    && root.value.members["response"].members["results"].JArray?
  }

  /** `new JSONObject(text)`, then `getJSONObject("response")`, then
      `getJSONArray("results")`. */
  function Envelope(text: string, parseJson: JsonParser): (results: Option<seq<Json>>)
    ensures results.Some? <==> HasEnvelope(parseJson(text))
    ensures results.Some? ==>
      results.value == parseJson(text).value.members["response"].members["results"].elems
  {
    var root :- parseJson(text);
    var baseJsonResponse :- AsObject(root);
    var newsObject :- GetJSONObject(baseJsonResponse, "response");
    GetJSONArray(newsObject, "results")
  }

  /** `extractFeatureFromNewsJson`. Null or empty text gives no list at all;
      any other text gives a list: empty when the text does not parse or
      lacks the envelope, otherwise the longest well-formed prefix of
      `results`. */
  function ExtractFeatureFromNewsJson(newsJson: Option<string>, parseJson: JsonParser, parseDate: DateParser)
    : (r: Option<seq<News>>)
    ensures r.None? <==> IsEmpty(newsJson)
    ensures r.Some? && !HasEnvelope(parseJson(newsJson.value)) ==> r.value == []
    ensures r.Some? && HasEnvelope(parseJson(newsJson.value)) ==>
      IsLongestWellFormedPrefix(Envelope(newsJson.value, parseJson).value, r.value, parseDate)
  {
    if IsEmpty(newsJson) then None
    else
      match Envelope(newsJson.value, parseJson)
      case None => Some([])
      case Some(results) => Some(CollectStories(results, parseDate))
  }

  // ---------------------------------------------------------------------
  // Properties of the extraction
  // ---------------------------------------------------------------------

  /** When every element is well-formed, there is exactly one article per
      element, in the same order. */
  lemma AllWellFormedKeepsEveryRecord(results: seq<Json>, parseDate: DateParser)
    requires forall i :: 0 <= i < |results| ==> WellFormedRecord(results[i])
    ensures |CollectStories(results, parseDate)| == |results|
    ensures forall i :: 0 <= i < |results| ==>
      CollectStories(results, parseDate)[i] == NewsOf(results[i], parseDate)
  {
  }

  /** The first element that is not well-formed ends the extraction: the
      result is exactly the articles of the elements before it. */
  lemma FirstMalformedEndsExtraction(results: seq<Json>, k: nat, parseDate: DateParser)
    requires k < |results|
    requires !WellFormedRecord(results[k])
    requires forall i :: 0 <= i < k ==> WellFormedRecord(results[i])
    ensures |CollectStories(results, parseDate)| == k
    ensures CollectStories(results, parseDate) == CollectStories(results[..k], parseDate)
  {
  }

  /** Whatever follows a malformed element has no effect on the result. */
  lemma SuffixAfterMalformedIgnored(results: seq<Json>, k: nat, tail: seq<Json>, parseDate: DateParser)
    requires k < |results|
    requires !WellFormedRecord(results[k])
    ensures CollectStories(results[..k + 1] + tail, parseDate) == CollectStories(results, parseDate)
  {
    var a := results[..k + 1] + tail;
    var s := CollectStories(results, parseDate);
    assert forall i :: 0 <= i <= k ==> a[i] == results[i];
    assert IsLongestWellFormedPrefix(a, s, parseDate);
    LongestWellFormedPrefixUnique(a, s, CollectStories(a, parseDate), parseDate);
  }

  /** A record whose `webPublicationDate` is a string the date parser rejects
      is kept, with its date absent and its other fields mapped as usual. */
  lemma UnparsableDateKeepsRecord(results: seq<Json>, k: nat, parseDate: DateParser)
    requires k < |results|
    requires forall i :: 0 <= i < k ==> WellFormedRecord(results[i])
    requires WellFormedRecord(results[k])
    requires parseDate(results[k].members["webPublicationDate"].str).None?
    ensures k < |CollectStories(results, parseDate)|
    ensures CollectStories(results, parseDate)[k].date.None?
    ensures CollectStories(results, parseDate)[k].title == results[k].members["webTitle"].str
    ensures CollectStories(results, parseDate)[k].url == results[k].members["webUrl"].str
  {
  }

  /** A record without a `webPublicationDate` string is not tolerated: the
      extraction ends just before it. */
  lemma MissingDateEndsExtraction(results: seq<Json>, k: nat, parseDate: DateParser)
    requires k < |results|
    requires results[k].JObject? && !HasString(results[k].members, "webPublicationDate")
    requires forall i :: 0 <= i < k ==> WellFormedRecord(results[i])
    ensures |CollectStories(results, parseDate)| == k
  {
  }

  /** Replacing one well-formed element by another well-formed element (a
      different date string, say) changes only the article at that index. */
  lemma ReplacingWellFormedRecordIsLocal(
    a: seq<Json>, b: seq<Json>, k: nat, parseDate: DateParser)
    requires |a| == |b| && k < |a|
    requires forall i :: 0 <= i < |a| && i != k ==> a[i] == b[i]
    requires WellFormedRecord(a[k]) && WellFormedRecord(b[k])
    ensures |CollectStories(a, parseDate)| == |CollectStories(b, parseDate)|
    ensures forall i :: 0 <= i < |CollectStories(a, parseDate)| && i != k ==>
      CollectStories(a, parseDate)[i] == CollectStories(b, parseDate)[i]
    ensures k < |CollectStories(a, parseDate)| ==>
      CollectStories(a, parseDate)[k] == NewsOf(a[k], parseDate)
      && CollectStories(b, parseDate)[k] == NewsOf(b[k], parseDate)
  {
  }

  /** Any text other than null or empty yields a list, even text that does
      not parse or lacks the envelope; null or empty text yields none. */
  lemma NonEmptyTextYieldsList(newsJson: Option<string>, parseJson: JsonParser, parseDate: DateParser)
    ensures ExtractFeatureFromNewsJson(newsJson, parseJson, parseDate).Some? <==> !IsEmpty(newsJson)
    ensures !IsEmpty(newsJson) && parseJson(newsJson.value).None? ==>
      ExtractFeatureFromNewsJson(newsJson, parseJson, parseDate) == Some([])
  {
  }

  /** A well-formed article element with the given field values. */
  function ArticleJson(title: string, section: string, date: string, url: string, author: string): Json
  {
    JObject(map[
      "webTitle" := JString(title),
      "sectionName" := JString(section),
      "webPublicationDate" := JString(date),
      "webUrl" := JString(url),
      "tags" := JArray([JObject(map["webTitle" := JString(author)])])])
  }

  /** A response with one article and a second element lacking `webUrl`:
      the first article is mapped field by field, and the second element ends
      the loop without discarding the first. */
  lemma ExtractTwoElementExample(text: string, parseJson: JsonParser, parseDate: DateParser, d: Date)
    requires text != ""
    requires parseJson(text) == Some(JObject(map["response" := JObject(map["results" := JArray([
      ArticleJson("T1", "World", "2020-01-02T03:04:05", "http://x", "A1"),
      JObject(map["webTitle" := JString("T2"), "tags" := JArray([])])])])]))
    requires parseDate("2020-01-02T03:04:05") == Some(d)
    ensures ExtractFeatureFromNewsJson(Some(text), parseJson, parseDate)
      == Some([News("T1", "World", Some(d), "A1", "http://x")])
  {
    var results := Envelope(text, parseJson).value;
    assert WellFormedRecord(results[0]);
    assert !WellFormedRecord(results[1]);
    FirstMalformedEndsExtraction(results, 1, parseDate);
    var stories := CollectStories(results, parseDate);
    assert stories[0] == NewsOf(results[0], parseDate);
    assert NewsOf(results[0], parseDate) == News("T1", "World", Some(d), "A1", "http://x");
    assert stories == [stories[0]];
    assert ExtractFeatureFromNewsJson(Some(text), parseJson, parseDate) == Some(stories);
  }

  // ---------------------------------------------------------------------
  // The fetch
  // ---------------------------------------------------------------------

  /** `HttpURLConnection.HTTP_OK`. */
  const HttpOk: int := 200

  /** What the network does with one GET request: it fails with an
      `IOException`, or the server answers with a status and a body. The
      body is the text `readFromStream` returns: the lines of the answer
      joined with their line terminators dropped, so an answer of nothing
      but line breaks has the empty body. */
  datatype HttpOutcome = TransportFailure | Response(status: int, body: string)

  /** A `java.net.URL` built from text the URL parser accepted. */
  datatype Url = Url(text: string)

  /** `createUrl`: a malformed URL string gives `null`. */
  function CreateUrl(urlString: string, isWellFormedUrl: string -> bool): (url: Option<Url>)
    ensures url.Some? <==> isWellFormedUrl(urlString)
  {
    if isWellFormedUrl(urlString) then Some(Url(urlString)) else None
  }

  /** `makeHttpRequest`: the body of a 200 answer; the empty string for a null
      URL, a transport failure or any other status. */
  function MakeHttpRequest(url: Option<Url>, outcome: HttpOutcome): (text: string)
    ensures text != "" ==> url.Some? && outcome == Response(HttpOk, text)
    ensures url.Some? && outcome.Response? && outcome.status == HttpOk ==> text == outcome.body
  {
    var jsonResponse := "";
    if url.None? then jsonResponse
    else
      match outcome
      case TransportFailure => jsonResponse
      case Response(status, body) => if status == HttpOk then body else jsonResponse
  }

  /** `fetchNewsData`: every failure along the way ends as the empty text, and
      so as no list; only a 200 answer with a non-empty body yields a list,
      the one its body extracts to. */
  function FetchNewsData(
    requestUrl: string, isWellFormedUrl: string -> bool, outcome: HttpOutcome,
    parseJson: JsonParser, parseDate: DateParser)
    : (r: Option<seq<News>>)
    ensures r.Some? <==>
      isWellFormedUrl(requestUrl) && outcome.Response? && outcome.status == HttpOk && outcome.body != ""
    ensures r.Some? ==> r == ExtractFeatureFromNewsJson(Some(outcome.body), parseJson, parseDate)
  {
    var url := CreateUrl(requestUrl, isWellFormedUrl);
    var jsonResponse := MakeHttpRequest(url, outcome);
    ExtractFeatureFromNewsJson(Some(jsonResponse), parseJson, parseDate)
  }
}
