/** `fetch_content_for_items`, which the download script and both search-API
    ingestion scripts define with the same loop: every search result with a
    valid link is meant to yield one record, in input order, holding either
    the content API's JSON or the error met while fetching it. The scripts'
    exception handlers differ, and as written some of them raise instead of
    storing the error; `FetchContentForItemsAsWritten` models that. */
module ContentFetch {
  import opened Text

  const ContentApiBase := "https://www.gov.uk/api/content"

  /** The parts of a content API record the converters read; a key that is
      absent is `None`. */
  datatype ChangeEntry = ChangeEntry(publicTimestamp: Option<string>, note: Option<string>)
  datatype Details = Details(body: Option<string>, changeHistory: Option<seq<ChangeEntry>>)
  datatype ContentData = ContentData(title: Option<string>, description: Option<string>, details: Option<Details>)

  /** One search result; a missing or null `link` is `None`. */
  datatype SearchItem = SearchItem(link: Option<string>)

  /** What fetching one content URL produces: the decoded JSON, or one of the
      three failures the loop catches. */
  datatype FetchOutcome =
    | Fetched(data: ContentData)
    | HttpStatusError(status: nat, reason: string)
    | RequestError(message: string)
    | JsonDecodeError(message: string)

  /** One entry of `all_grant_data`; a key the dictionary lacks is `None`. */
  datatype FetchRecord = FetchRecord(
    link: Option<string>,
    contentUrl: Option<string>,
    contentData: Option<ContentData>,
    error: Option<string>)

  /** The link test: present, non-empty and starting with `/`. */
  predicate IsValidLink(link: Option<string>) {
    link.Some? && link.value != "" && StartsWith(link.value, "/")
  }

  /** The content API URL for a link: the base with the link appended. */
  function ContentUrl(link: string): string {
    ContentApiBase + link
  }

  /** The `error` text stored for a failed fetch. */
  function ErrorText(outcome: FetchOutcome): string
    requires !outcome.Fetched?
  {
    match outcome
    case HttpStatusError(status, reason) => "HTTP Error: " + NatToString(status) + " " + reason
    case RequestError(message) => "Request Error: " + message
    case JsonDecodeError(message) => "JSON Decode Error: " + message
  }

  /** The record appended for a valid link: link and content URL always, and
      exactly one of the content and the error text. */
  function RecordFor(link: string, outcome: FetchOutcome): (r: FetchRecord)
    ensures r.link == Some(link) && r.contentUrl == Some(ContentApiBase + link)
    ensures r.contentData.Some? != r.error.Some?
    ensures r.contentData.Some? <==> outcome.Fetched?
  {
    if outcome.Fetched? then FetchRecord(Some(link), Some(ContentUrl(link)), Some(outcome.data), None)
    else FetchRecord(Some(link), Some(ContentUrl(link)), None, Some(ErrorText(outcome)))
  }

  /** A search result's link, when it passes the test. */
  function ValidLink(r: SearchItem): Option<string> {
    if IsValidLink(r.link) then r.link else None
  }

  /** The links that pass the test, in input order. */
  function ValidLinks(results: seq<SearchItem>): seq<string> {
    FilterMap(results, ValidLink)
  }

  /** `fetch_content_for_items`; `fetch` is the GET of a content URL followed
      by `raise_for_status` and `json()`. */
  method FetchContentForItems(results: seq<SearchItem>, fetch: string -> FetchOutcome)
    returns (records: seq<FetchRecord>)
    ensures |records| == |ValidLinks(results)|
    ensures forall k :: 0 <= k < |records| ==>
              records[k] == RecordFor(ValidLinks(results)[k], fetch(ContentUrl(ValidLinks(results)[k])))
  {
    records := [];
    for i := 0 to |results|
      invariant |records| == |ValidLinks(results[..i])|
      invariant forall k :: 0 <= k < |records| ==>
                  records[k] == RecordFor(ValidLinks(results[..i])[k], fetch(ContentUrl(ValidLinks(results[..i])[k])))
    {
      assert results[..i + 1][..i] == results[..i];
      var link := results[i].link;
      if !link.Some? || link.value == "" || !StartsWith(link.value, "/") {
        continue;
      }
      var contentUrl := ContentUrl(link.value);
      var outcome := fetch(contentUrl);
      match outcome
      case Fetched(data) =>
        records := records + [FetchRecord(Some(link.value), Some(contentUrl), Some(data), None)];
      case HttpStatusError(status, reason) =>
        records := records + [FetchRecord(Some(link.value), Some(contentUrl), None,
                                          Some("HTTP Error: " + NatToString(status) + " " + reason))];
      case RequestError(message) =>
        records := records + [FetchRecord(Some(link.value), Some(contentUrl), None, Some("Request Error: " + message))];
      case JsonDecodeError(message) =>
        records := records + [FetchRecord(Some(link.value), Some(contentUrl), None, Some("JSON Decode Error: " + message))];
    }
    assert results[..|results|] == results;
  }

  /** The valid links of one more search result, and the valid links of a
      prefix lead those of the whole list. */
  lemma ValidLinksStep(results: seq<SearchItem>, i: nat)
    requires i < |results|
    ensures ValidLinks(results[..i + 1]) ==
              ValidLinks(results[..i]) + (if IsValidLink(results[i].link) then [results[i].link.value] else [])
    ensures ValidLinks(results[..i + 1]) <= ValidLinks(results)
  {
    assert results[..i + 1][..i] == results[..i];
    FilterMapConcat(results[..i + 1], results[i + 1..], ValidLink);
    assert results[..i + 1] + results[i + 1..] == results;
  }

  // ---------------------------------------------------------------------
  // The handlers as written

  /** The two ways the scripts spell their `except` clauses: the download
      script and the v2 ingestion script name `httpx.HTTPStatusError` and
      `httpx.RequestError`; the search-API ingestion script names
      `httpx.exceptions.HTTPError` and `httpx.exceptions.RequestException`. */
  datatype Handlers = HttpxHandlers | ExceptionsModuleHandlers

  /** Whether handling a failed fetch raises `AttributeError` as the code is
      written. httpx's response has no `reason` attribute, and the status
      handler's progress line reads it; httpx has no `exceptions` attribute,
      and Python evaluates the search-API script's first `except` clause,
      which names it, whatever the failure. */
  predicate HandlerRaises(h: Handlers, outcome: FetchOutcome) {
    match h
    case HttpxHandlers => outcome.HttpStatusError?
    case ExceptionsModuleHandlers => !outcome.Fetched?
  }

  /** Whether fetching `link`'s content URL ends in a handler that raises. */
  predicate Raises(h: Handlers, fetch: string -> FetchOutcome, link: string) {
    HandlerRaises(h, fetch(ContentUrl(link)))
  }

  /** How the loop as written ends: with every record, or with the
      `AttributeError` raised while handling the fetch of `link`, which
      leaves `fetch_content_for_items` and discards the records so far. */
  datatype FetchRun = Completed(records: seq<FetchRecord>) | Crashed(link: string)

  /** The loop as written, over the valid links in order. */
  function RunAsWritten(h: Handlers, links: seq<string>, fetch: string -> FetchOutcome): FetchRun {
    if |links| == 0 then Completed([])
    else if Raises(h, fetch, links[0]) then Crashed(links[0])
    else match RunAsWritten(h, links[1..], fetch)
      case Completed(rest) => Completed([RecordFor(links[0], fetch(ContentUrl(links[0])))] + rest)
      case Crashed(l) => Crashed(l)
  }

  /** `fetch_content_for_items` as the three scripts write it: a failure
      whose handler raises ends the call. */
  method FetchContentForItemsAsWritten(results: seq<SearchItem>, fetch: string -> FetchOutcome, h: Handlers)
    returns (run: FetchRun)
    ensures run == RunAsWritten(h, ValidLinks(results), fetch)
  {
    var records: seq<FetchRecord> := [];
    for i := 0 to |results|
      invariant ValidLinks(results[..i]) <= ValidLinks(results)
      invariant |records| == |ValidLinks(results[..i])|
      invariant forall k :: 0 <= k < |records| ==>
                  records[k] == RecordFor(ValidLinks(results[..i])[k], fetch(ContentUrl(ValidLinks(results[..i])[k])))
      invariant forall k :: 0 <= k < |records| ==> !Raises(h, fetch, ValidLinks(results[..i])[k])
    {
      ValidLinksStep(results, i);
      var link := results[i].link;
      if !link.Some? || link.value == "" || !StartsWith(link.value, "/") {
        continue;
      }
      var contentUrl := ContentUrl(link.value);
      var outcome := fetch(contentUrl);
      match outcome
      case Fetched(data) =>
        records := records + [FetchRecord(Some(link.value), Some(contentUrl), Some(data), None)];
      case HttpStatusError(status, reason) =>
        // Either spelling raises here: `e.response.reason`, or `httpx.exceptions`.
        CrashesAtNext(h, results, fetch, i);
        return Crashed(link.value);
      case RequestError(message) =>
        if h == ExceptionsModuleHandlers {
          CrashesAtNext(h, results, fetch, i);
          return Crashed(link.value);
        }
        records := records + [FetchRecord(Some(link.value), Some(contentUrl), None, Some("Request Error: " + message))];
      case JsonDecodeError(message) =>
        if h == ExceptionsModuleHandlers {
          CrashesAtNext(h, results, fetch, i);
          return Crashed(link.value);
        }
        records := records + [FetchRecord(Some(link.value), Some(contentUrl), None, Some("JSON Decode Error: " + message))];
    }
    assert results[..|results|] == results;
    RunAsWrittenCompletes(h, ValidLinks(results), fetch);
    run := Completed(records);
  }

  /** When the handler for result `i` raises and none before it did, the
      run ends at that result's link. */
  lemma CrashesAtNext(h: Handlers, results: seq<SearchItem>, fetch: string -> FetchOutcome, i: nat)
    requires i < |results| && IsValidLink(results[i].link) && Raises(h, fetch, results[i].link.value)
    requires ValidLinks(results[..i]) <= ValidLinks(results)
    requires forall k :: 0 <= k < |ValidLinks(results[..i])| ==> !Raises(h, fetch, ValidLinks(results[..i])[k])
    ensures RunAsWritten(h, ValidLinks(results), fetch) == Crashed(results[i].link.value)
  {
    ValidLinksStep(results, i);
    RunAsWrittenCrashesAt(h, ValidLinks(results), fetch, |ValidLinks(results[..i])|);
  }

  /** The first raising handler ends the run, at that link. */
  lemma {:induction false} RunAsWrittenCrashesAt(h: Handlers, links: seq<string>, fetch: string -> FetchOutcome, p: nat)
    requires p < |links| && Raises(h, fetch, links[p])
    requires forall k :: 0 <= k < p ==> !Raises(h, fetch, links[k])
    ensures RunAsWritten(h, links, fetch) == Crashed(links[p])
  {
    if p > 0 {
      assert !Raises(h, fetch, links[0]);
      RunAsWrittenCrashesAt(h, links[1..], fetch, p - 1);
    }
  }

  /** Without a raising handler the run keeps every record. */
  lemma {:induction false} RunAsWrittenCompletes(h: Handlers, links: seq<string>, fetch: string -> FetchOutcome)
    requires forall k :: 0 <= k < |links| ==> !Raises(h, fetch, links[k])
    ensures var r := RunAsWritten(h, links, fetch);
      && r.Completed? && |r.records| == |links|
      && forall k :: 0 <= k < |links| ==> r.records[k] == RecordFor(links[k], fetch(ContentUrl(links[k])))
  {
    if |links| > 0 {
      assert !Raises(h, fetch, links[0]);
      RunAsWrittenCompletes(h, links[1..], fetch);
    }
  }

  /** As written, the loop returns its records exactly when no handler
      raises, and they are then the intended records; otherwise it stops at
      the first link whose handler raises. */
  lemma {:induction false} RunAsWrittenSpec(h: Handlers, links: seq<string>, fetch: string -> FetchOutcome)
    ensures var r := RunAsWritten(h, links, fetch);
      && (r.Completed? <==> forall k :: 0 <= k < |links| ==> !Raises(h, fetch, links[k]))
      && (r.Completed? ==>
            && |r.records| == |links|
            && forall k :: 0 <= k < |links| ==> r.records[k] == RecordFor(links[k], fetch(ContentUrl(links[k]))))
      && (r.Crashed? ==> exists p :: 0 <= p < |links| && r.link == links[p] && Raises(h, fetch, links[p])
                                     && forall k :: 0 <= k < p ==> !Raises(h, fetch, links[k]))
  {
    if forall k :: 0 <= k < |links| ==> !Raises(h, fetch, links[k]) {
      RunAsWrittenCompletes(h, links, fetch);
    } else {
      var p := FirstRaising(h, links, fetch);
      RunAsWrittenCrashesAt(h, links, fetch, p);
    }
  }

  /** The first link whose handler raises, when there is one. */
  lemma {:induction false} FirstRaising(h: Handlers, links: seq<string>, fetch: string -> FetchOutcome) returns (p: nat)
    requires exists k :: 0 <= k < |links| && Raises(h, fetch, links[k])
    ensures p < |links| && Raises(h, fetch, links[p])
    ensures forall k :: 0 <= k < p ==> !Raises(h, fetch, links[k])
  {
    if Raises(h, fetch, links[0]) {
      p := 0;
    } else {
      var k :| 0 <= k < |links| && Raises(h, fetch, links[k]);
      assert links[1..][k - 1] == links[k];
      var q := FirstRaising(h, links[1..], fetch);
      p := q + 1;
      forall j | 0 <= j < p ensures !Raises(h, fetch, links[j]) {
        if j > 0 { assert links[j] == links[1..][j - 1]; }
      }
    }
  }

  /** One failed fetch is enough. For a single search result with a valid
      link whose fetch fails, the intended loop stores one error record; as
      written, the search-API script's loop raises instead, and so do the
      other two scripts' loops when the failure is an HTTP status error. */
  lemma OneFailedFetchCrashes(link: string, fetch: string -> FetchOutcome)
    requires IsValidLink(Some(link)) && !fetch(ContentUrl(link)).Fetched?
    ensures ValidLinks([SearchItem(Some(link))]) == [link]
    ensures RecordFor(link, fetch(ContentUrl(link))).error.Some?
    ensures RunAsWritten(ExceptionsModuleHandlers, [link], fetch) == Crashed(link)
    ensures fetch(ContentUrl(link)).HttpStatusError? ==> RunAsWritten(HttpxHandlers, [link], fetch) == Crashed(link)
  {
    assert [SearchItem(Some(link))][..0] == [];
  }

  /** As the search-API script is written, a run that returns has fetched
      content for every record and stored no error, so its summary never
      counts a failure. */
  lemma SearchApiRunHasNoErrors(links: seq<string>, fetch: string -> FetchOutcome)
    ensures var r := RunAsWritten(ExceptionsModuleHandlers, links, fetch);
      r.Completed? ==> forall k :: 0 <= k < |r.records| ==> r.records[k].contentData.Some? && r.records[k].error.None?
  {
    RunAsWrittenSpec(ExceptionsModuleHandlers, links, fetch);
  }

  /** A link is fetched exactly when some search result carries it and it is
      non-empty and starts with `/`; one record per valid result. */
  lemma ValidLinksMembers(results: seq<SearchItem>)
    ensures forall l :: l in ValidLinks(results) <==>
              (exists i :: 0 <= i < |results| && results[i].link == Some(l)) && l != "" && StartsWith(l, "/")
    ensures |ValidLinks(results)| == CountIf(results, (r: SearchItem) => IsValidLink(r.link))
  {
    FilterMapMembers(results, ValidLink);
    FilterMapCount(results, ValidLink, (r: SearchItem) => IsValidLink(r.link));
    forall l ensures (exists r :: r in results && ValidLink(r) == Some(l)) <==>
                     (exists i :: 0 <= i < |results| && results[i].link == Some(l)) && l != "" && StartsWith(l, "/")
    {
      if exists i :: 0 <= i < |results| && results[i].link == Some(l) {
        var i :| 0 <= i < |results| && results[i].link == Some(l);
        assert results[i] in results;
      }
    }
  }
}
