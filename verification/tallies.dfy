/** The summary loops of the three fetching scripts, which classify every
    fetched record once, and the file name the search-API v2 script derives
    from a link. Writing a file is a parameter returning whether it worked. */
module Tallies {
  import opened Text
  import opened ContentFetch
  import opened GrantMarkdown

  // ---------------------------------------------------------------------
  // Download script: processed documents and two counters.

  /** The renderings of the records that render, in input order. */
  function Successes(fetched: seq<FetchRecord>, convert: string -> Option<string>): seq<Rendered> {
    FilterMap(fetched, (item: FetchRecord) => RenderGrant(item, convert))
  }

  /** The summary loop of `fetch_and_convert_grant_data` in the download
      script. Every failure branch prints the record's link, so records that
      do not render must carry one. */
  method DownloadTally(fetched: seq<FetchRecord>, convert: string -> Option<string>)
    returns (processed: seq<Rendered>, successful: nat, failed: nat)
    requires forall i :: 0 <= i < |fetched| && RenderGrant(fetched[i], convert).None? ==> fetched[i].link.Some?
    ensures processed == Successes(fetched, convert)
    ensures |processed| == successful && successful + failed == |fetched|
  {
    processed, successful, failed := [], 0, 0;
    for i := 0 to |fetched|
      invariant processed == Successes(fetched[..i], convert)
      invariant |processed| == successful && successful + failed == i
    {
      assert fetched[..i + 1][..i] == fetched[..i];
      var item := fetched[i];
      if item.error.Some? {
        failed := failed + 1;
        continue;
      }
      var result := ConvertGrantDataToMetadataAndMarkdown(item, convert);
      if result.Some? {
        processed := processed + [result.value];
        successful := successful + 1;
      } else {
        // Both remaining branches (an error key, or neither key) count a failure.
        failed := failed + 1;
      }
    }
    assert fetched[..|fetched|] == fetched;
  }

  /** The processed documents are exactly the renderings of the records that
      render. */
  lemma SuccessesSpec(fetched: seq<FetchRecord>, convert: string -> Option<string>)
    ensures forall r :: r in Successes(fetched, convert) <==>
              exists item :: item in fetched && RenderGrant(item, convert) == Some(r)
  {
    FilterMapMembers(fetched, (item: FetchRecord) => RenderGrant(item, convert));
  }

  /** Records with an error, and records without content, are never among
      the processed documents: every success is a record with content and no
      error. */
  lemma SuccessesCount(fetched: seq<FetchRecord>, convert: string -> Option<string>)
    ensures |Successes(fetched, convert)| == CountIf(fetched, HasContentOnly)
  {
    FilterMapCount(fetched, (item: FetchRecord) => RenderGrant(item, convert), HasContentOnly);
  }

  /** A record holding content and no error. */
  predicate HasContentOnly(item: FetchRecord) {
    item.contentData.Some? && item.error.None?
  }

  // ---------------------------------------------------------------------
  // Search-API v2 script: one file per rendered record, three counters.

  predicate IsSlash(c: char) {
    c == '/'
  }

  /** The number of slashes `link.lstrip("/")` drops. */
  function LeadingSlashes(link: string): nat {
    LeadingRun(link, IsSlash)
  }

  /** `s.replace("/", "_")`. */
  function SlashesToUnderscores(s: string): string {
    seq(|s|, i requires 0 <= i < |s| => if s[i] == '/' then '_' else s[i])
  }

  /** The output file name for a record's link: it has no `/`, ends in
      `.md`, and is as long as the link without its leading slashes, plus
      the extension. */
  function SafeFilename(link: string): (name: string)
    ensures '/' !in name
    ensures EndsWith(name, ".md")
    ensures |name| == |link| - LeadingSlashes(link) + 3
  {
    var u := SlashesToUnderscores(link[LeadingSlashes(link)..]);
    NoSlashAfterReplace(link[LeadingSlashes(link)..]);
    WithExtension(u);
    u + ".md"
  }

  lemma WithExtension(u: string)
    requires '/' !in u
    ensures '/' !in u + ".md" && EndsWith(u + ".md", ".md") && |u + ".md"| == |u| + 3
  {
    var r := u + ".md";
    assert r[|r| - 3..] == ".md";
    forall j | 0 <= j < |r| ensures r[j] != '/' {
      if j < |u| { assert r[j] == u[j]; } else { assert r[j] == ".md"[j - |u|]; }
    }
  }

  /** The name drops exactly the leading slashes of the link and maps every
      later character one for one, a slash to an underscore; so its first
      character comes from the first character after the leading slashes. */
  lemma SafeFilenameChars(link: string)
    ensures forall i :: 0 <= i < LeadingSlashes(link) ==> link[i] == '/'
    ensures LeadingSlashes(link) < |link| ==> link[LeadingSlashes(link)] != '/'
    ensures forall i :: LeadingSlashes(link) <= i < |link| ==>
              SafeFilename(link)[i - LeadingSlashes(link)] == if link[i] == '/' then '_' else link[i]
  {
    var k := LeadingSlashes(link);
    var stem := link[k..];
    var u := SlashesToUnderscores(stem);
    var r := SafeFilename(link);
    forall i | k <= i < |link| ensures r[i - k] == if link[i] == '/' then '_' else link[i] {
      assert r[i - k] == u[i - k];
      assert stem[i - k] == link[i];
    }
  }

  lemma NoSlashAfterReplace(s: string)
    ensures '/' !in SlashesToUnderscores(s)
  {
    var u := SlashesToUnderscores(s);
    forall j | 0 <= j < |u| ensures u[j] != '/' {
    }
  }

  /** Different links can share a file name: a slash and an underscore in
      the same place, or leading slashes, are not told apart, so one record's
      file can overwrite another's. */
  lemma SafeFilenameCollides()
    ensures SafeFilename("/a/b") == SafeFilename("/a_b") == SafeFilename("a/b") == "a_b.md"
  {
    assert LeadingSlashes("/a/b") == 1 && LeadingSlashes("/a_b") == 1 && LeadingSlashes("a/b") == 0;
    assert "/a/b"[1..] == "a/b";
    assert "/a_b"[1..] == "a_b";
    UnderscoresOf("a/b");
    UnderscoresOf("a_b");
  }

  lemma UnderscoresOf(s: string)
    requires |s| == 3 && s[0] == 'a' && s[1] in "/_" && s[2] == 'b'
    ensures SlashesToUnderscores(s) == "a_b"
  {
    var r := SlashesToUnderscores(s);
    assert r[0] == 'a' && r[1] == '_' && r[2] == 'b';
  }

  /** How the v2 summary loop classifies one record: rendered and written,
      rendered but the write failed, not rendered with an error key, or
      neither. */
  datatype V2Class = Saved | SaveFailed | ErrorRecorded | NoContentNoError

  function ClassifyV2(item: FetchRecord, convert: string -> Option<string>, save: (string, string) -> bool): V2Class
    requires item.link.Some?
  {
    var r := RenderGrant(item, convert);
    if r.Some? && r.value.markdownContent != "" then
      if save(SafeFilename(item.link.value), r.value.markdownContent) then Saved else SaveFailed
    else if item.error.Some? then ErrorRecorded
    else NoContentNoError
  }

  /** The counters `successful_saves`, `failed_fetches_or_conversions` and
      `failed_fetches`, with the number of records looked at. */
  datatype V2Counts = V2Counts(total: nat, successfulSaves: nat, failedConversions: nat, failedFetches: nat)

  function AddClass(c: V2Counts, k: V2Class): V2Counts {
    match k
    case Saved => c.(total := c.total + 1, successfulSaves := c.successfulSaves + 1)
    case SaveFailed => c.(total := c.total + 1, failedConversions := c.failedConversions + 1)
    case ErrorRecorded => c.(total := c.total + 1, failedConversions := c.failedConversions + 1)
    case NoContentNoError => c.(total := c.total + 1, failedFetches := c.failedFetches + 1)
  }

  function CountV2(items: seq<FetchRecord>, convert: string -> Option<string>, save: (string, string) -> bool): V2Counts
    requires forall i :: 0 <= i < |items| ==> items[i].link.Some?
  {
    if |items| == 0 then V2Counts(0, 0, 0, 0)
    else AddClass(CountV2(items[..|items| - 1], convert, save), ClassifyV2(items[|items| - 1], convert, save))
  }

  /** The summary loop of `fetch_and_convert_grant_data` in the v2 script;
      `dirCreated` is whether creating the output directory worked, and when
      it did not, nothing is converted, written or counted. Every branch
      reads the record's link. Returns the counters and the names of the
      files written, in order. */
  method V2Tally(fetched: seq<FetchRecord>, convert: string -> Option<string>, dirCreated: bool,
                 save: (string, string) -> bool)
    returns (counts: V2Counts, written: seq<string>)
    requires forall i :: 0 <= i < |fetched| ==> fetched[i].link.Some?
    ensures counts == CountV2(if dirCreated then fetched else [], convert, save)
    ensures |written| == counts.successfulSaves
    ensures !dirCreated ==> counts == V2Counts(0, 0, 0, 0) && written == []
  {
    var items := fetched;
    if !dirCreated {
      items := [];
    }
    counts, written := V2Counts(0, 0, 0, 0), [];
    for i := 0 to |items|
      invariant counts == CountV2(items[..i], convert, save)
      invariant |written| == counts.successfulSaves
    {
      CountV2Step(items, i, convert, save);
      var item := items[i];
      var markdown := ConvertGrantDataToMarkdown(item, convert);
      if markdown.Some? && markdown.value != "" {
        var name := SafeFilename(item.link.value);
        if save(name, markdown.value) {
          written := written + [name];
          counts := counts.(total := counts.total + 1, successfulSaves := counts.successfulSaves + 1);
        } else {
          counts := counts.(total := counts.total + 1, failedConversions := counts.failedConversions + 1);
        }
      } else if item.error.Some? {
        counts := counts.(total := counts.total + 1, failedConversions := counts.failedConversions + 1);
      } else {
        counts := counts.(total := counts.total + 1, failedFetches := counts.failedFetches + 1);
      }
    }
    assert items[..|items|] == items;
  }

  lemma CountV2Step(items: seq<FetchRecord>, i: nat, convert: string -> Option<string>, save: (string, string) -> bool)
    requires i < |items| && forall j :: 0 <= j < |items| ==> items[j].link.Some?
    ensures CountV2(items[..i + 1], convert, save)
            == AddClass(CountV2(items[..i], convert, save), ClassifyV2(items[i], convert, save))
  {
    assert items[..i + 1][..i] == items[..i];
  }

  /** Every record increments exactly one of the three counters. */
  lemma {:induction false} CountV2Partition(items: seq<FetchRecord>, convert: string -> Option<string>,
                                            save: (string, string) -> bool)
    requires forall i :: 0 <= i < |items| ==> items[i].link.Some?
    ensures var c := CountV2(items, convert, save);
      c.total == |items| && c.successfulSaves + c.failedConversions + c.failedFetches == |items|
  {
    if |items| > 0 {
      CountV2Partition(items[..|items| - 1], convert, save);
    }
  }

  /** A rendered document is never empty, so the truthiness test on it
      reduces to whether the record rendered. */
  lemma RenderedNonEmpty(item: FetchRecord, convert: string -> Option<string>)
    requires RenderGrant(item, convert).Some?
    ensures RenderGrant(item, convert).value.markdownContent != ""
  {
    RenderedLayout(item, convert);
    var r := RenderGrant(item, convert).value;
    assert r.markdownContent[0] == '#';
  }

  /** The "unknown" class counts exactly the records with neither content
      nor an error; a record with an error is never saved. */
  lemma ClassifyV2Spec(item: FetchRecord, convert: string -> Option<string>, save: (string, string) -> bool)
    requires item.link.Some?
    ensures ClassifyV2(item, convert, save) == NoContentNoError <==> item.contentData.None? && item.error.None?
    ensures ClassifyV2(item, convert, save) == ErrorRecorded <==> item.error.Some?
    ensures ClassifyV2(item, convert, save) in {Saved, SaveFailed} <==> HasContentOnly(item)
  {
    if RenderGrant(item, convert).Some? {
      RenderedNonEmpty(item, convert);
    }
  }

  // ---------------------------------------------------------------------
  // Search-API script: success and failure counters.

  /** The summary loop in the search-API script's main block. Every branch
      prints the record's link. */
  method SearchApiTally(fetched: seq<FetchRecord>) returns (successful: nat, failed: nat)
    requires forall i :: 0 <= i < |fetched| ==> fetched[i].link.Some?
    ensures successful == CountIf(fetched, HasContentOnly)
    ensures successful + failed == |fetched|
  {
    successful, failed := 0, 0;
    for i := 0 to |fetched|
      invariant successful == CountIf(fetched[..i], HasContentOnly)
      invariant successful + failed == i
    {
      assert fetched[..i + 1][..i] == fetched[..i];
      var item := fetched[i];
      if item.contentData.Some? && item.error.None? {
        successful := successful + 1;
      } else if item.error.Some? {
        failed := failed + 1;
      } else {
        failed := failed + 1;
      }
    }
    assert fetched[..|fetched|] == fetched;
  }

  /** Applied to what `fetch_content_for_items` returns, the success count
      is the number of valid links whose fetch returned content: the
      "unknown" branch is never taken. */
  lemma {:induction false} SuccessesAreFetches(links: seq<string>, fetch: string -> FetchOutcome, records: seq<FetchRecord>)
    requires |records| == |links|
    requires forall k :: 0 <= k < |records| ==> records[k] == RecordFor(links[k], fetch(ContentUrl(links[k])))
    ensures CountIf(records, HasContentOnly) == CountIf(links, (l: string) => fetch(ContentUrl(l)).Fetched?)
    ensures forall k :: 0 <= k < |records| ==> records[k].contentData.Some? || records[k].error.Some?
  {
    if |records| > 0 {
      SuccessesAreFetches(links[..|links| - 1], fetch, records[..|records| - 1]);
    }
  }
}
