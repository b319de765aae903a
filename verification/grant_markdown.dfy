/** Rendering one fetched grant record as a Markdown document (and, in the
    download script, the metadata stored beside it). The HTML-to-Markdown
    converter is a parameter: `None` stands for the converter raising. */
module GrantMarkdown {
  import opened Text
  import opened ContentFetch

  const NoTitle := "No Title"
  const NoDescription := "No Description"
  const NotAvailable := "N/A"
  const GovUkBase := "https://www.gov.uk"
  const ConversionError := "Error during Markdown conversion."
  const ChangeHistoryHeading := "\n## Change History"

  datatype GrantMetadata = GrantMetadata(title: string, url: string, description: string)

  /** The dictionary `{"markdown_content": ..., "metadata": ...}`. */
  datatype Rendered = Rendered(markdownContent: string, metadata: GrantMetadata)

  /** The Markdown body: empty for an empty HTML body, the converter's text
      stripped of surrounding whitespace, or a fixed text when it raises. */
  function BodyMarkdown(bodyHtml: string, convert: string -> Option<string>): (r: string)
    ensures r != "" ==> !IsSpace(r[0]) && !IsSpace(r[|r| - 1])
    ensures bodyHtml == "" ==> r == ""
  {
    if bodyHtml == "" then ""
    else match convert(bodyHtml)
      case None => ConversionError
      case Some(text) => Strip(text)
  }

  /** One change-history bullet; a missing timestamp or note reads "N/A". */
  function HistoryLine(e: ChangeEntry): string {
    "*   **" + e.publicTimestamp.GetOr(NotAvailable) + ":** " + Strip(e.note.GetOr(NotAvailable))
  }

  /** `change_history_md_parts`: nothing for an empty history, otherwise the
      heading and then one bullet per entry. */
  function HistoryParts(history: seq<ChangeEntry>): seq<string> {
    if |history| == 0 then [] else [ChangeHistoryHeading] + MapSeq(history, HistoryLine)
  }

  /** The history parts are empty for an empty history; otherwise the heading
      comes first and bullet `i + 1` renders entry `i`. */
  lemma HistoryPartsShape(history: seq<ChangeEntry>)
    ensures |history| == 0 ==> HistoryParts(history) == []
    ensures |history| > 0 ==> |HistoryParts(history)| == |history| + 1 && HistoryParts(history)[0] == ChangeHistoryHeading
    ensures |history| > 0 ==> forall i :: 0 <= i < |history| ==> HistoryParts(history)[i + 1] == HistoryLine(history[i])
  {
    MapSeqAfterHead(ChangeHistoryHeading, history, HistoryLine);
  }

  /** The loop building `change_history_md_parts`. */
  method ChangeHistoryParts(history: seq<ChangeEntry>) returns (parts: seq<string>)
    ensures parts == HistoryParts(history)
  {
    parts := [];
    if |history| > 0 {
      parts := parts + [ChangeHistoryHeading];
      for k := 0 to |history|
        invariant parts == [ChangeHistoryHeading] + MapSeq(history[..k], HistoryLine)
      {
        assert history[..k + 1][..k] == history[..k];
        var entry := history[k];
        var timestamp := entry.publicTimestamp.GetOr(NotAvailable);
        var note := entry.note.GetOr(NotAvailable);
        parts := parts + ["*   **" + timestamp + ":** " + Strip(note)];
      }
      assert history[..|history|] == history;
    }
  }

  /** The part of the document before the body: title, URL, description
      and the details heading. */
  function Preamble(title: string, url: string, description: string): string {
    "# " + title + "\n\n**URL:** " + url + "\n\n## Description\n\n" + description + "\n\n## Details\n\n"
  }

  /** The assembled document: the preamble, the body, then the change
      history between newlines, or a single newline. */
  function Markdown(title: string, url: string, description: string, body: string, historyMd: string): string {
    Preamble(title, url, description) + body + (if historyMd != "" then "\n" + historyMd + "\n" else "\n")
  }

  /** `convert_grant_data_to_metadata_and_markdown` as a value: nothing for a
      record with an error or without content, otherwise the document and its
      metadata, with the listed defaults for missing keys. */
  function RenderGrant(item: FetchRecord, convert: string -> Option<string>): (r: Option<Rendered>)
    ensures r.None? <==> item.error.Some? || item.contentData.None?
  {
    if item.error.Some? || item.contentData.None? then None
    else
      var content := item.contentData.value;
      var link := item.link.GetOr(NotAvailable);
      var title := content.title.GetOr(NoTitle);
      var description := content.description.GetOr(NoDescription);
      var details := content.details.GetOr(Details(None, None));
      var body := BodyMarkdown(details.body.GetOr(""), convert);
      var history := details.changeHistory.GetOr([]);
      Some(Rendered(Markdown(title, GovUkBase + link, description, body, Join(HistoryParts(history), "\n")),
                    GrantMetadata(title, GovUkBase + link, description)))
  }

  /** `convert_grant_data_to_metadata_and_markdown` (download script). */
  method ConvertGrantDataToMetadataAndMarkdown(item: FetchRecord, convert: string -> Option<string>)
    returns (r: Option<Rendered>)
    ensures r == RenderGrant(item, convert)
  {
    if item.error.Some? || item.contentData.None? {
      return None;
    }
    var content := item.contentData.value;
    var link := item.link.GetOr(NotAvailable);
    var title := content.title.GetOr(NoTitle);
    var description := content.description.GetOr(NoDescription);
    var details := content.details.GetOr(Details(None, None));
    var bodyHtml := details.body.GetOr("");
    var history := details.changeHistory.GetOr([]);
    var bodyMd := "";
    if bodyHtml != "" {
      match convert(bodyHtml)
      case None => bodyMd := ConversionError;
      case Some(text) => bodyMd := Strip(text);
    }
    assert bodyMd == BodyMarkdown(bodyHtml, convert);
    var parts := ChangeHistoryParts(history);
    var historyMd := Join(parts, "\n");
    var markdown := Preamble(title, GovUkBase + link, description) + bodyMd;
    if historyMd != "" {
      markdown := markdown + ("\n" + historyMd + "\n");
    } else {
      markdown := markdown + "\n";
    }
    assert markdown == Markdown(title, GovUkBase + link, description, bodyMd, historyMd);
    r := Some(Rendered(markdown, GrantMetadata(title, GovUkBase + link, description)));
  }

  /** `convert_grant_data_to_markdown` (search-API v2 script): the same
      document as the download script renders, without the metadata. */
  method ConvertGrantDataToMarkdown(item: FetchRecord, convert: string -> Option<string>)
    returns (r: Option<string>)
    ensures r.None? <==> item.error.Some? || item.contentData.None?
    ensures r.Some? ==> r.value == RenderGrant(item, convert).value.markdownContent
  {
    var rendered := ConvertGrantDataToMetadataAndMarkdown(item, convert);
    if rendered.None? {
      return None;
    }
    r := Some(rendered.value.markdownContent);
  }

  /** The history text is empty exactly when the history is. */
  lemma HistoryTextEmptyIff(history: seq<ChangeEntry>)
    ensures Join(HistoryParts(history), "\n") == "" <==> |history| == 0
  {
    if |history| > 0 {
      var parts := HistoryParts(history);
      assert Join(parts, "\n")[..|ChangeHistoryHeading|] == ChangeHistoryHeading;
    }
  }

  /** The rendered document opens with the title, the URL stored in the
      metadata and the description (all three as the metadata records them),
      continues with the body and always ends in a newline; the history, when
      present, sits between the body and that final newline. */
  lemma RenderedLayout(item: FetchRecord, convert: string -> Option<string>)
    requires RenderGrant(item, convert).Some?
    ensures var r := RenderGrant(item, convert).value;
      var content := item.contentData.value;
      var details := content.details.GetOr(Details(None, None));
      var body := BodyMarkdown(details.body.GetOr(""), convert);
      var history := details.changeHistory.GetOr([]);
      && r.metadata.url == GovUkBase + item.link.GetOr(NotAvailable)
      && r.metadata.title == content.title.GetOr(NoTitle)
      && r.metadata.description == content.description.GetOr(NoDescription)
      && r.markdownContent == Preamble(r.metadata.title, r.metadata.url, r.metadata.description) + body
           + (if |history| == 0 then "\n" else "\n" + Join(HistoryParts(history), "\n") + "\n")
      && EndsWith(r.markdownContent, "\n")
  {
    var details := item.contentData.value.details.GetOr(Details(None, None));
    HistoryTextEmptyIff(details.changeHistory.GetOr([]));
  }

  /** In an assembled document with a non-empty history, the first bullet
      directly follows the heading, and each bullet is directly followed by
      the next entry's. */
  lemma MarkdownHistoryInOrder(title: string, url: string, description: string, body: string,
                               history: seq<ChangeEntry>, i: nat)
    requires i < |history|
    ensures var md := Markdown(title, url, description, body, Join(HistoryParts(history), "\n"));
      && Contains(md, ChangeHistoryHeading + "\n" + HistoryLine(history[0]))
      && (i + 1 < |history| ==> Contains(md, HistoryLine(history[i]) + "\n" + HistoryLine(history[i + 1])))
  {
    var parts := HistoryParts(history);
    HistoryTextEmptyIff(history);
    var pre := Preamble(title, url, description) + body;
    assert parts[0] == ChangeHistoryHeading && parts[1] == HistoryLine(history[0]);
    AdjacentPartsInText(pre, parts, 0);
    if i + 1 < |history| {
      assert parts[i + 1] == HistoryLine(history[i]) && parts[i + 2] == HistoryLine(history[i + 1]);
      AdjacentPartsInText(pre, parts, i + 1);
    }
  }

  /** Two adjacent lines of a newline-joined list, placed between newlines
      after some prefix, still appear one after the other. */
  lemma AdjacentPartsInText(pre: string, parts: seq<string>, i: nat)
    requires i + 1 < |parts|
    ensures Contains(pre + ("\n" + Join(parts, "\n") + "\n"), parts[i] + "\n" + parts[i + 1])
  {
    JoinAdjacent(parts, "\n", i);
    ContainsBetweenNewlines(pre, Join(parts, "\n"), parts[i] + "\n" + parts[i + 1]);
  }

  lemma ContainsBetweenNewlines(pre: string, text: string, sub: string)
    requires Contains(text, sub)
    ensures Contains(pre + ("\n" + text + "\n"), sub)
  {
    var k := ContainsWitness(text, sub);
    var s := pre + ("\n" + text + "\n");
    assert s[|pre| + 1 + k..|pre| + 1 + k + |sub|] == text[k..k + |sub|];
    ContainsAt(s, sub, |pre| + 1 + k);
  }

  /** Change-history bullets keep the history's order in the rendered
      document. */
  lemma HistoryInOrder(item: FetchRecord, convert: string -> Option<string>, i: nat)
    requires RenderGrant(item, convert).Some?
    requires var history := item.contentData.value.details.GetOr(Details(None, None)).changeHistory.GetOr([]);
      i < |history|
    ensures var r := RenderGrant(item, convert).value;
      var history := item.contentData.value.details.GetOr(Details(None, None)).changeHistory.GetOr([]);
      && Contains(r.markdownContent, ChangeHistoryHeading + "\n" + HistoryLine(history[0]))
      && (i + 1 < |history| ==> Contains(r.markdownContent, HistoryLine(history[i]) + "\n" + HistoryLine(history[i + 1])))
  {
    var content := item.contentData.value;
    var details := content.details.GetOr(Details(None, None));
    var url := GovUkBase + item.link.GetOr(NotAvailable);
    MarkdownHistoryInOrder(content.title.GetOr(NoTitle), url, content.description.GetOr(NoDescription),
                           BodyMarkdown(details.body.GetOr(""), convert), details.changeHistory.GetOr([]), i);
  }

  /** A record whose content has none of the keys read renders with every
      default: "No Title", "No Description", an empty body and no history. */
  lemma EmptyContentDefaults(link: string, convert: string -> Option<string>)
    ensures RenderGrant(FetchRecord(Some(link), None, Some(ContentData(None, None, None)), None), convert)
            == Some(Rendered(Preamble(NoTitle, GovUkBase + link, NoDescription) + "\n",
                             GrantMetadata(NoTitle, GovUkBase + link, NoDescription)))
  {
    assert Join(HistoryParts([]), "\n") == "";
    var pre := Preamble(NoTitle, GovUkBase + link, NoDescription);
    assert Markdown(NoTitle, GovUkBase + link, NoDescription, "", "") == pre + "" + "\n";
    assert pre + "" == pre;
  }
}
