/** The "Sources:" block of `generate`: one `"title: url"` line per distinct
    pair whose url is non-empty, sorted as Python sorts strings (by code
    point), joined with newlines, or a fixed text when there is none. */
module Citations {
  import opened Text
  import opened Conversation

  const NoSources := "No sources found."
  const UnknownTitle := "Unknown Title"

  /** Python's `a < b` on strings: lexicographic by code point, a proper
      prefix sorting first. */
  predicate Below(a: string, b: string) {
    if |a| == 0 then |b| > 0
    else if |b| == 0 then false
    else if a[0] == b[0] then Below(a[1..], b[1..])
    else a[0] < b[0]
  }

  lemma {:induction false} BelowIrreflexive(a: string)
    ensures !Below(a, a)
  {
    if |a| > 0 { BelowIrreflexive(a[1..]); }
  }

  lemma {:induction false} BelowTransitive(a: string, b: string, c: string)
    requires Below(a, b) && Below(b, c)
    ensures Below(a, c)
  {
    if |a| > 0 && |b| > 0 && |c| > 0 && a[0] == b[0] && b[0] == c[0] {
      BelowTransitive(a[1..], b[1..], c[1..]);
    }
  }

  lemma {:induction false} BelowTotal(a: string, b: string)
    ensures a == b || Below(a, b) || Below(b, a)
  {
    if |a| > 0 && |b| > 0 && a[0] == b[0] {
      BelowTotal(a[1..], b[1..]);
      if a[1..] == b[1..] {
        assert a == [a[0]] + a[1..] && b == [b[0]] + b[1..];
      }
    }
  }

  lemma BelowAsymmetric(a: string, b: string)
    requires Below(a, b)
    ensures !Below(b, a)
  {
    if Below(b, a) {
      BelowTransitive(a, b, a);
      BelowIrreflexive(a);
    }
  }

  predicate StrictlySorted(s: seq<string>) {
    forall i, j :: 0 <= i < j < |s| ==> Below(s[i], s[j])
  }

  /** Inserts `x` into a strictly sorted list unless it is already there. */
  function Insert(x: string, s: seq<string>): (r: seq<string>)
    requires StrictlySorted(s)
    ensures StrictlySorted(r)
    ensures forall y :: y in r <==> y == x || y in s
  {
    if |s| == 0 then [x]
    else if x == s[0] then s
    else if Below(x, s[0]) then
      assert forall j :: 0 < j < |s| ==> Below(x, s[j]) by {
        forall j | 0 < j < |s| ensures Below(x, s[j]) { BelowTransitive(x, s[0], s[j]); }
      }
      [x] + s
    else
      BelowTotal(x, s[0]);
      var rest := Insert(x, s[1..]);
      assert forall y :: y in rest ==> Below(s[0], y);
      [s[0]] + rest
  }

  /** `sorted(set(lines))`, built by insertion. */
  function SortedUnique(lines: seq<string>): (r: seq<string>)
    ensures StrictlySorted(r)
    ensures forall y :: y in r <==> y in lines
  {
    if |lines| == 0 then []
    else
      var rest := SortedUnique(lines[..|lines| - 1]);
      assert forall y :: y in lines <==> y in lines[..|lines| - 1] || y == lines[|lines| - 1] by {
        assert lines == lines[..|lines| - 1] + [lines[|lines| - 1]];
      }
      Insert(lines[|lines| - 1], rest)
  }

  /** The first element of a strictly sorted list is below every other one. */
  lemma FirstIsLeast(s: seq<string>)
    requires StrictlySorted(s)
    ensures forall k :: 0 < k < |s| ==> Below(s[0], s[k])
  {
  }

  lemma NotBelowBothWays(x: string, y: string)
    ensures !(Below(x, y) && Below(y, x))
  {
    if Below(x, y) { BelowAsymmetric(x, y); }
  }

  /** There is only one strictly sorted list of a given set of strings, so
      `SortedUnique` computes exactly Python's `sorted` of that set. */
  lemma {:induction false} SortedListIsUnique(a: seq<string>, b: seq<string>)
    requires StrictlySorted(a) && StrictlySorted(b)
    requires forall y :: y in a <==> y in b
    ensures a == b
  {
    assert |a| > 0 ==> a[0] in b;
    assert |b| > 0 ==> b[0] in a;
    if |a| > 0 && |b| > 0 {
      FirstIsLeast(a);
      FirstIsLeast(b);
      NotBelowBothWays(a[0], b[0]);
      BelowIrreflexive(a[0]);
      BelowIrreflexive(b[0]);
      assert a[0] == b[0];
      forall y ensures y in a[1..] <==> y in b[1..] {
        BelowIrreflexive(y);
        assert y in a[1..] <==> y in a && y != a[0];
        assert y in b[1..] <==> y in b && y != b[0];
      }
      SortedListIsUnique(a[1..], b[1..]);
      assert a == [a[0]] + a[1..] && b == [b[0]] + b[1..];
    }
  }

  /** The citation line of one document: `metadata.get("url")` must be
      truthy; the title defaults to "Unknown Title". */
  function CitationLine(d: Document): Option<string> {
    if "url" in d.metadata && d.metadata["url"] != "" then
      Some((if "title" in d.metadata then d.metadata["title"] else UnknownTitle) + ": " + d.metadata["url"])
    else None
  }

  /** The qualifying lines in document order, duplicates included. */
  function CitationLines(docs: seq<Document>): (lines: seq<string>)
    ensures forall y :: y in lines <==> exists d :: d in docs && CitationLine(d) == Some(y)
  {
    if |docs| == 0 then []
    else
      var d := docs[|docs| - 1];
      var rest := CitationLines(docs[..|docs| - 1]);
      assert forall e :: e in docs <==> e in docs[..|docs| - 1] || e == d by {
        assert docs == docs[..|docs| - 1] + [d];
      }
      rest + (if CitationLine(d).Some? then [CitationLine(d).value] else [])
  }

  /** `collect_sources`: the fixed text stands exactly for "no document has
      a url"; it can never be mistaken for a listing. */
  function CollectSources(docs: seq<Document>): (r: string)
    ensures r == NoSources <==> forall d :: d in docs ==> CitationLine(d).None?
  {
    var lines := SortedUnique(CitationLines(docs));
    if |lines| == 0 then NoSources
    else
      assert lines[0] in CitationLines(docs);
      ListingIsNotNoSources(lines, docs);
      Join(lines, "\n")
  }

  /** A listing starts with a citation line, which holds a `:`; the fixed
      text holds none. */
  lemma ListingIsNotNoSources(lines: seq<string>, docs: seq<Document>)
    requires |lines| > 0 && exists d :: d in docs && CitationLine(d) == Some(lines[0])
    ensures Join(lines, "\n") != NoSources
  {
    var d :| d in docs && CitationLine(d) == Some(lines[0]);
    var k := CitationLineHasColon(d);
    JoinStartsWithFirst(lines, "\n");
    var j := Join(lines, "\n");
    assert j[k] == lines[0][k];
    NoColonInNoSources();
  }

  lemma CitationLineHasColon(d: Document) returns (k: nat)
    requires CitationLine(d).Some?
    ensures k < |CitationLine(d).value| && CitationLine(d).value[k] == ':'
  {
    var title := if "title" in d.metadata then d.metadata["title"] else UnknownTitle;
    var url := d.metadata["url"];
    assert CitationLine(d).value == title + ": " + url;
    k := |title|;
  }

  lemma NoColonInNoSources()
    ensures ':' !in NoSources
  {
  }

  /** The sources text is the newline-joined strictly sorted list of exactly
      the distinct citation lines of the documents, or "No sources found."
      when no document has a url; any strictly sorted listing of that set is
      the one the block shows. */
  lemma CollectSourcesSpec(docs: seq<Document>, listing: seq<string>)
    requires StrictlySorted(listing)
    requires forall y :: y in listing <==> exists d :: d in docs && CitationLine(d) == Some(y)
    ensures CollectSources(docs) == if |listing| == 0 then NoSources else Join(listing, "\n")
  {
    SortedListIsUnique(SortedUnique(CitationLines(docs)), listing);
  }

  function PageTexts(docs: seq<Document>): (texts: seq<string>)
    ensures |texts| == |docs| && forall i :: 0 <= i < |docs| ==> texts[i] == docs[i].pageContent
  {
    seq(|docs|, i requires 0 <= i < |docs| => docs[i].pageContent)
  }

  lemma FormatDocsAdjacent(docs: seq<Document>)
    ensures forall i :: 0 <= i < |docs| - 1 ==>
              Contains(Join(PageTexts(docs), "\n\n"), docs[i].pageContent + "\n\n" + docs[i + 1].pageContent)
  {
    var texts := PageTexts(docs);
    forall i | 0 <= i < |docs| - 1
      ensures Contains(Join(texts, "\n\n"), docs[i].pageContent + "\n\n" + docs[i + 1].pageContent)
    {
      JoinAdjacent(texts, "\n\n", i);
    }
  }

  /** `format_docs`: page texts joined by blank lines. The context is empty
      without documents, is the page text of a single document, and shows
      each document's text directly followed, after a blank line, by the
      next one's. */
  function FormatDocs(docs: seq<Document>): (r: string)
    ensures |docs| == 0 ==> r == ""
    ensures |docs| == 1 ==> r == docs[0].pageContent
    ensures forall i :: 0 <= i < |docs| - 1 ==> Contains(r, docs[i].pageContent + "\n\n" + docs[i + 1].pageContent)
  {
    FormatDocsAdjacent(docs);
    Join(PageTexts(docs), "\n\n")
  }
}
