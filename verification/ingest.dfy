/** Loading processed grants into the vector store: turning the processed
    records into documents, then adding the document chunks in batches,
    retrying a batch on rate-limit errors with a doubling delay. The store's
    `add_documents` is a parameter: the outcome of its n-th call, `None` for
    success or the text of the exception raised. */
module Ingest {
  import opened Text
  import opened Conversation

  // ---------------------------------------------------------------------
  // create_langchain_documents

  /** A JSON metadata value: null, a string, or anything else, carried with
      the text Python's `str` gives it. */
  datatype JsonValue = JNull | JString(s: string) | JOther(rendered: string)

  /** `str(v) if v is not None else ""`. */
  function StrValue(v: JsonValue): string {
    match v
    case JNull => ""
    case JString(s) => s
    case JOther(rendered) => rendered
  }

  /** One record of the processed JSON file; an absent key is `None`. */
  datatype ProcessedItem = ProcessedItem(markdownContent: Option<string>, metadata: Option<map<string, JsonValue>>)

  predicate IsWellFormed(item: ProcessedItem) {
    item.markdownContent.Some? && item.metadata.Some?
  }

  function NormaliseMetadata(m: map<string, JsonValue>): map<string, string> {
    map k | k in m :: StrValue(m[k])
  }

  function ToDocument(item: ProcessedItem): Document
    requires IsWellFormed(item)
  {
    Document(item.markdownContent.value, NormaliseMetadata(item.metadata.value))
  }

  /** The document a well-formed record becomes. */
  function DocumentOf(item: ProcessedItem): Option<Document> {
    if IsWellFormed(item) then Some(ToDocument(item)) else None
  }

  /** The documents of the well-formed records, in input order. */
  function KeptDocuments(items: seq<ProcessedItem>): seq<Document> {
    FilterMap(items, DocumentOf)
  }

  /** `create_langchain_documents`. */
  method CreateLangchainDocuments(processedData: seq<ProcessedItem>) returns (documents: seq<Document>)
    ensures documents == KeptDocuments(processedData)
    ensures |documents| == CountIf(processedData, IsWellFormed)
  {
    documents := [];
    for i := 0 to |processedData|
      invariant documents == KeptDocuments(processedData[..i])
    {
      assert processedData[..i + 1][..i] == processedData[..i];
      var item := processedData[i];
      if item.markdownContent.Some? && item.metadata.Some? {
        var metadata := map k | k in item.metadata.value :: StrValue(item.metadata.value[k]);
        documents := documents + [Document(item.markdownContent.value, metadata)];
      }
    }
    assert processedData[..|processedData|] == processedData;
    FilterMapCount(processedData, DocumentOf, IsWellFormed);
  }

  /** Metadata keeps its keys; nulls become empty strings and strings are
      kept as they are. */
  lemma NormaliseMetadataSpec(m: map<string, JsonValue>)
    ensures NormaliseMetadata(m).Keys == m.Keys
    ensures forall k :: k in m && m[k] == JNull ==> NormaliseMetadata(m)[k] == ""
    ensures forall k, s :: k in m && m[k] == JString(s) ==> NormaliseMetadata(m)[k] == s
  {
  }

  /** Exactly the well-formed records become documents, each with the
      record's Markdown as its text. */
  lemma KeptDocumentsSpec(items: seq<ProcessedItem>)
    ensures forall d :: d in KeptDocuments(items) <==>
              exists item :: item in items && IsWellFormed(item) && d == ToDocument(item)
  {
    FilterMapMembers(items, DocumentOf);
  }

  // ---------------------------------------------------------------------
  // Batches: doc_splits[i : i + batch_size] for i in range(0, n, batch_size)

  function Min(a: int, b: int): int {
    if a <= b then a else b
  }

  /** The batches, front to back; there is none exactly when there is no
      document. */
  function Batches(docs: seq<Document>, size: nat): (r: seq<seq<Document>>)
    requires size > 0
    ensures |r| == 0 <==> |docs| == 0
    decreases |docs|
  {
    if |docs| == 0 then []
    else [docs[..Min(size, |docs|)]] + Batches(docs[Min(size, |docs|)..], size)
  }

  function Flatten(batches: seq<seq<Document>>): seq<Document> {
    if |batches| == 0 then [] else batches[0] + Flatten(batches[1..])
  }

  /** The batches, joined back together, are the documents in order. */
  lemma {:induction false} BatchesFlatten(docs: seq<Document>, size: nat)
    requires size > 0
    ensures Flatten(Batches(docs, size)) == docs
    decreases |docs|
  {
    if |docs| > 0 {
      var m := Min(size, |docs|);
      BatchesFlatten(docs[m..], size);
      assert docs == docs[..m] + docs[m..];
    }
  }

  /** No batch is empty and none is longer than the batch size. */
  lemma {:induction false} BatchesSizes(docs: seq<Document>, size: nat)
    requires size > 0
    ensures forall k :: 0 <= k < |Batches(docs, size)| ==> 0 < |Batches(docs, size)[k]| <= size
    decreases |docs|
  {
    if |docs| > 0 {
      BatchesSizes(docs[Min(size, |docs|)..], size);
    }
  }

  /** There are `ceil(n / size)` batches: enough to hold the documents, and
      one fewer would not be. */
  lemma BatchesCount(docs: seq<Document>, size: nat)
    requires size > 0
    ensures (|Batches(docs, size)| - 1) * size < |docs| <= |Batches(docs, size)| * size
    ensures |Batches(docs, size)| == (|docs| + size - 1) / size
  {
    BatchesBounds(docs, size);
    CeilDiv(|docs|, size, |Batches(docs, size)|);
  }

  lemma {:induction false} BatchesBounds(docs: seq<Document>, size: nat)
    requires size > 0
    ensures (|Batches(docs, size)| - 1) * size < |docs| <= |Batches(docs, size)| * size
    decreases |docs|
  {
    if |docs| > 0 {
      var m := Min(size, |docs|);
      var c' := |Batches(docs[m..], size)|;
      assert |Batches(docs, size)| == c' + 1;
      BatchesBounds(docs[m..], size);
      MulSucc(c', size);
      MulSucc(c' - 1, size);
      if c' == 0 {
        MulSucc(-1, size);
      }
    }
  }

  lemma MulSucc(c: int, size: int)
    ensures (c + 1) * size == c * size + size
  {
  }

  lemma CeilDiv(n: nat, size: nat, c: int)
    requires size > 0 && (c - 1) * size < n <= c * size
    ensures c == (n + size - 1) / size
  {
    var q := (n + size - 1) / size;
    var r := (n + size - 1) % size;
    assert n + size - 1 == q * size + r && 0 <= r < size;
    MulMono(q, c - 1, size);
    MulMono(c + 1, q, size);
  }

  lemma MulMono(a: int, b: int, s: nat)
    ensures a <= b ==> a * s <= b * s
  {
    if a <= b {
      assert b * s == a * s + (b - a) * s;
    }
  }

  lemma SliceOfSuffix<T>(s: seq<T>, m: nat, a: nat, b: nat)
    requires m <= |s| && a <= b <= |s| - m
    ensures s[m..][a..b] == s[m + a..m + b]
  {
  }

  /** Batch `k` is the slice starting at `k * size`, cut at the end of the
      list: the slices `range(0, n, size)` produces. */
  lemma {:induction false} BatchAt(docs: seq<Document>, size: nat, k: nat)
    requires size > 0 && k < |Batches(docs, size)|
    ensures k * size < |docs|
    ensures Batches(docs, size)[k] == docs[k * size..Min(k * size + size, |docs|)]
    decreases k
  {
    var m := Min(size, |docs|);
    var rest := docs[m..];
    assert Batches(docs, size) == [docs[..m]] + Batches(rest, size);
    if k > 0 {
      assert Batches(docs, size)[k] == Batches(rest, size)[k - 1];
      var j := (k - 1) * size;
      BatchAt(rest, size, k - 1);
      MulSucc(k - 1, size);
      assert k * size == j + size;
      assert m == size;
      var hi := Min(j + size, |rest|);
      SliceOfSuffix(docs, m, j, hi);
      assert m + hi == Min(k * size + size, |docs|);
    }
  }

  // ---------------------------------------------------------------------
  // ingest_to_vectorstore

  /** What happened to one batch: stored, skipped after the retries ran out,
      or the non-rate-limit error that stopped the ingestion. */
  datatype BatchOutcome =
    | Added(batch: seq<Document>)
    | Skipped(batch: seq<Document>)
    | Failed(batch: seq<Document>, error: string)

  /** The effects so far: calls made to the store, the current delay, the
      delays slept, and one outcome per batch handled. */
  datatype Ledger = Ledger(calls: nat, backoff: int, sleeps: seq<int>, outcomes: seq<BatchOutcome>)

  /** The test the retry loop applies to the text of an exception. */
  predicate RateLimited(e: string) {
    Contains(e, "429")
  }

  /** What sleeping for a negative time raises. */
  const NegativeSleep := "sleep length must be non-negative"

  /** Retrying one batch from attempt number `retries`: success records the
      batch as added, a rate-limit error sleeps for the current delay,
      doubles it and tries again, any other error (or a negative delay,
      which `sleep` rejects) escapes, and running out of retries skips the
      batch. */
  function Attempt(batch: seq<Document>, retries: int, maxRetries: int, l: Ledger, add: nat -> Option<string>): (r: Ledger)
    ensures |r.outcomes| == |l.outcomes| + 1 && r.outcomes[..|l.outcomes|] == l.outcomes
    ensures r.outcomes[|l.outcomes|].batch == batch
    ensures l.calls <= r.calls
    decreases maxRetries - retries + 1
  {
    if retries > maxRetries then l.(outcomes := l.outcomes + [Skipped(batch)])
    else match add(l.calls)
      case None => l.(calls := l.calls + 1, outcomes := l.outcomes + [Added(batch)])
      case Some(e) =>
        if !RateLimited(e) then l.(calls := l.calls + 1, outcomes := l.outcomes + [Failed(batch, e)])
        else if l.backoff < 0 then l.(calls := l.calls + 1, outcomes := l.outcomes + [Failed(batch, NegativeSleep)])
        else
          Attempt(batch, retries + 1, maxRetries,
                  l.(calls := l.calls + 1, sleeps := l.sleeps + [l.backoff], backoff := l.backoff * 2), add)
  }

  /** Handling the remaining batches in order until one fails. */
  function Drain(batches: seq<seq<Document>>, maxRetries: int, l: Ledger, add: nat -> Option<string>): Ledger
    decreases |batches|
  {
    if |batches| == 0 then l
    else
      var next := Attempt(batches[0], 0, maxRetries, l, add);
      if next.outcomes[|next.outcomes| - 1].Failed? then next
      else Drain(batches[1..], maxRetries, next, add)
  }

  const RangeStepZero := "range() arg 3 must not be zero"

  /** How a call of `ingest_to_vectorstore` ends: nothing to ingest, no
      store, or a run with its effects and the error the outer handler
      caught, if any. */
  datatype IngestResult = NothingToIngest | StoreMissing | Ran(ledger: Ledger, error: Option<string>)

  /** The error that stopped a run: that of its last outcome, if it failed. */
  function RunError(l: Ledger): Option<string> {
    if |l.outcomes| > 0 && l.outcomes[|l.outcomes| - 1].Failed? then Some(l.outcomes[|l.outcomes| - 1].error)
    else None
  }

  /** What `ingest_to_vectorstore` does: no chunks and no store return
      early; a batch size that is not positive makes no call to the store
      and sleeps not at all, and only a zero one reports the `range` error;
      otherwise the batches run in order. */
  function IngestSpec(docSplits: seq<Document>, storeReady: bool, batchSize: int, maxRetries: int,
                      backoff: int, add: nat -> Option<string>): (r: IngestResult)
    ensures r.NothingToIngest? <==> |docSplits| == 0
    ensures r.StoreMissing? <==> |docSplits| > 0 && !storeReady
    ensures r.Ran? && batchSize <= 0 ==>
              && r.ledger == Ledger(0, backoff, [], [])
              && (r.error.Some? <==> batchSize == 0)
              && (r.error.Some? ==> r.error.value == RangeStepZero)
  {
    var start := Ledger(0, backoff, [], []);
    if |docSplits| == 0 then NothingToIngest
    else if !storeReady then StoreMissing
    else if batchSize == 0 then Ran(start, Some(RangeStepZero))
    else if batchSize < 0 then Ran(start, None)
    else
      var l := Drain(Batches(docSplits, batchSize), maxRetries, start, add);
      Ran(l, RunError(l))
  }

  /** The retry loop for one batch (the `while ... else` of
      `ingest_to_vectorstore`), from the given effects so far. */
  method AddBatch(batch: seq<Document>, maxRetries: int, start: Ledger, add: nat -> Option<string>)
    returns (l: Ledger)
    ensures l == Attempt(batch, 0, maxRetries, start, add)
  {
    var calls, backoff, sleeps := start.calls, start.backoff, start.sleeps;
    var retries := 0;
    while retries <= maxRetries
      invariant 0 <= retries
      invariant Attempt(batch, 0, maxRetries, start, add)
                == Attempt(batch, retries, maxRetries, Ledger(calls, backoff, sleeps, start.outcomes), add)
      decreases maxRetries - retries
    {
      var result := add(calls);
      calls := calls + 1;
      if result.None? {
        return Ledger(calls, backoff, sleeps, start.outcomes + [Added(batch)]);
      }
      if Contains(result.value, "429") {
        retries := retries + 1;
        if backoff < 0 {
          return Ledger(calls, backoff, sleeps, start.outcomes + [Failed(batch, NegativeSleep)]);
        }
        sleeps := sleeps + [backoff];
        backoff := backoff * 2;
      } else {
        // Re-raised; the caller's outer handler stops the ingestion.
        return Ledger(calls, backoff, sleeps, start.outcomes + [Failed(batch, result.value)]);
      }
    }
    // The loop's `else`: the retries ran out.
    l := Ledger(calls, backoff, sleeps, start.outcomes + [Skipped(batch)]);
  }

  /** The `for` loop over the batches of `ingest_to_vectorstore`: each batch
      in turn, leaving at the first failure, which the outer handler
      catches. */
  method AddBatches(docSplits: seq<Document>, batchSize: nat, maxRetries: int, start: Ledger,
                    add: nat -> Option<string>)
    returns (l: Ledger)
    requires batchSize > 0
    ensures l == Drain(Batches(docSplits, batchSize), maxRetries, start, add)
  {
    l := start;
    ghost var goal := Drain(Batches(docSplits, batchSize), maxRetries, l, add);
    assert docSplits[Min(0, |docSplits|)..] == docSplits;
    var i := 0;
    while i < |docSplits|
      invariant 0 <= i
      invariant goal == Drain(Batches(docSplits[Min(i, |docSplits|)..], batchSize), maxRetries, l, add)
      decreases |docSplits| - i
    {
      var batch := docSplits[i..Min(i + batchSize, |docSplits|)];
      DrainNext(docSplits, batchSize, i, maxRetries, l, add);
      l := AddBatch(batch, maxRetries, l, add);
      if l.outcomes[|l.outcomes| - 1].Failed? {
        return;
      }
      i := i + batchSize;
    }
    assert docSplits[Min(i, |docSplits|)..] == [];
  }

  /** `ingest_to_vectorstore`; `storeReady` is whether the store was
      initialised. */
  method IngestToVectorstore(docSplits: seq<Document>, storeReady: bool, batchSize: int, maxRetries: int,
                             backoff: int, add: nat -> Option<string>)
    returns (r: IngestResult)
    ensures r == IngestSpec(docSplits, storeReady, batchSize, maxRetries, backoff, add)
  {
    if |docSplits| == 0 {
      return NothingToIngest;
    }
    if !storeReady {
      return StoreMissing;
    }
    var l := Ledger(0, backoff, [], []);
    if batchSize == 0 {
      // `range` rejects a zero step; the outer handler catches it.
      return Ran(l, Some(RangeStepZero));
    }
    if batchSize < 0 {
      // An empty range: no batch at all.
      return Ran(l, None);
    }
    l := AddBatches(docSplits, batchSize, maxRetries, l, add);
    var error := None;
    if |l.outcomes| > 0 && l.outcomes[|l.outcomes| - 1].Failed? {
      error := Some(l.outcomes[|l.outcomes| - 1].error);
    }
    r := Ran(l, error);
  }

  /** The first batch of the documents from `i` on is the slice the loop
      takes at `i`, and the rest are the batches from `i + size` on. */
  lemma NextBatch(docs: seq<Document>, size: nat, i: nat)
    requires size > 0 && i < |docs|
    ensures Batches(docs[i..], size)[0] == docs[i..Min(i + size, |docs|)]
    ensures Batches(docs[i..], size)[1..] == Batches(docs[Min(i + size, |docs|)..], size)
  {
    var m := Min(size, |docs| - i);
    assert docs[i..][..m] == docs[i..Min(i + size, |docs|)];
    assert docs[i..][m..] == docs[i + m..];
  }

  /** One turn of the batch loop: the remaining run is the attempt at the
      batch at `i`, then, unless it failed, the run from `i + size`. */
  lemma DrainNext(docs: seq<Document>, size: nat, i: nat, maxRetries: int, l: Ledger, add: nat -> Option<string>)
    requires size > 0 && i < |docs|
    ensures var next := Attempt(docs[i..Min(i + size, |docs|)], 0, maxRetries, l, add);
            Drain(Batches(docs[Min(i, |docs|)..], size), maxRetries, l, add)
            == if next.outcomes[|next.outcomes| - 1].Failed? then next
               else Drain(Batches(docs[Min(i + size, |docs|)..], size), maxRetries, next, add)
  {
    NextBatch(docs, size, i);
  }

  // ---------------------------------------------------------------------
  // Properties of the retry loop and the batch loop

  /** The store call `j` raised a rate-limit error. */
  predicate RateLimitedCall(add: nat -> Option<string>, j: nat) {
    add(j).Some? && RateLimited(add(j).value)
  }

  function MaxCalls(retries: int, maxRetries: int): nat {
    if maxRetries - retries + 1 > 0 then maxRetries - retries + 1 else 0
  }

  /** One batch from attempt `retries` on makes at most `maxRetries -
      retries + 1` calls, every one but the last rate-limited; it is added
      exactly when the last call succeeded, fails with the last call's own
      error when that was not a rate limit (or with the `sleep` error when
      the delay was negative), and is skipped only after the full number of
      calls, all rate-limited. One delay is slept per rate-limited call that
      is retried. */
  lemma {:induction false} AttemptSpec(batch: seq<Document>, retries: int, maxRetries: int, l: Ledger,
                                       add: nat -> Option<string>)
    ensures var r := Attempt(batch, retries, maxRetries, l, add);
            var o := r.outcomes[|l.outcomes|];
            && r.calls - l.calls <= MaxCalls(retries, maxRetries)
            && (forall j: nat :: l.calls <= j < r.calls - 1 ==> RateLimitedCall(add, j))
            && (o.Added? <==> r.calls > l.calls && add(r.calls - 1).None?)
            && (o.Failed? ==> r.calls > l.calls && add(r.calls - 1).Some?
                              && (if RateLimited(add(r.calls - 1).value)
                                  then o.error == NegativeSleep && r.backoff < 0
                                  else o.error == add(r.calls - 1).value))
            && (o.Skipped? ==> r.calls - l.calls == MaxCalls(retries, maxRetries)
                               && forall j: nat :: l.calls <= j < r.calls ==> RateLimitedCall(add, j))
            && |l.sleeps| <= |r.sleeps| && r.sleeps[..|l.sleeps|] == l.sleeps
            && |r.sleeps| - |l.sleeps| == if o.Skipped? then r.calls - l.calls else r.calls - l.calls - 1
    decreases maxRetries - retries + 1
  {
    var r := Attempt(batch, retries, maxRetries, l, add);
    if retries <= maxRetries && add(l.calls).Some? && RateLimited(add(l.calls).value) && l.backoff >= 0 {
      var l' := l.(calls := l.calls + 1, sleeps := l.sleeps + [l.backoff], backoff := l.backoff * 2);
      AttemptSpec(batch, retries + 1, maxRetries, l', add);
      assert r.sleeps[..|l'.sleeps|][..|l.sleeps|] == r.sleeps[..|l.sleeps|];
    }
  }

  function Pow2(k: nat): nat {
    if k == 0 then 1 else 2 * Pow2(k - 1)
  }

  /** The delays so far follow the doubling from `b0`: the `j`-th sleep is
      `b0 * 2^j` and the next one will be `b0 * 2^(number slept)`. */
  ghost predicate Geometric(l: Ledger, b0: int) {
    && l.backoff == b0 * Pow2(|l.sleeps|)
    && forall j :: 0 <= j < |l.sleeps| ==> l.sleeps[j] == b0 * Pow2(j)
  }

  lemma {:induction false} AttemptGeometric(batch: seq<Document>, retries: int, maxRetries: int, l: Ledger,
                                            add: nat -> Option<string>, b0: int)
    requires Geometric(l, b0)
    ensures Geometric(Attempt(batch, retries, maxRetries, l, add), b0)
    decreases maxRetries - retries + 1
  {
    if retries <= maxRetries && add(l.calls).Some? && RateLimited(add(l.calls).value) && l.backoff >= 0 {
      var l' := l.(calls := l.calls + 1, sleeps := l.sleeps + [l.backoff], backoff := l.backoff * 2);
      assert l'.backoff == b0 * Pow2(|l'.sleeps|) by {
        assert Pow2(|l'.sleeps|) == 2 * Pow2(|l.sleeps|);
      }
      AttemptGeometric(batch, retries + 1, maxRetries, l', add, b0);
    }
  }

  /** The delay is never reset between batches: across a whole run the
      sleeps are `b0, 2 b0, 4 b0, ...`. */
  lemma {:induction false} DrainGeometric(batches: seq<seq<Document>>, maxRetries: int, l: Ledger,
                                          add: nat -> Option<string>, b0: int)
    requires Geometric(l, b0)
    ensures Geometric(Drain(batches, maxRetries, l, add), b0)
    decreases |batches|
  {
    if |batches| > 0 {
      AttemptGeometric(batches[0], 0, maxRetries, l, add, b0);
      DrainGeometric(batches[1..], maxRetries, Attempt(batches[0], 0, maxRetries, l, add), add, b0);
    }
  }

  /** The batches are handled in order, each at most once; only the last
      handled batch can have failed, and the run handles every batch
      unless one failed. */
  lemma {:induction false} DrainOutcomes(batches: seq<seq<Document>>, maxRetries: int, l: Ledger,
                                         add: nat -> Option<string>)
    ensures var r := Drain(batches, maxRetries, l, add);
            && |l.outcomes| <= |r.outcomes| <= |l.outcomes| + |batches|
            && r.outcomes[..|l.outcomes|] == l.outcomes
            && (forall k :: |l.outcomes| <= k < |r.outcomes| ==> r.outcomes[k].batch == batches[k - |l.outcomes|])
            && (forall k :: |l.outcomes| <= k < |r.outcomes| - 1 ==> !r.outcomes[k].Failed?)
            && (|r.outcomes| < |l.outcomes| + |batches| ==>
                  |l.outcomes| < |r.outcomes| && r.outcomes[|r.outcomes| - 1].Failed?)
    decreases |batches|
  {
    if |batches| > 0 {
      var next := Attempt(batches[0], 0, maxRetries, l, add);
      if !next.outcomes[|next.outcomes| - 1].Failed? {
        DrainOutcomes(batches[1..], maxRetries, next, add);
        var r := Drain(batches, maxRetries, l, add);
        assert r == Drain(batches[1..], maxRetries, next, add);
        assert r.outcomes[..|next.outcomes|][..|l.outcomes|] == r.outcomes[..|l.outcomes|];
        forall k | |l.outcomes| <= k < |r.outcomes|
          ensures r.outcomes[k].batch == batches[k - |l.outcomes|]
        {
          if k == |l.outcomes| {
            assert r.outcomes[k] == r.outcomes[..|next.outcomes|][k] == next.outcomes[k];
          }
        }
        forall k | |l.outcomes| <= k < |r.outcomes| - 1
          ensures !r.outcomes[k].Failed?
        {
          if k == |l.outcomes| {
            assert r.outcomes[k] == r.outcomes[..|next.outcomes|][k] == next.outcomes[k];
          }
        }
      }
    }
  }

  /** A run over a non-empty list with a store and a positive batch size
      reports an error exactly when a batch failed, and that batch's error;
      without an error every batch was added or skipped, in order; the
      `j`-th delay slept is `backoff * 2^j`. */
  lemma IngestOutcomes(docSplits: seq<Document>, batchSize: int, maxRetries: int, backoff: int,
                       add: nat -> Option<string>)
    requires |docSplits| > 0 && batchSize > 0
    ensures var r := IngestSpec(docSplits, true, batchSize, maxRetries, backoff, add);
            var batches := Batches(docSplits, batchSize);
            && r.Ran?
            && |r.ledger.outcomes| <= |batches|
            && (forall k :: 0 <= k < |r.ledger.outcomes| ==> r.ledger.outcomes[k].batch == batches[k])
            && (r.error.Some? <==> exists k :: 0 <= k < |r.ledger.outcomes| && r.ledger.outcomes[k].Failed?)
            && (r.error.None? ==> |r.ledger.outcomes| == |batches|
                                  && forall k :: 0 <= k < |batches| ==> !r.ledger.outcomes[k].Failed?)
            && (forall j :: 0 <= j < |r.ledger.sleeps| ==> r.ledger.sleeps[j] == backoff * Pow2(j))
  {
    var start := Ledger(0, backoff, [], []);
    var batches := Batches(docSplits, batchSize);
    var l := Drain(batches, maxRetries, start, add);
    assert IngestSpec(docSplits, true, batchSize, maxRetries, backoff, add) == Ran(l, RunError(l));
    DrainOutcomes(batches, maxRetries, start, add);
    DrainGeometric(batches, maxRetries, start, add, backoff);
    RunErrorSpec(l);
  }

  /** When only the last outcome can be a failure, the run reports an error
      exactly when some batch failed. */
  lemma RunErrorSpec(l: Ledger)
    requires forall k :: 0 <= k < |l.outcomes| - 1 ==> !l.outcomes[k].Failed?
    ensures RunError(l).Some? <==> exists k :: 0 <= k < |l.outcomes| && l.outcomes[k].Failed?
  {
    if exists k :: 0 <= k < |l.outcomes| && l.outcomes[k].Failed? {
      var k :| 0 <= k < |l.outcomes| && l.outcomes[k].Failed?;
      assert k == |l.outcomes| - 1;
    }
  }
}
