/** The `useTranscripts` hook: the page's state (`results`, `isProcessing`, `progress`,
    `currentStatus`) and `processUrls`, which parses the pasted text, sends the valid entries
    to the transcript service three at a time, publishes the results batch by batch and
    appends the invalid entries at the end.  The service call is an injected function from a
    video id to what `processVideoTranscript` resolves or rejects with; a batch's
    `Promise.all` is an order-preserving map over it. */
module UseTranscripts {
  import opened JsText
  import opened UrlParser
  import opened VimeoProcess
  import opened VimeoClient

  datatype Progress = Progress(current: nat, total: nat)

  /** One entry of `results`; an error record has no title, language or track name. */
  datatype ResultEntry = ResultEntry(
    originalUrl: string, videoId: Option<string>, title: Option<string>,
    transcript: Option<string>, language: Option<string>, trackName: Option<string>,
    error: Option<string>, status: Status)

  const BatchSize: nat := 3
  const InvalidFallback: string := "URL no válida"
  const NoTranscriptText: string := "No hay transcripción disponible para este video"
  const NoPermissionText: string := "No tienes permisos para acceder a este video"
  const RateLimitText: string := "Límite de API excedido, intenta más tarde"
  const DoneStatus: string := "¡Proceso completado!"

  predicate IsValidEntry(e: Entry) {
    e.isValid
  }

  predicate IsInvalidEntry(e: Entry) {
    !e.isValid
  }

  /** The id handed to the service (a valid entry always has one). */
  function IdOf(e: Entry): string {
    if e.videoId.Some? then e.videoId.value else []
  }

  /** The message shown for a failed item. */
  function ErrorText(e: Thrown): string {
    match e
    case ApiError(err) =>
      if err.status == 404 then NoTranscriptText
      else if err.status == 403 then NoPermissionText
      else if err.status == 429 then RateLimitText
      else err.message
    case PlainError(_, message) => message
  }

  /** The record for a valid entry once its call has settled. */
  function Settle(u: Entry, a: Attempt<ClientResult>): ResultEntry {
    match a
    case Got(r) => ResultEntry(u.originalUrl, u.videoId, r.title, r.transcript, r.language, r.trackName, None, Success)
    case Failed(e) => ResultEntry(u.originalUrl, u.videoId, None, None, None, None, Some(ErrorText(e)), Error)
  }

  /** The record for an invalid entry: its parser error, or the fallback when it has none. */
  function InvalidRecord(u: Entry): ResultEntry {
    var message := if u.error.Some? && u.error.value != [] then u.error.value else InvalidFallback;
    ResultEntry(u.originalUrl, None, None, None, None, None, Some(message), Error)
  }

  function Settled(urls: seq<Entry>, process: string -> Attempt<ClientResult>): (r: seq<ResultEntry>)
    ensures |r| == |urls|
  {
    if urls == [] then [] else [Settle(urls[0], process(IdOf(urls[0])))] + Settled(urls[1..], process)
  }

  function InvalidRecords(urls: seq<Entry>): (r: seq<ResultEntry>)
    ensures |r| == |urls|
  {
    if urls == [] then [] else [InvalidRecord(urls[0])] + InvalidRecords(urls[1..])
  }

  /** The results once `processUrls` is done: the valid entries' records in input order,
      then the invalid entries' records in input order. */
  function FinalResults(parsed: seq<Entry>, process: string -> Attempt<ClientResult>): seq<ResultEntry> {
    Settled(Filter(IsValidEntry, parsed), process) + InvalidRecords(Filter(IsInvalidEntry, parsed))
  }

  /** The lists published after the batches starting at `i`: after each batch, everything
      settled so far. */
  function BatchPrefixesFrom<T>(s: seq<T>, i: nat): seq<seq<T>>
    decreases |s| - i
  {
    if i >= |s| then []
    else [s[..if i + BatchSize < |s| then i + BatchSize else |s|]] + BatchPrefixesFrom(s, i + BatchSize)
  }

  /** The pauses taken after the batches starting at `i`: one after every batch but the last. */
  function PausesFrom(n: nat, i: nat): nat
    decreases n - i
  {
    if i >= n then 0 else (if i + BatchSize < n then 1 else 0) + PausesFrom(n, i + BatchSize)
  }

  /** The progress values set while `k` items settle, out of `n`. */
  function Ticks(k: nat, n: nat): seq<Progress> {
    if k == 0 then [] else Ticks(k - 1, n) + [Progress(k, n)]
  }

  /** Every list `processUrls` publishes once the input is parsed, in order. */
  function Publications(parsed: seq<Entry>, process: string -> Attempt<ClientResult>): seq<seq<ResultEntry>> {
    var valid := Filter(IsValidEntry, parsed);
    var invalid := Filter(IsInvalidEntry, parsed);
    if valid == [] then [InvalidRecords(invalid)]
    else
      BatchPrefixesFrom(Settled(valid, process), 0)
        + (if invalid != [] then [FinalResults(parsed, process)] else [])
  }

  /** Every progress value `processUrls` sets once the input is parsed, in order. */
  function ProgressSteps(valid: nat): seq<Progress> {
    if valid == 0 then [] else [Progress(0, valid)] + Ticks(valid, valid)
  }

  /** `n` copies of `b`. */
  function Repeat(b: bool, n: nat): (r: seq<bool>)
    ensures |r| == n
  {
    if n == 0 then [] else [b] + Repeat(b, n - 1)
  }

  /** `Repeat` grows at the front ... */
  lemma RepeatCons(b: bool, n: nat)
    ensures [b] + Repeat(b, n) == Repeat(b, n + 1)
  {
  }

  /** ... and at the back. */
  lemma {:induction false} RepeatSnoc(b: bool, n: nat)
    ensures Repeat(b, n) + [b] == Repeat(b, n + 1)
  {
    if n > 0 {
      RepeatSnoc(b, n - 1);
    }
  }

  /** Every entry of `Repeat(b, n)` is `b`. */
  lemma {:induction false} RepeatIsConstant(b: bool, n: nat)
    ensures forall k :: 0 <= k < n ==> Repeat(b, n)[k] == b
  {
    if n > 0 {
      RepeatIsConstant(b, n - 1);
    }
  }

  class TranscriptsHook {
    var results: seq<ResultEntry>
    var isProcessing: bool
    var progress: Progress
    var currentStatus: string
    /** Every value `results` has been set to, in order. */
    ghost var published: seq<seq<ResultEntry>>
    /** Every value `progress` has been set to, in order. */
    ghost var progressLog: seq<Progress>
    /** The value of `isProcessing` at each `setResults`, in order. */
    ghost var busyLog: seq<bool>

    /** The hook's initial state. */
    constructor ()
      ensures results == [] && !isProcessing && progress == Progress(0, 0) && currentStatus == []
      ensures published == [] && progressLog == [] && busyLog == []
    {
      results := [];
      isProcessing := false;
      progress := Progress(0, 0);
      currentStatus := [];
      published := [];
      progressLog := [];
      busyLog := [];
    }

    /** `setResults(r)`. */
    method SetResults(r: seq<ResultEntry>)
      modifies this
      ensures results == r && published == old(published) + [r]
      ensures busyLog == old(busyLog) + [isProcessing]
      ensures isProcessing == old(isProcessing) && progress == old(progress)
      ensures currentStatus == old(currentStatus) && progressLog == old(progressLog)
    {
      results := r;
      published := published + [r];
      busyLog := busyLog + [isProcessing];
    }

    /** `setProgress(p)`. */
    method SetProgress(p: Progress)
      modifies this
      ensures progress == p && progressLog == old(progressLog) + [p]
      ensures isProcessing == old(isProcessing) && results == old(results)
      ensures currentStatus == old(currentStatus) && published == old(published)
      ensures busyLog == old(busyLog)
    {
      progress := p;
      progressLog := progressLog + [p];
    }

    /** One slice of `processInBatches`: every item settled in order, each advancing the
        progress by one. */
    method SettleBatch(batch: seq<Entry>, process: string -> Attempt<ClientResult>, ghost base: seq<Progress>)
      returns (batchResults: seq<ResultEntry>)
      requires progressLog == base + Ticks(progress.current, progress.total)
      modifies this
      ensures batchResults == Settled(batch, process)
      ensures progress == Progress(old(progress.current) + |batch|, old(progress.total))
      ensures progressLog == base + Ticks(progress.current, progress.total)
      ensures results == old(results) && published == old(published) && busyLog == old(busyLog)
      ensures isProcessing == old(isProcessing) && currentStatus == old(currentStatus)
    {
      batchResults := [];
      var j := 0;
      while j < |batch|
        invariant 0 <= j <= |batch|
        invariant batchResults == Settled(batch[..j], process)
        invariant progress == Progress(old(progress.current) + j, old(progress.total))
        invariant progressLog == base + Ticks(progress.current, progress.total)
        invariant results == old(results) && published == old(published) && busyLog == old(busyLog)
        invariant isProcessing == old(isProcessing) && currentStatus == old(currentStatus)
      {
        var outcome := process(IdOf(batch[j]));
        progress := progress.(current := progress.current + 1);
        progressLog := progressLog + [progress];
        SettledSnoc(batch[..j], batch[j], process);
        assert batch[..j + 1] == batch[..j] + [batch[j]];
        batchResults := batchResults + [Settle(batch[j], outcome)];
        j := j + 1;
      }
      assert batch[..j] == batch;
    }

    /** `processInBatches(urls, 3)`: slices of three, each slice's records published after it,
        and a pause between slices. */
    method ProcessInBatches(urls: seq<Entry>, process: string -> Attempt<ClientResult>)
      returns (all: seq<ResultEntry>, pauses: nat)
      requires results == [] && progress == Progress(0, |urls|)
      modifies this
      ensures all == Settled(urls, process) && results == all
      ensures published == old(published) + BatchPrefixesFrom(all, 0)
      ensures busyLog == old(busyLog) + Repeat(isProcessing, |BatchPrefixesFrom(all, 0)|)
      ensures progress == Progress(|urls|, |urls|)
      ensures progressLog == old(progressLog) + Ticks(|urls|, |urls|)
      ensures pauses == PausesFrom(|urls|, 0)
      ensures isProcessing == old(isProcessing) && currentStatus == old(currentStatus)
    {
      ghost var settled := Settled(urls, process);
      ghost var base := old(progressLog);
      all := [];
      pauses := 0;
      var i := 0;
      while i < |urls|
        invariant i < |urls| + BatchSize
        invariant all == settled[..Min(i, |urls|)] && results == all
        invariant old(published) + BatchPrefixesFrom(settled, 0) == published + BatchPrefixesFrom(settled, i)
        invariant old(busyLog) + Repeat(isProcessing, |BatchPrefixesFrom(settled, 0)|)
          == busyLog + Repeat(isProcessing, |BatchPrefixesFrom(settled, i)|)
        invariant progress == Progress(|all|, |urls|)
        invariant progressLog == base + Ticks(progress.current, progress.total)
        invariant pauses + PausesFrom(|urls|, i) == PausesFrom(|urls|, 0)
        invariant isProcessing == old(isProcessing) && currentStatus == old(currentStatus)
        decreases |urls| - i
      {
        var end := if i + BatchSize < |urls| then i + BatchSize else |urls|;
        var batchResults := SettleBatch(urls[i..end], process, base);
        SettledSlice(urls, process, i, end);
        all := all + batchResults;
        ghost var log, pub := busyLog, published;
        ghost var rest := BatchPrefixesFrom(settled, i + BatchSize);
        SetResults(results + batchResults);
        AppendAssoc(pub, [all], rest);
        AppendAssoc(log, [isProcessing], Repeat(isProcessing, |rest|));
        if i + BatchSize < |urls| {
          pauses := pauses + 1;
        }
        i := i + BatchSize;
      }
      assert settled[..|urls|] == settled;
    }

    /** `processUrls(urlsInput)`; it answers the number of pauses taken between batches.
        Blank input changes nothing; otherwise the results and progress are cleared, the
        input is parsed and `ProcessParsed` does the rest.  Every list published during the
        run is published while `isProcessing` is true, and the flag is released at the end. */
    method ProcessUrls(urlsInput: string, process: string -> Attempt<ClientResult>) returns (pauses: nat)
      modifies this
      ensures Trim(urlsInput) == [] ==>
        && pauses == 0 && results == old(results) && isProcessing == old(isProcessing)
        && progress == old(progress) && currentStatus == old(currentStatus)
        && published == old(published) && progressLog == old(progressLog) && busyLog == old(busyLog)
      ensures Trim(urlsInput) != [] ==>
        var parsed := Parse(Text(urlsInput));
        var valid := |Filter(IsValidEntry, parsed)|;
        && !isProcessing
        && results == FinalResults(parsed, process)
        && published == old(published) + [[]] + Publications(parsed, process)
        && busyLog == old(busyLog) + Repeat(true, 1 + |Publications(parsed, process)|)
        && progress == Progress(valid, valid)
        && progressLog == old(progressLog) + [Progress(0, 0)] + ProgressSteps(valid)
        && pauses == PausesFrom(valid, 0)
        && currentStatus == (if valid == 0 then old(currentStatus) else DoneStatus)
    {
      pauses := 0;
      if Trim(urlsInput) == [] {
        return;
      }
      isProcessing := true;
      SetResults([]);
      SetProgress(Progress(0, 0));
      var parsedUrls := ParseVimeoUrls(Text(urlsInput));
      ghost var count := |Publications(parsedUrls, process)|;
      pauses := ProcessParsed(parsedUrls, process);
      RepeatCons(true, count);
      AppendAssoc(old(busyLog), [true], Repeat(true, count));
    }

    /** The body of `processUrls` after parsing: with no valid entry only the invalid ones'
        records are published; otherwise the valid entries go through `processInBatches`,
        the invalid entries' records are appended when there are any, and the status says
        the work is done.  `finally` clears `isProcessing` on both paths. */
    method ProcessParsed(parsedUrls: seq<Entry>, process: string -> Attempt<ClientResult>) returns (pauses: nat)
      requires results == [] && progress == Progress(0, 0)
      modifies this
      ensures var valid := |Filter(IsValidEntry, parsedUrls)|;
        && !isProcessing
        && results == FinalResults(parsedUrls, process)
        && published == old(published) + Publications(parsedUrls, process)
        && busyLog == old(busyLog) + Repeat(old(isProcessing), |Publications(parsedUrls, process)|)
        && progress == Progress(valid, valid)
        && progressLog == old(progressLog) + ProgressSteps(valid)
        && pauses == PausesFrom(valid, 0)
        && currentStatus == (if valid == 0 then old(currentStatus) else DoneStatus)
    {
      pauses := 0;
      ghost var busy := isProcessing;
      var validUrls := Filter(IsValidEntry, parsedUrls);
      var invalidUrls := Filter(IsInvalidEntry, parsedUrls);
      if |validUrls| == 0 {
        NoValidOutcome(parsedUrls, process);
        SetResults(InvalidRecords(invalidUrls));
        assert Repeat(busy, 1) == [busy];
      } else {
        pauses := ProcessValid(parsedUrls, validUrls, invalidUrls, process);
      }
      isProcessing := false;
    }

    /** The branch of `processUrls` with at least one valid entry: the batches, then the
        invalid entries' records appended when there are any, then the closing status. */
    method ProcessValid(ghost parsedUrls: seq<Entry>, validUrls: seq<Entry>, invalidUrls: seq<Entry>,
                        process: string -> Attempt<ClientResult>) returns (pauses: nat)
      requires validUrls == Filter(IsValidEntry, parsedUrls) && validUrls != []
      requires invalidUrls == Filter(IsInvalidEntry, parsedUrls)
      requires results == [] && progress == Progress(0, 0)
      modifies this
      ensures results == FinalResults(parsedUrls, process)
      ensures published == old(published) + Publications(parsedUrls, process)
      ensures busyLog == old(busyLog) + Repeat(isProcessing, |Publications(parsedUrls, process)|)
      ensures progress == Progress(|validUrls|, |validUrls|)
      ensures progressLog == old(progressLog) + ProgressSteps(|validUrls|)
      ensures pauses == PausesFrom(|validUrls|, 0)
      ensures currentStatus == DoneStatus && isProcessing == old(isProcessing)
    {
      SomeValidOutcome(parsedUrls, process);
      ghost var log0 := busyLog;
      SetProgress(Progress(0, |validUrls|));
      var all;
      all, pauses := ProcessInBatches(validUrls, process);
      ghost var batches := |BatchPrefixesFrom(all, 0)|;
      if |invalidUrls| > 0 {
        SetResults(results + InvalidRecords(invalidUrls));
        RepeatSnoc(isProcessing, batches);
        AppendAssoc(log0, Repeat(isProcessing, batches), [isProcessing]);
      }
      currentStatus := DoneStatus;
    }

    /** The timer set in `finally`: three seconds later the status line is cleared. */
    method ClearStatus()
      modifies this`currentStatus
      ensures currentStatus == []
    {
      currentStatus := [];
    }

    /** `resetResults()`. */
    method ResetResults()
      modifies this
      ensures results == [] && progress == Progress(0, 0) && currentStatus == []
      ensures isProcessing == old(isProcessing)
      ensures published == old(published) + [[]] && progressLog == old(progressLog) + [Progress(0, 0)]
      ensures busyLog == old(busyLog) + [old(isProcessing)]
    {
      SetResults([]);
      SetProgress(Progress(0, 0));
      currentStatus := [];
    }
  }

  function Min(a: int, b: int): int {
    if a < b then a else b
  }

  /** What `processUrls` ends with when no entry is valid. */
  lemma NoValidOutcome(parsed: seq<Entry>, process: string -> Attempt<ClientResult>)
    requires |Filter(IsValidEntry, parsed)| == 0
    ensures FinalResults(parsed, process) == InvalidRecords(Filter(IsInvalidEntry, parsed))
    ensures Publications(parsed, process) == [FinalResults(parsed, process)]
    ensures ProgressSteps(0) == [] && PausesFrom(0, 0) == 0
  {
    assert Settled(Filter(IsValidEntry, parsed), process) == [];
  }

  /** What `processUrls` ends with when some entry is valid. */
  lemma SomeValidOutcome(parsed: seq<Entry>, process: string -> Attempt<ClientResult>)
    requires |Filter(IsValidEntry, parsed)| != 0
    ensures var valid := Filter(IsValidEntry, parsed);
      var invalid := Filter(IsInvalidEntry, parsed);
      var all := Settled(valid, process);
      && (|invalid| == 0 ==> FinalResults(parsed, process) == all)
      && (|invalid| > 0 ==> FinalResults(parsed, process) == all + InvalidRecords(invalid))
      && Publications(parsed, process) ==
           BatchPrefixesFrom(all, 0) + (if |invalid| > 0 then [FinalResults(parsed, process)] else [])
      && ProgressSteps(|valid|) == [Progress(0, |valid|)] + Ticks(|valid|, |valid|)
  {
    var invalid := Filter(IsInvalidEntry, parsed);
    if |invalid| == 0 {
      assert InvalidRecords(invalid) == [];
    }
  }

  lemma {:induction false} SettledAt(urls: seq<Entry>, process: string -> Attempt<ClientResult>, k: nat)
    requires k < |urls|
    ensures Settled(urls, process)[k] == Settle(urls[k], process(IdOf(urls[k])))
  {
    if k > 0 {
      SettledAt(urls[1..], process, k - 1);
    }
  }

  lemma {:induction false} SettledSnoc(urls: seq<Entry>, u: Entry, process: string -> Attempt<ClientResult>)
    ensures Settled(urls + [u], process) == Settled(urls, process) + [Settle(u, process(IdOf(u)))]
  {
    if urls != [] {
      assert (urls + [u])[1..] == urls[1..] + [u];
      SettledSnoc(urls[1..], u, process);
    }
  }

  lemma SettledSlice(urls: seq<Entry>, process: string -> Attempt<ClientResult>, i: nat, j: nat)
    requires i <= j <= |urls|
    ensures Settled(urls[i..j], process) == Settled(urls, process)[i..j]
    ensures Settled(urls, process)[..i] + Settled(urls, process)[i..j] == Settled(urls, process)[..j]
  {
    SettledSliceOf(urls, process, i, j);
    SliceJoin(Settled(urls, process), i, j);
  }

  lemma {:induction false} SettledSliceOf(urls: seq<Entry>, process: string -> Attempt<ClientResult>, i: nat, j: nat)
    requires i <= j <= |urls|
    ensures Settled(urls[i..j], process) == Settled(urls, process)[i..j]
  {
    if i > 0 {
      assert urls[1..][i - 1..j - 1] == urls[i..j];
      SettledSliceOf(urls[1..], process, i - 1, j - 1);
    } else if j > 0 {
      assert urls[..j][1..] == urls[1..][..j - 1];
      SettledSliceOf(urls[1..], process, 0, j - 1);
    }
  }

  lemma SliceJoin<T>(s: seq<T>, i: nat, j: nat)
    requires i <= j <= |s|
    ensures s[..i] + s[i..j] == s[..j]
  {
  }

  // ---------------------------------------------------------------- properties

  lemma {:induction false} BatchPrefixAt<T>(s: seq<T>, i: nat, k: nat)
    requires k < |BatchPrefixesFrom(s, i)|
    ensures BatchPrefixesFrom(s, i)[k] == s[..Min(i + BatchSize * (k + 1), |s|)]
    decreases k
  {
    if k > 0 {
      BatchPrefixAt(s, i + BatchSize, k - 1);
    }
  }

  lemma {:induction false} BatchCount<T>(s: seq<T>, i: nat)
    requires i <= |s|
    ensures |BatchPrefixesFrom(s, i)| == (|s| - i + BatchSize - 1) / BatchSize
    decreases |s| - i
  {
    if i < |s| && i + BatchSize < |s| {
      BatchCount(s, i + BatchSize);
    }
  }

  /** The valid entries go in slices of three: after the `k`-th slice the first
      `min(3(k+1), n)` records are published, there are `ceil(n/3)` slices, and the last
      publication holds them all. */
  lemma BatchesOfThree<T>(s: seq<T>)
    ensures |BatchPrefixesFrom(s, 0)| == (|s| + BatchSize - 1) / BatchSize
    ensures forall k :: 0 <= k < |BatchPrefixesFrom(s, 0)| ==>
      BatchPrefixesFrom(s, 0)[k] == s[..Min(BatchSize * (k + 1), |s|)]
    ensures s != [] ==> BatchPrefixesFrom(s, 0)[|BatchPrefixesFrom(s, 0)| - 1] == s
  {
    BatchCount(s, 0);
    forall k | 0 <= k < |BatchPrefixesFrom(s, 0)|
      ensures BatchPrefixesFrom(s, 0)[k] == s[..Min(BatchSize * (k + 1), |s|)]
    {
      BatchPrefixAt(s, 0, k);
    }
    if s != [] {
      var k := |BatchPrefixesFrom(s, 0)| - 1;
      BatchPrefixAt(s, 0, k);
      assert s[..|s|] == s;
    }
  }

  lemma {:induction false} PausesCountFrom(n: nat, i: nat)
    requires i < n
    ensures PausesFrom(n, i) == (n - i + BatchSize - 1) / BatchSize - 1
    decreases n - i
  {
    if i + BatchSize < n {
      PausesCountFrom(n, i + BatchSize);
    }
  }

  /** There is a pause between consecutive slices and none after the last: one fewer than
      the number of slices. */
  lemma PausesBetweenBatches(n: nat)
    ensures n == 0 ==> PausesFrom(n, 0) == 0
    ensures n > 0 ==> PausesFrom(n, 0) == (n + BatchSize - 1) / BatchSize - 1
  {
    if n > 0 {
      PausesCountFrom(n, 0);
    }
  }

  lemma {:induction false} TicksAt(k: nat, n: nat)
    ensures |Ticks(k, n)| == k
    ensures forall m :: 0 <= m < k ==> Ticks(k, n)[m] == Progress(m + 1, n)
  {
    if k > 0 {
      TicksAt(k - 1, n);
    }
  }

  /** With `n` valid entries the progress goes from `0/n` to `n/n` one item at a time and the
      total never changes; with none it is never set again. */
  lemma ProgressCountsItems(n: nat)
    ensures n == 0 ==> ProgressSteps(n) == []
    ensures n > 0 ==> |ProgressSteps(n)| == n + 1
    ensures n > 0 ==> forall k :: 0 <= k <= n ==> ProgressSteps(n)[k] == Progress(k, n)
  {
    TicksAt(n, n);
  }

  lemma {:induction false} FilterSplits(parsed: seq<Entry>)
    ensures |Filter(IsValidEntry, parsed)| + |Filter(IsInvalidEntry, parsed)| == |parsed|
  {
    if parsed != [] {
      FilterSplits(parsed[1..]);
    }
  }

  lemma {:induction false} InvalidRecordsAt(urls: seq<Entry>, k: nat)
    requires k < |urls|
    ensures InvalidRecords(urls)[k] == InvalidRecord(urls[k])
  {
    if k > 0 {
      InvalidRecordsAt(urls[1..], k - 1);
    }
  }

  /** Every parsed entry gives exactly one record: the valid ones first, each settled from
      its own call, in input order, then the invalid ones, in input order. */
  lemma {:induction false} FinalResultsLayout(parsed: seq<Entry>, process: string -> Attempt<ClientResult>)
    ensures var valid := Filter(IsValidEntry, parsed);
      var invalid := Filter(IsInvalidEntry, parsed);
      var r := FinalResults(parsed, process);
      && |r| == |parsed|
      && (forall k :: 0 <= k < |valid| ==> r[k] == Settle(valid[k], process(IdOf(valid[k]))))
      && (forall k :: 0 <= k < |invalid| ==> r[|valid| + k] == InvalidRecord(invalid[k]))
  {
    var valid := Filter(IsValidEntry, parsed);
    var invalid := Filter(IsInvalidEntry, parsed);
    FilterSplits(parsed);
    SettledAll(valid, process);
    InvalidRecordsAll(invalid);
    ConcatParts(Settled(valid, process), InvalidRecords(invalid));
  }

  /** Each valid entry's record keeps its URL and id, succeeds exactly when its call
      resolved, and otherwise carries the failure's message; each invalid entry's record is
      an error without a video id whose message is never empty. */
  lemma {:induction false} RecordsDescribeEntries(parsed: seq<Entry>, process: string -> Attempt<ClientResult>)
    ensures var valid := Filter(IsValidEntry, parsed);
      var invalid := Filter(IsInvalidEntry, parsed);
      var r := FinalResults(parsed, process);
      && (forall k :: 0 <= k < |valid| ==>
            && r[k].originalUrl == valid[k].originalUrl && r[k].videoId == valid[k].videoId
            && (r[k].status == Success <==> process(IdOf(valid[k])).Got?)
            && (process(IdOf(valid[k])).Failed? ==> r[k].error == Some(ErrorText(process(IdOf(valid[k])).thrown))))
      && (forall k :: 0 <= k < |invalid| ==>
            && r[|valid| + k].originalUrl == invalid[k].originalUrl
            && r[|valid| + k].status == Error && r[|valid| + k].videoId.None?
            && r[|valid| + k].error.Some? && r[|valid| + k].error.value != [])
  {
    var valid := Filter(IsValidEntry, parsed);
    var invalid := Filter(IsInvalidEntry, parsed);
    var r := FinalResults(parsed, process);
    forall k | 0 <= k < |valid|
      ensures && r[k].originalUrl == valid[k].originalUrl && r[k].videoId == valid[k].videoId
              && (r[k].status == Success <==> process(IdOf(valid[k])).Got?)
              && (process(IdOf(valid[k])).Failed? ==> r[k].error == Some(ErrorText(process(IdOf(valid[k])).thrown)))
    {
      ValidResultAt(parsed, process, k);
      SettleFields(valid[k], process(IdOf(valid[k])));
    }
    forall k | 0 <= k < |invalid|
      ensures && r[|valid| + k].originalUrl == invalid[k].originalUrl
              && r[|valid| + k].status == Error && r[|valid| + k].videoId.None?
              && r[|valid| + k].error.Some? && r[|valid| + k].error.value != []
    {
      InvalidResultAt(parsed, process, k);
      InvalidRecordFields(invalid[k]);
    }
  }

  lemma ValidResultAt(parsed: seq<Entry>, process: string -> Attempt<ClientResult>, k: nat)
    requires k < |Filter(IsValidEntry, parsed)|
    ensures var valid := Filter(IsValidEntry, parsed);
      FinalResults(parsed, process)[k] == Settle(valid[k], process(IdOf(valid[k])))
  {
    SettledAt(Filter(IsValidEntry, parsed), process, k);
  }

  lemma InvalidResultAt(parsed: seq<Entry>, process: string -> Attempt<ClientResult>, k: nat)
    requires k < |Filter(IsInvalidEntry, parsed)|
    ensures var invalid := Filter(IsInvalidEntry, parsed);
      FinalResults(parsed, process)[|Filter(IsValidEntry, parsed)| + k] == InvalidRecord(invalid[k])
  {
    InvalidRecordsAt(Filter(IsInvalidEntry, parsed), k);
  }

  lemma SettleFields(u: Entry, a: Attempt<ClientResult>)
    ensures var rec := Settle(u, a);
      && rec.originalUrl == u.originalUrl && rec.videoId == u.videoId
      && (rec.status == Success <==> a.Got?)
      && (a.Failed? ==> rec.error == Some(ErrorText(a.thrown)))
  {
  }

  lemma InvalidRecordFields(u: Entry)
    ensures var rec := InvalidRecord(u);
      && rec.originalUrl == u.originalUrl && rec.status == Error && rec.videoId.None?
      && rec.error.Some? && rec.error.value != []
  {
  }

  lemma SettledAll(valid: seq<Entry>, process: string -> Attempt<ClientResult>)
    ensures forall k :: 0 <= k < |valid| ==>
      Settled(valid, process)[k] == Settle(valid[k], process(IdOf(valid[k])))
  {
    forall k | 0 <= k < |valid|
      ensures Settled(valid, process)[k] == Settle(valid[k], process(IdOf(valid[k])))
    {
      SettledAt(valid, process, k);
    }
  }

  lemma InvalidRecordsAll(invalid: seq<Entry>)
    ensures forall k :: 0 <= k < |invalid| ==> InvalidRecords(invalid)[k] == InvalidRecord(invalid[k])
  {
    forall k | 0 <= k < |invalid|
      ensures InvalidRecords(invalid)[k] == InvalidRecord(invalid[k])
    {
      InvalidRecordsAt(invalid, k);
    }
  }

  lemma ConcatParts<T>(a: seq<T>, b: seq<T>)
    ensures forall k :: 0 <= k < |a| ==> (a + b)[k] == a[k]
    ensures forall k :: 0 <= k < |b| ==> (a + b)[|a| + k] == b[k]
  {
  }

  /** Everything `processUrls` publishes is a prefix of the final results, each publication
      extends the one before, and the last one is the final results. */
  lemma PublicationsArePrefixes(parsed: seq<Entry>, process: string -> Attempt<ClientResult>)
    ensures var p := Publications(parsed, process);
      var f := FinalResults(parsed, process);
      && |p| > 0 && p[|p| - 1] == f
      && (forall k :: 0 <= k < |p| ==> p[k] <= f)
      && (forall k :: 0 <= k < |p| - 1 ==> p[k] <= p[k + 1])
  {
    var valid := Filter(IsValidEntry, parsed);
    var invalid := Filter(IsInvalidEntry, parsed);
    var settled := Settled(valid, process);
    var f := FinalResults(parsed, process);
    var p := Publications(parsed, process);
    if valid != [] {
      var b := BatchPrefixesFrom(settled, 0);
      BatchesOfThree(settled);
      assert p == b + (if invalid != [] then [f] else []);
      forall k | 0 <= k < |b|
        ensures b[k] <= f
      {
        assert f[..|b[k]|] == b[k];
      }
      forall k | 0 <= k < |b| - 1
        ensures b[k] <= b[k + 1]
      {
        assert b[k + 1][..|b[k]|] == b[k];
      }
      if invalid == [] {
        assert f == settled;
      }
    }
  }

  /** Through the real handler, an item succeeds exactly when the handler answers 200, and
      a failure shows the wrapped message of a status-500 `VimeoAPIError`: none of the fixed
      texts for 404, 403 or 429 can appear. */
  lemma ItemThroughHandler(u: Entry, token: string, v: Vimeo, statusText: string)
    ensures var r := Handle(Request("GET", IdOf(u)), token, v);
      var item := Settle(u, Unified(IdOf(u), Delivered(r.statusCode, statusText, r.body)));
      && (item.status == Success <==> r.statusCode == 200)
      && (item.status == Error ==> item.error == Some(
            "Error procesando video " + IdOf(u) + ": "
              + (if ErrorField(r.body) != [] then ErrorField(r.body)
                 else "HTTP " + NatToString(r.statusCode) + ": " + statusText)))
  {
    UnifiedThroughHandler(IdOf(u), token, v, statusText);
  }
}
