/** The aggregation in the `TranscriptList` component: whether anything is shown, the success
    and error counts, and the two texts built from every successful transcript, one for the
    download of all transcripts and one for the clipboard. */
module TranscriptList {
  import opened JsText
  import opened VimeoProcess
  import opened UseTranscripts
  import opened TranscriptCard

  predicate IsSuccess(r: ResultEntry) {
    r.status == Success
  }

  predicate IsError(r: ResultEntry) {
    r.status == Error
  }

  /** A record that goes into the two aggregated texts: a success with a truthy transcript. */
  predicate IsExported(r: ResultEntry) {
    r.status == Success && Truthy(r.transcript)
  }

  /** The list renders nothing for an empty `results`. */
  predicate IsRendered(results: seq<ResultEntry>) {
    results != []
  }

  function SuccessCount(results: seq<ResultEntry>): nat {
    |Filter(IsSuccess, results)|
  }

  function ErrorCount(results: seq<ResultEntry>): nat {
    |Filter(IsError, results)|
  }

  /** The summary banner and the global actions appear only when something succeeded. */
  predicate ShowsGlobalActions(results: seq<ResultEntry>) {
    SuccessCount(results) > 0
  }

  function Exported(results: seq<ResultEntry>): seq<ResultEntry> {
    Filter(IsExported, results)
  }

  function TranscriptOf(r: ResultEntry): string {
    if r.transcript.Some? then r.transcript.value else []
  }

  /** One record's part of the downloaded file. */
  function DownloadBlock(r: ResultEntry): string {
    "=== Video " + Rendered(r.videoId) + " ===\nURL: " + r.originalUrl + "\n\n" + TranscriptOf(r) + "\n\n"
  }

  /** One record's part of the copied text. */
  function CopyBlock(r: ResultEntry): string {
    "=== Video " + Rendered(r.videoId) + " ===\n" + TranscriptOf(r)
  }

  /** The text of "Descargar Todas las Transcripciones". */
  function DownloadAllText(results: seq<ResultEntry>): string {
    Concat(Map(DownloadBlock, Exported(results)))
  }

  /** The text of "Copiar Todas al Portapapeles". */
  function CopyAllText(results: seq<ResultEntry>): string {
    JoinWith(Map(CopyBlock, Exported(results)), "\n\n")
  }

  /** The file is downloaded only when its text is not empty. */
  function DownloadAll(results: seq<ResultEntry>): Option<string> {
    var text := DownloadAllText(results);
    if text == [] then None else Some(text)
  }

  /** The text is copied only when it is not empty. */
  function CopyAll(results: seq<ResultEntry>): Option<string> {
    var text := CopyAllText(results);
    if text == [] then None else Some(text)
  }

  // ---------------------------------------------------------------- properties

  /** Every record is either a success or an error, so the two counts add up to the number of
      records. */
  lemma {:induction false} CountsAddUp(results: seq<ResultEntry>)
    ensures SuccessCount(results) + ErrorCount(results) == |results|
  {
    if results != [] {
      CountsAddUp(results[1..]);
    }
  }

  lemma {:induction false} ExportedAreSuccesses(results: seq<ResultEntry>)
    ensures |Exported(results)| <= SuccessCount(results)
  {
    if results != [] {
      ExportedAreSuccesses(results[1..]);
    }
  }

  /** Both texts are empty exactly when no record is exported, and there is something to
      export only when the global actions are shown. */
  lemma {:induction false} EmptyExactlyWithoutExports(results: seq<ResultEntry>)
    ensures DownloadAll(results).None? <==> Exported(results) == []
    ensures CopyAll(results).None? <==> Exported(results) == []
    ensures Exported(results) != [] ==> ShowsGlobalActions(results)
    ensures !IsRendered(results) ==>
      SuccessCount(results) == 0 && ErrorCount(results) == 0 && DownloadAll(results).None? && CopyAll(results).None?
  {
    var blocks := Map(DownloadBlock, Exported(results));
    ExportedAreSuccesses(results);
    if blocks != [] {
      assert Concat(blocks)[..|blocks[0]|] == blocks[0];
      assert |blocks[0]| > 0;
      var copies := Map(CopyBlock, Exported(results));
      JoinStartsWithFirst(copies, "\n\n");
      assert |copies[0]| > 0;
    }
  }

  lemma {:induction false} JoinStartsWithFirst(parts: seq<string>, sep: string)
    requires parts != []
    ensures JoinWith(parts, sep)[..|parts[0]|] == parts[0]
  {
  }

  lemma {:induction false} ExportedAppend(a: seq<ResultEntry>, b: seq<ResultEntry>)
    ensures Exported(a + b) == Exported(a) + Exported(b)
  {
    if a != [] {
      assert (a + b)[1..] == a[1..] + b;
      ExportedAppend(a[1..], b);
    } else {
      assert a + b == b;
    }
  }

  lemma {:induction false} ConcatBlocksAppend(a: seq<ResultEntry>, b: seq<ResultEntry>)
    ensures Concat(Map(DownloadBlock, a + b)) == Concat(Map(DownloadBlock, a)) + Concat(Map(DownloadBlock, b))
  {
    if a != [] {
      assert Map(DownloadBlock, a + b)[1..] == Map(DownloadBlock, a[1..] + b);
      assert Map(DownloadBlock, a)[1..] == Map(DownloadBlock, a[1..]);
      ConcatBlocksAppend(a[1..], b);
    } else {
      assert a + b == b;
    }
  }

  lemma {:induction false} JoinAppend(a: seq<string>, b: seq<string>, sep: string)
    requires a != [] && b != []
    ensures JoinWith(a + b, sep) == JoinWith(a, sep) + sep + JoinWith(b, sep)
  {
    if |a| > 1 {
      assert (a + b)[1..] == a[1..] + b;
      JoinAppend(a[1..], b, sep);
    } else {
      assert (a + b)[1..] == b;
    }
  }

  /** The downloaded text of two lists of records is the text of the first followed by the
      text of the second; the copied text is the same with one separator between them when
      both have exports. */
  lemma ExportsOfConcatenation(a: seq<ResultEntry>, b: seq<ResultEntry>)
    ensures DownloadAllText(a + b) == DownloadAllText(a) + DownloadAllText(b)
    ensures Exported(a) == [] ==> CopyAllText(a + b) == CopyAllText(b)
    ensures Exported(b) == [] ==> CopyAllText(a + b) == CopyAllText(a)
    ensures Exported(a) != [] && Exported(b) != [] ==>
      CopyAllText(a + b) == CopyAllText(a) + "\n\n" + CopyAllText(b)
  {
    ExportedAppend(a, b);
    ConcatBlocksAppend(Exported(a), Exported(b));
    var ca := Map(CopyBlock, Exported(a));
    var cb := Map(CopyBlock, Exported(b));
    MapAppend(CopyBlock, Exported(a), Exported(b));
    if ca == [] {
      assert ca + cb == cb;
    } else if cb == [] {
      assert ca + cb == ca;
    } else {
      JoinAppend(ca, cb, "\n\n");
    }
  }
}
