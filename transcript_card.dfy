/** The string helpers of the `TranscriptCard` component: the shortened title, the safe file
    name and content of a single download, the transcript preview and the copy action.  The
    clock (`Date.now()`, `new Date().toISOString()`) is a parameter. */
module TranscriptCard {
  import opened JsText
  import opened VimeoProcess
  import opened UseTranscripts

  const TitleLimit: nat := 60
  const FilenameLimit: nat := 50
  const PreviewLimit: nat := 300
  const Ellipsis: string := "..."

  /** `truncateTitle(title)` with the default `maxLength` of 60. */
  function TruncateTitle(title: string): string {
    if title == [] || |title| <= TitleLimit then title
    else Trim(title[..TitleLimit]) + Ellipsis
  }

  /** `${value}` of an optional field: a missing id renders as `null`. */
  function Rendered(value: Option<string>): string {
    if value.Some? then value.value else "null"
  }

  /** A truthy optional string. */
  predicate Truthy(value: Option<string>) {
    value.Some? && value.value != []
  }

  predicate IsAsciiLetter(c: char) {
    ('a' <= c <= 'z') || ('A' <= c <= 'Z')
  }

  /** The characters `/[^a-z0-9\s\-\_]/gi` does not remove. */
  predicate IsKept(c: char) {
    IsAsciiLetter(c) || IsDigit(c) || IsSpace(c) || c == '-' || c == '_'
  }

  /** The characters a sanitised name is made of. */
  predicate IsSafe(c: char) {
    IsAsciiLetter(c) || IsDigit(c) || c == '-' || c == '_'
  }

  predicate AllKept(s: string) {
    forall i :: 0 <= i < |s| ==> IsKept(s[i])
  }

  predicate AllSafe(s: string) {
    forall i :: 0 <= i < |s| ==> IsSafe(s[i])
  }

  /** `sanitizeFilename(name)`: drop every other character, turn each run of white space
      into one `_`, keep at most the first 50 characters. */
  function SanitizeFilename(name: string): string {
    var collapsed := CollapseSpaces(Filter(IsKept, name), '_');
    collapsed[..if |collapsed| < FilenameLimit then |collapsed| else FilenameLimit]
  }

  /** `safeTitle`: the sanitised title, or `video_<id>` when the title is falsy. */
  function SafeTitle(r: ResultEntry): string {
    if Truthy(r.title) then SanitizeFilename(r.title.value) else "video_" + Rendered(r.videoId)
  }

  /** The name of the downloaded file. */
  function DownloadFilename(r: ResultEntry, timestamp: nat): string {
    "transcript_" + SafeTitle(r) + "_" + NatToString(timestamp) + ".txt"
  }

  function OrElse(value: Option<string>, fallback: string): string {
    if Truthy(value) then value.value else fallback
  }

  /** The header lines of the downloaded file. */
  function DownloadHeader(r: ResultEntry, date: string): string {
    "Transcripción de Vimeo\n"
      + "Título: " + OrElse(r.title, "Sin título") + "\n"
      + "Video ID: " + Rendered(r.videoId) + "\n"
      + "URL Original: " + r.originalUrl + "\n"
      + "Idioma: " + OrElse(r.language, "N/A") + "\n"
      + "Pista: " + OrElse(r.trackName, "N/A") + "\n"
      + "Fecha: " + date + "\n\n"
      + "--- TRANSCRIPCIÓN ---\n\n"
  }

  /** `handleDownload`: nothing without a transcript, otherwise the file's content and name. */
  function Download(r: ResultEntry, date: string, timestamp: nat): Option<(string, string)> {
    if !Truthy(r.transcript) then None
    else Some((DownloadHeader(r, date) + r.transcript.value, DownloadFilename(r, timestamp)))
  }

  /** `handleCopy`: nothing without a transcript, otherwise the transcript. */
  function Copy(r: ResultEntry): Option<string> {
    if !Truthy(r.transcript) then None else Some(r.transcript.value)
  }

  /** `truncatedTranscript`. */
  function TruncatedTranscript(transcript: Option<string>): Option<string> {
    if Truthy(transcript) && |transcript.value| > PreviewLimit
    then Some(transcript.value[..PreviewLimit] + Ellipsis)
    else transcript
  }

  /** The heading: the title, or `Video <id>` (`Desconocido` without an id), shortened. */
  function DisplayTitle(r: ResultEntry): string {
    TruncateTitle(if Truthy(r.title) then r.title.value
                  else "Video " + (if Truthy(r.videoId) then r.videoId.value else "Desconocido"))
  }

  // ---------------------------------------------------------------- properties

  /** A falsy or short title is kept; a longer one becomes its first 60 characters with
      the white space at both ends removed (and nothing else), followed by `...`, at most 63
      characters in all. */
  lemma TruncateTitleBounds(title: string)
    ensures |title| <= TitleLimit ==> TruncateTitle(title) == title
    ensures |title| > TitleLimit ==>
      var r := TruncateTitle(title);
      var lead := LeadingSpaces(title[..TitleLimit]);
      && |r| <= TitleLimit + |Ellipsis|
      && r[|r| - 3..] == Ellipsis
      && Trimmed(r[..|r| - 3])
      && r[..|r| - 3] == title[lead..lead + |r| - 3]
      && AllSpace(title[..lead])
      && AllSpace(title[lead + |r| - 3..TitleLimit])
  {
    if |title| > TitleLimit {
      var head := title[..TitleLimit];
      TrimIsCentralSlice(head);
      var r := TruncateTitle(title);
      assert r[..|r| - 3] == Trim(head);
      TruncatedHeadEdges(title);
    }
  }

  lemma TruncatedHeadEdges(title: string)
    requires |title| > TitleLimit
    ensures var head := title[..TitleLimit];
      var lead := LeadingSpaces(head);
      AllSpace(title[..lead]) && AllSpace(title[lead + |Trim(head)|..TitleLimit])
  {
    var head := title[..TitleLimit];
    var lead := LeadingSpaces(head);
    TrimIsCentralSlice(head);
    assert title[..lead] == head[..lead];
    assert title[lead + |Trim(head)|..TitleLimit] == head[lead + |Trim(head)|..];
  }

  /** The heading is never empty: it is the shortened title when there is one, otherwise
      `Video <id>` for a short id and `Video Desconocido` without an id. */
  lemma DisplayTitleFallback(r: ResultEntry)
    ensures DisplayTitle(r) != []
    ensures Truthy(r.title) ==> DisplayTitle(r) == TruncateTitle(r.title.value)
    ensures !Truthy(r.title) && !Truthy(r.videoId) ==> DisplayTitle(r) == "Video Desconocido"
    ensures !Truthy(r.title) && Truthy(r.videoId) && |r.videoId.value| <= TitleLimit - 6 ==>
      DisplayTitle(r) == "Video " + r.videoId.value
  {
  }

  lemma {:induction false} CollapseMakesSafe(s: string)
    requires AllKept(s)
    ensures AllSafe(CollapseSpaces(s, '_'))
    decreases |s|
  {
    if s != [] {
      if IsSpace(s[0]) {
        var t := TrimStart(s);
        assert forall i :: 0 <= i < |t| ==> t[i] == s[LeadingSpaces(s) + i];
        CollapseMakesSafe(t);
      } else {
        assert forall i :: 0 <= i < |s[1..]| ==> s[1..][i] == s[i + 1];
        CollapseMakesSafe(s[1..]);
      }
    }
  }

  /** A sanitised name has at most 50 characters, all of them ASCII letters, digits, `-` or
      `_`, so in particular no white space. */
  lemma SanitizedIsSafe(name: string)
    ensures |SanitizeFilename(name)| <= FilenameLimit
    ensures AllSafe(SanitizeFilename(name)) && NoSpace(SanitizeFilename(name))
  {
    var kept := Filter(IsKept, name);
    FilterMembers(IsKept, name);
    assert forall i :: 0 <= i < |kept| ==> kept[i] in kept;
    CollapseMakesSafe(kept);
  }

  lemma {:induction false} FilterKeepsKept(s: string)
    requires AllKept(s)
    ensures Filter(IsKept, s) == s
  {
    if s != [] {
      assert forall i :: 0 <= i < |s[1..]| ==> s[1..][i] == s[i + 1];
      FilterKeepsKept(s[1..]);
    }
  }

  lemma {:induction false} CollapseWithoutSpace(s: string)
    requires NoSpace(s)
    ensures CollapseSpaces(s, '_') == s
  {
    if s != [] {
      assert forall i :: 0 <= i < |s[1..]| ==> s[1..][i] == s[i + 1];
      CollapseWithoutSpace(s[1..]);
    }
  }

  /** Sanitising a sanitised name changes nothing. */
  lemma SanitizeIdempotent(name: string)
    ensures SanitizeFilename(SanitizeFilename(name)) == SanitizeFilename(name)
  {
    var s := SanitizeFilename(name);
    SanitizedIsSafe(name);
    FilterKeepsKept(s);
    CollapseWithoutSpace(s);
  }

  /** A name already made of safe characters is only cut to its first 50 characters. */
  lemma SanitizeKeepsSafeName(name: string)
    requires AllSafe(name)
    ensures SanitizeFilename(name) == name[..if |name| < FilenameLimit then |name| else FilenameLimit]
  {
    FilterKeepsKept(name);
    CollapseWithoutSpace(name);
  }

  /** A run of white space between two safe parts becomes exactly one `_`. */
  lemma {:induction false} SanitizeSpaceRun(a: string, w: string, b: string)
    requires AllSafe(a) && AllSafe(b) && w != [] && AllSpace(w)
    ensures var joined := a + "_" + b;
      SanitizeFilename(a + w + b) == joined[..if |joined| < FilenameLimit then |joined| else FilenameLimit]
  {
    KeptJoin(a, w, b);
    FilterKeepsKept(a + w + b);
    CollapseSpaceRun(a, w, b);
  }

  lemma {:induction false} KeptJoin(a: string, w: string, b: string)
    requires AllSafe(a) && AllSafe(b) && AllSpace(w)
    ensures AllKept(a + w + b)
  {
    var s := a + w + b;
    forall i | 0 <= i < |s|
      ensures IsKept(s[i])
    {
      if i < |a| {
        assert s[i] == a[i];
      } else if i < |a| + |w| {
        assert s[i] == w[i - |a|];
      } else {
        assert s[i] == b[i - |a| - |w|];
      }
    }
  }

  lemma {:induction false} CollapseSpaceRun(a: string, w: string, b: string)
    requires AllSafe(a) && AllSafe(b) && w != [] && AllSpace(w)
    ensures CollapseSpaces(a + w + b, '_') == a + "_" + b
  {
    var s := a + w + b;
    assert s[..|a|] == a && s[|a|..] == w + b;
    CollapseNoSpacePrefix(s, |a|, '_');
    LeadingSpacesAfterSpaces(w, b);
    assert TrimStart(w + b) == b;
    CollapseWithoutSpace(b);
    assert CollapseSpaces(w + b, '_') == "_" + b;
  }

  /** A character the pattern removes leaves no trace: the name is sanitised as if it were
      not there. */
  lemma {:induction false} SanitizeDropsRemoved(a: string, c: char, b: string)
    requires !IsKept(c)
    ensures SanitizeFilename(a + [c] + b) == SanitizeFilename(a + b)
  {
    FilterAppend(IsKept, a + [c], b);
    FilterAppend(IsKept, a, [c]);
    FilterAppend(IsKept, a, b);
    assert Filter(IsKept, [c]) == [];
    assert Filter(IsKept, a + [c]) == Filter(IsKept, a);
    assert Filter(IsKept, a + [c] + b) == Filter(IsKept, a + b);
  }

  /** The file name is `transcript_<safe>_<timestamp>.txt`; with a truthy title it contains no
      white space, and without one it names the video. */
  lemma DownloadFilenameShape(r: ResultEntry, timestamp: nat)
    ensures var f := DownloadFilename(r, timestamp);
      && f[..11] == "transcript_" && f[|f| - 4..] == ".txt"
      && (Truthy(r.title) ==> NoSpace(f))
      && (!Truthy(r.title) ==> f[11..17] == "video_" && f[17..17 + |Rendered(r.videoId)|] == Rendered(r.videoId))
  {
    if Truthy(r.title) {
      SanitizedIsSafe(r.title.value);
      FilenameWithoutSpace(SafeTitle(r), NatToString(timestamp));
    }
  }

  lemma FilenameWithoutSpace(safe: string, digits: string)
    requires NoSpace(safe) && AllDigits(digits)
    ensures NoSpace("transcript_" + safe + "_" + digits + ".txt")
  {
    NoSpaceAppend("transcript_", safe);
    NoSpaceAppend("transcript_" + safe, "_");
    NoSpaceAppend("transcript_" + safe + "_", digits);
    NoSpaceAppend("transcript_" + safe + "_" + digits, ".txt");
  }

  lemma NoSpaceAppend(a: string, b: string)
    requires NoSpace(a) && NoSpace(b)
    ensures NoSpace(a + b)
  {
    assert forall i :: 0 <= i < |b| ==> (a + b)[|a| + i] == b[i];
  }

  /** Downloading and copying happen exactly when the transcript is truthy; the downloaded
      file ends with the whole transcript after its header, and copying takes the transcript
      itself. */
  lemma DownloadCarriesTranscript(r: ResultEntry, date: string, timestamp: nat)
    ensures Download(r, date, timestamp).Some? <==> Truthy(r.transcript)
    ensures Copy(r).Some? <==> Truthy(r.transcript)
    ensures Truthy(r.transcript) ==>
      var content := Download(r, date, timestamp).value.0;
      && content[..|content| - |r.transcript.value|] == DownloadHeader(r, date)
      && content[|content| - |r.transcript.value|..] == r.transcript.value
      && Copy(r) == Some(r.transcript.value)
  {
  }

  /** The preview is the transcript when it has at most 300 characters, and otherwise its
      first 300 characters followed by `...`. */
  lemma PreviewBounds(transcript: Option<string>)
    ensures var p := TruncatedTranscript(transcript);
      && (transcript.Some? <==> p.Some?)
      && (transcript.Some? && |transcript.value| <= PreviewLimit ==> p == transcript)
      && (transcript.Some? && |transcript.value| > PreviewLimit ==>
            |p.value| == PreviewLimit + |Ellipsis|
            && p.value[..PreviewLimit] <= transcript.value && p.value[PreviewLimit..] == Ellipsis)
  {
  }
}
