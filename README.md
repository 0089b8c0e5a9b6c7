# Vimeo transcript extractor: a verified model

This project models the part of the Vimeo transcript extractor that turns pasted text into a
list of per-video transcript results, and proves properties of that model in Dafny. Its
modules follow the source files:

- `JsText` (`js_text.dfy`): the JavaScript string operations the code relies on, each with the
  semantics the code gets from them:
  - `trim`, `trimStart` and `trimEnd`, and the ECMAScript white-space set of `\s`;
  - `replace(/\s+/g, c)`, `split`, `join`, `includes`, `filter` and `map`;
  - `String(n)` for a status code.

  The reference for whitespace normalisation is "the white-space separated words". The
  module proves that `replace(/\s+/g, ' ').trim()` equals those words joined by single
  spaces.
- `UrlParser` (`url_parser.dfy`): `parseVimeoUrls`.
  - The input is split on `\n` and `,`, each segment is trimmed, and empty segments are
    dropped.
  - The three regular expressions are written as hand-made matchers: a leftmost,
    ASCII-case-insensitive search for a literal, then a greedy run of digits. The first
    pattern also needs `/` and ten hexadecimal characters after the digits.
  - The `forEach` and the `for…of` loop with `break` are methods proved equal to the
    functions that specify them.
- `VimeoProcess` (`api/vimeo-process.js`): the serverless handler.
  - The request guards, in order.
  - The best-effort title.
  - Track selection (`find(...) || data[0]`) and the track id (`uri.split('/').pop()`).
  - Normalisation of the three transcript-body shapes.
  - The `catch` block that maps a thrown message to a status code by substring.
  - The three Vimeo API calls are an injected record of functions. A failed upstream call
    throws the exact message `Vimeo API error: <status> <statusText> - <body>`.
  - The handler is a method: its `try` block updates the `result` record field by field, and
    its `catch` block assigns `statusCode` and `errorMessage` through the if/else chain. Both
    are proved equal to the `Handle` function.
- `VimeoClient` (`src/api/vimeo.js`): the browser side of the service.
  - `VimeoAPIError` and `makeRequest`, given what `fetch` produced.
  - `processVideoTranscriptUnified`, and the way it rethrows or rewraps errors.
  - The older `processVideoTranscriptLegacy`, which reuses the handler's track selection and
    normalisation.
- `UseTranscripts` (`src/hooks/useTranscripts.js`): the hook, as a class.
  - Its four state cells are `results`, `isProcessing`, `progress` and `currentStatus`.
  - Ghost logs record every list passed to `setResults` and every value passed to
    `setProgress`.
  - `processUrls` parses the input and processes the valid entries in slices of three.
    Progress advances by one per settled item, each slice's records are published after it,
    and the invalid entries' records are appended at the end. `finally` releases
    `isProcessing`.
  - The transcript service is an injected function from a video id to what
    `processVideoTranscript` resolves or rejects with. `Promise.all` is an order-preserving map.
- `TranscriptCard` (`src/components/TranscriptCard.jsx`): `truncateTitle`,
  `sanitizeFilename`, the download file name and content, the copy action, the transcript
  preview and the heading.
- `TranscriptList` (`src/components/TranscriptList.jsx`): the success and error counts, when
  the global actions show, and the two texts built from every exported transcript (download
  all, copy all).

Two behaviours of the code, as written, are worth stating outright:

- **Upstream failures.** A failed upstream request does not keep its own status. The handler
  answers 500 with the upstream message, unless that message contains `404`, `403` or `429`
  (`api/vimeo-process.js:152-166`).
- **Progress.** Progress advances by one per settled item, not by the batch size after each
  batch (`src/hooks/useTranscripts.js:51`, `src/hooks/useTranscripts.js:66`).

The model also proves a consequence of the code as written. Through the real handler, a
failed item always reaches the hook as a `VimeoAPIError` with status 500. So the hook's fixed
texts for 404, 403 and 429 never appear for an answer the handler gives, and the item shows
the wrapped message instead (`UseTranscripts.ItemThroughHandler`).

## Model

| member | source | states |
|---|---|---|
| JsText.TrimIsCentralSlice | src/utils/urlParser.js:7 | `trim` removes exactly the white space at both ends: the result has none at either end and is the middle slice of the input, and the dropped prefix and suffix are all white space |
| JsText.Trim | src/utils/urlParser.js:7 | `trim` as `trimEnd` after `trimStart`; `TrimIsCentralSlice`, `TrimEmpty` and `TrimTwice` state its result |
| JsText.TrimEmpty | src/hooks/useTranscripts.js:12 | a string trims to empty exactly when it is all white space |
| JsText.TrimTwice | src/utils/urlParser.js:7 | trimming is idempotent |
| JsText.LeadingSpaces | src/utils/urlParser.js:7 | the count of leading white space stops at the first other character |
| JsText.CollapseSpaces | api/vimeo-process.js:118 | `replace(/\s+/g, c)` never makes a string longer |
| JsText.CollapseThenTrim | api/vimeo-process.js:118-119 | `replace(/\s+/g, ' ').trim()` is the string's words joined by single spaces |
| JsText.WordsOfJoin | api/vimeo-process.js:117 | the words of strings joined by a space are the words of the parts, in order |
| JsText.WordsAcrossSpace | api/vimeo-process.js:117 | joining two strings with a white-space character concatenates their words |
| JsText.JoinedWordsAreClean | api/vimeo-process.js:117-119 | words joined by single spaces have no white space at the ends and no two in a row, and are empty exactly when there are no words |
| JsText.WordsAreWords | api/vimeo-process.js:118 | every word is non-empty and free of white space |
| JsText.FilterMembers | src/utils/urlParser.js:8 | `filter` keeps exactly the elements that pass its test |
| JsText.Map | src/utils/urlParser.js:7 | `map`, defined element by element from the front: its result has the input's length and holds the function's value of the element at every index, in order |
| JsText.NatToString | api/vimeo-process.js:48 | a status renders as a non-empty run of digits without a leading zero |
| JsText.NatToStringThreeDigits | api/vimeo-process.js:48 | a three-digit status renders as its three decimal digits |
| JsText.IncludesAt | api/vimeo-process.js:155 | `includes` holds exactly when the text occurs at some position |
| JsText.IncludesAcrossSpace | api/vimeo-process.js:155 | a text without white space occurs in `a + " " + b` exactly when it occurs in `a` or in `b` |
| JsText.IncludesSameLength | api/vimeo-process.js:155 | between strings of equal length, `includes` is equality |
| JsText.Includes | api/vimeo-process.js:155 | `includes`, searching from the front; `IncludesAt`, `IncludesAcrossSpace` and `IncludesSameLength` state when it holds |
| JsText.JoinWith | api/vimeo-process.js:117 | `join(sep)`; `WordsOfJoin`, `JoinedWordsAreClean`, `CollapseThenTrim` and `SplitJoinsBack` state what it builds |
| UrlParser.Split | src/utils/urlParser.js:6 | `split` always gives at least one piece |
| UrlParser.Segments | src/utils/urlParser.js:5-8 | the split, trimmed, non-empty segments; `SegmentsAreClean`, `SegmentOfSegment` and `ParseFollowsSegments` state them |
| UrlParser.SplitHasNoSeparators | src/utils/urlParser.js:6 | no piece of the split contains a newline or a comma |
| UrlParser.SplitJoinsBack | src/utils/urlParser.js:6 | splitting a text without newlines on commas and joining with commas gives the text back |
| UrlParser.SegmentsAreClean | src/utils/urlParser.js:5-8 | every segment is non-empty, trimmed and free of separators |
| UrlParser.SegmentOfSegment | src/utils/urlParser.js:5-8 | a clean segment splits, trims and filters to itself alone |
| UrlParser.DigitPrefix | src/utils/urlParser.js:16-18 | `\d+` takes the longest run of digits at that point |
| UrlParser.MatchAt | src/utils/urlParser.js:15-19 | a capture is a non-empty run of decimal digits |
| UrlParser.Search | src/utils/urlParser.js:23 | a position found is in range and the pattern matches there |
| UrlParser.SearchIsLeftmost | src/utils/urlParser.js:23 | the search finds the first matching position, and finds none only when no position matches |
| UrlParser.MatchIsLeftmost | src/utils/urlParser.js:23 | `url.match(p)` succeeds exactly when `p` matches somewhere, and its group is the capture at the leftmost such position |
| UrlParser.Match | src/utils/urlParser.js:23-25 | `url.match(p)[1]`; `MatchIsLeftmost` states that it is the capture at the leftmost match |
| UrlParser.ExtractId | src/utils/urlParser.js:15-28 | the id from the first matching pattern; `ExtractIdPrecedence` states the order |
| UrlParser.Parse | src/utils/urlParser.js:2-55 | `parseVimeoUrls` as a function; `ParseFollowsSegments`, `EntriesAreWellFormed` and `ReparseIsIdentity` state its result |
| UrlParser.PrivateLinkIsPublicLink | src/utils/urlParser.js:16-17 | wherever the private-link pattern matches, the public-link pattern matches with the same id |
| UrlParser.ExtractIdPrecedence | src/utils/urlParser.js:15-28 | the id comes from the first pattern that matches, in the order private link, public link, player embed; it is a non-empty run of digits |
| UrlParser.MatchFirstPattern | src/utils/urlParser.js:21-28 | the `for…of` loop with `break` yields the first pattern's match |
| UrlParser.EntryFor | src/utils/urlParser.js:30-43 | an entry keeps its url, is valid exactly when it has an id, and an invalid one carries `URL de Vimeo no válida` |
| UrlParser.ParseVimeoUrls | src/utils/urlParser.js:2-10 | the falsy-input guard, the segments, then the `forEach` give the specified list |
| UrlParser.PushEntries | src/utils/urlParser.js:12-52 | the `forEach` pushes one entry per segment, in order: valid with the id found, invalid with the error message |
| UrlParser.NonTextIsEmpty | src/utils/urlParser.js:3 | a falsy or non-string input gives no entries |
| UrlParser.ParseFollowsSegments | src/utils/urlParser.js:5-54 | one entry per non-empty trimmed segment, in input order |
| UrlParser.EntriesAreWellFormed | src/utils/urlParser.js:5-43 | every url is non-empty, trimmed and separator-free; valid exactly when there is an id; a valid id is digits and has no error; an invalid entry has the error |
| UrlParser.ReparseIsIdentity | src/utils/urlParser.js:5-52 | parsing an entry's url alone gives back that entry alone |
| VimeoProcess.FirstPreferred | api/vimeo-process.js:88-89 | the index found is in range and its track is automatic or English captions |
| VimeoProcess.IsPreferred | api/vimeo-process.js:88-89 | the `find` test: a captions track whose language is `en-x-autogen` or contains `en`; `FirstPreferred` and `SelectTrackIsFirstPreferred` state how it chooses |
| VimeoProcess.FirstPreferredIsFirst | api/vimeo-process.js:88-89 | `find` returns the first preferred track, and finds none only when no track is preferred |
| VimeoProcess.SelectTrackIsFirstPreferred | api/vimeo-process.js:88-90 | the chosen track is listed: the first preferred one, else the first track |
| VimeoProcess.TrackId | api/vimeo-process.js:101 | the track id is the uri's suffix after its last `/` and contains no `/` |
| VimeoProcess.BlankHasNoWords | api/vimeo-process.js:116 | a fragment is dropped by the blank test exactly when it has no words |
| VimeoProcess.DroppingBlanksKeepsWords | api/vimeo-process.js:116 | dropping blank fragments loses no word |
| VimeoProcess.NoWordsIffAllBlank | api/vimeo-process.js:116 | the fragments have no words exactly when all of them are blank |
| VimeoProcess.NormaliseIsJoinedWords | api/vimeo-process.js:108-127 | the normalised text is the fragments' words joined by single spaces, so it has no outer and no double white space, and it is empty exactly when every fragment is blank |
| VimeoProcess.TranscriptTextByShape | api/vimeo-process.js:104-131 | a `data` list wins over a `cues` list, which wins over a raw `transcript`; the lists are normalised and the raw text is kept as it is |
| VimeoProcess.CatchResponse | api/vimeo-process.js:168-176 | the `catch` answer is an error record for the video with the default title and no transcript, language or track name |
| VimeoProcess.CatchNever200 | api/vimeo-process.js:152-166 | the `catch` block never answers 200 |
| VimeoProcess.Handler | api/vimeo-process.js:5-178 | the handler, guards then `try` then `catch`, answers the specified response |
| VimeoProcess.TryBlock | api/vimeo-process.js:54-146 | the `try` block, building and updating `result` step by step, answers the specified outcome |
| VimeoProcess.CatchBlock | api/vimeo-process.js:148-176 | the if/else chain on the message gives the specified `catch` answer |
| VimeoProcess.GuardsComeFirst | api/vimeo-process.js:12-34 | OPTIONS gives 200 with no body, another non-GET gives 405, a missing token gives 500 and a missing id gives 400, in that order and without consulting Vimeo |
| VimeoProcess.ResponseShape | api/vimeo-process.js:54-176 | codes are among 200, 400, 403, 404, 405, 429, 500; a record is about the requested video and is a success exactly when the code is 200; a success has a non-empty transcript, a language and a non-empty track name; an error has a message and no transcript |
| VimeoProcess.SuccessCharacterised | api/vimeo-process.js:76-146 | 200 exactly when the tracks arrive and are non-empty, the chosen track's transcript arrives and its text is non-empty; the record holds that text, the track's language, its name or `Transcripción automática`, and the title |
| VimeoProcess.NotFoundAnswers | api/vimeo-process.js:79-139 | a missing or empty track list is answered 404 with `No hay pistas de texto disponibles`, and a transcript that arrives without text 404 with `La transcripción está vacía o no tiene formato válido`; both records keep the title and carry no transcript, language or track name |
| VimeoProcess.Handle | api/vimeo-process.js:5-178 | the handler as a function of the request, the token and the Vimeo API; its properties are stated by `GuardsComeFirst`, `ResponseShape`, `SuccessCharacterised`, `NotFoundAnswers` and `FailuresAreCaught` |
| VimeoProcess.Pipeline | api/vimeo-process.js:54-146 | the `try` block as a function, answering a response or the thrown message; `TryBlock` is proved equal to it |
| VimeoProcess.TitleFor | api/vimeo-process.js:55-74 | the default title `Video <id>`, replaced by a non-empty name; `TitleFailureIsHarmless` states that a failed request leaves the default |
| VimeoProcess.SelectTrack | api/vimeo-process.js:88-90 | the track `find` returns, or else the first track; `SelectTrackIsFirstPreferred` states what it picks |
| VimeoProcess.Normalise | api/vimeo-process.js:114-119 | `filter`, `join(' ')`, `replace(/\s+/g, ' ')` and `trim` on the cue texts; `NormaliseIsJoinedWords` states its meaning |
| VimeoProcess.TranscriptText | api/vimeo-process.js:104-131 | the three body shapes in order; `TranscriptTextByShape` states what each gives |
| VimeoProcess.FirstLineText | api/vimeo-process.js:109-115 | a data cue's `lines[0].text`, or nothing; `TranscriptTextByShape` states how the texts are joined |
| VimeoProcess.CueText | api/vimeo-process.js:122-123 | a legacy cue's `text`; `TranscriptTextByShape` states how the texts are joined |
| VimeoProcess.AfterTitle | api/vimeo-process.js:76-146 | the `try` block after the title; `SuccessCharacterised`, `NotFoundAnswers` and `FailuresAreCaught` state its answers |
| VimeoProcess.FailureMessage | api/vimeo-process.js:46-49 | the message `makeVimeoRequest` throws; `MessageIncludes` and `UpstreamStatusMapping` state what the `catch` finds in it |
| VimeoProcess.Classify | api/vimeo-process.js:152-166 | the if/else chain on the message; `UpstreamNotFoundIsNotFound`, `UpstreamStatusMapping` and `CatchNever200` state its outcome |
| VimeoProcess.TitleFailureIsHarmless | api/vimeo-process.js:66-74 | a failed title request gives the same answer as a video without a name |
| VimeoProcess.FailuresAreCaught | api/vimeo-process.js:77-102 | a failed tracks or transcript request is answered by the `catch` block with that request's message |
| VimeoProcess.UpstreamNotFoundIsNotFound | api/vimeo-process.js:155-157 | an upstream 404 is reported as 404 with the not-found message, whatever its status text and body |
| VimeoProcess.UpstreamStatusMapping | api/vimeo-process.js:152-166 | when the status text and body mention no watched code, an upstream 403, 404 or 429 keeps its code and any other status becomes 500 with the upstream message |
| VimeoProcess.MessageIncludes | api/vimeo-process.js:48 | a code occurs in the upstream message only inside its status, status text or body |
| VimeoProcess.StatusIncludesCode | api/vimeo-process.js:155-163 | a rendered three-digit status contains `404`, `403` or `429` exactly when it is that code |
| VimeoClient.MakeRequest | src/api/vimeo.js:29-54 | `makeRequest` given what `fetch` produced; `MakeRequestErrors` states its failures and when it returns |
| VimeoClient.ErrorField | src/api/vimeo.js:41-43 | the `error` field of an answer's body; `MakeRequestErrors` states the message built from it |
| VimeoClient.RequestCatch | src/api/vimeo.js:47-53 | the `catch` of `makeRequest`; `MakeRequestErrors` states what it turns into the connection message |
| VimeoClient.Project | src/api/vimeo.js:70-76 | the five fields returned; `UnifiedThrowsApiErrors` states that a result is this projection |
| VimeoClient.Rewrap | src/api/vimeo.js:78-87 | the `catch` of the transcript functions; `RewrapProperties` states it |
| VimeoClient.Unified | src/api/vimeo.js:57-88 | `processVideoTranscriptUnified`; `UnifiedThrowsApiErrors` states that a result is the projection of the body and what it throws, and `UnifiedThroughHandler` what it gives through the real handler |
| VimeoClient.Legacy | src/api/vimeo.js:136-219 | `processVideoTranscriptLegacy`; `LegacyAgreesWithHandler` and `LegacyThrowsApiErrors` state what it returns and throws |
| VimeoClient.MakeRequestErrors | src/api/vimeo.js:41-53 | a non-OK answer throws the body's `error`, else `HTTP <status>: <statusText>`; a `TypeError` mentioning `fetch` becomes the connection message; the call returns exactly for an OK answer with a body |
| VimeoClient.RewrapProperties | src/api/vimeo.js:78-87 | a `VimeoAPIError` passes unchanged; anything else becomes one for the video with status 500 and the prefixed message; rewrapping twice is rewrapping once |
| VimeoClient.UnifiedThrowsApiErrors | src/api/vimeo.js:57-88 | the unified function throws only `VimeoAPIError`s naming the video, and returns exactly for an OK body that is not an error record; what it returns is the body's five fields; an OK error record is thrown as a 404 `VimeoAPIError` with the record's `error` |
| VimeoClient.UnifiedThroughHandler | src/api/vimeo.js:62-87 | through the real handler, a result comes back exactly on 200 and is the handler's record; any failure is a status-500 `VimeoAPIError` carrying the handler's message or the status line |
| VimeoClient.LegacyAgreesWithHandler | src/api/vimeo.js:136-207 | with the same Vimeo answers, the legacy function succeeds exactly when the handler answers 200, with the same title, transcript, language and track name |
| VimeoClient.LegacyThrowsApiErrors | src/api/vimeo.js:152-218 | the legacy function throws only `VimeoAPIError`s naming the video; a missing or empty track list gives its own 404 with the no-tracks message, and a transcript without text its own 404 with the empty-transcript message |
| UseTranscripts.ErrorText | src/hooks/useTranscripts.js:68-81 | the message of a failed item by the error's status; `RecordsDescribeEntries` and `ItemThroughHandler` state where it appears and what it shows |
| UseTranscripts.Settle | src/hooks/useTranscripts.js:55-89 | the record of a settled valid entry; `RecordsDescribeEntries` states its fields |
| UseTranscripts.InvalidRecord | src/hooks/useTranscripts.js:117-123 | the record of an invalid entry; `RecordsDescribeEntries` states its fields |
| UseTranscripts.FinalResults | src/hooks/useTranscripts.js:111-125 | the results once `processUrls` is done; `FinalResultsLayout` states their order |
| UseTranscripts.Publications | src/hooks/useTranscripts.js:97-125 | the lists published in turn; `BatchesOfThree` and `PublicationsArePrefixes` state their shape |
| UseTranscripts.Settled | src/hooks/useTranscripts.js:42-93 | one record per valid entry |
| UseTranscripts.InvalidRecords | src/hooks/useTranscripts.js:117-123 | one record per invalid entry |
| UseTranscripts.TranscriptsHook.constructor | src/hooks/useTranscripts.js:6-9 | the state starts empty, idle, at progress 0/0 and with no status |
| UseTranscripts.TranscriptsHook.SetResults | src/hooks/useTranscripts.js:6 | `setResults` replaces the results and publishes them, noting the current `isProcessing`, and changes nothing else |
| UseTranscripts.TranscriptsHook.SetProgress | src/hooks/useTranscripts.js:8 | `setProgress` replaces the progress and logs it, changing nothing else |
| UseTranscripts.TranscriptsHook.SettleBatch | src/hooks/useTranscripts.js:41-93 | a slice settles every item in order, each advancing the progress by one |
| UseTranscripts.TranscriptsHook.ProcessInBatches | src/hooks/useTranscripts.js:37-109 | all valid entries settle in order; after each slice everything settled so far is published; the progress ends at n/n; the pauses are those between slices |
| UseTranscripts.TranscriptsHook.ProcessUrls | src/hooks/useTranscripts.js:11-136 | blank input changes nothing; otherwise the final results, the publications, the progress values, the pauses and the status are the specified ones, every list is published while `isProcessing` is true, and `isProcessing` is released |
| UseTranscripts.TranscriptsHook.ProcessParsed | src/hooks/useTranscripts.js:19-135 | with no valid entry only the invalid records are published; otherwise the slices, then the invalid records when there are any, and the status says the work is done; every list is published before `isProcessing` is cleared |
| UseTranscripts.TranscriptsHook.ProcessValid | src/hooks/useTranscripts.js:34-127 | with a valid entry: the slices' publications, then the invalid records when there are any, the progress values, the pauses and the closing status, leaving `isProcessing` as it was |
| UseTranscripts.TranscriptsHook.ClearStatus | src/hooks/useTranscripts.js:134 | the delayed clear empties the status line only |
| UseTranscripts.TranscriptsHook.ResetResults | src/hooks/useTranscripts.js:138-142 | results become empty, progress 0/0 and the status empty |
| UseTranscripts.FinalResultsLayout | src/hooks/useTranscripts.js:111-125 | the final list has one record per parsed entry: valid entries' records in input order, then invalid entries' records in input order |
| UseTranscripts.RecordsDescribeEntries | src/hooks/useTranscripts.js:42-123 | each valid record keeps its url and id, succeeds exactly when its call resolved, and otherwise carries the failure's text; each invalid record is an error without an id and with a non-empty message |
| UseTranscripts.BatchesOfThree | src/hooks/useTranscripts.js:37-41 | there are ceil(n/3) slices; after slice k the first min(3(k+1), n) records are published; the last publication holds them all |
| UseTranscripts.PausesBetweenBatches | src/hooks/useTranscripts.js:103-105 | there are ceil(n/3) - 1 pauses, and none without valid entries |
| UseTranscripts.ProgressCountsItems | src/hooks/useTranscripts.js:34-66 | the progress goes from 0/n to n/n one item at a time with a fixed total, and is never set with no valid entries |
| UseTranscripts.PublicationsArePrefixes | src/hooks/useTranscripts.js:93-125 | every publication is a prefix of the final results and extends the one before, and the last one is the final results |
| UseTranscripts.ItemThroughHandler | src/hooks/useTranscripts.js:68-81 | through the real handler an item succeeds exactly on 200, and a failure shows the wrapped status-500 message |
| TranscriptCard.TruncateTitle | src/components/TranscriptCard.jsx:9-12 | `truncateTitle`; `TruncateTitleBounds` states its result |
| TranscriptCard.SanitizeFilename | src/components/TranscriptCard.jsx:31-33 | `sanitizeFilename`; `SanitizedIsSafe`, `SanitizeIdempotent`, `SanitizeKeepsSafeName`, `SanitizeSpaceRun` and `SanitizeDropsRemoved` state its result |
| TranscriptCard.DownloadFilename | src/components/TranscriptCard.jsx:35-36 | the download file name; `DownloadFilenameShape` states its shape |
| TranscriptCard.SafeTitle | src/components/TranscriptCard.jsx:35 | the sanitised title, else `video_<id>`; `DownloadFilenameShape` states the name it builds |
| TranscriptCard.DownloadHeader | src/components/TranscriptCard.jsx:38-45 | the header of the downloaded file; `DownloadCarriesTranscript` states that the file is this header then the transcript |
| TranscriptCard.Copy | src/components/TranscriptCard.jsx:14-17 | `handleCopy`'s text; `DownloadCarriesTranscript` states when it copies and what |
| TranscriptCard.Download | src/components/TranscriptCard.jsx:27-49 | `handleDownload`'s file content and name; `DownloadCarriesTranscript` states when it happens and what the file holds |
| TranscriptCard.TruncatedTranscript | src/components/TranscriptCard.jsx:51-53 | the transcript preview; `PreviewBounds` states it |
| TranscriptCard.DisplayTitle | src/components/TranscriptCard.jsx:62 | the heading; `DisplayTitleFallback` states its fallbacks |
| TranscriptCard.TruncateTitleBounds | src/components/TranscriptCard.jsx:9-12 | a title of at most 60 characters is kept; a longer one becomes the middle of its first 60 characters, with only white space dropped before and after it, plus `...`, at most 63 in all |
| TranscriptCard.DisplayTitleFallback | src/components/TranscriptCard.jsx:61-62 | the heading is never empty: the shortened title, else `Video <id>`, else `Video Desconocido` |
| TranscriptCard.SanitizedIsSafe | src/components/TranscriptCard.jsx:31-33 | a sanitised name has at most 50 characters, all ASCII letters, digits, `-` or `_` |
| TranscriptCard.SanitizeIdempotent | src/components/TranscriptCard.jsx:31-33 | sanitising a sanitised name changes nothing |
| TranscriptCard.SanitizeKeepsSafeName | src/components/TranscriptCard.jsx:31-33 | a name made only of ASCII letters, digits, `-` and `_` comes back as its first 50 characters |
| TranscriptCard.SanitizeSpaceRun | src/components/TranscriptCard.jsx:31-33 | a run of white space between two safe parts becomes exactly one `_`, and the joined name is cut at 50 characters |
| TranscriptCard.SanitizeDropsRemoved | src/components/TranscriptCard.jsx:31-33 | a character outside letters, digits, `-`, `_` and white space is dropped as if it were not there |
| TranscriptCard.DownloadFilenameShape | src/components/TranscriptCard.jsx:35-36 | the file name is `transcript_<safe>_<timestamp>.txt`, free of white space with a title, naming the video without one |
| TranscriptCard.DownloadCarriesTranscript | src/components/TranscriptCard.jsx:14-49 | download and copy happen exactly with a truthy transcript; the file is the header followed by the whole transcript; copying takes the transcript |
| TranscriptCard.PreviewBounds | src/components/TranscriptCard.jsx:51-53 | the preview is the transcript when it has at most 300 characters, else its first 300 characters plus `...` |
| TranscriptList.DownloadAllText | src/components/TranscriptList.jsx:83-86 | the text of the download-all button; `EmptyExactlyWithoutExports` and `ExportsOfConcatenation` state it |
| TranscriptList.CopyAllText | src/components/TranscriptList.jsx:110-113 | the text of the copy-all button; `EmptyExactlyWithoutExports` and `ExportsOfConcatenation` state it |
| TranscriptList.SuccessCount | src/components/TranscriptList.jsx:8 | the records with status success; `CountsAddUp` and `ExportedAreSuccesses` state it |
| TranscriptList.ErrorCount | src/components/TranscriptList.jsx:9 | the records with status error; `CountsAddUp` states it |
| TranscriptList.ShowsGlobalActions | src/components/TranscriptList.jsx:73 | the global actions show when something succeeded; `EmptyExactlyWithoutExports` states it |
| TranscriptList.Exported | src/components/TranscriptList.jsx:84 | the successes with a truthy transcript; `ExportedAreSuccesses` and `EmptyExactlyWithoutExports` state it |
| TranscriptList.DownloadAll | src/components/TranscriptList.jsx:83-98 | the download-all action, which does nothing on an empty text; `EmptyExactlyWithoutExports` states when |
| TranscriptList.CopyAll | src/components/TranscriptList.jsx:110-117 | the copy-all action, which does nothing on an empty text; `EmptyExactlyWithoutExports` states when |
| TranscriptList.CountsAddUp | src/components/TranscriptList.jsx:8-9 | the success and error counts add up to the number of records |
| TranscriptList.ExportedAreSuccesses | src/components/TranscriptList.jsx:84 | no more records are exported than succeeded |
| TranscriptList.EmptyExactlyWithoutExports | src/components/TranscriptList.jsx:83-115 | both actions do nothing exactly when no record is exported; an export implies the global actions are shown; an empty list shows and exports nothing |
| TranscriptList.ExportsOfConcatenation | src/components/TranscriptList.jsx:83-113 | the download text of two lists is the first's then the second's; the copy text joins them with one separator when both have exports |

## Left out

- Network: `fetch`, `response.json()` and `response.text()`, and the CORS headers are not modelled. Upstream answers are injected values.
- The message `response.json()` rejects with on an empty body depends on the engine. The model uses one fixed text for it.
- Timers: the 500 ms pause between slices is counted but not timed. The 3000 ms status clear is the separate `ClearStatus` method. The 2000 ms copy badge is not modelled.
- Concurrency: the items of a slice settle in list order. `Promise.all` preserves that order, but the interleaving inside a slice is not modelled.
- Per-item status messages (`Procesando video <id>...`) and the `onProgress` callbacks are not modelled. They are free text that races between items. The final status is modelled.
- Environment: `getApiBaseUrl` is not modelled. The access token is a parameter, and an empty string stands for an unset token.
- The legacy endpoint wrappers `getVideoTextTracks`, `getTranscript` and `getVideoInfo` call endpoints that are not part of this model. The legacy function takes what those three calls produced as parameters. api/vimeo-video-info.js is not part of this model.
- UI files (App.jsx, UrlInput.jsx, LoadingJokes.jsx, jokes.js), DOM, Blob, clipboard and download effects, and React state in the components are not modelled. Only the strings they are given are modelled.
- `Date.now()` and `new Date().toISOString()` are parameters.
- Unreachable branches are not modelled:
  - the parser's `catch` (`Error procesando URL`), since nothing in the modelled segment handling throws;
  - the hook's top-level `catch` (`Error procesando las URLs`);
  - the "no valid track" branches (`api/vimeo-process.js:92-98`, `src/api/vimeo.js:163-165`), since a non-empty list always yields a track.
- A track list whose `data` is present and truthy but not a list (an object or a non-empty string) is not modelled. The handler would reach `.find` on it and answer 500 with the `TypeError`'s message from its `catch`. The legacy function would wrap the same `TypeError` as a 500 `VimeoAPIError`. In the model `data` is either absent (`None`, answered with the no-tracks 404) or a list.
- A track's language is a string and its `uri` is present. Three inputs are not modelled:
  - a captions track without a language, which would make `includes` throw at `api/vimeo-process.js:89`;
  - a chosen track without a `uri`: `autoTrack.uri.split` throws a `TypeError` at `api/vimeo-process.js:101`, and the handler answers 500 with that message from its `catch`;
  - a chosen fallback track that is not captions and has no language: the success record's `language` (`api/vimeo-process.js:143`) is then `undefined`, while in the model it is always a string.
- Absent, `null` and `undefined` fields are `None` or the empty string, as each field's truthiness test needs.
- `TranscriptList` receives a list, never `null`.
- Strings are sequences of code points. `length` and `substring` on characters outside the Basic Multilingual Plane, which count UTF-16 code units in JavaScript, are not modelled.
- Dropped fields are not modelled. Invalid-entry records have no title, language or track name, and are `None` there.
- `VimeoProcess.Handler`, `VimeoProcess.TryBlock`, `VimeoProcess.CatchBlock`, `UseTranscripts.TranscriptsHook.ProcessParsed`, `UseTranscripts.TranscriptsHook.ProcessValid` and `UrlParser.PushEntries` are separate members for proof size; the source has one function for each group.
