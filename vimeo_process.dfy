/** The serverless handler behind `/api/vimeo-process`: it checks the request, asks the
    Vimeo API for the video's title, its text tracks and the chosen track's transcript, turns
    the transcript into one line of plain text and answers with a status code and a record.
    The three Vimeo calls are an injected oracle; track selection and cue normalisation are
    shared with the client's older code path. */
module VimeoProcess {
  import opened JsText

  // ---------------------------------------------------------------- upstream data

  /** `/videos/<id>?fields=name`; a missing, null or empty name is the empty string. */
  datatype VideoInfo = VideoInfo(name: string)

  /** One text track; a missing name is the empty string. */
  datatype Track = Track(uri: string, trackType: string, language: string, name: string)

  /** `/videos/<id>/texttracks`: `data` is `None` when it is absent or null, and otherwise
      the list of tracks (a `data` that is present but not a list is not part of this model). */
  datatype TrackListing = TrackListing(data: Option<seq<Track>>)

  /** A cue of the current format: `lines` is `None` when it is absent or not a list, and a
      line is its `text`, the empty string when that is absent. */
  datatype DataCue = DataCue(lines: Option<seq<string>>)

  /** A cue of the older format; an absent text is the empty string. */
  datatype LegacyCue = LegacyCue(text: string)

  /** `/videos/<id>/transcripts/<track>`: any of the three fields may be present; an absent
      `transcript` is the empty string. */
  datatype TranscriptBody = TranscriptBody(data: Option<seq<DataCue>>, cues: Option<seq<LegacyCue>>, transcript: string)

  /** What one upstream request gives: the parsed body, a non-2xx answer, or a rejection. */
  datatype Fetched<T> =
    | Fetched(value: T)
    | HttpFailure(status: nat, statusText: string, body: string)
    | NetworkFailure(message: string)

  /** The Vimeo API as seen by the handler, keyed by the video id (and the track id). */
  datatype Vimeo = Vimeo(
    info: string -> Fetched<VideoInfo>,
    textTracks: string -> Fetched<TrackListing>,
    transcript: (string, string) -> Fetched<TranscriptBody>)

  // ---------------------------------------------------------------- handler data

  datatype Request = Request(httpMethod: string, videoId: string)

  datatype Status = Success | Error

  datatype TranscriptResult = TranscriptResult(
    videoId: string, title: string, transcript: Option<string>, language: Option<string>,
    trackName: Option<string>, error: Option<string>, status: Status)

  datatype Body = NoBody | ErrorBody(error: string) | RecordBody(record: TranscriptResult)

  datatype Response = Response(statusCode: nat, body: Body)

  /** The answer of the processing steps: a response, or the message of what they threw. */
  datatype Outcome = Replied(response: Response) | Threw(message: string)

  const MethodNotAllowedMessage: string := "Method not allowed"
  const TokenMissingMessage: string := "Vimeo access token not configured"
  const VideoIdRequiredMessage: string := "videoId is required"
  const NoTracksMessage: string := "No hay pistas de texto disponibles"
  const EmptyTranscriptMessage: string := "La transcripción está vacía o no tiene formato válido"
  const DefaultTrackName: string := "Transcripción automática"
  const NotFoundMessage: string := "Video no encontrado o sin transcripción disponible"
  const ForbiddenMessage: string := "No tienes permisos para acceder a este video"
  const RateLimitedMessage: string := "Límite de API excedido, intenta más tarde"

  function DefaultTitle(videoId: string): string {
    "Video " + videoId
  }

  /** The message `makeVimeoRequest` throws, or the rejection's own message. */
  function FailureMessage<T>(f: Fetched<T>): string
    requires !f.Fetched?
  {
    match f
    case HttpFailure(status, statusText, body) =>
      "Vimeo API error: " + NatToString(status) + " " + statusText + " - " + body
    case NetworkFailure(message) => message
  }

  /** The title: the default, replaced by a non-empty name; a failed request is ignored. */
  function TitleFor(videoId: string, info: Fetched<VideoInfo>): string {
    if info.Fetched? && info.value.name != [] then info.value.name else DefaultTitle(videoId)
  }

  // ---------------------------------------------------------------- track selection

  /** The `find` condition: automatic English captions, or captions whose language
      mentions `en`. */
  predicate IsPreferred(t: Track) {
    t.trackType == "captions" && (t.language == "en-x-autogen" || Includes(t.language, "en"))
  }

  /** The index of the first preferred track. */
  function FirstPreferred(ts: seq<Track>): (k: Option<nat>)
    ensures k.Some? ==> k.value < |ts| && IsPreferred(ts[k.value])
  {
    if ts == [] then None
    else if IsPreferred(ts[0]) then Some(0)
    else match FirstPreferred(ts[1..])
      case None => None
      case Some(k) => Some(k + 1)
  }

  /** `data.find(IsPreferred) || data[0]`. */
  function SelectTrack(ts: seq<Track>): Track
    requires ts != []
  {
    match FirstPreferred(ts)
    case Some(k) => ts[k]
    case None => ts[0]
  }

  /** `uri.split('/').pop()`: what follows the last `/`, or the whole uri when there is none. */
  function TrackId(uri: string): (id: string)
    ensures |id| <= |uri| && uri[|uri| - |id|..] == id
    ensures forall k :: 0 <= k < |id| ==> id[k] != '/'
    ensures |id| == |uri| || uri[|uri| - |id| - 1] == '/'
  {
    if uri == [] || uri[|uri| - 1] == '/' then []
    else TrackId(uri[..|uri| - 1]) + [uri[|uri| - 1]]
  }

  // ---------------------------------------------------------------- normalisation

  /** `cue.lines[0].text` when present and non-empty, else nothing (the empty string). */
  function FirstLineText(c: DataCue): string {
    if c.lines.Some? && c.lines.value != [] then c.lines.value[0] else []
  }

  function CueText(c: LegacyCue): string {
    c.text
  }

  /** The `filter(text => text && text.trim())` test. */
  predicate NotBlank(text: string) {
    Trim(text) != []
  }

  /** `.filter(NotBlank).join(' ').replace(/\s+/g, ' ').trim()` */
  function Normalise(fragments: seq<string>): string {
    Trim(CollapseSpaces(JoinWith(Filter(NotBlank, fragments), " "), ' '))
  }

  /** The plain text of a transcript body: a `data` list wins over a `cues` list, which wins
      over a raw `transcript`, which is taken as it is. */
  function TranscriptText(body: TranscriptBody): string {
    if body.data.Some? then Normalise(Map(FirstLineText, body.data.value))
    else if body.cues.Some? then Normalise(Map(CueText, body.cues.value))
    else body.transcript
  }

  // ---------------------------------------------------------------- the handler

  /** The steps inside the `try`: title, tracks, transcript, and the record built from them. */
  function Pipeline(videoId: string, v: Vimeo): Outcome {
    AfterTitle(videoId, TitleFor(videoId, v.info(videoId)), v.textTracks, v.transcript)
  }

  /** The steps after the title request, which only the title depends on. */
  function AfterTitle(videoId: string, title: string, textTracks: string -> Fetched<TrackListing>,
                      transcript: (string, string) -> Fetched<TranscriptBody>): Outcome
  {
    var result := TranscriptResult(videoId, title, None, None, None, None, Success);
    match textTracks(videoId)
    case Fetched(listing) =>
      if listing.data.None? || listing.data.value == [] then
        Replied(Response(404, RecordBody(result.(error := Some(NoTracksMessage), status := Error))))
      else
        var track := SelectTrack(listing.data.value);
        var answer := transcript(videoId, TrackId(track.uri));
        if !answer.Fetched? then Threw(FailureMessage(answer))
        else
          var text := TranscriptText(answer.value);
          if text == [] then
            Replied(Response(404, RecordBody(result.(error := Some(EmptyTranscriptMessage), status := Error))))
          else
            var name := if track.name != [] then track.name else DefaultTrackName;
            Replied(Response(200, RecordBody(result.(transcript := Some(text), language := Some(track.language), trackName := Some(name)))))
    case HttpFailure(_, _, _) => Threw(FailureMessage(textTracks(videoId)))
    case NetworkFailure(_) => Threw(FailureMessage(textTracks(videoId)))
  }

  /** The status code and message the `catch` block picks from the thrown message. */
  function Classify(message: string): (int, string) {
    if Includes(message, "404") then (404, NotFoundMessage)
    else if Includes(message, "403") then (403, ForbiddenMessage)
    else if Includes(message, "429") then (429, RateLimitedMessage)
    else (500, message)
  }

  /** The response of the `catch` block: an error record with the default title and no
      transcript, language or track name. */
  function CatchResponse(videoId: string, message: string): (r: Response)
    ensures r.body.RecordBody? && r.body.record.status == Error && r.body.record.videoId == videoId
    ensures r.body.record.title == DefaultTitle(videoId)
    ensures r.body.record.transcript.None? && r.body.record.language.None? && r.body.record.trackName.None?
  {
    var (code, text) := Classify(message);
    Response(code as nat, RecordBody(TranscriptResult(videoId, DefaultTitle(videoId), None, None, None, Some(text), Error)))
  }

  /** `handler(req, res)` as a function from the request, the configured token (empty when
      unset) and the Vimeo API to the response sent. */
  function Handle(req: Request, token: string, v: Vimeo): Response {
    if req.httpMethod == "OPTIONS" then Response(200, NoBody)
    else if req.httpMethod != "GET" then Response(405, ErrorBody(MethodNotAllowedMessage))
    else if token == [] then Response(500, ErrorBody(TokenMissingMessage))
    else if req.videoId == [] then Response(400, ErrorBody(VideoIdRequiredMessage))
    else match Pipeline(req.videoId, v)
      case Replied(r) => r
      case Threw(m) => CatchResponse(req.videoId, m)
  }

  /** The handler step by step: the guards, then the `try` block, then the `catch` block
      when the `try` block threw. */
  method Handler(req: Request, token: string, v: Vimeo) returns (res: Response)
    ensures res == Handle(req, token, v)
  {
    if req.httpMethod == "OPTIONS" {
      return Response(200, NoBody);
    }
    if req.httpMethod != "GET" {
      return Response(405, ErrorBody(MethodNotAllowedMessage));
    }
    if token == [] {
      return Response(500, ErrorBody(TokenMissingMessage));
    }
    var videoId := req.videoId;
    if videoId == [] {
      return Response(400, ErrorBody(VideoIdRequiredMessage));
    }
    var outcome := TryBlock(videoId, v);
    match outcome
    case Replied(r) =>
      res := r;
    case Threw(message) =>
      res := CatchBlock(videoId, message);
  }

  /** The `try` block: the record is built with its defaults and then updated field by
      field; it answers the response sent, or the message of what it threw. */
  method TryBlock(videoId: string, v: Vimeo) returns (outcome: Outcome)
    ensures outcome == Pipeline(videoId, v)
  {
    var result := TranscriptResult(videoId, DefaultTitle(videoId), None, None, None, None, Success);
    var info := v.info(videoId);
    if info.Fetched? && info.value.name != [] {
      result := result.(title := info.value.name);
    }
    assert result.title == TitleFor(videoId, info);
    var tracks := v.textTracks(videoId);
    if !tracks.Fetched? {
      return Threw(FailureMessage(tracks));
    }
    if tracks.value.data.None? || tracks.value.data.value == [] {
      return Replied(Response(404, RecordBody(result.(error := Some(NoTracksMessage), status := Error))));
    }
    var autoTrack := SelectTrack(tracks.value.data.value);
    var answer := v.transcript(videoId, TrackId(autoTrack.uri));
    if !answer.Fetched? {
      return Threw(FailureMessage(answer));
    }
    var transcriptText := TranscriptText(answer.value);
    if transcriptText == [] {
      return Replied(Response(404, RecordBody(result.(error := Some(EmptyTranscriptMessage), status := Error))));
    }
    result := result.(transcript := Some(transcriptText));
    result := result.(language := Some(autoTrack.language));
    result := result.(trackName := Some(if autoTrack.name != [] then autoTrack.name else DefaultTrackName));
    return Replied(Response(200, RecordBody(result)));
  }

  /** The `catch` block: the status code and message assigned through the if/else chain. */
  method CatchBlock(videoId: string, message: string) returns (res: Response)
    ensures res == CatchResponse(videoId, message)
  {
    var statusCode := 500;
    var errorMessage := "Internal server error";
    if Includes(message, "404") {
      statusCode := 404;
      errorMessage := NotFoundMessage;
    } else if Includes(message, "403") {
      statusCode := 403;
      errorMessage := ForbiddenMessage;
    } else if Includes(message, "429") {
      statusCode := 429;
      errorMessage := RateLimitedMessage;
    } else {
      errorMessage := message;
    }
    res := Response(statusCode, RecordBody(TranscriptResult(videoId, DefaultTitle(videoId), None, None, None, Some(errorMessage), Error)));
  }

  // ---------------------------------------------------------------- normalisation properties

  /** A blank fragment has no words. */
  lemma BlankHasNoWords(text: string)
    ensures !NotBlank(text) <==> Words(text) == []
  {
    TrimEmpty(text);
    WordsEmpty(text);
  }

  /** Dropping blank fragments loses no word. */
  lemma {:induction false} DroppingBlanksKeepsWords(fragments: seq<string>)
    ensures WordsOfAll(Filter(NotBlank, fragments)) == WordsOfAll(fragments)
  {
    if fragments != [] {
      DroppingBlanksKeepsWords(fragments[1..]);
      BlankHasNoWords(fragments[0]);
      if NotBlank(fragments[0]) {
        assert Filter(NotBlank, fragments) == [fragments[0]] + Filter(NotBlank, fragments[1..]);
        assert ([fragments[0]] + Filter(NotBlank, fragments[1..]))[1..] == Filter(NotBlank, fragments[1..]);
      }
    }
  }

  /** The fragments have no words at all exactly when every one of them is blank. */
  lemma {:induction false} NoWordsIffAllBlank(fragments: seq<string>)
    ensures WordsOfAll(fragments) == [] <==> forall k :: 0 <= k < |fragments| ==> !NotBlank(fragments[k])
  {
    if fragments != [] {
      NoWordsIffAllBlank(fragments[1..]);
      BlankHasNoWords(fragments[0]);
      assert forall k :: 1 <= k < |fragments| ==> fragments[k] == fragments[1..][k - 1];
    }
  }

  /** The normalised text is the words of all fragments, in order, joined by single spaces:
      so it has no white space at either end and no two white-space characters in a row, and
      it is empty exactly when every fragment is blank. */
  lemma NormaliseIsJoinedWords(fragments: seq<string>)
    ensures Normalise(fragments) == JoinWith(WordsOfAll(fragments), " ")
    ensures Trimmed(Normalise(fragments)) && NoDoubleSpace(Normalise(fragments))
    ensures Normalise(fragments) == [] <==> forall k :: 0 <= k < |fragments| ==> !NotBlank(fragments[k])
  {
    var kept := Filter(NotBlank, fragments);
    CollapseThenTrim(JoinWith(kept, " "));
    WordsOfJoin(kept);
    DroppingBlanksKeepsWords(fragments);
    WordsOfAllAreWords(fragments);
    JoinedWordsAreClean(WordsOfAll(fragments));
    NoWordsIffAllBlank(fragments);
  }

  /** The shape precedence and what each shape gives: the cue shapes are normalised to their
      words, the raw transcript is kept as it is, and a shape is ignored when a shape before
      it is present. */
  lemma TranscriptTextByShape(body: TranscriptBody)
    ensures body.data.Some? ==>
      TranscriptText(body) == JoinWith(WordsOfAll(Map(FirstLineText, body.data.value)), " ")
    ensures body.data.None? && body.cues.Some? ==>
      TranscriptText(body) == JoinWith(WordsOfAll(Map(CueText, body.cues.value)), " ")
    ensures body.data.None? && body.cues.None? ==> TranscriptText(body) == body.transcript
    ensures body.data.Some? || body.cues.Some? ==>
      Trimmed(TranscriptText(body)) && NoDoubleSpace(TranscriptText(body))
  {
    if body.data.Some? {
      NormaliseIsJoinedWords(Map(FirstLineText, body.data.value));
    } else if body.cues.Some? {
      NormaliseIsJoinedWords(Map(CueText, body.cues.value));
    }
  }

  // ---------------------------------------------------------------- track selection properties

  lemma {:induction false} FirstPreferredIsFirst(ts: seq<Track>)
    ensures match FirstPreferred(ts)
      case Some(k) => forall j :: 0 <= j < k ==> !IsPreferred(ts[j])
      case None => forall j :: 0 <= j < |ts| ==> !IsPreferred(ts[j])
  {
    if ts != [] && !IsPreferred(ts[0]) {
      FirstPreferredIsFirst(ts[1..]);
      assert forall j :: 1 <= j < |ts| ==> ts[j] == ts[1..][j - 1];
    }
  }

  /** The chosen track is one of the listed tracks: the first preferred one when there is
      one, otherwise the first track. */
  lemma SelectTrackIsFirstPreferred(ts: seq<Track>)
    requires ts != []
    ensures SelectTrack(ts) in ts
    ensures (exists k :: 0 <= k < |ts| && IsPreferred(ts[k])) ==>
      exists k :: 0 <= k < |ts| && SelectTrack(ts) == ts[k] && IsPreferred(ts[k])
        && forall j :: 0 <= j < k ==> !IsPreferred(ts[j])
    ensures (forall k :: 0 <= k < |ts| ==> !IsPreferred(ts[k])) ==> SelectTrack(ts) == ts[0]
  {
    FirstPreferredIsFirst(ts);
  }

  // ---------------------------------------------------------------- handler properties

  /** The guards, in order; when one of them answers, the Vimeo API is not consulted. */
  lemma GuardsComeFirst(req: Request, token: string, v: Vimeo, other: Vimeo)
    ensures req.httpMethod == "OPTIONS" ==> Handle(req, token, v) == Response(200, NoBody)
    ensures req.httpMethod != "OPTIONS" && req.httpMethod != "GET" ==>
      Handle(req, token, v) == Response(405, ErrorBody(MethodNotAllowedMessage))
    ensures req.httpMethod == "GET" && token == [] ==>
      Handle(req, token, v) == Response(500, ErrorBody(TokenMissingMessage))
    ensures req.httpMethod == "GET" && token != [] && req.videoId == [] ==>
      Handle(req, token, v) == Response(400, ErrorBody(VideoIdRequiredMessage))
    ensures req.httpMethod != "GET" || token == [] || req.videoId == [] ==>
      Handle(req, token, v) == Handle(req, token, other)
  {
  }

  /** Every record answer is about the requested video; it is a success exactly when the
      status code is 200, a success carries a non-empty transcript, a language and a
      non-empty track name, and an error carries a message and no transcript.  The status
      code is always one of 200, 400, 403, 404, 405, 429 and 500. */
  lemma ResponseShape(req: Request, token: string, v: Vimeo)
    ensures var r := Handle(req, token, v);
      r.statusCode in {200, 400, 403, 404, 405, 429, 500}
    ensures var r := Handle(req, token, v);
      r.body.RecordBody? ==>
        (r.body.record.videoId == req.videoId && (r.statusCode == 200 <==> r.body.record.status == Success))
    ensures var r := Handle(req, token, v);
      r.body.RecordBody? && r.body.record.status == Success ==>
        && r.body.record.transcript.Some? && r.body.record.transcript.value != []
        && r.body.record.language.Some?
        && r.body.record.trackName.Some? && r.body.record.trackName.value != []
        && r.body.record.error.None?
    ensures var r := Handle(req, token, v);
      r.body.RecordBody? && r.body.record.status == Error ==>
        r.body.record.error.Some? && r.body.record.transcript.None?
  {
  }

  /** A transcript is served exactly when the track list is non-empty, the chosen track's
      transcript arrives and its text is not empty; the record then holds that text, the
      track's language, its name or the default, and the title from the video info. */
  lemma SuccessCharacterised(videoId: string, token: string, v: Vimeo)
    requires token != [] && videoId != []
    ensures var r := Handle(Request("GET", videoId), token, v);
      var tracks := v.textTracks(videoId);
      r.statusCode == 200 <==>
        && tracks.Fetched? && tracks.value.data.Some? && tracks.value.data.value != []
        && v.transcript(videoId, TrackId(SelectTrack(tracks.value.data.value).uri)).Fetched?
        && TranscriptText(v.transcript(videoId, TrackId(SelectTrack(tracks.value.data.value).uri)).value) != []
    ensures var r := Handle(Request("GET", videoId), token, v);
      var tracks := v.textTracks(videoId);
      r.statusCode == 200 ==>
        var track := SelectTrack(tracks.value.data.value);
        r.body == RecordBody(TranscriptResult(
          videoId, TitleFor(videoId, v.info(videoId)),
          Some(TranscriptText(v.transcript(videoId, TrackId(track.uri)).value)),
          Some(track.language),
          Some(if track.name != [] then track.name else DefaultTrackName),
          None, Success))
  {
    var o := Pipeline(videoId, v);
    if o.Threw? {
      CatchNever200(videoId, o);
    }
  }

  /** The two answers the `try` block gives itself: 404 with the no-tracks message when the
      track list is missing or empty, and 404 with the empty-transcript message when the
      chosen track's transcript arrives but has no text.  Both records keep the title from
      the video info and carry no transcript, language or track name. */
  lemma NotFoundAnswers(videoId: string, token: string, v: Vimeo)
    requires token != [] && videoId != []
    ensures var tracks := v.textTracks(videoId);
      var base := TranscriptResult(videoId, TitleFor(videoId, v.info(videoId)), None, None, None, None, Success);
      tracks.Fetched? && (tracks.value.data.None? || tracks.value.data.value == []) ==>
        Handle(Request("GET", videoId), token, v)
          == Response(404, RecordBody(base.(error := Some(NoTracksMessage), status := Error)))
    ensures var tracks := v.textTracks(videoId);
      var base := TranscriptResult(videoId, TitleFor(videoId, v.info(videoId)), None, None, None, None, Success);
      tracks.Fetched? && tracks.value.data.Some? && tracks.value.data.value != [] ==>
        var answer := v.transcript(videoId, TrackId(SelectTrack(tracks.value.data.value).uri));
        answer.Fetched? && TranscriptText(answer.value) == [] ==>
          Handle(Request("GET", videoId), token, v)
            == Response(404, RecordBody(base.(error := Some(EmptyTranscriptMessage), status := Error)))
  {
  }

  lemma CatchNever200(videoId: string, o: Outcome)
    requires o.Threw?
    ensures CatchResponse(videoId, o.message).statusCode != 200
  {
  }

  /** A failed title request changes nothing compared with a video that has no name. */
  lemma TitleFailureIsHarmless(req: Request, token: string, v: Vimeo, w: Vimeo)
    requires !v.info(req.videoId).Fetched?
    requires w.info(req.videoId) == Fetched(VideoInfo([]))
    requires w.textTracks == v.textTracks && w.transcript == v.transcript
    ensures Handle(req, token, v) == Handle(req, token, w)
  {
    assert TitleFor(req.videoId, v.info(req.videoId)) == TitleFor(req.videoId, w.info(req.videoId));
  }

  /** A failing tracks or transcript request is answered by the `catch` block with the
      request's message. */
  lemma FailuresAreCaught(videoId: string, token: string, v: Vimeo)
    requires token != [] && videoId != []
    ensures var tracks := v.textTracks(videoId);
      !tracks.Fetched? ==>
        Handle(Request("GET", videoId), token, v) == CatchResponse(videoId, FailureMessage(tracks))
    ensures var tracks := v.textTracks(videoId);
      tracks.Fetched? && tracks.value.data.Some? && tracks.value.data.value != [] ==>
        var answer := v.transcript(videoId, TrackId(SelectTrack(tracks.value.data.value).uri));
        !answer.Fetched? ==>
          Handle(Request("GET", videoId), token, v) == CatchResponse(videoId, FailureMessage(answer))
  {
    var tracks := v.textTracks(videoId);
    if !tracks.Fetched? {
      TrackFailureThrows(videoId, v);
    } else if tracks.value.data.Some? && tracks.value.data.value != [] {
      TranscriptFailureThrows(videoId, v);
    }
  }

  lemma TrackFailureThrows(videoId: string, v: Vimeo)
    requires !v.textTracks(videoId).Fetched?
    ensures Pipeline(videoId, v) == Threw(FailureMessage(v.textTracks(videoId)))
  {
  }

  lemma TranscriptFailureThrows(videoId: string, v: Vimeo)
    requires v.textTracks(videoId).Fetched?
    requires v.textTracks(videoId).value.data.Some? && v.textTracks(videoId).value.data.value != []
    ensures var answer := v.transcript(videoId, TrackId(SelectTrack(v.textTracks(videoId).value.data.value).uri));
      !answer.Fetched? ==> Pipeline(videoId, v) == Threw(FailureMessage(answer))
  {
  }

  /** An upstream 404 is always reported as 404, whatever its status text and body say. */
  lemma UpstreamNotFoundIsNotFound(videoId: string, statusText: string, body: string)
    ensures var f: Fetched<TrackListing> := HttpFailure(404, statusText, body);
      CatchResponse(videoId, FailureMessage(f)) == Response(404, RecordBody(TranscriptResult(videoId, DefaultTitle(videoId), None, None, None, Some(NotFoundMessage), Error)))
  {
    var f: Fetched<TrackListing> := HttpFailure(404, statusText, body);
    var m := FailureMessage(f);
    var n := NatToString(404);
    NatToStringThreeDigits(404);
    assert n == "404";
    assert m == "Vimeo API error: " + n + (" " + statusText + " - " + body);
    IncludesAt(m, "404");
    assert OccursAt(m, "404", 17);
  }

  /** The codes the `catch` block looks for. */
  predicate IsWatchedCode(t: string) {
    t == "404" || t == "403" || t == "429"
  }

  /** With a three-digit upstream status and a status text and body that mention none of the
      watched codes, the reply's status is the upstream status when it is 403, 404 or 429, and
      500 with the full upstream message otherwise. */
  lemma UpstreamStatusMapping(videoId: string, status: nat, statusText: string, body: string)
    requires 100 <= status <= 999
    requires !Includes(statusText, "404") && !Includes(statusText, "403") && !Includes(statusText, "429")
    requires !Includes(body, "404") && !Includes(body, "403") && !Includes(body, "429")
    ensures var f: Fetched<TrackListing> := HttpFailure(status, statusText, body);
      var r := CatchResponse(videoId, FailureMessage(f));
      && (status == 404 || status == 403 || status == 429 ==> r.statusCode == status)
      && (status != 404 && status != 403 && status != 429 ==>
            r.statusCode == 500 && r.body.record.error == Some(FailureMessage(f)))
  {
    var f: Fetched<TrackListing> := HttpFailure(status, statusText, body);
    var m := FailureMessage(f);
    assert NoSpace("404") && NoSpace("403") && NoSpace("429");
    MessageIncludes(status, statusText, body, "404");
    MessageIncludes(status, statusText, body, "403");
    MessageIncludes(status, statusText, body, "429");
    StatusIncludesCode(status);
    assert Includes(m, "404") <==> status == 404;
    assert Includes(m, "403") <==> status == 403;
    assert Includes(m, "429") <==> status == 429;
  }

  /** The rendered status includes a watched code exactly when it is that code. */
  lemma StatusIncludesCode(status: nat)
    requires 100 <= status <= 999
    ensures Includes(NatToString(status), "404") <==> status == 404
    ensures Includes(NatToString(status), "403") <==> status == 403
    ensures Includes(NatToString(status), "429") <==> status == 429
  {
    RenderedCodes();
    ThreeDigitCode(status, 404);
    ThreeDigitCode(status, 403);
    ThreeDigitCode(status, 429);
  }

  lemma RenderedCodes()
    ensures NatToString(404) == "404" && NatToString(403) == "403" && NatToString(429) == "429"
  {
    NatToStringThreeDigits(404);
    NatToStringThreeDigits(403);
    NatToStringThreeDigits(429);
  }

  /** `NatToString(status)` includes a three-digit code exactly when it is that code. */
  lemma ThreeDigitCode(status: nat, code: nat)
    requires 100 <= status <= 999 && 100 <= code <= 999
    ensures Includes(NatToString(status), NatToString(code)) <==> status == code
  {
    NatToStringThreeDigits(status);
    NatToStringThreeDigits(code);
    IncludesSameLength(NatToString(status), NatToString(code));
    if NatToString(status) == NatToString(code) {
      assert DigitChar(status / 100) == DigitChar(code / 100);
      assert DigitChar(status / 10 % 10) == DigitChar(code / 10 % 10);
      assert DigitChar(status % 10) == DigitChar(code % 10);
    }
  }

  /** A code occurs in the upstream message only inside the rendered status, the status
      text or the body. */
  lemma MessageIncludes(status: nat, statusText: string, body: string, code: string)
    requires code != [] && NoSpace(code) && IsDigit(code[0])
    ensures var f: Fetched<TrackListing> := HttpFailure(status, statusText, body);
      var m := FailureMessage(f);
      Includes(m, code) <==>
        Includes(NatToString(status), code) || Includes(statusText, code) || Includes(body, code)
  {
    var rest := NatToString(status) + " " + (statusText + " " + ("-" + " " + body));
    MessageLayout(status, statusText, body);
    IncludesAcrossSpace("Vimeo API error:", rest, code);
    HeaderIncludesNoCode(code);
    PiecesIncludes(NatToString(status), statusText, body, code);
  }

  lemma HeaderIncludesNoCode(code: string)
    requires code != [] && IsDigit(code[0])
    ensures !Includes("Vimeo API error:", code)
  {
    var h := "Vimeo API error:";
    forall i | 0 <= i < |h|
      ensures !IsDigit(h[i])
    {
    }
    NoDigitsNoCode(h, code);
  }

  lemma PiecesIncludes(n: string, statusText: string, body: string, code: string)
    requires code != [] && NoSpace(code) && IsDigit(code[0])
    ensures Includes(n + " " + (statusText + " " + ("-" + " " + body)), code) <==>
      Includes(n, code) || Includes(statusText, code) || Includes(body, code)
  {
    IncludesAcrossSpace(n, statusText + " " + ("-" + " " + body), code);
    IncludesAcrossSpace(statusText, "-" + " " + body, code);
    IncludesAcrossSpace("-", body, code);
    NoDigitsNoCode("-", code);
  }

  /** The upstream message is five pieces separated by single spaces. */
  lemma MessageLayout(status: nat, statusText: string, body: string)
    ensures var f: Fetched<TrackListing> := HttpFailure(status, statusText, body);
      FailureMessage(f)
        == "Vimeo API error:" + " " + (NatToString(status) + " " + (statusText + " " + ("-" + " " + body)))
  {
    var n := NatToString(status);
    assert "Vimeo API error: " == "Vimeo API error:" + " ";
    assert " - " == " " + "-" + " ";
  }
}
