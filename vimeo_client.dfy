/** The browser side of the transcript service: `VimeoAPIError`, `makeRequest` (one GET to
    a serverless function), `processVideoTranscriptUnified` (one call to
    `/api/vimeo-process`) and the older `processVideoTranscriptLegacy`, which does the track
    selection and normalisation itself with the handler's functions. */
module VimeoClient {
  import opened JsText
  import opened VimeoProcess

  /** `new VimeoAPIError(message, status, videoId)`. */
  datatype VimeoApiError = VimeoApiError(message: string, status: nat, videoId: string)
  {
    const name: string := "VimeoAPIError"
  }

  /** What the client code throws: a `VimeoAPIError`, or any other error with its `name`
      (`Error`, `TypeError`, `SyntaxError`...) and message.  Those other errors have no
      `status`. */
  datatype Thrown = ApiError(error: VimeoApiError) | PlainError(name: string, message: string)

  /** The result of an asynchronous step: its value, or what it threw. */
  datatype Attempt<T> = Got(value: T) | Failed(thrown: Thrown)

  /** What `fetch` gives for a request to the serverless function: a response with its
      status, status text and body, or a rejection with the error's name and message. */
  datatype Transport =
    | Delivered(status: nat, statusText: string, body: Body)
    | FetchRejected(name: string, message: string)

  /** The object `processVideoTranscriptUnified` returns; a field the body lacks is `None`. */
  datatype ClientResult = ClientResult(
    videoId: Option<string>, title: Option<string>, transcript: Option<string>,
    language: Option<string>, trackName: Option<string>)

  const ConnectionMessage: string := "Error de conexión: Verifica que el servidor esté funcionando"

  /** What `response.json()` rejects with when the body is empty. */
  const EmptyJsonMessage: string := "Unexpected end of JSON input"

  function ThrownMessage(e: Thrown): string {
    match e
    case ApiError(err) => err.message
    case PlainError(_, message) => message
  }

  predicate IsOk(status: nat) {
    200 <= status <= 299
  }

  /** `errorData.error` of an error body, the empty string when there is none (an empty body
      parses to `{}`). */
  function ErrorField(body: Body): string {
    match body
    case NoBody => []
    case ErrorBody(error) => error
    case RecordBody(record) => if record.error.Some? then record.error.value else []
  }

  /** The `catch` of `makeRequest`: a failed fetch becomes the connection message, anything
      else is thrown again. */
  function RequestCatch(e: Thrown): (r: Thrown)
  {
    if e.PlainError? && e.name == "TypeError" && Includes(e.message, "fetch")
    then PlainError("Error", ConnectionMessage)
    else e
  }

  /** `makeRequest(endpoint, params)` given what `fetch` produced. */
  function MakeRequest(t: Transport): Attempt<Body> {
    match t
    case FetchRejected(name, message) => Failed(RequestCatch(PlainError(name, message)))
    case Delivered(status, statusText, body) =>
      if !IsOk(status) then
        var e := ErrorField(body);
        Failed(RequestCatch(PlainError("Error", if e != [] then e else "HTTP " + NatToString(status) + ": " + statusText)))
      else if body.NoBody? then Failed(PlainError("SyntaxError", EmptyJsonMessage))
      else Got(body)
  }

  /** The `catch` of both transcript functions: a `VimeoAPIError` goes through, anything
      else is wrapped with the video id and status 500 (`error.status || 500`, and these
      errors have no status). */
  function Rewrap(videoId: string, e: Thrown): Thrown {
    match e
    case ApiError(_) => e
    case PlainError(_, message) =>
      ApiError(VimeoApiError("Error procesando video " + videoId + ": " + message, 500, videoId))
  }

  /** The fields of a successful body; a plain error body has none of them. */
  function Project(body: Body): ClientResult {
    match body
    case RecordBody(r) => ClientResult(Some(r.videoId), Some(r.title), r.transcript, r.language, r.trackName)
    case _ => ClientResult(None, None, None, None, None)
  }

  /** `processVideoTranscriptUnified(videoId)` given the transport of its one request. */
  function Unified(videoId: string, t: Transport): Attempt<ClientResult> {
    match MakeRequest(t)
    case Failed(e) => Failed(Rewrap(videoId, e))
    case Got(body) =>
      if body.RecordBody? && body.record.status == Error then
        var message := if body.record.error.Some? then body.record.error.value else [];
        Failed(ApiError(VimeoApiError(message, 404, videoId)))
      else Got(Project(body))
  }

  /** `processVideoTranscriptLegacy(videoId)` given what its three requests produced (the
      transcript request keyed by the track id). */
  function Legacy(videoId: string, info: Attempt<VideoInfo>, tracks: Attempt<TrackListing>,
                  transcript: string -> Attempt<TranscriptBody>): Attempt<ClientResult>
  {
    var videoTitle := if info.Got? && info.value.name != [] then info.value.name else DefaultTitle(videoId);
    match tracks
    case Failed(e) => Failed(Rewrap(videoId, e))
    case Got(listing) =>
      if listing.data.None? || listing.data.value == [] then
        Failed(ApiError(VimeoApiError(NoTracksMessage, 404, videoId)))
      else
        var track := SelectTrack(listing.data.value);
        match transcript(TrackId(track.uri))
        case Failed(e) => Failed(Rewrap(videoId, e))
        case Got(answer) =>
          var text := TranscriptText(answer);
          if text == [] then Failed(ApiError(VimeoApiError(EmptyTranscriptMessage, 404, videoId)))
          else Got(ClientResult(Some(videoId), Some(videoTitle), Some(text), Some(track.language),
                                Some(if track.name != [] then track.name else DefaultTrackName)))
  }

  // ---------------------------------------------------------------- properties

  /** A non-OK answer throws a plain error with the body's `error`, or with the status line
      when the body has none; a rejected fetch whose error is a `TypeError` mentioning
      `fetch` becomes the connection message, any other rejection is thrown unchanged. */
  lemma MakeRequestErrors(t: Transport)
    ensures t.Delivered? && !IsOk(t.status) ==>
      MakeRequest(t) == Failed(PlainError("Error",
        if ErrorField(t.body) != [] then ErrorField(t.body)
        else "HTTP " + NatToString(t.status) + ": " + t.statusText))
    ensures t.FetchRejected? ==>
      MakeRequest(t) == Failed(
        if t.name == "TypeError" && Includes(t.message, "fetch") then PlainError("Error", ConnectionMessage)
        else PlainError(t.name, t.message))
    ensures MakeRequest(t).Got? <==> t.Delivered? && IsOk(t.status) && !t.body.NoBody?
  {
  }

  /** The `catch` of the transcript functions leaves a `VimeoAPIError` alone, turns anything
      else into one for the same video with status 500 and the message prefixed, and doing it
      twice is doing it once. */
  lemma RewrapProperties(videoId: string, e: Thrown)
    ensures Rewrap(videoId, e).ApiError?
    ensures e.ApiError? ==> Rewrap(videoId, e) == e
    ensures e.PlainError? ==>
      (Rewrap(videoId, e).error == VimeoApiError("Error procesando video " + videoId + ": " + e.message, 500, videoId))
    ensures Rewrap(videoId, Rewrap(videoId, e)) == Rewrap(videoId, e)
  {
  }

  /** The unified function only ever throws a `VimeoAPIError`, and that error names the
      requested video; it returns exactly when the answer was an OK body that is not an error
      record, and then returns that body's fields.  An OK error record becomes a
      `VimeoAPIError` with the record's message and status 404. */
  lemma UnifiedThrowsApiErrors(videoId: string, t: Transport)
    ensures Unified(videoId, t).Failed? ==>
      Unified(videoId, t).thrown.ApiError? && Unified(videoId, t).thrown.error.videoId == videoId
    ensures Unified(videoId, t).Got? <==>
      t.Delivered? && IsOk(t.status) && !t.body.NoBody?
        && !(t.body.RecordBody? && t.body.record.status == Error)
    ensures Unified(videoId, t).Got? ==> Unified(videoId, t).value == Project(t.body)
    ensures t.Delivered? && IsOk(t.status) && t.body.RecordBody? && t.body.record.status == Error ==>
      Unified(videoId, t) == Failed(ApiError(VimeoApiError(
        if t.body.record.error.Some? then t.body.record.error.value else [], 404, videoId)))
  {
    MakeRequestErrors(t);
  }

  /** Through the real handler, a transcript comes back exactly when the handler answered
      200; it is then the handler's record.  Any failure reaches the caller as a
      `VimeoAPIError` with status 500 whose message carries the handler's message (or the
      status line when that is empty), so no failure of the handler arrives with status 404,
      403 or 429. */
  lemma UnifiedThroughHandler(videoId: string, token: string, v: Vimeo, statusText: string)
    ensures var r := Handle(Request("GET", videoId), token, v);
      var u := Unified(videoId, Delivered(r.statusCode, statusText, r.body));
      && (u.Got? <==> r.statusCode == 200)
      && (u.Got? ==> r.body.RecordBody? && u.value == Project(r.body) && u.value.transcript.Some?
                     && u.value.transcript.value != [])
      && (u.Failed? ==> u.thrown == ApiError(VimeoApiError(
            "Error procesando video " + videoId + ": "
              + (if ErrorField(r.body) != [] then ErrorField(r.body)
                 else "HTTP " + NatToString(r.statusCode) + ": " + statusText),
            500, videoId)))
  {
    var r := Handle(Request("GET", videoId), token, v);
    ResponseShape(Request("GET", videoId), token, v);
    MakeRequestErrors(Delivered(r.statusCode, statusText, r.body));
    if r.statusCode == 200 {
      assert r.body.RecordBody?;
    }
  }

  /** The legacy function agrees with the handler: given the same answers from Vimeo, it
      returns exactly when the handler answers 200, with the same title, transcript,
      language and track name. */
  lemma LegacyAgreesWithHandler(videoId: string, token: string, v: Vimeo,
                                info: Attempt<VideoInfo>, tracks: Attempt<TrackListing>,
                                transcript: string -> Attempt<TranscriptBody>)
    requires token != [] && videoId != []
    requires info.Got? <==> v.info(videoId).Fetched?
    requires info.Got? ==> info.value == v.info(videoId).value
    requires tracks.Got? <==> v.textTracks(videoId).Fetched?
    requires tracks.Got? ==> tracks.value == v.textTracks(videoId).value
    requires forall id :: transcript(id).Got? <==> v.transcript(videoId, id).Fetched?
    requires forall id :: transcript(id).Got? ==> transcript(id).value == v.transcript(videoId, id).value
    ensures var r := Handle(Request("GET", videoId), token, v);
      var l := Legacy(videoId, info, tracks, transcript);
      && (l.Got? <==> r.statusCode == 200)
      && (l.Got? ==>
            && r.body.RecordBody?
            && l.value.title == Some(r.body.record.title)
            && l.value.transcript == r.body.record.transcript
            && l.value.language == r.body.record.language
            && l.value.trackName == r.body.record.trackName)
  {
    var r := Handle(Request("GET", videoId), token, v);
    var l := Legacy(videoId, info, tracks, transcript);
    SuccessCharacterised(videoId, token, v);
    if tracks.Got? && tracks.value.data.Some? && tracks.value.data.value != [] {
      var track := SelectTrack(tracks.value.data.value);
      var a := transcript(TrackId(track.uri));
      if a.Got? {
        assert l.Got? <==> TranscriptText(a.value) != [];
        assert TitleFor(videoId, v.info(videoId))
          == if info.Got? && info.value.name != [] then info.value.name else DefaultTitle(videoId);
      } else {
        assert l.Failed?;
      }
    } else {
      assert l.Failed?;
    }
  }

  /** The legacy function also throws only `VimeoAPIError`s for the requested video: its own
      404s when there is no track (the no-tracks message) or no text (the empty-transcript
      message), and wrapped or passed-on errors otherwise. */
  lemma LegacyThrowsApiErrors(videoId: string, info: Attempt<VideoInfo>, tracks: Attempt<TrackListing>,
                              transcript: string -> Attempt<TranscriptBody>)
    requires tracks.Failed? ==> tracks.thrown.ApiError? ==> tracks.thrown.error.videoId == videoId
    requires forall id :: transcript(id).Failed? && transcript(id).thrown.ApiError? ==>
      transcript(id).thrown.error.videoId == videoId
    ensures var l := Legacy(videoId, info, tracks, transcript);
      l.Failed? ==> l.thrown.ApiError? && l.thrown.error.videoId == videoId
    ensures tracks.Got? && (tracks.value.data.None? || tracks.value.data.value == []) ==>
      Legacy(videoId, info, tracks, transcript) == Failed(ApiError(VimeoApiError(NoTracksMessage, 404, videoId)))
    ensures tracks.Got? && tracks.value.data.Some? && tracks.value.data.value != [] ==>
      var answer := transcript(TrackId(SelectTrack(tracks.value.data.value).uri));
      answer.Got? && TranscriptText(answer.value) == [] ==>
        Legacy(videoId, info, tracks, transcript) == Failed(ApiError(VimeoApiError(EmptyTranscriptMessage, 404, videoId)))
  {
  }
}
