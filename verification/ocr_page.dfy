/** The capture page's state and its event handlers, each a pure transition
    from the page state and the abstract outcome of the browser or network
    calls the handler makes.

    A handler that awaits is split at its first suspension point where the
    state at that point matters: `BeginLiveCamera` and `BeginUpload` are the
    synchronous prefixes, `FinishLiveCamera` and `FinishUpload` the rest, and
    the whole handler is their composition. Each handler is atomic given its
    outcome; interleavings of pending handlers are not modelled. */
module OcrPage {
  import opened Wrappers
  import Decimal

  type TrackId = nat

  datatype TrackState = Live | Stopped

  /** A camera stream, seen as the set of its tracks. */
  datatype MediaStream = MediaStream(trackIds: set<TrackId>)

  /** The preview image reference: the empty string, or an object URL
      minted by the browser, of which only the identity matters. */
  datatype Preview = NoPreview | ObjectUrl(token: nat)

  /** The five pieces of UI state, the stream the page holds, and the state
      of every camera track the page has ever been handed. */
  datatype Page = Page(
    status: string,
    ocrText: string,
    preview: Preview,
    isSending: bool,
    streamActive: bool,
    held: Option<MediaStream>,
    tracks: map<TrackId, TrackState>)

  /** The page as first rendered. */
  const Initial: Page := Page("", "", NoPreview, false, false, None, map[])

  const CameraErrorPrefix: string := "Camera error: "
  const UploadErrorPrefix: string := "Upload/OCR error: "
  const HttpPrefix: string := "HTTP "
  const UploadingStatus: string := "Uploading"
  const DoneStatus: string := "Done"

  /** A value caught by a `catch` block: its `message` property (empty when
      missing or empty) and its string conversion. */
  datatype Thrown = Thrown(message: string, asString: string)

  /** How `${err?.message || err}` renders a caught value: the message when
      it is non-empty, and the string conversion only as a fallback. */
  function Describe(e: Thrown): (d: string)
    ensures e.message != "" ==> d == e.message
    ensures d != e.message ==> d == e.asString
    ensures d == "" <==> e.message == "" && e.asString == ""
  {
    if e.message != "" then e.message else e.asString
  }

  function HeldTracks(p: Page): set<TrackId> {
    if p.held.Some? then p.held.value.trackIds else {}
  }

  predicate IsLive(p: Page, t: TrackId) {
    t in p.tracks && p.tracks[t] == Live
  }

  /** The page's camera bookkeeping is consistent: it knows the tracks of the
      stream it holds, no track outside that stream is still live (no leaked
      camera), and the stream is shown active only while one is held. */
  predicate WellFormed(p: Page) {
    && HeldTracks(p) <= p.tracks.Keys
    && (forall t :: t in p.tracks && p.tracks[t] == Live ==> t in HeldTracks(p))
    && (p.streamActive ==> p.held.Some?)
  }

  predicate NoLiveTracks(p: Page) {
    forall t :: t in p.tracks ==> p.tracks[t] == Stopped
  }

  /** The displayed fields agree. */
  predicate SameDisplay(p: Page, q: Page) {
    && p.status == q.status
    && p.ocrText == q.ocrText
    && p.preview == q.preview
    && p.isSending == q.isSending
  }

  /** The camera fields agree. */
  predicate SameCamera(p: Page, q: Page) {
    && p.streamActive == q.streamActive
    && p.held == q.held
    && p.tracks == q.tracks
  }

  function SetTracks(m: map<TrackId, TrackState>, ids: set<TrackId>, state: TrackState)
    : map<TrackId, TrackState>
  {
    map t | t in m.Keys + ids :: if t in ids then state else m[t]
  }

  // ---------------------------------------------------------------- stopStream

  /** Stops every track of the held stream, drops the stream and marks the
      stream inactive. */
  function StopStream(p: Page): (r: Page)
    ensures r.held == None && !r.streamActive
    ensures r.tracks.Keys == p.tracks.Keys + HeldTracks(p)
    ensures forall t :: t in HeldTracks(p) ==> r.tracks[t] == Stopped
    ensures forall t :: t in p.tracks && t !in HeldTracks(p) ==> r.tracks[t] == p.tracks[t]
    ensures SameDisplay(p, r)
    ensures WellFormed(p) ==> WellFormed(r) && NoLiveTracks(r)
  {
    p.(held := None, streamActive := false, tracks := SetTracks(p.tracks, HeldTracks(p), Stopped))
  }

  /** Stopping twice is the same as stopping once. */
  lemma StopStreamIdempotent(p: Page)
    ensures StopStream(StopStream(p)) == StopStream(p)
  {
  }

  // ----------------------------------------------------------- startLiveCamera

  /** What `play()` on the video element does, if there is one. */
  datatype Playback = NoVideoRef | PlayResolved | PlayRejected(error: Thrown)

  /** What `getUserMedia` does. */
  datatype CameraOutcome =
    | Granted(stream: MediaStream, playback: Playback)
    | CameraRejected(error: Thrown)

  /** The state when `getUserMedia` is called: the displayed fields are
      cleared and the old stream has been released. */
  function BeginLiveCamera(p: Page): (r: Page)
    ensures r.status == "" && r.ocrText == "" && r.preview == NoPreview
    ensures r.isSending == p.isSending
    ensures r.held == None && !r.streamActive
    ensures forall t :: t in HeldTracks(p) ==> t in r.tracks && r.tracks[t] == Stopped
    ensures WellFormed(p) ==> WellFormed(r) && NoLiveTracks(r)
  {
    StopStream(p.(status := "", ocrText := "", preview := NoPreview))
  }

  /** The rest of the handler, once the camera request has settled. */
  function FinishLiveCamera(p: Page, o: CameraOutcome): (r: Page)
    ensures r.ocrText == p.ocrText && r.preview == p.preview && r.isSending == p.isSending
    ensures o.CameraRejected? ==>
              r.status == CameraErrorPrefix + Describe(o.error) && SameCamera(p, r)
    ensures o.Granted? ==>
              && r.held == Some(o.stream)
              && (forall t :: t in o.stream.trackIds ==> IsLive(r, t))
              && (forall t :: t in p.tracks && t !in o.stream.trackIds ==>
                    t in r.tracks && r.tracks[t] == p.tracks[t])
    ensures o.Granted? && o.playback.PlayRejected? ==>
              r.status == CameraErrorPrefix + Describe(o.playback.error)
              && r.streamActive == p.streamActive
    ensures o.Granted? && !o.playback.PlayRejected? ==> r.status == p.status && r.streamActive
    ensures WellFormed(p) && p.held == None ==> WellFormed(r)
  {
    match o
    case CameraRejected(e) => p.(status := CameraErrorPrefix + Describe(e))
    case Granted(stream, playback) =>
      var holding := p.(held := Some(stream), tracks := SetTracks(p.tracks, stream.trackIds, Live));
      match playback
      case PlayRejected(e) => holding.(status := CameraErrorPrefix + Describe(e))
      case _ => holding.(streamActive := true)
  }

  /** `startLiveCamera`: clear the display, release the old stream, request
      a new one and start previewing it. */
  function StartLiveCamera(p: Page, o: CameraOutcome): (r: Page)
    ensures r.ocrText == "" && r.preview == NoPreview && r.isSending == p.isSending
    ensures forall t :: t in HeldTracks(p) && !(o.Granted? && t in o.stream.trackIds) ==>
              t in r.tracks && r.tracks[t] == Stopped
    ensures o.Granted? && o.stream.trackIds !! (p.tracks.Keys + HeldTracks(p)) ==>
              forall t :: t in HeldTracks(p) ==> t in r.tracks && r.tracks[t] == Stopped
    ensures o.CameraRejected? ==>
              r.status == CameraErrorPrefix + Describe(o.error) && r.held == None && !r.streamActive
    ensures o.Granted? ==> r.held == Some(o.stream)
    ensures r.streamActive <==> o.Granted? && !o.playback.PlayRejected?
    ensures o.Granted? && o.playback.PlayRejected? ==>
              r.status == CameraErrorPrefix + Describe(o.playback.error)
    ensures o.Granted? && !o.playback.PlayRejected? ==> r.status == ""
    ensures WellFormed(p) ==> WellFormed(r)
    ensures WellFormed(p) && o.CameraRejected? ==> NoLiveTracks(r)
  {
    FinishLiveCamera(BeginLiveCamera(p), o)
  }

  /** After a granted request exactly the new stream's tracks are live: every
      track of every earlier stream has been stopped. */
  lemma OnlyNewStreamLive(p: Page, s: MediaStream, playback: Playback, t: TrackId)
    requires WellFormed(p)
    ensures IsLive(StartLiveCamera(p, Granted(s, playback)), t) <==> t in s.trackIds
  {
  }

  /** The `<video>` element is rendered only while `streamActive` holds, so
      when the camera request settles a video element exists exactly when
      the page was streaming at that moment. */
  predicate RenderConsistent(p: Page, o: CameraOutcome) {
    o.Granted? ==> (o.playback.NoVideoRef? <==> !p.streamActive)
  }

  /** Under that coupling `play()` never runs: the request settles on a page
      that `BeginLiveCamera` has just made inactive, so the coupling holds
      exactly when a granted request meets no video element, and a granted
      stream is then marked active without being attached to one. */
  lemma NoVideoWhenRequestSettles(p: Page, o: CameraOutcome)
    ensures !BeginLiveCamera(p).streamActive
    ensures RenderConsistent(BeginLiveCamera(p), o) <==> (o.Granted? ==> o.playback.NoVideoRef?)
    ensures RenderConsistent(BeginLiveCamera(p), o) && o.Granted? ==>
              StartLiveCamera(p, o).streamActive
  {
  }

  // --------------------------------------------------------------- sendToOcr

  /** What reading the response body as text yields. */
  datatype TextRead = BodyText(text: string) | Unreadable

  /** What reading the response body as JSON yields: a value with or without
      a (non-empty) `text` field, or a parse failure. */
  datatype JsonRead = JsonValue(textField: Option<string>) | NotJson

  /** An HTTP response: its status code and what either way of reading its
      body would give (only one of them is ever used). */
  datatype Response = Response(status: nat, asText: TextRead, asJson: JsonRead)

  /** What `fetch` does. */
  datatype FetchOutcome = Responded(response: Response) | NetworkFailure(error: Thrown)

  /** `Response.ok`: a 2xx status. */
  predicate IsOk(res: Response) {
    200 <= res.status <= 299
  }

  /** What the upload settles to before it touches the page: the recognized
      text, or the message of the error it throws. */
  datatype Recognition = Recognized(text: string) | UploadFailed(message: string)

  function BodyTextOrEmpty(t: TextRead): string {
    match t
    case BodyText(s) => s
    case Unreadable => ""
  }

  function TextFieldOrEmpty(j: JsonRead): string {
    match j
    case JsonValue(Some(s)) => s
    case _ => ""
  }

  /** The fetch-and-parse part of `sendToOcr`. */
  function Transfer(f: FetchOutcome): (r: Recognition)
    ensures r.Recognized? <==> f.Responded? && IsOk(f.response)
    ensures f.NetworkFailure? ==> r == UploadFailed(Describe(f.error))
    ensures f.Responded? && IsOk(f.response) ==>
              (f.response.asJson.JsonValue? && f.response.asJson.textField.Some? ==>
                 r.text == f.response.asJson.textField.value)
              && (f.response.asJson.NotJson? || f.response.asJson.textField.None? ==> r.text == "")
    ensures f.Responded? && !IsOk(f.response) ==>
              r.message != ""
              && (f.response.asText.BodyText? && f.response.asText.text != "" ==>
                    r.message == f.response.asText.text)
              && (f.response.asText.Unreadable? || f.response.asText.text == "" ==>
                    r.message == HttpPrefix + Decimal.NatToString(f.response.status))
  {
    match f
    case NetworkFailure(e) => UploadFailed(Describe(e))
    case Responded(res) =>
      if !IsOk(res) then
        var body := BodyTextOrEmpty(res.asText);
        UploadFailed(if body != "" then body else HttpPrefix + Decimal.NatToString(res.status))
      else
        Recognized(TextFieldOrEmpty(res.asJson))
  }

  /** The state while the upload is in flight. */
  function BeginUpload(p: Page): (r: Page)
    ensures r.isSending && r.status == UploadingStatus && r.ocrText == ""
    ensures r.preview == p.preview && SameCamera(p, r)
  {
    p.(isSending := true, status := UploadingStatus, ocrText := "")
  }

  /** The rest of `sendToOcr`, once the upload has settled: the outcome is
      displayed and `isSending` is reset whatever happened. */
  function FinishUpload(p: Page, f: FetchOutcome): (r: Page)
    ensures !r.isSending
    ensures r.preview == p.preview && SameCamera(p, r)
    ensures r.status == DoneStatus <==> f.Responded? && IsOk(f.response)
    ensures Transfer(f).Recognized? ==> r.ocrText == Transfer(f).text
    ensures Transfer(f).UploadFailed? ==>
              r.status == UploadErrorPrefix + Transfer(f).message && r.ocrText == p.ocrText
  {
    match Transfer(f)
    case Recognized(text) => p.(ocrText := text, status := DoneStatus, isSending := false)
    case UploadFailed(message) => p.(status := UploadErrorPrefix + message, isSending := false)
  }

  /** `sendToOcr`. */
  function SendToOcr(p: Page, f: FetchOutcome): (r: Page)
    ensures !r.isSending
    ensures r.preview == p.preview && SameCamera(p, r)
    ensures r.status == DoneStatus <==> f.Responded? && IsOk(f.response)
    ensures Transfer(f).Recognized? ==> r.ocrText == Transfer(f).text
    ensures Transfer(f).UploadFailed? ==>
              r.status == UploadErrorPrefix + Transfer(f).message && r.ocrText == ""
  {
    FinishUpload(BeginUpload(p), f)
  }

  /** A failed response's status line names the HTTP status code when the
      body gives no message, and the code can be read back from it. */
  lemma HttpStatusRecoverable(p: Page, code: nat, body: TextRead, json: JsonRead)
    requires !IsOk(Response(code, body, json))
    requires body.Unreadable? || body.text == ""
    ensures var r := SendToOcr(p, Responded(Response(code, body, json)));
            && r.status == UploadErrorPrefix + HttpPrefix + Decimal.NatToString(code)
            && Decimal.Value(r.status[|UploadErrorPrefix + HttpPrefix|..]) == code
  {
    var num := Decimal.NatToString(code);
    var res := Response(code, body, json);
    assert Transfer(Responded(res)) == UploadFailed(HttpPrefix + num);
    var r := SendToOcr(p, Responded(res));
    assert r.status == UploadErrorPrefix + (HttpPrefix + num);
    assert r.status == (UploadErrorPrefix + HttpPrefix) + num;
    assert r.status[|UploadErrorPrefix + HttpPrefix|..] == num;
    Decimal.ValueOfNatToString(code);
  }

  // ------------------------------------------------------------ captureFrame

  /** What the frame capture meets: no video element, no 2d context, a null
      blob from the encoder, or a blob whose object URL and upload outcome
      are given. */
  datatype CaptureOutcome =
    | NoVideo
    | NoContext
    | NullBlob
    | Blob(url: nat, upload: FetchOutcome)

  /** `captureFrame`, as far as the page state goes; the canvas size it
      draws at is `Downscale.OutputSize`. */
  function CaptureFrame(p: Page, o: CaptureOutcome): (r: Page)
    ensures !o.Blob? ==> r == p
    ensures o.Blob? ==>
              && r.preview == ObjectUrl(o.url)
              && !r.isSending
              && SameCamera(p, r)
              && (r.status == DoneStatus <==> o.upload.Responded? && IsOk(o.upload.response))
    ensures o.Blob? && Transfer(o.upload).Recognized? ==> r.ocrText == Transfer(o.upload).text
    ensures o.Blob? && Transfer(o.upload).UploadFailed? ==>
              r.status == UploadErrorPrefix + Transfer(o.upload).message && r.ocrText == ""
  {
    match o
    case Blob(url, upload) => SendToOcr(p.(preview := ObjectUrl(url)), upload)
    case _ => p
  }

  // -------------------------------------------------------------- onPickFile

  /** What the file input yields: nothing, or a file whose object URL and
      upload outcome are given. */
  datatype PickOutcome = NoFile | Picked(url: nat, upload: FetchOutcome)

  /** `onPickFile`. Resetting the input element afterwards touches no page state. */
  function OnPickFile(p: Page, o: PickOutcome): (r: Page)
    ensures o.NoFile? ==> r == p
    ensures o.Picked? ==>
              && r.preview == ObjectUrl(o.url)
              && !r.isSending
              && SameCamera(p, r)
              && (r.status == DoneStatus <==> o.upload.Responded? && IsOk(o.upload.response))
    ensures o.Picked? && Transfer(o.upload).Recognized? ==> r.ocrText == Transfer(o.upload).text
    ensures o.Picked? && Transfer(o.upload).UploadFailed? ==>
              r.status == UploadErrorPrefix + Transfer(o.upload).message && r.ocrText == ""
  {
    match o
    case NoFile => p
    case Picked(url, upload) =>
      SendToOcr(p.(status := "", ocrText := "", preview := ObjectUrl(url)), upload)
  }

  /** The two capture paths end in the same state for the same image URL and
      upload outcome: the picker's extra clearing is overwritten by the upload. */
  lemma CaptureAndPickAgree(p: Page, url: nat, upload: FetchOutcome)
    ensures CaptureFrame(p, Blob(url, upload)) == OnPickFile(p, Picked(url, upload))
  {
  }
}
