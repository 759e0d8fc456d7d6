/** A session on the capture page: a sequence of user events, each handled
    atomically with its outcome, starting from the page as first rendered.
    Unmounting the page runs the effect cleanup, which stops the stream.

    Atomicity matters for the camera: the last two lemmas show how a camera
    request still pending when the page unmounts, or when the camera is
    started again, leaves a stream live that nothing will stop. */
module Session {
  import opened Wrappers
  import opened OcrPage

  datatype Event =
    | StopPressed
    | StartCamera(camera: CameraOutcome)
    | Capture(capture: CaptureOutcome)
    | Pick(pick: PickOutcome)
    | Unmount

  /** Which handler each control runs: the file input, the two camera
      buttons, the Stop button and the effect cleanup on unmount. */
  function Step(p: Page, e: Event): (r: Page)
    ensures (e.StopPressed? || e.Unmount?) ==>
              SameDisplay(p, r) && r.held == None && !r.streamActive
    ensures (e.StopPressed? || e.Unmount?) ==>
              forall t :: t in HeldTracks(p) ==> t in r.tracks && r.tracks[t] == Stopped
    ensures (e.StopPressed? || e.Unmount?) ==>
              forall t :: t in p.tracks && t !in HeldTracks(p) ==> t in r.tracks && r.tracks[t] == p.tracks[t]
    ensures (e.Capture? || e.Pick?) ==> SameCamera(p, r)
    ensures e.StartCamera? ==>
              r.ocrText == "" && r.preview == NoPreview && r.isSending == p.isSending
  {
    match e
    case StopPressed => StopStream(p)
    case StartCamera(o) => StartLiveCamera(p, o)
    case Capture(o) => CaptureFrame(p, o)
    case Pick(o) => OnPickFile(p, o)
    case Unmount => StopStream(p)
  }

  function Run(p: Page, events: seq<Event>): Page
    decreases |events|
  {
    if events == [] then p else Run(Step(p, events[0]), events[1..])
  }

  /** What holds between events: the camera bookkeeping is consistent, no
      upload is in flight, and a recognition result is shown only together
      with the "Done" status. */
  predicate Settled(p: Page) {
    && WellFormed(p)
    && !p.isSending
    && (p.ocrText != "" ==> p.status == DoneStatus)
  }

  lemma InitialSettled()
    ensures Settled(Initial) && NoLiveTracks(Initial)
  {
  }

  /** Every handler keeps the page settled. */
  lemma StepSettled(p: Page, e: Event)
    requires Settled(p)
    ensures Settled(Step(p, e))
  {
  }

  lemma {:induction false} RunSettled(p: Page, events: seq<Event>)
    requires Settled(p)
    ensures Settled(Run(p, events))
    decreases |events|
  {
    if events != [] {
      StepSettled(p, events[0]);
      RunSettled(Step(p, events[0]), events[1..]);
    }
  }

  /** Whatever the user did and whatever the browser and network answered,
      as long as each handler completes before the next event, at most the
      held stream's tracks are live, no upload is pending and a shown result
      comes with "Done". */
  lemma ReachableSettled(events: seq<Event>)
    ensures Settled(Run(Initial, events))
  {
    InitialSettled();
    RunSettled(Initial, events);
  }

  /** Leaving the page when no camera request is pending releases the
      camera: no track stays live. */
  lemma UnmountReleasesCamera(events: seq<Event>)
    ensures var r := Step(Run(Initial, events), Unmount);
            r.held == None && !r.streamActive && NoLiveTracks(r)
  {
    ReachableSettled(events);
  }

  /** The page unmounts while `getUserMedia` is pending. The cleanup runs on
      a page that holds nothing and so changes nothing, and the stream that
      arrives afterwards is stored with its tracks live: it is never stopped. */
  lemma UnmountDuringRequestLeaks(p: Page, s: MediaStream, playback: Playback)
    requires WellFormed(p)
    ensures var pending := BeginLiveCamera(p);
            var cleaned := StopStream(pending);
            var r := FinishLiveCamera(cleaned, Granted(s, playback));
            && cleaned == pending
            && r.held == Some(s)
            && (forall t :: t in s.trackIds ==> IsLive(r, t))
  {
    var pending := BeginLiveCamera(p);
    assert SetTracks(pending.tracks, {}, Stopped) == pending.tracks;
  }

  /** "Start Live Camera" is pressed again while the first request is
      pending. Both synchronous prefixes run before either request settles,
      so when the second stream is stored the first is dropped unstopped,
      whatever either `play()` does: the stream is stored before the video
      element is looked at. */
  lemma SecondStartLeaksFirstStream(
    p: Page, s1: MediaStream, pb1: Playback, s2: MediaStream, pb2: Playback, t: TrackId)
    requires WellFormed(p)
    requires t in s1.trackIds && t !in s2.trackIds
    ensures var both := BeginLiveCamera(BeginLiveCamera(p));
            var first := FinishLiveCamera(both, Granted(s1, pb1));
            var r := FinishLiveCamera(first, Granted(s2, pb2));
            && r.held == Some(s2)
            && IsLive(r, t)
            && !WellFormed(r)
  {
  }
}
