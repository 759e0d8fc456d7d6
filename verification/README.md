# Camera OCR capture page — a Dafny model

This project models the capture page of a small mobile OCR client. The page
takes a photo, either from a live camera preview or from the native file or
camera picker. It is meant to downscale live frames to about two megapixels;
it posts the image to a recognition endpoint and shows the recognized text.
How the live path interacts with rendering is discussed under "Left out".

The page is modelled as a pure transition system. Its state is an immutable
record with these parts:

- the five pieces of UI state: `status`, `ocrText`, the preview URL, `isSending` and `streamActive`;
- the camera stream the page holds, seen as a set of track ids;
- the state of every camera track the page has been handed, live or stopped.

Each event handler is a function from that state and an abstract outcome of
the browser or network calls it makes. There is one outcome type per handler:

- the camera request is granted (with or without a video element, and `play()` may be rejected) or rejected;
- a frame capture meets no video element, no 2d context, a null blob, or a blob;
- the picker yields no file or a file;
- `fetch` gets a response (ok or not, a body readable as text or not, JSON or not) or fails.

Modules:

- `OcrPage` (`ocr_page.dfy`) holds the state and the handlers `StopStream`,
  `StartLiveCamera`, `CaptureFrame`, `OnPickFile` and `SendToOcr`.
  - Handlers that await are split at the point where the intermediate state
    matters. `BeginLiveCamera` is the state when the camera is requested;
    `BeginUpload` is the state while the upload is in flight.
  - The status strings are exactly the page's: `"Camera error: "`,
    `"Uploading"`, `"Done"`, `"Upload/OCR error: "` and the `"HTTP <status>"` fallback.
- `Downscale` (`downscale.dfy`) holds the output-size rule.
  - Frames of at most 2,000,000 pixels keep their size.
  - Larger frames are scaled by `sqrt(2e6 / (w*h))` and each side is rounded.
  - Square root and rounding are idealised over reals. The scale is any
    positive real whose square times `w*h` is the budget, and rounding is
    `floor(x + 0.5)`.
  - `ComputeOutputSize` is an integer-only computation proved to agree with
    the real-number rule.
- `Decimal` (`decimal.dfy`) prints a status code in decimal, and `Value` reads it back.
- `Session` (`session.dfy`) runs sequences of events from the initial page,
  including the unmount cleanup. It proves what holds between events:
  - no track outside the held stream is live;
  - no upload is pending;
  - a recognition result is shown only with the `"Done"` status.
- `Wrappers` (`wrappers.dfy`) holds `Option`.

The rounded size can exceed the budget slightly. A 4000×3000 frame becomes
1633×1225, which is 2,000,425 pixels (`Downscale.RoundedSizeMayExceedBudget`).
The code calls its budget "~2MP", so this model follows the code and does not
claim the rounded output stays within 2,000,000 pixels.

Handlers are atomic in `Session.Run`, and the camera guarantees hold only
under that assumption. Two lemmas show what the code does when a camera
request is still pending:
- the page unmounts: the cleanup stops nothing and the stream that arrives later stays live (`Session.UnmountDuringRequestLeaks`);
- the camera is started again: the first stream is dropped unstopped (`Session.SecondStartLeaksFirstStream`).

The code never revokes object URLs, and the status is a free string rather
than an enumerated session phase. The model follows the code on both.

## Model

| member | source | states |
|---|---|---|
| `OcrPage.StopStream` | client/src/CameraOCRPage.tsx:26-30 | every track of the held stream is stopped, other tracks keep their state, no stream is held, `streamActive` is false, the displayed fields are unchanged; from a consistent page no track is left live |
| `OcrPage.StopStreamIdempotent` | client/src/CameraOCRPage.tsx:26-30 | stopping twice gives the same state as stopping once |
| `OcrPage.BeginLiveCamera` | client/src/CameraOCRPage.tsx:32-36 | when the camera is requested, `status`, `ocrText` and the preview are cleared, the old stream is released (its tracks stopped, nothing held, and from a consistent page no track live), `isSending` is kept |
| `OcrPage.FinishLiveCamera` | client/src/CameraOCRPage.tsx:46-55 | a rejected request only sets `"Camera error: " + message`; a granted stream is held with all its tracks live; a rejected `play()` leaves `streamActive` as it was with a camera error status; otherwise the stream becomes active |
| `OcrPage.StartLiveCamera` | client/src/CameraOCRPage.tsx:32-56 | clears `ocrText` and the preview and stops every old track not in the new stream, and every old track when the new stream's ids are new to the page; on rejection no stream is held, `streamActive` is false and, from a consistent page, no track is live; on success the new stream is held; `streamActive` holds exactly when granted and `play()` did not reject; consistent camera bookkeeping stays consistent |
| `OcrPage.OnlyNewStreamLive` | client/src/CameraOCRPage.tsx:36-47 | from a consistent page, after a granted request a track is live if and only if it belongs to the new stream |
| `OcrPage.Describe` | client/src/CameraOCRPage.tsx:54 | the caught error's text in line 54: the message when it is non-empty, the string form only as a fallback; empty only when both are empty (the same rule renders the upload error at line 119) |
| `OcrPage.NoVideoWhenRequestSettles` | client/src/CameraOCRPage.tsx:46-52 | if the video element exists exactly while `streamActive` holds (lines 154-156), the page is always inactive when the request settles, so that coupling holds exactly when a granted request meets no video element; `play()` then never runs and the stream is marked active |
| `OcrPage.Transfer` | client/src/CameraOCRPage.tsx:103-117 | the upload succeeds exactly on a 2xx response; the recognized text is the JSON `text` field, or `""` when it is missing or the body is not JSON; a failed response's message is its non-empty body text, else `"HTTP <status>"`; a network failure's message is the error's message, else its string form |
| `OcrPage.BeginUpload` | client/src/CameraOCRPage.tsx:99-102 | while uploading, `isSending` is true, `status` is `"Uploading"`, `ocrText` is empty, preview and camera are untouched |
| `OcrPage.FinishUpload` | client/src/CameraOCRPage.tsx:103-122 | `isSending` ends false on every outcome; `status` is `"Done"` if and only if the response is ok; on success `ocrText` is the recognized text; on failure `status` is `"Upload/OCR error: " + message` and `ocrText` is kept |
| `OcrPage.SendToOcr` | client/src/CameraOCRPage.tsx:99-123 | the whole upload leaves `isSending` false, keeps preview and camera, shows `"Done"` exactly on an ok response; on success `ocrText` is the recognized text; on failure `status` is `"Upload/OCR error: "` followed by the message and `ocrText` is empty |
| `OcrPage.HttpStatusRecoverable` | client/src/CameraOCRPage.tsx:110-112 | a failed response with an empty or unreadable body shows `"Upload/OCR error: HTTP <status>"`, and the status code can be read back from the status line |
| `OcrPage.CaptureFrame` | client/src/CameraOCRPage.tsx:58-85 | with no video element, no 2d context or a null blob the page is unchanged and nothing is uploaded; with a blob the preview is its object URL, nothing is left sending, the camera is untouched, `"Done"` shows exactly on an ok response, a recognized text is shown, and a failure shows `"Upload/OCR error: "` followed by its message with an empty `ocrText` |
| `OcrPage.OnPickFile` | client/src/CameraOCRPage.tsx:87-97 | with no file the page is unchanged; with a file the preview is its object URL, nothing is left sending, the camera is untouched, `"Done"` shows exactly on an ok response, a recognized text is shown, and a failure shows `"Upload/OCR error: "` followed by its message with an empty `ocrText` |
| `OcrPage.CaptureAndPickAgree` | client/src/CameraOCRPage.tsx:78-94 | a captured blob and a picked file with the same URL and upload outcome lead to the same page state |
| `Downscale.OutputSize` | client/src/CameraOCRPage.tsx:63-71 | at most 2,000,000 pixels: output equals input; otherwise each side is the nearest integer to its scaled length; never larger than the input on either side |
| `Downscale.RoundHalfUp` | client/src/CameraOCRPage.tsx:69-70 | the result is the nearest integer, halves rounded up |
| `Downscale.ScaledSide` | client/src/CameraOCRPage.tsx:69-70 | a side scaled by a factor below one and rounded is at most the original side |
| `Downscale.ScaleBelowOne` | client/src/CameraOCRPage.tsx:67-68 | above the budget the square-root scale is strictly between 0 and 1, so the rule never upscales |
| `Downscale.IdealScaledFrame` | client/src/CameraOCRPage.tsx:67-70 | before rounding the scaled frame has exactly 2,000,000 pixels and the original aspect ratio |
| `Downscale.RoundsToMeansRounded` | client/src/CameraOCRPage.tsx:68-70 | the integer rounding test picks exactly `floor(x*scale + 0.5)` |
| `Downscale.ScaledDimension` | client/src/CameraOCRPage.tsx:68-70 | for a frame above the budget, integer search returns the rounded scaled length of a side, which is at most the side |
| `Downscale.ComputeOutputSize` | client/src/CameraOCRPage.tsx:63-71 | the integer computation returns the input size within the budget, never upscales, and equals the idealised rule for every admissible square root |
| `Downscale.RoundedSizeMayExceedBudget` | client/src/CameraOCRPage.tsx:63-71 | a 4000×3000 frame becomes 1633×1225, which exceeds the budget by 425 pixels |
| `Decimal.NatToString` | client/src/CameraOCRPage.tsx:112 | the status code prints as a canonical decimal numeral: digits only, no leading zero |
| `Decimal.ValueOfNatToString` | client/src/CameraOCRPage.tsx:112 | the printed status code reads back as the same number |
| `Decimal.NatToStringInjective` | client/src/CameraOCRPage.tsx:112 | distinct status codes print differently |
| `Session.Step` | client/src/CameraOCRPage.tsx:132-167 | the Stop button and the unmount cleanup (lines 20-24) only release the camera (every held track stopped, every other track unchanged, nothing held, `streamActive` false, the display unchanged); capture and pick leave the camera alone; starting the camera clears the result and preview and keeps `isSending` |
| `Session.InitialSettled` | client/src/CameraOCRPage.tsx:9-18 | the page as first rendered is consistent, holds no stream and has no live track |
| `Session.StepSettled` | client/src/CameraOCRPage.tsx:20-123 | every handler and the unmount cleanup keep the page settled: consistent camera bookkeeping, no pending upload, a result shown only with `"Done"` |
| `Session.RunSettled` | client/src/CameraOCRPage.tsx:20-123 | any sequence of events keeps a settled page settled |
| `Session.ReachableSettled` | client/src/CameraOCRPage.tsx:9-123 | every page reachable from the first render is settled |
| `Session.UnmountReleasesCamera` | client/src/CameraOCRPage.tsx:20-30 | after any session, unmounting leaves no stream held, `streamActive` false and no live track |
| `Session.UnmountDuringRequestLeaks` | client/src/CameraOCRPage.tsx:20-47 | unmounting while `getUserMedia` is pending runs a cleanup that changes nothing, and the stream stored afterwards has all its tracks live |
| `Session.SecondStartLeaksFirstStream` | client/src/CameraOCRPage.tsx:32-47 | starting the camera twice before the first request settles leaves a track of the first stream live while only the second is held, whatever either `play()` does, so the bookkeeping is no longer consistent |

## Left out

- Rendering (client/src/CameraOCRPage.tsx:125-204) is left out. The buttons disabled while `isSending` is true (lines 133, 149, 161) are not preconditions of the handlers. Each handler runs atomically here, so `isSending` is false between events anyway (`Session.ReachableSettled`).
- Interleaving of pending handlers is left out of `Session.Run`. In the browser a stale upload can resolve after a newer attempt has started and overwrite its display, and a pending camera request can leak a stream. Each handler here is atomic given its outcome.
- `Session.UnmountReleasesCamera`: the release holds only when no camera request is pending at unmount. Otherwise the cleanup finds nothing to stop and the later stream stays live (`Session.UnmountDuringRequestLeaks`).
- `Session.ReachableSettled`: the invariant holds only for sessions where each handler completes before the next event. A second camera start during a pending request breaks it (`Session.SecondStartLeaksFirstStream`).
- `OcrPage.StartLiveCamera`: outcomes may reuse the ids of stopped tracks, which come back live. `getUserMedia` always returns new tracks, so the clause that every old track ends stopped is stated only for a stream whose ids are new to the page.
- The video-element and blob outcomes are taken as independent of rendering, but in the code they are not. The `<video>` element is rendered only while `streamActive` holds (lines 154-156). When the request settles at line 48, `stopStream` has just made the page inactive, so there is no video element (`OcrPage.NoVideoWhenRequestSettles`). The stream is then never attached to the video that appears afterwards, so that video reports a 0×0 frame. A 0×0 canvas is expected to encode to a null blob, so a live capture would not upload. This follows from reading the rendering code and has not been observed.
- Browser media and canvas APIs are opaque outcomes:
  - the camera constraints (environment-facing, 1920×1080);
  - attaching the stream to the video element;
  - `drawImage`;
  - JPEG encoding at quality 0.92;
  - the canvas element itself, which the code assumes exists.
- The canvas size chosen by `Downscale.OutputSize` is not threaded through `OcrPage.CaptureFrame`, because it has no effect on page state.
- File naming with `Date.now()` is left out. Object URLs are opaque tokens chosen by the outcome; the code never revokes them, so neither does the model.
- `fetch`, `FormData` and the multipart encoding are I/O, modelled only through their outcome.
- Resetting the file input's value after an upload (line 96) touches the DOM, not page state.
- `OcrPage.Transfer`: a JSON `text` field holding a non-string truthy value (a number, an object) is not modelled. The model's field is a string or absent.
- `Downscale.OutputSize`: floating point is idealised. `Math.sqrt` is any exact positive square root and `Math.round` is exact `floor(x + 0.5)`, so the double-precision results of the browser are not modelled.
- The server (server/src/app.ts, server/src/index.ts) and the build configuration (client/vite.config.ts) are not part of this model. The server expects a JSON body with `imageBase64` and `mimeType`, while the page posts a multipart `image` field, so the pair is not modelled as one request/response round trip.
