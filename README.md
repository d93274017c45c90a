# Telegram voice recorder: a Dafny model of its recording controller

The web app in `app.js` records voice in a Telegram WebView, uploads the recording to
OpenAI's Whisper transcription endpoint and shows the transcript. This project models
the logic of its core and proves properties of that model. The browser, network and
Telegram objects around that logic are replaced by inputs.

- **Controller** (`controller.dfy`). The page's globals are `mediaRecorder`, `isRecording`
  and `audioChunks`, plus the timer text. The model also counts the microphone requests
  and transcription requests still outstanding. The events that change this state are:
  - `startRecording` and `stopRecording`;
  - the desktop click toggle;
  - the timer tick;
  - `ondataavailable`;
  - the answer to the microphone request, which runs `setupMediaRecorder`;
  - `onstop`.

  Each event is a pure function on a `State` value. The class `Recorder` holds the same
  fields and updates them in place, and each of its methods is proved to leave exactly
  the state that its function gives. `onstop` is an async function that suspends at
  `fetch`, so it is modelled as two steps: `StopFired`, which runs up to the request, and
  `ReplyArrived`, which covers the reply and the `finally` block. Other events can happen
  between the two steps. One consequence of the shared `audioChunks` and the `finally`
  at app.js:182-184 is proved as a lemma (`ReplyDiscardsLaterRecording`): if a new
  recording has started and received a fragment before an earlier transcription's reply
  arrives, that reply clears the fragment. Because `start()` is called without a
  timeslice (app.js:196), this needs a recorder that delivers data before it is stopped.
- **MIME negotiation and file extension** (`mime.dfy`). `ChooseMimeType` picks the type
  requested from the recorder. The blob type is `mimeType || 'audio/webm'`, and the file
  name comes from the same string: `split('/')[1].split(';')[0]`.
- **Elapsed-time display** (`timer.dfy`). `updateTimer` turns the elapsed time into
  `mm:ss` with `Math.floor`, JavaScript's truncating `%`, `Number.prototype.toString` and
  `padStart`. `stopTimer` resets the display to `00:00`.
- **Transcription outcome** (`transcription.dfy`). This file covers `getApiKey`, the
  request that `transcribeAudio` issues, how each reply is classified, and how `onstop`
  reads the result and turns it into an error message.
- **Support** (`strings.dfy`, `decimal.dfy`, `wrappers.dfy`). These model JavaScript's
  `String.prototype.split` on one character, `trim` (ECMAScript white space), integer
  `toString` and `padStart`, together with their read-back properties.

## Model

| member | source | states |
|---|---|---|
| Controller.Initial | app.js:7-9 | at load there is no recorder, nothing is recording and there are no fragments; one microphone request (app.js:299) is outstanding and no transcription; the display holds the page's initial text; the state is consistent |
| Controller.Start | app.js:189-200 | starting keeps the controller consistent: a recorder whenever recording, no empty fragment stored |
| Controller.StartWithoutRecorder | app.js:189-193 | with no recorder, starting issues one microphone request; `isRecording`, the fragments, the recorder and the display are unchanged |
| Controller.StartWithRecorder | app.js:195-199 | with a recorder, starting leaves no fragments, `isRecording` true and the display `00:00`; the recorder is kept |
| Controller.StartWhileRecordingDiscards | app.js:195-199 | starting while already recording, as the touch handler at app.js:276-280 can, discards the fragments gathered so far, so it is not a no-op |
| Controller.Recorder.StartRecording | app.js:189-200 | the method leaves the fields exactly as `Start` gives them and keeps the invariant |
| Controller.Stop | app.js:203-210 | stopping keeps the controller consistent |
| Controller.StopWhenIdle | app.js:204 | stopping while not recording changes nothing |
| Controller.StopWhileRecording | app.js:203-222 | stopping while recording leaves `isRecording` false and the display `00:00` (line 221); the fragments stay for `onstop`, and the recorder and the counts are unchanged |
| Controller.Recorder.StopRecording | app.js:203-210 | the method leaves the fields exactly as `Stop` gives them |
| Controller.Toggle | app.js:265-273 | the click handler keeps the controller consistent |
| Controller.ToggleFlips | app.js:265-273 | with a recorder a click flips `isRecording`; without one it only requests the microphone |
| Controller.Recorder.Click | app.js:265-273 | the method follows `Toggle` |
| Controller.TimerTick | app.js:224-229 | a tick of the interval set at line 216, while recording, changes only the display and keeps the controller consistent |
| Controller.Recorder.UpdateTimer | app.js:224-229 | the method follows `TimerTick` |
| Controller.AddData | app.js:115-119 | a data event keeps every stored fragment non-empty |
| Controller.AddDataAppendsNonEmpty | app.js:115-119 | the fragment is appended exactly when its size is above zero; earlier fragments stay in order; a zero-size event changes nothing; no other field changes |
| Controller.NonEmpty | app.js:116 | the fragments it keeps are all non-empty |
| Controller.DeliverKeepsNonEmpty | app.js:115-119 | after any sequence of data events, the list is the old list followed by exactly the non-empty fragments, in arrival order |
| Controller.Recorder.OnDataAvailable | app.js:115-119 | the method follows `AddData` |
| Controller.FlattenEmpty | app.js:131-134 | the blob is empty exactly when every fragment is empty |
| Controller.FlattenAppend | app.js:131 | the blob of two fragment lists is the concatenation of their blobs |
| Controller.FlattenNonEmpty | app.js:116-131 | dropping zero-size fragments does not change the blob's bytes |
| Controller.RecordedBlob | app.js:115-119 | after a start and a run of data events, the fragments are the non-empty ones and the blob holds every byte received, in order |
| Controller.PermissionSettled | app.js:87-113 | the answer to a microphone request keeps the controller consistent |
| Controller.PermissionOutcomes | app.js:87-113 | a grant with a recorder that constructs installs a recorder asking for the `ChooseMimeType` choice; a denial or a failed construction leaves the recorder as it was; one fewer request is outstanding, and nothing else changes |
| Controller.Recorder.OnPermission | app.js:87-113 | the method follows `PermissionSettled` |
| Controller.UploadOf | app.js:131-151 | the file field carries the blob; its type is the string the Blob is given (the recorder's `mimeType`, or `audio/webm` when that is empty), and its name is the `recording.<ext>` derived from that same type |
| Controller.AfterStep | app.js:161-184 | the state after the synchronous part of `onstop` stays consistent |
| Controller.StopFired | app.js:121-184 | the synchronous part of `onstop` keeps the controller consistent |
| Controller.StopOutcomes | app.js:126-184 | with no fragments `onstop` reports `NoAudioData`; with an empty blob `EmptyAudio`; with a blank key `NoTranscription`; each error clears the fragments and sends nothing; a request is sent exactly when the blob is non-empty and the key is not blank |
| Controller.SubmittedUpload | app.js:131-161 | a sent request carries the whole non-empty blob with its type and name, and `Bearer` followed by the trimmed key; the only state change is one more request outstanding |
| Controller.ConsistentBlobNotEmpty | app.js:115-136 | in a reachable state, a non-empty fragment list never gives an empty blob, so `Audio recording is empty` cannot be reported |
| Controller.Recorder.ClassifyStop | app.js:126-161 | the branches of `onstop` on the live fields compute `StopResult` and change nothing |
| Controller.Recorder.OnStop | app.js:121-184 | the method returns `StopResult` of the old state, and its fields become `AfterStep` of that state |
| Controller.ReplyArrived | app.js:161-184 | handling the reply keeps the controller consistent |
| Controller.ChunksClearedAfterStop | app.js:182-184 | once `onstop` is finished, the fragments are empty along every path: at once after an error, and at the reply after a request |
| Controller.StepsAgreeWithTranscribeAudio | app.js:27-61 | the two steps of `onstop` give the request and the outcome that `transcribeAudio` and the check of its result give |
| Controller.ReplyDiscardsLaterRecording | app.js:182-184 | if a new recording starts (app.js:189-200) while a transcription is in flight, the reply's `finally` discards that recording's fragments |
| Controller.Recorder.OnReply | app.js:161-184 | the method returns the classified outcome and its fields become the state `ReplyArrived` gives |
| Controller.Recorder.constructor | app.js:7-11 | the fresh object is the initial state and satisfies the invariant |
| Controller.EndToEnd | app.js:115-169 | fragments `AAA`, empty, `BBB` under `audio/webm` give one request with blob `AAABBB` named `recording.webm`; a reply with text `hello world` gives exactly that transcript |
| Controller.EndToEndSubmit | app.js:131-161 | the stopped state of that scenario sends the upload `AAABBB`, `audio/webm`, `recording.webm` |
| Mime.ChooseMimeType | app.js:100-105 | the choice is `audio/webm` exactly when it is supported; otherwise `audio/ogg` exactly when that is supported; otherwise no type; a chosen type is always supported |
| Mime.SourceType | app.js:131-150 | the type is the recorder's non-empty `mimeType`, else `audio/webm`; it always contains a `/` |
| Mime.ExtensionDefined | app.js:150-151 | the extension and the file name exist exactly when the type has a `/`; the extension has no `/` or `;`; the name is `recording.` followed by the extension |
| Mime.UploadNameOfType | app.js:150-151 | for a type with a `/`, the file name is `recording.` followed by its extension |
| Mime.ExtensionIsSubtype | app.js:150 | the extension is exactly the characters after the first `/`, up to the next `/`, `;` or the end: it is followed by one of those and contains neither `/` nor `;` |
| Mime.SubtypeOf | app.js:150 | with a single `/`, `split('/')[1]` is everything after it |
| Mime.ExtensionOfType | app.js:150 | `major/subtype` followed by nothing or by `;parameters` gives `subtype` |
| Mime.ExtensionWithCodecs | app.js:150 | `audio/webm;codecs=…` gives `webm` |
| Mime.ExtensionOfOgg | app.js:150 | `audio/ogg` gives `ogg` |
| Mime.UploadNameOfFallback | app.js:131-151 | a recorder reporting no type uploads `recording.webm` |
| Timer.JsRem | app.js:227 | JavaScript's `%`: the dividend is the divisor times the quotient truncated toward zero, plus the remainder; the remainder lies in `[0, b)` for a non-negative dividend and in `(-b, 0]` for a negative one |
| Timer.Pad2Digits | app.js:226-227 | a non-negative field is padded to at least two digits and reads back as its value; below 100 it is exactly two digits |
| Timer.DisplayReadsBack | app.js:226-228 | for non-negative seconds, the display is `minutes:seconds`; the fields are digits that read back as `e div 60` and `e mod 60` |
| Timer.TimerTextReadsBack | app.js:224-229 | for a non-negative elapsed time, the text is a clock with two-digit seconds below 60, and minutes × 60 + seconds is the elapsed whole seconds |
| Timer.TimerTextFirstSecond | app.js:224-229 | during the first second (the update run at app.js:215) the display is `00:00`, the reset text |
| Timer.TimerTextClockBackwards | app.js:225-227 | a clock that moved back by up to a second shows `-1:-1` |
| Transcription.GetApiKey | app.js:17-24 | there is no key exactly when the trimmed input is empty; a key is the trimmed input, non-empty, with no white space at either end |
| Transcription.BlankKey | app.js:18-19 | there is no key exactly when the input is all white space |
| Transcription.PrepareRequest | app.js:28-39 | there is no request exactly when the key is blank; a request goes to the endpoint with `Bearer <trimmed key>`, the given file and the model `whisper-1` (the form fields of app.js:148-152) |
| Transcription.TranscribeAudio | app.js:27-61 | the attempt's request is the prepared one; no request is made exactly when the result is the missing-key null |
| Transcription.BlankKeyMakesNoRequest | app.js:28-29 | with a blank key no request is issued, the result does not depend on the reply, and `onstop` reports `No transcription result received` |
| Transcription.TranscriptionOutcomes | app.js:28-169 | the outcomes are: blank key, `NoTranscription`; a rejected fetch, its error; a non-OK status, `ApiError(status, body)`; an OK reply without truthy text, `NoTranscription`; a transcript exactly when the key, status and text are all good, and then it is the reply's text, non-empty |
| Transcription.ApiErrorMessageReadsBack | app.js:48 | `API Error: <status> - <body>` carries the status, which reads back from its decimal text, and the body verbatim |
| Strings.NextIndexFirst | app.js:150 | the index found is the first occurrence of the separator at or after the start |
| Strings.Split | app.js:150 | `split` always has a first part, which runs up to the first separator |
| Strings.SplitCount | app.js:150 | `split` gives a single part exactly when the separator does not occur |
| Strings.SplitSecond | app.js:150 | with a separator present, the second part runs from just after the first separator up to the next one |
| Strings.SplitFirst | app.js:150 | a prefix without the separator, followed by nothing or by the separator, is the first part |
| Strings.SplitPiecesFree | app.js:150 | no part of a `split` contains the separator |
| Strings.JoinSplit | app.js:150 | joining the parts with the separator gives back the original string |
| Strings.Trim | app.js:18 | the trimmed string is empty or starts and ends with a non-white-space character |
| Strings.TrimRemovesWhitespace | app.js:18 | trimming removes only white space: the result is a slice of the input with white space on either side |
| Strings.TrimEmpty | app.js:18-19 | trimming gives the empty string exactly when the input is all white space |
| Strings.TrimIdempotent | app.js:18 | trimming twice is trimming once |
| Decimal.DigitChar | app.js:226-227 | a digit value below ten has a digit character that reads back as that value |
| Decimal.NatToString | app.js:226-227 | non-negative `toString` is non-empty decimal digits with no leading zero; it is one digit exactly below ten and at most two below 100 |
| Decimal.NatToStringValue | app.js:226-227 | the digits read back as the number |
| Decimal.IntToString | app.js:226-227 | `toString` of a negative number is `-` followed by digits |
| Decimal.IntToStringValue | app.js:48 | the text of any integer reads back as that integer |
| Decimal.IntToStringInjective | app.js:48 | distinct integers have distinct texts |
| Decimal.PadStart | app.js:226-227 | `padStart` reaches the width and ends with the original, preceded only by the fill |
| Decimal.ZeroPadValue | app.js:226-227 | padding digits with `0` keeps them digits and keeps their value |

## Left out

- DOM and UI. This covers `addRecordingToList`, the audio element and its object URL, the send and save buttons, button labels and CSS classes, `sendTranscriptionToTelegram` and the recordings list. They are presentation only. The model keeps the outcome that would be shown (`Ok(text)`, or the failure whose `ErrorText` is `Error: <message>`), but not where it is shown. One visible consequence is not modelled for that reason: the error handler updates the first `.transcription` element in the document (app.js:177). For `No audio data recorded` and `Audio recording is empty` that element belongs to an earlier recording, or does not exist.
- `fetch`, `FormData`, `response.text()` and `response.json()`. The network is modelled as a `Reply`: a status, the body as text and the JSON `text` member as an option, or a rejected fetch with its message. A body that is not JSON, which makes `response.json()` throw, is not modelled.
- `getUserMedia`, `new MediaRecorder`, `MediaRecorder.isTypeSupported`, `start` and `stop`. These browser APIs are modelled as inputs: a `Permission` answer, a supported-type predicate, and the fragments the recorder delivers. The recorder's reported `mimeType` is either empty or contains a `/`, so line 150 never throws. When `start()` is called on a recorder that is already recording it throws `InvalidStateError`; that is not modelled, and the model lets the start proceed.
- The initial compatibility check (app.js:1-5). It only produces alerts.
- `Date.now` and `setInterval`. The elapsed milliseconds are a parameter of `updateTimer`, and the interval handle is not modelled. Because of that, the interval that is leaked when `startTimer` runs twice without `stopTimer` is not captured.
- Telegram `webapp` calls (`ready`, `sendData`, `showAlert`), `alert` and `console` logging. These are calls to the host.
- `isMobileDevice` and the touch handlers (app.js:276-295). They are event wiring. Their effect on the controller is that of `startRecording` and `stopRecording`, which is modelled, including the start while recording that `StartWhileRecordingDiscards` describes.
- UploadOf: the file's type is the string passed to `new Blob` at app.js:131, without the Blob constructor's normalisation. That constructor lowercases ASCII letters, and it makes the type empty when any character lies outside U+0020-U+007E. The file name at app.js:150 uses the raw string. So for a reported `audio/WebM`, the page sends type `audio/webm` under the name `recording.WebM`, whereas the model sends type `audio/WebM`. The two agree for recorders that report lowercase printable types, as the built-in `audio/webm` and `audio/ogg` are.
- The download file name (app.js:246). It always ends in `.wav` whatever type was recorded, and it is UI only.
- The timer element's text before the first start. It comes from the page markup, and `index.html` is not part of this model: the constructor takes it as a parameter.
- `Decimal.IntToString`: does not produce the exponent form that `Number.prototype.toString` uses from 1e21 on. Elapsed times that large do not occur.
- `Strings.Split`: models `split` on a single-character separator only, which is the form the code uses.

