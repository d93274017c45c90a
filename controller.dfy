/**
 * The recording controller of app.js: the globals `mediaRecorder`, `isRecording`
 * and `audioChunks` (with the timer display and the outstanding asynchronous
 * requests), the transitions `startRecording`, `stopRecording`, the desktop click
 * toggle, `updateTimer`, `ondataavailable`, `onstop` and the answer to the
 * microphone request, each first as a function on a `State` value and then as a
 * method of the class `Recorder`, which is proved to follow the function.
 *
 * `onstop` is an async function that suspends at the `fetch`; it is modelled as
 * two steps: `StopFired` (everything up to the request) and `ReplyArrived`
 * (the reply and the `finally` block). Other events may come in between.
 */
module Controller {
  import opened Wrappers
  import opened Strings
  import opened Mime
  import opened Timer
  import opened Transcription

  /** The bytes of one `dataavailable` event's `event.data`; its `size` is the length. */
  type Fragment = seq<Byte>

  /** A constructed `MediaRecorder`: the `mimeType` option it was given and the `mimeType` it reports. */
  datatype RecorderInfo = RecorderInfo(requested: Option<string>, mimeType: RecorderMime)

  /** The controller's globals and the asynchronous work still outstanding. */
  datatype State = State(
    recorder: Option<RecorderInfo>,  // `mediaRecorder` (None until one is constructed)
    isRecording: bool,
    chunks: seq<Fragment>,           // `audioChunks`
    timer: string,                   // the timer element's text
    pendingPermissions: nat,         // microphone requests not answered yet
    inFlight: nat)                   // transcription requests not answered yet

  /** At page load nothing is set up and the microphone has been requested once (app.js:7-9, 299). */
  function Initial(timerText: string): (s: State)
    ensures Consistent(s) && !s.isRecording && s.chunks == []
    ensures s.recorder.None? && s.pendingPermissions == 1 && s.inFlight == 0 && s.timer == timerText
  {
    State(None, false, [], timerText, 1, 0)
  }

  /** What every reachable state satisfies: recording needs a recorder, and no stored fragment is empty. */
  predicate Consistent(s: State) {
    (s.isRecording ==> s.recorder.Some?)
    && forall i :: 0 <= i < |s.chunks| ==> |s.chunks[i]| > 0
  }

  /** `new Blob(chunks)`: the fragments' bytes concatenated in arrival order. */
  function Flatten(chunks: seq<Fragment>): seq<Byte>
    decreases |chunks|
  {
    if chunks == [] then [] else Flatten(chunks[..|chunks| - 1]) + chunks[|chunks| - 1]
  }

  /** The blob is empty exactly when every fragment is. */
  lemma {:induction false} FlattenEmpty(chunks: seq<Fragment>)
    ensures |Flatten(chunks)| == 0 <==> forall i :: 0 <= i < |chunks| ==> |chunks[i]| == 0
    decreases |chunks|
  {
    if chunks != [] {
      var init := chunks[..|chunks| - 1];
      FlattenEmpty(init);
      assert forall i :: 0 <= i < |init| ==> init[i] == chunks[i];
    }
  }

  /**
   * `startRecording` (app.js:189-200): without a recorder it only requests the
   * microphone; with one it clears the fragments, sets `isRecording` and starts
   * the timer, whose first update shows zero elapsed time.
   */
  function Start(s: State): (t: State)
    ensures Consistent(s) ==> Consistent(t)
  {
    if s.recorder.None? then s.(pendingPermissions := s.pendingPermissions + 1)
    else s.(chunks := [], isRecording := true, timer := TimerText(0))
  }

  /** `stopRecording` (app.js:203-210), with `stopTimer` (app.js:219-222); nothing happens unless recording. */
  function Stop(s: State): (t: State)
    ensures Consistent(s) ==> Consistent(t)
  {
    if !s.isRecording then s
    else s.(isRecording := false, timer := ResetText)
  }

  /** The desktop click handler (app.js:265-273): start when not recording, stop otherwise. */
  function Toggle(s: State): (t: State)
    ensures Consistent(s) ==> Consistent(t)
  {
    if !s.isRecording then Start(s) else Stop(s)
  }

  /** One firing of the interval that runs `updateTimer`, `elapsedMs` after the start. */
  function TimerTick(s: State, elapsedMs: int): (t: State)
    requires s.isRecording
    ensures Consistent(s) ==> Consistent(t)
    ensures t.(timer := s.timer) == s
  {
    s.(timer := TimerText(elapsedMs))
  }

  /** `ondataavailable` (app.js:115-119): keep the fragment only when its size is above zero. */
  function AddData(s: State, fragment: Fragment): (t: State)
    ensures Consistent(s) ==> Consistent(t)
  {
    if |fragment| > 0 then s.(chunks := s.chunks + [fragment]) else s
  }

  /** How the platform answers a microphone request, and whether `new MediaRecorder` then succeeds. */
  datatype Permission = Denied | Granted(created: bool, reported: RecorderMime)

  /**
   * The answer to `requestMicrophonePermission` (app.js:87-113): on a grant, the
   * recorder is constructed with the type `ChooseMimeType` picks; a denial or a
   * failed construction leaves the controller as it was.
   */
  function PermissionSettled(s: State, answer: Permission, isTypeSupported: string -> bool): (t: State)
    requires s.pendingPermissions > 0
    ensures Consistent(s) ==> Consistent(t)
  {
    var s' := s.(pendingPermissions := s.pendingPermissions - 1);
    match answer
    case Granted(true, reported) => s'.(recorder := Some(RecorderInfo(ChooseMimeType(isTypeSupported), reported)))
    case _ => s'
  }

  /**
   * The form's file field for a blob recorded under `mimeType`: the blob's type is
   * `mimeType || 'audio/webm'`, and the file name's extension comes from that same string.
   */
  function UploadOf(audio: seq<Byte>, mimeType: RecorderMime): (file: Upload)
    ensures file.audio == audio && file.fileType == SourceType(mimeType)
    ensures UploadName(file.fileType) == Some(file.fileName)
  {
    var src := SourceType(mimeType);
    UploadNameOfType(src);
    Upload(audio, src, UploadName(src).value)
  }

  /** Where the synchronous part of `onstop` ends: an error reported, or a request sent. */
  datatype StopStep = Reported(failure: Failure) | Submitted(request: Request)

  datatype AfterStop = AfterStop(state: State, step: StopStep)

  /**
   * `onstop` up to the network request (app.js:121-161): no fragments and an
   * empty blob are errors; otherwise the upload carries the blob under the type
   * `mimeType || 'audio/webm'` and the file name derived from that same string;
   * without a key `transcribeAudio` returns null, which `onstop` turns into an
   * error. Every error path runs `finally` at once and clears the fragments.
   */
  function StopResult(s: State, keyInput: string): (step: StopStep)
    requires s.recorder.Some?
  {
    if |s.chunks| == 0 then Reported(NoAudioData)
    else
      var audio := Flatten(s.chunks);
      if |audio| == 0 then Reported(EmptyAudio)
      else
        match PrepareRequest(keyInput, UploadOf(audio, s.recorder.value.mimeType))
        case None => Reported(NoTranscription)
        case Some(request) => Submitted(request)
  }

  /**
   * The state `onstop` leaves before the reply: after a request, one more
   * outstanding; after an error, `finally` has already cleared the fragments.
   */
  function AfterStep(s: State, step: StopStep): (t: State)
    ensures Consistent(s) ==> Consistent(t)
  {
    if step.Submitted? then s.(inFlight := s.inFlight + 1) else s.(chunks := [])
  }

  /** The synchronous part of `onstop` as one transition. */
  function StopFired(s: State, keyInput: string): (a: AfterStop)
    requires s.recorder.Some?
    ensures Consistent(s) ==> Consistent(a.state)
  {
    var step := StopResult(s, keyInput);
    AfterStop(AfterStep(s, step), step)
  }

  datatype AfterReply = AfterReply(state: State, outcome: Result<string, Failure>)

  /**
   * The rest of `onstop` once the reply arrives (app.js:41-60, 164-184): the
   * outcome is classified, and `finally` clears whatever fragments there are now.
   */
  function ReplyArrived(s: State, reply: Reply): (a: AfterReply)
    requires s.inFlight > 0
    ensures Consistent(s) ==> Consistent(a.state)
  {
    AfterReply(s.(chunks := [], inFlight := s.inFlight - 1), Interpret(ReadReply(reply)))
  }

  // ---------------------------------------------------------------------------
  // Properties of the transitions

  /**
   * A data event appends its fragment exactly when the fragment's size is above
   * zero; what was there stays, in order, and nothing else changes.
   */
  lemma AddDataAppendsNonEmpty(s: State, fragment: Fragment)
    ensures var t := AddData(s, fragment);
      (|t.chunks| == |s.chunks| + 1 <==> |fragment| > 0)
      && t.chunks[..|s.chunks|] == s.chunks
      && (|fragment| > 0 ==> t.chunks[|s.chunks|] == fragment)
      && (|fragment| == 0 ==> t == s)
      && t.(chunks := s.chunks) == s
  {
  }

  /** The fragments of a sequence of data events. */
  function Deliver(s: State, fragments: seq<Fragment>): State
    decreases |fragments|
  {
    if fragments == [] then s
    else AddData(Deliver(s, fragments[..|fragments| - 1]), fragments[|fragments| - 1])
  }

  /** The non-empty fragments of a sequence, in their order. */
  function NonEmpty(fragments: seq<Fragment>): (kept: seq<Fragment>)
    ensures forall i :: 0 <= i < |kept| ==> |kept[i]| > 0
    decreases |fragments|
  {
    if fragments == [] then []
    else
      var last := fragments[|fragments| - 1];
      NonEmpty(fragments[..|fragments| - 1]) + if |last| > 0 then [last] else []
  }

  /** After a sequence of data events the kept fragments are exactly the non-empty ones, in arrival order. */
  lemma {:induction false} DeliverKeepsNonEmpty(s: State, fragments: seq<Fragment>)
    ensures Deliver(s, fragments) == s.(chunks := s.chunks + NonEmpty(fragments))
    decreases |fragments|
  {
    if fragments != [] {
      var init := fragments[..|fragments| - 1];
      DeliverKeepsNonEmpty(s, init);
      var last := fragments[|fragments| - 1];
      if |last| > 0 {
        assert s.chunks + NonEmpty(init) + [last] == s.chunks + NonEmpty(fragments);
      } else {
        assert NonEmpty(fragments) == NonEmpty(init);
      }
    }
  }

  lemma {:induction false} FlattenAppend(a: seq<Fragment>, b: seq<Fragment>)
    ensures Flatten(a + b) == Flatten(a) + Flatten(b)
    decreases |b|
  {
    if b == [] {
      assert a + b == a;
    } else {
      var init := b[..|b| - 1];
      FlattenAppend(a, init);
      assert (a + b)[..|a + b| - 1] == a + init;
      assert (a + b)[|a + b| - 1] == b[|b| - 1];
      assert Flatten(a + b) == Flatten(a + init) + b[|b| - 1];
    }
  }

  /** Dropping the empty fragments does not change the bytes of the blob. */
  lemma {:induction false} FlattenNonEmpty(fragments: seq<Fragment>)
    ensures Flatten(NonEmpty(fragments)) == Flatten(fragments)
    decreases |fragments|
  {
    if fragments != [] {
      var init := fragments[..|fragments| - 1];
      var last := fragments[|fragments| - 1];
      FlattenNonEmpty(init);
      if |last| > 0 {
        FlattenAppend(NonEmpty(init), [last]);
        assert Flatten([last]) == last by {
          assert [last][..0] == [];
        }
      } else {
        assert NonEmpty(fragments) == NonEmpty(init);
        assert Flatten(fragments) == Flatten(init) + last;
        assert last == [];
      }
    }
  }

  /**
   * Starting and then receiving fragments: the blob is the concatenation of
   * the non-empty fragments, which is the concatenation of all of them.
   */
  lemma RecordedBlob(s: State, fragments: seq<Fragment>)
    requires s.recorder.Some?
    ensures var t := Deliver(Start(s), fragments);
      t.chunks == NonEmpty(fragments) && Flatten(t.chunks) == Flatten(fragments)
  {
    DeliverKeepsNonEmpty(Start(s), fragments);
    assert [] + NonEmpty(fragments) == NonEmpty(fragments);
    FlattenNonEmpty(fragments);
  }

  /** Stopping while not recording changes nothing. */
  lemma StopWhenIdle(s: State)
    requires !s.isRecording
    ensures Stop(s) == s
  {
  }

  /** Stopping while recording leaves `isRecording` false and the display at `00:00`, and keeps the fragments for `onstop`. */
  lemma StopWhileRecording(s: State)
    requires s.isRecording
    ensures var t := Stop(s);
      !t.isRecording && t.timer == "00:00" && t.chunks == s.chunks && t.recorder == s.recorder
      && t.inFlight == s.inFlight && t.pendingPermissions == s.pendingPermissions
  {
  }

  /** Without a recorder, starting only issues a microphone request. */
  lemma StartWithoutRecorder(s: State)
    requires s.recorder.None?
    ensures var t := Start(s);
      t.pendingPermissions == s.pendingPermissions + 1
      && t.isRecording == s.isRecording && t.chunks == s.chunks && t.recorder.None? && t.timer == s.timer
  {
  }

  /** With a recorder, starting leaves no fragments, `isRecording` set and the display at `00:00`. */
  lemma StartWithRecorder(s: State)
    requires s.recorder.Some?
    ensures var t := Start(s);
      t.chunks == [] && t.isRecording && t.timer == "00:00"
      && t.recorder == s.recorder && t.pendingPermissions == s.pendingPermissions
  {
    TimerTextFirstSecond(0);
  }

  /**
   * Starting while already recording (which the touch handler does) is not
   * harmless: the fragments gathered so far are discarded.
   */
  lemma StartWhileRecordingDiscards(s: State)
    requires s.isRecording && s.recorder.Some? && s.chunks != []
    ensures Start(s).isRecording && Start(s).chunks == [] && Start(s) != s
  {
  }

  /** The desktop toggle flips `isRecording` once there is a recorder; before that it only requests the microphone. */
  lemma ToggleFlips(s: State)
    requires Consistent(s)
    ensures s.recorder.Some? ==> Toggle(s).isRecording == !s.isRecording
    ensures s.recorder.None? ==> Toggle(s) == s.(pendingPermissions := s.pendingPermissions + 1)
  {
  }

  /** A grant with a working recorder installs one asking for the chosen type; otherwise the recorder is unchanged. */
  lemma PermissionOutcomes(s: State, answer: Permission, isTypeSupported: string -> bool)
    requires s.pendingPermissions > 0
    ensures var t := PermissionSettled(s, answer, isTypeSupported);
      t.pendingPermissions == s.pendingPermissions - 1
      && (answer.Granted? && answer.created
          ==> t.recorder == Some(RecorderInfo(ChooseMimeType(isTypeSupported), answer.reported)))
      && (answer.Denied? || !answer.created ==> t.recorder == s.recorder)
      && t.isRecording == s.isRecording && t.chunks == s.chunks && t.timer == s.timer
      && t.inFlight == s.inFlight
  {
  }

  /**
   * What the synchronous part of `onstop` does: no fragments reports
   * `No audio data recorded`, an empty blob `Audio recording is empty`, a blank
   * key `No transcription result received`, each with the fragments cleared and
   * no request; otherwise one request is sent, carrying the whole blob under the
   * type `mimeType || 'audio/webm'` and the name `recording.<ext>` derived from
   * that same type.
   */
  lemma StopOutcomes(s: State, keyInput: string)
    requires s.recorder.Some?
    ensures var a := StopFired(s, keyInput);
      (s.chunks == [] ==> a.step == Reported(NoAudioData))
      && (s.chunks != [] && |Flatten(s.chunks)| == 0 ==> a.step == Reported(EmptyAudio))
      && (|Flatten(s.chunks)| > 0 && AllWhitespace(keyInput) ==> a.step == Reported(NoTranscription))
      && (a.step.Reported? ==> a.state == s.(chunks := []))
      && (a.step.Submitted? <==> |Flatten(s.chunks)| > 0 && !AllWhitespace(keyInput))
  {
  }

  /** A sent request's upload: the blob, its type, and a file name whose extension comes from that type. */
  lemma SubmittedUpload(s: State, keyInput: string)
    requires s.recorder.Some?
    requires StopResult(s, keyInput).Submitted?
    ensures var request := StopResult(s, keyInput).request;
      request.file == UploadOf(Flatten(s.chunks), s.recorder.value.mimeType)
      && |request.file.audio| > 0
      && request.authorization == "Bearer " + Trim(keyInput)
      && StopFired(s, keyInput).state == s.(inFlight := s.inFlight + 1)
  {
    var file := UploadOf(Flatten(s.chunks), s.recorder.value.mimeType);
    assert StopResult(s, keyInput) == Submitted(PrepareRequest(keyInput, file).value);
  }

  /** In a consistent state there is never an empty blob behind a non-empty fragment list. */
  lemma ConsistentBlobNotEmpty(s: State, keyInput: string)
    requires Consistent(s) && s.recorder.Some?
    ensures s.chunks != [] ==> |Flatten(s.chunks)| > 0
    ensures StopFired(s, keyInput).step != Reported(EmptyAudio)
  {
    if s.chunks != [] {
      assert |s.chunks[0]| > 0;
    }
  }

  /** The fragments are empty once `onstop` is finished, whichever way it ends. */
  lemma ChunksClearedAfterStop(s: State, keyInput: string, reply: Reply)
    requires s.recorder.Some?
    ensures var a := StopFired(s, keyInput);
      (a.step.Reported? ==> a.state.chunks == [])
      && (a.step.Submitted? ==> a.state.inFlight > 0 && ReplyArrived(a.state, reply).state.chunks == [])
  {
  }

  /** The two steps of `onstop` together give what `transcribeAudio` and the check of its result give. */
  lemma StepsAgreeWithTranscribeAudio(s: State, keyInput: string, reply: Reply)
    requires s.recorder.Some? && |Flatten(s.chunks)| > 0
    ensures var a := StopFired(s, keyInput);
      var attempt := TranscribeAudio(keyInput, UploadOf(Flatten(s.chunks), s.recorder.value.mimeType), reply);
      (a.step.Reported? <==> attempt.request.None?)
      && (a.step.Reported? ==> Err(a.step.failure) == Interpret(attempt.result))
      && (a.step.Submitted? ==>
            Some(a.step.request) == attempt.request
            && ReplyArrived(a.state, reply).outcome == Interpret(attempt.result))
  {
  }

  /**
   * The `finally` of a transcription still in flight runs after any later
   * events: if a new recording has been started and has received a fragment
   * before that reply arrives, the reply's arrival discards the fragment too.
   * `start()` is called without a timeslice (app.js:196), so a recorder delivers
   * data mid-recording only when it flushes early; a fragment delivered by the
   * new recording's own stop is turned into its blob by its own `onstop` first.
   */
  lemma ReplyDiscardsLaterRecording(s: State, keyInput: string, fragment: Fragment, reply: Reply)
    requires s.recorder.Some? && |fragment| > 0
    requires StopFired(s, keyInput).step.Submitted?
    ensures var a := StopFired(s, keyInput);
      var recording := AddData(Start(Stop(a.state)), fragment);
      recording.isRecording && recording.chunks == [fragment]
      && ReplyArrived(recording, reply).state.chunks == []
      && ReplyArrived(recording, reply).state.isRecording
  {
  }

  /**
   * The scenario of fragments `AAA`, an empty one and `BBB` recorded as
   * `audio/webm` and answered with the text `hello world`: one request with
   * the blob `AAABBB` named `recording.webm`, and the transcript `hello world`.
   */
  lemma EndToEnd()
    ensures
      var s := State(Some(RecorderInfo(Some(WebM), WebM)), false, [], "00:00", 0, 0);
      var stopped := Stop(Deliver(Start(s), [[65, 65, 65], [], [66, 66, 66]]));
      stopped.recorder.Some? && !stopped.isRecording && stopped.chunks == [[65, 65, 65], [66, 66, 66]]
      && var a := StopFired(stopped, "sk-key");
      a.step.Submitted?
      && a.step.request.file == Upload([65, 65, 65, 66, 66, 66], WebM, "recording.webm")
      && a.state.inFlight == 1
      && ReplyArrived(a.state, Response(200, "{\"text\": \"hello world\"}", Some("hello world"))).outcome
         == Ok("hello world")
  {
    var s := State(Some(RecorderInfo(Some(WebM), WebM)), false, [], "00:00", 0, 0);
    var fragments: seq<Fragment> := [[65, 65, 65], [], [66, 66, 66]];
    var kept: seq<Fragment> := [[65, 65, 65], [66, 66, 66]];
    var stopped := Stop(Deliver(Start(s), fragments));
    assert stopped == s.(chunks := kept, timer := ResetText) by {
      assert NonEmpty(fragments) == kept by {
        assert fragments[..2][..1] == [[65, 65, 65]];
        assert fragments[..2] == [[65, 65, 65], []];
        assert [[65, 65, 65]][..0] == [];
      }
      DeliverKeepsNonEmpty(Start(s), fragments);
    }
    EndToEndSubmit(stopped);
  }

  lemma EndToEndSubmit(stopped: State)
    requires stopped == State(Some(RecorderInfo(Some(WebM), WebM)), false,
                              [[65, 65, 65], [66, 66, 66]], "00:00", 0, 0)
    ensures var a := StopFired(stopped, "sk-key");
      a.step.Submitted?
      && a.step.request.file == Upload([65, 65, 65, 66, 66, 66], WebM, "recording.webm")
      && a.state.inFlight == 1
  {
    var kept: seq<Fragment> := [[65, 65, 65], [66, 66, 66]];
    assert Flatten(kept) == [65, 65, 65, 66, 66, 66] by {
      assert kept[..1] == [[65, 65, 65]];
      assert [[65, 65, 65]][..0] == [];
    }
    var file := Upload([65, 65, 65, 66, 66, 66], WebM, "recording.webm");
    assert UploadName(SourceType(WebM)) == Some("recording.webm") by {
      UploadNameOfFallback();
    }
    assert PrepareRequest("sk-key", file).Some? by {
      assert !IsWhitespace("sk-key"[0]);
    }
  }

  // ---------------------------------------------------------------------------
  // The controller as the page holds it: globals updated in place by event handlers.

  class Recorder {
    var mediaRecorder: Option<RecorderInfo>
    var isRecording: bool
    var audioChunks: seq<Fragment>
    var timerText: string
    var pendingPermissions: nat
    var inFlight: nat

    /** The state these fields hold. */
    function View(): State
      reads this
    {
      State(mediaRecorder, isRecording, audioChunks, timerText, pendingPermissions, inFlight)
    }

    predicate Valid()
      reads this
    {
      Consistent(View())
    }

    /** The page at load, with the timer element's initial text (app.js:7-9, 299). */
    constructor (initialTimerText: string)
      ensures Valid() && View() == Initial(initialTimerText)
    {
      mediaRecorder := None;
      isRecording := false;
      audioChunks := [];
      timerText := initialTimerText;
      pendingPermissions := 1;
      inFlight := 0;
    }

    method StartRecording()
      requires Valid()
      modifies this
      ensures Valid() && View() == Start(old(View()))
    {
      if mediaRecorder.None? {
        pendingPermissions := pendingPermissions + 1;
        return;
      }
      audioChunks := [];
      isRecording := true;
      timerText := TimerText(0);
    }

    method StopRecording()
      requires Valid()
      modifies this
      ensures Valid() && View() == Stop(old(View()))
    {
      if !isRecording {
        return;
      }
      isRecording := false;
      timerText := ResetText;
    }

    /** The desktop click handler. */
    method Click()
      requires Valid()
      modifies this
      ensures Valid() && View() == Toggle(old(View()))
    {
      if !isRecording {
        StartRecording();
      } else {
        StopRecording();
      }
    }

    /** `updateTimer`, run by the interval while recording. */
    method UpdateTimer(elapsedMs: int)
      requires Valid() && isRecording
      modifies this
      ensures Valid() && View() == TimerTick(old(View()), elapsedMs)
    {
      timerText := TimerText(elapsedMs);
    }

    method OnDataAvailable(fragment: Fragment)
      requires Valid()
      modifies this
      ensures Valid() && View() == AddData(old(View()), fragment)
    {
      if |fragment| > 0 {
        audioChunks := audioChunks + [fragment];
      }
    }

    /** The microphone request settles; on a grant, `setupMediaRecorder` runs. */
    method OnPermission(answer: Permission, isTypeSupported: string -> bool)
      requires Valid() && pendingPermissions > 0
      modifies this
      ensures Valid() && View() == PermissionSettled(old(View()), answer, isTypeSupported)
    {
      pendingPermissions := pendingPermissions - 1;
      if answer.Granted? && answer.created {
        var options := ChooseMimeType(isTypeSupported);
        mediaRecorder := Some(RecorderInfo(options, answer.reported));
      }
    }

    /** The checks and the request of `onstop`, on the fields as they are; nothing is changed. */
    method ClassifyStop(keyInput: string) returns (step: StopStep)
      requires mediaRecorder.Some?
      ensures step == StopResult(View(), keyInput)
    {
      if |audioChunks| == 0 {
        return Reported(NoAudioData);
      }
      var audio := Flatten(audioChunks);
      if |audio| == 0 {
        return Reported(EmptyAudio);
      }
      var request := PrepareRequest(keyInput, UploadOf(audio, mediaRecorder.value.mimeType));
      if request.Some? {
        step := Submitted(request.value);
      } else {
        step := Reported(NoTranscription);
      }
    }

    /** `onstop` up to the request; `step` says whether an error was reported or a request sent. */
    method OnStop(keyInput: string) returns (step: StopStep)
      requires Valid() && mediaRecorder.Some?
      modifies this
      ensures step == StopResult(old(View()), keyInput)
      ensures Valid() && View() == AfterStep(old(View()), step)
    {
      step := ClassifyStop(keyInput);
      if step.Submitted? {
        inFlight := inFlight + 1;
      } else {
        audioChunks := [];
      }
    }

    /** The reply to one outstanding request: the rest of `onstop`, up to and including `finally`. */
    method OnReply(reply: Reply) returns (outcome: Result<string, Failure>)
      requires Valid() && inFlight > 0
      modifies this
      ensures Valid() && AfterReply(View(), outcome) == ReplyArrived(old(View()), reply)
    {
      var result := ReadReply(reply);
      outcome := Interpret(result);
      audioChunks := [];
      inFlight := inFlight - 1;
    }
  }
}
