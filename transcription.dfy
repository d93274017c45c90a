/**
 * The transcription request and the classification of its outcome:
 * `getApiKey` and `transcribeAudio` (app.js:17-61), the form fields built
 * in `onstop` (app.js:148-152), and how `onstop` reads the result (app.js:164-179).
 * The network is an input: the `Reply` a request receives.
 */
module Transcription {
  import opened Wrappers
  import opened Strings
  import opened Decimal

  newtype Byte = b: int | 0 <= b < 0x100

  const Endpoint: string := "https://api.openai.com/v1/audio/transcriptions"
  const ModelName: string := "whisper-1"

  /** The form's `file` field: the audio bytes, the blob's type and the file name they are sent under. */
  datatype Upload = Upload(audio: seq<Byte>, fileType: string, fileName: string)

  /** The POST that `fetch` issues: URL, `Authorization` header, `file` and `model` fields. */
  datatype Request = Request(url: string, authorization: string, file: Upload, model: string)

  /**
   * What a request receives: a response with its status, its body as text, and
   * the `text` member of the body read as JSON (None when absent or null); or a
   * rejected `fetch` with the message of its error.
   */
  datatype Reply =
    | Response(status: int, body: string, text: Option<string>)
    | FetchRejected(message: string)

  /** The errors `onstop` catches, each of which it shows as `Error: <message>`. */
  datatype Failure =
    | NoAudioData
    | EmptyAudio
    | ApiError(status: int, body: string)
    | NetworkError(message: string)
    | NoTranscription

  /** How `transcribeAudio` completes: null for a missing key, a returned `data.text`, or a thrown error. */
  datatype Transcribed = NoKey | Returned(text: Option<string>) | Threw(failure: Failure)

  /** The request `transcribeAudio` issues (None: no network call at all) and how it completes. */
  datatype Attempt = Attempt(request: Option<Request>, result: Transcribed)

  /** `getApiKey`: the trimmed input, or null when nothing but white space was entered. */
  function GetApiKey(input: string): (key: Option<string>)
    ensures key.None? <==> Trim(input) == []
    ensures key.Some? ==> key.value == Trim(input) && key.value != []
    ensures key.Some? ==> !IsWhitespace(key.value[0]) && !IsWhitespace(key.value[|key.value| - 1])
  {
    var apiKey := Trim(input);
    if apiKey == [] then None else Some(apiKey)
  }

  /** There is no key exactly when the input is nothing but white space. */
  lemma BlankKey(input: string)
    ensures GetApiKey(input).None? <==> AllWhitespace(input)
  {
    TrimEmpty(input);
  }

  /** The request for an upload, sent with the key as a bearer token; none without a key. */
  function PrepareRequest(keyInput: string, file: Upload): (r: Option<Request>)
    ensures r.None? <==> Trim(keyInput) == []
    ensures r.Some? ==> r.value.authorization == "Bearer " + Trim(keyInput)
    ensures r.Some? ==> r.value.url == Endpoint && r.value.model == ModelName && r.value.file == file
  {
    match GetApiKey(keyInput)
    case None => None
    case Some(apiKey) => Some(Request(Endpoint, "Bearer " + apiKey, file, ModelName))
  }

  /** `response.ok`: a status in the range 200 to 299. */
  predicate IsOk(status: int) {
    200 <= status <= 299
  }

  /** What `transcribeAudio` does with the reply to its request (app.js:41-60). */
  function ReadReply(reply: Reply): Transcribed {
    match reply
    case FetchRejected(message) => Threw(NetworkError(message))
    case Response(status, body, text) =>
      if !IsOk(status) then Threw(ApiError(status, body)) else Returned(text)
  }

  /** `transcribeAudio(audioBlob, formData)`, with the network's reply as an input. */
  function TranscribeAudio(keyInput: string, file: Upload, reply: Reply): (a: Attempt)
    ensures a.request == PrepareRequest(keyInput, file)
    ensures a.request.None? <==> a.result.NoKey?
  {
    match PrepareRequest(keyInput, file)
    case None => Attempt(None, NoKey)
    case Some(request) => Attempt(Some(request), ReadReply(reply))
  }

  /** JavaScript truthiness of `data.text`: present and not the empty string. */
  predicate Truthy(text: Option<string>) {
    text.Some? && text.value != ""
  }

  /** How `onstop` reads the completion: a truthy text is the transcript, anything else an error. */
  function Interpret(t: Transcribed): Result<string, Failure> {
    match t
    case Threw(failure) => Err(failure)
    case Returned(text) => if Truthy(text) then Ok(text.value) else Err(NoTranscription)
    case NoKey => Err(NoTranscription)
  }

  /** `error.message` of each failure. */
  function Message(f: Failure): string {
    match f
    case NoAudioData => "No audio data recorded"
    case EmptyAudio => "Audio recording is empty"
    case ApiError(status, body) => "API Error: " + IntToString(status) + " - " + body
    case NetworkError(message) => message
    case NoTranscription => "No transcription result received"
  }

  /** The text the transcription entry shows for a failure (app.js:179). */
  function ErrorText(f: Failure): string {
    "Error: " + Message(f)
  }

  /** With a blank key no request is issued, and the outcome is the same whatever the network would have replied. */
  lemma BlankKeyMakesNoRequest(keyInput: string, file: Upload, reply1: Reply, reply2: Reply)
    requires AllWhitespace(keyInput)
    ensures TranscribeAudio(keyInput, file, reply1).request.None?
    ensures TranscribeAudio(keyInput, file, reply1) == TranscribeAudio(keyInput, file, reply2)
    ensures Interpret(TranscribeAudio(keyInput, file, reply1).result) == Err(NoTranscription)
  {
    TrimEmpty(keyInput);
  }

  /**
   * The four outcomes of a transcription as `onstop` sees them: no key, a failed
   * fetch, a non-OK status and an OK reply without text are errors; an OK reply
   * with text gives exactly that text, and nothing else gives a transcript.
   */
  lemma TranscriptionOutcomes(keyInput: string, file: Upload, reply: Reply)
    ensures var r := Interpret(TranscribeAudio(keyInput, file, reply).result);
      (AllWhitespace(keyInput) ==> r == Err(NoTranscription))
      && (!AllWhitespace(keyInput) && reply.FetchRejected? ==> r == Err(NetworkError(reply.message)))
      && (!AllWhitespace(keyInput) && reply.Response? && !IsOk(reply.status)
          ==> r == Err(ApiError(reply.status, reply.body)))
      && (!AllWhitespace(keyInput) && reply.Response? && IsOk(reply.status) && !Truthy(reply.text)
          ==> r == Err(NoTranscription))
      && (r.Ok? <==> !AllWhitespace(keyInput) && reply.Response? && IsOk(reply.status) && Truthy(reply.text))
      && (r.Ok? ==> r.value == reply.text.value && r.value != "")
  {
    TrimEmpty(keyInput);
  }

  /**
   * An API error's message carries the status and the body verbatim:
   * the status reads back from the text between `API Error: ` and ` - `,
   * and the body is the whole rest.
   */
  lemma ApiErrorMessageReadsBack(status: int, body: string)
    ensures var m := Message(ApiError(status, body)); var n := |m| - |body| - 3;
      11 <= n && m[..11] == "API Error: " && m[n..|m| - |body|] == " - " && m[|m| - |body|..] == body
      && IsIntText(m[11..n]) && IntValue(m[11..n]) == status
  {
    var d := IntToString(status);
    var m := Message(ApiError(status, body));
    assert m == "API Error: " + d + " - " + body;
    var n := |m| - |body| - 3;
    assert m[11..n] == d;
    IntToStringValue(status);
  }
}
