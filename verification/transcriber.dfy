/**
 * The transcription agent: file checks, then the remote speech-to-text
 * service, then local Whisper or Google Speech, with a fixed simulated
 * transcript when Whisper fails. Backends are inputs: each is the outcome
 * the backend would produce for the file (`Ok` value or thrown message).
 */
module Transcriber {
  import opened Wrappers
  import opened Text
  import Config

  /** A time-aligned piece of a transcript. */
  datatype Segment = Segment(text: string, start: real, end: real)

  /** One Google Speech result; `alternatives` holds the transcript of each alternative, best first. */
  datatype SpeechResult = SpeechResult(alternatives: seq<string>)

  /**
   * A transcript object in any of the shapes the backends produce: Whisper and the
   * remote service fill `text` and `segments`, Google Speech fills `results`.
   * A missing or empty `text` is the empty string; a missing array is `None`.
   */
  datatype Envelope = Envelope(text: string, results: Option<seq<SpeechResult>>, segments: Option<seq<Segment>>)

  /**
   * A value handed to the analysis and summary agents as "the transcription":
   * a falsy value (`null`, `undefined`, `0`, `false`), a string, an object, or a
   * truthy value of another type (a number, `true`) with its `typeof` name.
   */
  datatype TranscriptValue = Missing | Plain(text: string) | Shaped(envelope: Envelope) | OtherValue(typeName: string)

  /** What a local Whisper run returns. */
  datatype WhisperOutput = WhisperOutput(text: string, segments: Option<seq<Segment>>)

  /** What the file system reports about the audio path: existence, then `statSync` (size, or its error). */
  datatype AudioFile = AudioFile(path: string, present: bool, stat: Result<int>)

  datatype Backend = RemoteApi | LocalWhisper | GoogleSpeech

  /** Constructor options `useWhisper` and `useGoogleSpeech` (absent = `None`). */
  datatype Options = Options(useWhisper: Option<bool>, useGoogleSpeech: Option<bool>)

  datatype Settings = Settings(useWhisper: bool, useGoogleSpeech: bool)

  /** The outcome of `transcribe`, with the backends it tried in order. */
  datatype Transcription = Transcription(reply: Reply<Envelope>, attempted: seq<Backend>)

  // The two sentences of the simulated transcript; the first is split after "Esta"
  // only so that the verifier can see its first character.
  const SimulatedFirst: string := "Esta" + " es una transcripción simulada debido a un error con Whisper."
  const SimulatedSecond: string := "En esta reunión hablamos sobre el proyecto de IA y establecimos varios objetivos importantes."
  const SimulatedText: string := SimulatedFirst + " " + SimulatedSecond

  /** The placeholder transcript used whenever Whisper fails or produces no text. */
  const Simulated: Envelope :=
    Envelope(SimulatedText, None, Some([Segment(SimulatedFirst, 0.0, 5.0), Segment(SimulatedSecond, 5.0, 12.0)]))

  lemma SimulatedNotBlank()
    ensures Simulated.text != [] && !AllSpace(Simulated.text)
  {
    assert SimulatedText[0] == SimulatedFirst[0] == 'E';
  }

  const EmptyFileError: string := "El archivo de audio está vacío"
  const NoServiceError: string := "No se ha configurado ningún servicio de transcripción"

  /** `useWhisper` is on unless explicitly `false`; `useGoogleSpeech` is off unless truthy. */
  function Configure(o: Options): (s: Settings)
    ensures s.useWhisper <==> o.useWhisper != Some(false)
    ensures s.useGoogleSpeech <==> o.useGoogleSpeech == Some(true)
  {
    Settings(o.useWhisper != Some(false), o.useGoogleSpeech == Some(true))
  }

  /** The file checks that run before any backend: `None` when the file is usable, else the error. */
  function CheckFile(f: AudioFile): (err: Option<string>)
    ensures err == None <==> f.present && f.stat.Ok? && f.stat.value != 0
  {
    if !f.present then Some("El archivo de audio no existe: " + f.path)
    else match f.stat
      case Err(m) => Some("No se puede acceder al archivo: " + m)
      case Ok(size) => if size == 0 then Some("No se puede acceder al archivo: " + EmptyFileError) else None
  }

  /** `_transcribeWithWhisper`: a Whisper error or a blank text yields the simulated transcript. */
  function WhisperTranscript(run: Result<WhisperOutput>): (e: Envelope)
    ensures e.text != [] && !AllSpace(e.text)
    ensures run.Ok? && !IsBlank(run.value.text) ==> e.text == run.value.text
    ensures (run.Err? || IsBlank(run.value.text)) ==> e == Simulated
  {
    match run
    case Ok(out) =>
      if IsBlank(out.text) then SimulatedNotBlank(); Simulated
      else BlankIffAllSpace(out.text); Envelope(out.text, None, Some(out.segments.GetOr([])))
    case Err(_) => SimulatedNotBlank(); Simulated
  }

  /** `transcribe(audioFilePath)` */
  function Transcribe(s: Settings, apiKey: string, f: AudioFile, remote: Result<Envelope>,
                      whisper: Result<WhisperOutput>, google: Result<Envelope>): (t: Transcription)
    ensures CheckFile(f).Some? ==> t == Transcription(Failure(CheckFile(f).value), [])
    ensures t.reply.Success? ==> t.reply.service.Some? && |t.attempted| > 0
    ensures CheckFile(f).None? ==> (|t.attempted| > 0 && t.attempted[0] == RemoteApi <==> Config.RemoteConfigured(apiKey))
    ensures CheckFile(f).None? && Config.RemoteConfigured(apiKey) && remote.Ok? ==>
      t == Transcription(Success(remote.value, Some("openai-api")), [RemoteApi])
    ensures CheckFile(f).None? && !(Config.RemoteConfigured(apiKey) && remote.Ok?) && !s.useWhisper && s.useGoogleSpeech ==>
      |t.attempted| > 0 && t.attempted[|t.attempted| - 1] == GoogleSpeech
      && t.reply == if google.Ok? then Success(google.value, Some("google-speech")) else Failure(google.message)
    ensures CheckFile(f).None? && !(Config.RemoteConfigured(apiKey) && remote.Ok?) && !s.useWhisper && !s.useGoogleSpeech ==>
      t.reply == Failure(NoServiceError)
  {
    if CheckFile(f).Some? then Transcription(Failure(CheckFile(f).value), [])
    else
      var tried := if Config.RemoteConfigured(apiKey) then [RemoteApi] else [];
      if Config.RemoteConfigured(apiKey) && remote.Ok? then
        Transcription(Success(remote.value, Some("openai-api")), tried)
      else if s.useWhisper then
        Transcription(Success(WhisperTranscript(whisper), Some("whisper")), tried + [LocalWhisper])
      else if s.useGoogleSpeech then
        match google
        case Ok(e) => Transcription(Success(e, Some("google-speech")), tried + [GoogleSpeech])
        case Err(m) => Transcription(Failure(m), tried + [GoogleSpeech])
      else Transcription(Failure(NoServiceError), tried)
  }

  /** The service tag a successful transcription reports, by the backend that produced it. */
  function ServiceTag(b: Backend): string {
    match b
    case RemoteApi => "openai-api"
    case LocalWhisper => "whisper"
    case GoogleSpeech => "google-speech"
  }

  /** The reported service is that of the last backend tried. */
  lemma ServiceIsLastBackend(s: Settings, apiKey: string, f: AudioFile, remote: Result<Envelope>,
                             whisper: Result<WhisperOutput>, google: Result<Envelope>)
    ensures var t := Transcribe(s, apiKey, f, remote, whisper, google);
      t.reply.Success? ==> t.reply.service == Some(ServiceTag(t.attempted[|t.attempted| - 1]))
  {
    var t := Transcribe(s, apiKey, f, remote, whisper, google);
    if t.reply.Success? {
      var last := t.attempted[|t.attempted| - 1];
      if Config.RemoteConfigured(apiKey) && remote.Ok? {
        assert last == RemoteApi && t.reply.service == Some("openai-api");
      } else if s.useWhisper {
        assert last == LocalWhisper && t.reply.service == Some("whisper");
      } else {
        assert last == GoogleSpeech && t.reply.service == Some("google-speech");
      }
    }
  }

  /** The remote service, when tried, is tried first and only once; after it comes at most one local backend. */
  lemma RemoteTriedFirst(s: Settings, apiKey: string, f: AudioFile, remote: Result<Envelope>,
                         whisper: Result<WhisperOutput>, google: Result<Envelope>)
    ensures var t := Transcribe(s, apiKey, f, remote, whisper, google);
      |t.attempted| <= 2 && forall i :: 0 < i < |t.attempted| ==> t.attempted[i] != RemoteApi && t.attempted[0] == RemoteApi
  {
  }

  /** When the file is usable, the job fails exactly when no local backend is enabled and the remote one did not answer, or Google Speech threw. */
  lemma SuccessIff(s: Settings, apiKey: string, f: AudioFile, remote: Result<Envelope>,
                   whisper: Result<WhisperOutput>, google: Result<Envelope>)
    requires CheckFile(f).None?
    ensures Transcribe(s, apiKey, f, remote, whisper, google).reply.Success? <==>
      (Config.RemoteConfigured(apiKey) && remote.Ok?) || s.useWhisper || (s.useGoogleSpeech && google.Ok?)
  {
  }

  /** With Whisper enabled and the remote path unavailable, transcription never fails once the file checks pass. */
  lemma WhisperNeverFails(s: Settings, apiKey: string, f: AudioFile, remote: Result<Envelope>,
                          whisper: Result<WhisperOutput>, google: Result<Envelope>)
    requires CheckFile(f).None? && s.useWhisper
    requires !Config.RemoteConfigured(apiKey) || remote.Err?
    ensures Transcribe(s, apiKey, f, remote, whisper, google).reply
      == Success(WhisperTranscript(whisper), Some("whisper"))
  {
  }
}
