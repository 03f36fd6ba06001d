/** The pipeline orchestrator: `transcribe_and_diarize` runs the three
    stages in order and lets the first error propagate. The external
    services are inputs, and `calls` records which stage functions were
    called and with what arguments. */
module Orchestrator {
  import opened Outcomes
  import opened Transcriber
  import opened Diarizer
  import opened Alignment

  /** The three external services the pipeline depends on: the speech-to-text
      endpoint (per attempt), the diarization pipeline and the chat model. */
  datatype Services = Services(
    transcriber: (string, nat) -> Attempt,
    diarizer: string -> PipelineOutcome,
    chat: (string, seq<Segment>) -> ChatOutcome)

  /** A call to one of the stage functions, with its arguments. */
  datatype Call =
    | TranscribeCall(audioPath: string)
    | DiarizeCall(audioPath: string, speakerNames: Option<seq<string>>)
    | AlignCall(transcript: string, segments: seq<Segment>)

  /** What `transcribe_and_diarize` returns or raises. */
  function PipelineResult(audioPath: string, speakerNames: Option<seq<string>>, services: Services): (r: Result<string>)
    ensures var transcribed := TranscriptionResult(audioPath, services.transcriber);
            var diarized := Diarization(audioPath, speakerNames, services.diarizer);
            (r.Ok? <==> transcribed.Ok? && diarized.Ok?) &&
            (r.Err? ==> r.error == if transcribed.Err? then transcribed.error else diarized.error)
  {
    match TranscriptionResult(audioPath, services.transcriber)
    case Err(e) => Err(e)
    case Ok(transcript) =>
      match Diarization(audioPath, speakerNames, services.diarizer)
      case Err(e) => Err(e)
      case Ok(segments) => Ok(AlignedText(transcript, segments, services.chat(transcript, segments)))
  }

  method TranscribeAndDiarize(audioPath: string, speakerNames: Option<seq<string>>, services: Services)
    returns (result: Result<string>, calls: seq<Call>)
    ensures result == PipelineResult(audioPath, speakerNames, services)
    ensures var transcribed := TranscriptionResult(audioPath, services.transcriber);
            var diarized := Diarization(audioPath, speakerNames, services.diarizer);
            calls ==
              [TranscribeCall(audioPath)] +
              (if transcribed.Ok? then [DiarizeCall(audioPath, speakerNames)] else []) +
              (if transcribed.Ok? && diarized.Ok? then [AlignCall(transcribed.value, diarized.value)] else [])
  {
    calls := [TranscribeCall(audioPath)];
    var transcribed, _, _ := TranscribeAudio(audioPath, services.transcriber);
    if transcribed.Err? {
      return Err(transcribed.error), calls;
    }
    var transcript := transcribed.value;

    calls := calls + [DiarizeCall(audioPath, speakerNames)];
    var diarized := DiarizeAudio(audioPath, speakerNames, services.diarizer);
    if diarized.Err? {
      return Err(diarized.error), calls;
    }
    var segments := diarized.value;

    calls := calls + [AlignCall(transcript, segments)];
    var diarizedTranscript := AlignTranscriptWithDiarization(transcript, segments, services.chat(transcript, segments));
    result := Ok(diarizedTranscript);
  }

  /** The pipeline succeeds exactly when some transcription attempt succeeds
      and the diarization pipeline yields tracks; the chat model cannot make
      it fail. */
  lemma PipelineSucceedsIff(audioPath: string, speakerNames: Option<seq<string>>, services: Services)
    ensures PipelineResult(audioPath, speakerNames, services).Ok? <==>
            (exists k :: 0 <= k < MaxRetries && Succeeds(services.transcriber(audioPath, k))) &&
            services.diarizer(audioPath).Tracks?
  {
    TranscriptionSucceedsIff(audioPath, services.transcriber);
  }

  /** A failure names its stage: a transcription error means every attempt
      failed and the message is the exhausted-retries message; a diarization
      error means transcription succeeded and the pipeline itself failed. */
  lemma PipelineErrorNamesStage(audioPath: string, speakerNames: Option<seq<string>>, services: Services)
    requires PipelineResult(audioPath, speakerNames, services).Err?
    ensures var e := PipelineResult(audioPath, speakerNames, services).error;
            (e.TranscriptionError? &&
             (forall k :: 0 <= k < MaxRetries ==> !Succeeds(services.transcriber(audioPath, k))) &&
             e.message == ExhaustedMessage(FailureReason(services.transcriber(audioPath, MaxRetries - 1)))) ||
            (e.DiarizationError? &&
             TranscriptionResult(audioPath, services.transcriber).Ok? &&
             services.diarizer(audioPath).PipelineFailed? &&
             e.message == "Failed to diarize audio: " + services.diarizer(audioPath).message)
  {
    TranscriptionSucceedsIff(audioPath, services.transcriber);
  }

  /** When the chat model gives nothing usable, the pipeline's output names
      every speaker the diarizer assigned. */
  lemma FallbackOutputNamesEverySpeaker(audioPath: string, speakerNames: Option<seq<string>>,
                                        services: Services, i: nat)
    requires TranscriptionResult(audioPath, services.transcriber).Ok?
    requires services.diarizer(audioPath).Tracks?
    requires i < |services.diarizer(audioPath).tracks|
    requires var transcript := TranscriptionResult(audioPath, services.transcriber).value;
             var segments := Relabelled(services.diarizer(audioPath).tracks, speakerNames);
             !services.chat(transcript, segments).Completed? ||
             services.chat(transcript, segments).content.None?
    ensures var segments := Relabelled(services.diarizer(audioPath).tracks, speakerNames);
            PipelineResult(audioPath, speakerNames, services).Ok? &&
            Occurs(segments[i].speaker, PipelineResult(audioPath, speakerNames, services).value)
  {
    FallbackNamesEverySpeaker(Relabelled(services.diarizer(audioPath).tracks, speakerNames), i);
  }

  /** End to end with the names Alice and Bob: the transcriber returns
      "hello world" at once, the diarizer finds SPEAKER_00 then SPEAKER_01,
      and the chat model raises. The output is the fallback transcript: it
      names both Alice and Bob and ends with the fallback note. */
  lemma HelloWorldFallsBack(audioPath: string, names: seq<string>, services: Services)
    requires services.transcriber(audioPath, 0) == Transcribed(Some("hello world"))
    requires services.diarizer(audioPath) ==
             Tracks([Track(0.0, 2.0, "SPEAKER_00"), Track(2.0, 4.0, "SPEAKER_01")])
    requires names == ["Alice", "Bob"]
    requires forall t, s :: services.chat(t, s).ChatRaised?
    ensures var result := PipelineResult(audioPath, Some(names), services);
            result.Ok? && Occurs(names[0], result.value) && Occurs(names[1], result.value) &&
            |result.value| >= |FallbackNote| && result.value[|result.value| - |FallbackNote|..] == FallbackNote
  {
    assert FirstSuccess(audioPath, services.transcriber, 0) == Some(0);
    var tracks := services.diarizer(audioPath).tracks;
    NamesForTwoLabels(tracks, names);
    var segments := Relabelled(tracks, Some(names));
    assert Speakers(segments)[0] == segments[0].speaker && Speakers(segments)[1] == segments[1].speaker;
    FallbackOutputNamesEverySpeaker(audioPath, Some(names), services, 0);
    FallbackOutputNamesEverySpeaker(audioPath, Some(names), services, 1);
    FallbackEndsWithNote(segments);
  }
}
