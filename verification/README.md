# RPG session transcription pipeline, modelled in Dafny

This project models the core of a tool that turns the audio recording of a
tabletop role-playing session into a transcript labelled by speaker. It has
three stages and an orchestrator:

- **Speech transcriber** (`transcribe_audio`). It calls a speech-to-text service
  at most three times. A rate-limited attempt waits 2·2^retries seconds, and any
  other failure waits a fixed 2 seconds. After three failures it raises a
  `TranscriptionError` that embeds the last failure's reason.
- **Speaker diarizer** (`diarize_audio`). It runs a diarization model that
  returns timed tracks with raw labels such as `SPEAKER_00`. Each track becomes
  a segment, and each raw label is renamed by its rank among the sorted unique
  labels: the supplied speaker name at that rank, or `Speaker {rank+1}`.
- **Alignment engine** (`align_transcript_with_diarization`). It asks a chat
  model to merge transcript and segments. When the model gives nothing (no
  content, or any exception), it falls back to a deterministic rendering
  (`create_fallback_diarized_transcript`). That rendering has one
  `[MM:SS]` line per segment, the speaker name only where the speaker changes,
  and a fixed closing note.
- **Orchestrator** (`transcribe_and_diarize`). It runs the three stages in
  order, and the first error ends the run.

It also models the command line's input validation (`validate_input_paths`).
That check requires exactly one of an audio and a transcript input, existing
inputs, and existing, writable output directories.

Modules, one file each:

| file | module | contents |
|---|---|---|
| `outcomes.dfy` | `Outcomes` | `Option`, `Result` and the two pipeline error kinds |
| `strings.dfy` | `Strings` | decimal rendering of integers, two-digit zero padding, code-point string order |
| `transcriber.dfy` | `Transcriber` | the retry loop as a method, proved against `TranscriptionResult`, `FailedAttempts` and `Waits` |
| `diarizer.dfy` | `Diarizer` | segment collection, the name mapping and the relabelling loop, proved against `Relabelled` |
| `alignment.dfy` | `Alignment` | the fallback loop, proved against `FallbackTranscript`, and the alignment decision |
| `orchestrator.dfy` | `Orchestrator` | the three-stage pipeline, proved against `PipelineResult`, with a log of the stage calls |
| `input_validation.dfy` | `InputValidation` | `validate_input_paths` as pure functions over an abstract filesystem |

The external services are parameters:

- the speech-to-text service is a function from the audio path and the
  0-based attempt number to an `Attempt`: a text that may be None, a rate-limit
  error, or any other exception with its message;
- the diarization model is a function from the audio path to its tracks, or to
  the message of the exception it raised;
- the chat model is a function from the transcript and the segments to a
  `ChatOutcome`;
- the filesystem is a pair of predicates, existence and writability.

Time stamps are real numbers. Python's `str()` of an integer, its `:02d`
format, its string order and `os.path.dirname` are each defined in the model.

Behaviour of the code that a reader might not expect, and that the model
keeps:

- **Empty transcription text.** Only a None text is rejected
  (transcription.py:91), so an empty string is returned at once
  (`EmptyTextIsSuccess`).
- **Backoff delays.** `retries` is incremented before the wait is computed
  (transcription.py:98-99), so the rate-limit waits are 4, 8 and 16 seconds,
  never 2 (`RateLimitedWaits`).
- **Names beyond the list.** A comment in the names branch of `diarize_audio`
  (transcription.py:149) says that labels beyond the supplied names keep their
  original label. The code gives them `Speaker {i+1}`, and the model does the
  same (`MoreLabelsThanNames`).
- **Segment order.** The code never sorts segments (transcription.py:134-161):
  it keeps the diarization model's track order. The model proves that
  relabelling preserves order, timing and any sortedness the tracks already
  had (`RelabelKeepsTiming`).

## Model

| member | source | states |
|---|---|---|
| Strings.NatToString | transcription.py:150 | the decimal text of a number is a non-empty string of digits with no leading zero |
| Strings.NatToStringRoundTrip | transcription.py:150 | reading the decimal text back as digits gives the number again |
| Strings.NatToStringInjective | transcription.py:158 | two numbers have the same decimal text exactly when they are equal |
| Strings.ZeroPad2 | transcription.py:242 | two-digit padding of a non-negative number gives digits, at least two of them, with a leading zero only to reach width two: "0" and the digit below 10, the plain decimal text from 10 on; a negative number gives a minus sign followed by its digits |
| Strings.ZeroPad2RoundTrip | transcription.py:242 | the padded text reads back as the number, is exactly two characters below 100, and has more than two characters and no leading zero from 100 on |
| Strings.LexLessIrreflexive | transcription.py:141 | no label sorts before itself |
| Strings.LexLessTransitive | transcription.py:141 | the string order used by the sort is transitive |
| Strings.LexLessAsymmetric | transcription.py:141 | two labels never sort before each other |
| Strings.LexLessTotal | transcription.py:141 | any two distinct labels are ordered one way or the other |
| Transcriber.FailureReason | transcription.py:92-106 | the reason a failed attempt records: "Rate limit exceeded" for a rate limit, the exception's message for any other error, and the None-text error's message for a None text |
| Transcriber.BackoffDelay | transcription.py:96-105 | a failed attempt sleeps at least 2 seconds: exactly 2 unless rate-limited, and 4, 8 or 16 seconds for a rate limit after the first, second or third attempt |
| Transcriber.TranscriptionResult | transcription.py:78-109 | transcription fails exactly when all three attempts fail, and then it raises a TranscriptionError |
| Transcriber.Waits | transcription.py:96-106 | the sleeps after n failed attempts are n values, the i-th being the backoff of attempt i once retries has been raised to i+1 |
| Transcriber.FirstSuccess | transcription.py:81-94 | a found index is the first of the three attempts that returns a text; none found means all three attempts fail |
| Transcriber.FailedAttempts | transcription.py:81 | the number of failed attempts never exceeds MAX_RETRIES |
| Transcriber.TranscribeAudio | transcription.py:65-109 | the loop returns the first text or the exhausted-retries error, calls the service between 1 and 3 times (the failures plus one on success), and sleeps exactly the backoff sequence |
| Transcriber.TranscriptionSucceedsIff | transcription.py:81-94 | transcription succeeds exactly when one of the first three attempts returns a text, and then it returns the first such text |
| Transcriber.ExhaustedErrorCarriesLastReason | transcription.py:96-109 | after three failures the error is "Failed to transcribe audio after 3 attempts: " followed by the third attempt's reason |
| Transcriber.EmptyTextIsSuccess | transcription.py:91-94 | an empty text is returned at the first attempt, with no retry |
| Transcriber.NoneTextIsRetried | transcription.py:91-106 | a None text is a failure retried after the fixed 2-second delay, and the next attempt's text is returned |
| Transcriber.RateLimitedWaits | transcription.py:96-100 | three rate-limited attempts wait 4, 8 and 16 seconds |
| Transcriber.AlwaysRateLimited | transcription.py:96-109 | a service that always rate-limits ends in the error "... after 3 attempts: Rate limit exceeded" after waits of 4, 8 and 16 seconds |
| Transcriber.WaitsBounded | transcription.py:96-106 | every wait is 2, 4, 8 or 16 seconds, and the waits before attempt n total at most 2^(n+2) - 4 |
| Transcriber.TotalSleepAtMost28 | transcription.py:81-106 | one transcription never sleeps more than 28 seconds in total |
| Diarizer.DisplayName | transcription.py:145-158 | the label of rank r gets the r-th supplied name while names last, and otherwise "Speaker " followed by digits that read back as r+1 |
| Diarizer.Relabelled | transcription.py:133-163 | the returned segments are as many as the tracks, and every speaker is a supplied name or a "Speaker …" name |
| Diarizer.Diarization | transcription.py:126-166 | diarization fails exactly when the model raises, with a DiarizationError whose message starts "Failed to diarize audio: "; otherwise there is one segment per track |
| Diarizer.SortedUnique | transcription.py:141 | the sorted unique labels contain exactly the labels that occur |
| Diarizer.SortedUniqueIsStrictlySorted | transcription.py:141 | the sorted unique labels are strictly increasing, hence free of repeats |
| Diarizer.StrictlySortedUnique | transcription.py:141 | a strictly increasing list is determined by its elements, so the sorted unique labels are the only such list |
| Diarizer.Rank | transcription.py:145-147 | a label's rank is its position in the sorted unique labels |
| Diarizer.RankCountsSmallerLabels | transcription.py:141-147 | a label's rank is the number of distinct labels that sort before it |
| Diarizer.CollectSegments | transcription.py:134-137 | the loop builds one segment per track, in track order, with the track's start, end and raw label |
| Diarizer.MappingWithNames | transcription.py:141-150 | the names loop maps the label of rank i to the i-th name while names last, and to "Speaker i+1" after that; the map's keys are exactly the unique labels |
| Diarizer.GenericMapping | transcription.py:157-158 | without names, the label of rank i maps to "Speaker i+1"; the map's keys are exactly the unique labels |
| Diarizer.BuildNameMapping | transcription.py:140-158 | both branches map the label of rank k to the k-th name while names last, and to "Speaker k+1" after that or when no names are given; the map covers exactly the unique labels |
| Diarizer.RelabelSegments | transcription.py:133-163 | the segments returned are the tracks in order, each renamed by the name of its label's rank |
| Diarizer.OverwriteSpeakers | transcription.py:153-161 | overwriting each segment's speaker through a mapping that names every label by its rank gives the relabelled segments, in order, with timing unchanged |
| Diarizer.DiarizeAudio | transcription.py:126-166 | a failure of the model becomes a DiarizationError prefixed "Failed to diarize audio: "; otherwise the relabelled segments are returned |
| Diarizer.RelabelKeepsTiming | transcription.py:134-161 | relabelling keeps the number of segments, their order, and every start and end, so segments sorted by start stay sorted |
| Diarizer.SameLabelSameName | transcription.py:153-161 | segments that share a raw label get the same name |
| Diarizer.NamedByRank | transcription.py:145-154 | with names given, a segment gets the name at its label's rank, or "Speaker rank+1" past the end of the names |
| Diarizer.EmptyNamesLikeNoNames | transcription.py:140-161 | an empty name list labels every segment as no names would |
| Diarizer.DistinctLabelsGetDistinctGenericNames | transcription.py:155-161 | without names, distinct raw labels get distinct names |
| Diarizer.AliceBobAlice | tests/test_transcription.py:65-97 | SPEAKER_00, SPEAKER_01, SPEAKER_00 with the names Alice and Bob become Alice, Bob, Alice |
| Diarizer.GenericNamesForTwoLabels | transcription.py:155-161 | without names, SPEAKER_00 and SPEAKER_01 become "Speaker 1" and "Speaker 2" |
| Diarizer.NamesForTwoLabels | transcription.py:140-154 | with the names Alice and Bob, SPEAKER_00 and SPEAKER_01 become Alice and Bob |
| Diarizer.MoreLabelsThanNames | transcription.py:145-150 | three labels with two names: SPEAKER_00 and SPEAKER_01 become Alice and Bob, and SPEAKER_02 becomes "Speaker 3" |
| Alignment.Timestamp | transcription.py:242 | every stamp ends in a colon followed by two digits of seconds, after at least two characters of minutes |
| Alignment.FallbackLine | transcription.py:241-250 | each line starts with a newline and '[', and ends in ':' exactly when the speaker changes at that segment |
| Alignment.FallbackTranscript | transcription.py:232-258 | the fallback is the note alone exactly when there are no segments |
| Alignment.AlignedText | transcription.py:202-216 | content from the chat model is returned when present, and any result other than the fallback is that content verbatim |
| Alignment.FallbackStep | transcription.py:236-250 | one loop step emits the line for the current segment, with the speaker exactly when it differs from the previous one, and carries the speaker forward |
| Alignment.FallbackLinesLoop | transcription.py:232-250 | the loop emits one line per segment, in segment order |
| Alignment.CreateFallbackDiarizedTranscript | transcription.py:219-258 | the fallback is the lines joined, followed by the fixed note; the transcript is not used |
| Alignment.AlignTranscriptWithDiarization | transcription.py:202-216 | the chat model's content is returned when present; no content and any exception both give the fallback |
| Alignment.FallbackEndsWithNote | transcription.py:253-256 | every fallback ends with the fixed note |
| Alignment.FallbackOfNoSegments | transcription.py:232-256 | with no segments the fallback is the note alone |
| Alignment.FailedAlignmentEndsWithNote | transcription.py:202-216 | when the chat model gives no content or raises, the aligned text ends with the fixed note |
| Alignment.FallbackAddsOneLinePerSegment | transcription.py:235-253 | the fallback is the joined lines of all but the last segment, then the last segment's line, then the note |
| Alignment.FallbackIgnoresEnds | transcription.py:235-242 | only the starts and the speakers affect the fallback |
| Alignment.TimestampDenotes | transcription.py:242 | for a non-negative start the stamp is MM:SS: the whole minutes in two or more digits, with no leading zero beyond width two, and the remaining whole seconds in exactly two digits |
| Alignment.FallbackNamesEverySpeaker | transcription.py:245-253 | every segment's speaker occurs in the fallback transcript |
| Alignment.SpeakerChangeAt65Seconds | transcription.py:242-246 | a segment at 65 seconds after a different speaker gives the line "[01:05] X:" |
| Orchestrator.PipelineResult | transcription.py:261-285 | the pipeline succeeds exactly when transcription and diarization both succeed, and an error is the transcription error if there is one, the diarization error otherwise |
| Orchestrator.TranscribeAndDiarize | transcription.py:261-285 | the pipeline returns the stages' first error or the aligned text; it calls transcription, then diarization with the same path and names, then alignment with the transcript and segments unchanged, and stops at the first error |
| Orchestrator.PipelineSucceedsIff | transcription.py:276-285 | the pipeline succeeds exactly when one of the three transcription attempts returns a text and the diarization model returns tracks |
| Orchestrator.PipelineErrorNamesStage | transcription.py:276-280 | a pipeline error is either the exhausted-retries transcription error, after all three attempts failed, or the prefixed diarization error, after transcription succeeded |
| Orchestrator.FallbackOutputNamesEverySpeaker | transcription.py:276-285 | when the chat model gives nothing, the pipeline succeeds and its output names every speaker assigned by the diarizer |
| Orchestrator.HelloWorldFallsBack | transcription.py:261-285 | "hello world" with two labels, the names Alice and Bob and a failing chat model gives output that contains Alice and Bob and ends with the fixed note |
| InputValidation.FirstRejection | summarize_rpg_session.py:36-68 | a rejection always names a check that fails: the exactly-one rule broken, a truthy input path that does not exist, an output directory that does not exist, or one that exists but is not writable |
| InputValidation.Dirname | summarize_rpg_session.py:52 | the directory is a prefix of the path, only slashes separate it from the last path component, and it is empty exactly when the path has no '/' |
| InputValidation.OutputDir | summarize_rpg_session.py:52 | the output directory is never empty: it is "." or a prefix of the path |
| InputValidation.CheckOutputDir | summarize_rpg_session.py:51-68 | an output path passes exactly when it is empty or its directory exists and is writable; a rejection names the output kind and that directory |
| InputValidation.ValidateInputPaths | summarize_rpg_session.py:22-70 | validation passes exactly when one of audio and transcript is given, each truthy input exists, and each truthy output path has an existing, writable directory |
| InputValidation.InputRejections | summarize_rpg_session.py:36-48 | the exactly-one rule is checked first, then the audio file, then the transcript file, and each rejection names the path that failed |
| InputValidation.OutputRejections | summarize_rpg_session.py:50-68 | an output-directory rejection means every input check passed; the summary directory is checked before the transcript directory, existence before writability |
| InputValidation.DirnameIsPrefix | summarize_rpg_session.py:52 | the directory of a path is a prefix of it, and a path without '/' puts its output in "." |
| InputValidation.DirnameHasNoTrailingSlash | summarize_rpg_session.py:52 | a directory that is not made of slashes only does not end in '/' |
| InputValidation.NeitherOrBothRejected | summarize_rpg_session.py:36-38 | giving neither input, or any audio path together with any transcript path, is rejected by the exactly-one rule, whatever the filesystem says |
| InputValidation.EmptyPathsSkipChecks | summarize_rpg_session.py:41-61 | empty paths count as given but skip the existence and directory checks |
| InputValidation.AcceptedWhenEverythingExists | tests/test_cli.py:84-94 | with every path existing and writable, an audio or a transcript input with output "output.md" passes |
| InputValidation.MissingAudioReported | summarize_rpg_session.py:41-43 | a missing audio file "nonexistent.mp3" is rejected as an audio file not found |
| InputValidation.NonwritableDirname | summarize_rpg_session.py:52 | the directory of "/nonwritable/test.md" is "/nonwritable" |
| InputValidation.NonwritableOutputReported | summarize_rpg_session.py:51-58 | an existing read-only directory "/nonwritable" for the summary output is rejected as not writable |

## Left out

- The OpenAI speech-to-text and chat calls, their request parameters and the prompt text. Their outcomes are inputs to the model.
- The Python `repr` of the segment list that is sent to the chat model.
- Opening the audio file. An open failure is one more kind of exception the service input can report.
- Loading the pyannote pipeline (`load_diarization_pipeline`) and the `HF_TOKEN` lookup: library setup. A load failure is one more message of the diarizer input, which is also why the diarization error's inner text is not modelled past its "Failed to diarize audio: " prefix.
- `time.sleep`: the model returns the sequence of waits instead of sleeping.
- Floating point. Start times are exact reals, so float rounding in floor division and remainder is not captured.
- The console messages printed by the validator. The model returns which check failed instead.
- The CLI `main`, the `OPENAI_API_KEY` check, the file reads and writes, and the summary generation. These lie outside the pipeline core.
- The module's `__main__` block, a manual entry point.
- `os.path.exists` and `os.access`: these are predicates supplied by the caller, and their link to a real filesystem is not modelled.
