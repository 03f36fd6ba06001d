/** Value types shared by the transcription pipeline: optional values, the two
    error kinds the pipeline raises, and a result that carries one of them. */
module Outcomes {

  datatype Option<+T> = None | Some(value: T)

  /** The exception classes TranscriptionError and DiarizationError, with the
      message each is raised with. */
  datatype PipelineError =
    | TranscriptionError(message: string)
    | DiarizationError(message: string)

  /** Either the stage's value or the error it raised. */
  datatype Result<+T> = Ok(value: T) | Err(error: PipelineError)
}
