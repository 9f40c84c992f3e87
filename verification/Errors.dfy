/** The exceptions of src/domain/errors.py that the handlers of a stage let through, or that carry
    their own error code; the others end in a yield where they are raised. */
module Errors {

  datatype Error =
    | DatabaseUnavailable(why: string)
    | StorageTransient(why: string)
    | PermanentPipeline(errorCode: string, why: string)
    | Foreign(why: string)            // anything that is not an OCRSystemError

  function CodeOf(e: Error): string {
    match e
    case DatabaseUnavailable(_) => "database_unavailable"
    case StorageTransient(_) => "storage_transient"
    case PermanentPipeline(code, _) => code
    case Foreign(_) => "lifecycle_uncaught"
  }

  /** str(e): domain errors put their code in front. */
  function Describe(e: Error): string {
    if e.Foreign? then e.why else CodeOf(e) + ": " + e.why
  }

  predicate IsPermanent(e: Error) {
    e.PermanentPipeline?
  }
}
