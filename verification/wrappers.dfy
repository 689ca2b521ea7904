/** Shared result plumbing: an optional value, the error kinds the settings SDK reports, and a
    failure-compatible result type carrying one of those errors. */
module Wrappers {

  datatype Option<+T> = None | Some(value: T)

  /** The errors the SDK can report. Each context message the source attaches with `anyhow`
      becomes its own constructor. */
  datatype Error =
    /** The exchange value could not be read as the expected schema type. */
    | DeserialiseFail
    /** An error returned by a schema's own operation. */
    | SchemaError(message: string)
    /** A command named a setting version that is not registered. */
    | NotFound(version: string)
    /** A migration was asked to start from a version that is not registered. */
    | UnknownStart(version: string)
    /** Neither walk from the start version reaches the target version. */
    | NoRoute(from: string, to: string)
    /** A forward step found no registered forward neighbour. */
    | MissingForward
    /** A backward step found no registered backward neighbour. */
    | MissingBackward
    /** One hop `from -> to` of the migration `start -> target` failed with `cause`. */
    | StepFail(from: string, to: string, start: string, target: string, cause: Error)

  datatype Result<+T> = Success(value: T) | Failure(error: Error) {

    predicate IsFailure() {
      Failure?
    }

    function PropagateFailure<U>(): Result<U>
      requires Failure?
    {
      Failure(error)
    }

    function Extract(): T
      requires Success?
    {
      value
    }
  }
}
