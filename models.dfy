/** Optional values and results that carry either a value or an error. */
module Wrappers {

  datatype Option<+T> = None | Some(value: T)

  datatype Result<+T, +E> = Success(value: T) | Failure(error: E) {

    predicate IsFailure() {
      Failure?
    }

    function PropagateFailure<U>(): Result<U, E>
      requires Failure?
    {
      Failure(error)
    }

    function Extract(): T
      requires Success?
    {
      value
    }
  }
}

/** The records of an export run and the two kinds of error it can end in. */
module Models {
  import opened Wrappers
  import opened Paths

  /** The export formats the command line accepts. */
  datatype ExportFormat = CoreML | Engine

  /**
   * A Python float as far as the tool uses one: `--workspace` is parsed with `float()`,
   * which also yields infinities and NaN.
   */
  datatype Float = Finite(value: real) | Infinity(negative: bool) | NaN

  /** Python's `x <= 0` for a float `x`; every comparison with NaN is false. */
  predicate AtMostZero(x: Float)
  {
    match x
    case Finite(v) => v <= 0.0
    case Infinity(negative) => negative
    case NaN => false
  }

  /** A normalised export request, built once per command-line invocation. */
  datatype ExportRequest = ExportRequest(
    modelPath: Path,
    format: ExportFormat,
    outputDir: Option<Path>,
    imgsz: int,
    device: Option<string>,
    half: bool,
    int8: bool,
    batch: Option<int>,
    workspace: Option<Float>,
    nms: bool,
    verbose: bool,
    dryRun: bool)

  /** What an export run reports back. */
  datatype ExportResult = ExportResult(
    format: ExportFormat,
    inputModel: Path,
    outputPath: Option<Path>,
    backend: string,
    details: map<string, string>)

  /** Bad input (exit code 2) versus a failing export backend (exit code 1). */
  datatype ExportError = ValidationError(message: string) | ExecutionError(message: string)

  type Outcome<T> = Result<T, ExportError>
}
