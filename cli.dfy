/** The exit codes of the export command and of the platform check command. */
module Cli {
  import opened Wrappers
  import opened Models
  import opened Exporter
  import opened Platforms
  import PlatformCheck

  /** The export command's error handlers: bad input exits with 2, a failing backend with 1. */
  function ErrorExitCode(error: ExportError): (code: int)
    ensures code == 2 <==> error.ValidationError?
    ensures code == 1 <==> error.ExecutionError?
  {
    match error
    case ValidationError(_) => 2
    case ExecutionError(_) => 1
  }

  /**
   * The export command after argument parsing: the preflight for the requested format,
   * then the export itself; 0 when both pass. The platform names, the importable modules,
   * the filesystem, the JSON encoding and the library call are inputs.
   */
  function ExportExitCode(request: ExportRequest, system: string, machine: string, importable: set<string>,
                          modelExists: bool, dumps: Kwargs -> string, backend: BackendCall): (code: int)
    ensures code == 0 || code == 1 || code == 2
  {
    match PreflightForFormat(request.format, system, machine, importable)
    case Failure(error) => ErrorExitCode(error)
    case Success(_) =>
      match ExportModel(request, modelExists, dumps, backend)
      case Failure(error) => ErrorExitCode(error)
      case Success(_) => 0
  }

  /**
   * What an export exit code means: 1 only when every check passed and the library call
   * raised; 2 when the preflight or the request validation refused; 0 otherwise.
   */
  lemma ExportExitCodeMeaning(request: ExportRequest, system: string, machine: string, importable: set<string>,
                              modelExists: bool, dumps: Kwargs -> string, backend: BackendCall)
    ensures var code := ExportExitCode(request, system, machine, importable, modelExists, dumps, backend);
      var preflight := PreflightForFormat(request.format, system, machine, importable);
      var validation := ValidateRequest(request, modelExists);
      && (code == 2 <==> preflight.Failure? || validation.Failure?)
      && (code == 1 <==> preflight.Success? && validation.Success? && !request.dryRun && backend.Raised?)
      && (code == 0 <==> preflight.Success? && validation.Success? && (request.dryRun || backend.Returned?))
  {
    var preflight := PreflightForFormat(request.format, system, machine, importable);
    var r := ExportModel(request, modelExists, dumps, backend);
    if preflight.Success? && r.Failure? && r.error.ValidationError? {
      assert ValidateRequest(request, modelExists).Failure?;
    }
  }

  /** In this Jetson-only build a CoreML export always ends with exit code 2, on any host. */
  lemma CoreMLExitsWithTwo(request: ExportRequest, system: string, machine: string, importable: set<string>,
                           modelExists: bool, dumps: Kwargs -> string, backend: BackendCall)
    requires request.format == CoreML
    ensures ExportExitCode(request, system, machine, importable, modelExists, dumps, backend) == 2
  {
    PreflightOrder(request.format, system, machine, importable);
  }

  /** The platform check command: 2 for an unsupported platform, else 0 or 1 by the report's `ok`. */
  function PlatformExitCode(report: PlatformCheck.PlatformCheckReport): (code: int)
    ensures code == 2 <==> PlatformCheck.StatusLabel(report) == "UNSUPPORTED"
    ensures code == 0 <==> PlatformCheck.StatusLabel(report) == "OK"
    ensures code == 1 <==> PlatformCheck.StatusLabel(report) == "FAILED"
  {
    if !report.supported then 2
    else if report.ok then 0
    else 1
  }
}
