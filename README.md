# yolo-ex, modelled in Dafny

yolo-ex is a thin command-line wrapper around the Ultralytics YOLO export library. It
also ships a checker for the local setup. This project models the parts that make
decisions:

- **Request validation** (`validate_request`). Six rules run in order, and the first one
  broken decides the error.
- **Building the library's keyword arguments** (`build_export_kwargs`).
- **The export entry point** (`export_model`). It validates the request, builds the
  kwargs, and either returns a dry-run plan or wraps whatever the library call does.
- **Platform detection and the engine-export preflight** (`detect_platform`,
  `preflight_for_format`, `_require_module`).
- **The setup check** (`check_current_platform`). It builds per-platform package checks
  (exact version, presence plus import, import only) and an overall `ok`.
- **The setup report** (`_status_label`, `render_platform_report`).
- **The exit codes** of both commands.

The environment becomes inputs:

- whether the model file exists (a `bool`);
- which modules import (a set, or a map from module to the ImportError text);
- the installed distribution versions (a map);
- the platform's system and machine names (strings);
- the JSON encoding of the kwargs (a function);
- what the library call does (returned an object, or raised with a message).

Modules, in dependency order:

- `Text` (text.dfy): the few `str` operations used (ASCII `lower`, `rfind`, `"\n".join`), plus a substring predicate. It also defines `split`, which the source never calls; it is there only to state that the rendered report splits back into its lines.
- `Paths` (paths.dfy): `PurePath.name`, `.suffix` and `.stem` on the printed path.
- `Wrappers` and `Models` (models.dfy): `Option`/`Result`, and the records and errors of `models.py` and `errors.py`.
- `Exporter` (exporter.dfy): `exporter.py`.
- `Platforms` (platforms.dfy): `platforms.py`.
- `PlatformCheck` (platform_check.dfy): `platform_check.py`.
- `Cli` (cli.dfy): the exit-code mapping of `cli.py` and `platform_cli.py`.

Three operations change state step by step, so they are methods:

- `build_export_kwargs` inserts keys into a dict by conditional updates, with no loop.
- `check_current_platform` appends checks and warnings, and its `all(...)` is a loop with an invariant and an early exit.
- `render_platform_report` appends lines in two loops, each with an invariant. Each method is proved
equal to a specification function, and the properties are proved about that function.
Everything else is a function.

Worth knowing about the code:

- `detect_platform` maps macOS to `OTHER`, and only Linux on `aarch64`/`arm64` to `JETSON`.
- The preflight never returns warnings.
- Package versions must match exactly, as strings.
- A CoreML request with a workspace is told about the workspace only when the four rules before that one hold.

## Model

| member | source | states |
|---|---|---|
| Paths.Name | src/yolo_ex/exporter.py:55 | the final path component holds no '/' and is a tail of the path text |
| Paths.NameIsFinalComponent | src/yolo_ex/exporter.py:55 | the name is the longest such tail: all of the text, or the part after a '/' |
| Paths.Suffix | src/yolo_ex/exporter.py:55 | a suffix is empty, or a dot followed by at least one character and no further dot |
| Paths.Stem | src/yolo_ex/exporter.py:78 | the stem (the kwargs `name`) is a prefix of the final component |
| Paths.StemThenSuffixIsName | src/yolo_ex/exporter.py:78 | the stem followed by the suffix is exactly the final component |
| Paths.SuffixHasStem | src/yolo_ex/exporter.py:78 | a file with a suffix has a non-empty stem |
| Paths.PtSuffixCheck | src/yolo_ex/exporter.py:55 | `suffix.lower() == ".pt"` holds exactly when the file name has at least four characters and ends in '.', 'p'/'P', 't'/'T' |
| Exporter.ValidateRequest | src/yolo_ex/exporter.py:51-64 | every rejection is a validation error (exit code 2), never an execution error |
| Exporter.ValidationIsFirstBrokenRule | src/yolo_ex/exporter.py:51-64 | validation passes exactly when all six rules hold; otherwise the first broken rule's message is the error |
| Exporter.MissingModelRejectedFirst | src/yolo_ex/exporter.py:53-54 | a missing model file is rejected with "Model file not found: " and the path, whatever else the request holds |
| Exporter.SuffixRuleIgnoresCase | src/yolo_ex/exporter.py:55-56 | an existing model passes the suffix rule for ".pt" in any case; any other name fails with the extension message |
| Exporter.WorkspaceRulesInOrder | src/yolo_ex/exporter.py:61-64 | CoreML with a workspace that is not positive gets the positivity message; CoreML with a positive one gets the engine-only message |
| Exporter.ExportKwargs | src/yolo_ex/exporter.py:67-91 | imgsz/half/int8/nms always, equal to the request; project and name (the model's stem) exactly when an output dir is given; device/batch/workspace exactly for engine requests that set them |
| Exporter.CoreMLOmitsEngineOnlyKeys | src/yolo_ex/exporter.py:87-89 | a CoreML request never passes device, batch or workspace |
| Exporter.SpellingsAreDistinct | src/yolo_ex/exporter.py:69-89 | two keys have the same spelling exactly when they are the same key, so a map over keys is the keyword dict |
| Exporter.BuildExportKwargs | src/yolo_ex/exporter.py:67-91 | the dict built by successive inserts is exactly the kwargs specification |
| Exporter.NormalizeOutputPath | src/yolo_ex/exporter.py:116-121 | a path is kept, a string becomes a path, anything else gives no path |
| Exporter.Details | src/yolo_ex/exporter.py:26 | the result details hold exactly the keys "dry_run" and "kwargs" with the given texts |
| Exporter.ExportModel | src/yolo_ex/exporter.py:15-48 | validation errors pass through; a valid dry run succeeds with no output path and dry_run "true"; an execution error happens exactly when a valid non-dry run's library call raises, and carries "Ultralytics export failed: " and the message; a returned object gives the normalised output path; every success carries the request's format, model, backend "ultralytics" and the encoded kwargs |
| Exporter.DryRunNeverReachesBackend | src/yolo_ex/exporter.py:20-27 | a dry run's outcome does not depend on what the library call would do |
| Platforms.DetectPlatform | src/yolo_ex/platforms.py:29-35 | Jetson exactly when the system is "linux" and the machine is "aarch64" or "arm64", up to case |
| Platforms.DarwinIsOther | src/yolo_ex/platforms.py:29-35 | a Darwin host is never a Jetson |
| Platforms.MissingModuleMessageNamesModule | src/yolo_ex/platforms.py:49-73 | each missing-module message names its module in backquotes and mentions `--system-site-packages` |
| Platforms.RequireModule | src/yolo_ex/platforms.py:78-82 | passes exactly when the module imports, else a validation error with the given message |
| Platforms.PreflightForFormat | src/yolo_ex/platforms.py:38-75 | every preflight failure is a validation error |
| Platforms.PreflightOrder | src/yolo_ex/platforms.py:38-75 | a non-engine format is refused first, then a non-Jetson host, then the first unimportable module of tensorrt, torch, torchvision, onnxruntime; it passes exactly when none of these applies, with a Jetson target and no warnings |
| Platforms.TensorrtBindingsAreNoSubstitute | src/yolo_ex/platforms.py:49-55 | on a Jetson without the `tensorrt` module the preflight fails with the tensorrt message, whatever else imports |
| PlatformCheck.CheckExactVersion | src/yolo_ex/platform_check.py:150-180 | MISSING with "distribution not installed" when absent, MISMATCH with "version mismatch" when the version differs as a string, OK with no message otherwise; no import name, expected version as given |
| PlatformCheck.CheckPresenceAndImport | src/yolo_ex/platform_check.py:183-215 | OK exactly when installed and importable; MISSING with "distribution not installed" when absent; MISSING with "installed but import failed: " and the error otherwise; no expected version |
| PlatformCheck.AbsentDistributionSkipsImport | src/yolo_ex/platform_check.py:184-194 | with the distribution absent, the result does not depend on the import outcome |
| PlatformCheck.CheckImportOnly | src/yolo_ex/platform_check.py:239-260 | no distribution or versions; MISSING with "import failed: " and the error exactly when the import fails |
| PlatformCheck.PlatformChecks | src/yolo_ex/platform_check.py:76-100 | no checks for an unsupported target; otherwise the ultralytics 8.4.14 check first, four checks on macOS, five on Linux arm64; every check is consistent (never SKIPPED, a message exactly when not OK) |
| PlatformCheck.PlatformWarnings | src/yolo_ex/platform_check.py:61-103 | no warning on macOS; on Linux arm64 exactly the note that the JetPack CUDA/TensorRT runtime is assumed; on any other platform exactly the unsupported-platform warning |
| PlatformCheck.PlatformReport | src/yolo_ex/platform_check.py:57-113 | supported exactly for macOS and Linux arm64; ok exactly when supported and every check is OK; an unsupported report has no checks and the one unsupported warning; a supported one has the target's checks and warnings |
| PlatformCheck.MacOSOkIff | src/yolo_ex/platform_check.py:80-105 | a macOS setup is OK exactly when ultralytics 8.4.14, torch 2.7.0 and torchvision 0.22.0 are installed and coremltools is installed and imports |
| PlatformCheck.LinuxArm64OkIff | src/yolo_ex/platform_check.py:88-105 | a Linux arm64 setup is OK exactly when the pinned ultralytics, Jetson torch, torchvision and TensorRT bindings versions are installed and `tensorrt` imports |
| PlatformCheck.CheckCurrentPlatform | src/yolo_ex/platform_check.py:57-113 | the report built by appends and the `all(...)` loop is the specified report |
| PlatformCheck.StatusLabel | src/yolo_ex/platform_check.py:142-147 | "UNSUPPORTED" exactly when unsupported, whatever `ok` says; otherwise "OK" or "FAILED" by `ok` |
| PlatformCheck.HeaderLinesHaveLayout | src/yolo_ex/platform_check.py:118-121 | two header lines: the first starts with "Platform check: " and the target's value and ends with the details in parentheses; the second is "Status: " and the status label |
| PlatformCheck.CheckLineHasLayout | src/yolo_ex/platform_check.py:124-131 | a check line starts with the bracketed status and the label; the expected version follows the label when there is one; the message closes the line when there is one; the line's length leaves room for each optional part exactly when it is present |
| PlatformCheck.CheckLineInstalledPart | src/yolo_ex/platform_check.py:127-129 | when the installed version is known, " installed=" and the version come right after the tag and the expected-version part; with the layout above this fixes every character of the line |
| PlatformCheck.CheckLines | src/yolo_ex/platform_check.py:123-131 | one line per check, in order |
| PlatformCheck.WarningLines | src/yolo_ex/platform_check.py:133-134 | one "warning: " line per warning, in order |
| PlatformCheck.ReportLines | src/yolo_ex/platform_check.py:116-139 | two header lines, then the check lines, then the warning lines, then the Jetson tip when shown |
| PlatformCheck.RenderPlatformReport | src/yolo_ex/platform_check.py:116-139 | the text built by the two loops is the report lines joined by newlines |
| PlatformCheck.JetsonTipShownIff | src/yolo_ex/platform_check.py:136-137 | the Jetson tip is among the lines exactly when the target is Linux arm64 and the report is not OK |
| PlatformCheck.UnsupportedReportLines | src/yolo_ex/platform_check.py:63-74 | an unsupported platform renders as its header, "Status: UNSUPPORTED" and the one warning line |
| PlatformCheck.RenderedReportSplitsIntoLines | src/yolo_ex/platform_check.py:139 | when no free text holds a newline, splitting the rendered text at newlines gives back exactly the report lines |
| Cli.ErrorExitCode | src/yolo_ex/cli.py:77-82 | a validation error exits with 2, an execution error with 1 |
| Cli.ExportExitCode | src/yolo_ex/cli.py:70-97 | the export command exits with 0, 1 or 2 |
| Cli.ExportExitCodeMeaning | src/yolo_ex/cli.py:70-97 | 2 exactly when the preflight or validation refuses; 1 exactly when both pass and a non-dry run's library call raises; 0 exactly when both pass and the run is dry or the call returns |
| Cli.CoreMLExitsWithTwo | src/yolo_ex/cli.py:71-79 | a CoreML export exits with 2 on every host |
| Cli.PlatformExitCode | src/yolo_ex/platform_cli.py:31-33 | 2, 0 and 1 correspond exactly to the status labels UNSUPPORTED, OK and FAILED |

## Left out

- The export library is not modelled. Constructing the model and calling `export` inside the `try` (src/yolo_ex/exporter.py:34-38) are one input, `BackendCall`: the call either returns an object or raises with a message, and the message is wrapped as an execution error.
- Loading the library (`_load_yolo_class`, src/yolo_ex/exporter.py:32 and 94-97) is assumed to succeed. It runs outside the `try`, so its ImportError would not be wrapped; that case is not modelled.
- `_ensure_tensorrt_module_compat` (src/yolo_ex/exporter.py:98-113) is not modelled. It aliases a module in the process-wide module table, which no modelled value depends on. It runs outside the `try` of `export_model` (src/yolo_ex/exporter.py:29-30), and it catches only ImportError (src/yolo_ex/exporter.py:103 and 108).
- An import is modelled as either succeeding or raising ImportError. The source catches only ImportError in `_require_module` (src/yolo_ex/platforms.py:79-82), `_check_presence_and_import` (src/yolo_ex/platform_check.py:195-197), `_check_import_only` (src/yolo_ex/platform_check.py:240-242) and `_ensure_tensorrt_module_compat`. Any other exception raised while a module loads, such as an OSError from a shared library, goes uncaught out of these functions and `cli.py` (src/yolo_ex/cli.py:77-82); the command ends with a traceback and exit status 1. That outcome is not modelled. So `PreflightForFormat`'s "every failure is a validation error" and `ExportExitCodeMeaning`'s "2 exactly when the preflight refuses" hold for imports with these two outcomes only.
- `json.dumps(..., sort_keys=True)` is the function parameter `dumps`. Only the fact that the details carry its result under "kwargs" is stated.
- Import attempts, distribution metadata lookups, `Path.exists()` and `platform.system()/machine()` are inputs.
- The coremltools warning and logger suppression in `_import_checked_module` (src/yolo_ex/platform_check.py:218-236) has no effect on the result and is left out. Its import outcome is the same input as every other import.
- Argument parsing, printing and logging configuration are left out: `cli.py` and `platform_cli.py` apart from their exit codes, and `logging_utils.py`. The preflight warnings the export command would print are always empty.
- `str.lower()` is modelled on ASCII letters only. Other Unicode case mappings are not modelled.
- A `Path` is the text it prints as. pathlib's normalisation (repeated or trailing separators, `.` components) is not modelled, and `Name` is everything after the last '/'.
- `workspace` is a Python float: finite, an infinity or NaN. A NaN workspace is not `<= 0`, so it passes the positivity rule and reaches the kwargs.
- The setup check takes its target as an input with three values: macOS, Linux arm64, other. `platform_check.py` refers to `PlatformTarget.MACOS` and `PlatformTarget.LINUX_ARM64`, but `platforms.py` defines only `JETSON` and `OTHER`. How a host maps to the three-valued target is therefore not modelled. As written, the code cannot run: on a Jetson host `PlatformTarget.MACOS` (src/yolo_ex/platform_check.py:80) raises AttributeError in `check_current_platform`, and `PlatformTarget.LINUX_ARM64` (src/yolo_ex/platform_check.py:136) raises it in `render_platform_report` for every report. The model describes the three-valued target the code refers to.
- PlatformCheck.CheckTarget.Value: the strings "macos" and "linux_arm64" printed in the report header are assumed, since `platforms.py` does not define those enum members.
- The status SKIPPED exists in the data model, but no check produces it.
