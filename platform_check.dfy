/**
 * Setup validation: which packages each supported platform needs, in which exact
 * versions, and the text report of what was found. The installed distributions and the
 * outcome of each import are inputs (an `Environment`).
 */
module PlatformCheck {
  import opened Text
  import opened Wrappers

  const UltralyticsVersion := "8.4.14"
  const MacOSTorchVersion := "2.7.0"
  const MacOSTorchvisionVersion := "0.22.0"
  const JetsonTorchVersion := "2.5.0a0+872d972e41.nv24.08"
  const JetsonTorchvisionVersion := "0.20.0a0+afc54f7"
  const JetsonTensorrtBindingsVersion := "10.7.0.post1"

  /** The platform buckets the setup check distinguishes. */
  datatype CheckTarget = MacOS | LinuxArm64 | Other {
    /** The enum value printed in the report header. */
    function Value(): string
    {
      match this
      case MacOS => "macos"
      case LinuxArm64 => "linux_arm64"
      case Other => "other"
    }
  }

  /** The outcome of one package requirement. */
  datatype Status = Ok | Missing | Mismatch | Skipped {
    /** The enum member name printed in brackets on a check line. */
    function Name(): string
    {
      match this
      case Ok => "OK"
      case Missing => "MISSING"
      case Mismatch => "MISMATCH"
      case Skipped => "SKIPPED"
    }
  }

  /** The result of checking one package requirement. */
  datatype PackageCheck = PackageCheck(
    name: string,  // the label shown on the report line
    distribution: Option<string>,
    importName: Option<string>,
    expectedVersion: Option<string>,
    installedVersion: Option<string>,
    status: Status,
    message: string)

  /**
   * What the checks observe: the version of every installed distribution, and for every
   * module whose import raises ImportError, the text of that error.
   */
  datatype Environment = Environment(versions: map<string, string>, importFailures: map<string, string>)

  /** The complete setup validation result. */
  datatype PlatformCheckReport = PlatformCheckReport(
    target: CheckTarget,
    details: string,
    supported: bool,
    checks: seq<PackageCheck>,
    warnings: seq<string>,
    ok: bool)

  const NotInstalledMessage := "distribution not installed"
  const MismatchMessage := "version mismatch"
  const InstalledImportFailedPrefix := "installed but import failed: "
  const ImportFailedPrefix := "import failed: "

  /**
   * The invariant every constructed check keeps: it is never SKIPPED, it carries a message
   * exactly when it is not OK, and a MISMATCH has two different versions to show.
   */
  predicate ConsistentCheck(c: PackageCheck)
  {
    && c.status != Skipped
    && (c.status == Ok <==> c.message == "")
    && (c.status == Mismatch ==>
          c.expectedVersion.Some? && c.installedVersion.Some? && c.expectedVersion != c.installedVersion)
    && (c.status == Ok && c.expectedVersion.Some? ==> c.installedVersion == c.expectedVersion)
  }

  /** `distribution` is installed in exactly version `version`. */
  predicate InstalledAt(env: Environment, distribution: string, version: string)
  {
    distribution in env.versions && env.versions[distribution] == version
  }

  /**
   * _check_exact_version: MISSING when the distribution is not installed, MISMATCH when its
   * version is not string-equal to the expected one, OK otherwise.
   */
  function CheckExactVersion(name: string, distribution: string, expected: string, env: Environment): (c: PackageCheck)
    ensures ConsistentCheck(c)
    ensures c.name == name && c.distribution == Some(distribution) && c.importName == None
    ensures c.expectedVersion == Some(expected)
    ensures c.installedVersion.None? <==> distribution !in env.versions
    ensures c.installedVersion.Some? ==> c.installedVersion.value == env.versions[distribution]
    ensures c.status == Missing <==> distribution !in env.versions
    ensures c.status == Missing ==> c.message == NotInstalledMessage
    ensures c.status == Mismatch <==> distribution in env.versions && env.versions[distribution] != expected
    ensures c.status == Mismatch ==> c.message == MismatchMessage
    ensures c.status == Ok <==> InstalledAt(env, distribution, expected)
  {
    if distribution !in env.versions then
      PackageCheck(name, Some(distribution), None, Some(expected), None, Missing, NotInstalledMessage)
    else
      var installed := env.versions[distribution];
      if installed != expected then
        PackageCheck(name, Some(distribution), None, Some(expected), Some(installed), Mismatch, MismatchMessage)
      else
        PackageCheck(name, Some(distribution), None, Some(expected), Some(installed), Ok, "")
  }

  /**
   * _check_presence_and_import: MISSING when the distribution is not installed (no import
   * is attempted then), MISSING with the import error when it is installed but does not
   * import, OK otherwise. No version is expected.
   */
  function CheckPresenceAndImport(name: string, distribution: string, importName: string,
                                  env: Environment): (c: PackageCheck)
    ensures ConsistentCheck(c)
    ensures c.name == name && c.distribution == Some(distribution) && c.importName == Some(importName)
    ensures c.expectedVersion == None
    ensures c.installedVersion.None? <==> distribution !in env.versions
    ensures c.installedVersion.Some? ==> c.installedVersion.value == env.versions[distribution]
    ensures c.status == Ok <==> distribution in env.versions && importName !in env.importFailures
    ensures distribution !in env.versions ==> c.status == Missing && c.message == NotInstalledMessage
    ensures distribution in env.versions && importName in env.importFailures ==>
      c.status == Missing && c.message == InstalledImportFailedPrefix + env.importFailures[importName]
  {
    if distribution !in env.versions then
      PackageCheck(name, Some(distribution), Some(importName), None, None, Missing, NotInstalledMessage)
    else
      var installed := env.versions[distribution];
      if importName in env.importFailures then
        PackageCheck(name, Some(distribution), Some(importName), None, Some(installed), Missing,
                     InstalledImportFailedPrefix + env.importFailures[importName])
      else
        PackageCheck(name, Some(distribution), Some(importName), None, Some(installed), Ok, "")
  }

  /**
   * When the distribution is absent the outcome of the import does not matter: the check
   * reads only the installed versions.
   */
  lemma AbsentDistributionSkipsImport(name: string, distribution: string, importName: string,
                                      env1: Environment, env2: Environment)
    requires distribution !in env1.versions && distribution !in env2.versions
    ensures CheckPresenceAndImport(name, distribution, importName, env1) ==
            CheckPresenceAndImport(name, distribution, importName, env2)
  {
  }

  /**
   * _check_import_only: no distribution and no versions; MISSING with the import error
   * exactly when the import fails, OK otherwise.
   */
  function CheckImportOnly(name: string, importName: string, env: Environment): (c: PackageCheck)
    ensures ConsistentCheck(c)
    ensures c.name == name && c.distribution == None && c.importName == Some(importName)
    ensures c.expectedVersion == None && c.installedVersion == None
    ensures c.status == Missing <==> importName in env.importFailures
    ensures c.status == Missing ==> c.message == ImportFailedPrefix + env.importFailures[importName]
  {
    if importName in env.importFailures then
      PackageCheck(name, None, Some(importName), None, None, Missing, ImportFailedPrefix + env.importFailures[importName])
    else
      PackageCheck(name, None, Some(importName), None, None, Ok, "")
  }

  /** The checks a target runs, in report order: ultralytics first, then the target's own. */
  function PlatformChecks(target: CheckTarget, env: Environment): (checks: seq<PackageCheck>)
    ensures target == Other ==> checks == []
    ensures target != Other ==>
      |checks| >= 1 && checks[0] == CheckExactVersion("ultralytics", "ultralytics", UltralyticsVersion, env)
    ensures target == MacOS ==> |checks| == 4
    ensures target == LinuxArm64 ==> |checks| == 5
    ensures forall i :: 0 <= i < |checks| ==> ConsistentCheck(checks[i])
  {
    if target == Other then []
    else
      [CheckExactVersion("ultralytics", "ultralytics", UltralyticsVersion, env)] +
      if target == MacOS then
        [CheckExactVersion("torch", "torch", MacOSTorchVersion, env),
         CheckExactVersion("torchvision", "torchvision", MacOSTorchvisionVersion, env),
         CheckPresenceAndImport("coremltools", "coremltools", "coremltools", env)]
      else
        [CheckExactVersion("torch", "torch", JetsonTorchVersion, env),
         CheckExactVersion("torchvision", "torchvision", JetsonTorchvisionVersion, env),
         CheckExactVersion("TensorRT bindings", "tensorrt-cu12-bindings", JetsonTensorrtBindingsVersion, env),
         CheckImportOnly("TensorRT Python import", "tensorrt", env)]
  }

  const UnsupportedWarning :=
    "Unsupported platform for yolo-ex exports. " +
    "Supported targets are macOS and Linux arm64 " +
    "(Jetson Orin Nano)."
  const JetsonWarning :=
    "Jetson TensorRT checks assume " +
    "JetPack-compatible CUDA/TensorRT runtime is installed."

  /** The warnings a target's report carries. */
  function PlatformWarnings(target: CheckTarget): (warnings: seq<string>)
    ensures target == MacOS <==> warnings == []
    ensures target == LinuxArm64 ==> warnings == [JetsonWarning]
    ensures target == Other ==> warnings == [UnsupportedWarning]
    ensures |warnings| <= 1
  {
    match target
    case MacOS => []
    case LinuxArm64 => [JetsonWarning]
    case Other => [UnsupportedWarning]
  }

  predicate AllOk(checks: seq<PackageCheck>)
  {
    forall i :: 0 <= i < |checks| ==> checks[i].status == Ok
  }

  /**
   * The report check_current_platform returns for a target, the platform's system and
   * machine names and an environment.
   */
  function PlatformReport(target: CheckTarget, system: string, machine: string, env: Environment): (report: PlatformCheckReport)
    ensures report.target == target && report.details == system + " " + machine
    ensures report.supported <==> target != Other
    ensures report.ok <==> report.supported && AllOk(report.checks)
    ensures !report.supported ==> report.checks == [] && report.warnings == [UnsupportedWarning]
    ensures report.supported ==>
      report.checks == PlatformChecks(target, env) && report.warnings == PlatformWarnings(target)
  {
    var checks := PlatformChecks(target, env);
    PlatformCheckReport(target, system + " " + machine, target != Other, checks, PlatformWarnings(target),
                        target != Other && AllOk(checks))
  }

  /**
   * A macOS setup passes exactly when ultralytics, torch and torchvision are installed in
   * their pinned versions and coremltools is installed and imports.
   */
  lemma MacOSOkIff(system: string, machine: string, env: Environment)
    ensures PlatformReport(MacOS, system, machine, env).ok <==>
      && InstalledAt(env, "ultralytics", UltralyticsVersion)
      && InstalledAt(env, "torch", MacOSTorchVersion)
      && InstalledAt(env, "torchvision", MacOSTorchvisionVersion)
      && "coremltools" in env.versions && "coremltools" !in env.importFailures
  {
    var checks := PlatformChecks(MacOS, env);
    if AllOk(checks) {
      assert checks[0].status == Ok && checks[1].status == Ok;
      assert checks[2].status == Ok && checks[3].status == Ok;
    }
  }

  /**
   * A Jetson setup passes exactly when ultralytics, torch, torchvision and the TensorRT
   * bindings are installed in their pinned versions and the tensorrt module imports.
   */
  lemma LinuxArm64OkIff(system: string, machine: string, env: Environment)
    ensures PlatformReport(LinuxArm64, system, machine, env).ok <==>
      && InstalledAt(env, "ultralytics", UltralyticsVersion)
      && InstalledAt(env, "torch", JetsonTorchVersion)
      && InstalledAt(env, "torchvision", JetsonTorchvisionVersion)
      && InstalledAt(env, "tensorrt-cu12-bindings", JetsonTensorrtBindingsVersion)
      && "tensorrt" !in env.importFailures
  {
    var checks := PlatformChecks(LinuxArm64, env);
    if AllOk(checks) {
      assert checks[0].status == Ok && checks[1].status == Ok;
      assert checks[2].status == Ok && checks[3].status == Ok;
      assert checks[4].status == Ok;
    }
  }

  /**
   * check_current_platform, with the detected target, the platform's names and the
   * environment as inputs: an unsupported target gets only a warning; a supported one
   * gets its checks, and is OK exactly when every check is.
   */
  method CheckCurrentPlatform(target: CheckTarget, system: string, machine: string, env: Environment)
    returns (report: PlatformCheckReport)
    ensures report == PlatformReport(target, system, machine, env)
  {
    var details := system + " " + machine;
    var warnings: seq<string> := [];

    if target == Other {
      warnings := warnings + [UnsupportedWarning];
      return PlatformCheckReport(target, details, false, [], warnings, false);
    }

    var checks := [CheckExactVersion("ultralytics", "ultralytics", UltralyticsVersion, env)];
    if target == MacOS {
      checks := checks + [
        CheckExactVersion("torch", "torch", MacOSTorchVersion, env),
        CheckExactVersion("torchvision", "torchvision", MacOSTorchvisionVersion, env),
        CheckPresenceAndImport("coremltools", "coremltools", "coremltools", env)];
    } else if target == LinuxArm64 {
      checks := checks + [
        CheckExactVersion("torch", "torch", JetsonTorchVersion, env),
        CheckExactVersion("torchvision", "torchvision", JetsonTorchvisionVersion, env),
        CheckExactVersion("TensorRT bindings", "tensorrt-cu12-bindings", JetsonTensorrtBindingsVersion, env),
        CheckImportOnly("TensorRT Python import", "tensorrt", env)];
      warnings := warnings + [JetsonWarning];
    }
    assert checks == PlatformChecks(target, env);

    // all(...): stop at the first check that is not OK.
    var ok := true;
    var i := 0;
    while i < |checks|
      invariant 0 <= i <= |checks|
      invariant forall j :: 0 <= j < i ==> checks[j].status == Ok
    {
      if checks[i].status != Ok {
        ok := false;
        break;
      }
      i := i + 1;
    }

    report := PlatformCheckReport(target, details, true, checks, warnings, ok);
  }

  /** _status_label: UNSUPPORTED whenever the platform is unsupported, else OK or FAILED by `ok`. */
  function StatusLabel(report: PlatformCheckReport): (text: string)
    ensures text == "UNSUPPORTED" <==> !report.supported
    ensures text == "OK" <==> report.supported && report.ok
    ensures text == "FAILED" <==> report.supported && !report.ok
  {
    if !report.supported then "UNSUPPORTED"
    else if report.ok then "OK"
    else "FAILED"
  }

  const JetsonTip := "Jetson tip: run " + "`uv sync --index https://" + "pypi.nvidia.com/simple`."

  /** ` <name><value>` when the value is present, nothing otherwise. */
  function Field(name: string, value: Option<string>): string
  {
    match value
    case None => ""
    case Some(v) => name + v
  }

  /** The status in brackets and the label, with which every check line starts. */
  function CheckTag(check: PackageCheck): string
  {
    "[" + check.status.Name() + "] " + check.name
  }

  /**
   * The layout of a check line: it starts with the check's tag, the expected version comes
   * right after the tag when there is one, the message closes the line when there is one,
   * and the length leaves room for each optional part exactly when that part is present.
   */
  ghost predicate CheckLineLayout(check: PackageCheck, line: string)
  {
    && CheckTag(check) <= line
    && (check.expectedVersion.Some? ==> CheckTag(check) + " expected=" + check.expectedVersion.value <= line)
    && |line| ==
         |CheckTag(check)|
         + (if check.expectedVersion.Some? then |" expected="| + |check.expectedVersion.value| else 0)
         + (if check.installedVersion.Some? then |" installed="| + |check.installedVersion.value| else 0)
         + (if check.message == "" then 0 else |" - "| + |check.message|)
    && (check.message != "" ==> line[|line| - |" - " + check.message|..] == " - " + check.message)
  }

  /** The report line of one check. */
  function CheckLine(check: PackageCheck): string
  {
    CheckTag(check) +
    Field(" expected=", check.expectedVersion) +
    Field(" installed=", check.installedVersion) +
    (if check.message == "" then "" else " - " + check.message)
  }

  function WarningLine(warning: string): string
  {
    "warning: " + warning
  }

  /**
   * The header layout: the first line names the platform and ends with its details in
   * parentheses, the second gives the status label.
   */
  ghost predicate HeaderLayout(report: PlatformCheckReport, header: seq<string>)
  {
    && |header| == 2
    && "Platform check: " + report.target.Value() + " (" <= header[0]
    && |header[0]| == |"Platform check: " + report.target.Value() + " ("| + |report.details| + 1
    && header[0][|header[0]| - |report.details| - 1..] == report.details + ")"
    && header[1] == "Status: " + StatusLabel(report)
  }

  /** The two header lines of the report. */
  function HeaderLines(report: PlatformCheckReport): seq<string>
  {
    ["Platform check: " + report.target.Value() + " (" + report.details + ")",
     "Status: " + StatusLabel(report)]
  }

  /** Every check line has the check-line layout. */
  lemma CheckLineHasLayout(check: PackageCheck)
    ensures CheckLineLayout(check, CheckLine(check))
  {
    var tag := CheckTag(check);
    var expected := Field(" expected=", check.expectedVersion);
    var installed := Field(" installed=", check.installedVersion);
    var closing := if check.message == "" then "" else " - " + check.message;
    assert CheckLine(check) == tag + expected + installed + closing;
    assert |CheckLine(check)| == |tag| + |expected| + |installed| + |closing|;
  }

  /**
   * When the installed version is known, " installed=" and the version follow the tag and
   * the expected-version part.
   */
  lemma CheckLineInstalledPart(check: PackageCheck)
    requires check.installedVersion.Some?
    ensures CheckTag(check) + Field(" expected=", check.expectedVersion) + " installed=" +
            check.installedVersion.value <= CheckLine(check)
  {
    var head := CheckTag(check) + Field(" expected=", check.expectedVersion) + " installed=" +
                check.installedVersion.value;
    assert CheckLine(check) == head + (if check.message == "" then "" else " - " + check.message);
  }

  /** The header lines have the header layout. */
  lemma HeaderLinesHaveLayout(report: PlatformCheckReport)
    ensures HeaderLayout(report, HeaderLines(report))
  {
  }

  function CheckLines(checks: seq<PackageCheck>): (lines: seq<string>)
    ensures |lines| == |checks|
    ensures forall i :: 0 <= i < |checks| ==> lines[i] == CheckLine(checks[i])
  {
    seq(|checks|, i requires 0 <= i < |checks| => CheckLine(checks[i]))
  }

  function WarningLines(warnings: seq<string>): (lines: seq<string>)
    ensures |lines| == |warnings|
    ensures forall i :: 0 <= i < |warnings| ==> lines[i] == WarningLine(warnings[i])
  {
    seq(|warnings|, i requires 0 <= i < |warnings| => WarningLine(warnings[i]))
  }

  /** The Jetson tip is shown for a Linux arm64 report that is not OK. */
  predicate ShowsJetsonTip(report: PlatformCheckReport)
  {
    report.target == LinuxArm64 && !report.ok
  }

  /**
   * The lines of the rendered report: two header lines, one line per check in order, one
   * line per warning in order, and the Jetson tip last when it is shown.
   */
  function ReportLines(report: PlatformCheckReport): (lines: seq<string>)
    ensures |lines| == 2 + |report.checks| + |report.warnings| + (if ShowsJetsonTip(report) then 1 else 0)
    ensures lines[..2] == HeaderLines(report)
    ensures forall i :: 0 <= i < |report.checks| ==> lines[2 + i] == CheckLine(report.checks[i])
    ensures forall j :: 0 <= j < |report.warnings| ==>
      lines[2 + |report.checks| + j] == WarningLine(report.warnings[j])
    ensures ShowsJetsonTip(report) ==> lines[|lines| - 1] == JetsonTip
  {
    HeaderLines(report) + CheckLines(report.checks) + WarningLines(report.warnings) +
    (if ShowsJetsonTip(report) then [JetsonTip] else [])
  }

  lemma CheckLinesGrow(checks: seq<PackageCheck>, i: nat)
    requires i < |checks|
    ensures CheckLines(checks[..i + 1]) == CheckLines(checks[..i]) + [CheckLine(checks[i])]
  {
  }

  lemma WarningLinesGrow(warnings: seq<string>, j: nat)
    requires j < |warnings|
    ensures WarningLines(warnings[..j + 1]) == WarningLines(warnings[..j]) + [WarningLine(warnings[j])]
  {
  }

  /** render_platform_report: the report lines joined by newlines. */
  method RenderPlatformReport(report: PlatformCheckReport) returns (text: string)
    ensures text == Join(ReportLines(report), '\n')
  {
    var lines := [
      "Platform check: " + report.target.Value() + " (" + report.details + ")",
      "Status: " + StatusLabel(report)];

    for i := 0 to |report.checks|
      invariant lines == HeaderLines(report) + CheckLines(report.checks[..i])
    {
      var check := report.checks[i];
      var expected := if check.expectedVersion.Some? then " expected=" + check.expectedVersion.value else "";
      var installed := if check.installedVersion.Some? then " installed=" + check.installedVersion.value else "";
      var suffix := if check.message != "" then " - " + check.message else "";
      var tag := "[" + check.status.Name() + "] " + check.name;
      assert tag == CheckTag(check);
      assert expected == Field(" expected=", check.expectedVersion);
      assert installed == Field(" installed=", check.installedVersion);
      var line := tag + expected + installed + suffix;
      assert line == CheckLine(check);
      lines := lines + [line];
      CheckLinesGrow(report.checks, i);
    }
    assert report.checks[..|report.checks|] == report.checks;

    for j := 0 to |report.warnings|
      invariant lines == HeaderLines(report) + CheckLines(report.checks) + WarningLines(report.warnings[..j])
    {
      var line := "warning: " + report.warnings[j];
      assert line == WarningLine(report.warnings[j]);
      lines := lines + [line];
      WarningLinesGrow(report.warnings, j);
    }
    assert report.warnings[..|report.warnings|] == report.warnings;

    if report.target == LinuxArm64 && !report.ok {
      lines := lines + [JetsonTip];
    }

    assert lines == ReportLines(report);
    text := Join(lines, '\n');
  }

  /** The first character of every report line other than the Jetson tip is not 'J'. */
  lemma {:induction false} OnlyTheTipStartsWithJ(report: PlatformCheckReport, k: nat)
    requires k < |ReportLines(report)|
    requires !ShowsJetsonTip(report) || k < |ReportLines(report)| - 1
    ensures |ReportLines(report)[k]| > 0 && ReportLines(report)[k][0] != 'J'
  {
    var lines := ReportLines(report);
    var n := |report.checks|;
    if k == 0 {
      assert lines[0] == HeaderLines(report)[0];
    } else if k == 1 {
      assert lines[1] == HeaderLines(report)[1];
    } else if k < 2 + n {
      var c := report.checks[k - 2];
      assert lines[k] == CheckLine(c);
      assert CheckLine(c)[0] == '[';
    } else {
      assert lines[k] == WarningLine(report.warnings[k - 2 - n]);
    }
  }

  /** The Jetson tip appears among the report lines exactly when it is shown. */
  lemma JetsonTipShownIff(report: PlatformCheckReport)
    ensures JetsonTip in ReportLines(report) <==> ShowsJetsonTip(report)
  {
    var lines := ReportLines(report);
    if ShowsJetsonTip(report) {
      assert lines[|lines| - 1] == JetsonTip;
    } else if JetsonTip in lines {
      var k :| 0 <= k < |lines| && lines[k] == JetsonTip;
      OnlyTheTipStartsWithJ(report, k);
    }
  }

  /** The report of an unsupported platform: its header, the UNSUPPORTED status and one warning. */
  lemma UnsupportedReportLines(system: string, machine: string, env: Environment)
    ensures ReportLines(PlatformReport(Other, system, machine, env)) ==
      ["Platform check: " + "other" + " (" + (system + " " + machine) + ")",
       "Status: " + "UNSUPPORTED",
       WarningLine(UnsupportedWarning)]
  {
    var report := PlatformReport(Other, system, machine, env);
    assert !ShowsJetsonTip(report);
    assert CheckLines(report.checks) == [];
    assert WarningLines(report.warnings) == [WarningLine(UnsupportedWarning)];
    assert ReportLines(report) == HeaderLines(report) + [WarningLine(UnsupportedWarning)];
  }

  predicate NoNewline(s: string)
  {
    '\n' !in s
  }

  /** No free text in the report (platform names, labels, versions, messages, warnings) holds a newline. */
  predicate SingleLineFields(report: PlatformCheckReport)
  {
    && NoNewline(report.details)
    && (forall i :: 0 <= i < |report.checks| ==> SingleLineCheck(report.checks[i]))
    && (forall j :: 0 <= j < |report.warnings| ==> NoNewline(report.warnings[j]))
  }

  predicate SingleLineCheck(c: PackageCheck)
  {
    && NoNewline(c.name) && NoNewline(c.message)
    && (c.expectedVersion.Some? ==> NoNewline(c.expectedVersion.value))
    && (c.installedVersion.Some? ==> NoNewline(c.installedVersion.value))
  }

  lemma CheckLineIsSingleLine(c: PackageCheck)
    requires SingleLineCheck(c)
    ensures NoNewline(CheckLine(c))
  {
    assert NoNewline(c.status.Name());
    assert NoNewline(Field(" expected=", c.expectedVersion));
    assert NoNewline(Field(" installed=", c.installedVersion));
    assert NoNewline(if c.message == "" then "" else " - " + c.message);
  }

  predicate AllSingleLines(lines: seq<string>)
  {
    forall i :: 0 <= i < |lines| ==> NoNewline(lines[i])
  }

  lemma SingleLinesConcat(a: seq<string>, b: seq<string>)
    requires AllSingleLines(a) && AllSingleLines(b)
    ensures AllSingleLines(a + b)
  {
    forall i | 0 <= i < |a + b| ensures NoNewline((a + b)[i]) {
      if i < |a| {
        assert (a + b)[i] == a[i];
      } else {
        assert (a + b)[i] == b[i - |a|];
      }
    }
  }

  lemma HeaderLinesAreSingleLines(report: PlatformCheckReport)
    requires NoNewline(report.details)
    ensures AllSingleLines(HeaderLines(report))
  {
    assert NoNewline(report.target.Value());
    assert NoNewline(StatusLabel(report));
  }

  lemma CheckLinesAreSingleLines(checks: seq<PackageCheck>)
    requires forall i :: 0 <= i < |checks| ==> SingleLineCheck(checks[i])
    ensures AllSingleLines(CheckLines(checks))
  {
    forall i | 0 <= i < |checks| ensures NoNewline(CheckLines(checks)[i]) {
      CheckLineIsSingleLine(checks[i]);
    }
  }

  lemma WarningLinesAreSingleLines(warnings: seq<string>)
    requires forall j :: 0 <= j < |warnings| ==> NoNewline(warnings[j])
    ensures AllSingleLines(WarningLines(warnings))
  {
  }

  lemma TipIsSingleLine()
    ensures NoNewline(JetsonTip)
  {
  }

  /**
   * Splitting the rendered text at newlines gives back the report lines, one per header,
   * check, warning and tip, as long as none of the free text holds a newline.
   */
  lemma RenderedReportSplitsIntoLines(report: PlatformCheckReport)
    requires SingleLineFields(report)
    ensures Split(Join(ReportLines(report), '\n'), '\n') == ReportLines(report)
  {
    var tip := if ShowsJetsonTip(report) then [JetsonTip] else [];
    HeaderLinesAreSingleLines(report);
    CheckLinesAreSingleLines(report.checks);
    WarningLinesAreSingleLines(report.warnings);
    TipIsSingleLine();
    SingleLinesConcat(HeaderLines(report), CheckLines(report.checks));
    SingleLinesConcat(HeaderLines(report) + CheckLines(report.checks), WarningLines(report.warnings));
    SingleLinesConcat(HeaderLines(report) + CheckLines(report.checks) + WarningLines(report.warnings), tip);
    SplitJoin(ReportLines(report), '\n');
  }
}
