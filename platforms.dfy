/**
 * Platform detection and the format-specific preflight of an export. The operating-system
 * and machine names and the set of importable modules are inputs.
 */
module Platforms {
  import opened Text
  import opened Wrappers
  import opened Models

  /** The platform buckets an export distinguishes. */
  datatype PlatformTarget = Jetson | Other

  /** A passed preflight: the platform and the warnings to print. */
  datatype PreflightResult = PreflightResult(target: PlatformTarget, warnings: seq<string>)

  /**
   * detect_platform: a Jetson is a Linux system on a 64-bit ARM machine, whatever the case
   * of the names the platform reports; everything else is another platform.
   */
  function DetectPlatform(system: string, machine: string): (target: PlatformTarget)
    ensures target == Jetson <==>
      CaseVariantOf(system, "linux") && (CaseVariantOf(machine, "aarch64") || CaseVariantOf(machine, "arm64"))
  {
    LowerEqualsIffCaseVariant(system, "linux");
    LowerEqualsIffCaseVariant(machine, "aarch64");
    LowerEqualsIffCaseVariant(machine, "arm64");
    var system := Lower(system);
    var machine := Lower(machine);
    if system == "linux" && machine in {"aarch64", "arm64"} then Jetson else Other
  }

  /** A macOS host is never a Jetson, whatever its machine. */
  lemma DarwinIsOther(machine: string)
    ensures DetectPlatform("Darwin", machine) == Other
  {
  }

  const EngineOnlyMessage := "Only --format engine is supported in this Jetson-only build."
  const JetsonOnlyMessage :=
    "TensorRT export is supported only on Jetson (Linux arm64). " +
    "Run this command on a Jetson device with JetPack/TensorRT installed."

  /** The modules an engine export needs, in the order they are checked. */
  const RequiredModules: seq<string> := ["tensorrt", "torch", "torchvision", "onnxruntime"]

  const SitePackagesFlag := "--system-site-packages"
  const VenvHint :=
    " If JetPack provides system Python packages, create the project venv with " +
    "`uv venv --python /usr/bin/python3 " + SitePackagesFlag + "` before `uv sync`."

  /** A module name in backquotes, as the messages quote it. */
  function Quoted(name: string): string
  {
    "`" + name + "`"
  }

  /** The text before the quoted module name in the message for required module `k`. */
  function MessageHead(k: nat): string
  {
    if k == 0 then "TensorRT export requires the Jetson TensorRT Python package ("
    else "TensorRT export on Jetson requires "
  }

  /** The text after the quoted module name in the message for required module `k`. */
  function MessageTail(k: nat): string
  {
    (if k == 0 then ") and a compatible JetPack/TensorRT runtime." else ".") + VenvHint
  }

  /** The message an engine export fails with when required module `k` cannot be imported. */
  function MissingModuleMessage(k: nat): string
    requires k < |RequiredModules|
  {
    MessageHead(k) + Quoted(RequiredModules[k]) + MessageTail(k)
  }

  /**
   * The message for a missing module names that module in backquotes and tells how to
   * reach the system packages.
   */
  lemma MissingModuleMessageNamesModule(k: nat)
    requires k < |RequiredModules|
    ensures Contains(MissingModuleMessage(k), Quoted(RequiredModules[k]))
    ensures Contains(MissingModuleMessage(k), SitePackagesFlag)
  {
    ContainsMiddle(MessageHead(k), Quoted(RequiredModules[k]), MessageTail(k));
    ContainsMiddle(" If JetPack provides system Python packages, create the project venv with " +
                   "`uv venv --python /usr/bin/python3 ", SitePackagesFlag, "` before `uv sync`.");
    ContainsPrefixed(if k == 0 then ") and a compatible JetPack/TensorRT runtime." else ".", VenvHint, SitePackagesFlag);
    ContainsPrefixed(MessageHead(k) + Quoted(RequiredModules[k]), MessageTail(k), SitePackagesFlag);
  }

  /** _require_module: passes when the module imports, and fails with `message` otherwise. */
  function RequireModule(moduleName: string, message: string, importable: set<string>): (r: Outcome<()>)
    ensures r.Success? <==> moduleName in importable
    ensures r.Failure? ==> r.error == ValidationError(message)
  {
    if moduleName in importable then Success(()) else Failure(ValidationError(message))
  }

  /**
   * preflight_for_format: the format is checked first, then the platform, then the four
   * required modules in order; on success the target is a Jetson with no warnings.
   */
  function PreflightForFormat(format: ExportFormat, system: string, machine: string,
                              importable: set<string>): (r: Outcome<PreflightResult>)
    ensures r.Failure? ==> r.error.ValidationError?
  {
    var target := DetectPlatform(system, machine);
    if format != Engine then
      Failure(ValidationError(EngineOnlyMessage))
    else if target != Jetson then
      Failure(ValidationError(JetsonOnlyMessage))
    else
      var _ :- RequireModule(RequiredModules[0], MissingModuleMessage(0), importable);
      var _ :- RequireModule(RequiredModules[1], MissingModuleMessage(1), importable);
      var _ :- RequireModule(RequiredModules[2], MissingModuleMessage(2), importable);
      var _ :- RequireModule(RequiredModules[3], MissingModuleMessage(3), importable);
      Success(PreflightResult(target, []))
  }

  /**
   * The order of the preflight checks: any format but engine is refused whatever the
   * platform; an engine export off a Jetson is refused next; on a Jetson the first
   * required module that cannot be imported decides the error; and the preflight passes,
   * with a Jetson target and no warnings, exactly when all four modules import.
   */
  lemma PreflightOrder(format: ExportFormat, system: string, machine: string, importable: set<string>)
    ensures format != Engine ==>
      PreflightForFormat(format, system, machine, importable) == Failure(ValidationError(EngineOnlyMessage))
    ensures format == Engine && DetectPlatform(system, machine) == Other ==>
      PreflightForFormat(format, system, machine, importable) == Failure(ValidationError(JetsonOnlyMessage))
    ensures forall k :: (0 <= k < |RequiredModules| && format == Engine &&
                         DetectPlatform(system, machine) == Jetson &&
                         RequiredModules[k] !in importable &&
                         forall j :: 0 <= j < k ==> RequiredModules[j] in importable) ==>
      PreflightForFormat(format, system, machine, importable) ==
        Failure(ValidationError(MissingModuleMessage(k)))
    ensures PreflightForFormat(format, system, machine, importable).Success? <==>
      format == Engine && DetectPlatform(system, machine) == Jetson &&
      forall k :: 0 <= k < |RequiredModules| ==> RequiredModules[k] in importable
    ensures PreflightForFormat(format, system, machine, importable).Success? ==>
      PreflightForFormat(format, system, machine, importable).value == PreflightResult(Jetson, [])
  {
    var r := PreflightForFormat(format, system, machine, importable);
    forall k | 0 <= k < |RequiredModules| && format == Engine &&
               DetectPlatform(system, machine) == Jetson &&
               RequiredModules[k] !in importable &&
               forall j :: 0 <= j < k ==> RequiredModules[j] in importable
      ensures r == Failure(ValidationError(MissingModuleMessage(k)))
    {
      if k > 0 { assert RequiredModules[0] in importable; }
      if k > 1 { assert RequiredModules[1] in importable; }
      if k > 2 { assert RequiredModules[2] in importable; }
    }
    if r.Success? {
      assert RequiredModules[0] in importable && RequiredModules[1] in importable;
      assert RequiredModules[2] in importable && RequiredModules[3] in importable;
      forall k | 0 <= k < |RequiredModules| ensures RequiredModules[k] in importable {
        assert k == 0 || k == 1 || k == 2 || k == 3;
      }
    }
  }

  /**
   * Only the module named "tensorrt" meets the first requirement: an engine export on a
   * Jetson without it fails with the tensorrt message, even when another module such as
   * "tensorrt_bindings" imports.
   */
  lemma TensorrtBindingsAreNoSubstitute(system: string, machine: string, importable: set<string>)
    requires DetectPlatform(system, machine) == Jetson
    requires "tensorrt" !in importable
    ensures PreflightForFormat(Engine, system, machine, importable) ==
      Failure(ValidationError(MissingModuleMessage(0)))
    ensures Contains(PreflightForFormat(Engine, system, machine, importable).error.message, Quoted("tensorrt"))
  {
    MissingModuleMessageNamesModule(0);
  }
}
