/**
 * Export-request validation, the mapping of a request to the export library's keyword
 * arguments, and the export entry point with the library call abstracted to its outcome.
 */
module Exporter {
  import opened Text
  import opened Wrappers
  import opened Paths
  import opened Models

  const NotFoundPrefix := "Model file not found: "
  const ExtensionMessage := "Input model must use the .pt extension."
  const ImgszMessage := "--imgsz must be greater than zero."
  const BatchMessage := "--batch must be greater than zero."
  const WorkspaceMessage := "--workspace must be greater than zero."
  const WorkspaceFormatMessage := "--workspace is only valid with --format engine."

  const Backend := "ultralytics"
  const BackendFailurePrefix := "Ultralytics export failed: "

  /** The number of rules validation applies. */
  const RuleCount := 6

  /** Rule `k` of request validation, in the order they are applied. */
  predicate Rule(k: nat, request: ExportRequest, modelExists: bool)
  {
    match k
    case 0 => modelExists
    case 1 => Lower(Suffix(request.modelPath)) == ".pt"
    case 2 => request.imgsz > 0
    case 3 => request.batch.None? || request.batch.value > 0
    case 4 => request.workspace.None? || !AtMostZero(request.workspace.value)
    case _ => !(request.format == CoreML && request.workspace.Some?)
  }

  /** The message a request gets when rule `k` is the first one it breaks. */
  function RuleMessage(k: nat, request: ExportRequest): string
  {
    match k
    case 0 => NotFoundPrefix + request.modelPath.text
    case 1 => ExtensionMessage
    case 2 => ImgszMessage
    case 3 => BatchMessage
    case 4 => WorkspaceMessage
    case _ => WorkspaceFormatMessage
  }

  /** validate_request: the rules in order, the first one broken decides the message. */
  function ValidateRequest(request: ExportRequest, modelExists: bool): (r: Outcome<()>)
    ensures r.Failure? ==> r.error.ValidationError?
  {
    if !modelExists then
      Failure(ValidationError(NotFoundPrefix + request.modelPath.text))
    else if Lower(Suffix(request.modelPath)) != ".pt" then
      Failure(ValidationError(ExtensionMessage))
    else if request.imgsz <= 0 then
      Failure(ValidationError(ImgszMessage))
    else if request.batch.Some? && request.batch.value <= 0 then
      Failure(ValidationError(BatchMessage))
    else if request.workspace.Some? && AtMostZero(request.workspace.value) then
      Failure(ValidationError(WorkspaceMessage))
    else if request.format == CoreML && request.workspace.Some? then
      Failure(ValidationError(WorkspaceFormatMessage))
    else
      Success(())
  }

  /**
   * A request passes validation exactly when it keeps all six rules, and otherwise it fails
   * with the message of the first rule it breaks; no later rule is consulted.
   */
  lemma ValidationIsFirstBrokenRule(request: ExportRequest, modelExists: bool)
    ensures ValidateRequest(request, modelExists).Success? <==>
      forall k :: 0 <= k < RuleCount ==> Rule(k, request, modelExists)
    ensures forall k :: (0 <= k < RuleCount && !Rule(k, request, modelExists) &&
                         forall j :: 0 <= j < k ==> Rule(j, request, modelExists)) ==>
        ValidateRequest(request, modelExists) == Failure(ValidationError(RuleMessage(k, request)))
  {
    var r := ValidateRequest(request, modelExists);
    if r.Success? {
      forall k | 0 <= k < RuleCount ensures Rule(k, request, modelExists) {
        match k
        case 0 => case 1 => case 2 => case 3 => case 4 => case _ =>
      }
    } else {
      assert !(Rule(0, request, modelExists) && Rule(1, request, modelExists) && Rule(2, request, modelExists) &&
               Rule(3, request, modelExists) && Rule(4, request, modelExists) && Rule(5, request, modelExists));
    }
    forall k | 0 <= k < RuleCount && !Rule(k, request, modelExists) &&
      (forall j :: 0 <= j < k ==> Rule(j, request, modelExists))
      ensures r == Failure(ValidationError(RuleMessage(k, request)))
    {
      if k > 0 { assert Rule(0, request, modelExists); }
      if k > 1 { assert Rule(1, request, modelExists); }
      if k > 2 { assert Rule(2, request, modelExists); }
      if k > 3 { assert Rule(3, request, modelExists); }
      if k > 4 { assert Rule(4, request, modelExists); }
    }
  }

  /** A missing model file is reported before any other rule is looked at. */
  lemma MissingModelRejectedFirst(request: ExportRequest)
    ensures ValidateRequest(request, false) ==
      Failure(ValidationError(NotFoundPrefix + request.modelPath.text))
  {
    ValidationIsFirstBrokenRule(request, false);
    assert !Rule(0, request, false);
  }

  /**
   * The suffix rule ignores case: an existing model whose file name ends in ".pt" in any
   * mix of case passes it, and any other file name fails with the extension message.
   */
  lemma SuffixRuleIgnoresCase(request: ExportRequest)
    ensures (var n := Name(request.modelPath);
             var pt := |n| >= 4 && n[|n| - 3] == '.' && LowerChar(n[|n| - 2]) == 'p' &&
                       LowerChar(n[|n| - 1]) == 't';
             (pt ==> Rule(1, request, true)) &&
             (!pt ==> ValidateRequest(request, true) == Failure(ValidationError(ExtensionMessage))))
  {
    PtSuffixCheck(request.modelPath);
    ValidationIsFirstBrokenRule(request, true);
    assert Rule(0, request, true);
  }

  /**
   * The order of the rules decides the message: a CoreML request with a workspace that is
   * not positive is told the workspace must be positive, one with a positive workspace is
   * told the flag belongs to the engine format.
   */
  lemma WorkspaceRulesInOrder(request: ExportRequest)
    requires request.format == CoreML && request.workspace.Some?
    requires forall k :: 0 <= k < 4 ==> Rule(k, request, true)
    ensures AtMostZero(request.workspace.value) ==>
      ValidateRequest(request, true) == Failure(ValidationError(WorkspaceMessage))
    ensures !AtMostZero(request.workspace.value) ==>
      ValidateRequest(request, true) == Failure(ValidationError(WorkspaceFormatMessage))
  {
    ValidationIsFirstBrokenRule(request, true);
    assert Rule(0, request, true) && Rule(1, request, true);
    assert Rule(2, request, true) && Rule(3, request, true);
    if AtMostZero(request.workspace.value) {
      assert !Rule(4, request, true);
    } else {
      assert Rule(4, request, true) && !Rule(5, request, true);
    }
  }

  /** A value passed to the export library as a keyword argument. */
  datatype KwValue = IntValue(i: int) | BoolValue(b: bool) | StrValue(s: string) | FloatValue(f: Float)

  /** The keyword-argument names the tool ever passes to the export library. */
  datatype Key = Imgsz | Half | Int8 | Nms | Project | ModelName | Device | Batch | Workspace {
    /** The keyword as the library spells it. */
    function Spelling(): string
    {
      match this
      case Imgsz => "imgsz"
      case Half => "half"
      case Int8 => "int8"
      case Nms => "nms"
      case Project => "project"
      case ModelName => "name"
      case Device => "device"
      case Batch => "batch"
      case Workspace => "workspace"
    }
  }

  /** Distinct keys are spelled differently, so a map over `Key` stands for the keyword dict. */
  lemma SpellingsAreDistinct(a: Key, b: Key)
    ensures a.Spelling() == b.Spelling() <==> a == b
  {
  }

  type Kwargs = map<Key, KwValue>

  /** The keyword arguments that only the engine format receives. */
  const EngineOnlyKeys: set<Key> := {Device, Batch, Workspace}

  /**
   * The keyword arguments of a request: image size and the three flags always; project and
   * name exactly when an output directory is given; device, batch and workspace exactly
   * when the format is engine and the field is set.
   */
  function ExportKwargs(request: ExportRequest): (kwargs: Kwargs)
    ensures Imgsz in kwargs && kwargs[Imgsz] == IntValue(request.imgsz)
    ensures Half in kwargs && kwargs[Half] == BoolValue(request.half)
    ensures Int8 in kwargs && kwargs[Int8] == BoolValue(request.int8)
    ensures Nms in kwargs && kwargs[Nms] == BoolValue(request.nms)
    ensures (Project in kwargs <==> request.outputDir.Some?) && (ModelName in kwargs <==> request.outputDir.Some?)
    ensures request.outputDir.Some? ==>
      kwargs[Project] == StrValue(request.outputDir.value.text) &&
      kwargs[ModelName] == StrValue(Stem(request.modelPath))
    ensures Device in kwargs <==> request.format == Engine && request.device.Some?
    ensures Batch in kwargs <==> request.format == Engine && request.batch.Some?
    ensures Workspace in kwargs <==> request.format == Engine && request.workspace.Some?
    ensures Device in kwargs ==> kwargs[Device] == StrValue(request.device.value)
    ensures Batch in kwargs ==> kwargs[Batch] == IntValue(request.batch.value)
    ensures Workspace in kwargs ==> kwargs[Workspace] == FloatValue(request.workspace.value)
  {
    map k: Key | KwargOf(request, k).Some? :: KwargOf(request, k).value
  }

  /** The value a request gives keyword `k`, if it passes that keyword at all. */
  function KwargOf(request: ExportRequest, k: Key): Option<KwValue>
  {
    match k
    case Imgsz => Some(IntValue(request.imgsz))
    case Half => Some(BoolValue(request.half))
    case Int8 => Some(BoolValue(request.int8))
    case Nms => Some(BoolValue(request.nms))
    case Project => if request.outputDir.Some? then Some(StrValue(request.outputDir.value.text)) else None
    case ModelName => if request.outputDir.Some? then Some(StrValue(Stem(request.modelPath))) else None
    case Device =>
      if request.format == Engine && request.device.Some? then Some(StrValue(request.device.value)) else None
    case Batch =>
      if request.format == Engine && request.batch.Some? then Some(IntValue(request.batch.value)) else None
    case Workspace =>
      if request.format == Engine && request.workspace.Some? then Some(FloatValue(request.workspace.value)) else None
  }

  /** A CoreML request never hands device, batch or workspace to the library. */
  lemma CoreMLOmitsEngineOnlyKeys(request: ExportRequest)
    requires request.format == CoreML
    ensures ExportKwargs(request).Keys !! EngineOnlyKeys
  {
  }

  /** A map that holds, for every keyword, exactly the value the request gives it is the kwargs map. */
  lemma ExportKwargsByKey(request: ExportRequest, kwargs: Kwargs)
    requires forall k :: KwargOf(request, k) == (if k in kwargs then Some(kwargs[k]) else None)
    ensures kwargs == ExportKwargs(request)
  {
    var spec := ExportKwargs(request);
    assert forall k :: k in kwargs <==> k in spec;
    assert forall k :: k in kwargs ==> kwargs[k] == spec[k];
  }

  /** build_export_kwargs: starts from the four fixed entries and inserts the others one by one. */
  method BuildExportKwargs(request: ExportRequest) returns (kwargs: Kwargs)
    ensures kwargs == ExportKwargs(request)
  {
    var stem := Stem(request.modelPath);
    kwargs := map[Imgsz := IntValue(request.imgsz), Half := BoolValue(request.half),
                  Int8 := BoolValue(request.int8), Nms := BoolValue(request.nms)];

    if request.outputDir.Some? {
      kwargs := kwargs[Project := StrValue(request.outputDir.value.text)];
      kwargs := kwargs[ModelName := StrValue(stem)];
    }

    if request.format == Engine {
      if request.device.Some? {
        kwargs := kwargs[Device := StrValue(request.device.value)];
      }
      if request.batch.Some? {
        kwargs := kwargs[Batch := IntValue(request.batch.value)];
      }
      if request.workspace.Some? {
        kwargs := kwargs[Workspace := FloatValue(request.workspace.value)];
      }
    }
    // A CoreML export deliberately leaves out device, batch and workspace.

    forall k ensures KwargOf(request, k) == (if k in kwargs then Some(kwargs[k]) else None) {
      match k
      case Imgsz => case Half => case Int8 => case Nms =>
      case Project => case ModelName =>
      case Device => case Batch => case Workspace =>
    }
    ExportKwargsByKey(request, kwargs);
  }

  /** What the export library's `export` call returned. */
  datatype Exported = PathObject(path: Path) | StringObject(s: string) | OtherObject

  /** The outcome of constructing the library's model object and calling its `export`. */
  datatype BackendCall = Returned(exported: Exported) | Raised(message: string)

  /** _normalize_output_path: a path stays itself, a string becomes a path, anything else is no path. */
  function NormalizeOutputPath(exported: Exported): (p: Option<Path>)
    ensures p.None? <==> exported.OtherObject?
    ensures exported.PathObject? ==> p == Some(exported.path)
    ensures exported.StringObject? ==> p == Some(Path(exported.s))
  {
    match exported
    case PathObject(path) => Some(path)
    case StringObject(s) => Some(Path(s))
    case OtherObject => None
  }

  /** The detail map of an export result: the dry-run flag and the encoded kwargs. */
  function Details(dryRun: string, kwargsText: string): (details: map<string, string>)
    ensures details.Keys == {"dry_run", "kwargs"}
    ensures details["dry_run"] == dryRun && details["kwargs"] == kwargsText
  {
    assert "dry_run" != "kwargs" by { assert |"dry_run"| != |"kwargs"|; }
    map["dry_run" := dryRun, "kwargs" := kwargsText]
  }

  /**
   * export_model. `modelExists` stands for the filesystem, `dumps` for the JSON encoding of
   * the kwargs and `backend` for what the library call does when it is made.
   */
  function ExportModel(request: ExportRequest, modelExists: bool, dumps: Kwargs -> string,
                       backend: BackendCall): (r: Outcome<ExportResult>)
    ensures ValidateRequest(request, modelExists).Failure? ==>
      r == Failure(ValidateRequest(request, modelExists).error)
    ensures r.Success? ==>
      && r.value.format == request.format
      && r.value.inputModel == request.modelPath
      && r.value.backend == Backend
      && r.value.details.Keys == {"dry_run", "kwargs"}
      && r.value.details["dry_run"] == (if request.dryRun then "true" else "false")
      && r.value.details["kwargs"] == dumps(ExportKwargs(request))
    ensures ValidateRequest(request, modelExists).Success? && request.dryRun ==>
      r.Success? && r.value.outputPath.None? && r.value.details["dry_run"] == "true"
    ensures r.Failure? && r.error.ExecutionError? <==>
      ValidateRequest(request, modelExists).Success? && !request.dryRun && backend.Raised?
    ensures r.Failure? && r.error.ExecutionError? ==>
      r.error.message == BackendFailurePrefix + backend.message
    ensures ValidateRequest(request, modelExists).Success? && !request.dryRun && backend.Returned? ==>
      r.Success? && r.value.outputPath == NormalizeOutputPath(backend.exported)
  {
    var validation := ValidateRequest(request, modelExists);
    if validation.Failure? then Failure(validation.error)
    else
    var kwargs := ExportKwargs(request);
    if request.dryRun then
      Success(ExportResult(request.format, request.modelPath, None, Backend,
                           Details("true", dumps(kwargs))))
    else
      match backend
      case Raised(message) => Failure(ExecutionError(BackendFailurePrefix + message))
      case Returned(exported) =>
        Success(ExportResult(request.format, request.modelPath, NormalizeOutputPath(exported), Backend,
                             Details("false", dumps(kwargs))))
  }

  /** A dry run never reaches the library: its outcome is the same whatever the call would do. */
  lemma DryRunNeverReachesBackend(request: ExportRequest, modelExists: bool, dumps: Kwargs -> string,
                                  backend1: BackendCall, backend2: BackendCall)
    requires request.dryRun
    ensures ExportModel(request, modelExists, dumps, backend1) == ExportModel(request, modelExists, dumps, backend2)
  {
  }
}
