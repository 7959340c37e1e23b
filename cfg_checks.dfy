/**
 * The pre-flight checklist run before an experiment starts: seven independent
 * checks on the configuration and the machine, each adding one finding (a title, a
 * message and a type, "error" or "warning") to three parallel lists, followed by
 * the findings of the problem type's own `check()`.
 */
module CfgChecks {

  /** The parts of the configuration the checklist reads. */
  datatype CheckedConfig = CheckedConfig(
    gpus: seq<string>,        // environment.gpus
    useDeepspeed: bool,       // environment.use_deepspeed
    backboneDtype: string,    // architecture.backbone_dtype
    pretrained: bool,         // architecture.pretrained
    lora: bool,               // training.lora
    epochs: int               // training.epochs
  )

  /**
   * What the checklist reads from the machine: the number of CUDA devices, the free
   * space of the working directory's file system (fragment size times available
   * blocks) and the minimum disk space an experiment needs, all in bytes.
   */
  datatype Host = Host(deviceCount: nat, availableSize: nat, minDiskSpace: nat)

  /**
   * The message of a finding, with the values it reports (its wording is not modelled).
   * The problem type's own check reports free text, kept as `ProblemTypeMessage`.
   */
  datatype Message =
    | SelectAtLeastOneGpu
    | GpusNotAvailable(selected: seq<string>, available: nat)
    | NotEnoughDiskSpace(available: nat, required: nat)
    | QuantizationNeedsPretrained
    | UnstableTraining(dtype: string)
    | DeepspeedDtypeUnsupported(dtype: string)
    | DeepspeedNeedsSeveralGpus
    | ProblemTypeMessage(text: string)

  /** The `{"title": [...], "message": [...], "type": [...]}` dictionary. */
  datatype Errors = Errors(titles: seq<string>, messages: seq<Message>, types: seq<string>)

  // ---------------------------------------------------------------------------
  // The checklist as a table
  // ---------------------------------------------------------------------------

  datatype Check =
    | NoGpu
    | TooManyGpus
    | LowDiskSpace
    | QuantizationWithoutPretrained
    | PureDtypeTraining
    | DeepspeedQuantization
    | DeepspeedSingleGpu

  /** The checks in the order the checklist runs them. */
  const Checklist: seq<Check> := [
    NoGpu, TooManyGpus, LowDiskSpace, QuantizationWithoutPretrained,
    PureDtypeTraining, DeepspeedQuantization, DeepspeedSingleGpu
  ]

  /** Checks listed in the order the checklist runs them, none twice. */
  predicate InChecklistOrder(checks: seq<Check>) {
    forall i, j :: 0 <= i < j < |checks| ==> Rank(checks[i]) < Rank(checks[j])
  }

  /** The position of a check in the checklist. */
  function Rank(ch: Check): nat {
    match ch
    case NoGpu => 0
    case TooManyGpus => 1
    case LowDiskSpace => 2
    case QuantizationWithoutPretrained => 3
    case PureDtypeTraining => 4
    case DeepspeedQuantization => 5
    case DeepspeedSingleGpu => 6
  }

  /** A 4-bit or 8-bit quantized backbone. */
  predicate Quantized(dtype: string) {
    dtype in ["int4", "int8"]
  }

  /** A backbone precision that trains stably without LoRA. */
  predicate StablePrecision(dtype: string) {
    dtype in ["bfloat16", "float32"]
  }

  /** The condition under which a check reports its finding. */
  predicate Fires(ch: Check, cfg: CheckedConfig, host: Host) {
    match ch
    case NoGpu => |cfg.gpus| == 0
    case TooManyGpus => |cfg.gpus| > host.deviceCount
    case LowDiskSpace => host.availableSize < host.minDiskSpace
    case QuantizationWithoutPretrained => Quantized(cfg.backboneDtype) && !cfg.pretrained
    case PureDtypeTraining => !cfg.lora && !StablePrecision(cfg.backboneDtype) && cfg.epochs > 0
    case DeepspeedQuantization => cfg.useDeepspeed && Quantized(cfg.backboneDtype)
    case DeepspeedSingleGpu => cfg.useDeepspeed && |cfg.gpus| < 2
  }

  /** The titles of the findings, as the application shows them. */
  const NoGpuTitle: string := "No GPU selected"
  const TooManyGpusTitle: string := "More GPUs selected than available"
  const LowDiskSpaceTitle: string := "Not enough disk space."
  const QuantizationTitle: string := "Quantization without pretrained weights."
  const DeepspeedQuantizationTitle: string := "Deepspeed does not support quantization."
  const DeepspeedSingleGpuTitle: string := "Deepspeed not supported for single GPU."
  const PurePrefix: string := "Pure "
  const PureSuffix: string := " training."

  /** The title a check reports. */
  function Title(ch: Check, cfg: CheckedConfig): string {
    match ch
    case NoGpu => NoGpuTitle
    case TooManyGpus => TooManyGpusTitle
    case LowDiskSpace => LowDiskSpaceTitle
    case QuantizationWithoutPretrained => QuantizationTitle
    case PureDtypeTraining => PurePrefix + cfg.backboneDtype + PureSuffix
    case DeepspeedQuantization => DeepspeedQuantizationTitle
    case DeepspeedSingleGpu => DeepspeedSingleGpuTitle
  }

  /** The message a check reports, with the values it quotes. */
  function MessageOf(ch: Check, cfg: CheckedConfig, host: Host): Message {
    match ch
    case NoGpu => SelectAtLeastOneGpu
    case TooManyGpus => GpusNotAvailable(cfg.gpus, host.deviceCount)
    case LowDiskSpace => NotEnoughDiskSpace(host.availableSize, host.minDiskSpace)
    case QuantizationWithoutPretrained => QuantizationNeedsPretrained
    case PureDtypeTraining => UnstableTraining(cfg.backboneDtype)
    case DeepspeedQuantization => DeepspeedDtypeUnsupported(cfg.backboneDtype)
    case DeepspeedSingleGpu => DeepspeedNeedsSeveralGpus
  }

  /** Only the pure-precision check is a warning. */
  function TypeOf(ch: Check): string {
    if ch == PureDtypeTraining then "warning" else "error"
  }

  /** The checks among `checks` that fire, in their order. */
  function FiredAmong(checks: seq<Check>, cfg: CheckedConfig, host: Host): seq<Check>
    decreases |checks|
  {
    if checks == [] then []
    else
      var last := checks[|checks| - 1];
      FiredAmong(checks[..|checks| - 1], cfg, host) + (if Fires(last, cfg, host) then [last] else [])
  }

  /** The checks of the common checklist that fire. */
  function CommonFindings(cfg: CheckedConfig, host: Host): seq<Check> {
    FiredAmong(Checklist, cfg, host)
  }

  /** The three lists after appending one finding. */
  function Add(errors: Errors, ch: Check, cfg: CheckedConfig, host: Host): Errors {
    Errors(errors.titles + [Title(ch, cfg)],
           errors.messages + [MessageOf(ch, cfg, host)],
           errors.types + [TypeOf(ch)])
  }

  /** The three lists that report the given findings, in order. */
  function Report(checks: seq<Check>, cfg: CheckedConfig, host: Host): Errors
    decreases |checks|
  {
    if checks == [] then Errors([], [], [])
    else Add(Report(checks[..|checks| - 1], cfg, host), checks[|checks| - 1], cfg, host)
  }

  // ---------------------------------------------------------------------------
  // check_for_common_errors and check_config_for_errors
  // ---------------------------------------------------------------------------

  /** One check of the checklist: its finding is appended exactly when it fires. */
  function Step(errors: Errors, ch: Check, cfg: CheckedConfig, host: Host): Errors {
    if Fires(ch, cfg, host) then Add(errors, ch, cfg, host) else errors
  }

  /** The lists after running the first k checks of the checklist, one step at a time. */
  function Steps(k: nat, cfg: CheckedConfig, host: Host): Errors
    requires k <= |Checklist|
  {
    if k == 0 then Errors([], [], []) else Step(Steps(k - 1, cfg, host), Checklist[k - 1], cfg, host)
  }

  lemma ReportSnoc(checks: seq<Check>, ch: Check, cfg: CheckedConfig, host: Host)
    ensures Report(checks + [ch], cfg, host) == Add(Report(checks, cfg, host), ch, cfg, host)
  {
    assert (checks + [ch])[..|checks|] == checks;
  }

  /** Running the first k checks step by step reports exactly the findings among them. */
  lemma {:induction false} StepsReport(k: nat, cfg: CheckedConfig, host: Host)
    requires k <= |Checklist|
    ensures Steps(k, cfg, host) == Report(FiredAmong(Checklist[..k], cfg, host), cfg, host)
  {
    if k > 0 {
      StepsReport(k - 1, cfg, host);
      FiredAmongPrefix(k, cfg, host);
      var ch := Checklist[k - 1];
      var before := FiredAmong(Checklist[..k - 1], cfg, host);
      assert Steps(k, cfg, host) == Step(Steps(k - 1, cfg, host), ch, cfg, host);
      if Fires(ch, cfg, host) {
        ReportSnoc(before, ch, cfg, host);
        assert FiredAmong(Checklist[..k], cfg, host) == before + [ch];
      } else {
        assert FiredAmong(Checklist[..k], cfg, host) == before;
      }
    }
  }

  /**
   * Seven lists, each obtained from the one before by one check of the checklist in
   * order, end in the report of the common findings.
   */
  lemma SevenSteps(e0: Errors, e1: Errors, e2: Errors, e3: Errors, e4: Errors, e5: Errors, e6: Errors,
                   e7: Errors, cfg: CheckedConfig, host: Host)
    requires e0 == Errors([], [], [])
    requires Fires(NoGpu, cfg, host) ==> e1 == Add(e0, NoGpu, cfg, host)
    requires !Fires(NoGpu, cfg, host) ==> e1 == e0
    requires Fires(TooManyGpus, cfg, host) ==> e2 == Add(e1, TooManyGpus, cfg, host)
    requires !Fires(TooManyGpus, cfg, host) ==> e2 == e1
    requires Fires(LowDiskSpace, cfg, host) ==> e3 == Add(e2, LowDiskSpace, cfg, host)
    requires !Fires(LowDiskSpace, cfg, host) ==> e3 == e2
    requires Fires(QuantizationWithoutPretrained, cfg, host) ==> e4 == Add(e3, QuantizationWithoutPretrained, cfg, host)
    requires !Fires(QuantizationWithoutPretrained, cfg, host) ==> e4 == e3
    requires Fires(PureDtypeTraining, cfg, host) ==> e5 == Add(e4, PureDtypeTraining, cfg, host)
    requires !Fires(PureDtypeTraining, cfg, host) ==> e5 == e4
    requires Fires(DeepspeedQuantization, cfg, host) ==> e6 == Add(e5, DeepspeedQuantization, cfg, host)
    requires !Fires(DeepspeedQuantization, cfg, host) ==> e6 == e5
    requires Fires(DeepspeedSingleGpu, cfg, host) ==> e7 == Add(e6, DeepspeedSingleGpu, cfg, host)
    requires !Fires(DeepspeedSingleGpu, cfg, host) ==> e7 == e6
    ensures e7 == Report(CommonFindings(cfg, host), cfg, host)
  {
    assert e1 == Steps(1, cfg, host);
    assert e2 == Steps(2, cfg, host);
    assert e3 == Steps(3, cfg, host);
    assert e4 == Steps(4, cfg, host);
    assert e5 == Steps(5, cfg, host);
    assert e6 == Steps(6, cfg, host);
    assert e7 == Steps(7, cfg, host);
    StepsReport(7, cfg, host);
    assert Checklist[..7] == Checklist;
  }

  /**
   * `check_for_common_errors`: the seven checks in their order, each appending its
   * title, message and type when its condition holds.
   */
  method CheckForCommonErrors(cfg: CheckedConfig, host: Host) returns (errors: Errors)
    ensures errors == Report(CommonFindings(cfg, host), cfg, host)
  {
    errors := Errors([], [], []);
    ghost var e0 := errors;
    if !(|cfg.gpus| > 0) {
      errors := Errors(errors.titles + ["No GPU selected"],
                       errors.messages + [SelectAtLeastOneGpu],
                       errors.types + ["error"]);
    }
    ghost var e1 := errors;

    if |cfg.gpus| > host.deviceCount {
      errors := Errors(errors.titles + ["More GPUs selected than available"],
                       errors.messages + [GpusNotAvailable(cfg.gpus, host.deviceCount)],
                       errors.types + ["error"]);
    }
    ghost var e2 := errors;

    var availableSize := host.availableSize;
    if availableSize < host.minDiskSpace {
      errors := Errors(errors.titles + ["Not enough disk space."],
                       errors.messages + [NotEnoughDiskSpace(availableSize, host.minDiskSpace)],
                       errors.types + ["error"]);
    }
    ghost var e3 := errors;

    if Quantized(cfg.backboneDtype) && !cfg.pretrained {
      errors := Errors(errors.titles + ["Quantization without pretrained weights."],
                       errors.messages + [QuantizationNeedsPretrained],
                       errors.types + ["error"]);
    }
    ghost var e4 := errors;

    if !cfg.lora && !StablePrecision(cfg.backboneDtype) && cfg.epochs > 0 {
      errors := Errors(errors.titles + ["Pure " + cfg.backboneDtype + " training."],
                       errors.messages + [UnstableTraining(cfg.backboneDtype)],
                       errors.types + ["warning"]);
    }
    ghost var e5 := errors;

    if cfg.useDeepspeed && Quantized(cfg.backboneDtype) {
      errors := Errors(errors.titles + ["Deepspeed does not support quantization."],
                       errors.messages + [DeepspeedDtypeUnsupported(cfg.backboneDtype)],
                       errors.types + ["error"]);
    }
    ghost var e6 := errors;

    if cfg.useDeepspeed && |cfg.gpus| < 2 {
      errors := Errors(errors.titles + ["Deepspeed not supported for single GPU."],
                       errors.messages + [DeepspeedNeedsSeveralGpus],
                       errors.types + ["error"]);
    }
    SevenSteps(e0, e1, e2, e3, e4, e5, e6, errors, cfg, host);
  }

  /** Every reported type is "error" or "warning". */
  lemma ReportTypes(checks: seq<Check>, cfg: CheckedConfig, host: Host)
    ensures forall t :: t in Report(checks, cfg, host).types ==> t == "error" || t == "warning"
  {
    var types := Report(checks, cfg, host).types;
    ReportShape(checks, cfg, host);
    forall t | t in types
      ensures t == "error" || t == "warning"
    {
      var i :| 0 <= i < |types| && types[i] == t;
      assert t == TypeOf(checks[i]);
    }
  }

  /**
   * `check_config_for_errors`: the common findings, then those of the problem type's
   * own `check()` (given as `extension`), appended list by list.
   */
  method CheckConfigForErrors(cfg: CheckedConfig, host: Host, extension: Errors) returns (errors: Errors)
    ensures errors.titles == Report(CommonFindings(cfg, host), cfg, host).titles + extension.titles
    ensures errors.messages == Report(CommonFindings(cfg, host), cfg, host).messages + extension.messages
    ensures errors.types == Report(CommonFindings(cfg, host), cfg, host).types + extension.types
    ensures |errors.titles| == |CommonFindings(cfg, host)| + |extension.titles|
    ensures |extension.titles| == |extension.messages| == |extension.types| ==>
      |errors.titles| == |errors.messages| == |errors.types|
  {
    errors := CheckForCommonErrors(cfg, host);
    ReportShape(CommonFindings(cfg, host), cfg, host);
    errors := errors.(titles := errors.titles + extension.titles);
    errors := errors.(messages := errors.messages + extension.messages);
    errors := errors.(types := errors.types + extension.types);
  }

  // ---------------------------------------------------------------------------
  // Properties of the checklist
  // ---------------------------------------------------------------------------

  /** The checks of the first k that fire: those of the first k - 1, then check k - 1 if it fires. */
  lemma FiredAmongPrefix(k: nat, cfg: CheckedConfig, host: Host)
    requires 0 < k <= |Checklist|
    ensures FiredAmong(Checklist[..k], cfg, host) ==
      FiredAmong(Checklist[..k - 1], cfg, host)
        + (if Fires(Checklist[k - 1], cfg, host) then [Checklist[k - 1]] else [])
  {
    assert Checklist[..k][..k - 1] == Checklist[..k - 1];
  }

  /** The report holds one finding per check, position by position, in three lists of equal length. */
  lemma {:induction false} ReportShape(checks: seq<Check>, cfg: CheckedConfig, host: Host)
    ensures var r := Report(checks, cfg, host);
      |r.titles| == |checks| && |r.messages| == |checks| && |r.types| == |checks|
    ensures var r := Report(checks, cfg, host);
      forall i :: 0 <= i < |checks| ==>
        r.titles[i] == Title(checks[i], cfg) && r.messages[i] == MessageOf(checks[i], cfg, host)
        && r.types[i] == TypeOf(checks[i])
    decreases |checks|
  {
    if checks != [] {
      var n := |checks| - 1;
      ReportShape(checks[..n], cfg, host);
      var prev := Report(checks[..n], cfg, host);
      var r := Report(checks, cfg, host);
      assert r == Add(prev, checks[n], cfg, host);
      forall i | 0 <= i < |checks|
        ensures r.titles[i] == Title(checks[i], cfg) && r.messages[i] == MessageOf(checks[i], cfg, host)
          && r.types[i] == TypeOf(checks[i])
      {
        if i < n {
          assert checks[..n][i] == checks[i];
          assert r.titles[i] == prev.titles[i] && r.messages[i] == prev.messages[i] && r.types[i] == prev.types[i];
        }
      }
    }
  }

  lemma {:induction false} FiredAmongLength(checks: seq<Check>, cfg: CheckedConfig, host: Host)
    ensures |FiredAmong(checks, cfg, host)| <= |checks|
    decreases |checks|
  {
    if checks != [] {
      FiredAmongLength(checks[..|checks| - 1], cfg, host);
    }
  }

  /** A check is among the fired ones exactly when it is listed and its condition holds. */
  lemma {:induction false} FiredAmongMember(checks: seq<Check>, ch: Check, cfg: CheckedConfig, host: Host)
    ensures ch in FiredAmong(checks, cfg, host) <==> ch in checks && Fires(ch, cfg, host)
    decreases |checks|
  {
    if checks != [] {
      var prefix := checks[..|checks| - 1];
      FiredAmongMember(prefix, ch, cfg, host);
      assert checks == prefix + [checks[|checks| - 1]];
    }
  }

  /** Filtering keeps the order of the checklist. */
  lemma {:induction false} FiredAmongOrdered(checks: seq<Check>, cfg: CheckedConfig, host: Host)
    requires InChecklistOrder(checks)
    ensures InChecklistOrder(FiredAmong(checks, cfg, host))
    decreases |checks|
  {
    if checks != [] {
      var prefix := checks[..|checks| - 1];
      var last := checks[|checks| - 1];
      assert InChecklistOrder(prefix) by {
        forall i, j | 0 <= i < j < |prefix|
          ensures Rank(prefix[i]) < Rank(prefix[j])
        {
          assert prefix[i] == checks[i] && prefix[j] == checks[j];
        }
      }
      FiredAmongOrdered(prefix, cfg, host);
      var fp := FiredAmong(prefix, cfg, host);
      forall c | c in fp
        ensures Rank(c) < Rank(last)
      {
        FiredAmongMember(prefix, c, cfg, host);
        var m :| 0 <= m < |prefix| && prefix[m] == c;
        assert checks[m] == c;
      }
      var f := FiredAmong(checks, cfg, host);
      assert f == fp + (if Fires(last, cfg, host) then [last] else []);
      forall i, j | 0 <= i < j < |f|
        ensures Rank(f[i]) < Rank(f[j])
      {
        if j < |fp| {
          assert f[i] == fp[i] && f[j] == fp[j];
        } else {
          assert f[i] == fp[i] && f[i] in fp && f[j] == last;
        }
      }
    }
  }

  /**
   * Every check reports its finding exactly when its condition holds, whatever the
   * other checks find: none of them cuts off the rest.
   */
  lemma CommonFindingsExactly(ch: Check, cfg: CheckedConfig, host: Host)
    ensures ch in CommonFindings(cfg, host) <==> Fires(ch, cfg, host)
  {
    FiredAmongMember(Checklist, ch, cfg, host);
  }

  /** The common findings follow the checklist order, each at most once, seven at most. */
  lemma CommonFindingsOrdered(cfg: CheckedConfig, host: Host)
    ensures var f := CommonFindings(cfg, host);
      |f| <= 7 && InChecklistOrder(f)
  {
    FiredAmongLength(Checklist, cfg, host);
    FiredAmongOrdered(Checklist, cfg, host);
  }

  /** "No GPU selected" and "More GPUs selected than available" never appear together. */
  lemma GpuFindingsExclusive(cfg: CheckedConfig, host: Host)
    ensures !(NoGpu in CommonFindings(cfg, host) && TooManyGpus in CommonFindings(cfg, host))
  {
    CommonFindingsExactly(NoGpu, cfg, host);
    CommonFindingsExactly(TooManyGpus, cfg, host);
  }

  /** With DeepSpeed, a quantized backbone on fewer than two GPUs draws both DeepSpeed errors. */
  lemma DeepspeedFindingsIndependent(cfg: CheckedConfig, host: Host)
    requires cfg.useDeepspeed && |cfg.gpus| < 2 && Quantized(cfg.backboneDtype)
    ensures DeepspeedQuantization in CommonFindings(cfg, host)
    ensures DeepspeedSingleGpu in CommonFindings(cfg, host)
  {
    CommonFindingsExactly(DeepspeedQuantization, cfg, host);
    CommonFindingsExactly(DeepspeedSingleGpu, cfg, host);
  }

  /** A finding is a warning exactly when it is the pure-precision one. */
  lemma OnlyWarningIsPureDtype(cfg: CheckedConfig, host: Host)
    ensures var f := CommonFindings(cfg, host); var r := Report(f, cfg, host);
      |r.types| == |f| &&
      forall i :: 0 <= i < |f| ==> (r.types[i] == "warning" <==> f[i] == PureDtypeTraining)
  {
    ReportShape(CommonFindings(cfg, host), cfg, host);
  }

  /** Different checks have different titles. */
  lemma TitlesDistinct(a: Check, b: Check, cfg: CheckedConfig)
    requires a != b
    ensures Title(a, cfg) != Title(b, cfg)
  {
    assert Title(a, cfg)[0] == Title(b, cfg)[0] ==> |Title(a, cfg)| != |Title(b, cfg)| || a.PureDtypeTraining? || b.PureDtypeTraining?;
  }

  /** Each title is reported exactly when its check fires. */
  lemma TitleReportedExactly(ch: Check, cfg: CheckedConfig, host: Host)
    ensures Title(ch, cfg) in Report(CommonFindings(cfg, host), cfg, host).titles <==> Fires(ch, cfg, host)
  {
    var f := CommonFindings(cfg, host);
    var titles := Report(f, cfg, host).titles;
    ReportShape(f, cfg, host);
    CommonFindingsExactly(ch, cfg, host);
    if Title(ch, cfg) in titles {
      var i :| 0 <= i < |titles| && titles[i] == Title(ch, cfg);
      if f[i] != ch {
        TitlesDistinct(f[i], ch, cfg);
      }
    }
  }
}
