/** The upscale workflow record (UpscaleWorkflow) and its chain of upscale
    models (UpscaleModel): defaults, the setters that replace a null by a
    default, the exclusive back-end and preset setters, the derived flags,
    and the editing of the model list. */
module Workflow {
  import opened Common
  import opened DecimalText

  // ---------------------------------------------------------------------------
  // Presets

  /** ffmpeg video settings, as the current application writes them; each
      is split after its encoder name so that proofs can tell them apart. */
  const FfmpegX265: string := "libx265" + " -crf 16 -preset slow -x265-params \"sao=0:bframes=8:psy-rd=1.5:psy-rdoq=2:aq-mode=3:ref=6\" -max_interleave_delta 0"
  const FfmpegX264: string := "libx264" + " -crf 13 -preset slow -max_interleave_delta 0"
  const FfmpegHevcNvenc: string := "hevc_nv" + "enc -preset p7 -profile:v main10 -b:v 50M -max_interleave_delta 0"
  const FfmpegLossless: string := "ffv1 -m" + "ax_interleave_delta 0"

  /** trtexec engine settings, split after their first ten characters. */
  const TensorRtDynamicEngine: string := "--fp16 --m" + "inShapes=input:1x3x8x8 --optShapes=input:1x3x1080x1920 --maxShapes=input:1x3x1080x1920 --inputIOFormats=fp16:chw --outputIOFormats=fp16:chw --tacticSources=+CUDNN,-CUBLAS,-CUBLAS_LT --skipInference"
  const TensorRtStaticEngine: string := "--fp16 --o" + "ptShapes=input:%video_resolution% --inputIOFormats=fp16:chw --outputIOFormats=fp16:chw --tacticSources=+CUDNN,-CUBLAS,-CUBLAS_LT --skipInference"
  const TensorRtStaticOnnx: string := "--fp16 --i" + "nputIOFormats=fp16:chw --outputIOFormats=fp16:chw --tacticSources=+CUDNN,-CUBLAS,-CUBLAS_LT --skipInference"
  const TensorRtStaticBf16Engine: string := "--bf16 --o" + "ptShapes=input:%video_resolution% --inputIOFormats=fp16:chw --outputIOFormats=fp16:chw --tacticSources=+CUDNN,-CUBLAS,-CUBLAS_LT --skipInference"

  datatype Codec = X265 | X264 | HevcNvenc | Lossless

  datatype EnginePreset = Dynamic | Static | StaticOnnx | StaticBf16

  datatype Backend = TensorRt | DirectMl | Ncnn

  function CodecSettings(c: Codec): string {
    match c
    case X265 => FfmpegX265
    case X264 => FfmpegX264
    case HevcNvenc => FfmpegHevcNvenc
    case Lossless => FfmpegLossless
  }

  function EngineSettings(p: EnginePreset): string {
    match p
    case Dynamic => TensorRtDynamicEngine
    case Static => TensorRtStaticEngine
    case StaticOnnx => TensorRtStaticOnnx
    case StaticBf16 => TensorRtStaticBf16Engine
  }

  /** The four codec strings differ pairwise (they name different encoders). */
  lemma CodecSettingsInjective(a: Codec, b: Codec)
    ensures CodecSettings(a) == CodecSettings(b) <==> a == b
  {
    if a != b {
      assert CodecSettings(a)[..7] != CodecSettings(b)[..7];
    }
  }

  lemma EngineSettingsInjective(a: EnginePreset, b: EnginePreset)
    ensures EngineSettings(a) == EngineSettings(b) <==> a == b
  {
    if a != b {
      assert EngineSettings(a)[..10] != EngineSettings(b)[..10];
    }
  }

  // ---------------------------------------------------------------------------
  // Records

  /** One upscale step. The resize factor is a decimal in the source. */
  datatype UpscaleModel = UpscaleModel(
    header: string,
    resizeHeightBeforeUpscale: int,
    resizeFactorBeforeUpscale: Decimal,
    onnxModelPath: string)

  /** A new UpscaleModel: empty header and path, no resize (height 0, factor 100). */
  function NewModel(): (m: UpscaleModel)
    ensures m.header == "" && m.onnxModelPath == ""
    ensures m.resizeHeightBeforeUpscale == 0 && EnableResizeFactor(m)
    ensures m.resizeFactorBeforeUpscale == Decimal(100, 0)
  {
    UpscaleModel("", 0, Decimal(100, 0), "")
  }

  /** The factor field is editable only while no resize height is set. */
  predicate EnableResizeFactor(m: UpscaleModel) { m.resizeHeightBeforeUpscale == 0 }

  datatype Workflow = Workflow(
    selectedTabIndex: int,            // 0: single input video, otherwise: input folder
    inputFilePath: string,
    inputFolderPath: string,
    outputFolderPath: string,
    outputFilename: string,
    overwriteExistingVideos: bool,
    models: seq<UpscaleModel>,
    ffmpegVideoSettings: string,
    tensorRtSelected: bool,
    directMlSelected: bool,
    ncnnSelected: bool,
    tensorRtEngineSettingsAuto: bool,
    tensorRtEngineSettings: string,
    finalResizeHeight: int,
    finalResizeFactor: int,
    enableRife: bool,
    rifeModel: string,
    rifeEnsemble: bool,
    rifeFactorNumerator: int,
    rifeFactorDenominator: int,
    rifeSceneDetectThreshold: Decimal,
    showAdvancedSettings: bool,
    valid: bool)

  /** The default RIFE scene-detection threshold, 0.150 (scale 3). */
  const DefaultSceneDetectThreshold: Decimal := Decimal(150, 3)

  /** A new workflow; `rifeModel` is "RIFE 4.22" in the current application
      and "RIFE 4.14" in the older one. */
  function NewWorkflow(rifeModel: string): (w: Workflow)
    ensures CodecOf(w) == Some(HevcNvenc) && BackendOf(w) == TensorRt && ExactlyOneBackend(w)
    ensures EnableFinalResizeFactor(w) && !w.valid && w.models == []
    ensures w.tensorRtEngineSettingsAuto && EngineSelected(w, Dynamic)
    ensures w.finalResizeHeight == 0 && w.finalResizeFactor == 100
    ensures !w.enableRife && !w.rifeEnsemble && w.rifeModel == rifeModel
    ensures w.rifeFactorNumerator == 2 && w.rifeFactorDenominator == 1
    ensures w.rifeSceneDetectThreshold == Decimal(150, 3)
    ensures w.selectedTabIndex == 0 && w.inputFilePath == "" && w.inputFolderPath == ""
    ensures w.outputFolderPath == "" && w.outputFilename == "%filename%-animejanai.mkv"
    ensures !w.overwriteExistingVideos && !w.showAdvancedSettings
  {
    CodecOfSettings(HevcNvenc);
    Workflow(0, "", "", "", "%filename%-animejanai.mkv", false, [], FfmpegHevcNvenc,
      true, false, false, true, TensorRtDynamicEngine, 0, 100, false, rifeModel, false,
      2, 1, DefaultSceneDetectThreshold, false, false)
  }

  const DefaultRifeModel: string := "RIFE 4.22"

  // ---------------------------------------------------------------------------
  // Derived flags

  predicate FfmpegSelected(w: Workflow, c: Codec) { w.ffmpegVideoSettings == CodecSettings(c) }

  predicate EngineSelected(w: Workflow, p: EnginePreset) { w.tensorRtEngineSettings == EngineSettings(p) }

  /** The codec whose "selected" flag is on, if any. */
  function CodecOf(w: Workflow): (r: Option<Codec>)
    ensures r.Some? <==> exists c :: FfmpegSelected(w, c)
    ensures r.Some? ==> FfmpegSelected(w, r.value)
  {
    if FfmpegSelected(w, HevcNvenc) then Some(HevcNvenc)
    else if FfmpegSelected(w, X265) then Some(X265)
    else if FfmpegSelected(w, X264) then Some(X264)
    else if FfmpegSelected(w, Lossless) then Some(Lossless)
    else None
  }

  lemma CodecOfSettings(c: Codec)
    ensures forall w: Workflow :: w.ffmpegVideoSettings == CodecSettings(c) ==> CodecOf(w) == Some(c)
  {
    forall w: Workflow | w.ffmpegVideoSettings == CodecSettings(c) ensures CodecOf(w) == Some(c) {
      CodecSettingsInjective(CodecOf(w).value, c);
    }
  }

  /** The back end named in the configuration: DirectML if its flag is set,
      else NCNN if set, else TensorRT. */
  function BackendOf(w: Workflow): (b: Backend)
    ensures w.directMlSelected ==> b == DirectMl
    ensures !w.directMlSelected && w.ncnnSelected ==> b == Ncnn
    ensures !w.directMlSelected && !w.ncnnSelected ==> b == TensorRt
  {
    if w.directMlSelected then DirectMl else if w.ncnnSelected then Ncnn else TensorRt
  }

  predicate ExactlyOneBackend(w: Workflow) {
    (if w.tensorRtSelected then 1 else 0) + (if w.directMlSelected then 1 else 0)
      + (if w.ncnnSelected then 1 else 0) == 1
  }

  predicate ShowTensorRtEngineSettings(w: Workflow) { w.showAdvancedSettings && w.tensorRtSelected }

  predicate EnableFinalResizeFactor(w: Workflow) { w.finalResizeHeight == 0 }

  // ---------------------------------------------------------------------------
  // Setters

  /** SetFfmpegX265 / SetFfmpegX264 / SetFfmpegHevcNvenc / SetFfmpegLossless. */
  function SetCodec(w: Workflow, c: Codec): (r: Workflow)
    ensures forall d :: FfmpegSelected(r, d) <==> d == c
    ensures CodecOf(r) == Some(c)
    ensures r.(ffmpegVideoSettings := w.ffmpegVideoSettings) == w
  {
    var r := w.(ffmpegVideoSettings := CodecSettings(c));
    forall d ensures FfmpegSelected(r, d) <==> d == c {
      CodecSettingsInjective(d, c);
    }
    CodecOfSettings(c);
    r
  }

  /** SetDynamicEngine / SetStaticEngine / SetStaticOnnx / SetStaticBf16Engine. */
  function SetEnginePreset(w: Workflow, p: EnginePreset): (r: Workflow)
    ensures forall q :: EngineSelected(r, q) <==> q == p
    ensures r.(tensorRtEngineSettings := w.tensorRtEngineSettings) == w
  {
    var r := w.(tensorRtEngineSettings := EngineSettings(p));
    forall q ensures EngineSelected(r, q) <==> q == p {
      EngineSettingsInjective(q, p);
    }
    r
  }

  /** SetTensorRtSelected / SetDirectMlSelected / SetNcnnSelected: the chosen
      flag on, the other two off. */
  function SetBackend(w: Workflow, b: Backend): (r: Workflow)
    ensures ExactlyOneBackend(r) && BackendOf(r) == b
    ensures r.tensorRtSelected <==> b == TensorRt
    ensures r.(tensorRtSelected := w.tensorRtSelected, directMlSelected := w.directMlSelected,
      ncnnSelected := w.ncnnSelected) == w
  {
    w.(tensorRtSelected := b == TensorRt, directMlSelected := b == DirectMl, ncnnSelected := b == Ncnn)
  }

  /** SetTensorRtEngineSettingsAutoYes / SetTensorRtEngineSettingsAutoNo:
      only the flag changes; the chosen preset is kept for when it is
      switched back off. */
  function SetEngineSettingsAuto(w: Workflow, auto: bool): (r: Workflow)
    ensures r.tensorRtEngineSettingsAuto == auto
    ensures r.tensorRtEngineSettings == w.tensorRtEngineSettings
    ensures r.(tensorRtEngineSettingsAuto := w.tensorRtEngineSettingsAuto) == w
  {
    w.(tensorRtEngineSettingsAuto := auto)
  }

  /** The FinalResizeHeight setter stores `value ?? 0`. */
  function SetFinalResizeHeight(w: Workflow, value: Option<int>): (r: Workflow)
    ensures r.finalResizeHeight == (if value.Some? then value.value else 0)
    ensures EnableFinalResizeFactor(r) <==> value.None? || value.value == 0
    ensures r.(finalResizeHeight := w.finalResizeHeight) == w
  {
    w.(finalResizeHeight := if value.Some? then value.value else 0)
  }

  /** The FinalResizeFactor setter stores `value ?? 100`; a cleared field
      means "no resize". */
  function SetFinalResizeFactor(w: Workflow, value: Option<int>): (r: Workflow)
    ensures value.None? ==> r.finalResizeFactor == 100
    ensures value.Some? ==> r.finalResizeFactor == value.value
    ensures r.(finalResizeFactor := w.finalResizeFactor) == w
  {
    w.(finalResizeFactor := if value.Some? then value.value else 100)
  }

  /** The RifeFactorNumerator setter stores `value ?? 2`. */
  function SetRifeFactorNumerator(w: Workflow, value: Option<int>): (r: Workflow)
    ensures value.None? ==> r.rifeFactorNumerator == 2
    ensures value.Some? ==> r.rifeFactorNumerator == value.value
    ensures r.(rifeFactorNumerator := w.rifeFactorNumerator) == w
  {
    w.(rifeFactorNumerator := if value.Some? then value.value else 2)
  }

  /** The RifeFactorDenominator setter stores `value ?? 1`. */
  function SetRifeFactorDenominator(w: Workflow, value: Option<int>): (r: Workflow)
    ensures value.None? ==> r.rifeFactorDenominator == 1
    ensures value.Some? ==> r.rifeFactorDenominator == value.value
    ensures r.(rifeFactorDenominator := w.rifeFactorDenominator) == w
  {
    w.(rifeFactorDenominator := if value.Some? then value.value else 1)
  }

  /** RaiseAndSetIfChanged on a `decimal?` field: the stored decimal is
      replaced only when the new one differs in value. Decimal equality
      ignores the scale, so 0.15 entered over 0.150 keeps 0.150. */
  function StoreIfChanged(stored: Decimal, value: Decimal): (r: Decimal)
    ensures SameValue(r, value)
    ensures r == stored || r == value
    ensures r == value <==> stored == value || !SameValue(stored, value)
  {
    if SameValue(stored, value) then stored else value
  }

  /** The RifeSceneDetectThreshold setter stores `value ?? 0.150M` when it
      differs in value from the stored threshold. */
  function SetRifeSceneDetectThreshold(w: Workflow, value: Option<Decimal>): (r: Workflow)
    ensures var v := if value.Some? then value.value else DefaultSceneDetectThreshold;
      && SameValue(r.rifeSceneDetectThreshold, v)
      && (r.rifeSceneDetectThreshold == w.rifeSceneDetectThreshold <==> SameValue(w.rifeSceneDetectThreshold, v))
      && (!SameValue(w.rifeSceneDetectThreshold, v) ==> r.rifeSceneDetectThreshold == v)
    ensures r.(rifeSceneDetectThreshold := w.rifeSceneDetectThreshold) == w
  {
    var v := if value.Some? then value.value else DefaultSceneDetectThreshold;
    w.(rifeSceneDetectThreshold := StoreIfChanged(w.rifeSceneDetectThreshold, v))
  }

  /** Typing 0.15 over the default 0.150 leaves the workflow as it was. */
  lemma EqualThresholdKeepsScale(w: Workflow)
    requires w.rifeSceneDetectThreshold == DefaultSceneDetectThreshold
    ensures SetRifeSceneDetectThreshold(w, Some(Decimal(15, 2))) == w
    ensures SetRifeSceneDetectThreshold(w, Some(Decimal(15, 2))).rifeSceneDetectThreshold == Decimal(150, 3)
  {
    ScaleIsNotValue();
  }

  /** The ResizeHeightBeforeUpscale setter stores `value ?? 0`. */
  function SetResizeHeight(m: UpscaleModel, value: Option<int>): (r: UpscaleModel)
    ensures r.resizeHeightBeforeUpscale == (if value.Some? then value.value else 0)
    ensures EnableResizeFactor(r) <==> value.None? || value.value == 0
    ensures r.(resizeHeightBeforeUpscale := m.resizeHeightBeforeUpscale) == m
  {
    m.(resizeHeightBeforeUpscale := if value.Some? then value.value else 0)
  }

  /** The ResizeFactorBeforeUpscale setter stores `value ?? 100` when it
      differs in value from the stored factor. */
  function SetResizeFactor(m: UpscaleModel, value: Option<Decimal>): (r: UpscaleModel)
    ensures var v := if value.Some? then value.value else Decimal(100, 0);
      && SameValue(r.resizeFactorBeforeUpscale, v)
      && (r.resizeFactorBeforeUpscale == m.resizeFactorBeforeUpscale <==> SameValue(m.resizeFactorBeforeUpscale, v))
      && (!SameValue(m.resizeFactorBeforeUpscale, v) ==> r.resizeFactorBeforeUpscale == v)
    ensures r.(resizeFactorBeforeUpscale := m.resizeFactorBeforeUpscale) == m
  {
    var v := if value.Some? then value.value else Decimal(100, 0);
    m.(resizeFactorBeforeUpscale := StoreIfChanged(m.resizeFactorBeforeUpscale, v))
  }

  // ---------------------------------------------------------------------------
  // The model chain

  function Header(i: nat): string { "Model " + NatToString(i + 1) }

  /** Headers differ whenever positions differ. */
  lemma HeaderInjective(i: nat, j: nat)
    requires Header(i) == Header(j)
    ensures i == j
  {
    assert NatToString(i + 1) == Header(i)[6..] == Header(j)[6..] == NatToString(j + 1);
    NatToStringInjective(i + 1, j + 1);
  }

  /** Equal up to the header. */
  predicate SameModel(a: UpscaleModel, b: UpscaleModel) { a.(header := b.header) == b }

  /** UpdateModelHeaders: entry i gets the header "Model i+1"; nothing else changes. */
  function Renumber(ms: seq<UpscaleModel>): (r: seq<UpscaleModel>)
    ensures |r| == |ms|
    ensures forall i :: 0 <= i < |r| ==> r[i].header == Header(i) && SameModel(ms[i], r[i])
  {
    seq(|ms|, i requires 0 <= i < |ms| => ms[i].(header := Header(i)))
  }

  /** Renumbering twice is renumbering once. */
  lemma RenumberIdempotent(ms: seq<UpscaleModel>)
    ensures Renumber(Renumber(ms)) == Renumber(ms)
  {
  }

  /** AddModel: a new default model at the end, then renumbering. */
  function AddModel(w: Workflow): (r: Workflow)
    ensures |r.models| == |w.models| + 1
    ensures forall i :: 0 <= i < |r.models| ==> r.models[i].header == Header(i)
    ensures forall i :: 0 <= i < |w.models| ==> SameModel(w.models[i], r.models[i])
    ensures SameModel(NewModel(), r.models[|w.models|])
    ensures r.(models := w.models) == w
  {
    w.(models := Renumber(w.models + [NewModel()]))
  }

  /** DeleteModel: the model is identified by its position (the list holds
      distinct objects); a model not in the list removes nothing. Then
      renumbering. */
  function DeleteModel(w: Workflow, index: int): (r: Workflow)
    ensures 0 <= index < |w.models| ==> |r.models| == |w.models| - 1
    ensures !(0 <= index < |w.models|) ==> |r.models| == |w.models|
    ensures forall i :: 0 <= i < |r.models| ==> r.models[i].header == Header(i)
    ensures forall i :: 0 <= i < |r.models| ==>
      SameModel(w.models[if 0 <= index <= i then i + 1 else i], r.models[i])
    ensures r.(models := w.models) == w
  {
    var kept := if 0 <= index < |w.models| then w.models[..index] + w.models[index + 1..] else w.models;
    w.(models := Renumber(kept))
  }
}
