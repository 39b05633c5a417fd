/** The back-end script's pipeline decisions: looking up a slot's model,
    choosing the first chain whose resolution and frame-rate ranges admit the
    clip, and running a chain as a sequence of stages (resizes, one 2x
    upscale per model, the final resize, the output format conversion and
    the optional RIFE interpolation) together with the step log it writes.
    Clip sizes are whole pixels: a size computed by true division is
    truncated. VapourSynth itself is not modelled; a resize to a zero size
    is the one error it raises here. */
module ChainRun {
  import opened Common
  import EngineChoice

  // ---------------------------------------------------------------------
  // Configuration as the reader returns it

  datatype ModelConf = ModelConf(name: Option<string>, resizeFactorBeforeUpscale: nat, resizeHeightBeforeUpscale: nat)

  datatype ChainConf = ChainConf(
    models: seq<ModelConf>,
    minPx: int, maxPx: int, minFps: real, maxFps: real,
    minResolution: string, maxResolution: string,
    finalResizeHeight: nat, finalResizeFactor: nat,
    rife: bool, rifeModel: string,
    rifeFactorNumerator: int, rifeFactorDenominator: int,
    rifeEnsemble: bool, rifeSceneDetectThreshold: real)

  datatype Value = Text(text: string) | ChainValue(chain: ChainConf) | OtherValue

  /** A section keeps its keys in insertion order. */
  type Section = seq<(string, Value)>

  type Config = map<string, Section>

  /** Dictionary lookup: the value stored under `key`, if any. */
  function Lookup(section: Section, key: string): (r: Option<Value>)
    ensures r.Some? ==> (key, r.value) in section
    ensures r.None? ==> forall i :: 0 <= i < |section| ==> section[i].0 != key
    decreases |section|
  {
    if section == [] then None
    else if section[0].0 == key then Some(section[0].1)
    else
      var r := Lookup(section[1..], key);
      assert forall i :: 1 <= i < |section| ==> section[i] == section[1..][i - 1];
      r
  }

  function SlotKey(binding: nat): string { "slot_" + NatToString(binding) }

  function ModelKey(modelType: string): string { ToLower(modelType) + "_model" }

  /** find_model: the `hd_model` / `sd_model` entry of a slot, if both the
      slot and the entry exist. */
  function FindModel(config: Config, modelType: string, binding: nat): (r: Option<Value>)
    ensures r.Some? ==> SlotKey(binding) in config && (ModelKey(modelType), r.value) in config[SlotKey(binding)]
    ensures r.None? ==> SlotKey(binding) !in config || Lookup(config[SlotKey(binding)], ModelKey(modelType)).None?
  {
    if SlotKey(binding) in config then Lookup(config[SlotKey(binding)], ModelKey(modelType))
    else None
  }

  /** The model type is matched without regard to case. */
  lemma FindModelIgnoresCase(config: Config, t1: string, t2: string, binding: nat)
    requires EqualsIgnoreCase(t1, t2)
    ensures FindModel(config, t1, binding) == FindModel(config, t2, binding)
  {
  }

  // ---------------------------------------------------------------------
  // Running one chain

  datatype Format =
    | YUV410P8 | YUV411P8 | YUV420P8 | YUV422P8 | YUV444P8
    | YUV420P10 | YUV422P10 | YUV444P10
    | RGBH | RGBS | OtherFormat(id: int)

  datatype Clip = Clip(width: nat, height: nat, format: Format)

  /** The eight YUV formats the output keeps. */
  predicate Kept(f: Format) {
    f.YUV410P8? || f.YUV411P8? || f.YUV420P8? || f.YUV422P8? || f.YUV444P8?
    || f.YUV420P10? || f.YUV422P10? || f.YUV444P10?
  }

  /** After models ran, the input format if it is kept, else YUV420P10. */
  function OutputFormat(input: Format): (r: Format)
    ensures Kept(r)
    ensures Kept(input) ==> r == input
    ensures !Kept(input) ==> r == YUV420P10
  {
    if Kept(input) then input else YUV420P10
  }

  /** The stages the script adds to the VapourSynth graph. */
  datatype Stage =
    | PreResize(factor: nat, width: nat, height: nat)
    | HeightResize(width: nat, height: nat)
    | Upscale(upscaled: EngineChoice.Upscaled)
    | FinalResize(width: nat, height: nat)
    | Convert(format: Format, colorspace: string, fullRange: bool)
    | Interpolate(model: string, fpsIn: real, fpsNum: int, fpsDen: int, tta: bool,
                  sceneDetectThreshold: real, tensorrt: bool)

  /** The numbered steps the current-run log lists. */
  datatype Step =
    | FactorStep(factor: nat, width: nat, height: nat)
    | HeightStep(height: nat, width: nat, height2: nat)
    | ModelStep(name: Option<string>, width: nat, height: nat)
    | RifeStep(fps: real)

  datatype RunFailure =
    | ZeroSize                          // VapourSynth rejects a resize to zero pixels
    | NoClipAfter(name: Option<string>) // upscale2x returned None; the log line then fails on it
    | EngineBuildExit                   // exit(1) after a failed engine build

  datatype Pass = Pass(clip: Clip, stages: seq<Stage>, steps: seq<Step>)

  /** The resize factor applied before a model: 100 whenever a resize
      height is configured. */
  function FactorBeforeUpscale(m: ModelConf): nat
  {
    if m.resizeHeightBeforeUpscale != 0 then 100 else m.resizeFactorBeforeUpscale
  }

  function Scale(d: nat, factor: nat): nat { MulDiv(d, factor, 100) }

  /** a * b / c, truncated. */
  function MulDiv(a: nat, b: nat, c: nat): nat
    requires c > 0
  {
    var p: nat := a * b;
    p / c
  }

  /** scale_to_1080: fit to the target width when the clip is wider than
      16:9, else to the target height, keeping the aspect ratio. */
  function ScaleTo1080(width: nat, height: nat, w: nat, h: nat): (nat, nat)
    requires width > 0 && height > 0
  {
    if 9 * width > 16 * height then (w, MulDiv(w, height, width)) else (MulDiv(h, width, height), h)
  }

  /** Resize-height-before-upscale, then the 2x upscale. */
  function UpscaleModel(world: EngineChoice.World, clip: Clip, backend: string, m: ModelConf, streams: nat): (r: Result<Pass, RunFailure>)
    requires clip.width > 0 && clip.height > 0
  {
    var rh := m.resizeHeightBeforeUpscale;
    var (w, h) := if rh != 0 && rh != clip.height then ScaleTo1080(clip.width, clip.height, rh * 16 / 9, rh)
                  else (clip.width, clip.height);
    var resized := if rh != 0 && rh != clip.height then [HeightResize(w, h)] else [];
    var logged := if rh != 0 && rh != clip.height then [HeightStep(rh, w, h)] else [];
    if w == 0 || h == 0 then Err(ZeroSize)
    else
      var u := EngineChoice.Upscale2x(world, w, h, backend, m.name, streams);
      match u
      case NoClip => Err(NoClipAfter(m.name))
      case Exited => Err(EngineBuildExit)
      case Passthrough => Ok(Pass(clip.(width := w, height := h), resized + [Upscale(u)], logged))
      case Applied(_) => Ok(Pass(clip.(width := 2 * w, height := 2 * h), resized + [Upscale(u)], logged))
  }

  /** One model of the chain: the RGBH resize by the factor before upscale
      (logged when it is not 100), the upscale, and the model's log line. */
  function ModelPass(world: EngineChoice.World, clip: Clip, backend: string, m: ModelConf, streams: nat): (r: Result<Pass, RunFailure>)
  {
    var f := FactorBeforeUpscale(m);
    var w := Scale(clip.width, f);
    var h := Scale(clip.height, f);
    if w == 0 || h == 0 then Err(ZeroSize)
    else
      var pre := [PreResize(f, w, h)];
      var logged := if f != 100 then [FactorStep(f, w, h)] else [];
      match UpscaleModel(world, Clip(w, h, RGBH), backend, m, streams)
      case Err(e) => Err(e)
      case Ok(p) =>
        Ok(Pass(p.clip, pre + p.stages, logged + p.steps + [ModelStep(m.name, p.clip.width, p.clip.height)]))
  }

  function RunModels(world: EngineChoice.World, clip: Clip, backend: string, models: seq<ModelConf>, streams: nat): (r: Result<Pass, RunFailure>)
    decreases |models|
  {
    if models == [] then Ok(Pass(clip, [], []))
    else
      match ModelPass(world, clip, backend, models[0], streams)
      case Err(e) => Err(e)
      case Ok(p) =>
        match RunModels(world, p.clip, backend, models[1..], streams)
        case Err(e) => Err(e)
        case Ok(rest) => Ok(Pass(rest.clip, p.stages + rest.stages, p.steps + rest.steps))
  }

  datatype FinalChoice = ToHeight(height: nat) | ByFactor(factor: nat) | Keep

  /** The final resize: to a height when one is configured and differs from
      the clip's, otherwise by a factor when it is not 100. */
  function FinalResizeChoice(chain: ChainConf, height: nat): (r: FinalChoice)
    ensures r.ToHeight? <==> chain.finalResizeHeight != 0 && chain.finalResizeHeight != height
    ensures r.ByFactor? <==> !r.ToHeight? && chain.finalResizeFactor != 100
    ensures r.ToHeight? ==> r.height == chain.finalResizeHeight
    ensures r.ByFactor? ==> r.factor == chain.finalResizeFactor
  {
    if chain.finalResizeHeight != 0 && chain.finalResizeHeight != height then ToHeight(chain.finalResizeHeight)
    else if chain.finalResizeFactor != 100 then ByFactor(chain.finalResizeFactor)
    else Keep
  }

  function Colorspace(chain: ChainConf, clip: Clip): string
  {
    if |chain.models| > 0 && clip.height < 720 then "170m" else "709"
  }

  /** The frame's `_ColorRange` property, 1 when the frame has none. */
  function ColorLevel(colorRange: Option<int>): int
  {
    if colorRange.Some? then colorRange.value else 1
  }

  datatype Output = Output(clip: Clip, stages: seq<Stage>, steps: seq<Step>)

  /** The RIFE call: the chain's model, factor, ensemble flag and scene
      threshold, interpolating from the container's frame rate, built for
      TensorRT exactly when that is the back end. */
  function RifeStage(chain: ChainConf, fps: real, backend: string): Stage
  {
    Interpolate(chain.rifeModel, fps, chain.rifeFactorNumerator, chain.rifeFactorDenominator,
                chain.rifeEnsemble, chain.rifeSceneDetectThreshold, ToLower(backend) == "tensorrt")
  }

  /** run_animejanai for one chain; `fps` is the container's frame rate. */
  function RunChain(world: EngineChoice.World, clip: Clip, fps: real, chain: ChainConf, backend: string, colorRange: Option<int>): (r: Result<Output, RunFailure>)
  {
    var colorspace := Colorspace(chain, clip);
    var models := if |chain.models| > 0 then RunModels(world, clip, backend, chain.models, EngineChoice.NumStreams(|chain.models|))
                  else Ok(Pass(clip, [], []));
    match models
    case Err(e) => Err(e)
    case Ok(p) =>
      var c := p.clip;
      var choice := FinalResizeChoice(chain, c.height);
      var (w, h) := match choice
        case ToHeight(fh) => if c.width > 0 && c.height > 0 then ScaleTo1080(c.width, c.height, MulDiv(fh, c.width, c.height), fh) else (0, 0)
        case ByFactor(f) => (Scale(c.width, f), Scale(c.height, f))
        case Keep => (c.width, c.height);
      if w == 0 || h == 0 then Err(ZeroSize)
      else
        var resized := if choice.Keep? then [] else [FinalResize(w, h)];
        var converted := if |chain.models| > 0 then [Convert(OutputFormat(clip.format), colorspace, ColorLevel(colorRange) == 0)] else [];
        var format := if |chain.models| > 0 then OutputFormat(clip.format) else c.format;
        var rife := if chain.rife then [RifeStage(chain, fps, backend)] else [];
        Ok(Output(Clip(w, h, format), p.stages + resized + converted + rife, p.steps + (if chain.rife then [RifeStep(fps * 2.0)] else [])))
  }

  // ---------------------------------------------------------------------
  // Views of a run

  /** The model names the step log lists, in order. */
  function ModelNames(steps: seq<Step>): seq<Option<string>>
  {
    if steps == [] then [] else (if steps[0].ModelStep? then [steps[0].name] else []) + ModelNames(steps[1..])
  }

  /** The frame rates the log's RIFE steps report, in order. */
  function Rifes(steps: seq<Step>): seq<real>
  {
    if steps == [] then [] else (if steps[0].RifeStep? then [steps[0].fps] else []) + Rifes(steps[1..])
  }

  /** The upscales of the graph, in order. */
  function Upscales(stages: seq<Stage>): seq<EngineChoice.Upscaled>
  {
    if stages == [] then [] else (if stages[0].Upscale? then [stages[0].upscaled] else []) + Upscales(stages[1..])
  }

  function Names(models: seq<ModelConf>): (r: seq<Option<string>>)
    ensures |r| == |models|
    ensures forall i :: 0 <= i < |models| ==> r[i] == models[i].name
  {
    if models == [] then [] else [models[0].name] + Names(models[1..])
  }

  lemma {:induction false} ModelNamesAppend(a: seq<Step>, b: seq<Step>)
    ensures ModelNames(a + b) == ModelNames(a) + ModelNames(b)
    decreases |a|
  {
    if a == [] {
      assert a + b == b;
    } else {
      assert (a + b)[0] == a[0];
      assert (a + b)[1..] == a[1..] + b;
      ModelNamesAppend(a[1..], b);
    }
  }

  lemma {:induction false} RifesAppend(a: seq<Step>, b: seq<Step>)
    ensures Rifes(a + b) == Rifes(a) + Rifes(b)
    decreases |a|
  {
    if a == [] {
      assert a + b == b;
    } else {
      assert (a + b)[0] == a[0];
      assert (a + b)[1..] == a[1..] + b;
      RifesAppend(a[1..], b);
    }
  }

  lemma {:induction false} UpscalesAppend(a: seq<Stage>, b: seq<Stage>)
    ensures Upscales(a + b) == Upscales(a) + Upscales(b)
    decreases |a|
  {
    if a == [] {
      assert a + b == b;
    } else {
      assert (a + b)[0] == a[0];
      assert (a + b)[1..] == a[1..] + b;
      UpscalesAppend(a[1..], b);
    }
  }

  /** Every TensorRT engine among the upscales runs with `streams` streams. */
  predicate StreamsAre(us: seq<EngineChoice.Upscaled>, streams: nat) {
    forall u :: u in us && u.Applied? && (u.engine.TrtStatic? || u.engine.TrtDynamic?) ==> u.engine.numStreams == streams
  }

  /** A pass's log names exactly `names`, in order, and has no RIFE step; its
      graph holds `count` upscales, each TensorRT one with `streams` streams. */
  predicate Summarized(p: Pass, names: seq<Option<string>>, count: nat, streams: nat) {
    && ModelNames(p.steps) == names && Rifes(p.steps) == []
    && |Upscales(p.stages)| == count && StreamsAre(Upscales(p.stages), streams)
  }

  lemma SummarizedAppend(p: Pass, q: Pass, n1: seq<Option<string>>, c1: nat, n2: seq<Option<string>>, c2: nat, streams: nat)
    requires Summarized(p, n1, c1, streams) && Summarized(q, n2, c2, streams)
    ensures Summarized(Pass(q.clip, p.stages + q.stages, p.steps + q.steps), n1 + n2, c1 + c2, streams)
  {
    ModelNamesAppend(p.steps, q.steps);
    RifesAppend(p.steps, q.steps);
    UpscalesAppend(p.stages, q.stages);
  }

  lemma UpscaleModelFacts(world: EngineChoice.World, clip: Clip, backend: string, m: ModelConf, streams: nat)
    requires clip.width > 0 && clip.height > 0
    requires UpscaleModel(world, clip, backend, m, streams).Ok?
    ensures var p := UpscaleModel(world, clip, backend, m, streams).value;
            && ModelNames(p.steps) == [] && Rifes(p.steps) == []
            && |Upscales(p.stages)| == 1 && StreamsAre(Upscales(p.stages), streams)
            && (p.steps != [] <==> m.resizeHeightBeforeUpscale != 0 && m.resizeHeightBeforeUpscale != clip.height)
  {
    var p := UpscaleModel(world, clip, backend, m, streams).value;
    var u := p.stages[|p.stages| - 1].upscaled;
    UpscalesAppend(p.stages[..|p.stages| - 1], [Upscale(u)]);
    assert p.stages == p.stages[..|p.stages| - 1] + [Upscale(u)];
  }

  /** One model: the factor before upscale is 100 whenever a resize height is
      configured, a factor step is logged exactly when that factor is not
      100, the pass ends with the model's log line, and it adds exactly one
      upscale, with the chain's stream count. */
  lemma ModelPassFacts(world: EngineChoice.World, clip: Clip, backend: string, m: ModelConf, streams: nat)
    requires ModelPass(world, clip, backend, m, streams).Ok?
    ensures var p := ModelPass(world, clip, backend, m, streams).value;
            && |p.stages| > 0 && p.stages[0].PreResize?
            && (m.resizeHeightBeforeUpscale != 0 ==> p.stages[0].factor == 100)
            && (m.resizeHeightBeforeUpscale == 0 ==> p.stages[0].factor == m.resizeFactorBeforeUpscale)
            && (p.steps[0].FactorStep? <==> p.stages[0].factor != 100)
            && p.steps[|p.steps| - 1] == ModelStep(m.name, p.clip.width, p.clip.height)
            && Summarized(p, [m.name], 1, streams)
  {
    var f := FactorBeforeUpscale(m);
    var c := Clip(Scale(clip.width, f), Scale(clip.height, f), RGBH);
    UpscaleModelFacts(world, c, backend, m, streams);
    var q := UpscaleModel(world, c, backend, m, streams).value;
    var logged: seq<Step> := if f != 100 then [FactorStep(f, c.width, c.height)] else [];
    var last := [ModelStep(m.name, q.clip.width, q.clip.height)];
    ModelNamesAppend(logged, q.steps);
    ModelNamesAppend(logged + q.steps, last);
    RifesAppend(logged, q.steps);
    RifesAppend(logged + q.steps, last);
    UpscalesAppend([PreResize(f, c.width, c.height)], q.stages);
    assert q.steps != [] ==> q.steps[0].HeightStep?;
  }

  /** All models, in order: the log names each model once, in chain order,
      and the graph holds one upscale per model. */
  lemma {:induction false} RunModelsFacts(world: EngineChoice.World, clip: Clip, backend: string, models: seq<ModelConf>, streams: nat)
    requires RunModels(world, clip, backend, models, streams).Ok?
    ensures Summarized(RunModels(world, clip, backend, models, streams).value, Names(models), |models|, streams)
    decreases |models|
  {
    if models != [] {
      ModelPassFacts(world, clip, backend, models[0], streams);
      var p := ModelPass(world, clip, backend, models[0], streams).value;
      RunModelsFacts(world, p.clip, backend, models[1..], streams);
      var rest := RunModels(world, p.clip, backend, models[1..], streams).value;
      SummarizedAppend(p, rest, [models[0].name], 1, Names(models[1..]), |models| - 1, streams);
    }
  }

  lemma {:induction false} NoConvertInModels(world: EngineChoice.World, clip: Clip, backend: string, models: seq<ModelConf>, streams: nat)
    requires RunModels(world, clip, backend, models, streams).Ok?
    ensures forall s :: s in RunModels(world, clip, backend, models, streams).value.stages ==> !s.Convert? && !s.Interpolate?
    decreases |models|
  {
    if models != [] {
      var p := ModelPass(world, clip, backend, models[0], streams).value;
      NoConvertInModels(world, p.clip, backend, models[1..], streams);
    }
  }

  /** The RIFE part of a chain run: the log's only RIFE step reports twice
      the container's frame rate whatever the configured factor, and RIFE is
      the graph's last stage, called with the chain's model, factor, ensemble
      flag and scene threshold on the container's frame rate, built for
      TensorRT exactly when that is the back end. Without RIFE neither
      appears. */
  lemma RunChainRife(world: EngineChoice.World, clip: Clip, fps: real, chain: ChainConf, backend: string, colorRange: Option<int>)
    requires RunChain(world, clip, fps, chain, backend, colorRange).Ok?
    ensures var out := RunChain(world, clip, fps, chain, backend, colorRange).value;
            && Rifes(out.steps) == (if chain.rife then [fps * 2.0] else [])
            && (chain.rife ==> var last := out.stages[|out.stages| - 1];
                  && last.Interpolate? && last.model == chain.rifeModel && last.fpsIn == fps
                  && last.fpsNum == chain.rifeFactorNumerator && last.fpsDen == chain.rifeFactorDenominator
                  && last.tta == chain.rifeEnsemble && last.sceneDetectThreshold == chain.rifeSceneDetectThreshold
                  && (last.tensorrt <==> ToLower(backend) == "tensorrt"))
            && (!chain.rife ==> forall s :: s in out.stages ==> !s.Interpolate?)
  {
    var out := RunChain(world, clip, fps, chain, backend, colorRange).value;
    var tail := if chain.rife then [RifeStep(fps * 2.0)] else [];
    if |chain.models| > 0 {
      var streams := EngineChoice.NumStreams(|chain.models|);
      RunModelsFacts(world, clip, backend, chain.models, streams);
      NoConvertInModels(world, clip, backend, chain.models, streams);
      var p := RunModels(world, clip, backend, chain.models, streams).value;
      RifesAppend(p.steps, tail);
    } else {
      assert Rifes(out.steps) == Rifes(tail);
    }
  }

  /** A chain run: with models, the output is converted to a kept format
      (the input's own if it is one); without, no conversion happens and the
      format is unchanged. The log names each model in order. The RIFE
      facts are those of `RunChainRife`. */
  lemma RunChainFacts(world: EngineChoice.World, clip: Clip, fps: real, chain: ChainConf, backend: string, colorRange: Option<int>)
    requires RunChain(world, clip, fps, chain, backend, colorRange).Ok?
    ensures var out := RunChain(world, clip, fps, chain, backend, colorRange).value;
            && (|chain.models| > 0 ==>
                  (&& out.clip.format == OutputFormat(clip.format) && Kept(out.clip.format)
                   && Convert(OutputFormat(clip.format), Colorspace(chain, clip), ColorLevel(colorRange) == 0) in out.stages))
            && (|chain.models| == 0 ==> out.clip.format == clip.format && forall s :: s in out.stages ==> !s.Convert?)
            && ModelNames(out.steps) == Names(chain.models)
  {
    var out := RunChain(world, clip, fps, chain, backend, colorRange).value;
    if |chain.models| > 0 {
      var streams := EngineChoice.NumStreams(|chain.models|);
      RunModelsFacts(world, clip, backend, chain.models, streams);
      NoConvertInModels(world, clip, backend, chain.models, streams);
      var p := RunModels(world, clip, backend, chain.models, streams).value;
      ModelNamesAppend(p.steps, if chain.rife then [RifeStep(fps * 2.0)] else []);
    } else {
      assert ModelNames(out.steps) == [];
    }
  }

  /** A chain with models runs one upscale per model, each with
      `NumStreams(|models|)` TensorRT streams: four divided by the count up
      to four models, one each beyond. */
  lemma RunChainStreams(world: EngineChoice.World, clip: Clip, fps: real, chain: ChainConf, backend: string, colorRange: Option<int>)
    requires RunChain(world, clip, fps, chain, backend, colorRange).Ok? && |chain.models| > 0
    ensures var out := RunChain(world, clip, fps, chain, backend, colorRange).value;
            && |Upscales(out.stages)| == |chain.models|
            && StreamsAre(Upscales(out.stages), EngineChoice.NumStreams(|chain.models|))
  {
    var streams := EngineChoice.NumStreams(|chain.models|);
    RunModelsFacts(world, clip, backend, chain.models, streams);
    NoConvertInModels(world, clip, backend, chain.models, streams);
    var p := RunModels(world, clip, backend, chain.models, streams).value;
    var out := RunChain(world, clip, fps, chain, backend, colorRange).value;
    var tail := out.stages[|p.stages|..];
    assert out.stages == p.stages + tail;
    assert forall s :: s in tail ==> !s.Upscale?;
    UpscalesAppend(p.stages, tail);
    NoUpscales(tail);
  }

  lemma {:induction false} NoUpscales(stages: seq<Stage>)
    requires forall s :: s in stages ==> !s.Upscale?
    ensures Upscales(stages) == []
    decreases |stages|
  {
    if stages != [] {
      NoUpscales(stages[1..]);
    }
  }

  // ---------------------------------------------------------------------
  // Choosing a chain

  predicate IsChainKey(key: string) { Contains(key, "chain_") }

  /** The chain's pixel-count and frame-rate ranges, bounds included. */
  predicate Admits(c: ChainConf, width: nat, height: nat, fps: real) {
    c.minPx <= width * height <= c.maxPx && c.minFps <= fps <= c.maxFps
  }

  /** An entry the scan passes over: not a chain key, or a chain that does
      not admit the clip. */
  predicate Passed(e: (string, Value), width: nat, height: nat, fps: real) {
    !IsChainKey(e.0) || (e.1.ChainValue? && !Admits(e.1.chain, width, height, fps))
  }

  predicate Chosen(e: (string, Value), width: nat, height: nat, fps: real) {
    IsChainKey(e.0) && e.1.ChainValue? && Admits(e.1.chain, width, height, fps)
  }

  /** A chain key whose value is not a chain makes the range test fail. */
  datatype SelectError = MalformedChain(key: string)

  /** The first entry from `from` on that is an admitting chain. */
  function SelectChain(section: Section, width: nat, height: nat, fps: real, from: nat): (r: Result<Option<nat>, SelectError>)
    requires from <= |section|
    ensures r.Ok? && r.value.Some? ==>
              && from <= r.value.value < |section| && Chosen(section[r.value.value], width, height, fps)
              && forall j :: from <= j < r.value.value ==> Passed(section[j], width, height, fps)
    ensures r.Ok? && r.value.None? ==> forall j :: from <= j < |section| ==> Passed(section[j], width, height, fps)
    ensures r.Err? ==> exists j :: from <= j < |section| && IsChainKey(section[j].0) && !section[j].1.ChainValue? && r.error == MalformedChain(section[j].0)
    decreases |section| - from
  {
    if from == |section| then Ok(None)
    else
      var (key, value) := section[from];
      if !IsChainKey(key) then SelectChain(section, width, height, fps, from + 1)
      else if !value.ChainValue? then Err(MalformedChain(key))
      else if Admits(value.chain, width, height, fps) then Ok(Some(from))
      else SelectChain(section, width, height, fps, from + 1)
  }

  // ---------------------------------------------------------------------
  // run_animejanai_with_keybinding

  /** The information lines of the current-run log. The profile line carries
      the key-binding prefix when the binding is below 10. */
  datatype Info =
    | ProfileInfo(prefix: Option<nat>, profile: Value)
    | OriginalInfo(width: nat, height: nat, fps: real)
    | ActiveChainInfo(chain: string, minResolution: string, maxResolution: string, minFps: real, maxFps: real)
    | NoChainsActivated

  datatype KeyError =
    | MissingLogging
    | MissingSlot(slot: string)
    | MissingProfileName
    | MissingBackend
    | BadChain(e: SelectError)
    | RunFailed(f: RunFailure)

  /** The log lines and, when a chain ran, its output; without one the clip
      is output unchanged. */
  datatype Activation = Activation(info: seq<Info>, output: Option<Output>)

  function Backend(config: Config): Option<string>
  {
    if "global" in config then
      match Lookup(config["global"], "backend")
      case Some(Text(b)) => Some(b)
      case _ => None
    else None
  }

  /** init reads `logging` from the global section before anything else;
      whether it is set only decides whether the debug logger starts. */
  predicate HasLogging(config: Config)
  {
    "global" in config && Lookup(config["global"], "logging").Some?
  }

  /** run_animejanai_with_keybinding, with `config` the file as init reads it
      afresh. */
  function RunWithKeybinding(config: Config, world: EngineChoice.World, clip: Clip, fps: real, binding: nat, colorRange: Option<int>): (r: Result<Activation, KeyError>)
  {
    var slot := SlotKey(binding);
    if !HasLogging(config) then Err(MissingLogging)
    else if slot !in config then Err(MissingSlot(slot))
    else
      var section := config[slot];
      match Lookup(section, "profile_name")
      case None => Err(MissingProfileName)
      case Some(profile) =>
        var head := [ProfileInfo(if binding < 10 then Some(binding) else None, profile), OriginalInfo(clip.width, clip.height, fps)];
        match SelectChain(section, clip.width, clip.height, fps, 0)
        case Err(e) => Err(BadChain(e))
        case Ok(None) => Ok(Activation(head + [NoChainsActivated], None))
        case Ok(Some(i)) =>
          var (key, value) := section[i];
          var c := value.chain;
          var info := head + [ActiveChainInfo(ReplaceAll(key, "chain_", ""), c.minResolution, c.maxResolution, c.minFps, c.maxFps)];
          RunActive(config, world, clip, fps, c, colorRange, info)
  }

  /** The active chain runs with the back end of the global section. */
  function RunActive(config: Config, world: EngineChoice.World, clip: Clip, fps: real, c: ChainConf, colorRange: Option<int>, info: seq<Info>): (r: Result<Activation, KeyError>)
    ensures r.Ok? ==> r.value.info == info && r.value.output.Some? && Backend(config).Some?
    ensures r.Ok? ==> RunChain(world, clip, fps, c, Backend(config).value, colorRange) == Ok(r.value.output.value)
    ensures r.Err? ==> r.error == MissingBackend || r.error.RunFailed?
  {
    match Backend(config)
    case None => Err(MissingBackend)
    case Some(backend) =>
      match RunChain(world, clip, fps, c, backend, colorRange)
      case Err(f) => Err(RunFailed(f))
      case Ok(out) => Ok(Activation(info, Some(out)))
  }

  /** Without `logging` in the global section init fails before the slot is
      read, so nothing is logged or run; that is the only way to get this
      error. */
  lemma KeybindingNeedsLogging(config: Config, world: EngineChoice.World, clip: Clip, fps: real, binding: nat, colorRange: Option<int>)
    ensures RunWithKeybinding(config, world, clip, fps, binding, colorRange) == Err(MissingLogging) <==> !HasLogging(config)
  {
  }

  /** A slot with a profile name but no global section: the run stops at
      init, where a run that skipped it would log "No Chains Activated". */
  lemma SlotWithoutGlobalFails(world: EngineChoice.World, clip: Clip, fps: real, colorRange: Option<int>)
    ensures var config := map["slot_1" := [("profile_name", Text("Default"))]];
            RunWithKeybinding(config, world, clip, fps, 1, colorRange) == Err(MissingLogging)
  {
  }

  /** The log opens with the profile line, prefixed with the key binding
      exactly when it is below 10, and the clip's original size and rate;
      the third line names the active chain or says none was activated.
      Any logged run found `logging` and the slot. */
  lemma KeybindingLog(config: Config, world: EngineChoice.World, clip: Clip, fps: real, binding: nat, colorRange: Option<int>)
    requires RunWithKeybinding(config, world, clip, fps, binding, colorRange).Ok?
    ensures HasLogging(config) && SlotKey(binding) in config
    ensures var a := RunWithKeybinding(config, world, clip, fps, binding, colorRange).value;
            && |a.info| == 3
            && a.info[0].ProfileInfo? && (a.info[0].prefix.Some? <==> binding < 10)
            && a.info[1] == OriginalInfo(clip.width, clip.height, fps)
            && (a.output.None? <==> a.info[2] == NoChainsActivated)
  {
  }

  /** When no chain of the slot admits the clip, nothing runs. */
  lemma KeybindingWithoutChain(config: Config, world: EngineChoice.World, clip: Clip, fps: real, binding: nat, colorRange: Option<int>)
    requires RunWithKeybinding(config, world, clip, fps, binding, colorRange).Ok?
    requires RunWithKeybinding(config, world, clip, fps, binding, colorRange).value.output.None?
    ensures SlotKey(binding) in config
    ensures var section := config[SlotKey(binding)];
            forall j :: 0 <= j < |section| ==> Passed(section[j], clip.width, clip.height, fps)
  {
  }

  /** When a chain runs, it is the slot's first chain that admits the clip,
      run with the configured back end. */
  lemma KeybindingRunsFirstAdmittingChain(config: Config, world: EngineChoice.World, clip: Clip, fps: real, binding: nat, colorRange: Option<int>)
    requires RunWithKeybinding(config, world, clip, fps, binding, colorRange).Ok?
    requires RunWithKeybinding(config, world, clip, fps, binding, colorRange).value.output.Some?
    ensures SlotKey(binding) in config && Backend(config).Some?
    ensures var section := config[SlotKey(binding)];
            var out := RunWithKeybinding(config, world, clip, fps, binding, colorRange).value.output.value;
            exists i :: (&& 0 <= i < |section| && Chosen(section[i], clip.width, clip.height, fps)
                         && (forall j :: 0 <= j < i ==> Passed(section[j], clip.width, clip.height, fps))
                         && RunChain(world, clip, fps, section[i].1.chain, Backend(config).value, colorRange) == Ok(out))
  {
    var section := config[SlotKey(binding)];
    var i := SelectChain(section, clip.width, clip.height, fps, 0).value.value;
    assert Chosen(section[i], clip.width, clip.height, fps);
  }
}
