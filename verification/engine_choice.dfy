/** The back-end script's engine handling: where a model's TensorRT engines
    live, and which engine a 2x upscale uses for a clip of a given size. The
    filesystem is the set of existing files; whether trtexec produces a
    dynamic engine and whether the TensorRT plugin accepts it are inputs. */
module EngineChoice {
  import opened Common
  import Paths

  /** The models directory: `..\onnx` next to the script's directory. */
  function ModelPath(scriptDir: string): string
  {
    Paths.Combine(scriptDir, "..\\onnx")
  }

  function OnnxName(name: string): string { name + ".onnx" }

  function DynamicEngineName(name: string): string { name + ".engine" }

  function StaticEngineName(name: string, width: nat, height: nat): string
  {
    name + "-static-" + NatToString(width) + "x" + NatToString(height) + ".engine"
  }

  function OnnxPath(modelPath: string, name: string): string
  {
    Paths.Combine(modelPath, OnnxName(name))
  }

  function DynamicEnginePath(modelPath: string, name: string): string
  {
    Paths.Combine(modelPath, DynamicEngineName(name))
  }

  function StaticEnginePath(modelPath: string, name: string, width: nat, height: nat): string
  {
    Paths.Combine(modelPath, StaticEngineName(name, width, height))
  }

  /** Clips up to 1920x1080 may use the dynamic-shape engine. */
  predicate UseDynamicEngine(width: nat, height: nat) {
    width <= 1920 && height <= 1080
  }

  // ---------------------------------------------------------------------
  // Engine file names

  /** `a + "x" + b` splits back into its two digit strings. */
  lemma {:induction false} DimensionsSplit(a: string, b: string, c: string, d: string)
    requires AllDigits(a) && AllDigits(b) && AllDigits(c) && AllDigits(d)
    requires a + "x" + b == c + "x" + d
    ensures a == c && b == d
  {
    var l := a + "x" + b;
    var r := c + "x" + d;
    assert l[|a|] == 'x' && r[|c|] == 'x';
    assert |a| < |c| ==> IsDigit(r[|a|]);
    assert |c| < |a| ==> IsDigit(l[|c|]);
    assert a == l[..|a|] == r[..|c|] == c;
    assert b == l[|a| + 1..] == r[|c| + 1..] == d;
  }

  /** Static engines built for different clip sizes have different file
      names, and a static engine's name never equals the dynamic one. */
  lemma StaticEngineNamesDistinct(name: string, w1: nat, h1: nat, w2: nat, h2: nat)
    ensures StaticEngineName(name, w1, h1) == StaticEngineName(name, w2, h2) ==> w1 == w2 && h1 == h2
    ensures StaticEngineName(name, w1, h1) != DynamicEngineName(name)
  {
    var p := name + "-static-";
    var s1 := NatToString(w1) + "x" + NatToString(h1);
    var s2 := NatToString(w2) + "x" + NatToString(h2);
    assert StaticEngineName(name, w1, h1) == p + s1 + ".engine";
    assert StaticEngineName(name, w2, h2) == p + s2 + ".engine";
    if StaticEngineName(name, w1, h1) == StaticEngineName(name, w2, h2) {
      assert |s1| == |s2|;
      assert s1 == (p + s1 + ".engine")[|p|..|p| + |s1|];
      assert s2 == (p + s2 + ".engine")[|p|..|p| + |s2|];
      DimensionsSplit(NatToString(w1), NatToString(h1), NatToString(w2), NatToString(h2));
      NatToStringInjective(w1, w2);
      NatToStringInjective(h1, h2);
    }
    assert |StaticEngineName(name, w1, h1)| > |DynamicEngineName(name)|;
  }

  /** Under a models directory, a name with no separator and no drive
      letter is a file of that directory: different names give different
      paths. */
  lemma CombineInjective(dir: string, x: string, y: string)
    requires dir != "" && x != "" && y != ""
    requires !Paths.IsRooted(x) && !Paths.IsRooted(y)
    requires Paths.Combine(dir, x) == Paths.Combine(dir, y)
    ensures x == y
  {
    if Paths.IsSep(dir[|dir| - 1]) {
      assert Paths.Combine(dir, x) == dir + x && Paths.Combine(dir, y) == dir + y;
      assert x == (dir + x)[|dir|..];
    } else {
      assert Paths.Combine(dir, x) == dir + "\\" + x && Paths.Combine(dir, y) == dir + "\\" + y;
      assert x == (dir + "\\" + x)[|dir| + 1..];
    }
  }

  /** Engines for different sizes of the same model never share a file. */
  lemma StaticEnginePathsDistinct(modelPath: string, name: string, w1: nat, h1: nat, w2: nat, h2: nat)
    requires modelPath != "" && name != "" && !Paths.IsSep(name[0]) && (|name| < 2 || name[1] != ':')
    requires StaticEnginePath(modelPath, name, w1, h1) == StaticEnginePath(modelPath, name, w2, h2)
    ensures w1 == w2 && h1 == h2
  {
    var a := StaticEngineName(name, w1, h1);
    var b := StaticEngineName(name, w2, h2);
    assert a[0] == name[0] && b[0] == name[0];
    assert a[1] == (if |name| >= 2 then name[1] else '-');
    assert b[1] == (if |name| >= 2 then name[1] else '-');
    CombineInjective(modelPath, a, b);
    StaticEngineNamesDistinct(name, w1, h1, w2, h2);
  }

  // ---------------------------------------------------------------------
  // upscale2x

  /** What the script finds and what the tools do: the existing files, the
      models directory, whether trtexec produces a dynamic engine when asked,
      and whether the TensorRT plugin loads it. */
  datatype World = World(modelPath: string, files: set<string>, dynamicBuilds: bool, dynamicLoads: bool)

  datatype Engine =
    | OrtDml(network: string)
    | NcnnNet(network: string)
    | TrtStatic(engine: string, numStreams: nat)
    | TrtDynamic(engine: string, numStreams: nat)

  /** The result of upscale2x: the clip unchanged (no model name), a model
      applied, no clip at all (the function falls off its end and returns
      None), or the process exiting because an engine build failed. */
  datatype Upscaled = Passthrough | Applied(engine: Engine) | NoClip | Exited

  predicate IsDirectMl(backend: string) { ToLower(backend) == "directml" }
  predicate IsNcnn(backend: string) { ToLower(backend) == "ncnn" }

  /** The dynamic-shape attempt: build the engine if it is missing (a
      missing ONNX file raises, which the caller swallows), exit if the build
      left no engine, then load it (a load error is swallowed too). */
  function TryDynamic(w: World, name: string, numStreams: nat): (r: Upscaled)
    ensures r.Applied? ==> r.engine == TrtDynamic(DynamicEnginePath(w.modelPath, name), numStreams)
    ensures r == Exited <==> DynamicEnginePath(w.modelPath, name) !in w.files && OnnxPath(w.modelPath, name) in w.files && !w.dynamicBuilds
    ensures r.Applied? <==> w.dynamicLoads && (DynamicEnginePath(w.modelPath, name) in w.files || (OnnxPath(w.modelPath, name) in w.files && w.dynamicBuilds))
  {
    var engine := DynamicEnginePath(w.modelPath, name);
    if engine !in w.files && OnnxPath(w.modelPath, name) !in w.files then NoClip
    else if engine !in w.files && !w.dynamicBuilds then Exited
    else if !w.dynamicLoads then NoClip
    else Applied(TrtDynamic(engine, numStreams))
  }

  function Upscale2x(w: World, width: nat, height: nat, backend: string, engineName: Option<string>, numStreams: nat): (r: Upscaled)
    ensures r == Passthrough <==> engineName.None?
    ensures r.Applied? && r.engine.TrtStatic? ==> StaticEnginePath(w.modelPath, engineName.value, width, height) in w.files
    ensures r.Applied? && r.engine.TrtDynamic? ==> UseDynamicEngine(width, height)
  {
    match engineName
    case None => Passthrough
    case Some(name) =>
      if IsDirectMl(backend) then Applied(OrtDml(OnnxPath(w.modelPath, name)))
      else if IsNcnn(backend) then Applied(NcnnNet(OnnxPath(w.modelPath, name)))
      else
        var staticEngine := StaticEnginePath(w.modelPath, name, width, height);
        if staticEngine in w.files then Applied(TrtStatic(staticEngine, numStreams))
        else if UseDynamicEngine(width, height) then TryDynamic(w, name, numStreams)
        else NoClip
  }

  /** DirectML and NCNN run the ONNX network directly and never look at
      TensorRT engines. */
  lemma OnnxBackends(w: World, width: nat, height: nat, backend: string, name: string, numStreams: nat)
    requires IsDirectMl(backend) || IsNcnn(backend)
    ensures var r := Upscale2x(w, width, height, backend, Some(name), numStreams);
            r.Applied? && (r.engine.OrtDml? <==> IsDirectMl(backend))
            && (r.engine.OrtDml? || r.engine.NcnnNet?) && r.engine.network == OnnxPath(w.modelPath, name)
  {
  }

  /** With TensorRT, an existing static engine for the clip's exact size is
      always preferred; otherwise a clip larger than 1920x1080 gets no clip
      at all, and a smaller one the dynamic engine when it can be built and
      loaded. */
  lemma TensorRtChoice(w: World, width: nat, height: nat, backend: string, name: string, numStreams: nat)
    requires !IsDirectMl(backend) && !IsNcnn(backend)
    ensures var r := Upscale2x(w, width, height, backend, Some(name), numStreams);
            var staticEngine := StaticEnginePath(w.modelPath, name, width, height);
            && (staticEngine in w.files <==> r == Applied(TrtStatic(staticEngine, numStreams)))
            && (staticEngine !in w.files && !UseDynamicEngine(width, height) ==> r == NoClip)
            && (staticEngine !in w.files && UseDynamicEngine(width, height) ==> r == TryDynamic(w, name, numStreams))
  {
  }

  // ---------------------------------------------------------------------
  // Stream budget

  const TotalNumStreams: nat := 4

  /** max(1, 4 // models): the streams each model's TensorRT instance gets. */
  function NumStreams(models: nat): (r: nat)
    requires models > 0
    ensures 1 <= r <= TotalNumStreams
    ensures models <= TotalNumStreams ==> models * r <= TotalNumStreams
    ensures models > TotalNumStreams ==> r == 1
    ensures r == (if models <= TotalNumStreams then TotalNumStreams / models else 1)
  {
    var share := TotalNumStreams / models;
    if share < 1 then 1 else share
  }
}
