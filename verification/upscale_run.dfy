/** RunUpscale and its commands: the configuration file is written, then
    every input video is encoded in turn, each preceded, on TensorRT, by one
    engine-generation run per model of the chain. Processes are not run
    here: a run is the list of the commands it issues, in order. */
module UpscaleRun {
  import opened Common
  import Paths
  import opened Workflow
  import Validation
  import ConfigText
  import RifeNames
  import LegacyGui

  // ---------------------------------------------------------------------------
  // Command text

  /** Where the tools are, as the command line names them. The current
      window quotes the script and ffmpeg paths it derives from the back-end
      directory; the older one names fixed relative paths. */
  datatype Tools = Tools(vspipe: string, script: string, ffmpeg: string)

  function CurrentTools(vspipeRelative: string, scriptFullPath: string, ffmpegPath: string): Tools {
    Tools(vspipeRelative, "\"" + scriptFullPath + "\"", "\"" + ffmpegPath + "\"")
  }

  const LegacyTools: Tools := Tools("..\\..\\VSPipe.exe", "./animejanai_encode.vpy", "ffmpeg")

  /** ffmpeg's overwrite switch, present only when overwriting. */
  function OverwriteSwitch(w: Workflow): (r: string)
    ensures r == "-y" <==> w.overwriteExistingVideos
    ensures r == "" <==> !w.overwriteExistingVideos
  {
    if w.overwriteExistingVideos then "-y" else ""
  }

  /** The script argument naming the input video. */
  function VideoPathArg(input: string): string { "--arg \"video_path=" + input + "\"" }

  /** The VapourSynth part shared by both commands, up to the script. */
  function PipeHead(t: Tools, input: string): (r: string)
    ensures StartsWith(r, t.vspipe + " -c y4m --arg \"slot=1\" ")
    ensures EndsWith(r, VideoPathArg(input))
  {
    var pre := t.vspipe + " -c y4m --arg \"slot=1\" ";
    var r := pre + VideoPathArg(input);
    assert r[..|pre|] == pre;
    assert r[|r| - |VideoPathArg(input)|..] == VideoPathArg(input);
    r
  }

  /** The pieces of the encode command after the VapourSynth head: the
      script reading from the pipe, ffmpeg with its overwrite switch, the
      source file as second input, the video codec settings and the copied
      streams. */
  function ScriptPipe(t: Tools): string { " " + t.script + " - | " }
  function FfmpegHead(t: Tools, w: Workflow): string { t.ffmpeg + " " + OverwriteSwitch(w) + " -i pipe: " }
  function InputArg(input: string): string { "-i \"" + input + "\"" }
  const MapVideo := " -map 0:v "
  function CodecArg(w: Workflow): string { "-c:v " + w.ffmpegVideoSettings }
  const CopyStreams := " -max_interleave_delta 0 -map 1:t? -map 1:a?  -map 1:s? -c:t copy -c:a copy -c:s copy "

  /** The command up to the quoted output path. */
  function EncodeHead(t: Tools, w: Workflow, input: string): string {
    PipeHead(t, input) + ScriptPipe(t) + FfmpegHead(t, w) + InputArg(input) + MapVideo + CodecArg(w) + CopyStreams
  }

  /** RunUpscaleSingle: VSPipe's y4m output piped into ffmpeg, which copies
      the other streams of the input and writes the quoted output path. */
  function EncodeCommand(t: Tools, w: Workflow, input: string, output: string): (r: string)
    ensures StartsWith(r, PipeHead(t, input) + ScriptPipe(t) + FfmpegHead(t, w))
    ensures EndsWith(r, "\"" + output + "\"")
  {
    var pre := PipeHead(t, input) + ScriptPipe(t) + FfmpegHead(t, w);
    var tail := "\"" + output + "\"";
    var r := EncodeHead(t, w, input) + tail;
    assert r[..|pre|] == pre;
    assert r[|r| - |tail|..] == tail;
    r
  }

  /** The encode command hands the input to the script and to ffmpeg, runs
      the script, and encodes with the workflow's codec settings. */
  lemma EncodeCommandArguments(t: Tools, w: Workflow, input: string, output: string)
    ensures var r := EncodeCommand(t, w, input, output);
      && StartsWith(r, t.vspipe)
      && Contains(r, VideoPathArg(input))
      && Contains(r, ScriptPipe(t))
      && Contains(r, InputArg(input))
      && Contains(r, CodecArg(w))
  {
    var P, S, F, I, C := PipeHead(t, input), ScriptPipe(t), FfmpegHead(t, w), InputArg(input), CodecArg(w);
    var T := "\"" + output + "\"";
    assert P[..|t.vspipe|] == t.vspipe;
    var V := VideoPathArg(input);
    ContainsSuffix(P, V);
    ContainsExtend(P, V, S);
    ContainsSuffix(P + S, S);
    assert (P + S + F + I)[|P + S + F + I| - |I|..] == I;
    ContainsSuffix(P + S + F + I, I);
    assert (P + S + F + I + MapVideo + C)[|P + S + F + I + MapVideo + C| - |C|..] == C;
    ContainsSuffix(P + S + F + I + MapVideo + C, C);
    forall part | part in [V, S]
      ensures Contains(P + S + F + I, part)
    {
      ContainsExtend(P + S, part, F);
      ContainsExtend(P + S + F, part, I);
    }
    forall part | part in [V, S, I]
      ensures Contains(P + S + F + I + MapVideo + C, part)
    {
      ContainsExtend(P + S + F + I, part, MapVideo);
      ContainsExtend(P + S + F + I + MapVideo, part, C);
    }
    forall part | part in [V, S, I, C]
      ensures Contains(EncodeCommand(t, w, input, output), part)
    {
      ContainsExtend(P + S + F + I + MapVideo + C, part, CopyStreams);
      ContainsExtend(P + S + F + I + MapVideo + C + CopyStreams, part, T);
    }
  }

  /** GenerateEngine: a one-frame VSPipe run of the script that builds the
      engine. */
  function EngineCommand(t: Tools, input: string): (r: string)
    ensures StartsWith(r, PipeHead(t, input) + " --start 0 --end 1 ")
    ensures EndsWith(r, " " + t.script + " -p .")
    ensures |r| == |PipeHead(t, input)| + |t.script| + 24
  {
    var head := PipeHead(t, input) + " --start 0 --end 1 ";
    var r := head + t.script + " -p .";
    assert r[..|head|] == head;
    assert r[|r| - |" " + t.script + " -p ."|..] == " " + t.script + " -p .";
    r
  }

  /** The line logged to the console before each command, and the argument
      handed to cmd.exe. */
  function EncodeMessage(cmd: string): string { "Upscaling with command: " + cmd }
  function EngineMessage(cmd: string): string { "Generating TensorRT engine with command: " + cmd }
  function ShellArguments(cmd: string): string { " /C " + cmd }

  /** The output path is the last quoted text of the command, so two
      commands for different outputs differ. */
  lemma EncodeCommandNamesOutput(t: Tools, w: Workflow, input: string, out1: string, out2: string)
    ensures EncodeCommand(t, w, input, out1) == EncodeCommand(t, w, input, out2) <==> out1 == out2
  {
    var c1 := EncodeCommand(t, w, input, out1);
    var c2 := EncodeCommand(t, w, input, out2);
    var h := EncodeHead(t, w, input);
    if c1 == c2 {
      assert c1 == h + ("\"" + out1 + "\"") && c2 == h + ("\"" + out2 + "\"");
      assert |out1| == |out2|;
      assert out1 == c1[|h| + 1..|c1| - 1];
      assert out2 == c2[|h| + 1..|c2| - 1];
    }
  }

  /** The engine command names its input, so engine runs for different
      inputs issue different commands. */
  lemma EngineCommandNamesInput(t: Tools, in1: string, in2: string)
    ensures EngineCommand(t, in1) == EngineCommand(t, in2) <==> in1 == in2
  {
    var c1 := EngineCommand(t, in1);
    var c2 := EngineCommand(t, in2);
    var pre := t.vspipe + " -c y4m --arg \"slot=1\" --arg \"video_path=";
    if c1 == c2 {
      assert PipeHead(t, in1) == pre + in1 + "\"";
      assert PipeHead(t, in2) == pre + in2 + "\"";
      assert |in1| == |in2|;
      assert c1[..|pre| + |in1|] == pre + in1;
      assert c2[..|pre| + |in2|] == pre + in2;
      assert in1 == (pre + in1)[|pre|..];
      assert in2 == (pre + in2)[|pre|..];
    }
  }

  // ---------------------------------------------------------------------------
  // The steps of a run

  datatype Step = GenerateEngine(input: string) | Encode(input: string, output: string)

  /** CheckEngines: on TensorRT one engine run per model (the existence
      check of the engine file is disabled), otherwise none. */
  function EngineSteps(w: Workflow, input: string): (r: seq<Step>)
    ensures |r| == (if w.tensorRtSelected then |w.models| else 0)
    ensures forall i :: 0 <= i < |r| ==> r[i] == GenerateEngine(input)
  {
    if w.tensorRtSelected then seq(|w.models|, _ => GenerateEngine(input)) else []
  }

  /** The steps for one input video. */
  function FileSteps(env: Paths.Env, w: Workflow, input: string): seq<Step> {
    EngineSteps(w, input) + [Encode(input, Validation.OutputPath(env, w, input))]
  }

  /** The steps for the input videos in order. */
  function Steps(env: Paths.Env, w: Workflow, inputs: seq<string>): seq<Step>
    decreases |inputs|
  {
    if inputs == [] then [] else FileSteps(env, w, inputs[0]) + Steps(env, w, inputs[1..])
  }

  /** The run's folder filter: top-level files whose extension is a video
      extension, ignoring case. */
  function RunVideos(listing: seq<string>): (r: seq<string>)
    ensures |r| <= |listing|
    ensures forall f :: f in r <==> f in listing && Validation.RunVideo(f)
    ensures forall f :: multiset(r)[f] == if Validation.RunVideo(f) then multiset(listing)[f] else 0
    ensures Subsequence(r, listing)
  {
    Filter(listing, Validation.RunVideo)
  }

  /** The videos a run encodes: the single input, or the filtered top-level
      listing of the input folder. */
  function RunInputs(w: Workflow, topListing: seq<string>): (r: seq<string>)
    ensures w.selectedTabIndex == 0 ==> r == [w.inputFilePath]
    ensures w.selectedTabIndex != 0 ==> forall f :: f in r <==> f in topListing && Validation.RunVideo(f)
    ensures w.selectedTabIndex != 0 ==>
      && (forall f :: multiset(r)[f] == if Validation.RunVideo(f) then multiset(topListing)[f] else 0)
      && Subsequence(r, topListing)
  {
    if w.selectedTabIndex == 0 then [w.inputFilePath] else RunVideos(topListing)
  }

  /** The encodes of a step list, in order. */
  function Encodes(steps: seq<Step>): seq<(string, string)>
    decreases |steps|
  {
    if steps == [] then []
    else (if steps[0].Encode? then [(steps[0].input, steps[0].output)] else []) + Encodes(steps[1..])
  }

  /** The number of engine runs of a step list. */
  function EngineRuns(steps: seq<Step>): nat
    decreases |steps|
  {
    if steps == [] then 0 else (if steps[0].GenerateEngine? then 1 else 0) + EngineRuns(steps[1..])
  }

  lemma {:induction false} EncodesAppend(a: seq<Step>, b: seq<Step>)
    ensures Encodes(a + b) == Encodes(a) + Encodes(b)
    ensures EngineRuns(a + b) == EngineRuns(a) + EngineRuns(b)
    decreases |a|
  {
    if a == [] {
      assert a + b == b;
    } else {
      var ab := a + b;
      assert ab[0] == a[0];
      assert ab[1..] == a[1..] + b;
      EncodesAppend(a[1..], b);
      var head := if a[0].Encode? then [(a[0].input, a[0].output)] else [];
      assert Encodes(ab) == head + (Encodes(a[1..]) + Encodes(b));
      assert Encodes(a) == head + Encodes(a[1..]);
    }
  }

  lemma {:induction false} EngineStepsCount(s: seq<Step>, input: string)
    requires forall i :: 0 <= i < |s| ==> s[i] == GenerateEngine(input)
    ensures Encodes(s) == [] && EngineRuns(s) == |s|
    decreases |s|
  {
    if s != [] {
      EngineStepsCount(s[1..], input);
    }
  }

  lemma FileStepsShape(env: Paths.Env, w: Workflow, input: string)
    ensures Encodes(FileSteps(env, w, input)) == [(input, Validation.OutputPath(env, w, input))]
    ensures EngineRuns(FileSteps(env, w, input)) == if w.tensorRtSelected then |w.models| else 0
  {
    var e := EngineSteps(w, input);
    var last := [Encode(input, Validation.OutputPath(env, w, input))];
    EncodesAppend(e, last);
    EngineStepsCount(e, input);
    assert last[1..] == [];
  }

  /** Each input paired with its output path. */
  function Targets(env: Paths.Env, w: Workflow, inputs: seq<string>): (r: seq<(string, string)>)
    ensures |r| == |inputs|
    ensures forall i :: 0 <= i < |inputs| ==> r[i] == (inputs[i], Validation.OutputPath(env, w, inputs[i]))
  {
    seq(|inputs|, i requires 0 <= i < |inputs| => (inputs[i], Validation.OutputPath(env, w, inputs[i])))
  }

  /** A run encodes its inputs in order, each to its output path. */
  lemma {:induction false} StepsEncodeInputs(env: Paths.Env, w: Workflow, inputs: seq<string>)
    ensures Encodes(Steps(env, w, inputs)) == Targets(env, w, inputs)
    decreases |inputs|
  {
    if inputs != [] {
      var rest := inputs[1..];
      StepsEncodeInputs(env, w, rest);
      StepsEncodesUnfold(env, w, inputs);
      var t := Targets(env, w, inputs);
      var t1 := Targets(env, w, rest);
      assert Encodes(Steps(env, w, inputs)) == [(inputs[0], Validation.OutputPath(env, w, inputs[0]))] + t1;
      assert t == [t[0]] + t1;
    }
  }

  /** On TensorRT a run generates the engine |models| times per input, and
      never otherwise. */
  lemma {:induction false} StepsEngineRuns(env: Paths.Env, w: Workflow, inputs: seq<string>)
    ensures EngineRuns(Steps(env, w, inputs)) == |inputs| * EnginesPerInput(w)
    decreases |inputs|
  {
    if inputs != [] {
      var rest := inputs[1..];
      StepsEngineRuns(env, w, rest);
      StepsRunsUnfold(env, w, inputs);
      MulStep(|inputs|, |rest|, EnginesPerInput(w));
    }
  }

  /** The encodes of a run: its first input's, then the rest's. */
  lemma StepsEncodesUnfold(env: Paths.Env, w: Workflow, inputs: seq<string>)
    requires inputs != []
    ensures Encodes(Steps(env, w, inputs))
      == [(inputs[0], Validation.OutputPath(env, w, inputs[0]))] + Encodes(Steps(env, w, inputs[1..]))
  {
    FileStepsShape(env, w, inputs[0]);
    assert Steps(env, w, inputs) == FileSteps(env, w, inputs[0]) + Steps(env, w, inputs[1..]);
    EncodesAppend(FileSteps(env, w, inputs[0]), Steps(env, w, inputs[1..]));
  }

  /** The engine runs of a run: those of its first input, then the rest's. */
  lemma StepsRunsUnfold(env: Paths.Env, w: Workflow, inputs: seq<string>)
    requires inputs != []
    ensures EngineRuns(Steps(env, w, inputs))
      == EnginesPerInput(w) + EngineRuns(Steps(env, w, inputs[1..]))
  {
    FileStepsShape(env, w, inputs[0]);
    assert Steps(env, w, inputs) == FileSteps(env, w, inputs[0]) + Steps(env, w, inputs[1..]);
    EncodesAppend(FileSteps(env, w, inputs[0]), Steps(env, w, inputs[1..]));
  }

  /** Engine runs per input: one per model on TensorRT, otherwise none. */
  function EnginesPerInput(w: Workflow): nat {
    if w.tensorRtSelected then |w.models| else 0
  }

  lemma MulStep(n: nat, m: nat, k: nat)
    requires n == m + 1
    ensures n * k == k + m * k
  {
  }

  /** The engine runs for an input come right before its encode. */
  lemma EnginesPrecedeEncode(env: Paths.Env, w: Workflow, input: string, i: nat)
    requires i < |FileSteps(env, w, input)|
    ensures FileSteps(env, w, input)[i].input == input
    ensures FileSteps(env, w, input)[i].Encode? <==> i == |FileSteps(env, w, input)| - 1
  {
  }

  // ---------------------------------------------------------------------------
  // The run

  /** What a run leaves behind: the configuration written (if any), the
      commands issued, whether Upscaling is still set, and the exception
      that escaped (if any). */
  datatype Outcome<E> = Outcome(config: Option<seq<ConfigText.Line>>, steps: seq<Step>, upscaling: bool, error: Option<E>)

  /** RunUpscale of the current window. An unknown RIFE label makes writing
      the configuration throw after Upscaling was set and before the guarded
      block, so the flag stays set and nothing runs. */
  function Run(env: Paths.Env, w: Workflow, backendDir: string, topListing: seq<string>): (r: Outcome<RifeNames.RifeError>)
    ensures r.error.Some? <==> RifeNames.LabelToValue(w.rifeModel).Err?
    ensures r.error.Some? ==> r.upscaling && r.steps == [] && r.config.None?
    ensures r.error.None? ==>
      !r.upscaling && r.config == Some(ConfigText.Config(w, backendDir).value)
      && r.steps == Steps(env, w, RunInputs(w, topListing))
      && Encodes(r.steps) == Targets(env, w, RunInputs(w, topListing))
  {
    match ConfigText.Config(w, backendDir)
    case Err(e) => Outcome(None, [], true, Some(e))
    case Ok(lines) =>
      StepsEncodeInputs(env, w, RunInputs(w, topListing));
      Outcome(Some(lines), Steps(env, w, RunInputs(w, topListing)), false, None)
  }

  /** RunUpscale of the older window: the same steps after its own
      configuration file; a label outside its dictionary throws. */
  function LegacyRun(env: Paths.Env, w: Workflow, c: DecimalText.Culture, topListing: seq<string>): (r: Outcome<LegacyGui.LegacyError>)
    ensures r.error.Some? <==> w.rifeModel !in LegacyGui.RifeModelList
    ensures r.error.Some? ==> r.upscaling && r.steps == [] && r.config.None?
    ensures r.error.None? ==>
      !r.upscaling && r.config == Some(LegacyGui.LegacyConfig(w, c).value)
      && r.steps == Steps(env, w, RunInputs(w, topListing))
  {
    match LegacyGui.LegacyConfig(w, c)
    case Err(e) => Outcome(None, [], true, Some(e))
    case Ok(lines) => Outcome(Some(lines), Steps(env, w, RunInputs(w, topListing)), false, None)
  }

  /** An older-window run with "RIFE 4.13 Lite" selected writes the full
      model's value 413 and then encodes every input. */
  lemma LegacyRunWithLiteLabel(env: Paths.Env, w: Workflow, c: DecimalText.Culture, topListing: seq<string>)
    requires w.rifeModel == "RIFE 4.13 Lite"
    ensures var r := LegacyRun(env, w, c, topListing);
      && r.error.None? && r.config.Some?
      && ConfigText.Lookup(r.config.value, "slot_1", ConfigText.KeyText(ConfigText.RifeModel)) == Some("413")
      && Encodes(r.steps) == Targets(env, w, RunInputs(w, topListing))
  {
    LegacyGui.LiteLabelWritesFullModel(w, c);
    StepsEncodeInputs(env, w, RunInputs(w, topListing));
  }

  /** Every video a folder run encodes is also one the status count
      considered, when the top-level listing is part of the recursive one;
      the count may include videos in sub-folders the run never touches. */
  lemma RunInputsAreCounted(w: Workflow, topListing: seq<string>, treeListing: seq<string>, f: string)
    requires w.selectedTabIndex != 0
    requires forall g :: g in topListing ==> g in treeListing
    ensures f in RunInputs(w, topListing) ==> f in Validation.Videos(treeListing)
  {
    Validation.FiltersAgree(f);
  }
}
