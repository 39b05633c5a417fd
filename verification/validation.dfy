/** Input counting (CheckInputs) and workflow validation (Validate), shared
    line for line by the current application and its older twin. The
    filesystem, the process environment and the recursive listing of the
    input folder are parameters. */
module Validation {
  import opened Common
  import Paths
  import opened Workflow

  const VideoExtensions: seq<string> := [".mkv", ".mp4", ".mpg", ".mpeg", ".avi", ".mov", ".wmv"]

  const FilenameToken: string := "%filename%"

  /** The output path of an input video: the full output folder joined with
      the file-name pattern, every "%filename%" replaced by the input's name
      without extension. */
  function OutputPath(env: Paths.Env, w: Workflow, input: string): string {
    Paths.Join(env.fullPath(w.outputFolderPath),
      ReplaceAll(w.outputFilename, FilenameToken, Paths.FileNameWithoutExtension(input)))
  }

  /** With one token between text free of '%', the output name is that text
      around the input's base name. */
  lemma OutputPathSingleToken(env: Paths.Env, w: Workflow, input: string, pre: string, post: string)
    requires w.outputFilename == pre + FilenameToken + post
    requires '%' !in pre && '%' !in post
    ensures OutputPath(env, w, input)
      == Paths.Join(env.fullPath(w.outputFolderPath), pre + Paths.FileNameWithoutExtension(input) + post)
  {
    ReplaceAllSingle(pre, FilenameToken, post, Paths.FileNameWithoutExtension(input));
  }

  /** A pattern without '%' sends every input to the same output. */
  lemma OutputPathWithoutToken(env: Paths.Env, w: Workflow, a: string, b: string)
    requires '%' !in w.outputFilename
    ensures OutputPath(env, w, a) == OutputPath(env, w, b)
  {
    ReplaceAllNoLead(w.outputFilename, FilenameToken, Paths.FileNameWithoutExtension(a));
    ReplaceAllNoLead(w.outputFilename, FilenameToken, Paths.FileNameWithoutExtension(b));
  }

  // ---------------------------------------------------------------------------
  // Which files are videos

  /** The status count's filter: the lower-cased path ends with a listed extension. */
  predicate CountedVideo(f: string) {
    exists i :: 0 <= i < |VideoExtensions| && EndsWith(ToLower(f), VideoExtensions[i])
  }

  /** The upscale run's filter: the extension equals a listed one, ignoring case. */
  predicate RunVideo(f: string) {
    exists i :: 0 <= i < |VideoExtensions| && EqualsIgnoreCase(Paths.Extension(f), VideoExtensions[i])
  }

  lemma ExtensionsArePlain()
    ensures forall i :: 0 <= i < |VideoExtensions| ==>
      Paths.PlainExtension(VideoExtensions[i]) && ToLower(VideoExtensions[i]) == VideoExtensions[i]
  {
  }

  /** On the same path the two filters agree; they differ only in which
      files they are given (the whole tree for the count, the top level for
      the run). */
  lemma FiltersAgree(f: string)
    ensures CountedVideo(f) <==> RunVideo(f)
  {
    ExtensionsArePlain();
    forall i | 0 <= i < |VideoExtensions|
      ensures EndsWith(ToLower(f), VideoExtensions[i]) <==> EqualsIgnoreCase(Paths.Extension(f), VideoExtensions[i])
    {
      Paths.SuffixTestMatchesExtensionTest(f, VideoExtensions[i]);
    }
  }

  function Videos(listing: seq<string>): (r: seq<string>)
    ensures |r| <= |listing|
    ensures forall f :: f in r <==> f in listing && CountedVideo(f)
    ensures forall f :: multiset(r)[f] == if CountedVideo(f) then multiset(listing)[f] else 0
    ensures Subsequence(r, listing)
    decreases |listing|
  {
    if listing == [] then []
    else
      var rest := Videos(listing[1..]);
      assert listing == [listing[0]] + listing[1..];
      if CountedVideo(listing[0]) then
        assert ([listing[0]] + rest)[1..] == rest;
        [listing[0]] + rest
      else rest
  }

  // ---------------------------------------------------------------------------
  // CheckInputs

  /** What CheckInputs reads from the main window and the machine. */
  datatype InputsView = InputsView(
    current: Workflow,
    upscaling: bool,
    fs: Paths.FileSystem,
    env: Paths.Env,
    treeListing: seq<string>)   // Directory.EnumerateFiles(input folder, all directories)

  datatype CheckResult = CheckResult(count: nat, status: string)

  function OverwriteText(w: Workflow): string {
    if w.overwriteExistingVideos then "overwritten" else "skipped"
  }

  predicate OutputExists(v: InputsView, input: string) {
    v.fs.FileExists(OutputPath(v.env, v.current, input))
  }

  /** Number of the videos whose output is missing, or all of them when
      overwriting. */
  function CountToUpscale(v: InputsView, videos: seq<string>): (n: nat)
    ensures n <= |videos|
    decreases |videos|
  {
    if videos == [] then 0
    else
      var here := if !OutputExists(v, videos[0]) || v.current.overwriteExistingVideos then 1 else 0;
      here + CountToUpscale(v, videos[1..])
  }

  /** Number of the videos whose output already exists. */
  function CountExisting(v: InputsView, videos: seq<string>): (n: nat)
    ensures n <= |videos|
    decreases |videos|
  {
    if videos == [] then 0
    else (if OutputExists(v, videos[0]) then 1 else 0) + CountExisting(v, videos[1..])
  }

  lemma {:induction false} CountsCover(v: InputsView, videos: seq<string>)
    ensures v.current.overwriteExistingVideos ==> CountToUpscale(v, videos) == |videos|
    ensures !v.current.overwriteExistingVideos ==> CountToUpscale(v, videos) + CountExisting(v, videos) == |videos|
    decreases |videos|
  {
    if videos != [] {
      CountsCover(v, videos[1..]);
    }
  }

  /** The folder-mode status text: the count to upscale, then in brackets
      the count of existing outputs, each with its own plural, and what
      happens to those outputs. */
  function FolderStatus(filesCount: nat, existCount: nat, overwriteText: string): (r: string)
    ensures StartsWith(r, NatToString(filesCount) + " video file")
    ensures StartsWith(r, NatToString(filesCount) + " video files") <==> filesCount != 1
    ensures EndsWith(r, " (" + NatToString(existCount)
      + (if existCount == 1 then " video file already exists" else " video files already exist")
      + (" and will be " + overwriteText + ")"))
    ensures EndsWith(r, " video files already exist" + (" and will be " + overwriteText + ")")) <==> existCount != 1
    ensures EndsWith(r, " video file already exists" + (" and will be " + overwriteText + ")")) <==> existCount == 1
  {
    var head := NatToString(filesCount) + " video file";
    var phrase := if existCount == 1 then " video file already exists" else " video files already exist";
    var outcome := " and will be " + overwriteText + ")";
    var r := head + (if filesCount == 1 then "" else "s") + " (" + NatToString(existCount) + phrase + outcome;
    assert r[..|head|] == head;
    assert r[|head|] == (if filesCount == 1 then ' ' else 's');
    assert StartsWith(r, head + "s") ==> r[|head|] == 's';
    EndsWithLastFour(head + (if filesCount == 1 then "" else "s"), " (", NatToString(existCount), phrase, outcome);
    EndingsDiffer();
    OneOfTwoEndings(r, " video file already exists", " video files already exist", phrase, outcome);
    r
  }

  /** The single-file bracket opens with a space. */
  lemma BracketOpens()
    ensures " (1 video file already exists and will be "[0] == ' '
  {
  }

  /** The two bracket phrases are equally long and differ at index 11. */
  lemma EndingsDiffer()
    ensures |" video file already exists"| == |" video files already exist"| > 11
    ensures " video file already exists"[11] != " video files already exist"[11]
  {
  }

  lemma EndsWithLastFour(a: string, b: string, c: string, d: string, e: string)
    ensures EndsWith(a + b + c + d + e, b + c + d + e)
    ensures EndsWith(a + b + c + d + e, d + e)
  {
    var r := a + b + c + d + e;
    assert r[|r| - |b + c + d + e|..] == b + c + d + e;
    assert r[|r| - |d + e|..] == d + e;
  }

  /** A text ending in `phrase + outcome`, where `phrase` is one of two
      equally long phrases differing at index 11, ends in the other
      phrase's text only when it is the same phrase. */
  lemma OneOfTwoEndings(r: string, one: string, many: string, phrase: string, outcome: string)
    requires |one| == |many| > 11 && one[11] != many[11]
    requires phrase == one || phrase == many
    requires EndsWith(r, phrase + outcome)
    ensures EndsWith(r, one + outcome) <==> phrase == one
    ensures EndsWith(r, many + outcome) <==> phrase == many
  {
    assert (one + outcome)[11] == one[11];
    assert (many + outcome)[11] == many[11];
  }

  /** The single-file status text: the count, plural exactly when the file
      is skipped, then a bracket exactly when the output already exists. */
  function SingleStatus(count: nat, exists_: bool, overwriteText: string): (r: string)
    ensures StartsWith(r, NatToString(count) + " video file")
    ensures StartsWith(r, NatToString(count) + " video files") <==> count == 0
    ensures EndsWith(r, " (1 video file already exists and will be " + overwriteText + ")") <==> exists_
  {
    var head := NatToString(count) + " video file";
    var bracket := if exists_ then " (1 video file already exists and will be " + overwriteText + ")" else "";
    var r := head + (if count == 0 then "s" else "") + bracket;
    assert r[..|head|] == head;
    assert StartsWith(r, head + "s") ==> r[|head|] == 's';
    assert exists_ && count != 0 ==> r[|head|] == ' ' by {
      if exists_ && count != 0 {
        assert r == head + bracket;
        assert bracket == " (1 video file already exists and will be " + (overwriteText + ")");
        BracketOpens();
      }
    }
    assert r[|r| - |bracket|..] == bracket;
    assert !exists_ ==> r[|r| - 1] != ')';
    r
  }

  /** CheckInputs: nothing counts unless the current workflow is valid and
      no upscale is running. A single video counts unless its output exists
      and overwriting is off; in folder mode every video of the tree counts
      whose output is missing, or every video when overwriting. */
  function CheckInputs(v: InputsView): (r: CheckResult)
    ensures !(v.current.valid && !v.upscaling) ==> r == CheckResult(0, "0 video files")
    ensures v.current.valid && !v.upscaling && v.current.selectedTabIndex == 0 ==>
      (r.count == 0 <==> OutputExists(v, v.current.inputFilePath) && !v.current.overwriteExistingVideos)
      && r.count <= 1
      && r.status == SingleStatus(r.count, OutputExists(v, v.current.inputFilePath), OverwriteText(v.current))
    ensures v.current.valid && !v.upscaling && v.current.selectedTabIndex != 0 ==>
      var videos := Videos(v.treeListing);
      r.count == CountToUpscale(v, videos)
      && (v.current.overwriteExistingVideos ==> r.count == |videos|)
      && (!v.current.overwriteExistingVideos ==> r.count == |videos| - CountExisting(v, videos))
      && r.status == FolderStatus(r.count, CountExisting(v, videos), OverwriteText(v.current))
  {
    var w := v.current;
    if !(w.valid && !v.upscaling) then CheckResult(0, "0 video files")
    else if w.selectedTabIndex == 0 then
      var exists_ := OutputExists(v, w.inputFilePath);
      var count := if exists_ && !w.overwriteExistingVideos then 0 else 1;
      CheckResult(count, SingleStatus(count, exists_, OverwriteText(w)))
    else
      var videos := Videos(v.treeListing);
      CountsCover(v, videos);
      var n := CountToUpscale(v, videos);
      CheckResult(n, FolderStatus(n, CountExisting(v, videos), OverwriteText(w)))
  }

  /** The foreach of the folder branch, with its two counters. */
  method CountFolder(v: InputsView) returns (filesCount: nat, existCount: nat)
    ensures filesCount == CountToUpscale(v, Videos(v.treeListing))
    ensures existCount == CountExisting(v, Videos(v.treeListing))
  {
    var videos := Videos(v.treeListing);
    filesCount, existCount := 0, 0;
    var i := |videos|;
    // Walking from the back keeps the counts aligned with the recursive definitions.
    while i > 0
      invariant 0 <= i <= |videos|
      invariant filesCount == CountToUpscale(v, videos[i..])
      invariant existCount == CountExisting(v, videos[i..])
    {
      i := i - 1;
      assert videos[i..][1..] == videos[i + 1..];
      var fileExists := OutputExists(v, videos[i]);
      if fileExists {
        existCount := existCount + 1;
      }
      if !fileExists || v.current.overwriteExistingVideos {
        filesCount := filesCount + 1;
      }
    }
    assert videos[0..] == videos;
  }

  // ---------------------------------------------------------------------------
  // Validate

  const InputVideoRequired: string := "Input Video is required."
  const InputFolderRequired: string := "Input Folder is required."
  const OutputFolderRequired: string := "Output Folder is required."
  const OutputFilenameRequired: string := "Output Filename is required."
  const ModelPathRequired: string := "ONNX Model Path is required."

  /** One message per model whose ONNX file does not exist, in list order. */
  function ModelMessages(fs: Paths.FileSystem, ms: seq<UpscaleModel>): (r: seq<string>)
    ensures |r| <= |ms|
    ensures forall i :: 0 <= i < |r| ==> r[i] == ModelPathRequired
    ensures r == [] <==> forall i :: 0 <= i < |ms| ==> fs.FileExists(ms[i].onnxModelPath)
    ensures |r| == |ms| <==> forall i :: 0 <= i < |ms| ==> !fs.FileExists(ms[i].onnxModelPath)
    decreases |ms|
  {
    if ms == [] then []
    else
      var rest := ModelMessages(fs, ms[1..]);
      assert forall i :: 1 <= i < |ms| ==> ms[i] == ms[1..][i - 1];
      if fs.FileExists(ms[0].onnxModelPath) then rest else [ModelPathRequired] + rest
  }

  /** The messages of the four rules, in their fixed order. */
  function RuleMessages(w: Workflow, fs: Paths.FileSystem): seq<string> {
    (if w.selectedTabIndex == 0 then
       (if fs.FileExists(w.inputFilePath) then [] else [InputVideoRequired])
     else
       (if fs.DirExists(w.inputFolderPath) then [] else [InputFolderRequired]))
    + (if IsBlank(w.outputFolderPath) then [OutputFolderRequired] else [])
    + (if IsBlank(w.outputFilename) then [OutputFilenameRequired] else [])
    + ModelMessages(fs, w.models)
  }

  /** What Validate reads from the main window when the workflow is attached
      to one. `current` is the main window's current workflow, or None when
      it is the workflow being validated (whose Valid has just been set). */
  datatype VmView = VmView(upscaling: bool, env: Paths.Env, treeListing: seq<string>, current: Option<Workflow>)

  datatype Validation = Validation(
    valid: bool,
    messages: seq<string>,
    validationText: Option<string>,   // set on the main window only when attached
    inputStatusText: Option<string>)

  function AtLeastOneMessage(inputStatus: string): string {
    inputStatus + " selected for upscaling." + " At least one file must be selected."
  }

  function ViewFor(w: Workflow, valid: bool, fs: Paths.FileSystem, vm: VmView): InputsView {
    var current := if vm.current.Some? then vm.current.value else w.(valid := valid);
    InputsView(current, vm.upscaling, fs, vm.env, vm.treeListing)
  }

  /** UpscaleWorkflow.Validate. */
  function Validate(w: Workflow, fs: Paths.FileSystem, vm: Option<VmView>): (r: Validation)
    ensures var rules := RuleMessages(w, fs);
      |r.messages| >= |rules| && r.messages[..|rules|] == rules
    ensures vm.None? ==>
      r.valid == (RuleMessages(w, fs) == []) && r.messages == RuleMessages(w, fs)
      && r.validationText.None? && r.inputStatusText.None?
    ensures vm.Some? ==>
      var check := CheckInputs(ViewFor(w, RuleMessages(w, fs) == [], fs, vm.value));
      r.valid == (RuleMessages(w, fs) == [] && check.count > 0)
      && r.messages == RuleMessages(w, fs) + (if check.count == 0 then [AtLeastOneMessage(check.status)] else [])
      && r.validationText == Some(Join("\n", r.messages))
      && r.inputStatusText == Some(check.status)
  {
    var rules := RuleMessages(w, fs);
    var valid := rules == [];
    if vm.None? then Validation(valid, rules, None, None)
    else
      var check := CheckInputs(ViewFor(w, valid, fs, vm.value));
      var messages := if check.count == 0 then rules + [AtLeastOneMessage(check.status)] else rules;
      assert messages[..|rules|] == rules;
      Validation(valid && check.count > 0, messages, Some(Join("\n", messages)), Some(check.status))
  }

  /** When the validated workflow is the current one and a rule has failed,
      CheckInputs sees it invalid, so the "at least one file" message always
      follows the rule messages, naming "0 video files". */
  lemma FailedRuleAddsTrailingMessage(w: Workflow, fs: Paths.FileSystem, vm: VmView)
    requires vm.current.None? && RuleMessages(w, fs) != []
    ensures var r := Validate(w, fs, Some(vm));
      !r.valid && r.messages == RuleMessages(w, fs) + [AtLeastOneMessage("0 video files")]
  {
  }

  /** Valid stays false exactly when some rule fired or, when attached, no
      file is selected. */
  lemma ValidIffNoMessage(w: Workflow, fs: Paths.FileSystem, vm: Option<VmView>)
    ensures Validate(w, fs, vm).valid <==> Validate(w, fs, vm).messages == []
  {
  }
}
