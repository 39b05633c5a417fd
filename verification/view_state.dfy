/** The main window's derived state: which screen shows, whether the
    upscale and reinstall buttons are enabled, and the status line at the
    bottom left. */
module ViewState {
  import opened Common
  import Paths
  import Workflow
  import Validation

  /** The window fields the derived properties read. `workflowsValid[i]` is
      the Valid flag of workflow i; the current workflow is the one at
      `selectedWorkflowIndex`. */
  datatype Window = Window(
    requestShowAppSettings: bool,
    isExtractingBackend: bool,
    runningPython: bool,
    upscaling: bool,
    workflowsValid: seq<bool>,
    selectedWorkflowIndex: int)

  predicate ShowAppSettings(v: Window) { v.requestShowAppSettings && !v.isExtractingBackend }
  predicate ShowMainForm(v: Window) { !v.requestShowAppSettings && !v.isExtractingBackend }
  predicate AllowReinstall(v: Window) { !v.runningPython && !v.upscaling }

  /** The current workflow's Valid flag; None where indexing the workflow
      list with the selected index throws. */
  function CurrentValid(v: Window): (r: Option<bool>)
    ensures r.Some? <==> 0 <= v.selectedWorkflowIndex < |v.workflowsValid|
    ensures r.Some? ==> r.value == v.workflowsValid[v.selectedWorkflowIndex]
  {
    if 0 <= v.selectedWorkflowIndex < |v.workflowsValid| then Some(v.workflowsValid[v.selectedWorkflowIndex])
    else None
  }

  /** UpscaleEnabled reads the current workflow's Valid before Upscaling, so
      it throws (None) whenever the current workflow does not exist. */
  function UpscaleEnabled(v: Window): Option<bool> {
    match CurrentValid(v)
    case None => None
    case Some(valid) => Some(valid && !v.upscaling)
  }

  /** The settings page and the main form never show together; while the
      back end is being extracted neither shows, and otherwise exactly one. */
  lemma ScreensExclusive(v: Window)
    ensures !(ShowAppSettings(v) && ShowMainForm(v))
    ensures v.isExtractingBackend ==> !ShowAppSettings(v) && !ShowMainForm(v)
    ensures !v.isExtractingBackend ==> ShowAppSettings(v) != ShowMainForm(v)
  {
  }

  /** What a selection leaves: the window, and whether the call threw. */
  datatype Selection = Selection(window: Window, threw: bool)

  /** Selecting a workflow makes it the current one and leaves the settings
      page. The index is stored first; a change of the index then runs the
      subscription that revalidates the newly current workflow, where
      `revalidated` is the Valid its Validate computes
      (Validation.Validate). When the new index has no workflow, that
      subscription's read of the current workflow throws, and the call ends
      before the settings page is left. Selecting the current index again
      raises no change, so nothing is revalidated. */
  function HandleWorkflowSelected(v: Window, index: int, revalidated: bool): (r: Selection)
    ensures r.window.selectedWorkflowIndex == index
    ensures r.threw <==> index != v.selectedWorkflowIndex && !(0 <= index < |v.workflowsValid|)
    ensures r.threw ==> r.window == v.(selectedWorkflowIndex := index)
    ensures !r.threw ==> !r.window.requestShowAppSettings && (!r.window.isExtractingBackend <==> ShowMainForm(r.window))
    ensures |r.window.workflowsValid| == |v.workflowsValid|
    ensures forall i :: 0 <= i < |r.window.workflowsValid| && i != index ==> r.window.workflowsValid[i] == v.workflowsValid[i]
    ensures index != v.selectedWorkflowIndex && 0 <= index < |v.workflowsValid| ==> CurrentValid(r.window) == Some(revalidated)
    ensures index == v.selectedWorkflowIndex ==> r.window.workflowsValid == v.workflowsValid
    ensures r.window.(requestShowAppSettings := v.requestShowAppSettings, selectedWorkflowIndex := v.selectedWorkflowIndex,
                      workflowsValid := v.workflowsValid) == v
  {
    var moved := v.(selectedWorkflowIndex := index);
    if index != v.selectedWorkflowIndex && !(0 <= index < |v.workflowsValid|) then Selection(moved, true)
    else
      var valid := if index != v.selectedWorkflowIndex then v.workflowsValid[index := revalidated] else v.workflowsValid;
      Selection(moved.(requestShowAppSettings := false, workflowsValid := valid), false)
  }

  /** After selecting an existing workflow the call returns, and the upscale
      button and the status line follow the selected workflow's own Valid,
      never the one selected before. */
  lemma SelectionDecidesUpscale(v: Window, index: int, revalidated: bool)
    requires 0 <= index < |v.workflowsValid|
    ensures var r := HandleWorkflowSelected(v, index, revalidated);
      var valid := if index == v.selectedWorkflowIndex then v.workflowsValid[index] else revalidated;
      && !r.threw
      && UpscaleEnabled(r.window) == Some(valid && !v.upscaling)
      && CurrentValid(r.window) == Some(valid)
  {
  }

  /** Selecting an index with no workflow leaves no current workflow, so the
      upscale button's getter throws; the selection itself throws unless
      the index was already the selected one. */
  lemma SelectionOutOfRange(v: Window, index: int, revalidated: bool)
    requires !(0 <= index < |v.workflowsValid|)
    ensures var r := HandleWorkflowSelected(v, index, revalidated);
      && UpscaleEnabled(r.window).None?
      && (r.threw <==> index != v.selectedWorkflowIndex)
  {
  }

  /** Moving to an index with no workflow throws before the settings page is
      left: a settings page that was requested stays requested. */
  lemma ThrowKeepsSettingsPage(v: Window, index: int, revalidated: bool)
    requires v.requestShowAppSettings && index != v.selectedWorkflowIndex
    requires !(0 <= index < |v.workflowsValid|)
    ensures HandleWorkflowSelected(v, index, revalidated).threw
    ensures HandleWorkflowSelected(v, index, revalidated).window.requestShowAppSettings
    ensures !ShowMainForm(HandleWorkflowSelected(v, index, revalidated).window)
  {
  }

  /** Selecting the settings entry asks for the settings page. */
  function HandleAppSettingsSelected(v: Window): (r: Window)
    ensures !r.isExtractingBackend <==> ShowAppSettings(r)
    ensures r.(requestShowAppSettings := v.requestShowAppSettings) == v
  {
    v.(requestShowAppSettings := true)
  }

  /** An upscale in progress disables both the upscale and the reinstall
      button; when neither it nor Python is running, reinstalling is allowed
      and upscaling follows the current workflow's Valid. */
  lemma UpscalingLocksButtons(v: Window)
    ensures v.upscaling ==> UpscaleEnabled(v) != Some(true) && !AllowReinstall(v)
    ensures !v.upscaling && !v.runningPython ==> AllowReinstall(v) && UpscaleEnabled(v) == CurrentValid(v)
    ensures UpscaleEnabled(v).None? <==> CurrentValid(v).None?
  {
  }

  const SelectedSuffix: string := " selected for upscaling."

  /** The bottom-left status: the validation text on one line while the
      workflow is invalid, otherwise what is selected for upscaling. */
  function LeftStatus(valid: bool, validationText: string, inputStatusText: string): (r: string)
    ensures !valid ==> r == SwapChar(validationText, '\n', ' ') && '\n' !in r
    ensures valid ==> r == inputStatusText + SelectedSuffix
    ensures valid ==> StartsWith(r, inputStatusText) && EndsWith(r, SelectedSuffix)
  {
    if !valid then
      ReplaceCharIsSwap(validationText, '\n', ' ');
      ReplaceAllRemovesChar(validationText, '\n', " ");
      ReplaceAll(validationText, "\n", " ")
    else
      var r := inputStatusText + SelectedSuffix;
      assert r[..|inputStatusText|] == inputStatusText;
      assert r[|r| - |SelectedSuffix|..] == SelectedSuffix;
      r
  }

  predicate OneLine(s: string) { '\n' !in s }

  lemma DigitsOneLine(n: nat)
    ensures OneLine(NatToString(n))
  {
    var d := NatToString(n);
    assert forall i :: 0 <= i < |d| ==> IsDigit(d[i]);
  }

  lemma FolderStatusOneLine(filesCount: nat, existCount: nat, overwriteText: string)
    requires OneLine(overwriteText)
    ensures OneLine(Validation.FolderStatus(filesCount, existCount, overwriteText))
  {
    DigitsOneLine(filesCount);
    DigitsOneLine(existCount);
    assert OneLine(" video file") && OneLine(" already exist") && OneLine(" and will be ");
  }

  lemma SingleStatusOneLine(count: nat, exists_: bool, overwriteText: string)
    requires OneLine(overwriteText)
    ensures OneLine(Validation.SingleStatus(count, exists_, overwriteText))
  {
    DigitsOneLine(count);
    assert OneLine(" video file") && OneLine(" (1 video file already exists and will be ");
  }

  /** The input status text CheckInputs sets is one line. */
  lemma StatusOneLine(v: Validation.InputsView)
    ensures OneLine(Validation.CheckInputs(v).status)
  {
    var w := v.current;
    var ot := Validation.OverwriteText(w);
    assert OneLine(ot);
    if w.valid && !v.upscaling {
      if w.selectedTabIndex == 0 {
        var exists_ := Validation.OutputExists(v, w.inputFilePath);
        var count := if exists_ && !w.overwriteExistingVideos then 0 else 1;
        SingleStatusOneLine(count, exists_, ot);
      } else {
        var videos := Validation.Videos(v.treeListing);
        FolderStatusOneLine(Validation.CountToUpscale(v, videos), Validation.CountExisting(v, videos), ot);
      }
    }
  }

  predicate AllOneLine(ms: seq<string>) { forall i :: 0 <= i < |ms| ==> OneLine(ms[i]) }

  lemma AllOneLineAppend(a: seq<string>, b: seq<string>)
    requires AllOneLine(a) && AllOneLine(b)
    ensures AllOneLine(a + b)
  {
    forall i | 0 <= i < |a + b| ensures OneLine((a + b)[i]) {
      if i < |a| { assert (a + b)[i] == a[i]; } else { assert (a + b)[i] == b[i - |a|]; }
    }
  }

  lemma RuleTextsOneLine()
    ensures OneLine(Validation.InputVideoRequired) && OneLine(Validation.InputFolderRequired)
    ensures OneLine(Validation.OutputFolderRequired) && OneLine(Validation.OutputFilenameRequired)
    ensures OneLine(Validation.ModelPathRequired)
  {
  }

  lemma RulesOneLine(w: Workflow.Workflow, fs: Paths.FileSystem)
    ensures AllOneLine(Validation.RuleMessages(w, fs))
  {
    RuleTextsOneLine();
    var input := if w.selectedTabIndex == 0 then
        (if fs.FileExists(w.inputFilePath) then [] else [Validation.InputVideoRequired])
      else
        (if fs.DirExists(w.inputFolderPath) then [] else [Validation.InputFolderRequired]);
    var folder := if IsBlank(w.outputFolderPath) then [Validation.OutputFolderRequired] else [];
    var name := if IsBlank(w.outputFilename) then [Validation.OutputFilenameRequired] else [];
    var models := Validation.ModelMessages(fs, w.models);
    AllOneLineAppend(input, folder);
    AllOneLineAppend(input + folder, name);
    AllOneLineAppend(input + folder + name, models);
  }

  /** Every message Validate can produce fits on one line. */
  lemma MessagesOneLine(w: Workflow.Workflow, fs: Paths.FileSystem, vm: Option<Validation.VmView>)
    ensures AllOneLine(Validation.Validate(w, fs, vm).messages)
  {
    var rules := Validation.RuleMessages(w, fs);
    RulesOneLine(w, fs);
    if vm.Some? {
      var check := Validation.CheckInputs(Validation.ViewFor(w, rules == [], fs, vm.value));
      StatusOneLine(Validation.ViewFor(w, rules == [], fs, vm.value));
      assert OneLine(" selected for upscaling.");
      assert OneLine(" At least one file must be selected.");
      AllOneLineAppend(rules, [Validation.AtLeastOneMessage(check.status)]);
    }
  }

  /** While the validated workflow is invalid, the status line is its
      messages joined by single spaces. */
  lemma LeftStatusJoinsMessages(w: Workflow.Workflow, fs: Paths.FileSystem, vm: Validation.VmView, inputStatus: string)
    ensures var r := Validation.Validate(w, fs, Some(vm));
      !r.valid ==> LeftStatus(false, r.validationText.value, inputStatus) == Join(" ", r.messages)
  {
    var r := Validation.Validate(w, fs, Some(vm));
    MessagesOneLine(w, fs, Some(vm));
    ReplaceJoin(r.messages, '\n', ' ');
  }
}
