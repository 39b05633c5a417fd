# VideoJaNai core, modelled in Dafny

VideoJaNai is a Windows desktop front end for upscaling anime video. The
user builds *upscale workflows*: an input video or folder, an output folder
and file-name pattern, an ffmpeg codec preset, a chain of ONNX upscaling
models, an optional RIFE frame interpolation, and a back end (TensorRT,
DirectML or NCNN). On "Upscale" the main window does three things:

- it writes the `animejanai.conf` configuration file;
- it runs VapourSynth's `vspipe` on the back-end script for every input video;
- it pipes the frames into ffmpeg.

The back-end script (`animejanai_core.py`) reads the configuration. It picks
the first chain of the slot whose resolution and frame-rate ranges admit the
clip. It then applies one 2x upscale per model, choosing a TensorRT engine or
an ONNX runtime. Last come the final resize, the output pixel format and the
optional RIFE interpolation.

Around this sit several services:

- the provisioning of the portable Python / VapourSynth back end;
- a resumable, retrying HTTP downloader;
- a zip extractor with progress reports;
- an ETA estimator over a sliding window of progress samples;
- ONNX model inspection that derives TensorRT engine settings.

The older AnimeJaNaiConverterGui window is the twin of the current one. It
differs in a fixed RIFE label dictionary, in a configuration written in the
current culture, and in having no back-end path or engine line.

The model is one Dafny module per component.

| module | models |
|---|---|
| `Common` | decimal digits, joining, replacement, ASCII lower-casing, filtering |
| `Paths` | the Windows `Path` helpers the code uses (`Join`, `Combine`, `GetFileName`, `GetExtension`, `GetDirectoryName`) |
| `DecimalText` | .NET `decimal` text, which is a mantissa with a scale (`0.150` keeps its zero), under a culture |
| `BoundedQueue` | the console and setup-status queues |
| `Workflow` | `UpscaleWorkflow` and `UpscaleModel`: defaults, setters, model list |
| `RifeNames` | the RIFE label ⇄ value codec and the RIFE model listing |
| `Validation` | `CheckInputs` and `Validate` |
| `ViewState` | the window's derived flags and status line |
| `ConfigText` | the configuration file as lines, and the INI lookup that reads it back |
| `UpscaleRun` | `RunUpscale`: the commands issued, in order |
| `LegacyGui` | the older window's differences |
| `Provisioning` | `CheckAndExtractBackend`, `ReinstallBackend`, `CleanupInstall`, `UpdateStatus` |
| `PythonService` | directory layout, install checks, `ExtractZip`, `AddPythonPth`, `AllModels` |
| `Downloader` | `DownloadFileAsync` as an event trace |
| `EtaWindow` | `ETACalculator` |
| `EngineChoice` | engine paths and `upscale2x` |
| `ChainRun` | `find_model`, `run_animejanai`, `run_animejanai_with_keybinding` |
| `OnnxModel` | `animejanai_onnx.py` |

Conventions:

- **Effects.** Side effects are explicit: a run is the sequence of actions,
  commands or events it would perform.
- **Environment.** File-system state, directory listings, what an action
  throws, and what the back-end tools produce are all parameters.
- **Model path text.** In the configuration file a model's ONNX path becomes
  its file name without extension. That rendering is a function field
  (`Printer.stem`) of the printer that writes model values.

## Model

| member | source | states |
|---|---|---|
| BoundedQueue.Enqueue | VideoJaNai/ViewModels/MainWindowViewModel.cs:732-740 | the queue keeps at most cap + 1 lines, the new line is last, and the result is the newest suffix of old queue + line |
| BoundedQueue.EnqueueByDequeue | AnimeJaNaiConverterGui/ViewModels/MainWindowViewModel.cs:549-557 | the dequeue-while-over-capacity loop computes exactly `Enqueue` |
| BoundedQueue.Clear | VideoJaNai/ViewModels/MainWindowViewModel.cs:726-730 | clearing leaves an empty queue |
| BoundedQueue.EnqueueAllKeepsNewest | VideoJaNai/ViewModels/MainWindowViewModel.cs:748-756 | from any reachable queue, a run of enqueues leaves exactly the newest cap + 1 lines of the whole history, in order |
| BoundedQueue.ConsoleBound | VideoJaNai/ViewModels/MainWindowViewModel.cs:139-154 | after a clear the console holds 1 to 1001 lines, and its last line is the latest one emitted |
| Workflow.CodecSettingsInjective | VideoJaNai/ViewModels/MainWindowViewModel.cs:171-174 | the four ffmpeg presets differ pairwise, so a settings string identifies its codec |
| Workflow.EngineSettingsInjective | VideoJaNai/ViewModels/MainWindowViewModel.cs:176-179 | the four TensorRT engine presets differ pairwise |
| Workflow.NewModel | VideoJaNai/ViewModels/MainWindowViewModel.cs:1968-2006 | a new model has an empty header and ONNX path, resize height 0 with the factor field enabled, and factor 100 |
| Workflow.NewWorkflow | VideoJaNai/ViewModels/MainWindowViewModel.cs:1555-1797 | a new workflow is invalid, on the first tab, with HEVC NVENC, TensorRT, automatic dynamic engine settings, final height 0 and factor 100, RIFE off with factor 2/1 and threshold 0.150, empty input and output paths, output name "%filename%-animejanai.mkv", no overwrite, advanced settings hidden, and no models |
| Workflow.CodecOf | VideoJaNai/ViewModels/MainWindowViewModel.cs:1585-1590 | a codec is reported exactly when some codec's flag holds, and the reported codec's flag holds |
| Workflow.CodecOfSettings | VideoJaNai/ViewModels/MainWindowViewModel.cs:1592 | storing a codec's settings string makes that codec the selected one |
| Workflow.BackendOf | VideoJaNai/ViewModels/MainWindowViewModel.cs:523 | the configuration's back end is DirectML if its flag is set, else NCNN if set, else TensorRT |
| Workflow.SetCodec | VideoJaNai/ViewModels/MainWindowViewModel.cs:1839-1857 | after a codec setter exactly that codec's flag holds and no other field changes |
| Workflow.SetEnginePreset | VideoJaNai/ViewModels/MainWindowViewModel.cs:1880-1898 | after an engine setter exactly that preset is selected and no other field changes |
| Workflow.SetBackend | VideoJaNai/ViewModels/MainWindowViewModel.cs:1859-1878 | after a back-end setter exactly one back end is selected, it is the chosen one, and only the three flags change (AnimeJaNaiConverterGui/ViewModels/MainWindowViewModel.cs:1081-1100 is the same) |
| Workflow.SetEngineSettingsAuto | VideoJaNai/ViewModels/MainWindowViewModel.cs:1900-1908 | only the auto flag changes; the chosen preset is kept for when auto is switched off |
| Workflow.SetFinalResizeHeight | VideoJaNai/ViewModels/MainWindowViewModel.cs:1672-1692 | the stored height is `value ?? 0`; a cleared or zero height enables the final-resize factor, any other height disables it; no other field changes |
| Workflow.SetFinalResizeFactor | VideoJaNai/ViewModels/MainWindowViewModel.cs:1684-1689 | a cleared field stores 100, otherwise the value; nothing else changes |
| Workflow.SetRifeFactorNumerator | VideoJaNai/ViewModels/MainWindowViewModel.cs:1773-1778 | a cleared field stores 2, otherwise the value; nothing else changes |
| Workflow.SetRifeFactorDenominator | VideoJaNai/ViewModels/MainWindowViewModel.cs:1781-1786 | a cleared field stores 1, otherwise the value; nothing else changes |
| Workflow.StoreIfChanged | VideoJaNai/ViewModels/MainWindowViewModel.cs:1794 | RaiseAndSetIfChanged on a decimal: the stored decimal is kept when the new one is equal in value, whatever its scale, and replaced otherwise; either way the field equals the new value |
| Workflow.SetRifeSceneDetectThreshold | VideoJaNai/ViewModels/MainWindowViewModel.cs:1789-1794 | the field ends equal in value to `value ?? 0.150`; the stored threshold is kept exactly when it already had that value, and otherwise takes the entered decimal with its scale; no other field changes |
| Workflow.EqualThresholdKeepsScale | VideoJaNai/ViewModels/MainWindowViewModel.cs:1794 | entering 0.15 over the default 0.150 leaves the workflow, and so the printed "0.150", as it was |
| DecimalText.ScaleIsNotValue | VideoJaNai/ViewModels/MainWindowViewModel.cs:1794 | 0.150 and 0.15 are equal decimals although they are different mantissa and scale pairs; 0.150 and 0.16 are not equal |
| ConfigText.SetThresholdReachesConfig | VideoJaNai/ViewModels/MainWindowViewModel.cs:553 | after the threshold setter, the written rife_scene_detect_threshold reads back as a decimal equal in value to `value ?? 0.150` |
| Workflow.SetResizeHeight | VideoJaNai/ViewModels/MainWindowViewModel.cs:1978-1986 | the stored height is `value ?? 0`; a cleared or zero height enables the model's factor field, any other height disables it; no other field changes |
| ConfigText.SetFinalResizeHeightReachesConfig | VideoJaNai/ViewModels/MainWindowViewModel.cs:555 | after the final-height setter, the written file's final_resize_height reads back as `value ?? 0` |
| ConfigText.SetResizeHeightReachesConfig | VideoJaNai/ViewModels/MainWindowViewModel.cs:542 | after a model's height setter, that model's resize_height_before_upscale reads back as `value ?? 0` |
| Workflow.SetResizeFactor | VideoJaNai/ViewModels/MainWindowViewModel.cs:1990-1995 | the factor ends equal in value to `value ?? 100`; the stored factor is kept exactly when it already had that value, and otherwise takes the entered decimal with its scale; no other field changes |
| ConfigText.SetResizeFactorReachesConfig | VideoJaNai/ViewModels/MainWindowViewModel.cs:543 | after a model's factor setter, that model's resize_factor_before_upscale reads back as a decimal equal in value to `value ?? 100` |
| Workflow.HeaderInjective | VideoJaNai/ViewModels/MainWindowViewModel.cs:1831-1837 | the headers "Model i+1" of different positions differ |
| Workflow.Renumber | AnimeJaNaiConverterGui/ViewModels/MainWindowViewModel.cs:1053-1059 | entry i gets header "Model i+1", the length is kept and nothing else of any entry changes |
| Workflow.RenumberIdempotent | VideoJaNai/ViewModels/MainWindowViewModel.cs:1831-1837 | renumbering twice is renumbering once |
| Workflow.AddModel | VideoJaNai/ViewModels/MainWindowViewModel.cs:1811-1815 | one default model is appended, the earlier models are kept, all are renumbered, and no other field changes |
| Workflow.DeleteModel | VideoJaNai/ViewModels/MainWindowViewModel.cs:1817-1829 | deleting a listed model removes exactly it, keeping the others in order; deleting one not in the list removes nothing; all are renumbered |
| RifeNames.ValueToLabel | VideoJaNai/ViewModels/MainWindowViewModel.cs:492-518 | the empty value maps to itself, and a one-character value throws; otherwise the label starts "RIFE ", then the first digit and a '.' |
| RifeNames.LabelToValue | VideoJaNai/ViewModels/MainWindowViewModel.cs:469-490 | the empty label maps to itself; any other label without a match throws with that label |
| RifeNames.ValueLabelRoundTrip | VideoJaNai/ViewModels/MainWindowViewModel.cs:469-518 | every value of the shape the listing produces survives value → label → value |
| RifeNames.LabelValueRoundTrip | VideoJaNai/ViewModels/MainWindowViewModel.cs:477-485 | "RIFE d.mm", "RIFE d.mm Lite" and "RIFE d.m" survive label → value → label |
| RifeNames.ShortLiteLabelLosesLite | VideoJaNai/ViewModels/MainWindowViewModel.cs:501-514 | "RIFE d.m Lite" gives the value dm1, which prints back as "RIFE d.m1": the round trip needs a two-digit minor |
| RifeNames.NoPrefixRejected | VideoJaNai/ViewModels/MainWindowViewModel.cs:477-489 | non-empty text with no "RIFE " anywhere throws |
| RifeNames.FileValue | VideoJaNai/ViewModels/MainWindowViewModel.cs:428-435 | a matched file name yields at least two digits |
| RifeNames.FileNameGroups | VideoJaNai/ViewModels/MainWindowViewModel.cs:428-431 | `rife_v<major>.<minor>` with any of the optional `_lite`, `_ensemble` suffixes and `.onnx` yields major followed by minor |
| RifeNames.LiteFileValue | VideoJaNai/ViewModels/MainWindowViewModel.cs:432-435 | a lite model file yields major, minor, then "1" |
| RifeNames.SortDescending | VideoJaNai/ViewModels/MainWindowViewModel.cs:444-460 | the sort returns a permutation ordered by the comparer: the first three digits as a number, plus 0.1 for a lite value, largest first |
| RifeNames.AddValue | VideoJaNai/ViewModels/MainWindowViewModel.cs:437-440 | a value already listed is not added again; a new one is appended |
| RifeNames.CollectValues | VideoJaNai/ViewModels/MainWindowViewModel.cs:425-442 | the collected values have no repeats |
| RifeNames.CollectValuesMembers | VideoJaNai/ViewModels/MainWindowViewModel.cs:425-442 | a value is collected exactly when some file yields it |
| RifeNames.RifeModels | VideoJaNai/ViewModels/MainWindowViewModel.cs:409-422 | a cached list is returned unchanged; a missing directory gives an empty list without caching it; otherwise the computed list is cached |
| RifeNames.RifeModelsContents | VideoJaNai/ViewModels/MainWindowViewModel.cs:423-466 | the labels are those of the distinct file values, in descending order, and each file value appears once |
| RifeNames.DistinctPermutation | VideoJaNai/ViewModels/MainWindowViewModel.cs:444-460 | sorting keeps a list free of repeats |
| Validation.OutputPathSingleToken | VideoJaNai/ViewModels/MainWindowViewModel.cs:342-344 | with one `%filename%` token, the output name is the pattern with the token replaced by the input's name without extension |
| Validation.OutputPathWithoutToken | VideoJaNai/ViewModels/MainWindowViewModel.cs:373-375 | a pattern without '%' sends every input to the same output path |
| Validation.FiltersAgree | VideoJaNai/ViewModels/MainWindowViewModel.cs:367-368 | the status count's suffix test and the run's extension test accept the same paths |
| Validation.Videos | VideoJaNai/ViewModels/MainWindowViewModel.cs:367-368 | a path is counted exactly when it is listed and ends, lower-cased, with a video extension; the counted paths keep the listing's order and multiplicity |
| Validation.CountsCover | VideoJaNai/ViewModels/MainWindowViewModel.cs:379-389 | with overwriting every video counts; without it, the videos to upscale and those already present add up to all of them |
| Validation.FolderStatus | VideoJaNai/ViewModels/MainWindowViewModel.cs:392-396 | the folder status starts with the count and "video file", plural exactly when the count is not 1; it ends with the bracket " (<existing> video file… and will be <overwrite text>)", where "video files already exist" appears exactly when the existing count is not 1 and "video file already exists" exactly when it is 1 |
| Validation.SingleStatus | VideoJaNai/ViewModels/MainWindowViewModel.cs:346-356 | the single-file status starts with the count and "video file", plural exactly when the count is 0 (the file is skipped); it ends with " (1 video file already exists and will be <overwrite text>)" exactly when the output exists |
| Validation.CheckInputs | VideoJaNai/ViewModels/MainWindowViewModel.cs:327-405 | nothing counts unless the current workflow is valid and idle, and the status is then "0 video files"; a single video counts unless its output exists and overwriting is off, and the status is the single-file status of that count; a folder counts every missing output, or every video when overwriting, and the status is the folder status of that count and the count of existing outputs |
| Validation.CountFolder | AnimeJaNaiConverterGui/ViewModels/MainWindowViewModel.cs:306-325 | the counting loop's two counters equal the videos to upscale and the outputs that exist |
| Validation.ModelMessages | VideoJaNai/ViewModels/MainWindowViewModel.cs:1943-1950 | only the model-path message, at most once per model: none exactly when every model file exists, one per model exactly when none does |
| Validation.Validate | VideoJaNai/ViewModels/MainWindowViewModel.cs:1910-1964 | the rule messages come first, in rule order; detached, Valid is "no rule fired"; attached, a zero count adds the "at least one file" message and the joined text is published |
| Validation.FailedRuleAddsTrailingMessage | AnimeJaNaiConverterGui/ViewModels/MainWindowViewModel.cs:1102-1156 | when the current workflow fails a rule, its own CheckInputs sees it invalid, so "0 video files … At least one file must be selected." always follows |
| Validation.ValidIffNoMessage | VideoJaNai/ViewModels/MainWindowViewModel.cs:1952-1960 | Valid holds exactly when no message was produced |
| ViewState.ScreensExclusive | VideoJaNai/ViewModels/MainWindowViewModel.cs:202-204 | the settings page and the main form never show together; during extraction neither shows, otherwise exactly one |
| ViewState.HandleWorkflowSelected | VideoJaNai/ViewModels/MainWindowViewModel.cs:290-319 | the chosen index becomes current; moving to an index with no workflow throws from the revalidating subscription, so the settings request stays as it was; otherwise the settings request is cleared, the main form shows unless the back end is being extracted, a newly chosen workflow is revalidated, and no other workflow's validity changes |
| ViewState.CurrentValid | VideoJaNai/ViewModels/MainWindowViewModel.cs:303-306 | there is a current workflow exactly when the selected index is in range, and its Valid is the one at that index |
| ViewState.SelectionDecidesUpscale | VideoJaNai/ViewModels/MainWindowViewModel.cs:43-49 | after selecting an existing workflow, the upscale button follows that workflow's Valid (recomputed when the index changed), never the one selected before |
| ViewState.SelectionOutOfRange | VideoJaNai/ViewModels/MainWindowViewModel.cs:278 | after selecting an index with no workflow, reading the upscale button's state throws, and the selection itself threw exactly when the index changed |
| ViewState.ThrowKeepsSettingsPage | VideoJaNai/ViewModels/MainWindowViewModel.cs:43-49 | when the subscription throws on a new index with no workflow, the settings page stays requested and the main form does not show |
| ViewState.HandleAppSettingsSelected | VideoJaNai/ViewModels/MainWindowViewModel.cs:321-324 | the settings page shows unless the back end is being extracted; nothing else changes |
| ViewState.UpscalingLocksButtons | VideoJaNai/ViewModels/MainWindowViewModel.cs:231-278 | an upscale in progress disables the upscale and reinstall buttons; otherwise, with Python idle, reinstall is allowed and upscale follows the selected workflow's validity; without a selected workflow there is no upscale state at all |
| ViewState.LeftStatus | VideoJaNai/ViewModels/MainWindowViewModel.cs:217 | while invalid, the validation text with its newlines turned into spaces (so one line); while valid, exactly the input status followed by " selected for upscaling." |
| ViewState.StatusOneLine | VideoJaNai/ViewModels/MainWindowViewModel.cs:355-399 | every input status text CheckInputs sets is a single line |
| ViewState.MessagesOneLine | VideoJaNai/ViewModels/MainWindowViewModel.cs:1914-1960 | every validation message is a single line |
| ViewState.LeftStatusJoinsMessages | VideoJaNai/ViewModels/MainWindowViewModel.cs:217 | while invalid, the status line is the validation messages joined by single spaces |
| DecimalText.RenderRoundTrip | VideoJaNai/ViewModels/MainWindowViewModel.cs:542-556 | a decimal written in the fixed English culture parses back to the same mantissa and scale |
| DecimalText.RenderIntIsDecimal | VideoJaNai/ViewModels/MainWindowViewModel.cs:550-551 | an integer prints as the scale-0 decimal of the same value, so it reads back too |
| DecimalText.CultureOnlyMovesSeparator | AnimeJaNaiConverterGui/ViewModels/MainWindowViewModel.cs:375 | under any culture with "-" as its sign, the text is the English text with its single '.' replaced by the culture's separator |
| DecimalText.InvariantRenderHasNoComma | VideoJaNai/ViewModels/MainWindowViewModel.cs:30 | English-culture text never contains a comma |
| DecimalText.FractionNeedsDot | VideoJaNai/ViewModels/MainWindowViewModel.cs:554 | a value with a fractional part is read only from text that has a '.' |
| ConfigText.KeyTextInjective | VideoJaNai/ViewModels/MainWindowViewModel.cs:542-557 | different keys of the file have different texts (model numbers included) |
| ConfigText.ParseLineText | VideoJaNai/ViewModels/MainWindowViewModel.cs:525-557 | every line the writer emits parses back as that line |
| ConfigText.LookupIsFind | VideoJaNai/ViewModels/MainWindowViewModel.cs:525-557 | the textual INI lookup agrees with the structured one on every key |
| ConfigText.Config | VideoJaNai/ViewModels/MainWindowViewModel.cs:520-560 | writing throws exactly when the RIFE label has no value; otherwise the file has 6 + 3·models + 9 lines |
| ConfigText.LookupBackend | VideoJaNai/ViewModels/MainWindowViewModel.cs:523-528 | reading back gives the selected back end's name and the back-end directory |
| ConfigText.LookupModel | VideoJaNai/ViewModels/MainWindowViewModel.cs:533-545 | reading model n's keys gives model n's values for 1 ≤ n ≤ count, and nothing for any other n |
| ConfigText.ModelNumbersReadBack | VideoJaNai/ViewModels/MainWindowViewModel.cs:542-543 | a model's height and factor texts parse back to their values |
| ConfigText.LookupThreshold | VideoJaNai/ViewModels/MainWindowViewModel.cs:554 | the scene-detection threshold reads back as the same decimal |
| ConfigText.LookupRifeAndEngine | VideoJaNai/ViewModels/MainWindowViewModel.cs:552-557 | the RIFE value reads back as the label codec's value; the engine line reads back as the engine value, which is empty when auto is on |
| ConfigText.ConfigReadsBack | VideoJaNai/ViewModels/MainWindowViewModel.cs:559 | every line of the written file parses back to itself |
| ConfigText.BackendPathPresence | AnimeJaNaiConverterGui/ViewModels/MainWindowViewModel.cs:347-352 | the back-end path is found exactly when the writer was given one |
| ConfigText.TrailerKeys | VideoJaNai/ViewModels/MainWindowViewModel.cs:547-557 | the trailer lines are key/value pairs on the trailer keys |
| ConfigText.BlockKeys | VideoJaNai/ViewModels/MainWindowViewModel.cs:533-545 | the model blocks are key/value pairs on model keys |
| ConfigText.GlobalPairsFound | VideoJaNai/ViewModels/MainWindowViewModel.cs:525-528 | in the global section, the back end and the optional back-end path are found with their written values |
| UpscaleRun.EncodeCommand | VideoJaNai/ViewModels/MainWindowViewModel.cs:667-672 | the encode command begins with VSPipe reading the input, the script piped into ffmpeg with the overwrite switch reading the pipe, and ends with the quoted output path |
| UpscaleRun.EngineCommand | VideoJaNai/ViewModels/MainWindowViewModel.cs:674-679 | the engine command is VSPipe on the input for frames 0 to 1, ending with the script and " -p ." |
| UpscaleRun.EncodeCommandNamesOutput | VideoJaNai/ViewModels/MainWindowViewModel.cs:669 | two encode commands for the same input are equal exactly when their output paths are |
| UpscaleRun.EncodeCommandArguments | VideoJaNai/ViewModels/MainWindowViewModel.cs:669 | the encode command starts with the VSPipe path and contains the video-path script argument, the script reading from the pipe, ffmpeg's `-i "input"` and `-c:v` with the workflow's video settings |
| UpscaleRun.EngineCommandNamesInput | VideoJaNai/ViewModels/MainWindowViewModel.cs:677 | two engine commands are equal exactly when their inputs are |
| UpscaleRun.PipeHead | VideoJaNai/ViewModels/MainWindowViewModel.cs:669 | both commands start with VSPipe in y4m mode for slot 1 and end their head with the video-path argument |
| UpscaleRun.OverwriteSwitch | VideoJaNai/ViewModels/MainWindowViewModel.cs:169 | ffmpeg gets "-y" exactly when overwriting and nothing otherwise |
| UpscaleRun.EngineSteps | VideoJaNai/ViewModels/MainWindowViewModel.cs:562-580 | on TensorRT one engine run per model, otherwise none |
| UpscaleRun.RunVideos | VideoJaNai/ViewModels/MainWindowViewModel.cs:608 | a folder run encodes exactly the listed top-level files with a video extension, ignoring case, in listing order and with their multiplicity |
| UpscaleRun.RunInputs | VideoJaNai/ViewModels/MainWindowViewModel.cs:595-621 | the single input, or the folder listing filtered to videos, in listing order and with their multiplicity |
| UpscaleRun.StepsEncodeInputs | VideoJaNai/ViewModels/MainWindowViewModel.cs:610-621 | a run encodes its inputs in order, each to its output path |
| UpscaleRun.StepsEngineRuns | VideoJaNai/ViewModels/MainWindowViewModel.cs:613 | on TensorRT a run builds the engine (models × inputs) times, never otherwise |
| UpscaleRun.EnginesPrecedeEncode | VideoJaNai/ViewModels/MainWindowViewModel.cs:598-603 | an input's engine runs all come before its single encode, which is its last step |
| UpscaleRun.Run | VideoJaNai/ViewModels/MainWindowViewModel.cs:582-644 | an unknown RIFE label throws after Upscaling is set, so the flag stays set and nothing runs; otherwise the file is written, the commands are the steps of the run's inputs in order, every input is encoded and Upscaling is cleared |
| UpscaleRun.LegacyRun | AnimeJaNaiConverterGui/ViewModels/MainWindowViewModel.cs:402-464 | a label outside the dictionary throws with Upscaling still set and nothing run; otherwise the file is the as-written older config, the same steps run and Upscaling is cleared |
| UpscaleRun.LegacyRunWithLiteLabel | AnimeJaNaiConverterGui/ViewModels/MainWindowViewModel.cs:54 | a run with "RIFE 4.13 Lite" succeeds, writes the value 413 and encodes every target |
| UpscaleRun.RunInputsAreCounted | VideoJaNai/ViewModels/MainWindowViewModel.cs:367-368 | every video a folder run encodes is also counted by the recursive status count |
| LegacyGui.LookupIn | AnimeJaNaiConverterGui/ViewModels/MainWindowViewModel.cs:373 | indexing finds the key's entry, or throws KeyNotFoundException for that key |
| LegacyGui.MapLabelAsWritten | AnimeJaNaiConverterGui/ViewModels/MainWindowViewModel.cs:49-56 | the declared dictionary maps exactly the five listed labels |
| LegacyGui.MapLabel | AnimeJaNaiConverterGui/ViewModels/MainWindowViewModel.cs:49-56 | the corrected dictionary maps the same five labels |
| LegacyGui.ListedLabelsAreKeys | AnimeJaNaiConverterGui/ViewModels/MainWindowViewModel.cs:977-985 | the default choice and every choice offered are keys of the dictionary |
| LegacyGui.LiteLabelSelectsFullModel | AnimeJaNaiConverterGui/ViewModels/MainWindowViewModel.cs:49-56 | as declared, "RIFE 4.13 Lite" and "RIFE 4.13" both give 413, while the label codec gives 4131 for the lite label |
| LegacyGui.CorrectedMatchesCodec | VideoJaNai/ViewModels/MainWindowViewModel.cs:469-490 | the corrected dictionary agrees with the label codec on every label |
| LegacyGui.CorrectedInjective | AnimeJaNaiConverterGui/ViewModels/MainWindowViewModel.cs:49-56 | different labels of the corrected dictionary give different values |
| LegacyGui.LegacyConfig | AnimeJaNaiConverterGui/ViewModels/MainWindowViewModel.cs:342-380 | writing with the declared dictionary throws exactly for a label outside it, naming that label; otherwise the file has 5 + 3·models + 8 lines |
| LegacyGui.CorrectedLegacyConfig | AnimeJaNaiConverterGui/ViewModels/MainWindowViewModel.cs:342-380 | the same writer with the corrected dictionary: same error cases and line count |
| LegacyGui.LiteLabelWritesFullModel | AnimeJaNaiConverterGui/ViewModels/MainWindowViewModel.cs:54 | for "RIFE 4.13 Lite" the file as written reads back rife value 413; corrected it reads 4131 |
| LegacyGui.CorrectedRifeMatchesCodec | VideoJaNai/ViewModels/MainWindowViewModel.cs:469-490 | the corrected file's rife value is the label codec's value for the workflow's label |
| LegacyGui.OlderLinesKeys | AnimeJaNaiConverterGui/ViewModels/MainWindowViewModel.cs:354-377 | the older line layout names the back end and the rife value, and has no back-end path or engine key |
| LegacyGui.LegacyKeys | AnimeJaNaiConverterGui/ViewModels/MainWindowViewModel.cs:347-352 | the older file names the back end and the dictionary's value for the label, but no back-end path and no engine settings |
| LegacyGui.LegacyModels | AnimeJaNaiConverterGui/ViewModels/MainWindowViewModel.cs:354-366 | model blocks read back in list order with 1-based numbers |
| LegacyGui.CommaCultureLosesThreshold | AnimeJaNaiConverterGui/ViewModels/MainWindowViewModel.cs:375 | under a comma culture a fractional threshold is written with a comma and does not read back as the decimal |
| Provisioning.PythonInstallStepsOrdered | VideoJaNai/ViewModels/MainWindowViewModel.cs:815-834 | the first-run install steps come in the written order |
| Provisioning.CheckAndExtract | VideoJaNai/ViewModels/MainWindowViewModel.cs:805-907 | the failed flag is set exactly when it was set before or a block threw; the failure text is shown and extraction stays flagged exactly when a block threw |
| Provisioning.Guarded | VideoJaNai/ViewModels/MainWindowViewModel.cs:867-903 | the models step is tried exactly when the models are missing, the ffmpeg step exactly when ffmpeg is |
| Provisioning.RunIsOrdered | VideoJaNai/ViewModels/MainWindowViewModel.cs:805-907 | the actions of a run, across the start-over included, come in the written order, so none repeats |
| Provisioning.FailureStopsTheRun | VideoJaNai/ViewModels/MainWindowViewModel.cs:836-846 | the action that throws is the last one started; every earlier action succeeded or had its exception swallowed |
| Provisioning.StepsAreGuarded | VideoJaNai/ViewModels/MainWindowViewModel.cs:813-886 | each install step runs only when its component is missing; a run that does not fail installs every missing one |
| Provisioning.StartsOverAtMostOnce | VideoJaNai/ViewModels/MainWindowViewModel.cs:850-861 | an outdated vs-mlrt deletes Python and starts over once; the second pass never queries the version |
| Provisioning.Reinstall | VideoJaNai/ViewModels/MainWindowViewModel.cs:924-936 | a failing directory deletion escapes; otherwise provisioning runs with Python and ffmpeg missing |
| Provisioning.ReinstallRunsEverything | VideoJaNai/ViewModels/MainWindowViewModel.cs:924-936 | a reinstall starts with the VapourSynth install and, when nothing throws, runs the whole install and ends with ffmpeg |
| Provisioning.CleanupTopDirs | VideoJaNai/ViewModels/MainWindowViewModel.cs:1262-1271 | exactly the existing leftover installer directories are deleted |
| Provisioning.PrunedModelDirs | VideoJaNai/ViewModels/MainWindowViewModel.cs:1273-1279 | every vs-mlrt model directory except "rife" is deleted |
| Provisioning.OnlyRifeRemains | VideoJaNai/ViewModels/MainWindowViewModel.cs:1273-1279 | after cleanup the remaining model directories are exactly those named "rife" |
| Provisioning.Cleanup | VideoJaNai/ViewModels/MainWindowViewModel.cs:1260-1280 | every model directory not named "rife" is among the deleted ones |
| Provisioning.UpdateStatus | VideoJaNai/ViewModels/MainWindowViewModel.cs:1421-1448 | check-update shows exactly without an update, download with one not yet pending, apply with one pending; the text names the version |
| Provisioning.ExactlyOneButton | VideoJaNai/ViewModels/MainWindowViewModel.cs:1421-1448 | exactly one of the three buttons shows, and without an update the pending state is not consulted |
| PythonService.Layout | VideoJaNai/Services/PythonService.cs:44-48 | python, ffmpeg and animejanai sit in the back-end directory under those names; the models are in animejanai's onnx folder |
| PythonService.ModelsOutsidePython | VideoJaNai/Services/PythonService.cs:44-47 | the models directory is not inside the Python or ffmpeg directory, so deleting those keeps the models |
| PythonService.AreModelsInstalled | VideoJaNai/Services/PythonService.cs:55 | true exactly when the models directory exists and directly holds a file |
| PythonService.Percent | VideoJaNai/Services/PythonService.cs:121 | a reported percentage never exceeds 100 |
| PythonService.WritesEveryFile | VideoJaNai/Services/PythonService.cs:85-119 | every file entry is written to the output folder combined with its name, in archive order; directory entries are skipped |
| PythonService.ProgressNeverDecreases | VideoJaNai/Services/PythonService.cs:121-122 | the reported percentages never decrease and stay within 0..100 |
| PythonService.DirectoryBeforeFile | VideoJaNai/Services/PythonService.cs:102-118 | a file is written right after its directory is created |
| PythonService.PthReadsBack | VideoJaNai/Services/PythonService.cs:127-136 | the ._pth file reads back as exactly its five lines, in order |
| PythonService.Sort | VideoJaNai/Services/PythonService.cs:181 | the names come out sorted, as a permutation of the input |
| PythonService.ModelNames | VideoJaNai/Services/PythonService.cs:174-180 | a name is listed exactly when a model file of the listing has it |
| PythonService.AllModels | VideoJaNai/Services/PythonService.cs:165-196 | a cached list is returned unchanged; a missing directory gives an empty list and no cache; otherwise the sorted names become the cache |
| PythonService.AllModelsIsSticky | VideoJaNai/Services/PythonService.cs:169-185 | once read, the list is returned even if the directory changes |
| PythonService.AllModelsNames | VideoJaNai/Services/PythonService.cs:174-181 | a name is in the list exactly when some model file of the directory has it |
| Downloader.Loop | VideoJaNai/Services/Downloader.cs:21-79 | the bytes on disk never shrink |
| Downloader.LoopAttempts | VideoJaNai/Services/Downloader.cs:21-79 | the loop makes attempts while they fail with a retried exception and the budget lasts, and the last attempt decides the outcome |
| Downloader.LoopDelays | VideoJaNai/Services/Downloader.cs:62-77 | after the k-th retried failure the loop waits 2·k seconds, one delay fewer than attempts |
| Downloader.LoopRanges | VideoJaNai/Services/Downloader.cs:31-34 | each request resumes from exactly the bytes already read, with a Range header exactly when that count is positive |
| Downloader.DownloadFileShape | VideoJaNai/Services/Downloader.cs:14-80 | the whole download: attempts, outcome, backoff and resume offsets; a non-positive budget does nothing and returns normally |
| Downloader.FirstRequestFromStart | VideoJaNai/Services/Downloader.cs:16-34 | the first request has no Range header |
| Downloader.ProgressNeedsLength | VideoJaNai/Services/Downloader.cs:39-55 | progress is reported only when a content length is declared, then once per chunk |
| Downloader.ResumeOvershoots | VideoJaNai/Services/Downloader.cs:39-55 | as written, a resumed attempt reports 100 bytes out of 50, a progress of 200 percent |
| Downloader.ResumeAwareWithinTotal | VideoJaNai/Services/Downloader.cs:51-55 | measured from the bytes on disk, no progress report of an honest server's download exceeds its total |
| Downloader.ResumeAwareReachesTotal | VideoJaNai/Services/Downloader.cs:51-55 | measured that way, the resumed download ends at 100 out of 100 |
| EtaWindow.Create | VideoJaNai/Services/ETACalculator.cs:49-55 | the constructor throws exactly when the 32-bit product `minimumData * 2` is negative, so it accepts every minimum in [0, 2^30) and rejects every one in [-2^30, 0); otherwise the estimator keeps its settings and has an empty queue, a stopwatch at zero and unset samples |
| EtaWindow.WrappedCapacityReachesPeek | VideoJaNai/Services/ETACalculator.cs:53 | the product wraps for -2^30 - 1, so that negative minimum is accepted and the first update then peeks at the empty queue and throws |
| EtaWindow.CreateValid | VideoJaNai/Services/ETACalculator.cs:49-55 | a created estimator is valid exactly when its minimum is not negative |
| EtaWindow.Reset | VideoJaNai/Services/ETACalculator.cs:65-71 | the queue empties and the stopwatch restarts; the samples and settings are kept |
| EtaWindow.ClearExpired | VideoJaNai/Services/ETACalculator.cs:73-80 | peeking an empty queue throws exactly when the minimum is negative and every item expired; otherwise the queue only shrinks |
| EtaWindow.ClearExpiredShape | VideoJaNai/Services/ETACalculator.cs:73-80 | clearing drops an expired prefix, stopping at the minimum count or the first fresh item, and `oldest` is the last dropped |
| EtaWindow.ClearExpiredIdempotent | VideoJaNai/Services/ETACalculator.cs:73-80 | clearing again with the same threshold drops nothing more |
| EtaWindow.Update | VideoJaNai/Services/ETACalculator.cs:86-107 | unchanged progress is ignored; otherwise expiry is measured at the first stopwatch reading, the queue is the expiry-cleared queue plus a new sample taken at the second, later reading, which becomes `current`, and `oldest` is the last sample dropped or the new one when it is alone; it throws exactly when the minimum is negative and every sample expired |
| EtaWindow.ETR | VideoJaNai/Services/ETACalculator.cs:111-131 | the estimate is unbounded exactly when the ETA is not available; otherwise the remaining ticks times the progress gained equal the progress left times the ticks taken, from `oldest` to `current` |
| EtaWindow.UpdateKeepsValid | VideoJaNai/Services/ETACalculator.cs:86-107 | on a valid estimator an update never throws, and it keeps a non-negative minimum and samples in tick order, none later than the stopwatch, the last one `current` |
| EtaWindow.UpdateKeepsMinimum | VideoJaNai/Services/ETACalculator.cs:76 | once the queue holds the minimum it never drops below it |
| EtaWindow.EtrNonNegative | VideoJaNai/Services/ETACalculator.cs:121-129 | with rising progress the estimate is a non-negative number of ticks |
| EngineChoice.StaticEngineNamesDistinct | VideoJaNai/backend/animejanai/core/animejanai_core.py:72-77 | static engines for different sizes have different names, none equal to the dynamic engine's |
| EngineChoice.StaticEnginePathsDistinct | VideoJaNai/backend/animejanai/core/animejanai_core.py:72-73 | engines for different sizes of one model never share a file |
| EngineChoice.TryDynamic | VideoJaNai/backend/animejanai/core/animejanai_core.py:193-212 | the dynamic engine is used when it exists or is built and loads; a failed build with the ONNX present exits |
| EngineChoice.Upscale2x | VideoJaNai/backend/animejanai/core/animejanai_core.py:133-173 | no model leaves the clip; a static engine is used only if its file exists; the dynamic engine only for clips up to 1920x1080 |
| EngineChoice.OnnxBackends | VideoJaNai/backend/animejanai/core/animejanai_core.py:142-152 | DirectML and NCNN run the ONNX network directly |
| EngineChoice.TensorRtChoice | VideoJaNai/backend/animejanai/core/animejanai_core.py:154-173 | TensorRT prefers an existing static engine, then the dynamic attempt for small clips, else no clip |
| EngineChoice.NumStreams | VideoJaNai/backend/animejanai/core/animejanai_core.py:235 | each model gets 4 div models streams when there are at most 4 models and 1 otherwise; never more than 4 in all when there are at most 4 |
| ChainRun.Lookup | VideoJaNai/backend/animejanai/core/animejanai_core.py:63-64 | a found value is stored under the key; none is found only when no entry has the key |
| ChainRun.FindModel | VideoJaNai/backend/animejanai/core/animejanai_core.py:58-65 | the model is the slot's `<type>_model` entry, or none when the slot or key is absent |
| ChainRun.FindModelIgnoresCase | VideoJaNai/backend/animejanai/core/animejanai_core.py:60 | the model type is matched regardless of case |
| ChainRun.OutputFormat | VideoJaNai/backend/animejanai/core/animejanai_core.py:264-270 | the output keeps the input format when it is one of the eight YUV formats, else YUV420P10 |
| ChainRun.FinalResizeChoice | VideoJaNai/backend/animejanai/core/animejanai_core.py:259-262 | resize to the configured height when it is set and differs, else by the factor when not 100 |
| ChainRun.RunModelsFacts | VideoJaNai/backend/animejanai/core/animejanai_core.py:229-257 | the log names the models in chain order and no RIFE step; there is one upscale per model, each with the given streams |
| ChainRun.ModelPassFacts | VideoJaNai/backend/animejanai/core/animejanai_core.py:231-257 | a resize height forces the factor to 100; a factor other than 100 is logged before the model |
| ChainRun.UpscaleModelFacts | VideoJaNai/backend/animejanai/core/animejanai_core.py:290-298 | one 2x upscale with the given streams and no model or RIFE log line; a resize line is logged exactly when the height is set and differs from the clip's |
| ChainRun.NoConvertInModels | VideoJaNai/backend/animejanai/core/animejanai_core.py:229-257 | the model loop adds no format conversion and no interpolation |
| ChainRun.RunChainFacts | VideoJaNai/backend/animejanai/core/animejanai_core.py:215-287 | with models the output is converted to a kept format, without models the format is untouched; the log names the models in chain order |
| ChainRun.RunChainRife | VideoJaNai/backend/animejanai/core/animejanai_core.py:272-285 | RIFE runs exactly when enabled, as the last stage, with the chain's model, factor numerator and denominator, ensemble flag and scene threshold on the container's frame rate, on TensorRT exactly when that is the back end; its log step reports twice the container's frame rate whatever the factor |
| ChainRun.RunChainStreams | VideoJaNai/backend/animejanai/core/animejanai_core.py:235 | a chain with models runs one upscale per model, each with `NumStreams` of the model count as its TensorRT streams |
| ChainRun.SelectChain | VideoJaNai/backend/animejanai/core/animejanai_core.py:316-333 | the chosen entry is the first chain key whose ranges admit the clip; none when every entry is passed over; a chain key without chain settings fails |
| ChainRun.RunActive | VideoJaNai/backend/animejanai/core/animejanai_core.py:331 | the active chain runs with the global back end |
| ChainRun.KeybindingLog | VideoJaNai/backend/animejanai/core/animejanai_core.py:302-314 | a logged run found `logging` in the global section and the slot; the log is the profile line (prefixed exactly when the binding is below 10), the original size and frame rate, and the no-chain line exactly when nothing runs |
| ChainRun.KeybindingNeedsLogging | VideoJaNai/backend/animejanai/core/animejanai_core.py:340-347 | init, called first, fails before anything is logged exactly when the global section or its `logging` key is missing |
| ChainRun.SlotWithoutGlobalFails | VideoJaNai/backend/animejanai/core/animejanai_core.py:302-306 | a configuration holding only a slot with a profile name fails at init rather than logging that no chain ran |
| ChainRun.KeybindingWithoutChain | VideoJaNai/backend/animejanai/core/animejanai_core.py:335-337 | when nothing runs, no chain of the slot admits the clip |
| ChainRun.KeybindingRunsFirstAdmittingChain | VideoJaNai/backend/animejanai/core/animejanai_core.py:316-333 | when a chain runs it is the slot's first admitting chain |
| OnnxModel.GetAllOpts | VideoJaNai/backend/animejanai/core/animejanai_onnx.py:16-21 | the result is exactly the set of operator types of the nodes |
| OnnxModel.ContainsAnyOperation | VideoJaNai/backend/animejanai/core/animejanai_onnx.py:9-13 | true exactly when some node's operator is in the set |
| OnnxModel.IsStaticShape | VideoJaNai/backend/animejanai/core/animejanai_onnx.py:24-29 | true exactly when no input dimension reads as 0; a symbolic dimension reads as 0, so it makes the result false |
| OnnxModel.CountAppend | VideoJaNai/backend/animejanai/core/animejanai_onnx.py:53-76 | counting over inputs, outputs and initializers adds up |
| OnnxModel.Tally | VideoJaNai/backend/animejanai/core/animejanai_onnx.py:58-76 | the loops add the FLOAT and FLOAT16 counts of the types |
| OnnxModel.CheckFpPrecision | VideoJaNai/backend/animejanai/core/animejanai_onnx.py:53-85 | FP16 or FP32 when only that type occurs, Mixed when both do, Unknown when neither does |
| OnnxModel.DetermineEngineSettings | VideoJaNai/backend/animejanai/core/animejanai_onnx.py:32-46 | static inputs give static shapes without shape arguments; otherwise a Transpose or Reshape forces static shapes, else dynamic; the precision is always recorded |
| Paths.Combine | VideoJaNai/Services/PythonService.cs:102 | a rooted second path replaces the first; otherwise the two are joined |
| Paths.SuffixTestMatchesExtensionTest | VideoJaNai/ViewModels/MainWindowViewModel.cs:608 | for a plain extension, the lower-cased suffix test and the case-insensitive extension test agree |
| Common.NatToStringRoundTrip | VideoJaNai/ViewModels/MainWindowViewModel.cs:542 | a number's decimal text reads back as the number |
| Common.ReplaceJoin | VideoJaNai/ViewModels/MainWindowViewModel.cs:217 | replacing the separator of a joined text joins with the replacement |

## Left out

- **Effects not modelled.** The following are parameters or out of scope:
  - file and process I/O, running `vspipe`, ffmpeg and the installers;
  - the JSON settings persistence and the views;
  - `File.Copy` of model files into the models directory (VideoJaNai/ViewModels/MainWindowViewModel.cs:535-540);
  - the onnx and VapourSynth library calls (`onnx.load`, `core.trt.Model`, resizers);
  - logging beyond the step log of the back-end script: init's emptying of the current log and its start of the debug logger when `logging` is set are left out; only the failing lookup of `logging` is modelled.
- **Cancellation and concurrency.** `CancelUpscale` and the cancellation checks are not modelled; runs are taken to go to completion. Neither is the `Task.Run` threading.
- **Not part of this model.** `animejanai_config.py` (the reader of the file), `rife_cuda` and `IsFfmpegInstalled` are given as parameters of the run.
- **RGBS retry.** The RGBS retry after an exception in the RGBH model pass (VideoJaNai/backend/animejanai/core/animejanai_core.py:246-255) is not modelled: exceptions of the upscale library are outside the model.
- **Floating point.** Sizes and percentages are exact:
  - `scale_to_1080` and the resizes truncate where Python divides;
  - Python's `round` is taken as truncation in the final-resize-to-height branch;
  - `Math.Round` of a percentage is exact round-half-even of the rational value;
  - ETA ticks are integers and progress values are exact reals (the source's `float`); the estimate of remaining ticks is a real, and the stopwatch frequency is left out.
- **Constructor subscriptions.** The workflow constructor's subscriptions that default the output folder (VideoJaNai/ViewModels/MainWindowViewModel.cs:1488-1511) are not modelled.
- **Process commands.** `RunCommand`, `InstallUpdatePythonDependenciesCommand` and the other install command strings are not modelled, beyond the order in which provisioning runs them.
- PythonService.Sort: ordinal order on character codes; `Order()` uses the current culture's string comparison, which the model does not interpret.
- RifeNames.SortDescending: `List.Sort` is not stable, and distinct values can share a key ("4121" and "4122", or "40" and "040"); the model keeps such values in their original order, one of the orders the source may produce, and promises nothing about which.
- RifeNames.FileValue: the pattern's `\d` is read as the ASCII digits 0-9; .NET's `\d` also matches the other Unicode decimal digits, and file names using them are not modelled. RifeNames.LabelToValue reads its `\d` the same way.
- ChainRun.SelectChain: configuration values are already typed; a missing key of a chain section (a `KeyError` in the script) is not modelled.
- Common.ToLower: ASCII lower-casing only; `ToLower` and the ignore-case comparisons of the source follow Unicode rules.
- Downloader.LoopAttempts: an exception other than the two retried ones ends the loop, and its outcome is recorded as such; the exception's message is not modelled.
- EtaWindow.ETR: the number of ticks is not converted to a `TimeSpan`.
- EtaWindow.Create: `maximumDuration * Stopwatch.Frequency` is not computed; the maximum age is given in ticks.
- DecimalText.Decimal: the mantissa and the scale are unbounded; .NET's `decimal` holds a 96-bit mantissa and a scale of at most 28, and values beyond those are not modelled.
- UpscaleRun.EncodeCommand: the relative VSPipe path (`Path.GetRelativePath`) and the script's full path are parameters.

## Findings

| source | as written | input that shows it | evidently intended | confidence | as-written member | corrected member |
|---|---|---|---|---|---|---|
| AnimeJaNaiConverterGui/ViewModels/MainWindowViewModel.cs:54 | the dictionary maps "RIFE 4.13 Lite" to "413", the value of the full model | choosing "RIFE 4.13 Lite" writes `chain_1_rife_model=413` | "4131", as the label codec of the current window gives | not executed; high | LegacyGui.LiteLabelWritesFullModel | LegacyGui.CorrectedRifeMatchesCodec |
| AnimeJaNaiConverterGui/ViewModels/MainWindowViewModel.cs:375 | the threshold is written with the current culture's decimal separator | threshold 0.150 under a comma culture writes `0,150`, which does not read back as 0.150 | the fixed English culture, as the current window does | not executed; high | LegacyGui.CommaCultureLosesThreshold | ConfigText.LookupThreshold |
| VideoJaNai/Services/Downloader.cs:39-55 | after a resume the percentage divides all bytes read by the partial response's length | 100 bytes declared, 50 read, HTTP error; the resume declares the remaining 50 and reports 100/50 = 200 % | the bytes already on disk added to the total | not executed; medium | Downloader.ResumeOvershoots | Downloader.ResumeAwareWithinTotal |
