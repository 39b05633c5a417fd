/** The older AnimeJaNaiConverterGui main window, where it differs from the
    current one: the RIFE label is looked up in a fixed five-entry table,
    numbers are written in the machine's current culture, and the
    configuration file has neither a back-end directory nor a TensorRT
    engine line. Its input counting, validation, model-list editing,
    back-end setters and console queue are the ones of the current window
    (modules Validation, Workflow and BoundedQueue). */
module LegacyGui {
  import opened Common
  import opened DecimalText
  import opened Workflow
  import ConfigText
  import RifeNames

  /** Indexing the dictionary with a missing key throws KeyNotFoundException. */
  datatype LegacyError = KeyNotFound(key: string)

  /** The RIFE choices offered in the drop-down, and the default choice. */
  const RifeModelList: seq<string> := ["RIFE 4.14", "RIFE 4.14 Lite", "RIFE 4.13", "RIFE 4.13 Lite", "RIFE 4.6"]
  const DefaultRifeModel: string := "RIFE 4.14"

  /** The label-to-value dictionary as the application declares it. */
  const RifeModelMapping: seq<(string, string)> :=
    [("RIFE 4.14", "414"), ("RIFE 4.14 Lite", "4141"), ("RIFE 4.13", "413"), ("RIFE 4.13 Lite", "413"), ("RIFE 4.6", "46")]

  /** The same dictionary with the lite 4.13 entry naming the lite model. */
  const CorrectedMapping: seq<(string, string)> :=
    [("RIFE 4.14", "414"), ("RIFE 4.14 Lite", "4141"), ("RIFE 4.13", "413"), ("RIFE 4.13 Lite", "4131"), ("RIFE 4.6", "46")]

  /** Dictionary indexing over a table with distinct keys. */
  function LookupIn(table: seq<(string, string)>, name: string): (r: Result<string, LegacyError>)
    ensures r.Ok? <==> exists i :: 0 <= i < |table| && table[i].0 == name
    ensures r.Ok? ==> exists i :: 0 <= i < |table| && table[i] == (name, r.value)
    ensures r.Err? ==> r.error == KeyNotFound(name)
    decreases |table|
  {
    if table == [] then Err(KeyNotFound(name))
    else if table[0].0 == name then Ok(table[0].1)
    else
      var r := LookupIn(table[1..], name);
      assert forall i :: 1 <= i < |table| ==> table[i] == table[1..][i - 1];
      assert r.Ok? ==> exists i :: 1 <= i < |table| && table[i] == (name, r.value) by {
        if r.Ok? {
          var j :| 0 <= j < |table[1..]| && table[1..][j] == (name, r.value);
          assert table[j + 1] == (name, r.value);
        }
      }
      r
  }

  function Keys(table: seq<(string, string)>): seq<string> {
    seq(|table|, i requires 0 <= i < |table| => table[i].0)
  }

  /** The value written for a label, as the application computes it. */
  function MapLabelAsWritten(name: string): (r: Result<string, LegacyError>)
    ensures r.Ok? <==> name in RifeModelList
  {
    assert Keys(RifeModelMapping) == RifeModelList;
    KeysAreLabels(RifeModelMapping, name);
    LookupIn(RifeModelMapping, name)
  }

  /** The value written for a label, with the lite 4.13 entry corrected. */
  function MapLabel(name: string): (r: Result<string, LegacyError>)
    ensures r.Ok? <==> name in RifeModelList
  {
    assert Keys(CorrectedMapping) == RifeModelList;
    KeysAreLabels(CorrectedMapping, name);
    LookupIn(CorrectedMapping, name)
  }

  lemma KeysAreLabels(table: seq<(string, string)>, name: string)
    ensures name in Keys(table) <==> exists i :: 0 <= i < |table| && table[i].0 == name
  {
    if name in Keys(table) {
      var i :| 0 <= i < |table| && Keys(table)[i] == name;
      assert table[i].0 == name;
    }
    if exists i :: 0 <= i < |table| && table[i].0 == name {
      var i :| 0 <= i < |table| && table[i].0 == name;
      assert Keys(table)[i] == name;
    }
  }

  /** The default choice and every listed choice are keys of the dictionary,
      so a workflow built by the window never makes the lookup throw. */
  lemma ListedLabelsAreKeys()
    ensures MapLabelAsWritten(DefaultRifeModel).Ok?
    ensures forall i :: 0 <= i < |RifeModelList| ==> MapLabelAsWritten(RifeModelList[i]).Ok?
  {
  }

  /** As written, the lite 4.13 label selects the same model as the full
      4.13 label, while the label codec of the current window gives it the
      lite value. */
  lemma LiteLabelSelectsFullModel()
    ensures MapLabelAsWritten("RIFE 4.13 Lite") == Ok("413")
    ensures MapLabelAsWritten("RIFE 4.13") == Ok("413")
    ensures RifeNames.LabelToValue("RIFE 4.13 Lite") == Ok("4131")
  {
    assert MapLabelAsWritten("RIFE 4.13 Lite") == Ok("413") && MapLabelAsWritten("RIFE 4.13") == Ok("413") by {
      assert RifeModelMapping[2] == ("RIFE 4.13", "413") && RifeModelMapping[3] == ("RIFE 4.13 Lite", "413");
    }
    CodecAt(3);
  }

  /** The label codec on "RIFE d.m" and "RIFE d.m Lite". */
  lemma CodecValue(major: string, minor: string, lite: bool)
    requires |major| > 0 && |minor| > 0 && AllDigits(major) && AllDigits(minor)
    ensures RifeNames.LabelToValue("RIFE " + major + "." + minor + (if lite then " Lite" else ""))
      == Ok(major + minor + (if lite then "1" else ""))
  {
    RifeNames.MatchOfLabel(major, minor, lite);
  }

  /** Each entry of the corrected dictionary is what the codec makes of its label. */
  lemma CodecAt(i: nat)
    requires i < |CorrectedMapping|
    ensures RifeNames.LabelToValue(CorrectedMapping[i].0) == Ok(CorrectedMapping[i].1)
  {
    if i == 0 { Codec414(); }
    else if i == 1 { Codec4141(); }
    else if i == 2 { Codec413(); }
    else if i == 3 { Codec4131(); }
    else { Codec46(); }
  }

  lemma Codec414()
    ensures RifeNames.LabelToValue("RIFE 4.14") == Ok("414")
  {
    CodecValue("4", "14", false);
    assert "RIFE " + "4" + "." + "14" + "" == "RIFE 4.14";
    assert "4" + "14" + "" == "414";
  }

  lemma Codec4141()
    ensures RifeNames.LabelToValue("RIFE 4.14 Lite") == Ok("4141")
  {
    CodecValue("4", "14", true);
    assert "RIFE " + "4" + "." + "14" + " Lite" == "RIFE 4.14 Lite";
    assert "4" + "14" + "1" == "4141";
  }

  lemma Codec413()
    ensures RifeNames.LabelToValue("RIFE 4.13") == Ok("413")
  {
    CodecValue("4", "13", false);
    assert "RIFE " + "4" + "." + "13" + "" == "RIFE 4.13";
    assert "4" + "13" + "" == "413";
  }

  lemma Codec4131()
    ensures RifeNames.LabelToValue("RIFE 4.13 Lite") == Ok("4131")
  {
    CodecValue("4", "13", true);
    assert "RIFE " + "4" + "." + "13" + " Lite" == "RIFE 4.13 Lite";
    assert "4" + "13" + "1" == "4131";
  }

  lemma Codec46()
    ensures RifeNames.LabelToValue("RIFE 4.6") == Ok("46")
  {
    CodecValue("4", "6", false);
    assert "RIFE " + "4" + "." + "6" + "" == "RIFE 4.6";
    assert "4" + "6" + "" == "46";
  }

  /** The corrected dictionary agrees with the label codec on every label it
      knows, so different labels select different models. */
  lemma CorrectedMatchesCodec(name: string)
    requires MapLabel(name).Ok?
    ensures RifeNames.LabelToValue(name) == Ok(MapLabel(name).value)
  {
    var i :| 0 <= i < |CorrectedMapping| && CorrectedMapping[i] == (name, MapLabel(name).value);
    CodecAt(i);
  }

  lemma CorrectedInjective(a: string, b: string)
    requires MapLabel(a).Ok? && MapLabel(b).Ok?
    ensures MapLabel(a) == MapLabel(b) ==> a == b
  {
  }

  // ---------------------------------------------------------------------------
  // The configuration file

  /** SetupAnimeJaNaiConfSlot1 of the older window: no back-end directory,
      no engine line, numbers in the current culture `c`, and the RIFE value
      taken from the dictionary as declared. */
  function LegacyConfig(w: Workflow, c: Culture): (r: Result<seq<ConfigText.Line>, LegacyError>)
    ensures r.Err? <==> w.rifeModel !in RifeModelList
    ensures r.Err? ==> r.error == KeyNotFound(w.rifeModel)
    ensures r.Ok? ==> |r.value| == 5 + 3 * |w.models| + 8
  {
    match MapLabelAsWritten(w.rifeModel)
    case Err(e) => Err(e)
    case Ok(v) => Ok(ConfigText.Lines(w, None, v, ConfigText.PrinterFor(c), false))
  }

  /** The same writer with the corrected dictionary. */
  function CorrectedLegacyConfig(w: Workflow, c: Culture): (r: Result<seq<ConfigText.Line>, LegacyError>)
    ensures r.Err? <==> w.rifeModel !in RifeModelList
    ensures r.Err? ==> r.error == KeyNotFound(w.rifeModel)
    ensures r.Ok? ==> |r.value| == 5 + 3 * |w.models| + 8
  {
    match MapLabel(w.rifeModel)
    case Err(e) => Err(e)
    case Ok(v) => Ok(ConfigText.Lines(w, None, v, ConfigText.PrinterFor(c), false))
  }

  lemma LegacyLines(w: Workflow, c: Culture)
    requires LegacyConfig(w, c).Ok?
    ensures LegacyConfig(w, c).value
      == ConfigText.Lines(w, None, MapLabelAsWritten(w.rifeModel).value, ConfigText.PrinterFor(c), false)
  {
  }

  /** What the older line builder writes, whatever the RIFE value: the back
      end without a directory, no engine settings, and the given value. */
  lemma OlderLinesKeys(w: Workflow, c: Culture, v: string)
    ensures var cfg := ConfigText.Lines(w, None, v, ConfigText.PrinterFor(c), false);
      ConfigText.Lookup(cfg, "global", "backend") == Some(ConfigText.BackendName(BackendOf(w)))
      && ConfigText.Lookup(cfg, "global", "backend_path") == None
      && ConfigText.Lookup(cfg, "slot_1", ConfigText.KeyText(ConfigText.EngineSettings)) == None
      && ConfigText.Lookup(cfg, "slot_1", ConfigText.KeyText(ConfigText.RifeModel)) == Some(v)
  {
    var p := ConfigText.PrinterFor(c);
    var cfg := ConfigText.Lines(w, None, v, p, false);
    ConfigText.FindBackend(w, None, ConfigText.ModelBlocks(w.models, 0, p) + ConfigText.TrailerLines(w, v, p, false));
    ConfigText.BackendPathPresence(w, None, v, p, false);
    ConfigText.FindRifeAndEngine(w, None, v, p, false);
    ConfigText.LookupIsFind(cfg, None, "global", ConfigText.BackendKey);
    ConfigText.LookupIsFind(cfg, None, "global", ConfigText.BackendPath);
    ConfigText.LookupIsFind(cfg, None, "slot_1", ConfigText.EngineSettings);
    ConfigText.LookupIsFind(cfg, None, "slot_1", ConfigText.RifeModel);
  }

  /** The older file names the back end but no back-end directory and no
      engine settings, and carries the dictionary's value for the label. */
  lemma LegacyKeys(w: Workflow, c: Culture)
    requires LegacyConfig(w, c).Ok?
    ensures var cfg := LegacyConfig(w, c).value;
      ConfigText.Lookup(cfg, "global", "backend") == Some(ConfigText.BackendName(BackendOf(w)))
      && ConfigText.Lookup(cfg, "global", "backend_path") == None
      && ConfigText.Lookup(cfg, "slot_1", ConfigText.KeyText(ConfigText.EngineSettings)) == None
      && ConfigText.Lookup(cfg, "slot_1", ConfigText.KeyText(ConfigText.RifeModel)) == Some(MapLabelAsWritten(w.rifeModel).value)
  {
    OlderLinesKeys(w, c, MapLabelAsWritten(w.rifeModel).value);
  }

  /** As written, choosing "RIFE 4.13 Lite" puts the full model's value 413
      in the file; the corrected writer puts 4131. */
  lemma LiteLabelWritesFullModel(w: Workflow, c: Culture)
    requires w.rifeModel == "RIFE 4.13 Lite"
    ensures LegacyConfig(w, c).Ok? && CorrectedLegacyConfig(w, c).Ok?
    ensures ConfigText.Lookup(LegacyConfig(w, c).value, "slot_1", ConfigText.KeyText(ConfigText.RifeModel)) == Some("413")
    ensures ConfigText.Lookup(CorrectedLegacyConfig(w, c).value, "slot_1", ConfigText.KeyText(ConfigText.RifeModel)) == Some("4131")
  {
    LiteLabelSelectsFullModel();
    assert MapLabel("RIFE 4.13 Lite") == Ok("4131");
    OlderLinesKeys(w, c, "413");
    OlderLinesKeys(w, c, "4131");
  }

  /** The corrected file carries the label codec's value for every label
      offered, as the current window's file does. */
  lemma CorrectedRifeMatchesCodec(w: Workflow, c: Culture)
    requires CorrectedLegacyConfig(w, c).Ok?
    ensures var got := ConfigText.Lookup(CorrectedLegacyConfig(w, c).value, "slot_1", ConfigText.KeyText(ConfigText.RifeModel));
      got.Some? && RifeNames.LabelToValue(w.rifeModel) == Ok(got.value)
  {
    var v := MapLabel(w.rifeModel).value;
    assert CorrectedLegacyConfig(w, c).value == ConfigText.Lines(w, None, v, ConfigText.PrinterFor(c), false);
    CorrectedMatchesCodec(w.rifeModel);
    OlderLinesKeys(w, c, v);
  }

  /** Model blocks are emitted in list order with 1-based numbers, as in the
      current window, but with numbers in the current culture. */
  lemma LegacyModels(w: Workflow, c: Culture, n: nat, f: ConfigText.Field)
    requires LegacyConfig(w, c).Ok?
    ensures var got := ConfigText.Lookup(LegacyConfig(w, c).value, "slot_1", ConfigText.KeyText(ConfigText.Model(n, f)));
      (1 <= n <= |w.models| ==> got == Some(ConfigText.FieldValue(w.models[n - 1], f, ConfigText.PrinterFor(c))))
      && (n == 0 || n > |w.models| ==> got == None)
  {
    LegacyLines(w, c);
    ConfigText.FindModel(w, None, MapLabelAsWritten(w.rifeModel).value, ConfigText.PrinterFor(c), false, n, f);
    ConfigText.LookupIsFind(LegacyConfig(w, c).value, None, "slot_1", ConfigText.Model(n, f));
  }

  /** A culture whose decimal separator is a comma (de-DE, fr-FR, ...). */
  const CommaCulture: Culture := Culture(",", "-")

  /** Under a comma culture the older file writes a fractional threshold
      without a '.', so an invariant reader does not get the threshold back;
      the default 0.150 is such a value. */
  lemma CommaCultureLosesThreshold(w: Workflow)
    requires LegacyConfig(w, CommaCulture).Ok? && w.rifeSceneDetectThreshold.scale > 0
    ensures var got := ConfigText.Lookup(LegacyConfig(w, CommaCulture).value, "slot_1",
                                         ConfigText.KeyText(ConfigText.RifeSceneDetectThreshold));
      got.Some? && '.' !in got.value && ParseInvariant(got.value) != Some(w.rifeSceneDetectThreshold)
  {
    var cfg := LegacyConfig(w, CommaCulture).value;
    var d := w.rifeSceneDetectThreshold;
    LegacyLines(w, CommaCulture);
    ConfigText.FindThreshold(w, None, MapLabelAsWritten(w.rifeModel).value, ConfigText.PrinterFor(CommaCulture), false);
    ConfigText.LookupIsFind(cfg, None, "slot_1", ConfigText.RifeSceneDetectThreshold);
    CultureOnlyMovesSeparator(d, ",");
    ReplaceAllRemovesChar(Render(d, EnUs), '.', ",");
    var got := ConfigText.Lookup(cfg, "slot_1", ConfigText.KeyText(ConfigText.RifeSceneDetectThreshold));
    if ParseInvariant(got.value) == Some(d) {
      FractionNeedsDot(got.value);
    }
  }
}
