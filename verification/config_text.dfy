/** The animejanai.conf text written before every upscale run
    (SetupAnimeJaNaiConfSlot1): a [global] section naming the back end, then
    a [slot_1] section holding the single upscale chain, one three-line block
    per model in list order followed by the RIFE, final-resize and TensorRT
    lines. The file is a list of lines here; the reader's view of it is
    `Lookup`, the value of the first `key=value` line of a section. */
module ConfigText {
  import opened Common
  import Paths
  import opened DecimalText
  import opened Workflow
  import RifeNames

  /** The field of a model block. */
  datatype Field = Height | Factor | Name

  /** Every key the generator writes. All but the first four sit under
      the "chain_1_" prefix. */
  datatype Key =
    | Logging | BackendKey | BackendPath | ProfileName
    | Model(n: nat, field: Field)
    | Rife | RifeNumerator | RifeDenominator | RifeModel | RifeEnsemble
    | RifeSceneDetectThreshold | FinalResizeHeight | FinalResizeFactor | EngineSettings

  const ChainPrefix: string := "chain_1_"

  function FieldText(f: Field): string {
    match f
    case Height => "resize_height_before_upscale"
    case Factor => "resize_factor_before_upscale"
    case Name => "name"
  }

  /** The key's text after "chain_1_", for chain keys. */
  function ChainSuffix(k: Key): string
    requires k !in {Logging, BackendKey, BackendPath, ProfileName}
  {
    match k
    case Model(n, f) => "model_" + NatToString(n) + "_" + FieldText(f)
    case Rife => "rife"
    case RifeNumerator => "rife_factor_numerator"
    case RifeDenominator => "rife_factor_denominator"
    case RifeModel => "rife_model"
    case RifeEnsemble => "rife_ensemble"
    case RifeSceneDetectThreshold => "rife_scene_detect_threshold"
    case FinalResizeHeight => "final_resize_height"
    case FinalResizeFactor => "final_resize_factor"
    case EngineSettings => "tensorrt_engine_settings"
  }

  function KeyText(k: Key): string {
    match k
    case Logging => "logging"
    case BackendKey => "backend"
    case BackendPath => "backend_path"
    case ProfileName => "profile_name"
    case _ => ChainPrefix + ChainSuffix(k)
  }

  datatype Line = Section(name: string) | Pair(key: Key, value: string)

  function LineText(l: Line): string {
    match l
    case Section(n) => "[" + n + "]"
    case Pair(k, v) => KeyText(k) + "=" + v
  }

  // ---------------------------------------------------------------------------
  // Key texts

  /** Digits followed by a non-digit split in one way only. */
  lemma DigitsSplit(a: string, x: string, b: string, y: string)
    requires AllDigits(a) && AllDigits(b)
    requires |x| > 0 && |y| > 0 && !IsDigit(x[0]) && !IsDigit(y[0])
    requires a + x == b + y
    ensures a == b && x == y
  {
    var s := a + x;
    assert forall k :: 0 <= k < |a| ==> IsDigit(s[k]);
    assert forall k :: 0 <= k < |b| ==> IsDigit(s[k]);
    assert !IsDigit(s[|a|]) && !IsDigit(s[|b|]);
    assert |a| == |b|;
    assert a == s[..|a|] && b == s[..|b|];
    assert x == s[|a|..] && y == s[|b|..];
  }

  lemma DropPrefix(p: string, r: string)
    ensures (p + r)[|p|..] == r
  {
  }

  lemma FieldTextInjective(f: Field, g: Field)
    ensures FieldText(f) == FieldText(g) ==> f == g
  {
    assert FieldText(Height)[7] == 'h' && FieldText(Factor)[7] == 'f';
  }

  /** "model_{m}_x" determines m and x. */
  lemma ModelTextInjective(m: nat, x: string, n: nat, y: string)
    requires "model_" + NatToString(m) + "_" + x == "model_" + NatToString(n) + "_" + y
    ensures m == n && x == y
  {
    var a, b := NatToString(m), NatToString(n);
    var x1, y1 := "_" + x, "_" + y;
    SplitModelText(a, x, b, y);
    assert x1[0] == '_' && y1[0] == '_';
    DigitsSplit(a, x1, b, y1);
    NatToStringInjective(m, n);
    assert x == x1[1..] && y == y1[1..];
  }

  /** Dropping the "model_" prefix of two equal model texts. */
  lemma SplitModelText(a: string, x: string, b: string, y: string)
    requires "model_" + a + "_" + x == "model_" + b + "_" + y
    ensures a + ("_" + x) == b + ("_" + y)
  {
    var p := "model_";
    var s := p + a + "_" + x;
    assert s == p + (a + ("_" + x));
    assert s == p + (b + ("_" + y));
    DropPrefix(p, a + ("_" + x));
    DropPrefix(p, b + ("_" + y));
  }

  lemma ModelSuffixInjective(m: nat, f: Field, n: nat, g: Field)
    requires ChainSuffix(Model(m, f)) == ChainSuffix(Model(n, g))
    ensures m == n && f == g
  {
    ModelTextInjective(m, FieldText(f), n, FieldText(g));
    FieldTextInjective(f, g);
  }

  predicate IsChainKey(k: Key) { k !in {Logging, BackendKey, BackendPath, ProfileName} }

  /** The first character of a chain key's suffix: 'm' for model keys only. */
  lemma SuffixLead(k: Key)
    requires IsChainKey(k)
    ensures |ChainSuffix(k)| > 0 && (ChainSuffix(k)[0] == 'm' <==> k.Model?)
  {
  }

  /** The suffixes of the non-model chain keys are pairwise different. */
  lemma PlainSuffixInjective(a: Key, b: Key)
    requires IsChainKey(a) && IsChainKey(b) && !a.Model? && !b.Model?
    ensures ChainSuffix(a) == ChainSuffix(b) ==> a == b
  {
    assert ChainSuffix(FinalResizeHeight)[13] == 'h' && ChainSuffix(FinalResizeFactor)[13] == 'f';
  }

  lemma SuffixInjective(a: Key, b: Key)
    requires IsChainKey(a) && IsChainKey(b)
    ensures ChainSuffix(a) == ChainSuffix(b) ==> a == b
  {
    if a.Model? && b.Model? {
      if ChainSuffix(a) == ChainSuffix(b) {
        ModelSuffixInjective(a.n, a.field, b.n, b.field);
      }
    } else if a.Model? || b.Model? {
      SuffixLead(a);
      SuffixLead(b);
    } else {
      PlainSuffixInjective(a, b);
    }
  }

  /** The first character of every key text: 'c' for the chain keys. */
  lemma KeyLead(k: Key)
    ensures |KeyText(k)| > 0
    ensures KeyText(k)[0] == (match k
      case Logging => 'l' case BackendKey => 'b' case BackendPath => 'b' case ProfileName => 'p'
      case _ => 'c')
  {
  }

  /** Different keys are written differently, so a reader keyed by text
      tells them apart. */
  lemma KeyTextInjective(a: Key, b: Key)
    ensures KeyText(a) == KeyText(b) ==> a == b
  {
    KeyLead(a);
    KeyLead(b);
    if IsChainKey(a) && IsChainKey(b) {
      assert ChainSuffix(a) == KeyText(a)[8..];
      assert ChainSuffix(b) == KeyText(b)[8..];
      SuffixInjective(a, b);
    } else if !IsChainKey(a) && !IsChainKey(b) {
      assert |KeyText(BackendKey)| == 7 && |KeyText(BackendPath)| == 12;
    }
  }

  lemma ModelTextPlain(n: nat, x: string)
    requires '=' !in x
    ensures '=' !in ChainPrefix + ("model_" + NatToString(n) + "_" + x)
  {
    var d := NatToString(n);
    assert '=' !in d by {
      assert forall i :: 0 <= i < |d| ==> IsDigit(d[i]);
    }
    assert '=' !in ChainPrefix && '=' !in "model_";
  }

  /** No suffix of a non-model chain key holds "=". */
  lemma PlainSuffixPlain(k: Key)
    requires IsChainKey(k) && !k.Model?
    ensures '=' !in ChainSuffix(k)
  {
    match k
    case Rife =>
    case RifeNumerator =>
    case RifeDenominator =>
    case RifeModel =>
    case RifeEnsemble =>
    case RifeSceneDetectThreshold =>
    case FinalResizeHeight =>
    case FinalResizeFactor =>
    case EngineSettings =>
  }

  /** No key text holds "=" or starts with "[". */
  lemma KeyTextPlain(k: Key)
    ensures '=' !in KeyText(k) && |KeyText(k)| > 0 && KeyText(k)[0] != '['
  {
    if IsChainKey(k) {
      ChainKeyTextPlain(k);
    }
  }

  lemma ChainKeyTextPlain(k: Key)
    requires IsChainKey(k)
    ensures '=' !in KeyText(k) && |KeyText(k)| > 0 && KeyText(k)[0] != '['
  {
    assert KeyText(k) == ChainPrefix + ChainSuffix(k);
    assert KeyText(k)[0] == ChainPrefix[0];
    if k.Model? {
      assert '=' !in FieldText(k.field);
      ModelTextPlain(k.n, FieldText(k.field));
    } else {
      PlainSuffixPlain(k);
      assert '=' !in ChainPrefix;
    }
  }

  // ---------------------------------------------------------------------------
  // Reading lines back

  /** What an ini reader makes of one line: "[name]" opens a section, and
      otherwise the text up to the first "=" is the key. */
  datatype RawLine = RawSection(name: string) | RawPair(key: string, value: string)

  function ParseLine(s: string): (r: Option<RawLine>)
    ensures r.Some? && r.value.RawPair? ==> '=' !in r.value.key
  {
    if |s| >= 2 && s[0] == '[' && s[|s| - 1] == ']' then Some(RawSection(s[1..|s| - 1]))
    else
      var k := IndexOfChar(s, '=');
      if k < 0 then None else Some(RawPair(s[..k], s[k + 1..]))
  }

  function Raw(l: Line): RawLine {
    match l
    case Section(n) => RawSection(n)
    case Pair(k, v) => RawPair(KeyText(k), v)
  }

  /** Every line the generator writes reads back as itself, whatever its value. */
  lemma ParseLineText(l: Line)
    ensures ParseLine(LineText(l)) == Some(Raw(l))
  {
    var s := LineText(l);
    if l.Pair? {
      var k := KeyText(l.key);
      KeyTextPlain(l.key);
      assert s[|k|] == '=';
      assert forall i :: 0 <= i < |k| ==> s[i] == k[i];
      assert s[..|k|] == k && s[|k| + 1..] == l.value;
      assert s[0] == k[0];
    } else {
      assert s[1..|s| - 1] == l.name;
    }
  }

  // ---------------------------------------------------------------------------
  // The reader's view

  function LookupIn(lines: seq<Line>, current: Option<string>, section: string, key: string): Option<string>
    decreases |lines|
  {
    if lines == [] then None
    else match lines[0]
      case Section(n) => LookupIn(lines[1..], Some(n), section, key)
      case Pair(k, v) =>
        if current == Some(section) && KeyText(k) == key then Some(v)
        else LookupIn(lines[1..], current, section, key)
  }

  /** The value of the first `key=` line under `[section]`, as a reader
      keyed by text sees it. */
  function Lookup(lines: seq<Line>, section: string, key: string): Option<string> {
    LookupIn(lines, None, section, key)
  }

  /** The same search by key rather than by key text. */
  function Find(lines: seq<Line>, current: Option<string>, section: string, key: Key): Option<string>
    decreases |lines|
  {
    if lines == [] then None
    else match lines[0]
      case Section(n) => Find(lines[1..], Some(n), section, key)
      case Pair(k, v) =>
        if current == Some(section) && k == key then Some(v)
        else Find(lines[1..], current, section, key)
  }

  /** Since key texts are distinct, looking up a key's text finds what
      looking up the key finds. */
  lemma {:induction false} LookupIsFind(lines: seq<Line>, current: Option<string>, section: string, key: Key)
    ensures LookupIn(lines, current, section, KeyText(key)) == Find(lines, current, section, key)
    decreases |lines|
  {
    if lines != [] {
      match lines[0]
      case Section(n) => LookupIsFind(lines[1..], Some(n), section, key);
      case Pair(k, v) =>
        KeyTextInjective(k, key);
        LookupIsFind(lines[1..], current, section, key);
    }
  }

  lemma FindSection(n: string, rest: seq<Line>, current: Option<string>, section: string, key: Key)
    ensures Find([Section(n)] + rest, current, section, key) == Find(rest, Some(n), section, key)
  {
    assert ([Section(n)] + rest)[1..] == rest;
  }

  lemma FindHit(key: Key, v: string, rest: seq<Line>, section: string)
    ensures Find([Pair(key, v)] + rest, Some(section), section, key) == Some(v)
  {
  }

  /** Pairs with other keys are passed over. */
  lemma {:induction false} SkipPairs(pre: seq<Line>, post: seq<Line>, current: Option<string>, section: string, key: Key)
    requires forall i :: 0 <= i < |pre| ==> pre[i].Pair? && pre[i].key != key
    ensures Find(pre + post, current, section, key) == Find(post, current, section, key)
    decreases |pre|
  {
    if pre != [] {
      assert (pre + post)[1..] == pre[1..] + post;
      SkipPairs(pre[1..], post, current, section, key);
    } else {
      assert pre + post == post;
    }
  }

  /** Pairs outside the wanted section are passed over whatever their key. */
  lemma {:induction false} SkipOtherSection(pre: seq<Line>, post: seq<Line>, current: string, section: string, key: Key)
    requires current != section
    requires forall i :: 0 <= i < |pre| ==> pre[i].Pair?
    ensures Find(pre + post, Some(current), section, key) == Find(post, Some(current), section, key)
    decreases |pre|
  {
    if pre != [] {
      assert (pre + post)[1..] == pre[1..] + post;
      SkipOtherSection(pre[1..], post, current, section, key);
    } else {
      assert pre + post == post;
    }
  }

  // ---------------------------------------------------------------------------
  // The lines

  function BackendName(b: Backend): string {
    match b
    case TensorRt => "TensorRT"
    case DirectMl => "DirectML"
    case Ncnn => "NCNN"
  }

  function YesNo(b: bool): string { if b then "yes" else "no" }

  /** The pairs of [global]; the older application has no backend_path line. */
  function GlobalPairs(w: Workflow, backendPath: Option<string>): seq<Line> {
    [Pair(Logging, "yes")] + ([Pair(BackendKey, BackendName(BackendOf(w)))]
      + (if backendPath.Some? then [Pair(BackendPath, backendPath.value)] else []))
  }

  const SlotHead: seq<Line> := [Section("slot_1"), Pair(ProfileName, "encode")]

  function HeaderLines(w: Workflow, backendPath: Option<string>): seq<Line> {
    [Section("global")] + (GlobalPairs(w, backendPath) + SlotHead)
  }

  lemma Assoc<T>(a: seq<T>, b: seq<T>, c: seq<T>, d: seq<T>)
    ensures (a + (b + c)) + d == a + (b + (c + d))
  {
  }

  /** How values are written: integers and decimals, each in some culture,
      and a model path as its file name without extension. */
  datatype Printer = Printer(integer: int -> string, dec: Decimal -> string, stem: string -> string)

  function PrinterFor(c: Culture): Printer {
    Printer(i => RenderInt(i, c), d => Render(d, c), path => Paths.FileNameWithoutExtension(path))
  }

  function FieldValue(m: UpscaleModel, f: Field, p: Printer): string {
    match f
    case Height => p.integer(m.resizeHeightBeforeUpscale)
    case Factor => p.dec(m.resizeFactorBeforeUpscale)
    case Name => p.stem(m.onnxModelPath)
  }

  /** The block of the model numbered n (1-based). */
  function ModelBlock(n: nat, m: UpscaleModel, p: Printer): seq<Line> {
    [Pair(Model(n, Height), FieldValue(m, Height, p)),
     Pair(Model(n, Factor), FieldValue(m, Factor, p)),
     Pair(Model(n, Name), FieldValue(m, Name, p))]
  }

  /** The blocks of `ms` numbered from `start` + 1 on, in list order. */
  function ModelBlocks(ms: seq<UpscaleModel>, start: nat, p: Printer): (r: seq<Line>)
    ensures |r| == 3 * |ms|
    decreases |ms|
  {
    if ms == [] then [] else ModelBlock(start + 1, ms[0], p) + ModelBlocks(ms[1..], start + 1, p)
  }

  /** The trailer: the RIFE lines around the model value, the final-resize
      lines, and the engine line (absent in the older application). */
  function RifeHead(w: Workflow, p: Printer): seq<Line> {
    [Pair(Rife, YesNo(w.enableRife)),
     Pair(RifeNumerator, p.integer(w.rifeFactorNumerator)),
     Pair(RifeDenominator, p.integer(w.rifeFactorDenominator))]
  }

  function RifeTail(w: Workflow, p: Printer): seq<Line> {
    [Pair(RifeEnsemble, YesNo(w.rifeEnsemble)),
     Pair(RifeSceneDetectThreshold, p.dec(w.rifeSceneDetectThreshold)),
     Pair(FinalResizeHeight, p.integer(w.finalResizeHeight)),
     Pair(FinalResizeFactor, p.integer(w.finalResizeFactor))]
  }

  function EngineValue(w: Workflow): string {
    if w.tensorRtEngineSettingsAuto then "" else w.tensorRtEngineSettings
  }

  function EngineLines(w: Workflow, withEngine: bool): seq<Line> {
    if withEngine then [Pair(EngineSettings, EngineValue(w))] else []
  }

  function TrailerLines(w: Workflow, rifeValue: string, p: Printer, withEngine: bool): seq<Line> {
    RifeHead(w, p) + ([Pair(RifeModel, rifeValue)] + (RifeTail(w, p) + EngineLines(w, withEngine)))
  }

  /** All lines, for a RIFE value and a way of writing numbers. */
  function Lines(w: Workflow, backendPath: Option<string>, rifeValue: string, p: Printer, withEngine: bool): seq<Line> {
    HeaderLines(w, backendPath) + (ModelBlocks(w.models, 0, p) + TrailerLines(w, rifeValue, p, withEngine))
  }

  /** SetupAnimeJaNaiConfSlot1: the RIFE label must convert to a value (a
      label the converter rejects throws before anything is written);
      numbers print in en-US. */
  function Config(w: Workflow, backendDir: string): (r: Result<seq<Line>, RifeNames.RifeError>)
    ensures r.Err? <==> RifeNames.LabelToValue(w.rifeModel).Err?
    ensures r.Ok? ==> |r.value| == 6 + 3 * |w.models| + 9
  {
    match RifeNames.LabelToValue(w.rifeModel)
    case Err(e) => Err(e)
    case Ok(v) => Ok(Lines(w, Some(backendDir), v, PrinterFor(EnUs), true))
  }

  /** When the label converts, the file is the lines for its value. */
  lemma ConfigLines(w: Workflow, backendDir: string)
    requires Config(w, backendDir).Ok?
    ensures Config(w, backendDir).value
      == Lines(w, Some(backendDir), RifeNames.LabelToValue(w.rifeModel).value, PrinterFor(EnUs), true)
  {
  }

  // ---------------------------------------------------------------------------
  // Reading the file back

  /** The header leaves the reader inside [slot_1] having passed only
      profile_name there. */
  lemma PastHeader(w: Workflow, backendPath: Option<string>, rest: seq<Line>, key: Key)
    requires key != ProfileName
    ensures Find(HeaderLines(w, backendPath) + rest, None, "slot_1", key) == Find(rest, Some("slot_1"), "slot_1", key)
  {
    var g := GlobalPairs(w, backendPath);
    Assoc([Section("global")], g, SlotHead, rest);
    assert SlotHead + rest == [Section("slot_1")] + ([Pair(ProfileName, "encode")] + rest);
    PastSections("global", g, "slot_1", Pair(ProfileName, "encode"), rest, key);
  }

  /** A section of pairs, then the wanted section's first pair, with a key
      other than that pair's: the search goes on after that pair. */
  lemma PastSections(other: string, g: seq<Line>, section: string, first: Line, rest: seq<Line>, key: Key)
    requires other != section
    requires forall i :: 0 <= i < |g| ==> g[i].Pair?
    requires first.Pair? && first.key != key
    ensures Find([Section(other)] + (g + ([Section(section)] + ([first] + rest))), None, section, key)
      == Find(rest, Some(section), section, key)
  {
    FindSection(other, g + ([Section(section)] + ([first] + rest)), None, section, key);
    SkipOtherSection(g, [Section(section)] + ([first] + rest), other, section, key);
    FindSection(section, [first] + rest, Some(other), section, key);
    SkipPairs([first], rest, Some(section), section, key);
  }

  /** The reader finds the back end the workflow selects, and the back-end
      directory; the older file has no back-end directory. */
  lemma FindBackend(w: Workflow, backendPath: Option<string>, rest: seq<Line>)
    ensures Find(HeaderLines(w, backendPath) + rest, None, "global", BackendKey) == Some(BackendName(BackendOf(w)))
    ensures backendPath.Some? ==> Find(HeaderLines(w, backendPath) + rest, None, "global", BackendPath) == backendPath
  {
    var lg := Pair(Logging, "yes");
    var b := Pair(BackendKey, BackendName(BackendOf(w)));
    var opt := if backendPath.Some? then [Pair(BackendPath, backendPath.value)] else [];
    var tail := SlotHead + rest;
    Assoc([Section("global")], GlobalPairs(w, backendPath), SlotHead, rest);
    Assoc([lg], [b], opt, tail);
    GlobalPairsFound(lg, b.value, opt, tail);
  }

  /** In [global] after the logging pair, the back-end pair and then an
      optional back-end directory pair are found. */
  lemma GlobalPairsFound(lg: Line, backend: string, opt: seq<Line>, tail: seq<Line>)
    requires lg.Pair? && lg.key == Logging
    requires opt == [] || (|opt| == 1 && opt[0].Pair? && opt[0].key == BackendPath)
    ensures var lines := [Section("global")] + ([lg] + ([Pair(BackendKey, backend)] + (opt + tail)));
      && Find(lines, None, "global", BackendKey) == Some(backend)
      && (opt != [] ==> Find(lines, None, "global", BackendPath) == Some(opt[0].value))
  {
    var b := Pair(BackendKey, backend);
    FindSection("global", [lg] + ([b] + (opt + tail)), None, "global", BackendKey);
    SkipPairs([lg], [b] + (opt + tail), Some("global"), "global", BackendKey);
    FindHit(BackendKey, backend, opt + tail, "global");
    if opt != [] {
      FindSection("global", [lg] + ([b] + (opt + tail)), None, "global", BackendPath);
      SkipPairs([lg, b], opt + tail, Some("global"), "global", BackendPath);
      assert [lg] + ([b] + (opt + tail)) == [lg, b] + (opt + tail);
      assert opt + tail == [Pair(BackendPath, opt[0].value)] + tail;
      FindHit(BackendPath, opt[0].value, tail, "global");
    }
  }

  /** A key no line carries is not found. */
  lemma {:induction false} Absent(lines: seq<Line>, current: Option<string>, section: string, key: Key)
    requires forall i :: 0 <= i < |lines| ==> (lines[i].Pair? ==> lines[i].key != key)
    ensures Find(lines, current, section, key) == None
    decreases |lines|
  {
    if lines != [] {
      var next := if lines[0].Section? then Some(lines[0].name) else current;
      Absent(lines[1..], next, section, key);
    }
  }

  predicate ModelPairs(b: seq<Line>) {
    forall i :: 0 <= i < |b| ==> b[i].Pair? && b[i].key.Model?
  }

  /** Every line of the model blocks is a pair with a model key. */
  lemma {:induction false} BlockKeys(ms: seq<UpscaleModel>, start: nat, p: Printer)
    ensures ModelPairs(ModelBlocks(ms, start, p))
    decreases |ms|
  {
    if ms != [] {
      BlockKeys(ms[1..], start + 1, p);
      var blk := ModelBlock(start + 1, ms[0], p);
      var rest := ModelBlocks(ms[1..], start + 1, p);
      var b := ModelBlocks(ms, start, p);
      assert b == blk + rest;
      forall i | 0 <= i < |b| ensures b[i].Pair? && b[i].key.Model? {
        if i < 3 { assert b[i] == blk[i]; } else { assert b[i] == rest[i - 3]; }
      }
    }
  }

  /** The back-end directory line is there exactly when a directory is
      given: the older application's file has none. */
  lemma BackendPathPresence(w: Workflow, backendPath: Option<string>, rifeValue: string, p: Printer, withEngine: bool)
    ensures Find(Lines(w, backendPath, rifeValue, p, withEngine), None, "global", BackendPath) == backendPath
  {
    var h := HeaderLines(w, backendPath);
    var b := ModelBlocks(w.models, 0, p);
    var t := TrailerLines(w, rifeValue, p, withEngine);
    if backendPath.Some? {
      FindBackend(w, backendPath, b + t);
    } else {
      BlockKeys(w.models, 0, p);
      TrailerKeys(w, rifeValue, p, withEngine);
      var ls := h + (b + t);
      var hs := [Section("global"), Pair(Logging, "yes"), Pair(BackendKey, BackendName(BackendOf(w))),
                 Section("slot_1"), Pair(ProfileName, "encode")];
      assert h == hs;
      forall i | 0 <= i < |ls| && ls[i].Pair? ensures ls[i].key != BackendPath {
        if i >= |h| + |b| {
          assert ls[i] == t[i - |h| - |b|];
        } else if i >= |h| {
          assert ls[i] == b[i - |h|];
        } else {
          assert ls[i] == hs[i];
          assert i == 0 || i == 1 || i == 2 || i == 3 || i == 4;
        }
      }
      Absent(ls, None, "global", BackendPath);
    }
  }

  /** The trailer's keys: chain keys of no model. */
  predicate TrailerKey(l: Line) { l.Pair? && IsChainKey(l.key) && !l.key.Model? }

  predicate TrailerPairs(t: seq<Line>) {
    forall i :: 0 <= i < |t| ==> TrailerKey(t[i])
  }

  lemma TrailerKeys(w: Workflow, rifeValue: string, p: Printer, withEngine: bool)
    ensures TrailerPairs(TrailerLines(w, rifeValue, p, withEngine))
  {
    var head, mid, tail, e := RifeHead(w, p), [Pair(RifeModel, rifeValue)], RifeTail(w, p), EngineLines(w, withEngine);
    assert forall i :: 0 <= i < |head| ==> TrailerKey(head[i]);
    assert forall i :: 0 <= i < |tail| ==> TrailerKey(tail[i]);
    assert forall i :: 0 <= i < |e| ==> TrailerKey(e[i]);
    var t := head + (mid + (tail + e));
    forall i | 0 <= i < |t| ensures TrailerKey(t[i]) {
      if i < 3 { assert t[i] == head[i]; }
      else if i == 3 { assert t[i] == mid[0]; }
      else if i < 8 { assert t[i] == tail[i - 4]; }
      else { assert t[i] == e[i - 8]; }
    }
  }

  lemma LookupBackend(w: Workflow, backendDir: string)
    requires Config(w, backendDir).Ok?
    ensures Lookup(Config(w, backendDir).value, "global", "backend") == Some(BackendName(BackendOf(w)))
    ensures Lookup(Config(w, backendDir).value, "global", "backend_path") == Some(backendDir)
  {
    var v := RifeNames.LabelToValue(w.rifeModel).value;
    var cfg := Config(w, backendDir).value;
    ConfigLines(w, backendDir);
    FindBackend(w, Some(backendDir), ModelBlocks(w.models, 0, PrinterFor(EnUs)) + TrailerLines(w, v, PrinterFor(EnUs), true));
    LookupIsFind(cfg, None, "global", BackendKey);
    LookupIsFind(cfg, None, "global", BackendPath);
  }

  /** Looking for a model key in the blocks numbered from start + 1: the
      key of a model in range finds its value, any other model key falls
      through to what follows. */
  lemma {:induction false} FindInBlocks(ms: seq<UpscaleModel>, start: nat, p: Printer, rest: seq<Line>, n: nat, f: Field)
    ensures Find(ModelBlocks(ms, start, p) + rest, Some("slot_1"), "slot_1", Model(n, f))
      == if start < n <= start + |ms| then Some(FieldValue(ms[n - start - 1], f, p))
         else Find(rest, Some("slot_1"), "slot_1", Model(n, f))
    decreases |ms|
  {
    if ms != [] {
      var key := Model(n, f);
      var blk := ModelBlock(start + 1, ms[0], p);
      var more := ModelBlocks(ms[1..], start + 1, p) + rest;
      assert ModelBlocks(ms, start, p) + rest == blk + more;
      if n == start + 1 {
        FindInBlock(n, ms[0], p, more, f);
      } else {
        SkipPairs(blk, more, Some("slot_1"), "slot_1", key);
        FindInBlocks(ms[1..], start + 1, p, rest, n, f);
        if start + 1 < n <= start + |ms| {
          assert ms[1..][n - (start + 1) - 1] == ms[n - start - 1];
        }
      }
    } else {
      assert ModelBlocks(ms, start, p) + rest == rest;
    }
  }

  /** Model n's keys are found in its own block. */
  lemma FindInBlock(n: nat, m: UpscaleModel, p: Printer, more: seq<Line>, f: Field)
    ensures Find(ModelBlock(n, m, p) + more, Some("slot_1"), "slot_1", Model(n, f)) == Some(FieldValue(m, f, p))
  {
    var key := Model(n, f);
    var blk := ModelBlock(n, m, p);
    match f
    case Height =>
      assert blk + more == [blk[0]] + ([blk[1], blk[2]] + more);
      FindHit(key, blk[0].value, [blk[1], blk[2]] + more, "slot_1");
    case Factor =>
      assert blk + more == [blk[0]] + ([blk[1]] + ([blk[2]] + more));
      SkipPairs([blk[0]], [blk[1]] + ([blk[2]] + more), Some("slot_1"), "slot_1", key);
      FindHit(key, blk[1].value, [blk[2]] + more, "slot_1");
    case Name =>
      assert blk + more == [blk[0], blk[1]] + ([blk[2]] + more);
      SkipPairs([blk[0], blk[1]], [blk[2]] + more, Some("slot_1"), "slot_1", key);
      FindHit(key, blk[2].value, more, "slot_1");
  }

  /** Keys of no model pass over every model block. */
  lemma {:induction false} SkipBlocks(ms: seq<UpscaleModel>, start: nat, p: Printer, rest: seq<Line>, current: Option<string>, key: Key)
    requires !key.Model?
    ensures Find(ModelBlocks(ms, start, p) + rest, current, "slot_1", key) == Find(rest, current, "slot_1", key)
    decreases |ms|
  {
    if ms != [] {
      var blk := ModelBlock(start + 1, ms[0], p);
      assert ModelBlocks(ms, start, p) + rest == blk + (ModelBlocks(ms[1..], start + 1, p) + rest);
      SkipPairs(blk, ModelBlocks(ms[1..], start + 1, p) + rest, current, "slot_1", key);
      SkipBlocks(ms[1..], start + 1, p, rest, current, key);
    } else {
      assert ModelBlocks(ms, start, p) + rest == rest;
    }
  }

  /** Where a model key is found in the lines of either application. */
  lemma FindModel(w: Workflow, backendPath: Option<string>, rifeValue: string, p: Printer, withEngine: bool, n: nat, f: Field)
    ensures var got := Find(Lines(w, backendPath, rifeValue, p, withEngine), None, "slot_1", Model(n, f));
      (1 <= n <= |w.models| ==> got == Some(FieldValue(w.models[n - 1], f, p)))
      && (n == 0 || n > |w.models| ==> got == None)
  {
    var t := TrailerLines(w, rifeValue, p, withEngine);
    PastHeader(w, backendPath, ModelBlocks(w.models, 0, p) + t, Model(n, f));
    TrailerHasNoModel(w, rifeValue, p, withEngine, n, f);
    FindModelAfter(HeaderLines(w, backendPath), w.models, p, t, n, f);
  }

  /** The model lookup for any header that hands over to the slot section
      and any trailer without model keys. */
  lemma FindModelAfter(header: seq<Line>, ms: seq<UpscaleModel>, p: Printer, t: seq<Line>, n: nat, f: Field)
    requires Find(header + (ModelBlocks(ms, 0, p) + t), None, "slot_1", Model(n, f))
      == Find(ModelBlocks(ms, 0, p) + t, Some("slot_1"), "slot_1", Model(n, f))
    requires Find(t, Some("slot_1"), "slot_1", Model(n, f)) == None
    ensures var got := Find(header + (ModelBlocks(ms, 0, p) + t), None, "slot_1", Model(n, f));
      (1 <= n <= |ms| ==> got == Some(FieldValue(ms[n - 1], f, p)))
      && (n == 0 || n > |ms| ==> got == None)
  {
    FindInBlocks(ms, 0, p, t, n, f);
  }

  lemma TrailerHasNoModel(w: Workflow, rifeValue: string, p: Printer, withEngine: bool, n: nat, f: Field)
    ensures Find(TrailerLines(w, rifeValue, p, withEngine), Some("slot_1"), "slot_1", Model(n, f)) == None
  {
    var t := TrailerLines(w, rifeValue, p, withEngine);
    TrailerKeys(w, rifeValue, p, withEngine);
    assert forall i :: 0 <= i < |t| ==> TrailerKey(t[i]);
    Absent(t, Some("slot_1"), "slot_1", Model(n, f));
  }

  /** The reader sees each model's three values under its 1-based keys, and
      no model key for a number outside 1..|models|: it sees exactly the
      listed models, in order. */
  lemma LookupModel(w: Workflow, backendDir: string, n: nat, f: Field)
    requires Config(w, backendDir).Ok?
    ensures var got := Lookup(Config(w, backendDir).value, "slot_1", KeyText(Model(n, f)));
      (1 <= n <= |w.models| ==> got == Some(FieldValue(w.models[n - 1], f, PrinterFor(EnUs))))
      && (n == 0 || n > |w.models| ==> got == None)
  {
    ConfigLines(w, backendDir);
    FindModel(w, Some(backendDir), RifeNames.LabelToValue(w.rifeModel).value, PrinterFor(EnUs), true, n, f);
    LookupIsFind(Config(w, backendDir).value, None, "slot_1", Model(n, f));
  }

  /** The numbers of a model's block parse back to the list's values. */
  lemma ModelNumbersReadBack(m: UpscaleModel)
    ensures ParseInvariant(FieldValue(m, Height, PrinterFor(EnUs))) == Some(Decimal(m.resizeHeightBeforeUpscale, 0))
    ensures ParseInvariant(FieldValue(m, Factor, PrinterFor(EnUs))) == Some(m.resizeFactorBeforeUpscale)
  {
    RenderIntIsDecimal(m.resizeHeightBeforeUpscale, EnUs);
    RenderRoundTrip(m.resizeFactorBeforeUpscale);
  }

  /** A slot key of no model is looked for in the trailer only. */
  lemma PastBlocks(w: Workflow, backendPath: Option<string>, rifeValue: string, p: Printer, withEngine: bool, key: Key)
    requires !key.Model? && key != ProfileName
    ensures Find(Lines(w, backendPath, rifeValue, p, withEngine), None, "slot_1", key)
      == Find(TrailerLines(w, rifeValue, p, withEngine), Some("slot_1"), "slot_1", key)
  {
    var t := TrailerLines(w, rifeValue, p, withEngine);
    PastHeader(w, backendPath, ModelBlocks(w.models, 0, p) + t, key);
    SkipBlocks(w.models, 0, p, t, Some("slot_1"), key);
  }

  /** Where the RIFE model and engine keys are found in the trailer. */
  lemma FindInTrailer(w: Workflow, rifeValue: string, p: Printer, withEngine: bool)
    ensures var t := TrailerLines(w, rifeValue, p, withEngine);
      Find(t, Some("slot_1"), "slot_1", RifeModel) == Some(rifeValue)
      && Find(t, Some("slot_1"), "slot_1", EngineSettings) == (if withEngine then Some(EngineValue(w)) else None)
  {
    var head, mid, tail, e := RifeHead(w, p), [Pair(RifeModel, rifeValue)], RifeTail(w, p), EngineLines(w, withEngine);
    var cur := Some("slot_1");
    SkipPairs(head, mid + (tail + e), cur, "slot_1", RifeModel);
    FindHit(RifeModel, rifeValue, tail + e, "slot_1");
    SkipPairs(head, mid + (tail + e), cur, "slot_1", EngineSettings);
    SkipPairs(mid, tail + e, cur, "slot_1", EngineSettings);
    SkipPairs(tail, e, cur, "slot_1", EngineSettings);
    if withEngine {
      assert e == [Pair(EngineSettings, EngineValue(w))] + [];
      FindHit(EngineSettings, EngineValue(w), [], "slot_1");
    }
  }

  /** The scene-detect threshold is the second line after the RIFE model. */
  lemma ThresholdInTrailer(w: Workflow, rifeValue: string, p: Printer, withEngine: bool)
    ensures Find(TrailerLines(w, rifeValue, p, withEngine), Some("slot_1"), "slot_1", RifeSceneDetectThreshold)
      == Some(p.dec(w.rifeSceneDetectThreshold))
  {
    var key := RifeSceneDetectThreshold;
    var head, mid, tail, e := RifeHead(w, p), [Pair(RifeModel, rifeValue)], RifeTail(w, p), EngineLines(w, withEngine);
    var cur := Some("slot_1");
    SkipPairs(head, mid + (tail + e), cur, "slot_1", key);
    SkipPairs(mid, tail + e, cur, "slot_1", key);
    var rest := tail[2..] + e;
    assert tail + e == [tail[0]] + ([tail[1]] + rest);
    SkipPairs([tail[0]], [tail[1]] + rest, cur, "slot_1", key);
    FindHit(key, p.dec(w.rifeSceneDetectThreshold), rest, "slot_1");
  }

  lemma FindThreshold(w: Workflow, backendPath: Option<string>, rifeValue: string, p: Printer, withEngine: bool)
    ensures Find(Lines(w, backendPath, rifeValue, p, withEngine), None, "slot_1", RifeSceneDetectThreshold)
      == Some(p.dec(w.rifeSceneDetectThreshold))
  {
    PastBlocks(w, backendPath, rifeValue, p, withEngine, RifeSceneDetectThreshold);
    ThresholdInTrailer(w, rifeValue, p, withEngine);
  }

  /** The threshold the reader sees parses back, as invariant text, to the
      workflow's threshold, scale included. */
  lemma LookupThreshold(w: Workflow, backendDir: string)
    requires Config(w, backendDir).Ok?
    ensures var got := Lookup(Config(w, backendDir).value, "slot_1", KeyText(RifeSceneDetectThreshold));
      got.Some? && ParseInvariant(got.value) == Some(w.rifeSceneDetectThreshold)
  {
    var cfg := Config(w, backendDir).value;
    ConfigLines(w, backendDir);
    FindThreshold(w, Some(backendDir), RifeNames.LabelToValue(w.rifeModel).value, PrinterFor(EnUs), true);
    LookupIsFind(cfg, None, "slot_1", RifeSceneDetectThreshold);
    RenderRoundTrip(w.rifeSceneDetectThreshold);
  }

  /** The final resize height is the third line after the RIFE model. */
  lemma FinalHeightInTrailer(w: Workflow, rifeValue: string, p: Printer, withEngine: bool)
    ensures Find(TrailerLines(w, rifeValue, p, withEngine), Some("slot_1"), "slot_1", FinalResizeHeight)
      == Some(p.integer(w.finalResizeHeight))
  {
    var key := FinalResizeHeight;
    var head, mid, tail, e := RifeHead(w, p), [Pair(RifeModel, rifeValue)], RifeTail(w, p), EngineLines(w, withEngine);
    var cur := Some("slot_1");
    SkipPairs(head, mid + (tail + e), cur, "slot_1", key);
    SkipPairs(mid, tail + e, cur, "slot_1", key);
    var rest := tail[3..] + e;
    assert tail + e == tail[..2] + ([tail[2]] + rest);
    SkipPairs(tail[..2], [tail[2]] + rest, cur, "slot_1", key);
    FindHit(key, p.integer(w.finalResizeHeight), rest, "slot_1");
  }

  /** The FinalResizeHeight setter reaches the file: the reader sees the
      stored `value ?? 0`, and it parses back to that number. */
  lemma SetFinalResizeHeightReachesConfig(w: Workflow, value: Option<int>, backendDir: string)
    requires Config(w, backendDir).Ok?
    ensures var s := SetFinalResizeHeight(w, value);
      && Config(s, backendDir).Ok?
      && var got := Lookup(Config(s, backendDir).value, "slot_1", KeyText(FinalResizeHeight));
      && got.Some?
      && ParseInvariant(got.value) == Some(Decimal(if value.Some? then value.value else 0, 0))
  {
    var s := SetFinalResizeHeight(w, value);
    var v := RifeNames.LabelToValue(s.rifeModel).value;
    ConfigLines(s, backendDir);
    PastBlocks(s, Some(backendDir), v, PrinterFor(EnUs), true, FinalResizeHeight);
    FinalHeightInTrailer(s, v, PrinterFor(EnUs), true);
    LookupIsFind(Config(s, backendDir).value, None, "slot_1", FinalResizeHeight);
    RenderIntIsDecimal(s.finalResizeHeight, EnUs);
  }

  /** The ResizeHeightBeforeUpscale setter on the n-th model reaches that
      model's block: the reader sees the stored `value ?? 0`. */
  lemma SetResizeHeightReachesConfig(w: Workflow, n: nat, value: Option<int>, backendDir: string)
    requires Config(w, backendDir).Ok? && 1 <= n <= |w.models|
    ensures var s := w.(models := w.models[n - 1 := SetResizeHeight(w.models[n - 1], value)]);
      && Config(s, backendDir).Ok?
      && var got := Lookup(Config(s, backendDir).value, "slot_1", KeyText(Model(n, Height)));
      && got.Some?
      && ParseInvariant(got.value) == Some(Decimal(if value.Some? then value.value else 0, 0))
  {
    var s := w.(models := w.models[n - 1 := SetResizeHeight(w.models[n - 1], value)]);
    LookupModel(s, backendDir, n, Height);
    ModelNumbersReadBack(s.models[n - 1]);
  }

  /** Where the RIFE model and engine keys are found in the lines. */
  lemma FindRifeAndEngine(w: Workflow, backendPath: Option<string>, rifeValue: string, p: Printer, withEngine: bool)
    ensures var ls := Lines(w, backendPath, rifeValue, p, withEngine);
      Find(ls, None, "slot_1", RifeModel) == Some(rifeValue)
      && Find(ls, None, "slot_1", EngineSettings) == (if withEngine then Some(EngineValue(w)) else None)
  {
    PastBlocks(w, backendPath, rifeValue, p, withEngine, RifeModel);
    PastBlocks(w, backendPath, rifeValue, p, withEngine, EngineSettings);
    FindInTrailer(w, rifeValue, p, withEngine);
  }

  /** The RIFE value the reader sees is the converted label, and the engine
      settings are empty exactly when automatic. */
  lemma LookupRifeAndEngine(w: Workflow, backendDir: string)
    requires Config(w, backendDir).Ok?
    ensures var cfg := Config(w, backendDir).value;
      Lookup(cfg, "slot_1", KeyText(RifeModel)) == Some(RifeNames.LabelToValue(w.rifeModel).value)
      && Lookup(cfg, "slot_1", KeyText(EngineSettings)) == Some(EngineValue(w))
      && (Lookup(cfg, "slot_1", KeyText(EngineSettings)) == Some("") <== w.tensorRtEngineSettingsAuto)
  {
    var cfg := Config(w, backendDir).value;
    ConfigLines(w, backendDir);
    FindRifeAndEngine(w, Some(backendDir), RifeNames.LabelToValue(w.rifeModel).value, PrinterFor(EnUs), true);
    LookupIsFind(cfg, None, "slot_1", RifeModel);
    LookupIsFind(cfg, None, "slot_1", EngineSettings);
  }

  // ---------------------------------------------------------------------------
  // Every line reads back

  /** The RifeSceneDetectThreshold setter reaches the file: the reader sees
      a threshold equal in value to the entered `value ?? 0.150`. */
  lemma SetThresholdReachesConfig(w: Workflow, value: Option<Decimal>, backendDir: string)
    requires Config(w, backendDir).Ok?
    ensures var s := SetRifeSceneDetectThreshold(w, value);
      && Config(s, backendDir).Ok?
      && var got := Lookup(Config(s, backendDir).value, "slot_1", KeyText(RifeSceneDetectThreshold));
      && got.Some? && ParseInvariant(got.value).Some?
      && SameValue(ParseInvariant(got.value).value, if value.Some? then value.value else DefaultSceneDetectThreshold)
  {
    LookupThreshold(SetRifeSceneDetectThreshold(w, value), backendDir);
  }

  /** The ResizeFactorBeforeUpscale setter on the n-th model reaches that
      model's block: the reader sees a factor equal in value to the entered
      `value ?? 100`. */
  lemma SetResizeFactorReachesConfig(w: Workflow, n: nat, value: Option<Decimal>, backendDir: string)
    requires Config(w, backendDir).Ok? && 1 <= n <= |w.models|
    ensures var s := w.(models := w.models[n - 1 := SetResizeFactor(w.models[n - 1], value)]);
      && Config(s, backendDir).Ok?
      && var got := Lookup(Config(s, backendDir).value, "slot_1", KeyText(Model(n, Factor)));
      && got.Some? && ParseInvariant(got.value).Some?
      && SameValue(ParseInvariant(got.value).value, if value.Some? then value.value else Decimal(100, 0))
  {
    var s := w.(models := w.models[n - 1 := SetResizeFactor(w.models[n - 1], value)]);
    LookupModel(s, backendDir, n, Factor);
    ModelNumbersReadBack(s.models[n - 1]);
  }

  /** Every line of the file, read back by an ini reader, is the line written. */
  lemma ConfigReadsBack(w: Workflow, backendDir: string, i: nat)
    requires Config(w, backendDir).Ok? && i < |Config(w, backendDir).value|
    ensures ParseLine(LineText(Config(w, backendDir).value[i])) == Some(Raw(Config(w, backendDir).value[i]))
  {
    ParseLineText(Config(w, backendDir).value[i]);
  }
}
