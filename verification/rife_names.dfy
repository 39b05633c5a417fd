/** RIFE frame-interpolation model names. The GUI shows labels such as
    "RIFE 4.22" or "RIFE 4.12 Lite"; the configuration file and the file
    names carry values such as "422" or "4121" (major digit, minor digits,
    and a trailing "1" for a lite model). */
module RifeNames {
  import opened Common
  import Paths

  /** The exceptions the two codecs can throw. */
  datatype RifeError =
    | SubstringOutOfRange(value: string)   // Substring(1, 2) on a one-character value
    | NoLabelMatch(text: string)          // ArgumentException(label)

  // ---------------------------------------------------------------------------
  // Value -> label

  /** RifeValueToLabel: "RIFE " + first character + "." + the next one or two
      characters, with " Lite" when the value has four or more characters
      and ends in '1'. */
  function ValueToLabel(v: string): (r: Result<string, RifeError>)
    ensures v == "" ==> r == Ok("")
    ensures |v| == 1 <==> r.Err?
    ensures r.Ok? && v != "" ==> |r.value| >= 7 && StartsWith(r.value, "RIFE ") && r.value[5] == v[0] && r.value[6] == '.'
  {
    if v == "" then Ok(v)
    else if |v| == 1 then Err(SubstringOutOfRange(v))
    else
      var dec := if |v| == 2 then [v[1]] else v[1..3];
      var name := "RIFE " + [v[0]] + "." + dec;
      Ok(if |v| >= 4 && v[|v| - 1] == '1' then name + " Lite" else name)
  }

  // ---------------------------------------------------------------------------
  // Label -> value: a leftmost search for RIFE (\d+)\.(\d+)( Lite)?

  /** Length of the run of ASCII digits starting at `i`. */
  function DigitRun(s: string, i: nat): (n: nat)
    requires i <= |s|
    ensures i + n <= |s|
    ensures forall k :: i <= k < i + n ==> IsDigit(s[k])
    ensures i + n < |s| ==> !IsDigit(s[i + n])
    decreases |s| - i
  {
    if i < |s| && IsDigit(s[i]) then 1 + DigitRun(s, i + 1) else 0
  }

  /** `t` occurs in `s` at position `i`. */
  predicate At(s: string, i: nat, t: string) {
    i + |t| <= |s| && s[i..i + |t|] == t
  }

  /** The label pattern matched at position `i`. Each (\d+) is followed by a
      non-digit literal or by an optional group, so the greedy maximal digit
      run is the only one that leads to a match and the groups are those runs;
      the optional " Lite" is taken when present. The result is the value
      the groups spell. */
  function LabelMatchAt(s: string, i: nat): (r: Option<string>)
    requires i <= |s|
    ensures r.Some? ==> At(s, i, "RIFE ")
  {
    if !At(s, i, "RIFE ") then None
    else
      var j := i + 5;
      var a := DigitRun(s, j);
      if a == 0 || j + a >= |s| || s[j + a] != '.' then None
      else
        var k := j + a + 1;
        var b := DigitRun(s, k);
        if b == 0 then None
        else Some(s[j..j + a] + s[k..k + b] + (if At(s, k + b, " Lite") then "1" else ""))
  }

  /** Regex.Match: the leftmost position where the pattern matches. */
  function LabelSearch(s: string, i: nat): (r: Option<string>)
    requires i <= |s|
    decreases |s| - i
  {
    var m := LabelMatchAt(s, i);
    if m.Some? then m else if i == |s| then None else LabelSearch(s, i + 1)
  }

  /** RifeLabelToValue: the empty label passes through; otherwise the groups
      of the first match, or ArgumentException. */
  function LabelToValue(text: string): (r: Result<string, RifeError>)
    ensures text == "" ==> r == Ok("")
    ensures text != "" && r.Err? ==> r.error == NoLabelMatch(text)
  {
    if text == "" then Ok(text)
    else match LabelSearch(text, 0)
      case Some(v) => Ok(v)
      case None => Err(NoLabelMatch(text))
  }

  /** The values whose label carries all their information. */
  predicate LabelledValue(v: string) {
    AllDigits(v) && (|v| == 2 || |v| == 3 || (|v| == 4 && v[3] == '1'))
  }

  /** Shape of the label of such a value: the minor digits and whether the
      " Lite" suffix is present. */
  lemma LabelShape(v: string)
    requires LabelledValue(v)
    ensures var dec := if |v| == 2 then [v[1]] else v[1..3];
      ValueToLabel(v) == Ok("RIFE " + [v[0]] + "." + dec + (if |v| == 4 then " Lite" else ""))
  {
    var dec := if |v| == 2 then [v[1]] else v[1..3];
    var name := "RIFE " + [v[0]] + "." + dec;
    if |v| == 4 {
      assert v[|v| - 1] == '1';
    } else {
      assert name + "" == name;
    }
  }

  /** The characters of pre + major + "." + minor + tail, part by part. */
  lemma Layout(pre: string, major: string, minor: string, tail: string)
    ensures var s := pre + major + "." + minor + tail;
      var k := |pre| + |major| + 1;
      |s| == k + |minor| + |tail| && s[..|pre|] == pre && s[|pre| + |major|] == '.'
      && (forall i :: 0 <= i < |major| ==> s[|pre| + i] == major[i])
      && (forall i :: 0 <= i < |minor| ==> s[k + i] == minor[i])
      && s[|pre|..|pre| + |major|] == major && s[k..k + |minor|] == minor && s[k + |minor|..] == tail
  {
  }

  /** Matching the label "RIFE d.m" or "RIFE d.m Lite", for digit strings
      d and m, yields d + m, followed by "1" for the lite form. */
  lemma MatchOfLabel(major: string, minor: string, lite: bool)
    requires |major| > 0 && |minor| > 0 && AllDigits(major) && AllDigits(minor)
    ensures var s := "RIFE " + major + "." + minor + (if lite then " Lite" else "");
      LabelToValue(s) == Ok(major + minor + (if lite then "1" else ""))
  {
    var tail := if lite then " Lite" else "";
    var s := "RIFE " + major + "." + minor + tail;
    var k := 6 + |major|;
    Layout("RIFE ", major, minor, tail);
    RunIs(s, 5, |major|);
    if lite {
      assert s[k + |minor|] == ' ';
    }
    RunIs(s, k, |minor|);
    assert At(s, k + |minor|, " Lite") == lite;
    assert LabelMatchAt(s, 0) == Some(major + minor + (if lite then "1" else ""));
  }

  /** A run of exactly `n` digits starting at `i`. */
  lemma RunIs(s: string, i: nat, n: nat)
    requires i + n <= |s|
    requires forall k :: i <= k < i + n ==> IsDigit(s[k])
    requires i + n < |s| ==> !IsDigit(s[i + n])
    ensures DigitRun(s, i) == n
    decreases n
  {
    if n > 0 {
      RunIs(s, i + 1, n - 1);
    }
  }

  /** Round trip value -> label -> value, for every two- or three-digit value
      and every four-digit value ending in '1'. */
  lemma ValueLabelRoundTrip(v: string)
    requires LabelledValue(v)
    ensures ValueToLabel(v).Ok? && LabelToValue(ValueToLabel(v).value) == Ok(v)
  {
    LabelShape(v);
    var dec := if |v| == 2 then [v[1]] else v[1..3];
    MatchOfLabel([v[0]], dec, |v| == 4);
    if |v| == 2 {
      assert [v[0]] + dec + "" == v;
    } else if |v| == 3 {
      assert [v[0]] + dec + "" == v;
    } else {
      assert [v[0]] + dec + "1" == v;
    }
  }

  /** Round trip label -> value -> label, for the labels of one major digit
      and one or two minor digits, except the one-minor-digit lite form
      (its value has three characters and so reads back without " Lite"). */
  lemma LabelValueRoundTrip(major: char, minor: string, lite: bool)
    requires IsDigit(major) && AllDigits(minor) && (|minor| == 2 || (|minor| == 1 && !lite))
    ensures var s := "RIFE " + [major] + "." + minor + (if lite then " Lite" else "");
      LabelToValue(s).Ok? && ValueToLabel(LabelToValue(s).value) == Ok(s)
  {
    MatchOfLabel([major], minor, lite);
    var v := [major] + minor + (if lite then "1" else "");
    var s := "RIFE " + [major] + "." + minor + (if lite then " Lite" else "");
    assert v[0] == major;
    if |minor| == 2 {
      assert v[1..3] == minor;
    } else {
      assert [v[1]] == minor;
    }
    if !lite {
      assert s == "RIFE " + [major] + "." + minor;
    }
  }

  /** The one-minor-digit lite label does not survive the round trip:
      "RIFE 4.6 Lite" reads as "461", which prints as "RIFE 4.61". */
  lemma ShortLiteLabelLosesLite(major: char, minor: char)
    requires IsDigit(major) && IsDigit(minor)
    ensures LabelToValue("RIFE " + [major] + "." + [minor] + " Lite") == Ok([major, minor, '1'])
    ensures ValueToLabel([major, minor, '1']) == Ok("RIFE " + [major] + "." + [minor, '1'])
  {
    MatchOfLabel([major], [minor], true);
    assert [major] + [minor] + "1" == [major, minor, '1'];
    assert [major, minor, '1'][1..3] == [minor, '1'];
  }

  /** A non-empty label that nowhere contains "RIFE " is rejected. */
  lemma NoPrefixRejected(text: string)
    requires text != ""
    requires forall i :: 0 <= i <= |text| ==> !At(text, i, "RIFE ")
    ensures LabelToValue(text) == Err(NoLabelMatch(text))
  {
    NoPrefixNoMatch(text, 0);
  }

  lemma {:induction false} NoPrefixNoMatch(s: string, i: nat)
    requires i <= |s|
    requires forall k :: i <= k <= |s| ==> !At(s, k, "RIFE ")
    ensures LabelSearch(s, i).None?
    decreases |s| - i
  {
    if i < |s| {
      NoPrefixNoMatch(s, i + 1);
    }
  }

  // ---------------------------------------------------------------------------
  // Model files: rife_v(\d+)\.(\d+)(_lite)?(_ensemble)?.onnx

  /** Any character followed by "onnx" (the pattern's dot is unescaped). */
  predicate AnyOnnx(s: string, p: nat) {
    p + 5 <= |s| && s[p + 1..p + 5] == "onnx"
  }

  /** (_lite)?(_ensemble)?.onnx matches at `p`, trying every alternative. */
  predicate TailMatch(s: string, p: nat) {
    (At(s, p, "_lite") && ((At(s, p + 5, "_ensemble") && AnyOnnx(s, p + 14)) || AnyOnnx(s, p + 5)))
    || (At(s, p, "_ensemble") && AnyOnnx(s, p + 9))
    || AnyOnnx(s, p)
  }

  /** The longest minor-digit group, of at most `n` digits starting at `k`,
      after which the tail matches: the greedy (\d+) gives digits back one at
      a time until the rest matches. 0 when none does. */
  function MinorLength(s: string, k: nat, n: nat): (r: nat)
    requires k + n <= |s|
    ensures r <= n
    ensures r > 0 ==> TailMatch(s, k + r)
    ensures forall p :: k + r < p <= k + n ==> !TailMatch(s, p)
    decreases n
  {
    if n == 0 then 0 else if TailMatch(s, k + n) then n else MinorLength(s, k, n - 1)
  }

  /** The file pattern at position `i`: the two digit groups, concatenated. */
  function FileMatchAt(s: string, i: nat): (r: Option<string>)
    requires i <= |s|
    ensures r.Some? ==> At(s, i, "rife_v") && |r.value| >= 2 && AllDigits(r.value)
  {
    if !At(s, i, "rife_v") then None
    else
      var j := i + 6;
      var a := DigitRun(s, j);
      if a == 0 || j + a >= |s| || s[j + a] != '.' then None
      else
        var k := j + a + 1;
        var b := MinorLength(s, k, DigitRun(s, k));
        if b == 0 then None else Some(s[j..j + a] + s[k..k + b])
  }

  function FileSearch(s: string, i: nat): (r: Option<string>)
    requires i <= |s|
    ensures r.Some? ==> |r.value| >= 2 && AllDigits(r.value)
    decreases |s| - i
  {
    var m := FileMatchAt(s, i);
    if m.Some? then m else if i == |s| then None else FileSearch(s, i + 1)
  }

  /** The value a model file contributes: the digit groups of the first match
      in its file name, plus "1" when the full path contains "_lite". */
  function FileValue(path: string): (r: Option<string>)
    ensures r.Some? ==> |r.value| >= 2 && AllDigits(r.value)
  {
    match FileSearch(Paths.FileName(path), 0)
    case None => None
    case Some(v) => Some(if Contains(path, "_lite") then v + "1" else v)
  }

  /** The optional groups and ".onnx" match whatever combination of
      "_lite" and "_ensemble" precedes ".onnx". */
  lemma TailOf(s: string, p: nat, lite: bool, ensemble: bool)
    requires p <= |s|
    requires s[p..] == (if lite then "_lite" else "") + (if ensemble then "_ensemble" else "") + ".onnx"
    ensures TailMatch(s, p)
  {
    var t := s[p..];
    if lite && ensemble {
      assert t[..5] == "_lite" && t[5..14] == "_ensemble" && t[15..19] == "onnx";
      assert s[p..p + 5] == t[..5] && s[p + 5..p + 14] == t[5..14] && s[p + 15..p + 19] == t[15..19];
    } else if lite {
      assert t[..5] == "_lite" && t[6..10] == "onnx";
      assert s[p..p + 5] == t[..5] && s[p + 6..p + 10] == t[6..10];
    } else if ensemble {
      assert t[..9] == "_ensemble" && t[10..14] == "onnx";
      assert s[p..p + 9] == t[..9] && s[p + 10..p + 14] == t[10..14];
    } else {
      assert t == ".onnx";
      assert t[1..5] == "onnx";
      assert s[p + 1..p + 5] == t[1..5];
    }
  }

  /** A well-formed model file name yields its major and minor digits. */
  lemma FileNameGroups(major: string, minor: string, lite: bool, ensemble: bool)
    requires |major| > 0 && |minor| > 0 && AllDigits(major) && AllDigits(minor)
    ensures var name := "rife_v" + major + "." + minor
        + ((if lite then "_lite" else "") + (if ensemble then "_ensemble" else "") + ".onnx");
      FileSearch(name, 0) == Some(major + minor)
  {
    var t := (if lite then "_lite" else "") + (if ensemble then "_ensemble" else "") + ".onnx";
    var s := "rife_v" + major + "." + minor + t;
    var p := 7 + |major| + |minor|;
    assert s[p..] == t;
    TailOf(s, p, lite, ensemble);
    assert t[0] == '_' || t[0] == '.';
    GroupsBeforeTail(major, minor, t);
  }

  /** The two digit groups, followed by text that does not start with a
      digit and where the tail of the pattern matches, are the match. */
  lemma GroupsBeforeTail(major: string, minor: string, t: string)
    requires |major| > 0 && |minor| > 0 && AllDigits(major) && AllDigits(minor)
    requires t != [] && !IsDigit(t[0])
    requires TailMatch("rife_v" + major + "." + minor + t, 7 + |major| + |minor|)
    ensures FileSearch("rife_v" + major + "." + minor + t, 0) == Some(major + minor)
  {
    var s := "rife_v" + major + "." + minor + t;
    var k := 7 + |major|;
    var p := k + |minor|;
    Layout("rife_v", major, minor, t);
    assert At(s, 0, "rife_v");
    RunIs(s, 6, |major|);
    assert s[6 + |major|] == '.';
    assert s[p] == t[0];
    RunIs(s, k, |minor|);
    var b := MinorLength(s, k, DigitRun(s, k));
    assert b == |minor|;
    assert s[6..6 + |major|] == major && s[k..k + b] == minor;
    assert FileMatchAt(s, 0) == Some(major + minor);
  }

  /** No character of a well-formed model file name is a separator. */
  lemma ModelNameHasNoSep(major: string, minor: string, t: string)
    requires AllDigits(major) && AllDigits(minor)
    requires forall i :: 0 <= i < |t| ==> !Paths.IsSep(t[i])
    ensures var name := "rife_v" + major + "." + minor + t;
      forall i :: 0 <= i < |name| ==> !Paths.IsSep(name[i])
  {
    var name := "rife_v" + major + "." + minor + t;
    Layout("rife_v", major, minor, t);
    var p := 7 + |major| + |minor|;
    forall i | 0 <= i < |name| ensures !Paths.IsSep(name[i]) {
      if 6 <= i < 6 + |major| {
        assert name[i] == major[i - 6];
      } else if p - |minor| <= i < p {
        assert name[i] == minor[i - (p - |minor|)];
      } else if i >= p {
        assert name[i] == name[p..][i - p];
      }
    }
  }

  /** A lite model file, listed under a directory, yields its digits
      followed by "1" (so rife_v4.12_lite.onnx yields 4121). */
  lemma LiteFileValue(dir: string, major: string, minor: string, ensemble: bool)
    requires |major| > 0 && |minor| > 0 && AllDigits(major) && AllDigits(minor)
    ensures var name := "rife_v" + major + "." + minor + ("_lite" + (if ensemble then "_ensemble" else "") + ".onnx");
      FileValue(dir + "\\" + name) == Some(major + minor + "1")
  {
    var t := "_lite" + (if ensemble then "_ensemble" else "") + ".onnx";
    var name := "rife_v" + major + "." + minor + t;
    var path := (dir + "\\") + name;
    FileNameGroups(major, minor, true, ensemble);
    LiteTailHasNoSep(ensemble);
    ModelNameHasNoSep(major, minor, t);
    Paths.SuffixFileName(dir + "\\", name);
    assert name[|name| - |t|..] == t;
    assert StartsWith(t, "_lite");
    LiteOccurs(dir + "\\", name, |name| - |t|, t);
    assert Contains(path, "_lite");
    assert Paths.FileName(path) == name;
    assert FileSearch(Paths.FileName(path), 0) == Some(major + minor);
  }

  lemma LiteTailHasNoSep(ensemble: bool)
    ensures var t := "_lite" + (if ensemble then "_ensemble" else "") + ".onnx";
      forall i :: 0 <= i < |t| ==> !Paths.IsSep(t[i])
  {
    if ensemble {
      assert "_lite" + "_ensemble" + ".onnx" == "_lite_ensemble.onnx";
    } else {
      assert "_lite" + "" + ".onnx" == "_lite.onnx";
    }
  }

  lemma LiteOccurs(dir: string, name: string, p: nat, t: string)
    requires p + |t| == |name| && name[p..] == t && StartsWith(t, "_lite")
    ensures Contains(dir + name, "_lite")
  {
    var path := dir + name;
    assert path[|dir| + p..] == t;
    ContainsAt(path, "_lite", |dir| + p);
  }

  // ---------------------------------------------------------------------------
  // The RifeModels list

  /** A value produced by the file pattern. */
  predicate IsValue(v: string) { |v| >= 2 && AllDigits(v) }

  /** The comparator's key, times ten: the number spelt by the first three
      characters, plus one (0.1 in the source) for a value longer than three. */
  function SortKey(v: string): nat
    requires IsValue(v)
  {
    DigitsValue(v[..if |v| < 3 then |v| else 3]) * 10 + (if |v| > 3 then 1 else 0)
  }

  predicate AllValues(s: seq<string>) { forall i :: 0 <= i < |s| ==> IsValue(s[i]) }

  predicate Descending(s: seq<string>)
    requires AllValues(s)
  {
    forall i, j :: 0 <= i < j < |s| ==> SortKey(s[i]) >= SortKey(s[j])
  }

  function Insert(x: string, s: seq<string>): (r: seq<string>)
    requires IsValue(x) && AllValues(s) && Descending(s)
    ensures AllValues(r) && Descending(r)
    ensures multiset(r) == multiset(s) + multiset{x}
    ensures |r| == |s| + 1 && (r[0] == x || (s != [] && r[0] == s[0]))
    decreases |s|
  {
    if s == [] then [x]
    else if SortKey(s[0]) >= SortKey(x) then
      var t := Insert(x, s[1..]);
      InsertBehind(x, s, t);
      [s[0]] + t
    else
      ConsDescending(x, s);
      [x] + s
  }

  /** Putting the head back in front of the insertion into the tail keeps
      the order and the elements. */
  lemma InsertBehind(x: string, s: seq<string>, t: seq<string>)
    requires IsValue(x) && AllValues(s) && Descending(s)
    requires s != [] && SortKey(s[0]) >= SortKey(x)
    requires AllValues(t) && Descending(t) && multiset(t) == multiset(s[1..]) + multiset{x}
    requires |t| == |s| && (t[0] == x || (|s| > 1 && t[0] == s[1]))
    ensures AllValues([s[0]] + t) && Descending([s[0]] + t)
    ensures multiset([s[0]] + t) == multiset(s) + multiset{x}
  {
    assert s == [s[0]] + s[1..];
    ConsDescending(s[0], t);
  }

  /** A value no smaller than the head of a descending list extends it. */
  lemma ConsDescending(h: string, t: seq<string>)
    requires IsValue(h) && AllValues(t) && Descending(t)
    requires t == [] || SortKey(h) >= SortKey(t[0])
    ensures AllValues([h] + t) && Descending([h] + t)
  {
    var r := [h] + t;
    assert forall i :: 1 <= i < |r| ==> r[i] == t[i - 1];
  }

  /** models.Sort with the descending comparator. List.Sort is unstable, so
      the order of equal keys is unspecified; this model keeps their
      original order, which is one of the orders the source may produce. */
  function SortDescending(s: seq<string>): (r: seq<string>)
    requires AllValues(s)
    ensures AllValues(r) && Descending(r)
    ensures multiset(r) == multiset(s)
    decreases |s|
  {
    if s == [] then []
    else
      assert s == s[..|s| - 1] + [s[|s| - 1]];
      Insert(s[|s| - 1], SortDescending(s[..|s| - 1]))
  }

  /** One step of the foreach: List.Contains, then List.Add. */
  function AddValue(models: seq<string>, m: Option<string>): (r: seq<string>)
    ensures m.None? || m.value in models ==> r == models
    ensures m.Some? && m.value !in models ==> r == models + [m.value]
  {
    match m
    case None => models
    case Some(v) => if v in models then models else models + [v]
  }

  /** What each file of the listing contributes, in listing order. */
  function FileValues(files: seq<string>): (r: seq<Option<string>>)
    ensures |r| == |files|
    ensures forall i :: 0 <= i < |files| ==> r[i] == FileValue(files[i])
  {
    seq(|files|, i requires 0 <= i < |files| => FileValue(files[i]))
  }

  /** The foreach over the listing: each matching file adds its value
      unless the list already has it. */
  function CollectValues(ms: seq<Option<string>>): (r: seq<string>)
    requires forall i :: 0 <= i < |ms| && ms[i].Some? ==> IsValue(ms[i].value)
    ensures AllValues(r)
    ensures forall i, j :: 0 <= i < j < |r| ==> r[i] != r[j]
    decreases |ms|
  {
    if ms == [] then []
    else AddValue(CollectValues(ms[..|ms| - 1]), ms[|ms| - 1])
  }

  /** The list holds exactly the values some file in the listing yields. */
  lemma {:induction false} CollectValuesMembers(ms: seq<Option<string>>, v: string)
    requires forall i :: 0 <= i < |ms| && ms[i].Some? ==> IsValue(ms[i].value)
    ensures v in CollectValues(ms) <==> Some(v) in ms
    decreases |ms|
  {
    if ms != [] {
      var init := ms[..|ms| - 1];
      assert ms == init + [ms[|ms| - 1]];
      CollectValuesMembers(init, v);
    }
  }

  function Labels(values: seq<string>): (r: seq<string>)
    requires AllValues(values)
    ensures |r| == |values|
    ensures forall i :: 0 <= i < |values| ==> ValueToLabel(values[i]) == Ok(r[i])
  {
    seq(|values|, i requires 0 <= i < |values| => ValueToLabel(values[i]).value)
  }

  /** The RifeModels getter. The cache is filled by the first call that
      finds the rife model directory; a missing directory gives an empty
      list and leaves the cache empty, so a later call looks again. */
  function RifeModels(cache: Option<seq<string>>, dirExists: bool, files: seq<string>)
    : (r: (seq<string>, Option<seq<string>>))
    ensures cache.Some? ==> r == (cache.value, cache)
    ensures cache.None? && !dirExists ==> r == ([], None)
    ensures cache.None? && dirExists ==> r.1 == Some(r.0)
  {
    if cache.Some? then (cache.value, cache)
    else if !dirExists then ([], None)
    else
      var labels := Labels(SortDescending(CollectValues(FileValues(files))));
      (labels, Some(labels))
  }

  lemma MapMembers<A, B>(xs: seq<A>, f: A -> B, ys: seq<B>, y: B)
    requires |ys| == |xs| && forall i :: 0 <= i < |xs| ==> ys[i] == f(xs[i])
    ensures y in ys <==> exists x :: x in xs && f(x) == y
  {
    if y in ys {
      var i :| 0 <= i < |ys| && ys[i] == y;
      assert xs[i] in xs;
    }
    if exists x :: x in xs && f(x) == y {
      var x :| x in xs && f(x) == y;
      var i :| 0 <= i < |xs| && xs[i] == x;
      assert ys[i] == y;
    }
  }

  lemma FileValuesMembers(files: seq<string>, v: string)
    ensures Some(v) in FileValues(files) <==> exists f :: f in files && FileValue(f) == Some(v)
  {
    MapMembers(files, FileValue, FileValues(files), Some(v));
  }

  lemma SortedMembers(s: seq<string>, v: string)
    requires AllValues(s)
    ensures v in SortDescending(s) <==> v in s
  {
    assert v in SortDescending(s) <==> v in multiset(SortDescending(s));
    assert v in s <==> v in multiset(s);
  }

  /** The computed list: one label per distinct value, ordered by
      descending key, the values being exactly those some file of the
      listing yields. */
  lemma RifeModelsContents(dirExists: bool, files: seq<string>)
    requires dirExists
    ensures var labels := RifeModels(None, dirExists, files).0;
      var values := SortDescending(CollectValues(FileValues(files)));
      |labels| == |values| && Descending(values)
      && (forall i, j :: 0 <= i < j < |values| ==> values[i] != values[j])
      && (forall v :: v in values <==> exists f :: f in files && FileValue(f) == Some(v))
      && forall i :: 0 <= i < |labels| ==> ValueToLabel(values[i]) == Ok(labels[i])
  {
    var ms := FileValues(files);
    var c := CollectValues(ms);
    var values := SortDescending(c);
    forall v ensures v in values <==> exists f :: f in files && FileValue(f) == Some(v) {
      SortedMembers(c, v);
      CollectValuesMembers(ms, v);
      FileValuesMembers(files, v);
    }
    DistinctPermutation(c, values);
  }

  /** A permutation of a list without repeats has no repeats. */
  lemma DistinctPermutation(a: seq<string>, b: seq<string>)
    requires multiset(a) == multiset(b)
    requires forall i, j :: 0 <= i < j < |a| ==> a[i] != a[j]
    ensures forall i, j :: 0 <= i < j < |b| ==> b[i] != b[j]
  {
    forall i, j | 0 <= i < j < |b| ensures b[i] != b[j] {
      if b[i] == b[j] {
        assert multiset(b)[b[i]] >= 2 by {
          assert b == b[..i] + [b[i]] + b[i + 1..j] + [b[j]] + b[j + 1..];
        }
        DistinctCount(a, b[i]);
        assert false;
      }
    }
  }

  lemma {:induction false} DistinctCount(a: seq<string>, x: string)
    requires forall i, j :: 0 <= i < j < |a| ==> a[i] != a[j]
    ensures multiset(a)[x] <= 1
    decreases |a|
  {
    if a != [] {
      assert a == [a[0]] + a[1..];
      DistinctCount(a[1..], x);
      if a[0] == x {
        assert x !in a[1..];
      }
    }
  }
}
