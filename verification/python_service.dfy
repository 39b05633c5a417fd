/** PythonService: where the back end lives, whether Python and the models
    are installed, how a zip archive is unpacked, the python312._pth file,
    and the list of upscaling model files. */
module PythonService {
  import opened Common
  import Paths

  // ---------------------------------------------------------------------------
  // Directory layout

  /** What the layout depends on: whether the application was installed by
      its update manager, the user's application-data folder, and the
      process environment that resolves relative paths. */
  datatype Host = Host(installed: bool, appData: string, env: Paths.Env)

  function BackendDirectory(h: Host): string {
    if h.installed then Paths.Join(h.appData, "VideoJaNai") else h.env.fullPath(".\\backend")
  }

  function PythonDirectory(h: Host): string { Paths.Join(BackendDirectory(h), "python") }
  function FfmpegDirectory(h: Host): string { Paths.Join(BackendDirectory(h), "ffmpeg") }
  function AnimeJaNaiDirectory(h: Host): string { Paths.Join(BackendDirectory(h), "animejanai") }
  function ModelsDirectory(h: Host): string { Paths.Join(AnimeJaNaiDirectory(h), "onnx") }

  function PythonPath(h: Host): string { h.env.fullPath(Paths.Join(PythonDirectory(h), "python.exe")) }
  function FfmpegPath(h: Host): string { h.env.fullPath(Paths.Join(FfmpegDirectory(h), "ffmpeg.exe")) }
  function VspipePath(h: Host): string { h.env.fullPath(Paths.Join(PythonDirectory(h), "VSPipe.exe")) }
  function VsrepoPath(h: Host): string { h.env.fullPath(Paths.Join(PythonDirectory(h), "vsrepo.py")) }

  /** The separator Path.Join puts between a directory and a plain name. */
  function JoinSep(a: string): string {
    if a == "" || Paths.IsSep(a[|a| - 1]) then "" else "\\"
  }

  predicate PlainName(x: string) {
    x != "" && forall i :: 0 <= i < |x| ==> !Paths.IsSep(x[i])
  }

  lemma JoinConcat(a: string, x: string)
    requires PlainName(x)
    ensures Paths.Join(a, x) == a + JoinSep(a) + x
  {
  }

  lemma JoinShape(a: string, x: string)
    requires PlainName(x)
    ensures Paths.Join(a, x) == a + JoinSep(a) + x
    ensures Paths.FileName(Paths.Join(a, x)) == x
  {
    var d := a + JoinSep(a);
    JoinConcat(a, x);
    if d == "" {
      assert Paths.Join(a, x) == x;
      assert Paths.LastSep(x) == -1;
    } else {
      assert Paths.IsSep(d[|d| - 1]);
      assert Paths.Join(a, x) == d + x;
      Paths.SuffixFileName(d, x);
    }
  }

  /** python, ffmpeg and animejanai sit directly inside the back-end
      directory under those names, and the models in animejanai's onnx
      folder. */
  lemma Layout(h: Host)
    ensures Paths.FileName(PythonDirectory(h)) == "python"
    ensures Paths.FileName(FfmpegDirectory(h)) == "ffmpeg"
    ensures Paths.FileName(AnimeJaNaiDirectory(h)) == "animejanai"
    ensures Paths.FileName(ModelsDirectory(h)) == "onnx"
    ensures StartsWith(ModelsDirectory(h), AnimeJaNaiDirectory(h))
  {
    var b := BackendDirectory(h);
    JoinShape(b, "python");
    JoinShape(b, "ffmpeg");
    JoinShape(b, "animejanai");
    JoinShape(AnimeJaNaiDirectory(h), "onnx");
  }

  /** The models directory is not inside the Python or the ffmpeg directory,
      so deleting either keeps the models. */
  lemma ModelsOutsidePython(h: Host)
    ensures !StartsWith(ModelsDirectory(h), PythonDirectory(h))
    ensures !StartsWith(ModelsDirectory(h), FfmpegDirectory(h))
  {
    var b := BackendDirectory(h);
    var d := b + JoinSep(b);
    var aj := AnimeJaNaiDirectory(h);
    JoinConcat(b, "python");
    JoinConcat(b, "ffmpeg");
    JoinConcat(b, "animejanai");
    JoinConcat(aj, "onnx");
    var m := ModelsDirectory(h);
    assert m[|d|] == aj[|d|] == 'a';
    assert PythonDirectory(h)[|d|] == 'p';
    assert FfmpegDirectory(h)[|d|] == 'f';
  }

  // ---------------------------------------------------------------------------
  // Install checks

  /** IsPythonInstalled: python.exe exists. */
  predicate IsPythonInstalled(fs: Paths.FileSystem, h: Host) {
    fs.FileExists(PythonPath(h))
  }

  /** AreModelsInstalled: the models directory exists and holds a file. */
  function AreModelsInstalled(fs: Paths.FileSystem, h: Host): (r: bool)
    ensures r <==> (fs.DirExists(ModelsDirectory(h))
                    && exists f :: f in fs.files && Paths.DirectoryName(f) == ModelsDirectory(h))
  {
    var inside := fs.FilesIn(ModelsDirectory(h));
    assert (exists f :: f in fs.files && Paths.DirectoryName(f) == ModelsDirectory(h)) <==> inside != {};
    fs.DirExists(ModelsDirectory(h)) && |inside| > 0
  }

  // ---------------------------------------------------------------------------
  // ExtractZip

  datatype ZipEntry = ZipEntry(name: string, isFile: bool)

  /** What unpacking does, in order: directories created, files written,
      progress reported. */
  datatype ZipEvent = CreateDirectory(dir: string) | WriteFile(path: string) | ReportProgress(percent: int)

  /** Math.Round(x, 0) of the exact quotient a / n: to the nearest
      integer, a tie going to the even neighbour. */
  function RoundHalfEven(a: nat, n: nat): (r: nat)
    requires n > 0
    ensures a / n <= r <= a / n + 1
  {
    var q := a / n;
    var rem := a % n;
    if 2 * rem > n || (2 * rem == n && q % 2 == 1) then q + 1 else q
  }

  lemma MulMono(n: nat, x: int, y: int)
    requires x <= y
    ensures n * x <= n * y
  {
    assert n * y - n * x == n * (y - x);
  }

  lemma MulCancel(n: nat, x: int, y: int)
    requires n * x < n * y
    ensures x < y
  {
    if y <= x {
      MulMono(n, y, x);
    }
  }

  lemma DivMonotone(a: nat, b: nat, n: nat)
    requires n > 0 && a <= b
    ensures a / n <= b / n
  {
    var qa := a / n;
    var qb := b / n;
    assert n * qa <= a;
    assert b < n * qb + n == n * (qb + 1);
    MulCancel(n, qa, qb + 1);
  }

  /** Rounding keeps the order of its arguments. */
  lemma RoundMonotone(a: nat, b: nat, n: nat)
    requires n > 0 && a <= b
    ensures RoundHalfEven(a, n) <= RoundHalfEven(b, n)
  {
    DivMonotone(a, b, n);
    if a / n == b / n {
      assert a % n <= b % n;
    }
  }

  /** The percentage reported after entry i of n. */
  function Percent(i: nat, n: nat): (r: nat)
    requires i < n
    ensures r <= 100
  {
    PercentAtMost100(i, n);
    RoundHalfEven(100 * i, n)
  }

  lemma PercentAtMost100(i: nat, n: nat)
    requires i < n
    ensures RoundHalfEven(100 * i, n) <= 100
  {
    var q := 100 * i / n;
    assert n * q <= 100 * i;
    MulMono(100, i, n - 1);
    assert 100 * i < n * 100;
    MulCancel(n, q, 100);
  }

  /** The events for one file entry: its directory (if any) is created, the
      file written, and the entry's percentage reported. */
  function EntryEvents(outFolder: string, e: ZipEntry, i: nat, n: nat): seq<ZipEvent>
    requires i < n
  {
    if !e.isFile then []
    else
      var full := Paths.Combine(outFolder, e.name);
      var dir := Paths.DirectoryName(full);
      (if |dir| > 0 then [CreateDirectory(dir)] else []) + [WriteFile(full), ReportProgress(Percent(i, n))]
  }

  /** The entries from position i on. */
  function EventsFrom(outFolder: string, entries: seq<ZipEntry>, i: nat): seq<ZipEvent>
    requires i <= |entries|
    decreases |entries| - i
  {
    if i == |entries| then []
    else EntryEvents(outFolder, entries[i], i, |entries|) + EventsFrom(outFolder, entries, i + 1)
  }

  function ExtractZip(outFolder: string, entries: seq<ZipEntry>): seq<ZipEvent> {
    EventsFrom(outFolder, entries, 0)
  }

  /** The paths written, in order. */
  function Written(ev: seq<ZipEvent>): seq<string>
    decreases |ev|
  {
    if ev == [] then [] else (if ev[0].WriteFile? then [ev[0].path] else []) + Written(ev[1..])
  }

  /** The percentages reported, in order. */
  function Percents(ev: seq<ZipEvent>): seq<int>
    decreases |ev|
  {
    if ev == [] then [] else (if ev[0].ReportProgress? then [ev[0].percent] else []) + Percents(ev[1..])
  }

  lemma {:induction false} WrittenAppend(a: seq<ZipEvent>, b: seq<ZipEvent>)
    ensures Written(a + b) == Written(a) + Written(b)
    decreases |a|
  {
    if a == [] {
      assert a + b == b;
    } else {
      assert (a + b)[0] == a[0];
      assert (a + b)[1..] == a[1..] + b;
      WrittenAppend(a[1..], b);
    }
  }

  lemma {:induction false} PercentsAppend(a: seq<ZipEvent>, b: seq<ZipEvent>)
    ensures Percents(a + b) == Percents(a) + Percents(b)
    decreases |a|
  {
    if a == [] {
      assert a + b == b;
    } else {
      assert (a + b)[0] == a[0];
      assert (a + b)[1..] == a[1..] + b;
      PercentsAppend(a[1..], b);
    }
  }

  /** The target of every file entry from position i on, skipping the
      directory entries. */
  function FileTargets(outFolder: string, entries: seq<ZipEntry>): seq<string>
    decreases |entries|
  {
    if entries == [] then []
    else
      (if entries[0].isFile then [Paths.Combine(outFolder, entries[0].name)] else [])
      + FileTargets(outFolder, entries[1..])
  }

  lemma EntryShape(outFolder: string, e: ZipEntry, i: nat, n: nat)
    requires i < n
    ensures Written(EntryEvents(outFolder, e, i, n)) == (if e.isFile then [Paths.Combine(outFolder, e.name)] else [])
    ensures Percents(EntryEvents(outFolder, e, i, n)) == (if e.isFile then [Percent(i, n)] else [])
  {
    if e.isFile {
      var full := Paths.Combine(outFolder, e.name);
      var dir := Paths.DirectoryName(full);
      var tail := [WriteFile(full), ReportProgress(Percent(i, n))];
      assert tail[1..][1..] == [];
      WrittenAppend(if |dir| > 0 then [CreateDirectory(dir)] else [], tail);
      PercentsAppend(if |dir| > 0 then [CreateDirectory(dir)] else [], tail);
    }
  }

  /** Every file entry is written, in archive order, to the output folder
      combined with its name; directory entries are skipped. */
  lemma {:induction false} WritesEveryFile(outFolder: string, entries: seq<ZipEntry>, i: nat)
    requires i <= |entries|
    ensures Written(EventsFrom(outFolder, entries, i)) == FileTargets(outFolder, entries[i..])
    decreases |entries| - i
  {
    if i < |entries| {
      WritesEveryFile(outFolder, entries, i + 1);
      EntryShape(outFolder, entries[i], i, |entries|);
      WrittenAppend(EntryEvents(outFolder, entries[i], i, |entries|), EventsFrom(outFolder, entries, i + 1));
      assert entries[i..][1..] == entries[i + 1..];
    }
  }

  predicate NonDecreasing(s: seq<int>) {
    forall k :: 0 <= k < |s| - 1 ==> s[k] <= s[k + 1]
  }

  /** From entry i on, the percentages never go down, start no lower than
      entry i's, and stay at most 100. */
  lemma {:induction false} PercentsFrom(outFolder: string, entries: seq<ZipEntry>, i: nat)
    requires i < |entries|
    ensures var ps := Percents(EventsFrom(outFolder, entries, i));
      NonDecreasing(ps)
      && (forall k :: 0 <= k < |ps| ==> Percent(i, |entries|) <= ps[k] <= 100)
    decreases |entries| - i
  {
    var n := |entries|;
    var head := Percents(EntryEvents(outFolder, entries[i], i, n));
    var rest := Percents(EventsFrom(outFolder, entries, i + 1));
    EntryShape(outFolder, entries[i], i, n);
    PercentsAppend(EntryEvents(outFolder, entries[i], i, n), EventsFrom(outFolder, entries, i + 1));
    var ps := head + rest;
    if i + 1 < n {
      PercentsFrom(outFolder, entries, i + 1);
      RoundMonotone(100 * i, 100 * (i + 1), n);
      assert Percent(i, n) <= Percent(i + 1, n);
    } else {
      assert rest == [];
    }
    forall k | 0 <= k < |ps| - 1 ensures ps[k] <= ps[k + 1] {
      if k + 1 < |head| {
      } else if k >= |head| {
        assert ps[k] == rest[k - |head|] && ps[k + 1] == rest[k + 1 - |head|];
      } else {
        assert ps[k] == Percent(i, n);
        assert ps[k + 1] == rest[0];
      }
    }
  }

  /** ExtractZip reports progress from the entry index, so the reported
      percentages never decrease and never exceed 100. */
  lemma ProgressNeverDecreases(outFolder: string, entries: seq<ZipEntry>)
    ensures NonDecreasing(Percents(ExtractZip(outFolder, entries)))
    ensures forall k :: 0 <= k < |Percents(ExtractZip(outFolder, entries))| ==> 0 <= Percents(ExtractZip(outFolder, entries))[k] <= 100
  {
    if entries != [] {
      PercentsFrom(outFolder, entries, 0);
    }
  }

  /** A file is written right after its directory is created. */
  lemma DirectoryBeforeFile(outFolder: string, e: ZipEntry, i: nat, n: nat)
    requires i < n && e.isFile
    requires |Paths.DirectoryName(Paths.Combine(outFolder, e.name))| > 0
    ensures var ev := EntryEvents(outFolder, e, i, n);
      ev[0] == CreateDirectory(Paths.DirectoryName(Paths.Combine(outFolder, e.name)))
      && ev[1] == WriteFile(Paths.Combine(outFolder, e.name))
  {
  }

  // ---------------------------------------------------------------------------
  // AddPythonPth

  const PthFileName: string := "python312._pth"
  const PthLines: seq<string> := ["python312.zip", "DLLs", "Lib", ".", "Lib/site-packages"]

  /** StreamWriter.WriteLine: each line followed by the Windows newline. */
  function Unlines(ls: seq<string>): string
    decreases |ls|
  {
    if ls == [] then "" else ls[0] + "\r\n" + Unlines(ls[1..])
  }

  /** Index of the first occurrence of c, or -1. */
  function IndexOf(s: string, c: char): (r: int)
    ensures -1 <= r < |s|
    ensures r >= 0 ==> s[r] == c && forall k :: 0 <= k < r ==> s[k] != c
    ensures r < 0 ==> c !in s
    decreases |s|
  {
    if s == [] then -1
    else if s[0] == c then 0
    else
      var k := IndexOf(s[1..], c);
      if k < 0 then -1 else k + 1
  }

  /** Reading a text back line by line, a line ending at "\n" with an
      optional "\r" before it. */
  function ReadLines(t: string): seq<string>
    decreases |t|
  {
    if t == [] then []
    else
      var k := IndexOf(t, '\n');
      if k < 0 then [t]
      else
        var line := t[..k];
        [if line != [] && line[|line| - 1] == '\r' then line[..|line| - 1] else line] + ReadLines(t[k + 1..])
  }

  predicate NoBreaks(ls: seq<string>) {
    forall i :: 0 <= i < |ls| ==> '\r' !in ls[i] && '\n' !in ls[i]
  }

  /** Written lines read back as the same lines. */
  lemma {:induction false} ReadLinesUnlines(ls: seq<string>)
    requires NoBreaks(ls)
    ensures ReadLines(Unlines(ls)) == ls
    decreases |ls|
  {
    if ls != [] {
      var t := Unlines(ls);
      var l := ls[0];
      var rest := Unlines(ls[1..]);
      assert t == (l + "\r") + ("\n" + rest);
      assert IndexOf(t, '\n') == |l| + 1 by {
        assert t[|l| + 1] == '\n';
        forall k | 0 <= k < |l| + 1 ensures t[k] != '\n' {
          if k < |l| {
            assert t[k] == l[k];
          }
        }
      }
      assert t[..|l| + 1] == l + "\r";
      assert t[|l| + 2..] == rest;
      assert NoBreaks(ls[1..]) by {
        forall i | 0 <= i < |ls[1..]| ensures '\r' !in ls[1..][i] && '\n' !in ls[1..][i] {
          assert ls[1..][i] == ls[i + 1];
        }
      }
      ReadLinesUnlines(ls[1..]);
    }
  }

  /** AddPythonPth: the file written and its text. */
  function AddPythonPth(destFolder: string): (string, string) {
    (Paths.Combine(destFolder, PthFileName), Unlines(PthLines))
  }

  /** The ._pth file reads back as exactly its five lines, in order. */
  lemma PthReadsBack(destFolder: string)
    ensures ReadLines(AddPythonPth(destFolder).1) == PthLines
    ensures |ReadLines(AddPythonPth(destFolder).1)| == 5
  {
    assert NoBreaks(PthLines) by {
      forall i | 0 <= i < |PthLines| ensures '\r' !in PthLines[i] && '\n' !in PthLines[i] {
      }
    }
    ReadLinesUnlines(PthLines);
  }

  // ---------------------------------------------------------------------------
  // AllModels

  const ModelExtensions: seq<string> := [".pth", ".pt", ".ckpt", ".safetensors"]

  /** A model file: its extension equals a listed one, ignoring case. */
  predicate ModelFile(f: string) {
    exists i :: 0 <= i < |ModelExtensions| && EqualsIgnoreCase(Paths.Extension(f), ModelExtensions[i])
  }

  lemma ModelExtensionsArePlain()
    ensures forall i :: 0 <= i < |ModelExtensions| ==>
      Paths.PlainExtension(ModelExtensions[i]) && ToLower(ModelExtensions[i]) == ModelExtensions[i]
  {
  }

  /** Equivalently, the lower-cased path ends with a listed extension. */
  lemma ModelFileBySuffix(f: string)
    ensures ModelFile(f) <==> exists i :: 0 <= i < |ModelExtensions| && EndsWith(ToLower(f), ModelExtensions[i])
  {
    ModelExtensionsArePlain();
    forall i | 0 <= i < |ModelExtensions|
      ensures EndsWith(ToLower(f), ModelExtensions[i]) <==> EqualsIgnoreCase(Paths.Extension(f), ModelExtensions[i])
    {
      Paths.SuffixTestMatchesExtensionTest(f, ModelExtensions[i]);
    }
  }

  /** Ordinal order on strings: character codes, a prefix first. */
  predicate Before(a: string, b: string)
    decreases |a|
  {
    a == [] || (b != [] && (a[0] < b[0] || (a[0] == b[0] && Before(a[1..], b[1..]))))
  }

  lemma {:induction false} BeforeTotal(a: string, b: string)
    ensures Before(a, b) || Before(b, a)
    decreases |a|
  {
    if a != [] && b != [] && a[0] == b[0] {
      BeforeTotal(a[1..], b[1..]);
    }
  }

  predicate Sorted(s: seq<string>) {
    forall k :: 0 <= k < |s| - 1 ==> Before(s[k], s[k + 1])
  }

  function Insert(x: string, s: seq<string>): (r: seq<string>)
    requires Sorted(s)
    ensures Sorted(r)
    ensures multiset(r) == multiset(s) + multiset{x}
    ensures r[0] == x || (s != [] && r[0] == s[0])
    decreases |s|
  {
    if s == [] then [x]
    else if Before(x, s[0]) then [x] + s
    else
      BeforeTotal(x, s[0]);
      var rest := Insert(x, s[1..]);
      assert s == [s[0]] + s[1..];
      [s[0]] + rest
  }

  /** Order(): the same names, sorted. */
  function Sort(s: seq<string>): (r: seq<string>)
    ensures Sorted(r)
    ensures multiset(r) == multiset(s)
    decreases |s|
  {
    if s == [] then []
    else
      assert s == [s[0]] + s[1..];
      Insert(s[0], Sort(s[1..]))
  }

  /** The file names of the model files of a listing, in listing order. */
  function ModelNames(listing: seq<string>): (r: seq<string>)
    ensures forall f :: f in listing && ModelFile(f) ==> Paths.FileName(f) in r
    ensures forall x :: x in r ==> exists f :: f in listing && ModelFile(f) && Paths.FileName(f) == x
    decreases |listing|
  {
    if listing == [] then []
    else
      var rest := ModelNames(listing[1..]);
      var head := if ModelFile(listing[0]) then [Paths.FileName(listing[0])] else [];
      assert forall f :: f in listing ==> f == listing[0] || f in listing[1..];
      assert forall f :: f in listing[1..] ==> f in listing;
      head + rest
  }

  /** AllModels with its cache: the cached list when there is one; else the
      sorted names of the model files, which become the cache; a missing
      directory gives an empty list and leaves the cache empty. */
  function AllModels(cache: Option<seq<string>>, listing: Option<seq<string>>): (r: (seq<string>, Option<seq<string>>))
    ensures cache.Some? ==> r == (cache.value, cache)
    ensures cache.None? && listing.None? ==> r == ([], None)
    ensures cache.None? && listing.Some? ==>
      r.1 == Some(r.0) && Sorted(r.0) && multiset(r.0) == multiset(ModelNames(listing.value))
  {
    match cache
    case Some(models) => (models, cache)
    case None =>
      match listing
      case None => ([], None)
      case Some(files) =>
        var models := Sort(ModelNames(files));
        (models, Some(models))
  }

  /** Once a list was read, later calls return it even when the directory
      has changed since. */
  lemma AllModelsIsSticky(listing: seq<string>, later: Option<seq<string>>)
    ensures var first := AllModels(None, Some(listing));
      AllModels(first.1, later) == first
  {
  }

  /** A name is listed exactly when some model file of the directory has it. */
  lemma AllModelsNames(listing: seq<string>, x: string)
    ensures x in AllModels(None, Some(listing)).0 <==>
      exists f :: f in listing && ModelFile(f) && Paths.FileName(f) == x
  {
    var r := AllModels(None, Some(listing)).0;
    assert x in r <==> x in multiset(r);
    assert x in ModelNames(listing) ==> exists f :: f in listing && ModelFile(f) && Paths.FileName(f) == x;
    assert x in ModelNames(listing) <==> x in multiset(ModelNames(listing));
  }
}
