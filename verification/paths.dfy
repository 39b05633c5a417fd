/** Windows semantics of the System.IO.Path members the application calls,
    and the filesystem as seen by File.Exists / Directory.Exists. */
module Paths {
  import opened Common

  predicate IsSep(c: char) { c == '\\' || c == '/' }

  /** Index of the last directory separator, or -1. */
  function LastSep(p: string): (r: int)
    ensures -1 <= r < |p|
    ensures r >= 0 ==> IsSep(p[r])
    ensures forall i :: r < i < |p| ==> !IsSep(p[i])
    decreases |p|
  {
    if |p| == 0 then -1
    else if IsSep(p[|p| - 1]) then |p| - 1
    else LastSep(p[..|p| - 1])
  }

  /** Index of the last occurrence of `c`, or -1. */
  function LastIndexOf(s: string, c: char): (r: int)
    ensures -1 <= r < |s|
    ensures r >= 0 ==> s[r] == c
    ensures forall i :: r < i < |s| ==> s[i] != c
    decreases |s|
  {
    if |s| == 0 then -1
    else if s[|s| - 1] == c then |s| - 1
    else LastIndexOf(s[..|s| - 1], c)
  }

  /** Path.GetFileName. */
  function FileName(p: string): (r: string)
    ensures forall i :: 0 <= i < |r| ==> !IsSep(r[i])
    ensures EndsWith(p, r)
  {
    p[LastSep(p) + 1..]
  }

  /** A file name after a separator is what GetFileName returns. */
  lemma {:induction false} SuffixFileName(dir: string, name: string)
    requires |dir| > 0 && IsSep(dir[|dir| - 1])
    requires forall i :: 0 <= i < |name| ==> !IsSep(name[i])
    ensures FileName(dir + name) == name
    decreases |name|
  {
    var p := dir + name;
    if name == [] {
      assert p == dir;
    } else {
      assert p[..|p| - 1] == dir + name[..|name| - 1];
      SuffixFileName(dir, name[..|name| - 1]);
    }
    assert LastSep(p) == |dir| - 1;
    assert p[|dir|..] == name;
  }

  /** Path.GetFileNameWithoutExtension: the file name up to its last dot. */
  function FileNameWithoutExtension(p: string): string {
    var name := FileName(p);
    var d := LastIndexOf(name, '.');
    if d < 0 then name else name[..d]
  }

  /** Path.GetExtension: from the last dot of the file name, empty when the
      name has no dot or ends with it. */
  function Extension(p: string): string {
    var name := FileName(p);
    var d := LastIndexOf(name, '.');
    if d < 0 || d == |name| - 1 then "" else name[d..]
  }

  /** Path.GetDirectoryName (root special cases are not modelled). */
  function DirectoryName(p: string): string {
    var k := LastSep(p);
    if k < 0 then "" else p[..k]
  }

  predicate IsRooted(p: string) {
    (|p| >= 1 && IsSep(p[0])) || (|p| >= 2 && p[1] == ':')
  }

  /** Path.Join: concatenates, adding one backslash unless either side already has a separator. */
  function Join(a: string, b: string): (r: string)
    ensures a != "" && b != "" && !IsSep(a[|a| - 1]) && !IsSep(b[0]) ==> r == a + "\\" + b
  {
    if a == "" then b
    else if b == "" then a
    else if IsSep(a[|a| - 1]) || IsSep(b[0]) then a + b
    else a + "\\" + b
  }

  /** Path.Combine: like Join, except that a rooted second part replaces the first. */
  function Combine(a: string, b: string): (r: string)
    ensures IsRooted(b) ==> r == b
    ensures !IsRooted(b) ==> r == Join(a, b)
  {
    if IsRooted(b) then b else Join(a, b)
  }

  /** The process environment: Path.GetFullPath resolves against the current
      directory and normalises, so it is left uninterpreted. */
  datatype Env = Env(fullPath: string -> string)

  /** The filesystem at the moment of a call. */
  datatype FileSystem = FileSystem(files: set<string>, dirs: set<string>) {
    predicate FileExists(p: string) { p in files }
    predicate DirExists(p: string) { p in dirs }
    /** Directory.GetFiles(d): the files directly inside `d`. */
    function FilesIn(d: string): (r: set<string>)
      ensures forall f :: f in r <==> f in files && DirectoryName(f) == d
    {
      set f | f in files && DirectoryName(f) == d
    }
  }

  // ---------------------------------------------------------------------------
  // Extension tests

  lemma ToLowerKeepsSeparators(c: char)
    ensures IsSep(ToLowerChar(c)) <==> IsSep(c)
    ensures ToLowerChar(c) == '.' <==> c == '.'
  {
  }

  lemma ToLowerSuffix(p: string, k: nat)
    requires k <= |p|
    ensures ToLower(p)[|p| - k..] == ToLower(p[|p| - k..])
  {
  }

  /** An extension in the sense of the application's list: a dot followed by
      at least one character, none of them a dot or a separator. */
  predicate PlainExtension(e: string) {
    |e| >= 2 && e[0] == '.' && forall i :: 1 <= i < |e| ==> e[i] != '.' && !IsSep(e[i])
  }

  lemma LastDotAt(name: string, j: int)
    requires 0 <= j < |name| && name[j] == '.'
    requires forall i :: j < i < |name| ==> name[i] != '.'
    ensures LastIndexOf(name, '.') == j
  {
  }

  /** Lower-casing does not move dots or separators, so a path whose
      lower-cased tail spells a plain extension has a dot there and no dot
      or separator after it. */
  lemma TailShape(p: string, e: string)
    requires PlainExtension(e) && EndsWith(ToLower(p), e)
    ensures p[|p| - |e|] == '.'
    ensures forall i :: |p| - |e| < i < |p| ==> p[i] != '.' && !IsSep(p[i])
  {
    var b := |p| - |e|;
    var lp := ToLower(p);
    assert lp[b..] == e;
    assert lp[b] == e[0];
    ToLowerKeepsSeparators(p[b]);
    forall i | b < i < |p|
      ensures p[i] != '.' && !IsSep(p[i])
    {
      assert lp[i] == lp[b..][i - b] == e[i - b];
      ToLowerKeepsSeparators(p[i]);
    }
  }

  /** A dot followed only by ordinary characters starts the extension. */
  lemma ExtensionAt(p: string, b: int)
    requires 0 <= b < |p| - 1 && p[b] == '.'
    requires forall i :: b < i < |p| ==> p[i] != '.' && !IsSep(p[i])
    ensures Extension(p) == p[b..]
  {
    var s := LastSep(p);
    assert s < b;
    var name := FileName(p);
    assert name == p[s + 1..];
    var dn := b - (s + 1);
    assert name[dn] == '.';
    forall i | dn < i < |name|
      ensures name[i] != '.'
    {
      assert name[i] == p[s + 1 + i];
    }
    LastDotAt(name, dn);
    assert name[dn..] == p[b..];
  }

  lemma SuffixOfExtension(p: string)
    requires |Extension(p)| > 0
    ensures Extension(p) == p[|p| - |Extension(p)|..]
  {
    var name := FileName(p);
    var d := LastIndexOf(name, '.');
    assert Extension(p) == name[d..];
  }

  /** The two video filters agree: lower-casing the path and testing the
      suffix (the status count) accepts exactly the paths whose
      Path.GetExtension equals the extension ignoring case (the upscale run),
      for every lower-case plain extension. */
  lemma SuffixTestMatchesExtensionTest(p: string, e: string)
    requires PlainExtension(e) && ToLower(e) == e
    ensures EndsWith(ToLower(p), e) <==> EqualsIgnoreCase(Extension(p), e)
  {
    var k := |e|;
    if EndsWith(ToLower(p), e) {
      TailShape(p, e);
      ExtensionAt(p, |p| - k);
      ToLowerSuffix(p, k);
    }
    if EqualsIgnoreCase(Extension(p), e) {
      assert |ToLower(Extension(p))| == k;
      SuffixOfExtension(p);
      ToLowerSuffix(p, k);
    }
  }
}
