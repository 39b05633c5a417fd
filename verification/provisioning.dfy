/** Back-end provisioning: CheckAndExtractBackend, ReinstallBackend,
    CleanupInstall, and the update panel's UpdateStatus. Downloads, archive
    extraction and installer processes are not run here: each is an action
    whose failure is given by a predicate, and a run is the trace of the
    actions it started, in order. */
module Provisioning {
  import opened Common
  import Paths

  // ---------------------------------------------------------------------------
  // Actions and their fixed order

  datatype Action =
    | QueryVsmlrtVersion
    | DeletePythonDirectory
    | InstallPortableVapourSynth
    | InstallPythonDependencies
    | InstallVapourSynthPlugins
    | InstallMiscFilters
    | InstallAkarin
    | InstallVsmlrt
    | InstallRife
    | CleanupInstall
    | InstallModels
    | InstallFfmpeg

  /** Position of an action in the order the provisioning code is written. */
  function Rank(a: Action): nat {
    match a
    case QueryVsmlrtVersion => 0
    case DeletePythonDirectory => 1
    case InstallPortableVapourSynth => 2
    case InstallPythonDependencies => 3
    case InstallVapourSynthPlugins => 4
    case InstallMiscFilters => 5
    case InstallAkarin => 6
    case InstallVsmlrt => 7
    case InstallRife => 8
    case CleanupInstall => 9
    case InstallModels => 10
    case InstallFfmpeg => 11
  }

  /** An exception from these actions is swallowed: a version that cannot
      be read, or a Python directory that cannot be deleted, is ignored. */
  predicate Swallowed(a: Action) { a == QueryVsmlrtVersion || a == DeletePythonDirectory }

  /** Each action of the trace comes strictly after the one before it. */
  predicate Ordered(t: seq<Action>) {
    forall i :: 0 <= i < |t| - 1 ==> Rank(t[i]) < Rank(t[i + 1])
  }

  lemma {:induction false} OrderedIsStrict(t: seq<Action>, i: int, j: int)
    requires Ordered(t)
    requires 0 <= i < j < |t|
    ensures Rank(t[i]) < Rank(t[j])
    decreases j - i
  {
    if j > i + 1 {
      OrderedIsStrict(t, i, j - 1);
    }
  }

  /** So no action is started twice in one run. */
  lemma OrderedHasNoRepeats(t: seq<Action>, i: int, j: int)
    requires Ordered(t)
    requires 0 <= i < j < |t|
    ensures t[i] != t[j]
  {
    OrderedIsStrict(t, i, j);
  }

  lemma OrderedAppend(a: seq<Action>, b: seq<Action>)
    requires Ordered(a) && Ordered(b)
    requires a != [] && b != [] ==> Rank(a[|a| - 1]) < Rank(b[0])
    ensures Ordered(a + b)
  {
    var ab := a + b;
    forall i | 0 <= i < |ab| - 1
      ensures Rank(ab[i]) < Rank(ab[i + 1])
    {
      if i + 1 < |a| {
        assert ab[i] == a[i] && ab[i + 1] == a[i + 1];
      } else if i >= |a| {
        assert ab[i] == b[i - |a|] && ab[i + 1] == b[i + 1 - |a|];
      }
    }
  }

  /** The first-run install, steps 1 to 5 and the cleanup, in order. */
  const PythonInstallSteps: seq<Action> := seq(8, i requires 0 <= i < 8 => OfRank(i + 2))

  /** The action at a given position of the order. */
  function OfRank(k: nat): (a: Action)
    requires k < 12
    ensures Rank(a) == k
  {
    match k
    case 0 => QueryVsmlrtVersion
    case 1 => DeletePythonDirectory
    case 2 => InstallPortableVapourSynth
    case 3 => InstallPythonDependencies
    case 4 => InstallVapourSynthPlugins
    case 5 => InstallMiscFilters
    case 6 => InstallAkarin
    case 7 => InstallVsmlrt
    case 8 => InstallRife
    case 9 => CleanupInstall
    case 10 => InstallModels
    case _ => InstallFfmpeg
  }

  lemma PythonInstallStepsOrdered()
    ensures Ordered(PythonInstallSteps)
    ensures forall i :: 0 <= i < |PythonInstallSteps| ==> Rank(PythonInstallSteps[i]) == i + 2
  {
  }

  // ---------------------------------------------------------------------------
  // Running a block of actions inside one try

  /** The actions of one try block that were started: all of them, or up
      to and including the first that throws. */
  datatype Progress = Progress(done: seq<Action>, failed: bool)

  function RunBlock(steps: seq<Action>, fails: Action -> bool): (r: Progress)
    ensures |r.done| <= |steps|
    decreases |steps|
  {
    if steps == [] then Progress([], false)
    else if fails(steps[0]) then Progress([steps[0]], true)
    else
      var rest := RunBlock(steps[1..], fails);
      Progress([steps[0]] + rest.done, rest.failed)
  }

  /** A block starts a prefix of its actions, all of them when none throws. */
  lemma {:induction false} RunBlockPrefix(steps: seq<Action>, fails: Action -> bool)
    ensures RunBlock(steps, fails).done == steps[..|RunBlock(steps, fails).done|]
    ensures !RunBlock(steps, fails).failed ==> RunBlock(steps, fails).done == steps
    decreases |steps|
  {
    if steps != [] && !fails(steps[0]) {
      RunBlockPrefix(steps[1..], fails);
    }
  }

  /** A block fails exactly when one of its actions throws. */
  lemma {:induction false} RunBlockThrows(steps: seq<Action>, fails: Action -> bool)
    ensures RunBlock(steps, fails).failed <==> exists i :: 0 <= i < |steps| && fails(steps[i])
    decreases |steps|
  {
    if steps != [] && !fails(steps[0]) {
      RunBlockThrows(steps[1..], fails);
      if exists i :: 0 <= i < |steps| && fails(steps[i]) {
        var i :| 0 <= i < |steps| && fails(steps[i]);
        assert fails(steps[1..][i - 1]);
      }
    }
  }

  /** The action a failed block threw at is the last one it started; none
      before it threw. */
  predicate StopsAtFirstThrow(b: Progress, fails: Action -> bool) {
    (b.failed ==> |b.done| > 0 && fails(b.done[|b.done| - 1]))
    && forall i :: 0 <= i < |b.done| - 1 ==> !fails(b.done[i])
  }

  lemma {:induction false} RunBlockStops(steps: seq<Action>, fails: Action -> bool)
    ensures StopsAtFirstThrow(RunBlock(steps, fails), fails)
    decreases |steps|
  {
    if steps != [] && !fails(steps[0]) {
      RunBlockStops(steps[1..], fails);
      var rest := RunBlock(steps[1..], fails);
      var r := RunBlock(steps, fails);
      assert r.done == [steps[0]] + rest.done;
      forall i | 0 <= i < |r.done| - 1 ensures !fails(r.done[i]) {
        if i > 0 {
          assert r.done[i] == rest.done[i - 1];
        }
      }
    }
  }

  lemma OrderedPrefix(t: seq<Action>, n: nat)
    requires Ordered(t) && n <= |t|
    ensures Ordered(t[..n])
  {
  }

  // ---------------------------------------------------------------------------
  // CheckAndExtractBackend

  /** What the install predicates report when a run starts. IsFfmpegInstalled
      is not part of this model and is taken as given. */
  datatype Probe = Probe(python: bool, models: bool, ffmpeg: bool)

  /** The installed vs-mlrt version compared with the minimum; Unreadable
      when the version query throws or its output does not parse. */
  datatype VersionProbe = Older | NotOlder | Unreadable

  /** The world a run meets: whether this is the application's first run,
      the version the query would report, and which actions would throw. */
  datatype Setup = Setup(firstRun: bool, version: VersionProbe, fails: Action -> bool)

  /** What a run leaves behind: the actions started, IsExtractingBackend,
      ExtractingBackendFailed, and the main status when the failure text
      was set. */
  datatype Report = Report(trace: seq<Action>, extracting: bool, failed: bool, mainStatus: Option<string>)

  const FailureMessage: string :=
    "Backend setup failed. Try reinstalling Python environment or report the issue on GitHub if it persists."

  /** The actions that may throw out of their try block, in order. */
  function Guarded(p: Probe): (r: seq<Action>)
    ensures InstallModels in r <==> !p.models
    ensures InstallFfmpeg in r <==> !p.ffmpeg
  {
    (if p.models then [] else [InstallModels]) + (if p.ffmpeg then [] else [InstallFfmpeg])
  }

  /** A failure sets the flag and the failure text and returns with
      IsExtractingBackend still set; the flag is never cleared here. */
  function Finish(prefix: seq<Action>, block: Progress, failedBefore: bool): Report {
    Report(prefix + block.done, block.failed, failedBefore || block.failed,
           if block.failed then Some(FailureMessage) else None)
  }

  /** The models and ffmpeg stages, each behind its own guard. */
  function Tail(prefix: seq<Action>, p: Probe, s: Setup, failedBefore: bool): Report {
    Finish(prefix, RunBlock(Guarded(p), s.fails), failedBefore)
  }

  /** CheckAndExtractBackend. When Python is present on the first run and
      vs-mlrt is older than the minimum, the Python directory is deleted
      and provisioning starts over; the second pass finds Python missing. */
  function CheckAndExtract(p: Probe, s: Setup, failedBefore: bool): (r: Report)
    ensures r.failed <==> failedBefore || r.extracting
    ensures r.mainStatus == Some(FailureMessage) <==> r.extracting
    ensures r.mainStatus.None? <==> !r.extracting
    decreases if p.python then 1 else 0
  {
    if !p.python then
      var install := RunBlock(PythonInstallSteps, s.fails);
      if install.failed then Finish([], install, failedBefore)
      else Tail(install.done, p, s, failedBefore)
    else if s.firstRun then
      if s.version == Older && !s.fails(DeletePythonDirectory) then
        var again := CheckAndExtract(p.(python := false), s, failedBefore);
        again.(trace := [QueryVsmlrtVersion, DeletePythonDirectory] + again.trace)
      else if s.version == Older then
        Tail([QueryVsmlrtVersion, DeletePythonDirectory], p, s, failedBefore)
      else
        Tail([QueryVsmlrtVersion], p, s, failedBefore)
    else
      Tail([], p, s, failedBefore)
  }

  /** Whether the run installs Python: python.exe is missing, or it is
      deleted because vs-mlrt is too old. */
  predicate Reinstalls(p: Probe, s: Setup) {
    !p.python || (s.firstRun && s.version == Older && !s.fails(DeletePythonDirectory))
  }

  predicate InstallThrows(s: Setup) {
    exists i :: 0 <= i < |PythonInstallSteps| && s.fails(PythonInstallSteps[i])
  }

  predicate GuardedThrows(p: Probe, s: Setup) {
    exists i :: 0 <= i < |Guarded(p)| && s.fails(Guarded(p)[i])
  }

  /** Whether some action the run reaches would throw out of its block. */
  predicate Fails(p: Probe, s: Setup) {
    (Reinstalls(p, s) && InstallThrows(s)) || GuardedThrows(p, s)
  }

  /** What the first-run install block leaves: it always starts the portable
      VapourSynth install, keeps the order, and completes when nothing throws. */
  lemma InstallBlockFacts(fails: Action -> bool)
    ensures var b := RunBlock(PythonInstallSteps, fails);
      |b.done| > 0 && b.done[0] == InstallPortableVapourSynth
      && Ordered(b.done)
      && (forall i :: 0 <= i < |b.done| ==> 2 <= Rank(b.done[i]) <= 9)
      && (!b.failed ==> b.done == PythonInstallSteps)
  {
    var b := RunBlock(PythonInstallSteps, fails);
    RunBlockPrefix(PythonInstallSteps, fails);
    PythonInstallStepsOrdered();
    OrderedPrefix(PythonInstallSteps, |b.done|);
    assert b.done[0] == PythonInstallSteps[0];
    forall i | 0 <= i < |b.done| ensures 2 <= Rank(b.done[i]) <= 9 {
      assert b.done[i] == PythonInstallSteps[i];
    }
  }

  /** What the guarded models and ffmpeg block leaves. */
  lemma GuardedBlockFacts(p: Probe, fails: Action -> bool)
    ensures var b := RunBlock(Guarded(p), fails);
      Ordered(b.done)
      && (forall i :: 0 <= i < |b.done| ==> Rank(b.done[i]) >= 10)
      && (forall a :: a in b.done ==> a in Guarded(p))
  {
    var b := RunBlock(Guarded(p), fails);
    var g := Guarded(p);
    RunBlockPrefix(g, fails);
    GuardedShape(p);
    OrderedPrefix(g, |b.done|);
    forall i | 0 <= i < |b.done| ensures Rank(b.done[i]) >= 10 {
      assert b.done[i] == g[i];
    }
    forall a | a in b.done ensures a in g {
      var i :| 0 <= i < |b.done| && b.done[i] == a;
      assert g[i] == a;
    }
  }

  lemma GuardedShape(p: Probe)
    ensures Ordered(Guarded(p))
    ensures forall i :: 0 <= i < |Guarded(p)| ==> Rank(Guarded(p)[i]) >= 10
  {
    if !p.models && !p.ffmpeg {
      assert Guarded(p) == [InstallModels, InstallFfmpeg];
    }
  }

  /** A run that finds python.exe missing: the install block, then the
      guarded block unless the install threw. */
  lemma FreshRun(p: Probe, s: Setup, failedBefore: bool)
    requires !p.python
    ensures var install := RunBlock(PythonInstallSteps, s.fails);
      CheckAndExtract(p, s, failedBefore)
        == if install.failed then Finish([], install, failedBefore)
           else Finish(install.done, RunBlock(Guarded(p), s.fails), failedBefore)
  {
  }

  /** A run that finds python.exe present: what precedes the guarded block. */
  function Preamble(s: Setup): seq<Action> {
    if !s.firstRun then []
    else if s.version == Older then [QueryVsmlrtVersion, DeletePythonDirectory]
    else [QueryVsmlrtVersion]
  }

  lemma PreambleSwallowed(s: Setup)
    ensures forall i :: 0 <= i < |Preamble(s)| ==> Swallowed(Preamble(s)[i])
  {
  }

  lemma PresentRun(p: Probe, s: Setup, failedBefore: bool)
    requires p.python
    requires !(s.firstRun && s.version == Older && !s.fails(DeletePythonDirectory))
    ensures CheckAndExtract(p, s, failedBefore) == Finish(Preamble(s), RunBlock(Guarded(p), s.fails), failedBefore)
  {
  }

  /** A run that starts over: the query and the deletion, then a second run. */
  lemma StartOverRun(p: Probe, s: Setup, failedBefore: bool)
    requires p.python && s.firstRun && s.version == Older && !s.fails(DeletePythonDirectory)
    ensures CheckAndExtract(p, s, failedBefore).trace
      == [QueryVsmlrtVersion, DeletePythonDirectory] + CheckAndExtract(p.(python := false), s, failedBefore).trace
    ensures CheckAndExtract(p, s, failedBefore).extracting == CheckAndExtract(p.(python := false), s, failedBefore).extracting
  {
  }

  /** The actions of a run come in the order the code is written, so none is
      started twice, even across the start-over. */
  lemma RunIsOrdered(p: Probe, s: Setup, failedBefore: bool)
    ensures Ordered(CheckAndExtract(p, s, failedBefore).trace)
  {
    var q := p.(python := false);
    var install := RunBlock(PythonInstallSteps, s.fails);
    var g := RunBlock(Guarded(p), s.fails);
    InstallBlockFacts(s.fails);
    GuardedBlockFacts(p, s.fails);
    assert Guarded(q) == Guarded(p);
    FreshRun(q, s, failedBefore);
    var second := CheckAndExtract(q, s, failedBefore).trace;
    if !install.failed {
      OrderedAppend(install.done, g.done);
    }
    assert Ordered(second);
    if !p.python {
      assert CheckAndExtract(p, s, failedBefore) == CheckAndExtract(q, s, failedBefore);
    } else if s.firstRun && s.version == Older && !s.fails(DeletePythonDirectory) {
      StartOverRun(p, s, failedBefore);
      assert second[0] == InstallPortableVapourSynth;
      OrderedAppend([QueryVsmlrtVersion, DeletePythonDirectory], second);
    } else {
      PresentRun(p, s, failedBefore);
      OrderedAppend(Preamble(s), g.done);
    }
  }

  /** Every action but the last either succeeded or had its exception
      swallowed. */
  predicate OnlyLastThrows(t: seq<Action>, fails: Action -> bool) {
    forall i :: 0 <= i < |t| - 1 ==> !fails(t[i]) || Swallowed(t[i])
  }

  lemma OnlyLastThrowsAppend(a: seq<Action>, b: seq<Action>, fails: Action -> bool)
    requires forall i :: 0 <= i < |a| ==> !fails(a[i]) || Swallowed(a[i])
    requires OnlyLastThrows(b, fails)
    ensures OnlyLastThrows(a + b, fails)
  {
    var ab := a + b;
    forall i | 0 <= i < |ab| - 1 ensures !fails(ab[i]) || Swallowed(ab[i]) {
      if i >= |a| {
        assert ab[i] == b[i - |a|];
      } else {
        assert ab[i] == a[i];
      }
    }
  }

  /** A block run after actions that did not throw (or whose throw was
      swallowed) stops the run at its own first throw. */
  lemma FinishStops(prefix: seq<Action>, b: Progress, fails: Action -> bool, failedBefore: bool)
    requires forall i :: 0 <= i < |prefix| ==> !fails(prefix[i]) || Swallowed(prefix[i])
    requires StopsAtFirstThrow(b, fails)
    requires b.failed ==> !Swallowed(b.done[|b.done| - 1])
    ensures StopsAtThrow(Finish(prefix, b, failedBefore), fails)
  {
    var t := prefix + b.done;
    assert OnlyLastThrows(b.done, fails);
    OnlyLastThrowsAppend(prefix, b.done, fails);
    if b.failed {
      assert t[|t| - 1] == b.done[|b.done| - 1];
    }
  }

  /** A block none of whose actions is swallowed stops at a real throw. */
  lemma BlockStops(steps: seq<Action>, fails: Action -> bool)
    requires forall i :: 0 <= i < |steps| ==> !Swallowed(steps[i])
    ensures StopsAtFirstThrow(RunBlock(steps, fails), fails)
    ensures RunBlock(steps, fails).failed ==> !Swallowed(RunBlock(steps, fails).done[|RunBlock(steps, fails).done| - 1])
  {
    var b := RunBlock(steps, fails);
    RunBlockStops(steps, fails);
    RunBlockPrefix(steps, fails);
    if b.failed {
      assert b.done[|b.done| - 1] == steps[|b.done| - 1];
    }
  }

  lemma BlocksNotSwallowed(p: Probe)
    ensures forall i :: 0 <= i < |PythonInstallSteps| ==> !Swallowed(PythonInstallSteps[i])
    ensures forall i :: 0 <= i < |Guarded(p)| ==> !Swallowed(Guarded(p)[i])
  {
    PythonInstallStepsOrdered();
  }

  lemma FreshRunStops(p: Probe, s: Setup, failedBefore: bool)
    requires !p.python
    ensures StopsAtThrow(CheckAndExtract(p, s, failedBefore), s.fails)
  {
    var install := RunBlock(PythonInstallSteps, s.fails);
    FreshRun(p, s, failedBefore);
    BlocksNotSwallowed(p);
    if install.failed {
      BlockStops(PythonInstallSteps, s.fails);
      FinishStops([], install, s.fails, failedBefore);
    } else {
      RunBlockPrefix(PythonInstallSteps, s.fails);
      RunBlockThrows(PythonInstallSteps, s.fails);
      BlockStops(Guarded(p), s.fails);
      FinishStops(PythonInstallSteps, RunBlock(Guarded(p), s.fails), s.fails, failedBefore);
    }
  }

  /** A run is left extracting exactly when an action it reaches throws. */
  lemma FailsExactly(p: Probe, s: Setup, failedBefore: bool)
    ensures CheckAndExtract(p, s, failedBefore).extracting <==> Fails(p, s)
  {
    var q := p.(python := false);
    assert Guarded(q) == Guarded(p);
    var install := RunBlock(PythonInstallSteps, s.fails);
    var g := RunBlock(Guarded(p), s.fails);
    RunBlockThrows(PythonInstallSteps, s.fails);
    RunBlockThrows(Guarded(p), s.fails);
    FreshRun(q, s, failedBefore);
    if !p.python {
      assert CheckAndExtract(p, s, failedBefore) == CheckAndExtract(q, s, failedBefore);
    } else if Reinstalls(p, s) {
      StartOverRun(p, s, failedBefore);
    } else {
      PresentRun(p, s, failedBefore);
    }
  }

  /** What it means for a run to stop at its first throw. */
  predicate StopsAtThrow(r: Report, fails: Action -> bool) {
    (r.extracting ==> |r.trace| > 0 && fails(r.trace[|r.trace| - 1]) && !Swallowed(r.trace[|r.trace| - 1]))
    && OnlyLastThrows(r.trace, fails)
  }

  lemma StartOverStops(p: Probe, s: Setup, failedBefore: bool)
    requires p.python && Reinstalls(p, s)
    ensures StopsAtThrow(CheckAndExtract(p, s, failedBefore), s.fails)
  {
    var q := p.(python := false);
    assert Guarded(q) == Guarded(p);
    FreshRunStops(q, s, failedBefore);
    StartOverRun(p, s, failedBefore);
    var second := CheckAndExtract(q, s, failedBefore).trace;
    var pre := [QueryVsmlrtVersion, DeletePythonDirectory];
    OnlyLastThrowsAppend(pre, second, s.fails);
    if second != [] {
      assert (pre + second)[|pre + second| - 1] == second[|second| - 1];
    }
  }

  lemma PresentRunStops(p: Probe, s: Setup, failedBefore: bool)
    requires p.python && !Reinstalls(p, s)
    ensures StopsAtThrow(CheckAndExtract(p, s, failedBefore), s.fails)
  {
    PresentRun(p, s, failedBefore);
    PreambleSwallowed(s);
    BlocksNotSwallowed(p);
    BlockStops(Guarded(p), s.fails);
    FinishStops(Preamble(s), RunBlock(Guarded(p), s.fails), s.fails, failedBefore);
  }

  /** The failing action is the last one started, and every action before
      it either succeeded or had its exception swallowed. */
  lemma FailureStopsTheRun(p: Probe, s: Setup, failedBefore: bool)
    ensures StopsAtThrow(CheckAndExtract(p, s, failedBefore), s.fails)
  {
    if !p.python {
      FreshRunStops(p, s, failedBefore);
    } else if Reinstalls(p, s) {
      StartOverStops(p, s, failedBefore);
    } else {
      PresentRunStops(p, s, failedBefore);
    }
  }

  /** The install steps run only when python.exe is missing (or was just
      deleted), the models step only when the models are missing, the ffmpeg
      step only when ffmpeg is missing; a run that does not fail leaves
      none of the three missing. */
  lemma StepsAreGuarded(p: Probe, s: Setup, failedBefore: bool)
    ensures var r := CheckAndExtract(p, s, failedBefore);
      (InstallPortableVapourSynth in r.trace ==> Reinstalls(p, s))
      && (InstallModels in r.trace ==> !p.models)
      && (InstallFfmpeg in r.trace ==> !p.ffmpeg)
      && (!r.extracting ==>
            (!p.models ==> InstallModels in r.trace) && (!p.ffmpeg ==> InstallFfmpeg in r.trace))
  {
    var q := p.(python := false);
    if !p.python {
      FreshRunGuards(p, s, failedBefore);
    } else if Reinstalls(p, s) {
      assert Guarded(q) == Guarded(p);
      FreshRunGuards(q, s, failedBefore);
      StartOverRun(p, s, failedBefore);
    } else {
      PresentRunGuards(p, s, failedBefore);
    }
  }

  lemma PresentRunGuards(p: Probe, s: Setup, failedBefore: bool)
    requires p.python && !Reinstalls(p, s)
    ensures var r := CheckAndExtract(p, s, failedBefore);
      InstallPortableVapourSynth !in r.trace
      && (InstallModels in r.trace ==> !p.models)
      && (InstallFfmpeg in r.trace ==> !p.ffmpeg)
      && (!r.extracting ==> r.trace == Preamble(s) + Guarded(p))
  {
    PresentRun(p, s, failedBefore);
    var g := RunBlock(Guarded(p), s.fails);
    GuardedBlockFacts(p, s.fails);
    RunBlockPrefix(Guarded(p), s.fails);
    assert InstallPortableVapourSynth !in g.done;
    assert Finish(Preamble(s), g, failedBefore).trace == Preamble(s) + g.done;
  }

  lemma FreshRunGuards(p: Probe, s: Setup, failedBefore: bool)
    requires !p.python
    ensures var r := CheckAndExtract(p, s, failedBefore);
      (InstallModels in r.trace ==> !p.models)
      && (InstallFfmpeg in r.trace ==> !p.ffmpeg)
      && (!r.extracting ==> r.trace == PythonInstallSteps + Guarded(p))
  {
    var install := RunBlock(PythonInstallSteps, s.fails);
    var g := RunBlock(Guarded(p), s.fails);
    InstallBlockFacts(s.fails);
    GuardedBlockFacts(p, s.fails);
    FreshRun(p, s, failedBefore);
    assert InstallModels !in install.done && InstallFfmpeg !in install.done by {
      forall i | 0 <= i < |install.done| ensures install.done[i] != InstallModels && install.done[i] != InstallFfmpeg {
        assert Rank(install.done[i]) <= 9;
      }
    }
  }

  /** The start-over happens at most once: the second pass never queries
      the version again. */
  lemma StartsOverAtMostOnce(p: Probe, s: Setup, failedBefore: bool)
    requires p.python && s.firstRun && s.version == Older && !s.fails(DeletePythonDirectory)
    ensures CheckAndExtract(p, s, failedBefore).trace[..2] == [QueryVsmlrtVersion, DeletePythonDirectory]
    ensures QueryVsmlrtVersion !in CheckAndExtract(p, s, failedBefore).trace[2..]
  {
    var q := p.(python := false);
    var second := CheckAndExtract(q, s, failedBefore).trace;
    StartOverRun(p, s, failedBefore);
    RunIsOrdered(q, s, failedBefore);
    FreshRun(q, s, failedBefore);
    InstallBlockFacts(s.fails);
    var r := CheckAndExtract(p, s, failedBefore);
    assert r.trace[2..] == second;
    assert second[0] == InstallPortableVapourSynth;
    if QueryVsmlrtVersion in second {
      var i :| 0 <= i < |second| && second[i] == QueryVsmlrtVersion;
      if i > 0 {
        OrderedIsStrict(second, 0, i);
      }
    }
  }

  // ---------------------------------------------------------------------------
  // ReinstallBackend

  /** Which of the two directories exist before a reinstall. */
  datatype Dirs = Dirs(ffmpeg: bool, python: bool)

  /** A deletion that throws escapes ReinstallBackend. */
  datatype ReinstallError = DeleteFailed(dir: string)

  /** ReinstallBackend: the ffmpeg and then the Python directory are deleted
      when present, then provisioning runs. ffmpeg is taken to be missing once
      its directory is gone, as python.exe is once the Python directory is. */
  function Reinstall(d: Dirs, p: Probe, s: Setup, failedBefore: bool, deleteFails: string -> bool): (r: Result<Report, ReinstallError>)
    ensures r.Err? <==> (d.ffmpeg && deleteFails("ffmpeg")) || (d.python && deleteFails("python"))
    ensures r.Err? && d.ffmpeg && deleteFails("ffmpeg") ==> r.error == DeleteFailed("ffmpeg")
    ensures r.Ok? ==> r.value == CheckAndExtract(p.(python := false, ffmpeg := false), s, failedBefore)
  {
    if d.ffmpeg && deleteFails("ffmpeg") then Err(DeleteFailed("ffmpeg"))
    else if d.python && deleteFails("python") then Err(DeleteFailed("python"))
    else Ok(CheckAndExtract(p.(python := false, ffmpeg := false), s, failedBefore))
  }

  /** A reinstall that gets past the deletions starts with the full Python
      install and, when nothing throws, ends by installing ffmpeg. */
  lemma ReinstallRunsEverything(d: Dirs, p: Probe, s: Setup, failedBefore: bool, deleteFails: string -> bool)
    requires Reinstall(d, p, s, failedBefore, deleteFails).Ok?
    ensures var r := Reinstall(d, p, s, failedBefore, deleteFails).value;
      |r.trace| > 0 && r.trace[0] == InstallPortableVapourSynth
      && (!r.extracting ==> |r.trace| > 8 && r.trace[..8] == PythonInstallSteps && r.trace[|r.trace| - 1] == InstallFfmpeg)
  {
    var q := p.(python := false, ffmpeg := false);
    var install := RunBlock(PythonInstallSteps, s.fails);
    var g := RunBlock(Guarded(q), s.fails);
    InstallBlockFacts(s.fails);
    RunBlockPrefix(Guarded(q), s.fails);
    FreshRun(q, s, failedBefore);
    var r := CheckAndExtract(q, s, failedBefore);
    if !r.extracting {
      assert !install.failed && !g.failed;
      assert g.done == Guarded(q);
      assert r.trace == PythonInstallSteps + g.done;
    }
  }

  // ---------------------------------------------------------------------------
  // CleanupInstall

  /** The installer's leftovers under the back-end directory. */
  const CleanupDirs: seq<string> := ["doc", "vs-temp-dl", "Scripts", "sdk", "wheel"]

  /** The leftover directories deleted: those that exist. */
  function CleanupTopDirs(backendDir: string, fs: Paths.FileSystem): (r: seq<string>)
    ensures forall n :: n in CleanupDirs && fs.DirExists(Paths.Combine(backendDir, n)) ==> Paths.Combine(backendDir, n) in r
    ensures forall x :: x in r ==> fs.DirExists(x) && exists n :: n in CleanupDirs && x == Paths.Combine(backendDir, n)
  {
    var all := seq(|CleanupDirs|, i requires 0 <= i < |CleanupDirs| => Paths.Combine(backendDir, CleanupDirs[i]));
    assert forall n :: n in CleanupDirs ==> Paths.Combine(backendDir, n) in all by {
      forall n | n in CleanupDirs ensures Paths.Combine(backendDir, n) in all {
        var i :| 0 <= i < |CleanupDirs| && CleanupDirs[i] == n;
        assert all[i] == Paths.Combine(backendDir, n);
      }
    }
    Filter(all, fs.DirExists)
  }

  predicate NotRife(dir: string) { Paths.FileName(dir) != "rife" }

  /** The vs-mlrt model directories deleted: every one but "rife". */
  function PrunedModelDirs(modelDirs: seq<string>): (r: seq<string>)
    ensures forall x :: x in r <==> x in modelDirs && Paths.FileName(x) != "rife"
  {
    Filter(modelDirs, NotRife)
  }

  /** After the pruning, the model directories left are exactly the ones
      named "rife". */
  lemma OnlyRifeRemains(modelDirs: seq<string>, x: string)
    ensures x in modelDirs && x !in PrunedModelDirs(modelDirs) <==> x in modelDirs && Paths.FileName(x) == "rife"
  {
  }

  /** All directories CleanupInstall deletes, in order. */
  function Cleanup(backendDir: string, fs: Paths.FileSystem, modelDirs: seq<string>): (r: seq<string>)
    ensures forall x :: x in modelDirs && NotRife(x) ==> x in r
  {
    CleanupTopDirs(backendDir, fs) + PrunedModelDirs(modelDirs)
  }

  // ---------------------------------------------------------------------------
  // UpdateStatus

  /** The update panel: its text and which of the three buttons show. */
  datatype UpdatePanel = UpdatePanel(text: string, showDownload: bool, showApply: bool, showCheckUpdate: bool)

  /** UpdateStatus, from the version of the update found (if any) and
      whether an update waits for a restart. */
  function UpdateStatus(update: Option<string>, pendingRestart: bool): (r: UpdatePanel)
    ensures r.showCheckUpdate <==> update.None?
    ensures r.showDownload <==> update.Some? && !pendingRestart
    ensures r.showApply <==> update.Some? && pendingRestart
    ensures update.None? ==> r.text == "No updates found"
    ensures update.Some? ==> EndsWith(r.text, update.value)
  {
    match update
    case None => UpdatePanel("No updates found", false, false, true)
    case Some(v) =>
      if pendingRestart then
        var t := "Update ready, pending restart to install version: " + v;
        assert t[|t| - |v|..] == v;
        UpdatePanel(t, false, true, false)
      else
        var t := "Update is available: " + v;
        assert t[|t| - |v|..] == v;
        UpdatePanel(t, true, false, false)
  }

  /** Exactly one of the three buttons shows, and without an update the
      pending-restart state is not consulted. */
  lemma ExactlyOneButton(update: Option<string>, pendingRestart: bool)
    ensures var r := UpdateStatus(update, pendingRestart);
      (if r.showDownload then 1 else 0) + (if r.showApply then 1 else 0) + (if r.showCheckUpdate then 1 else 0) == 1
    ensures update.None? ==> UpdateStatus(update, pendingRestart) == UpdateStatus(update, !pendingRestart)
  {
  }
}
