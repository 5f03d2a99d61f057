/**
 KSCrashMonitor_AppState when it is switched off and on within a process: every time it comes on counts as one
 more launch, and what the process noted of a crash before is forgotten.
 */
module Switching {
  import opened Basics
  import opened AppState

  /** An event for the monitor, or a call of `setEnabled`. */
  datatype Move = Do(event: Event) | SetEnabled(on: bool)

  datatype Globals = Globals(world: World, enabled: bool)

  function StepMove(g: Globals, m: Move): Globals {
    match m
    case Do(e) => if g.enabled then g.(world := Step(g.world, e)) else g
    case SetEnabled(on) => Globals(if on && !g.enabled then Reset(g.world.state) else g.world, on)
  }

  function RunMoves(g: Globals, ms: seq<Move>): Globals {
    if ms == [] then g else StepMove(RunMoves(g, ms[..|ms| - 1]), ms[|ms| - 1])
  }

  /** One process: it is loaded at `now`, reads the file, and ends after some moves in any way. */
  datatype Process = Process(now: real, moves: seq<Move>)

  function Loaded(file: Option<File>, now: real): Globals {
    Globals(World(Restore(Fresh(now), file), file), false)
  }

  function After(file: Option<File>, p: Process): Globals {
    RunMoves(Loaded(file, p.now), p.moves)
  }

  /** Whether the monitor is on after some moves of a process, which begins with it off. */
  predicate IsOn(ms: seq<Move>) {
    ms != [] &&
    match ms[|ms| - 1]
    case SetEnabled(on) => on
    case Do(_) => IsOn(ms[..|ms| - 1])
  }

  /** The monitor comes on. */
  predicate Enables(ms: seq<Move>, i: nat)
    requires i < |ms|
  {
    ms[i] == SetEnabled(true) && !IsOn(ms[..i])
  }

  /** A crash is noted. */
  predicate Notes(ms: seq<Move>, i: nat)
    requires i < |ms|
  {
    ms[i].Do? && ms[i].event.Crash? && IsOn(ms[..i])
  }

  function Enablings(ms: seq<Move>): nat {
    if ms == [] then 0 else Enablings(ms[..|ms| - 1]) + if Enables(ms, |ms| - 1) then 1 else 0
  }

  /** A crash was noted, and the monitor has not come on since. */
  ghost predicate KeepsCrash(ms: seq<Move>) {
    exists i | 0 <= i < |ms| :: Notes(ms, i) && forall j | i < j < |ms| :: !Enables(ms, j)
  }

  /** The moves up to a place are what counts there. */
  lemma SameBefore(ms: seq<Move>, i: nat)
    requires i < |ms| - 1
    ensures Enables(ms[..|ms| - 1], i) == Enables(ms, i) && Notes(ms[..|ms| - 1], i) == Notes(ms, i)
  {
    assert ms[..|ms| - 1][..i] == ms[..i];
  }

  lemma KeepsCrashStep(ms: seq<Move>)
    requires ms != []
    ensures var n := |ms| - 1;
      KeepsCrash(ms) == (Notes(ms, n) || (!Enables(ms, n) && KeepsCrash(ms[..n])))
  {
    hide Enables, Notes;
    var n := |ms| - 1;
    forall i | 0 <= i < n ensures Enables(ms[..n], i) == Enables(ms, i) && Notes(ms[..n], i) == Notes(ms, i) {
      SameBefore(ms, i);
    }
    if KeepsCrash(ms) && !Notes(ms, n) {
      var i :| 0 <= i < |ms| && Notes(ms, i) && forall j | i < j < |ms| :: !Enables(ms, j);
      assert Notes(ms[..n], i);
    }
    if !Enables(ms, n) && KeepsCrash(ms[..n]) {
      var i :| 0 <= i < n && Notes(ms[..n], i) && forall j | i < j < n :: !Enables(ms[..n], j);
      assert Notes(ms, i);
    }
  }

  function Crashed(file: Option<File>): bool {
    file.Some? && file.value.crashedLastLaunch
  }

  /** The launches since the last crash as the file has them. */
  function Launches(file: Option<File>): int {
    if file.Some? then file.value.launches else 0
  }

  /** What the globals say after some moves of a process that found a file. */
  ghost predicate Follows(g: Globals, file: Option<File>, now: real, ms: seq<Move>) {
    var s, n := g.world.state, Enablings(ms);
    && g.enabled == IsOn(ms)
    && s.crashedLastLaunch == Crashed(file)
    && s.crashedThisLaunch == KeepsCrash(ms)
    && s.launchesSinceLastCrash == (if n > 0 && Crashed(file) then 1 else Launches(file) + n)
    && (n == 0 ==> g.world == Loaded(file, now).world)
    && (n > 0 ==> Agrees(g.world))
  }

  lemma OffUntilEnabled(ms: seq<Move>)
    requires Enablings(ms) == 0
    ensures !IsOn(ms)
    decreases |ms|
  {
    if ms != [] {
      OffUntilEnabled(ms[..|ms| - 1]);
    }
  }

  /** Switching on starts a launch. */
  lemma ResetFacts(s: State)
    ensures var w := Reset(s);
      && Agrees(w) && !w.state.crashedThisLaunch && w.state.crashedLastLaunch == s.crashedLastLaunch
      && w.state.launchesSinceLastCrash == if s.crashedLastLaunch then 1 else s.launchesSinceLastCrash + 1
  {
  }

  lemma FollowsStep(g: Globals, file: Option<File>, now: real, ms: seq<Move>)
    requires ms != [] && Follows(g, file, now, ms[..|ms| - 1])
    ensures Follows(StepMove(g, ms[|ms| - 1]), file, now, ms)
  {
    var n := |ms| - 1;
    KeepsCrashStep(ms);
    if Enablings(ms[..n]) == 0 { OffUntilEnabled(ms[..n]); }
    hide KeepsCrash, Agrees, Reset, Step, Loaded;
    match ms[n] {
      case Do(e) =>
        if g.enabled {
          AgreesStep(g.world, e);
          OlderPartStep(g.world, e);
        }
      case SetEnabled(on) => ResetFacts(g.world.state);
    }
  }

  /** All through a process, whatever is switched when. */
  lemma {:induction false} WithinProcess(file: Option<File>, now: real, ms: seq<Move>)
    ensures Follows(RunMoves(Loaded(file, now), ms), file, now, ms)
    decreases |ms|
  {
    if ms != [] {
      hide Follows, StepMove;
      WithinProcess(file, now, ms[..|ms| - 1]);
      FollowsStep(RunMoves(Loaded(file, now), ms[..|ms| - 1]), file, now, ms);
    }
  }

  /** What a process leaves in the file: nothing new where the monitor never came on. */
  lemma FileLeft(file: Option<File>, p: Process)
    ensures var f, n := After(file, p).world.file, Enablings(p.moves);
      if n == 0 then f == file
      else f.Some? && f.value.crashedLastLaunch == KeepsCrash(p.moves)
           && f.value.launches == if Crashed(file) then 1 else Launches(file) + n
  {
    WithinProcess(file, p.now, p.moves);
    hide RunMoves, Enablings, KeepsCrash, IsOn;
  }

  /** Whatever a process did, switching off and on again is one more launch, and no crash of it is left in the file. */
  lemma OffAndOnForgets(file: Option<File>, now: real, ms: seq<Move>)
    ensures var f := After(file, Process(now, ms + [SetEnabled(false), SetEnabled(true)])).world.file;
      && f.Some? && !f.value.crashedLastLaunch
      && f.value.launches == if Crashed(file) then 1 else Launches(file) + Enablings(ms) + 1
  {
    var off, on := ms + [SetEnabled(false)], ms + [SetEnabled(false), SetEnabled(true)];
    assert off[..|off| - 1] == ms && on[..|on| - 1] == off && on[..|off|] == off;
    assert Enablings(off) == Enablings(ms) && Enables(on, |off|) && !Notes(on, |off|);
    KeepsCrashStep(on);
    FileLeft(file, Process(now, on));
    hide After, KeepsCrash;
  }

  function AsMoves(es: seq<Event>): seq<Move> {
    [SetEnabled(true)] + seq(|es|, i requires 0 <= i < |es| => Do(es[i]))
  }

  /** A launch of AppState is a process in which the monitor comes on at once and stays on. */
  lemma {:induction false} LaunchIsProcess(file: Option<File>, l: Launch)
    ensures After(file, Process(l.now, AsMoves(l.events))) == Globals(End(file, l), true)
    decreases |l.events|
  {
    var ms, n := AsMoves(l.events), |l.events|;
    if n == 0 {
      assert ms == [SetEnabled(true)] && ms[..0] == [];
      assert RunMoves(Loaded(file, l.now), ms) == StepMove(Loaded(file, l.now), SetEnabled(true));
    } else {
      LaunchIsProcess(file, Launch(l.now, l.events[..n - 1]));
      assert ms[..|ms| - 1] == AsMoves(l.events[..n - 1]);
      hide Step, Begin, Loaded;
    }
  }

  // --------------------------------------------------------------------------------------- histories of processes

  function FileAfterAll(history: seq<Process>): Option<File> {
    if history == [] then None
    else After(FileAfterAll(history[..|history| - 1]), history[|history| - 1]).world.file
  }

  /** How often the monitor came on in the processes after the `j`th ... */
  function Total(history: seq<Process>, j: int): nat {
    var n := |history| - 1;
    if n <= j || n < 0 then 0 else Total(history[..n], j) + Enablings(history[n].moves)
  }

  /** ... and in how many of them it came on at all. */
  function Used(history: seq<Process>, j: int): nat {
    var n := |history| - 1;
    if n <= j || n < 0 then 0 else Used(history[..n], j) + if Enablings(history[n].moves) > 0 then 1 else 0
  }

  lemma {:induction false} TotalExactly(history: seq<Process>, j: int)
    requires -1 <= j
    ensures Total(history, j) >= Used(history, j)
    ensures Total(history, j) == Used(history, j) <==> forall i | j < i < |history| :: Enablings(history[i].moves) <= 1
    decreases |history|
  {
    hide Enablings;
    var n := |history| - 1;
    if j < n {
      TotalExactly(history[..n], j);
      assert forall i | j < i < n :: history[..n][i] == history[i];
    }
  }

  /** The file tells of a crash exactly if the last process that switched the monitor on kept one. */
  lemma {:induction false} CrashedExactly(history: seq<Process>, k: nat)
    requires k < |history| && Enablings(history[k].moves) > 0
    requires forall i | k < i < |history| :: Enablings(history[i].moves) == 0
    ensures FileAfterAll(history).Some? && (Crashed(FileAfterAll(history)) <==> KeepsCrash(history[k].moves))
    decreases |history|
  {
    hide After, Enablings, KeepsCrash;
    var n := |history| - 1;
    FileLeft(FileAfterAll(history[..n]), history[n]);
    if k < n {
      CrashedExactly(history[..n], k);
    }
  }

  /** While no process keeps a crash, the file tells of none. */
  lemma {:induction false} NotCrashed(history: seq<Process>, m: nat)
    requires m == 0 || (m < |history| && Enablings(history[m].moves) > 0)
    requires forall i | m <= i < |history| :: !KeepsCrash(history[i].moves)
    ensures !Crashed(FileAfterAll(history))
    decreases |history|
  {
    hide After, Enablings, KeepsCrash;
    if history != [] {
      var n := |history| - 1;
      FileLeft(FileAfterAll(history[..n]), history[n]);
      if m < n || m == 0 {
        NotCrashed(history[..n], m);
      }
    }
  }

  /** Before any process keeps a crash, the launches in the file are the times the monitor came on. */
  lemma {:induction false} CountsEnablings(history: seq<Process>)
    requires forall i | 0 <= i < |history| - 1 :: !KeepsCrash(history[i].moves)
    ensures Launches(FileAfterAll(history)) == Total(history, -1)
    decreases |history|
  {
    hide After, Enablings, KeepsCrash;
    if history != [] {
      var n := |history| - 1;
      CountsEnablings(history[..n]);
      NotCrashed(history[..n], 0);
      FileLeft(FileAfterAll(history[..n]), history[n]);
    }
  }

  /**
   After the `j`th process kept a crash, the next one that switches the monitor on, the `m`th, counts once, however
   often it does; from then on every time counts.
   */
  lemma {:induction false} CountsFromCrash(history: seq<Process>, j: nat, m: nat)
    requires j < m < |history| && KeepsCrash(history[j].moves) && Enablings(history[m].moves) > 0
    requires forall i | j < i < m :: Enablings(history[i].moves) == 0
    requires forall i | m <= i < |history| - 1 :: !KeepsCrash(history[i].moves)
    ensures Launches(FileAfterAll(history)) == 1 + Total(history, m)
    decreases |history|
  {
    KeptIsEnabled(history[j].moves);
    hide After, Enablings, KeepsCrash;
    var n := |history| - 1;
    FileLeft(FileAfterAll(history[..n]), history[n]);
    if m == n {
      CrashedExactly(history[..n], j);
    } else {
      CountsFromCrash(history[..n], j, m);
      NotCrashed(history[..n], m);
    }
  }

  lemma KeptIsEnabled(ms: seq<Move>)
    requires KeepsCrash(ms)
    ensures Enablings(ms) > 0
    decreases |ms|
  {
    var n := |ms| - 1;
    KeepsCrashStep(ms);
    hide KeepsCrash;
    if Enablings(ms[..n]) == 0 { OffUntilEnabled(ms[..n]); }
    if !Notes(ms, n) { KeptIsEnabled(ms[..n]); }
  }

  /** So the count is that of the processes since the crash exactly if none after the first of them switches on twice. */
  lemma CountsProcessesExactly(history: seq<Process>, j: nat, m: nat)
    requires j < m < |history| && KeepsCrash(history[j].moves) && Enablings(history[m].moves) > 0
    requires forall i | j < i < m :: Enablings(history[i].moves) == 0
    requires forall i | m <= i < |history| - 1 :: !KeepsCrash(history[i].moves)
    ensures Launches(FileAfterAll(history)) == 1 + Used(history, m)
       <==> forall i | m < i < |history| :: Enablings(history[i].moves) <= 1
  {
    hide Enablings, KeepsCrash, FileAfterAll, Total, Used;
    CountsFromCrash(history, j, m);
    TotalExactly(history, m);
  }

  /** And while no crash was kept, exactly if no process does. */
  lemma CountsAllProcessesExactly(history: seq<Process>)
    requires forall i | 0 <= i < |history| - 1 :: !KeepsCrash(history[i].moves)
    ensures Launches(FileAfterAll(history)) == Used(history, -1)
       <==> forall i | 0 <= i < |history| :: Enablings(history[i].moves) <= 1
  {
    hide Enablings, KeepsCrash, FileAfterAll, Total, Used;
    CountsEnablings(history);
    TotalExactly(history, -1);
  }
}
