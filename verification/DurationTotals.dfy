/**
 KSCrashMonitor_AppState over histories of launches: the active and the background time since the last crash. The
 state file carries them from launch to launch, as far as they were saved.
 */
module DurationTotals {
  import opened Basics
  import opened AppState

  /** The time in a phase since launch, and since the last crash; inactive time is not counted. */
  function SinceLaunch(s: State, p: Phase): real {
    match p
    case IsActive => s.activeDurationSinceLaunch
    case IsBackground => s.backgroundDurationSinceLaunch
    case IsInactive => 0.0
  }

  function SinceCrash(s: State, p: Phase): real {
    match p
    case IsActive => s.activeDurationSinceLastCrash
    case IsBackground => s.backgroundDurationSinceLastCrash
    case IsInactive => 0.0
  }

  function InFile(f: File, p: Phase): real {
    match p
    case IsActive => f.activeDuration
    case IsBackground => f.backgroundDuration
    case IsInactive => 0.0
  }

  // -------------------------------------------------------------------------------------------- the state file

  /** The file tells of a state what it is to hand to the next launch. */
  ghost predicate TellsOf(file: Option<File>, s: State) {
    && file.Some?
    && file.value.crashedLastLaunch == s.crashedThisLaunch
    && file.value.launches == s.launchesSinceLastCrash
    && file.value.sessions == s.sessionsSinceLastCrash
    && forall p: Phase :: InFile(file.value, p) == SinceCrash(s, p)
  }

  lemma SaveTells(w: World, e: Event)
    ensures if Saves(e) then TellsOf(Step(w, e).file, Step(w, e).state) else Step(w, e).file == w.file
  {
  }

  lemma BeginTells(file: Option<File>, now: real)
    ensures TellsOf(Begin(file, now).file, Begin(file, now).state)
  {
  }

  /** How many events there are up to the last one that saves the state. */
  function SavedUpTo(es: seq<Event>): (n: nat)
    ensures n <= |es|
  {
    if es == [] then 0 else if Saves(es[|es| - 1]) then |es| else SavedUpTo(es[..|es| - 1])
  }

  /** Wherever a launch ends, its file tells of the state after its last save. */
  lemma {:induction false} FileIsOfLastSave(file: Option<File>, now: real, es: seq<Event>)
    ensures TellsOf(Run(Begin(file, now), es).file, Run(Begin(file, now), es[..SavedUpTo(es)]).state)
    decreases |es|
  {
    hide Step, Begin, TellsOf, Saves;
    if es == [] {
      BeginTells(file, now);
    } else {
      var n := |es| - 1;
      FileIsOfLastSave(file, now, es[..n]);
      SaveTells(Run(Begin(file, now), es[..n]), es[n]);
      if Saves(es[n]) {
        assert es[..|es|] == es;
      } else {
        assert es[..n][..SavedUpTo(es[..n])] == es[..SavedUpTo(es)];
      }
    }
  }

  // --------------------------------------------------------------------------------------------- one launch

  /** Two states that a launch counts alike. */
  ghost predicate Alike(s: State, t: State) {
    && s.activeDurationSinceLaunch == t.activeDurationSinceLaunch
    && s.backgroundDurationSinceLaunch == t.backgroundDurationSinceLaunch
    && s.applicationIsActive == t.applicationIsActive
    && s.applicationIsInForeground == t.applicationIsInForeground
    && s.appStateTransitionTime == t.appStateTransitionTime
  }

  lemma AlikeStep(v: World, w: World, e: Event)
    requires Alike(v.state, w.state)
    ensures Alike(Step(v, e).state, Step(w, e).state)
  {
  }

  /** What a launch counts since it began does not depend on the file it found. */
  lemma {:induction false} CountsAlike(file: Option<File>, other: Option<File>, now: real, es: seq<Event>)
    ensures Alike(Run(Begin(file, now), es).state, Run(Begin(other, now), es).state)
    decreases |es|
  {
    if es != [] {
      hide Step, Begin, Alike;
      CountsAlike(file, other, now, es[..|es| - 1]);
      AlikeStep(Run(Begin(file, now), es[..|es| - 1]), Run(Begin(other, now), es[..|es| - 1]), es[|es| - 1]);
    }
  }

  /** The time in a phase that a launch counts. */
  function Counted(l: Launch, p: Phase): real {
    SinceLaunch(End(None, l).state, p)
  }

  /** A launch up to its last save. */
  function SavedPart(l: Launch): Launch {
    Launch(l.now, l.events[..SavedUpTo(l.events)])
  }

  /** What a launch begins with: nothing after a crash or without a file. */
  function Inherited(file: Option<File>, p: Phase): real {
    if file.Some? && !file.value.crashedLastLaunch then InFile(file.value, p) else 0.0
  }

  lemma BeginsWith(file: Option<File>, now: real, p: Phase)
    ensures SinceCrash(Begin(file, now).state, p) == Inherited(file, p) && SinceLaunch(Begin(file, now).state, p) == 0.0
  {
  }

  lemma OlderPartOf(s: State, t: State, p: Phase)
    requires OlderPart(s) == OlderPart(t)
    ensures SinceCrash(s, p) - SinceLaunch(s, p) == SinceCrash(t, p) - SinceLaunch(t, p)
  {
  }

  /** A launch goes on from what it begins with. */
  lemma LaunchAdds(file: Option<File>, l: Launch, p: Phase)
    ensures SinceCrash(End(file, l).state, p) == Inherited(file, p) + Counted(l, p)
  {
    BeginsWith(file, l.now, p);
    OlderPartConstant(Begin(file, l.now), l.events);
    OlderPartOf(Begin(file, l.now).state, End(file, l).state, p);
    CountsAlike(file, None, l.now, l.events);
    hide Run, Begin, SinceCrash, Inherited, OlderPart;
  }

  /** What it leaves to the next one. */
  lemma LaunchLeaves(file: Option<File>, l: Launch, p: Phase)
    ensures var f := End(file, l).file;
      && f.Some? && f.value.crashedLastLaunch == NotesCrash(l)
      && InFile(f.value, p) == Inherited(file, p) + Counted(SavedPart(l), p)
  {
    FileLeft(file, l);
    FileIsOfLastSave(file, l.now, l.events);
    LaunchAdds(file, SavedPart(l), p);
    hide Run, Begin, SinceCrash, Inherited, NotesCrash, Counted;
  }

  // --------------------------------------------------------------------------------------------- histories

  /** What the launches after the `j`th counted ... */
  function CountedAfter(history: seq<Launch>, j: int, p: Phase): real {
    var n := |history| - 1;
    if n <= j || n < 0 then 0.0 else CountedAfter(history[..n], j, p) + Counted(history[n], p)
  }

  /** ... and what of it was never saved. */
  function UnsavedAfter(history: seq<Launch>, j: int, p: Phase): real {
    var n := |history| - 1;
    if n <= j || n < 0 then 0.0
    else UnsavedAfter(history[..n], j, p) + Counted(history[n], p) - Counted(SavedPart(history[n]), p)
  }

  /** The time in a phase since the last crash at the end of a history. */
  function Total(history: seq<Launch>, p: Phase): real
    requires history != []
  {
    SinceCrash(End(FileAfter(history[..|history| - 1]), history[|history| - 1]).state, p)
  }

  /** It goes on from that of the launch before, as far as that was saved, unless it noted a crash. */
  lemma TotalGoesOn(history: seq<Launch>, p: Phase)
    requires history != []
    ensures var n := |history| - 1;
      Total(history, p) == Counted(history[n], p)
        + if n > 0 && !NotesCrash(history[n - 1])
          then Total(history[..n], p) - Counted(history[n - 1], p) + Counted(SavedPart(history[n - 1]), p) else 0.0
  {
    var n := |history| - 1;
    var older := history[..n];
    LaunchAdds(FileAfter(older), history[n], p);
    if n > 0 {
      assert older[n - 1] == history[n - 1];
      LaunchLeaves(FileAfter(older[..n - 1]), older[n - 1], p);
      LaunchAdds(FileAfter(older[..n - 1]), older[n - 1], p);
    }
    hide End, NotesCrash, Counted, SinceCrash, InFile;
  }

  /**
   In every history, the active and the background time since the last crash are what the launches after the last
   crashed one counted, less what the earlier of these launches counted after their last save.
   */
  lemma {:induction false} DurationCountIsRight(history: seq<Launch>, j: int, p: Phase)
    requires -1 <= j < |history| - 1
    requires 0 <= j ==> NotesCrash(history[j])
    requires forall i | j < i < |history| - 1 :: !NotesCrash(history[i])
    ensures Total(history, p) == CountedAfter(history, j, p) - UnsavedAfter(history[..|history| - 1], j, p)
    decreases |history|
  {
    hide Total, NotesCrash, Counted, SavedPart;
    var n := |history| - 1;
    TotalGoesOn(history, p);
    if j < n - 1 {
      DurationCountIsRight(history[..n], j, p);
      assert history[..n][n - 1] == history[n - 1];
    }
  }

  /** And where a launch's events come in UIKit's order, what it counts, and what of it is saved, are times spent. */
  lemma CountedIsTime(l: Launch)
    requires PhaseAfter(IsInactive, l.events).Some?
    ensures Counted(l, IsActive)
         == TimeIn(IsInactive, IsActive, l.now, l.events) - Lost(IsInactive, IsActive, l.events) + Excess(l.now, l.events)
    ensures Counted(l, IsBackground)
         == TimeIn(IsInactive, IsBackground, l.now, l.events) - Lost(IsInactive, IsBackground, l.events)
            - Misplaced(IsInactive, l.now, l.events)
    ensures PhaseAfter(IsInactive, SavedPart(l).events).Some?
  {
    DurationsFromLaunch(None, l.now, l.events);
    PhasePrefix(IsInactive, l.events, SavedUpTo(l.events));
    hide Run, TimeIn, Lost, Excess, Misplaced;
  }

  lemma {:induction false} PhasePrefix(p0: Phase, es: seq<Event>, n: nat)
    requires n <= |es| && PhaseAfter(p0, es).Some?
    ensures PhaseAfter(p0, es[..n]).Some?
    decreases |es|
  {
    if n == |es| {
      assert es[..n] == es;
    } else {
      PhasePrefix(p0, es[..|es| - 1], n);
      assert es[..|es| - 1][..n] == es[..n];
    }
  }
}
