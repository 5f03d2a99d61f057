/**
 KSCrashMonitor_AppState: how long the application was active and in the background, how many sessions
 and launches there were, since this launch and since the last crash. Part of it survives in a file.
 Times are real seconds; an event carries the clock readings that its handler takes.
 */
module AppState {
  import opened Basics

  datatype State = State(
    activeDurationSinceLastCrash: real, backgroundDurationSinceLastCrash: real,
    launchesSinceLastCrash: int, sessionsSinceLastCrash: int,
    activeDurationSinceLaunch: real, backgroundDurationSinceLaunch: real, sessionsSinceLaunch: int,
    crashedLastLaunch: bool, crashedThisLaunch: bool,
    applicationIsActive: bool, applicationIsInForeground: bool, appStateTransitionTime: real)

  /** The state file: what `saveState` writes and `loadState` reads back. */
  datatype File = File(crashedLastLaunch: bool, activeDuration: real, backgroundDuration: real, launches: int, sessions: int)

  /** A handler's clock readings are `first` and, where it reads twice, `second`. */
  datatype Event =
    | Active(first: real)
    | Resign(first: real)
    | EnterBackground(first: real)
    | EnterForeground(first: real)
    | Update(first: real, second: real)
    | Crash(first: real, second: real)
    | Terminate(first: real, second: real)
  {
    function Last(): real {
      if Update? || Crash? || Terminate? then second else first
    }
  }

  datatype World = World(state: State, file: Option<File>)

  function Saved(s: State): File {
    File(s.crashedThisLaunch, s.activeDurationSinceLastCrash, s.backgroundDurationSinceLastCrash,
         s.launchesSinceLastCrash, s.sessionsSinceLastCrash)
  }

  function AddActive(s: State, d: real): State {
    s.(activeDurationSinceLaunch := s.activeDurationSinceLaunch + d,
       activeDurationSinceLastCrash := s.activeDurationSinceLastCrash + d)
  }

  function AddBackground(s: State, d: real): State {
    s.(backgroundDurationSinceLaunch := s.backgroundDurationSinceLaunch + d,
       backgroundDurationSinceLastCrash := s.backgroundDurationSinceLastCrash + d)
  }

  function Updated(s: State, first: real, second: real): State {
    var t := s.(appStateTransitionTime := second);
    var d := first - s.appStateTransitionTime;
    if s.applicationIsActive then AddActive(t, d) else if !s.applicationIsInForeground then AddBackground(t, d) else t
  }

  /** An enabled monitor's handlers. */
  function Step(w: World, e: Event): World {
    var s := w.state;
    match e
    case Active(now) => w.(state := s.(applicationIsActive := true, appStateTransitionTime := now))
    case Resign(now) => w.(state := AddActive(s.(applicationIsActive := false), now - s.appStateTransitionTime))
    case EnterForeground(now) =>
      var t := AddBackground(s.(applicationIsInForeground := true), now - s.appStateTransitionTime);
      w.(state := t.(sessionsSinceLastCrash := t.sessionsSinceLastCrash + 1, sessionsSinceLaunch := t.sessionsSinceLaunch + 1))
    case EnterBackground(now) =>
      var t := s.(applicationIsInForeground := false, appStateTransitionTime := now);
      World(t, Some(Saved(t)))
    case Update(first, second) => w.(state := Updated(s, first, second))
    case Crash(first, second) =>
      var t := Updated(s, first, second).(crashedThisLaunch := true);
      World(t, Some(Saved(t)))
    case Terminate(first, second) =>
      var t := Updated(s, first, second);
      World(t, Some(Saved(t)))
  }

  function Run(w: World, es: seq<Event>): World {
    if es == [] then w else Step(Run(w, es[..|es| - 1]), es[|es| - 1])
  }

  // ------------------------------------------------------------------------ time spent active and in background

  datatype Phase = IsActive | IsInactive | IsBackground

  /** The order in which UIKit sends its notifications; readings may come at any time. */
  function Next(p: Phase, e: Event): Option<Phase> {
    match e
    case Active(_) => if p == IsInactive then Some(IsActive) else None
    case Resign(_) => if p == IsActive then Some(IsInactive) else None
    case EnterBackground(_) => if p == IsInactive then Some(IsBackground) else None
    case EnterForeground(_) => if p == IsBackground then Some(IsInactive) else None
    case _ => Some(p)
  }

  /** The phase after a run that starts in `p0`. */
  function PhaseAfter(p0: Phase, es: seq<Event>): Option<Phase> {
    if es == [] then Some(p0)
    else match PhaseAfter(p0, es[..|es| - 1])
      case None => None
      case Some(p) => Next(p, es[|es| - 1])
  }

  predicate IsReading(e: Event) {
    e.Update? || e.Crash? || e.Terminate?
  }

  /** The time of the last reading of the clock. */
  function Clock(start: real, es: seq<Event>): real {
    if es == [] then start else es[|es| - 1].Last()
  }

  /** When the present phase was entered: at the last UIKit notification. */
  function Entered(start: real, es: seq<Event>): real {
    if es == [] then start
    else if IsReading(es[|es| - 1]) then Entered(start, es[..|es| - 1])
    else es[|es| - 1].first
  }

  /** The stays in a phase that are over, each from one notification to the next one; readings play no part. */
  function Stays(p0: Phase, phase: Phase, start: real, es: seq<Event>): real {
    if es == [] then 0.0
    else
      var before, last := es[..|es| - 1], es[|es| - 1];
      Stays(p0, phase, start, before)
      + if !IsReading(last) && PhaseAfter(p0, before) == Some(phase) then last.first - Entered(start, before) else 0.0
  }

  /** The time spent in a phase from `start` to the last reading of the clock. */
  function TimeIn(p0: Phase, phase: Phase, start: real, es: seq<Event>): real {
    Stays(p0, phase, start, es) + if PhaseAfter(p0, es) == Some(phase) then Clock(start, es) - Entered(start, es) else 0.0
  }

  /** The time that passed inside readings, between their first and their second look at the clock. */
  function Lost(p0: Phase, phase: Phase, es: seq<Event>): real {
    if es == [] then 0.0
    else
      var before, last := es[..|es| - 1], es[|es| - 1];
      Lost(p0, phase, before) + if IsReading(last) && PhaseAfter(p0, before) == Some(phase) then last.second - last.first else 0.0
  }

  /** Time and loss together grow by the gap before each event of the phase. */
  lemma {:induction false} TimeStep(p0: Phase, phase: Phase, start: real, es: seq<Event>)
    requires es != [] && PhaseAfter(p0, es).Some?
    ensures var before, last := es[..|es| - 1], es[|es| - 1];
            TimeIn(p0, phase, start, es) - Lost(p0, phase, es)
              == TimeIn(p0, phase, start, before) - Lost(p0, phase, before)
                 + if PhaseAfter(p0, before) == Some(phase) then last.first - Clock(start, before) else 0.0
  {
  }

  /** The state agrees with the phase, and the transition time with the last reading. */
  predicate InPhase(s: State, p: Phase, since: real) {
    && s.applicationIsActive == (p == IsActive)
    && s.applicationIsInForeground == (p != IsBackground)
    && (p != IsInactive ==> s.appStateTransitionTime == since)
  }

  lemma PhaseStep(w: World, p: Phase, e: Event, since: real)
    requires InPhase(w.state, p, since) && Next(p, e).Some?
    ensures var s, t := w.state, Step(w, e).state;
            && InPhase(t, Next(p, e).value, e.Last())
            && t.activeDurationSinceLaunch == s.activeDurationSinceLaunch + (if p == IsActive then e.first - since else 0.0)
            && t.backgroundDurationSinceLaunch == s.backgroundDurationSinceLaunch + (if p == IsBackground then e.first - since else 0.0)
  {
  }

  /** From any moment at which state and phase agree, both durations are the times spent, less the time inside the readings. */
  lemma {:induction false} DurationsAreExact(w: World, p0: Phase, start: real, es: seq<Event>)
    requires PhaseAfter(p0, es).Some? && InPhase(w.state, p0, start)
    ensures var s := Run(w, es).state;
            && s.activeDurationSinceLaunch
               == w.state.activeDurationSinceLaunch + TimeIn(p0, IsActive, start, es) - Lost(p0, IsActive, es)
            && s.backgroundDurationSinceLaunch
               == w.state.backgroundDurationSinceLaunch + TimeIn(p0, IsBackground, start, es) - Lost(p0, IsBackground, es)
            && InPhase(s, PhaseAfter(p0, es).value, Clock(start, es))
    decreases |es|
  {
    if es != [] {
      var before, last := es[..|es| - 1], es[|es| - 1];
      hide Step, InPhase;
      DurationsAreExact(w, p0, start, before);
      PhaseStep(Run(w, before), PhaseAfter(p0, before).value, last, Clock(start, before));
      TimeStep(p0, IsActive, start, es);
      TimeStep(p0, IsBackground, start, es);
      hide TimeIn, Lost;
    }
  }

  /** The clock never goes back. */
  predicate Ordered(start: real, es: seq<Event>) {
    es == [] ||
    var before, last := es[..|es| - 1], es[|es| - 1];
    Ordered(start, before) && Clock(start, before) <= last.first <= last.Last()
  }

  /** No time passes inside the readings of a phase. */
  predicate Prompt(p0: Phase, phase: Phase, es: seq<Event>) {
    forall k | 0 <= k < |es| && IsReading(es[k]) && PhaseAfter(p0, es[..k]) == Some(phase) :: es[k].second == es[k].first
  }

  lemma PromptStep(p0: Phase, phase: Phase, es: seq<Event>)
    requires es != []
    ensures Prompt(p0, phase, es)
       <==> Prompt(p0, phase, es[..|es| - 1])
            && (IsReading(es[|es| - 1]) && PhaseAfter(p0, es[..|es| - 1]) == Some(phase) ==> es[|es| - 1].second == es[|es| - 1].first)
  {
    hide PhaseAfter;
    var n := |es| - 1;
    forall k | 0 <= k < n ensures es[..n][k] == es[k] && es[..n][..k] == es[..k] {
    }
  }

  lemma {:induction false} LostExactly(p0: Phase, phase: Phase, start: real, es: seq<Event>)
    requires Ordered(start, es)
    ensures 0.0 <= Lost(p0, phase, es)
    ensures Lost(p0, phase, es) == 0.0 <==> Prompt(p0, phase, es)
    decreases |es|
  {
    if es != [] {
      var n := |es| - 1;
      PromptStep(p0, phase, es);
      hide PhaseAfter, Prompt;
      LostExactly(p0, phase, start, es[..n]);
    }
  }

  /** So each duration is the true one exactly if no time passed inside the readings of its phase. */
  lemma DurationsTrueExactly(w: World, p0: Phase, start: real, es: seq<Event>)
    requires PhaseAfter(p0, es).Some? && InPhase(w.state, p0, start) && Ordered(start, es)
    ensures Run(w, es).state.activeDurationSinceLaunch
              == w.state.activeDurationSinceLaunch + TimeIn(p0, IsActive, start, es)
       <==> Prompt(p0, IsActive, es)
    ensures Run(w, es).state.backgroundDurationSinceLaunch
              == w.state.backgroundDurationSinceLaunch + TimeIn(p0, IsBackground, start, es)
       <==> Prompt(p0, IsBackground, es)
  {
    DurationsAreExact(w, p0, start, es);
    LostExactly(p0, IsActive, start, es);
    LostExactly(p0, IsBackground, start, es);
    hide TimeIn, Lost, Prompt, Run;
  }

  /** What a launch has not added itself: the totals since the last crash less those since launch. */
  datatype Older = Older(active: real, background: real, sessions: int, launches: int, crashedLastLaunch: bool)

  function OlderPart(s: State): Older {
    Older(s.activeDurationSinceLastCrash - s.activeDurationSinceLaunch,
          s.backgroundDurationSinceLastCrash - s.backgroundDurationSinceLaunch,
          s.sessionsSinceLastCrash - s.sessionsSinceLaunch, s.launchesSinceLastCrash, s.crashedLastLaunch)
  }

  lemma OlderPartStep(w: World, e: Event)
    ensures OlderPart(Step(w, e).state) == OlderPart(w.state)
  {
  }

  /** Within a launch it never changes. */
  lemma {:induction false} OlderPartConstant(w: World, es: seq<Event>)
    ensures OlderPart(Run(w, es).state) == OlderPart(w.state)
    decreases |es|
  {
    if es != [] {
      OlderPartConstant(w, es[..|es| - 1]);
      OlderPartStep(Run(w, es[..|es| - 1]), es[|es| - 1]);
    }
  }

  // ------------------------------------------------------------------------------------ launches and restarts

  /** `kscrashstate_notifyObjCLoad`: everything zero, active, from now. */
  function Fresh(now: real): State {
    State(0.0, 0.0, 0, 0, 0.0, 0.0, 0, false, false, true, false, now)
  }

  /** `loadState`; without a file nothing changes. */
  function Restore(s: State, file: Option<File>): State {
    match file
    case None => s
    case Some(f) => s.(crashedLastLaunch := f.crashedLastLaunch,
                       activeDurationSinceLastCrash := f.activeDuration,
                       backgroundDurationSinceLastCrash := f.backgroundDuration,
                       launchesSinceLastCrash := f.launches,
                       sessionsSinceLastCrash := f.sessions)
  }

  /** `kscrashstate_reset` */
  function Reset(s: State): World {
    var t := s.(sessionsSinceLaunch := 1, activeDurationSinceLaunch := 0.0, backgroundDurationSinceLaunch := 0.0);
    var u := if t.crashedLastLaunch
             then t.(activeDurationSinceLastCrash := 0.0, backgroundDurationSinceLastCrash := 0.0,
                     launchesSinceLastCrash := 0, sessionsSinceLastCrash := 0)
             else t;
    var v := u.(crashedThisLaunch := false, launchesSinceLastCrash := u.launchesSinceLastCrash + 1,
                sessionsSinceLastCrash := u.sessionsSinceLastCrash + 1, applicationIsInForeground := true);
    World(v, Some(Saved(v)))
  }

  function Begin(file: Option<File>, now: real): World {
    Reset(Restore(Fresh(now), file))
  }

  /** One process: it is loaded at `now`, the monitor is enabled, and it ends after some events in any way. */
  datatype Launch = Launch(now: real, events: seq<Event>)

  ghost predicate NotesCrash(l: Launch) {
    exists i | 0 <= i < |l.events| :: l.events[i].Crash?
  }

  function End(file: Option<File>, l: Launch): World {
    Run(Begin(file, l.now), l.events)
  }

  /** The file after a history of launches. */
  function FileAfter(history: seq<Launch>): Option<File> {
    if history == [] then None else End(FileAfter(history[..|history| - 1]), history[|history| - 1]).file
  }

  /** The launches begun after the last one, but for the current, that noted a crash; all, if none did. */
  ghost function LaunchesSinceCrash(history: seq<Launch>): nat {
    if history == [] then 0
    else if |history| >= 2 && NotesCrash(history[|history| - 2]) then 1
    else LaunchesSinceCrash(history[..|history| - 1]) + 1
  }

  /** The file agrees with the state on the launch number and on whether a crash was noted yet. */
  ghost predicate Agrees(w: World) {
    && w.file.Some?
    && w.file.value.launches == w.state.launchesSinceLastCrash
    && w.file.value.crashedLastLaunch == w.state.crashedThisLaunch
  }

  lemma AgreesStep(w: World, e: Event)
    requires Agrees(w)
    ensures Agrees(Step(w, e))
    ensures Step(w, e).state.crashedThisLaunch == (w.state.crashedThisLaunch || e.Crash?)
  {
  }

  /** It does throughout a launch, wherever the launch ends. */
  lemma {:induction false} FileWithinLaunch(file: Option<File>, now: real, es: seq<Event>)
    ensures Agrees(Run(Begin(file, now), es))
    ensures Run(Begin(file, now), es).state.crashedThisLaunch == NotesCrash(Launch(now, es))
    decreases |es|
  {
    if es != [] {
      var n := |es| - 1;
      FileWithinLaunch(file, now, es[..n]);
      AgreesStep(Run(Begin(file, now), es[..n]), es[n]);
      assert forall i | 0 <= i < n :: es[..n][i] == es[i];
    }
  }

  /** In every history, however launches end, the count is right all through the last launch. */
  lemma {:induction false} LaunchCountIsRight(history: seq<Launch>)
    requires history != []
    ensures var last := history[|history| - 1];
            var w := End(FileAfter(history[..|history| - 1]), last);
            && w.state.launchesSinceLastCrash == LaunchesSinceCrash(history)
            && w.state.crashedLastLaunch == (|history| >= 2 && NotesCrash(history[|history| - 2]))
    decreases |history|
  {
    hide Run, NotesCrash;
    var n := |history| - 1;
    var older, last := history[..n], history[n];
    var file := FileAfter(older);
    FileWithinLaunch(file, last.now, last.events);
    OlderPartConstant(Begin(file, last.now), last.events);
    if older != [] {
      LaunchCountIsRight(older);
      FileWithinLaunch(FileAfter(older[..n - 1]), older[n - 1].now, older[n - 1].events);
      assert older[n - 1] == history[|history| - 2];
    }
  }

  /** The returns to the foreground. */
  function Returns(es: seq<Event>): nat {
    if es == [] then 0 else Returns(es[..|es| - 1]) + if es[|es| - 1].EnterForeground? then 1 else 0
  }

  predicate Saves(e: Event) {
    e.EnterBackground? || e.Crash? || e.Terminate?
  }

  /** Those after the last event that saves the state. */
  function Unsaved(es: seq<Event>): nat {
    if es == [] then 0
    else
      var last := es[|es| - 1];
      if Saves(last) then 0 else Unsaved(es[..|es| - 1]) + if last.EnterForeground? then 1 else 0
  }

  lemma SessionStep(w: World, e: Event)
    ensures var s, t, n := w.state, Step(w, e), if e.EnterForeground? then 1 else 0;
            && t.state.sessionsSinceLaunch == s.sessionsSinceLaunch + n
            && t.state.sessionsSinceLastCrash == s.sessionsSinceLastCrash + n
            && t.file == if Saves(e) then Some(Saved(t.state)) else w.file
  {
  }

  /** A launch is a session, and so is each return; a process killed now loses the returns not saved. */
  lemma {:induction false} SessionsCounted(file: Option<File>, now: real, es: seq<Event>)
    ensures var w := Run(Begin(file, now), es);
            && w.state.sessionsSinceLaunch == 1 + Returns(es)
            && w.file.Some? && w.file.value.sessions == w.state.sessionsSinceLastCrash - Unsaved(es)
    decreases |es|
  {
    if es != [] {
      hide Step, Begin;
      SessionsCounted(file, now, es[..|es| - 1]);
      SessionStep(Run(Begin(file, now), es[..|es| - 1]), es[|es| - 1]);
    }
  }

  /** The same, with the crashed launch named. */
  lemma {:induction false} CountFromCrash(history: seq<Launch>, j: int)
    requires -1 <= j < |history| - 1
    requires 0 <= j ==> NotesCrash(history[j])
    requires forall i | j < i < |history| - 1 :: !NotesCrash(history[i])
    ensures LaunchesSinceCrash(history) == |history| - 1 - j
    decreases |history|
  {
    var n := |history| - 1;
    if j < n - 1 {
      CountFromCrash(history[..n], j);
    }
  }

  /** The sessions of the launches after the `j`th ... */
  function Sessions(history: seq<Launch>, j: int): nat {
    var n := |history| - 1;
    if n <= j || n < 0 then 0 else Sessions(history[..n], j) + 1 + Returns(history[n].events)
  }

  /** ... and those of them that were never saved. */
  function Dropped(history: seq<Launch>, j: int): nat {
    var n := |history| - 1;
    if n <= j || n < 0 then 0 else Dropped(history[..n], j) + Unsaved(history[n].events)
  }

  /** A launch goes on counting from the file, unless that notes a crash. */
  lemma LaunchSessions(file: Option<File>, l: Launch)
    ensures End(file, l).state.sessionsSinceLastCrash
         == 1 + Returns(l.events) + if file.Some? && !file.value.crashedLastLaunch then file.value.sessions else 0
  {
    SessionsCounted(file, l.now, l.events);
    OlderPartConstant(Begin(file, l.now), l.events);
    hide Run;
  }

  /** What a launch leaves in the file. */
  lemma FileLeft(file: Option<File>, l: Launch)
    ensures var w := End(file, l);
            && w.file.Some? && w.file.value.crashedLastLaunch == NotesCrash(l)
            && w.file.value.sessions == w.state.sessionsSinceLastCrash - Unsaved(l.events)
  {
    FileWithinLaunch(file, l.now, l.events);
    SessionsCounted(file, l.now, l.events);
    hide Run, NotesCrash;
    assert l == Launch(l.now, l.events);
  }

  /** The sessions since the last crash at the end of a history. */
  function SessionCount(history: seq<Launch>): int
    requires history != []
  {
    End(FileAfter(history[..|history| - 1]), history[|history| - 1]).state.sessionsSinceLastCrash
  }

  /** It goes on from that of the launch before, unless that noted a crash. */
  lemma SessionsGoOn(history: seq<Launch>)
    requires history != []
    ensures var n := |history| - 1;
            SessionCount(history) == 1 + Returns(history[n].events)
              + if n > 0 && !NotesCrash(history[n - 1]) then SessionCount(history[..n]) - Unsaved(history[n - 1].events) else 0
  {
    var n := |history| - 1;
    var older := history[..n];
    LaunchSessions(FileAfter(older), history[n]);
    hide End, NotesCrash, Returns, Unsaved;
    if n > 0 {
      assert older[n - 1] == history[n - 1];
      FileLeft(FileAfter(older[..n - 1]), older[n - 1]);
    }
  }

  /**
   In every history, the sessions since the last crash are those of the launches after the last crashed one,
   less the ones that the earlier of these launches lost by ending unsaved.
   */
  lemma {:induction false} SessionCountIsRight(history: seq<Launch>, j: int)
    requires -1 <= j < |history| - 1
    requires 0 <= j ==> NotesCrash(history[j])
    requires forall i | j < i < |history| - 1 :: !NotesCrash(history[i])
    ensures SessionCount(history) == Sessions(history, j) - Dropped(history[..|history| - 1], j)
    decreases |history|
  {
    hide SessionCount, NotesCrash, Returns, Unsaved;
    var n := |history| - 1;
    SessionsGoOn(history);
    if j < n - 1 {
      SessionCountIsRight(history[..n], j);
      assert history[..n][n - 1] == history[n - 1];
    }
  }

  // ------------------------------------------------------------------- from the launch to the first didBecomeActive

  predicate WasActive(es: seq<Event>) {
    es != [] && (es[|es| - 1].Active? || WasActive(es[..|es| - 1]))
  }

  /** The transition time before the first didBecomeActive: at first `stamp0`, then of an entry to the background or a reading. */
  function Stamp(stamp0: real, es: seq<Event>): real {
    if es == [] then stamp0
    else
      var last := es[|es| - 1];
      if last.EnterBackground? || IsReading(last) then last.Last() else Stamp(stamp0, es[..|es| - 1])
  }

  /** Before the first didBecomeActive, readings come at the stamp, so that they add nothing. */
  predicate Quiet(stamp0: real, es: seq<Event>) {
    forall k | 0 <= k < |es| && IsReading(es[k]) && !WasActive(es[..k]) :: es[k].first == Stamp(stamp0, es[..k])
  }

  /** What readings before the first didBecomeActive count as active ... */
  function Excess(stamp0: real, es: seq<Event>): real {
    if es == [] then 0.0
    else
      var before, last := es[..|es| - 1], es[|es| - 1];
      Excess(stamp0, before) + if IsReading(last) && !WasActive(before) then last.first - Stamp(stamp0, before) else 0.0
  }

  /** ... and the part of it that was spent in the background. */
  function Misplaced(p0: Phase, stamp0: real, es: seq<Event>): real {
    if es == [] then 0.0
    else
      var before, last := es[..|es| - 1], es[|es| - 1];
      Misplaced(p0, stamp0, before)
      + if IsReading(last) && !WasActive(before) && PhaseAfter(p0, before) == Some(IsBackground)
        then last.first - Stamp(stamp0, before) else 0.0
  }

  /** A launch is marked active until the first didBecomeActive, whatever its phase. */
  predicate Launching(s: State, p: Phase, stamp: real) {
    s.applicationIsActive && p != IsActive && s.applicationIsInForeground == (p != IsBackground) && s.appStateTransitionTime == stamp
  }

  lemma LaunchingStep(w: World, p: Phase, e: Event, stamp: real)
    requires Launching(w.state, p, stamp) && Next(p, e).Some?
    ensures var s, t, q := w.state, Step(w, e).state, Next(p, e).value;
            && (if e.Active? then InPhase(t, q, e.Last())
                else Launching(t, q, if e.EnterBackground? || IsReading(e) then e.Last() else stamp))
            && t.activeDurationSinceLaunch == s.activeDurationSinceLaunch + (if IsReading(e) then e.first - stamp else 0.0)
            && t.backgroundDurationSinceLaunch == s.backgroundDurationSinceLaunch + (if e.EnterForeground? then e.first - stamp else 0.0)
  {
  }

  /** A stamp in the background is the last reading of the clock. */
  predicate Stamped(p0: Phase, stamp0: real, start: real) {
    p0 != IsActive && (p0 == IsBackground ==> stamp0 == start)
  }

  lemma {:induction false} StampInBackground(p0: Phase, stamp0: real, start: real, es: seq<Event>)
    requires Stamped(p0, stamp0, start) && PhaseAfter(p0, es) == Some(IsBackground) && !WasActive(es)
    ensures Stamp(stamp0, es) == Clock(start, es)
  {
  }

  /** Where a run is that begins in a launch. */
  predicate AtPlace(s: State, stamp0: real, start: real, es: seq<Event>, p: Phase) {
    if WasActive(es) then InPhase(s, p, Clock(start, es)) else Launching(s, p, Stamp(stamp0, es))
  }

  /** One event, before or after the first didBecomeActive. */
  lemma LaunchStep(w: World, p0: Phase, stamp0: real, start: real, es: seq<Event>, p: Phase)
    requires Stamped(p0, stamp0, start)
    requires es != [] && PhaseAfter(p0, es).Some? && PhaseAfter(p0, es[..|es| - 1]) == Some(p)
    requires AtPlace(w.state, stamp0, start, es[..|es| - 1], p)
    ensures var before, last, s, t := es[..|es| - 1], es[|es| - 1], w.state, Step(w, es[|es| - 1]).state;
            var gap := last.first - Clock(start, before);
            && AtPlace(t, stamp0, start, es, PhaseAfter(p0, es).value)
            && t.activeDurationSinceLaunch
               == s.activeDurationSinceLaunch + (if p == IsActive then gap else 0.0) + Excess(stamp0, es) - Excess(stamp0, before)
            && t.backgroundDurationSinceLaunch
               == s.backgroundDurationSinceLaunch + (if p == IsBackground then gap else 0.0)
                  - (Misplaced(p0, stamp0, es) - Misplaced(p0, stamp0, before))
  {
    var before, last := es[..|es| - 1], es[|es| - 1];
    if WasActive(before) {
      PhaseStep(w, p, last, Clock(start, before));
    } else {
      LaunchingStep(w, p, last, Stamp(stamp0, before));
      if p == IsBackground { StampInBackground(p0, stamp0, start, before); }
    }
    hide Step;
  }

  /** While a launch is on, what the durations count beside the times spent. */
  lemma {:induction false} DurationsWhileLaunching(w: World, p0: Phase, stamp0: real, start: real, es: seq<Event>)
    requires Launching(w.state, p0, stamp0) && Stamped(p0, stamp0, start) && PhaseAfter(p0, es).Some?
    ensures var s := Run(w, es).state;
            && s.activeDurationSinceLaunch
               == w.state.activeDurationSinceLaunch + TimeIn(p0, IsActive, start, es) - Lost(p0, IsActive, es) + Excess(stamp0, es)
            && s.backgroundDurationSinceLaunch
               == w.state.backgroundDurationSinceLaunch + TimeIn(p0, IsBackground, start, es) - Lost(p0, IsBackground, es)
                  - Misplaced(p0, stamp0, es)
            && AtPlace(s, stamp0, start, es, PhaseAfter(p0, es).value)
    decreases |es|
  {
    if es != [] {
      var before := es[..|es| - 1];
      hide Step, AtPlace, Launching, Stamped;
      DurationsWhileLaunching(w, p0, stamp0, start, before);
      LaunchStep(Run(w, before), p0, stamp0, start, es, PhaseAfter(p0, before).value);
      TimeStep(p0, IsActive, start, es);
      TimeStep(p0, IsBackground, start, es);
      hide TimeIn, Lost, Excess, Misplaced;
    }
  }

  /** And so from the beginning of a launch on. */
  lemma {:induction false} DurationsFromLaunch(file: Option<File>, t0: real, es: seq<Event>)
    requires PhaseAfter(IsInactive, es).Some?
    ensures var s := Run(Begin(file, t0), es).state;
            && s.activeDurationSinceLaunch
               == TimeIn(IsInactive, IsActive, t0, es) - Lost(IsInactive, IsActive, es) + Excess(t0, es)
            && s.backgroundDurationSinceLaunch
               == TimeIn(IsInactive, IsBackground, t0, es) - Lost(IsInactive, IsBackground, es) - Misplaced(IsInactive, t0, es)
  {
    hide Run, TimeIn, Lost, Excess, Misplaced;
    DurationsWhileLaunching(Begin(file, t0), IsInactive, t0, t0, es);
  }

  lemma {:induction false} StampNotAhead(t0: real, es: seq<Event>)
    requires Ordered(t0, es)
    ensures Stamp(t0, es) <= Clock(t0, es)
    decreases |es|
  {
    if es != [] {
      StampNotAhead(t0, es[..|es| - 1]);
    }
  }

  lemma {:induction false} QuietExactly(t0: real, es: seq<Event>)
    requires Ordered(t0, es)
    ensures 0.0 <= Misplaced(IsInactive, t0, es) <= Excess(t0, es)
    ensures Excess(t0, es) == 0.0 <==> Quiet(t0, es)
    decreases |es|
  {
    if es != [] {
      var n := |es| - 1;
      QuietExactly(t0, es[..n]);
      StampNotAhead(t0, es[..n]);
      assert forall k | 0 <= k < n :: es[..n][k] == es[k] && es[..n][..k] == es[..k];
    }
  }

  /**
   From a launch on, the durations are the times spent, less the time inside the readings, exactly if the run
   is quiet before the first didBecomeActive.
   */
  lemma LaunchDurationsExactly(file: Option<File>, t0: real, es: seq<Event>)
    requires PhaseAfter(IsInactive, es).Some? && Ordered(t0, es)
    ensures Quiet(t0, es) <==>
            && Run(Begin(file, t0), es).state.activeDurationSinceLaunch
               == TimeIn(IsInactive, IsActive, t0, es) - Lost(IsInactive, IsActive, es)
            && Run(Begin(file, t0), es).state.backgroundDurationSinceLaunch
               == TimeIn(IsInactive, IsBackground, t0, es) - Lost(IsInactive, IsBackground, es)
  {
    DurationsFromLaunch(file, t0, es);
    QuietExactly(t0, es);
    hide Run, TimeIn, Lost, Quiet, Excess, Misplaced;
  }

  /** And where no time passes inside readings, the durations are the times spent exactly if the run is quiet. */
  lemma LaunchDurationsTrueExactly(file: Option<File>, t0: real, es: seq<Event>)
    requires PhaseAfter(IsInactive, es).Some? && Ordered(t0, es)
    requires Prompt(IsInactive, IsActive, es) && Prompt(IsInactive, IsBackground, es)
    ensures Quiet(t0, es) <==>
            && Run(Begin(file, t0), es).state.activeDurationSinceLaunch == TimeIn(IsInactive, IsActive, t0, es)
            && Run(Begin(file, t0), es).state.backgroundDurationSinceLaunch == TimeIn(IsInactive, IsBackground, t0, es)
  {
    LaunchDurationsExactly(file, t0, es);
    LostExactly(IsInactive, IsActive, t0, es);
    LostExactly(IsInactive, IsBackground, t0, es);
    hide Run, TimeIn, Lost, Quiet;
  }

  /** A run that is not quiet: a launch straight to the background, where a reading counts its time as active. */
  lemma BackgroundLaunchCountsAsActive(file: Option<File>, t0: real, t1: real, t2: real)
    ensures var s := Run(Begin(file, t0), [EnterBackground(t1), Update(t2, t2)]).state;
            s.activeDurationSinceLaunch == t2 - t1 && s.backgroundDurationSinceLaunch == 0.0
  {
    var es := [EnterBackground(t1), Update(t2, t2)];
    var b := Begin(file, t0);
    assert es[..1] == [EnterBackground(t1)] && es[..1][..0] == [];
    assert Run(b, []) == b;
    assert Run(b, es[..1]) == Step(b, EnterBackground(t1));
    assert Run(b, es) == Step(Run(b, es[..1]), Update(t2, t2));
  }

  // ------------------------------------------------------------------------------------------- the globals

  class Monitor {
    var state: State
    var enabled: bool
    var file: Option<File>

    function Now(): World
      reads this
    {
      World(state, file)
    }

    /** The process starts; the file is what earlier ones left. */
    constructor NotifyObjCLoad(now: real, file: Option<File>)
      ensures state == Fresh(now) == State(0.0, 0.0, 0, 0, 0.0, 0.0, 0, false, false, true, false, now)
      ensures !enabled && this.file == file
    {
      state := Fresh(now);
      enabled := false;
      this.file := file;
    }

    method Initialize()
      modifies this`state
      ensures state == Restore(old(state), file)
    {
      match file {
        case None =>
        case Some(f) =>
          state := state.(crashedLastLaunch := f.crashedLastLaunch);
          state := state.(activeDurationSinceLastCrash := f.activeDuration);
          state := state.(backgroundDurationSinceLastCrash := f.backgroundDuration);
          state := state.(launchesSinceLastCrash := f.launches);
          state := state.(sessionsSinceLastCrash := f.sessions);
      }
    }

    method SaveState()
      modifies this`file
      ensures file == Some(Saved(state))
    {
      file := Some(File(state.crashedThisLaunch, state.activeDurationSinceLastCrash, state.backgroundDurationSinceLastCrash,
                        state.launchesSinceLastCrash, state.sessionsSinceLastCrash));
    }

    method ResetState()
      modifies this`state, this`file
      ensures Now() == if enabled then Reset(old(state)) else old(Now())
    {
      if enabled {
        state := state.(sessionsSinceLaunch := 1);
        state := state.(activeDurationSinceLaunch := 0.0);
        state := state.(backgroundDurationSinceLaunch := 0.0);
        if state.crashedLastLaunch {
          state := state.(activeDurationSinceLastCrash := 0.0);
          state := state.(backgroundDurationSinceLastCrash := 0.0);
          state := state.(launchesSinceLastCrash := 0);
          state := state.(sessionsSinceLastCrash := 0);
        }
        state := state.(crashedThisLaunch := false);
        state := state.(launchesSinceLastCrash := state.launchesSinceLastCrash + 1);
        state := state.(sessionsSinceLastCrash := state.sessionsSinceLastCrash + 1);
        state := state.(applicationIsInForeground := true);
        SaveState();
      }
    }

    method SetEnabled(isEnabled: bool)
      modifies this
      ensures enabled == isEnabled
      ensures Now() == if isEnabled && !old(enabled) then Reset(old(state)) else old(Now())
    {
      if isEnabled != enabled {
        enabled := isEnabled;
        if isEnabled {
          ResetState();
        }
      }
    }

    method UpdateAppState(first: real, second: real)
      modifies this`state
      ensures state == Updated(old(state), first, second)
    {
      var duration := first - state.appStateTransitionTime;
      state := state.(appStateTransitionTime := second);
      if state.applicationIsActive {
        state := state.(activeDurationSinceLaunch := state.activeDurationSinceLaunch + duration);
        state := state.(activeDurationSinceLastCrash := state.activeDurationSinceLastCrash + duration);
      } else if !state.applicationIsInForeground {
        state := state.(backgroundDurationSinceLaunch := state.backgroundDurationSinceLaunch + duration);
        state := state.(backgroundDurationSinceLastCrash := state.backgroundDurationSinceLastCrash + duration);
      }
    }

    method NotifyAppActive(isActive: bool, now: real)
      modifies this`state
      ensures Now() == if enabled then Step(old(Now()), if isActive then Active(now) else Resign(now)) else old(Now())
    {
      if enabled {
        state := state.(applicationIsActive := isActive);
        if isActive {
          state := state.(appStateTransitionTime := now);
        } else {
          var duration := now - state.appStateTransitionTime;
          state := state.(activeDurationSinceLaunch := state.activeDurationSinceLaunch + duration);
          state := state.(activeDurationSinceLastCrash := state.activeDurationSinceLastCrash + duration);
        }
      }
    }

    method NotifyAppInForeground(isInForeground: bool, now: real)
      modifies this`state, this`file
      ensures Now() == if enabled then Step(old(Now()), if isInForeground then EnterForeground(now) else EnterBackground(now))
                       else old(Now())
    {
      if enabled {
        state := state.(applicationIsInForeground := isInForeground);
        if isInForeground {
          var duration := now - state.appStateTransitionTime;
          state := state.(backgroundDurationSinceLaunch := state.backgroundDurationSinceLaunch + duration);
          state := state.(backgroundDurationSinceLastCrash := state.backgroundDurationSinceLastCrash + duration);
          state := state.(sessionsSinceLastCrash := state.sessionsSinceLastCrash + 1);
          state := state.(sessionsSinceLaunch := state.sessionsSinceLaunch + 1);
        } else {
          state := state.(appStateTransitionTime := now);
          SaveState();
        }
      }
    }

    method NotifyAppTerminate(first: real, second: real)
      modifies this`state, this`file
      ensures Now() == if enabled then Step(old(Now()), Terminate(first, second)) else old(Now())
    {
      if enabled {
        UpdateAppState(first, second);
        SaveState();
      }
    }

    method NotifyAppCrash(first: real, second: real)
      modifies this`state, this`file
      ensures Now() == if enabled then Step(old(Now()), Crash(first, second)) else old(Now())
    {
      if enabled {
        UpdateAppState(first, second);
        state := state.(crashedThisLaunch := true);
        SaveState();
      }
    }

    /** The event context receives the totals after an update. */
    method AddContextualInfoToEvent(first: real, second: real) returns (context: Option<State>)
      modifies this`state
      ensures Now() == if enabled then Step(old(Now()), Update(first, second)) else old(Now())
      ensures context == if enabled then Some(state) else None
    {
      if !enabled {
        return None;
      }
      UpdateAppState(first, second);
      return Some(state);
    }
  }
}
