/**
 KSCrashMonitor and the callback in KSCrashC: which crash monitors are on, and what a crash handler does,
 step by step, as further crashes interrupt it.
 */
module Monitors {
  import opened Basics

  datatype Monitor =
    | MachException | Signal | NSException | MainThreadDeadlock | Zombie
    | CPPException | UserReported | System | ApplicationState

  const ALL := {MachException, Signal, NSException, MainThreadDeadlock, Zombie, CPPException, UserReported, System, ApplicationState}
  const DEBUGGER_UNSAFE := {MachException, Signal, CPPException, NSException}
  const ASYNC_SAFE := {MachException, Signal}
  const PRODUCTION_SAFE_MINIMAL := ALL - {MainThreadDeadlock} - {Zombie}

  /** What a report file is written for; a recrash report goes to the last report's file, if there is one. */
  datatype Report = Standard(id: nat) | Recrash(over: Option<nat>)

  /** Where a handler is: about to tell that it has a fatal exception, to look at the crash flag, and so on. */
  datatype Place =
    | Telling(asyncSafe: bool)
    | Stamping
    | Noting(recrash: bool)
    | Naming(recrash: bool)
    | Storing(id: nat)
    | Writing(id: nat)
    | Finishing
    | Done

  /** `snapshot` is `currentSnapshotUserReported`. */
  datatype Handler = Handler(snapshot: bool, place: Place)

  datatype Notification = BecameActive | ResignedActive | EnteredBackground | EnteringForeground | Terminating

  /** The globals of KSCrashMonitor and of the monitors themselves. */
  datatype Switches = Switches(enabled: set<Monitor>, active: set<Monitor>, handling: bool, crashed: bool, requiresAsyncSafety: bool)

  /** Report IDs drawn, the report last begun, what was written, and the crashes noted in the application state. */
  datatype Output = Output(draws: nat, lastReport: Option<nat>, reports: seq<Report>, notes: nat)

  /** The globals of KSCrashC; `passed` are the notifications passed on to the application state. */
  datatype Core = Core(installed: bool, monitoring: set<Monitor>, lastNotification: Option<Notification>, passed: seq<Notification>)

  datatype State = State(switches: Switches, output: Output, core: Core, handlers: seq<Handler>)

  const INITIAL := State(Switches({}, {}, false, false, false), Output(0, None, [], 0), Core(false, PRODUCTION_SAFE_MINIMAL, None, []), [])

  /** `traced` says whether a debugger is attached at that moment. */
  datatype Event =
    | Install(traced: bool)
    | SetMonitoring(monitors: set<Monitor>, traced: bool)
    | Notify(notification: Notification)
    | Trap(monitor: Monitor, flag: bool)
    | Go(i: nat, traced: bool)

  function Masked(s: Switches, types: set<Monitor>, traced: bool): set<Monitor> {
    var t := if traced && types * DEBUGGER_UNSAFE != {} then types - DEBUGGER_UNSAFE else types;
    if s.requiresAsyncSafety && t - ASYNC_SAFE != {} then t * ASYNC_SAFE else t
  }

  /** `kscm_setActiveMonitors`: the zombie monitor cannot be switched off. */
  function SetActive(s: Switches, types: set<Monitor>, traced: bool): Switches {
    var on := Masked(s, types, traced) + s.enabled * {Zombie};
    s.(enabled := on, active := on)
  }

  /** `kscm_notifyFatalExceptionCaptured` */
  function Tell(s: Switches, asyncSafe: bool, traced: bool): Switches {
    var t := Switches(s.enabled, s.active, true, s.crashed || s.handling, s.requiresAsyncSafety || asyncSafe);
    if t.crashed then SetActive(t, {}, traced) else t
  }

  /** The end of `kscm_handleException`. */
  function Finish(s: Switches, snapshot: bool, traced: bool): Switches {
    if snapshot then s.(handling := false)
    else if s.handling && !s.crashed then SetActive(s, {}, traced)
    else s
  }

  /** What a handler's next step does to the switches ... */
  function Switch(s: Switches, h: Handler, traced: bool): Switches {
    match h.place
    case Telling(asyncSafe) => Tell(s, asyncSafe, traced)
    case Finishing => Finish(s, h.snapshot, traced)
    case _ => s
  }

  function NotesAfter(o: Output, snapshot: bool, noting: bool): nat {
    o.notes + if !snapshot && noting then 1 else 0
  }

  /** ... to the output: notes are taken unless it is a snapshot or the application state is not monitored ... */
  function Put(o: Output, h: Handler, noting: bool): Output {
    match h.place
    case Noting(_) => o.(notes := NotesAfter(o, h.snapshot, noting))
    case Naming(true) => o.(reports := o.reports + [Recrash(o.lastReport)])
    case Naming(false) => o.(draws := o.draws + 1)
    case Storing(id) => o.(lastReport := Some(id))
    case Writing(id) => o.(reports := o.reports + [Standard(id)])
    case _ => o
  }

  /** ... and to its place. */
  function Next(place: Place, crashed: bool, draws: nat): Place {
    match place
    case Telling(_) => Stamping
    case Stamping => Noting(crashed)
    case Noting(recrash) => Naming(recrash)
    case Naming(true) => Finishing
    case Naming(false) => Storing(draws)
    case Storing(id) => Writing(id)
    case Writing(_) => Finishing
    case Finishing => Done
    case Done => Done
  }

  function Advance(s: State, i: nat, traced: bool): State
    requires i < |s.handlers|
  {
    var h := s.handlers[i];
    State(Switch(s.switches, h, traced), Put(s.output, h, ApplicationState in s.switches.enabled), s.core,
          s.handlers[i := h.(place := Next(h.place, s.switches.crashed, s.output.draws))])
  }

  /** Monitors that catch exceptions; the flag tells a snapshot from an uncaught exception, or whether to terminate. */
  function Trapped(m: Monitor, flag: bool): Option<Handler> {
    match m
    case MachException => Some(Handler(false, Telling(true)))
    case Signal => Some(Handler(false, Telling(false)))
    case NSException => Some(Handler(flag, Telling(false)))
    case MainThreadDeadlock => Some(Handler(false, Telling(false)))
    case CPPException => Some(Handler(false, Telling(false)))
    case UserReported => Some(Handler(false, if flag then Telling(false) else Stamping))
    case _ => None
  }

  /**
   Six monitors catch exceptions. The handler of an NSException may be told that it is a snapshot. All tell that they have
   a fatal exception, but for a user exception that is not to end the program; and the Mach handler must be async-safe.
   */
  lemma TrapsExactly(m: Monitor, flag: bool)
    ensures Trapped(m, flag).Some? <==> m !in {Zombie, System, ApplicationState}
    ensures Trapped(m, flag).Some? ==>
              var h := Trapped(m, flag).value;
              && (h.snapshot <==> m == NSException && flag)
              && (h.place == Stamping <==> m == UserReported && !flag)
              && (h.place == Telling(true) <==> m == MachException)
              && (h.place != Stamping && m != MachException ==> h.place == Telling(false))
  {
  }

  function Step(s: State, e: Event): State {
    match e
    case Install(traced) =>
      if s.core.installed then s else
        s.(switches := SetActive(s.switches, s.core.monitoring, traced),
           core := s.core.(installed := true,
                           passed := s.core.passed + if s.core.lastNotification.Some? then [s.core.lastNotification.value] else []))
    case SetMonitoring(monitors, traced) =>
      s.(switches := if s.core.installed then SetActive(s.switches, monitors, traced) else s.switches,
         core := s.core.(monitoring := monitors))
    case Notify(n) =>
      s.(core := s.core.(lastNotification := Some(n), passed := s.core.passed + if s.core.installed then [n] else []))
    case Trap(m, flag) =>
      if m in s.switches.enabled && Trapped(m, flag).Some? then s.(handlers := s.handlers + [Trapped(m, flag).value]) else s
    case Go(i, traced) => if i < |s.handlers| then Advance(s, i, traced) else s
  }

  function Run(s: State, es: seq<Event>): State
    decreases |es|
  {
    if es == [] then s else Run(Step(s, es[0]), es[1..])
  }

  lemma {:induction false} RunConcat(s: State, es: seq<Event>, fs: seq<Event>)
    ensures Run(s, es + fs) == Run(Run(s, es), fs)
    decreases |es|
  {
    hide Step;
    if es == [] {
      assert es + fs == fs;
    } else {
      assert (es + fs)[0] == es[0] && (es + fs)[1..] == es[1..] + fs;
      RunConcat(Step(s, es[0]), es[1..], fs);
    }
  }

  lemma RunTwo(s: State, e: Event, f: Event)
    ensures Run(s, [e]) == Step(s, e) && Run(s, [e, f]) == Step(Step(s, e), f)
  {
    hide Step;
    assert [e][1..] == [] && [e, f][1..] == [f] && [f][1..] == [];
    assert Run(Step(s, e), [f]) == Run(Step(Step(s, e), f), []);
  }

  // ------------------------------------------------------------------------------------------- flags and masks

  /** The two sticky flags stay set. */
  lemma {:induction false} FlagsStick(s: State, es: seq<Event>)
    ensures s.switches.crashed ==> Run(s, es).switches.crashed
    ensures s.switches.requiresAsyncSafety ==> Run(s, es).switches.requiresAsyncSafety
    decreases |es|
  {
    hide Put, Masked;
    if es != [] {
      FlagsStick(Step(s, es[0]), es[1..]);
    }
  }

  /** The active mask is the set of monitors that report being enabled. */
  lemma {:induction false} ActiveAreEnabled(s: State, es: seq<Event>)
    requires s.switches.active == s.switches.enabled
    ensures Run(s, es).switches.active == Run(s, es).switches.enabled
    decreases |es|
  {
    hide Put, Masked;
    if es != [] {
      ActiveAreEnabled(Step(s, es[0]), es[1..]);
    }
  }

  /** A monitor is let through if the debugger and the async-safety requirement both allow it. */
  lemma MaskedExactly(s: Switches, types: set<Monitor>, traced: bool, m: Monitor)
    ensures m in Masked(s, types, traced)
      <==> m in types && (traced ==> m !in DEBUGGER_UNSAFE) && (s.requiresAsyncSafety ==> m in ASYNC_SAFE)
  {
    var t := if traced && types * DEBUGGER_UNSAFE != {} then types - DEBUGGER_UNSAFE else types;
    assert m in types && m in DEBUGGER_UNSAFE ==> m in types * DEBUGGER_UNSAFE;
    assert m in t && m !in ASYNC_SAFE ==> m in t - ASYNC_SAFE;
  }

  /** A change under the async-safety requirement leaves only the two safe monitors and a zombie monitor already on. */
  lemma SafeChange(s: State, e: Event)
    requires s.switches.requiresAsyncSafety
    ensures var w, v := s.switches, Step(s, e).switches;
      v.requiresAsyncSafety && (v.enabled == w.enabled || v.enabled <= ASYNC_SAFE + w.enabled * {Zombie})
  {
  }

  /** Once async-safety is required, whatever changes leaves only the two safe monitors and a zombie monitor already on. */
  lemma {:induction false} OnlyAsyncSafeFromThen(s: State, es: seq<Event>)
    requires s.switches.requiresAsyncSafety
    ensures var on := Run(s, es).switches.enabled;
      on == s.switches.enabled || on <= ASYNC_SAFE + s.switches.enabled * {Zombie}
    decreases |es|
  {
    if es != [] {
      SafeChange(s, es[0]);
      hide Step;
      OnlyAsyncSafeFromThen(Step(s, es[0]), es[1..]);
    }
  }

  // -------------------------------------------------------------------------------------- crashes in a handler

  /** A handler that saw no crash in a handler, and has yet to draw its report ID. */
  predicate WillDraw(h: Handler) {
    h.place == Noting(false) || h.place == Naming(false)
  }

  ghost predicate NoneWillDraw(hs: seq<Handler>) {
    forall i | 0 <= i < |hs| :: !WillDraw(hs[i])
  }

  lemma NoDrawStep(s: State, e: Event)
    requires s.switches.crashed && NoneWillDraw(s.handlers)
    ensures var t := Step(s, e); t.switches.crashed && NoneWillDraw(t.handlers) && t.output.draws == s.output.draws
  {
  }

  lemma {:induction false} NoDraws(s: State, es: seq<Event>)
    requires s.switches.crashed && NoneWillDraw(s.handlers)
    ensures Run(s, es).output.draws == s.output.draws
    decreases |es|
  {
    if es != [] {
      NoDrawStep(s, es[0]);
      hide Step, NoneWillDraw;
      NoDraws(Step(s, es[0]), es[1..]);
    }
  }

  /**
   After a crash in a crash handler no further report ID is drawn, whatever happens, exactly if no handler
   is at work that looked at the crash flag before and has not drawn its ID.
   */
  lemma NoDrawsExactly(s: State)
    requires s.switches.crashed
    ensures NoneWillDraw(s.handlers) <==> forall es :: Run(s, es).output.draws == s.output.draws
  {
    if NoneWillDraw(s.handlers) {
      forall es ensures Run(s, es).output.draws == s.output.draws {
        NoDraws(s, es);
      }
    } else {
      var i :| 0 <= i < |s.handlers| && WillDraw(s.handlers[i]);
      RunTwo(s, Go(i, false), Go(i, false));
      var one, two := [Go(i, false)], [Go(i, false), Go(i, false)];
      hide Run;
      if s.handlers[i].place == Naming(false) {
        assert Run(s, one).output.draws == s.output.draws + 1;
      } else {
        assert Run(s, two).output.draws == s.output.draws + 1;
      }
    }
  }

  /** Such a handler can be at work: a run from the beginning, with a signal in the handler of an exception. */
  lemma DrawsReached()
    ensures var s := Run(INITIAL, [Install(false), Trap(NSException, false), Go(0, false), Go(0, false), Trap(Signal, false), Go(1, false)]);
      s.switches.crashed && !NoneWillDraw(s.handlers)
  {
    var a, b, c := [Install(false), Trap(NSException, false)], [Go(0, false), Go(0, false)], [Trap(Signal, false), Go(1, false)];
    RunConcat(INITIAL, a, b + c);
    RunConcat(Run(INITIAL, a), b, c);
    RunTwo(INITIAL, a[0], a[1]);
    RunTwo(Run(INITIAL, a), b[0], b[1]);
    RunTwo(Run(Run(INITIAL, a), b), c[0], c[1]);
    assert a + (b + c) == [Install(false), Trap(NSException, false), Go(0, false), Go(0, false), Trap(Signal, false), Go(1, false)];
    hide Run;
    var s := Run(Run(Run(INITIAL, a), b), c);
    assert s.handlers[0] == Handler(false, Noting(false));
  }

  // ---------------------------------------------------------------------------------- where a recrash report goes

  ghost predicate NoneNameless(reports: seq<Report>, from: nat) {
    forall j | from <= j < |reports| :: reports[j] != Recrash(None)
  }

  lemma NamedStep(s: State, e: Event, from: nat)
    requires s.output.lastReport.Some? && from <= |s.output.reports| && NoneNameless(s.output.reports, from)
    ensures var t := Step(s, e);
      t.output.lastReport.Some? && from <= |t.output.reports| && NoneNameless(t.output.reports, from)
  {
  }

  lemma {:induction false} NamedFromThen(s: State, es: seq<Event>, from: nat)
    requires s.output.lastReport.Some? && from <= |s.output.reports| && NoneNameless(s.output.reports, from)
    ensures NoneNameless(Run(s, es).output.reports, from)
    decreases |es|
  {
    if es != [] {
      NamedStep(s, es[0], from);
      hide Step, NoneNameless;
      NamedFromThen(Step(s, es[0]), es[1..], from);
    }
  }

  /** Four steps of a handler that sees the crash flag: it writes over the last report. */
  lemma RecrashesNow(s: State, i: nat)
    requires i < |s.handlers| && s.handlers[i].place == Stamping && s.switches.crashed
    ensures var t := Run(s, [Go(i, false), Go(i, false), Go(i, false)]);
      t.output.reports == s.output.reports + [Recrash(s.output.lastReport)]
  {
    var go := Go(i, false);
    RunTwo(s, go, go);
    RunConcat(s, [go, go], [go]);
    RunTwo(Run(s, [go, go]), go, go);
    assert [go, go] + [go] == [go, go, go];
    hide Run;
    var s1 := Step(s, go);
    var s2 := Step(s1, go);
    assert s1.handlers[i].place == Noting(true) && s1.output == s.output;
    assert s2.handlers[i].place == Naming(true) && s2.output.reports == s.output.reports && s2.output.lastReport == s.output.lastReport;
  }

  const REINSTALL := [Install(false), SetMonitoring({Signal}, false)]

  /** Whatever has happened, the signal monitor can be switched on. */
  lemma SignalOn(s: State)
    ensures var t := Run(s, REINSTALL);
      Signal in t.switches.enabled && t.output == s.output && t.handlers == s.handlers
        && t.switches.crashed == s.switches.crashed && t.switches.handling == s.switches.handling
  {
  }

  /** A signal comes in: its handler has told of it. */
  lemma SignalTold(s: State)
    requires Signal in s.switches.enabled
    ensures var i := |s.handlers|; var t := Run(s, [Trap(Signal, false), Go(i, false)]);
      && |t.handlers| == i + 1 && t.handlers[i] == Handler(false, Stamping) && t.output == s.output
      && t.switches.handling && t.switches.crashed == (s.switches.crashed || s.switches.handling)
      && (!t.switches.crashed ==> t.switches.enabled == s.switches.enabled)
  {
    RunTwo(s, Trap(Signal, false), Go(|s.handlers|, false));
    hide Run, Masked;
  }

  lemma NamelessFollows(s: State) returns (es: seq<Event>)
    requires s.output.lastReport.None?
    ensures !NoneNameless(Run(s, es).output.reports, |s.output.reports|)
  {
    hide Step, Run;
    SignalOn(s);
    var t := Run(s, REINSTALL);
    var n := |t.handlers|;
    var first := [Trap(Signal, false), Go(n, false)];
    var second := [Trap(Signal, false), Go(n + 1, false)];
    SignalTold(t);
    var u := Run(t, first);
    RunConcat(s, REINSTALL, first);
    if u.switches.crashed {
      RecrashesNow(u, n);
      var last := [Go(n, false), Go(n, false), Go(n, false)];
      es := REINSTALL + first + last;
      RunConcat(s, REINSTALL + first, last);
      assert Run(s, es).output.reports[|s.output.reports|] == Recrash(None);
    } else {
      SignalTold(u);
      var v := Run(u, second);
      RunConcat(s, REINSTALL + first, second);
      RecrashesNow(v, n + 1);
      var last := [Go(n + 1, false), Go(n + 1, false), Go(n + 1, false)];
      es := REINSTALL + first + second + last;
      RunConcat(s, REINSTALL + first + second, last);
      assert Run(s, es).output.reports[|s.output.reports|] == Recrash(None);
    }
  }

  /** Every recrash report to come has a file to go to exactly if some report has been begun before. */
  lemma RecrashNamedExactly(s: State)
    ensures s.output.lastReport.Some? <==> forall es :: NoneNameless(Run(s, es).output.reports, |s.output.reports|)
  {
    hide Run;
    if s.output.lastReport.Some? {
      forall es ensures NoneNameless(Run(s, es).output.reports, |s.output.reports|) {
        NamedFromThen(s, es, |s.output.reports|);
      }
    } else {
      var es := NamelessFollows(s);
    }
  }

  // ------------------------------------------------------------------------------------- one exception by itself

  /** A handler's steps from beginning to end. */
  function Steps(n: nat, e: Event): seq<Event> {
    if n == 0 then [] else [e] + Steps(n - 1, e)
  }

  lemma StepsNext(s: State, n: nat, e: Event)
    requires n > 0
    ensures Run(s, Steps(n, e)) == Run(Step(s, e), Steps(n - 1, e))
  {
  }

  lemma GoStep(s: State, i: nat, hs: seq<Handler>, h: Handler, traced: bool)
    requires i < |hs| && s.handlers == hs[i := h]
    ensures Step(s, Go(i, traced))
      == State(Switch(s.switches, h, traced), Put(s.output, h, ApplicationState in s.switches.enabled), s.core,
               hs[i := h.(place := Next(h.place, s.switches.crashed, s.output.draws))])
  {
  }

  /** Of `n` steps of a handler, the first. */
  lemma GoOn(s: State, i: nat, hs: seq<Handler>, h: Handler, traced: bool, n: nat)
    requires i < |hs| && s.handlers == hs[i := h] && n > 0
    ensures Run(s, Steps(n, Go(i, traced)))
      == Run(State(Switch(s.switches, h, traced), Put(s.output, h, ApplicationState in s.switches.enabled), s.core,
                   hs[i := h.(place := Next(h.place, s.switches.crashed, s.output.draws))]),
             Steps(n - 1, Go(i, traced)))
  {
    hide Step;
    StepsNext(s, n, Go(i, traced));
    GoStep(s, i, hs, h, traced);
  }

  lemma SameHandler(hs: seq<Handler>, i: nat)
    requires i < |hs|
    ensures hs[i := hs[i]] == hs
  {
  }

  lemma UpToNaming(s: State, hs: seq<Handler>, i: nat, snapshot: bool, traced: bool)
    requires i < |hs| && s.handlers == hs[i := Handler(snapshot, Stamping)] && !s.switches.crashed
    ensures Run(s, Steps(6, Go(i, traced)))
      == Run(s.(output := s.output.(notes := NotesAfter(s.output, snapshot, ApplicationState in s.switches.enabled)),
                handlers := hs[i := Handler(snapshot, Naming(false))]),
             Steps(4, Go(i, traced)))
  {
    hide Run, Steps, Tell, Finish, NotesAfter;
    GoOn(s, i, hs, Handler(snapshot, Stamping), traced, 6);
    var s1 := s.(handlers := hs[i := Handler(snapshot, Noting(false))]);
    GoOn(s1, i, hs, Handler(snapshot, Noting(false)), traced, 5);
  }

  lemma UpToDrawing(s: State, hs: seq<Handler>, i: nat, snapshot: bool, traced: bool)
    requires i < |hs| && s.handlers == hs[i := Handler(snapshot, Stamping)] && !s.switches.crashed
    ensures Run(s, Steps(6, Go(i, traced)))
      == Run(s.(output := Output(s.output.draws + 1, s.output.lastReport, s.output.reports,
                                 NotesAfter(s.output, snapshot, ApplicationState in s.switches.enabled)),
                handlers := hs[i := Handler(snapshot, Storing(s.output.draws))]),
             Steps(3, Go(i, traced)))
  {
    hide Run, Steps, Tell, Finish, NotesAfter;
    UpToNaming(s, hs, i, snapshot, traced);
    var notes := NotesAfter(s.output, snapshot, ApplicationState in s.switches.enabled);
    var t := s.(output := s.output.(notes := notes), handlers := hs[i := Handler(snapshot, Naming(false))]);
    GoOn(t, i, hs, Handler(snapshot, Naming(false)), traced, 4);
  }

  lemma FromStoring(s: State, hs: seq<Handler>, i: nat, snapshot: bool, id: nat, traced: bool)
    requires i < |hs| && s.handlers == hs[i := Handler(snapshot, Storing(id))]
    ensures Run(s, Steps(3, Go(i, traced)))
      == State(Finish(s.switches, snapshot, traced),
               Output(s.output.draws, Some(id), s.output.reports + [Standard(id)], s.output.notes),
               s.core, hs[i := Handler(snapshot, Done)])
  {
    hide Run, Steps, Finish;
    GoOn(s, i, hs, Handler(snapshot, Storing(id)), traced, 3);
    var s1 := s.(output := s.output.(lastReport := Some(id)), handlers := hs[i := Handler(snapshot, Writing(id))]);
    GoOn(s1, i, hs, Handler(snapshot, Writing(id)), traced, 2);
    var s2 := s1.(output := s1.output.(reports := s.output.reports + [Standard(id)]), handlers := hs[i := Handler(snapshot, Finishing)]);
    GoOn(s2, i, hs, Handler(snapshot, Finishing), traced, 1);
    NoSteps(State(Finish(s.switches, snapshot, traced), s2.output, s.core, hs[i := Handler(snapshot, Done)]), Go(i, traced));
  }

  /** A handler that has told, if it had to, runs on alone to its end. */
  lemma RunsAlone(s: State, i: nat, snapshot: bool, traced: bool)
    requires i < |s.handlers| && s.handlers[i] == Handler(snapshot, Stamping) && !s.switches.crashed
    ensures Run(s, Steps(6, Go(i, traced)))
      == State(Finish(s.switches, snapshot, traced),
               Output(s.output.draws + 1, Some(s.output.draws), s.output.reports + [Standard(s.output.draws)],
                      NotesAfter(s.output, snapshot, ApplicationState in s.switches.enabled)),
               s.core, s.handlers[i := Handler(snapshot, Done)])
  {
    hide Run, Steps, Finish, NotesAfter;
    SameHandler(s.handlers, i);
    UpToDrawing(s, s.handlers, i, snapshot, traced);
    var t := s.(output := Output(s.output.draws + 1, s.output.lastReport, s.output.reports,
                                 NotesAfter(s.output, snapshot, ApplicationState in s.switches.enabled)),
                handlers := s.handlers[i := Handler(snapshot, Storing(s.output.draws))]);
    FromStoring(t, s.handlers, i, snapshot, s.output.draws, traced);
  }

  lemma NoSteps(s: State, e: Event)
    ensures Run(s, Steps(0, e)) == s
  {
  }

  /** In peace a handler that tells of a fatal exception only sets flags. */
  lemma Told(s: State, m: Monitor, flag: bool, traced: bool)
    requires m in s.switches.enabled && !s.switches.handling && !s.switches.crashed
    requires Trapped(m, flag).Some? && Trapped(m, flag).value.place.Telling?
    ensures var w, h := s.switches, Trapped(m, flag).value;
      Run(s, [Trap(m, flag), Go(|s.handlers|, traced)])
        == State(Switches(w.enabled, w.active, true, false, w.requiresAsyncSafety || h.place.asyncSafe), s.output, s.core,
                 s.handlers + [Handler(h.snapshot, Stamping)])
  {
    var i, h := |s.handlers|, Trapped(m, flag).value;
    RunTwo(s, Trap(m, flag), Go(i, traced));
    hide Run, Trapped, SetActive;
    assert (s.handlers + [h])[i := h.(place := Stamping)] == s.handlers + [Handler(h.snapshot, Stamping)];
  }

  /** A snapshot taken in peace leaves a report and no other trace. */
  lemma {:induction false} SnapshotLeavesNoTrace(s: State, traced: bool)
    requires NSException in s.switches.enabled && !s.switches.handling && !s.switches.crashed
    ensures var i, id := |s.handlers|, s.output.draws;
      Run(s, [Trap(NSException, true), Go(i, traced)] + Steps(6, Go(i, traced)))
        == s.(output := Output(id + 1, Some(id), s.output.reports + [Standard(id)], s.output.notes),
              handlers := s.handlers + [Handler(true, Done)])
  {
    hide Run, Steps, Step;
    var i := |s.handlers|;
    Told(s, NSException, true, traced);
    var t := Run(s, [Trap(NSException, true), Go(i, traced)]);
    RunConcat(s, [Trap(NSException, true), Go(i, traced)], Steps(6, Go(i, traced)));
    RunsAlone(t, i, true, traced);
    assert t.handlers[i := Handler(true, Done)] == s.handlers + [Handler(true, Done)];
  }

  /** A user exception that is not to end the program is noted as a crash all the same; the monitors stay on. */
  lemma {:induction false} UserExceptionNotedAsCrash(s: State, traced: bool)
    requires {UserReported, ApplicationState} <= s.switches.enabled && !s.switches.handling && !s.switches.crashed
    ensures var i, id := |s.handlers|, s.output.draws;
      Run(s, [Trap(UserReported, false)] + Steps(6, Go(i, traced)))
        == s.(output := Output(id + 1, Some(id), s.output.reports + [Standard(id)], s.output.notes + 1),
              handlers := s.handlers + [Handler(false, Done)])
  {
    hide Run, Steps, Switch, Put;
    var i := |s.handlers|;
    RunTwo(s, Trap(UserReported, false), Go(i, traced));
    var t := Step(s, Trap(UserReported, false));
    assert t == s.(handlers := s.handlers + [Handler(false, Stamping)]);
    hide Step;
    RunConcat(s, [Trap(UserReported, false)], Steps(6, Go(i, traced)));
    RunsAlone(t, i, false, traced);
    assert t.handlers[i := Handler(false, Done)] == s.handlers + [Handler(false, Done)];
  }

  /** A fatal exception is noted once and reported once, and all monitors but the zombie monitor are off after it. */
  lemma FatalUninstalls(s: State, m: Monitor, flag: bool, traced: bool)
    requires m in s.switches.enabled && !s.switches.handling && !s.switches.crashed
    requires Trapped(m, flag).Some? && Trapped(m, flag).value.place.Telling? && !Trapped(m, flag).value.snapshot
    ensures var i, id := |s.handlers|, s.output.draws;
      var t := Run(s, [Trap(m, flag), Go(i, traced)] + Steps(6, Go(i, traced)));
      && t.switches.enabled == t.switches.active == s.switches.enabled * {Zombie}
      && t.switches.handling && !t.switches.crashed
      && t.switches.requiresAsyncSafety == (s.switches.requiresAsyncSafety || m == MachException)
      && t.output.reports == s.output.reports + [Standard(id)]
      && t.output.notes == s.output.notes + (if ApplicationState in s.switches.enabled then 1 else 0)
  {
    hide Run, Steps, Step;
    var i := |s.handlers|;
    Told(s, m, flag, traced);
    var t := Run(s, [Trap(m, flag), Go(i, traced)]);
    RunConcat(s, [Trap(m, flag), Go(i, traced)], Steps(6, Go(i, traced)));
    RunsAlone(t, i, false, traced);
  }

  // ----------------------------------------------------------------------------------- monitors that are asked for

  /** Asked for after the installation, monitors change at once, as far as debugger and async-safety allow it. */
  lemma ChangesToAsked(s: State, monitors: set<Monitor>, traced: bool, m: Monitor)
    requires s.core.installed
    ensures m in Step(s, SetMonitoring(monitors, traced)).switches.enabled
      <==> || (m == Zombie && Zombie in s.switches.enabled)
           || (m in monitors && !(traced && m in {MachException, Signal, CPPException, NSException})
               && !(s.switches.requiresAsyncSafety && m !in {MachException, Signal}))
  {
    MaskedExactly(s.switches, monitors, traced, m);
    hide Masked;
  }

  ghost predicate NotInstalling(es: seq<Event>) {
    forall i | 0 <= i < |es| :: !es[i].Install?
  }

  /** The monitors last asked for in a run. */
  function Asked(default: set<Monitor>, es: seq<Event>): set<Monitor> {
    if es == [] then default
    else if es[|es| - 1].SetMonitoring? then es[|es| - 1].monitors
    else Asked(default, es[..|es| - 1])
  }

  lemma {:induction false} AskedOnly(es: seq<Event>)
    requires NotInstalling(es)
    ensures var s := Run(INITIAL, es);
      s.switches == INITIAL.switches && s.handlers == [] && !s.core.installed && s.core.monitoring == Asked(INITIAL.core.monitoring, es)
    decreases |es|
  {
    if es != [] {
      var n := |es| - 1;
      AskedOnly(es[..n]);
      RunConcat(INITIAL, es[..n], [es[n]]);
      assert es[..n] + [es[n]] == es && [es[n]][1..] == [];
      assert Run(Run(INITIAL, es[..n]), [es[n]]) == Step(Run(INITIAL, es[..n]), es[n]);
    }
  }

  /** An installation switches on the monitors last asked for before it, but for the unsafe ones in a debugger. */
  lemma InstallsAsked(es: seq<Event>, traced: bool, m: Monitor)
    requires NotInstalling(es)
    ensures m in Run(INITIAL, es + [Install(traced)]).switches.enabled
      <==> m in Asked(ALL - {MainThreadDeadlock, Zombie}, es)
           && !(traced && m in {MachException, Signal, CPPException, NSException})
  {
    AskedOnly(es);
    var s := Run(INITIAL, es);
    RunConcat(INITIAL, es, [Install(traced)]);
    assert [Install(traced)][1..] == [];
    assert Run(s, [Install(traced)]) == Step(s, Install(traced));
    MaskedExactly(s.switches, s.core.monitoring, traced, m);
    assert ALL - {MainThreadDeadlock, Zombie} == INITIAL.core.monitoring;
    hide Run, Masked, Asked;
  }

  // ------------------------------------------------------------------------- notifications before installation

  /** The last notification before the installation and all those after it. */
  function Due(installed: bool, last: Option<Notification>, es: seq<Event>): seq<Notification>
    decreases |es|
  {
    if es == [] then []
    else
      match es[0]
      case Notify(n) => (if installed then [n] else []) + Due(installed, Some(n), es[1..])
      case Install(_) => (if !installed && last.Some? then [last.value] else []) + Due(true, last, es[1..])
      case _ => Due(installed, last, es[1..])
  }

  lemma {:induction false} NotificationsPassedOn(s: State, es: seq<Event>)
    ensures Run(s, es).core.passed == s.core.passed + Due(s.core.installed, s.core.lastNotification, es)
    decreases |es|
  {
    hide Switch, Put, Next, SetActive, Trapped;
    if es != [] {
      NotificationsPassedOn(Step(s, es[0]), es[1..]);
    }
  }
}
