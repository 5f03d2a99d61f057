/** The globals of KSCrashMonitor and KSCrashC, and the functions that change them, run without interruption. */
module CrashMonitors {
  import opened Basics
  import opened Monitors

  const TABLE := [MachException, Signal, NSException, MainThreadDeadlock, Zombie, CPPException, UserReported, System, ApplicationState]

  lemma InTable(m: Monitor)
    ensures m in TABLE
  {
  }

  /** A handler that sees the crash flag writes over the last report, and switches nothing. */
  lemma RecrashesAlone(s: State, snapshot: bool, traced: bool)
    requires s.handlers == [Handler(snapshot, Stamping)] && s.switches.crashed
    ensures var noting := ApplicationState in s.switches.enabled;
      Run(s, Steps(6, Go(0, traced)))
        == State(Finish(s.switches, snapshot, traced),
                 s.output.(reports := s.output.reports + [Recrash(s.output.lastReport)], notes := NotesAfter(s.output, snapshot, noting)),
                 s.core, [Handler(snapshot, Done)])
  {
    var hs := s.handlers;
    var n := NotesAfter(s.output, snapshot, ApplicationState in s.switches.enabled);
    hide Run, Steps, Finish, NotesAfter;
    Only(hs, Handler(snapshot, Stamping));
    GoOn(s, 0, hs, Handler(snapshot, Stamping), traced, 6);
    Only(hs, Handler(snapshot, Noting(true)));
    GoOn(s.(handlers := [Handler(snapshot, Noting(true))]), 0, hs, Handler(snapshot, Noting(true)), traced, 5);
    var s2 := s.(output := s.output.(notes := n), handlers := [Handler(snapshot, Naming(true))]);
    Only(hs, Handler(snapshot, Naming(true)));
    GoOn(s2, 0, hs, Handler(snapshot, Naming(true)), traced, 4);
    var s3 := s2.(output := s2.output.(reports := s.output.reports + [Recrash(s.output.lastReport)]), handlers := [Handler(snapshot, Finishing)]);
    Only(hs, Handler(snapshot, Finishing));
    EndsAlone(s3, snapshot, traced);
  }

  lemma EndsAlone(s: State, snapshot: bool, traced: bool)
    requires s.handlers == [Handler(snapshot, Finishing)]
    ensures Run(s, Steps(3, Go(0, traced)))
      == State(Finish(s.switches, snapshot, traced), s.output, s.core, [Handler(snapshot, Done)])
  {
    var hs := s.handlers;
    var end := State(Finish(s.switches, snapshot, traced), s.output, s.core, [Handler(snapshot, Done)]);
    hide Run, Steps, Finish;
    Only(hs, Handler(snapshot, Finishing));
    GoOn(s, 0, hs, Handler(snapshot, Finishing), traced, 3);
    Only(hs, Handler(snapshot, Done));
    GoOn(end, 0, hs, Handler(snapshot, Done), traced, 2);
    GoOn(end, 0, hs, Handler(snapshot, Done), traced, 1);
    NoSteps(end, Go(0, traced));
  }

  lemma Only(hs: seq<Handler>, h: Handler)
    requires |hs| == 1
    ensures hs[0 := h] == [h]
  {
  }

  /** `enabled` holds the monitors whose own flag is set. */
  class CrashMonitors {
    var enabled: set<Monitor>
    var activeMonitors: set<Monitor>
    var handlingFatalException: bool
    var crashedDuringExceptionHandling: bool
    var requiresAsyncSafety: bool
    var output: Output
    var installed: bool
    var monitoring: set<Monitor>
    var lastNotification: Option<Notification>
    var passed: seq<Notification>

    ghost function Flags(): Switches
      reads this
    {
      Switches(enabled, activeMonitors, handlingFatalException, crashedDuringExceptionHandling, requiresAsyncSafety)
    }

    ghost function Now(handlers: seq<Handler>): State
      reads this
    {
      State(Flags(), output, Core(installed, monitoring, lastNotification, passed), handlers)
    }

    constructor ()
      ensures Now([]) == INITIAL
    {
      enabled, activeMonitors := {}, {};
      handlingFatalException, crashedDuringExceptionHandling, requiresAsyncSafety := false, false, false;
      output := Output(0, None, [], 0);
      installed, monitoring, lastNotification, passed := false, PRODUCTION_SAFE_MINIMAL, None, [];
    }

    /** `setEnabled` of one monitor; uninstalling the zombie monitor does not work. */
    method SetMonitorEnabled(m: Monitor, isEnabled: bool)
      modifies `enabled
      ensures enabled == if isEnabled || (m == Zombie && Zombie in old(enabled)) then old(enabled) + {m} else old(enabled) - {m}
    {
      if isEnabled != (m in enabled) {
        enabled := if isEnabled then enabled + {m} else enabled - {m};
        if m == Zombie && !isEnabled {
          enabled := enabled + {m};
        }
      }
    }

    /** The first half of `kscm_setActiveMonitors`. */
    method MaskUnsafe(monitorTypes: set<Monitor>, traced: bool) returns (types: set<Monitor>)
      ensures types == Masked(Flags(), monitorTypes, traced)
    {
      forall m: Monitor ensures m in ALL { InTable(m); }
      types := monitorTypes;
      if traced && types * DEBUGGER_UNSAFE != {} {
        types := types * (ALL - DEBUGGER_UNSAFE);
      }
      if requiresAsyncSafety && types * (ALL - ASYNC_SAFE) != {} {
        types := types * ASYNC_SAFE;
      }
    }

    method SetActiveMonitors(monitorTypes: set<Monitor>, traced: bool)
      modifies `enabled, `activeMonitors
      ensures Flags() == SetActive(old(Flags()), monitorTypes, traced)
    {
      hide Masked;
      var types := MaskUnsafe(monitorTypes, traced);
      var active: set<Monitor> := {};
      for i := 0 to |TABLE|
        invariant forall m | m in TABLE[..i] :: m in enabled <==> m in types || (m == Zombie && Zombie in old(enabled))
        invariant forall m | m !in TABLE[..i] :: m in enabled <==> m in old(enabled)
        invariant forall m :: m in active <==> m in TABLE[..i] && m in enabled
      {
        var m := TABLE[i];
        assert TABLE[..i + 1] == TABLE[..i] + [m];
        SetMonitorEnabled(m, m in types);
        if m in enabled {
          active := active + {m};
        } else {
          active := active - {m};
        }
      }
      activeMonitors := active;
      forall m: Monitor ensures m in TABLE[..|TABLE|] {
        InTable(m);
        assert TABLE[..|TABLE|] == TABLE;
      }
    }

    method NotifyFatalExceptionCaptured(isAsyncSafeEnvironment: bool, traced: bool) returns (crashed: bool)
      modifies `enabled, `activeMonitors, `handlingFatalException, `crashedDuringExceptionHandling, `requiresAsyncSafety
      ensures Flags() == Tell(old(Flags()), isAsyncSafeEnvironment, traced) && crashed == crashedDuringExceptionHandling
    {
      requiresAsyncSafety := requiresAsyncSafety || isAsyncSafeEnvironment;
      if handlingFatalException {
        crashedDuringExceptionHandling := true;
      }
      handlingFatalException := true;
      if crashedDuringExceptionHandling {
        SetActiveMonitors({}, traced);
      }
      return crashedDuringExceptionHandling;
    }

    /** `onCrash`; a new report file, or the last one again. */
    method OnCrash(snapshot: bool, crashedDuringCrashHandling: bool)
      modifies `output
      ensures var o, id := old(output), old(output).draws;
        && output.notes == NotesAfter(o, snapshot, ApplicationState in enabled)
        && if crashedDuringCrashHandling
           then output.draws == id && output.lastReport == o.lastReport && output.reports == o.reports + [Recrash(o.lastReport)]
           else output.draws == id + 1 && output.lastReport == Some(id) && output.reports == o.reports + [Standard(id)]
    {
      if !snapshot && ApplicationState in enabled {
        output := output.(notes := output.notes + 1);
      }
      if crashedDuringCrashHandling {
        output := output.(reports := output.reports + [Recrash(output.lastReport)]);
      } else {
        var reportID := output.draws;
        output := output.(draws := output.draws + 1);
        output := output.(lastReport := Some(reportID));
        output := output.(reports := output.reports + [Standard(reportID)]);
      }
    }

    /** `kscm_handleException`: the six steps of a handler after it has told. */
    method HandleException(snapshot: bool, traced: bool)
      modifies `enabled, `activeMonitors, `handlingFatalException, `output
      ensures Now([Handler(snapshot, Done)]) == Run(old(Now([Handler(snapshot, Stamping)])), Steps(6, Go(0, traced)))
    {
      ghost var was := Now([Handler(snapshot, Stamping)]);
      if crashedDuringExceptionHandling {
        RecrashesAlone(was, snapshot, traced);
      } else {
        RunsAlone(was, 0, snapshot, traced);
        Only(was.handlers, Handler(snapshot, Done));
      }
      hide Run, Steps, SetActive;
      var crashedDuringCrashHandling := crashedDuringExceptionHandling;
      OnCrash(snapshot, crashedDuringCrashHandling);
      if snapshot {
        handlingFatalException := false;
      } else {
        if handlingFatalException && !crashedDuringExceptionHandling {
          SetActiveMonitors({}, traced);
        }
      }
    }

    /** `kscrash_setMonitoring` */
    method SetMonitoring(monitors: set<Monitor>, traced: bool) returns (r: set<Monitor>)
      modifies `enabled, `activeMonitors, `monitoring
      ensures forall hs :: Now(hs) == Step(old(Now(hs)), Event.SetMonitoring(monitors, traced))
      ensures r == if installed then activeMonitors else monitors
    {
      monitoring := monitors;
      if installed {
        SetActiveMonitors(monitors, traced);
        return activeMonitors;
      }
      return monitoring;
    }

    /** `kscrash_notifyAppActive` and its kin */
    method NotifyApp(notification: Notification)
      modifies `lastNotification, `passed
      ensures forall hs :: Now(hs) == Step(old(Now(hs)), Notify(notification))
    {
      if installed {
        passed := passed + [notification];
      } else {
        assert passed + [] == passed;
      }
      lastNotification := Some(notification);
    }

    /** `kscrash_install` */
    method Install(traced: bool) returns (r: set<Monitor>)
      modifies `enabled, `activeMonitors, `monitoring, `installed, `lastNotification, `passed
      ensures forall hs :: Now(hs) == Step(old(Now(hs)), Event.Install(traced))
      ensures r == if old(installed) then monitoring else activeMonitors
    {
      if installed {
        return monitoring;
      }
      installed := true;
      r := SetMonitoring(monitoring, traced);
      if lastNotification.Some? {
        NotifyApp(lastNotification.value);
      } else {
        assert passed + [] == passed;
      }
    }
  }
}
