/**
 The installation of the crash reporter, as the application state sees it: of the notifications before it only the
 last one is passed on, and at the time of the installation.
 */
module Installation {
  import opened Basics
  import M = Monitors
  import opened AppState

  /** Where an event comes from a notification, which one. */
  function Named(e: Event): Option<M.Notification> {
    match e
    case Active(_) => Some(M.BecameActive)
    case Resign(_) => Some(M.ResignedActive)
    case EnterBackground(_) => Some(M.EnteredBackground)
    case EnterForeground(_) => Some(M.EnteringForeground)
    case Terminate(_, _) => Some(M.Terminating)
    case _ => None
  }

  /** The notifications among events. */
  function Told(es: seq<Event>): seq<M.Notification> {
    if es == [] then []
    else
      var last := Named(es[|es| - 1]);
      Told(es[..|es| - 1]) + if last.Some? then [last.value] else []
  }

  /** The same event at another time. */
  function Replayed(e: Event, t: real): Event {
    match e
    case Active(_) => Active(t)
    case Resign(_) => Resign(t)
    case EnterBackground(_) => EnterBackground(t)
    case EnterForeground(_) => EnterForeground(t)
    case Update(_, _) => Update(t, t)
    case Crash(_, _) => Crash(t, t)
    case Terminate(_, _) => Terminate(t, t)
  }

  // -------------------------------------------------------------------------------------- which notifications

  function Notified(ns: seq<M.Notification>): seq<M.Event> {
    seq(|ns|, i requires 0 <= i < |ns| => M.Notify(ns[i]))
  }

  lemma {:induction false} DueBefore(last: Option<M.Notification>, ns: seq<M.Notification>, es: seq<M.Event>)
    ensures M.Due(false, last, Notified(ns) + es) == M.Due(false, if ns == [] then last else Some(ns[|ns| - 1]), es)
    decreases |ns|
  {
    if ns == [] {
      assert Notified(ns) + es == es;
    } else {
      assert (Notified(ns) + es)[1..] == Notified(ns[1..]) + es;
      DueBefore(Some(ns[0]), ns[1..], es);
    }
  }

  lemma {:induction false} DueAfter(last: Option<M.Notification>, ns: seq<M.Notification>)
    ensures M.Due(true, last, Notified(ns)) == ns
    decreases |ns|
  {
    if ns != [] {
      assert Notified(ns)[1..] == Notified(ns[1..]);
      DueAfter(Some(ns[0]), ns[1..]);
    }
  }

  lemma {:induction false} StaysEnabled(s: M.State, ns: seq<M.Notification>)
    ensures M.Run(s, Notified(ns)).switches == s.switches
    decreases |ns|
  {
    if ns != [] {
      assert Notified(ns)[1..] == Notified(ns[1..]);
      StaysEnabled(M.Step(s, Notified(ns)[0]), ns[1..]);
    }
  }

  /** An installation among notifications passes the last one before it on and all after it, to a monitor that is on. */
  lemma PassedAround(before: seq<M.Notification>, traced: bool, after: seq<M.Notification>)
    ensures var s := M.Run(M.INITIAL, Notified(before) + ([M.Install(traced)] + Notified(after)));
      && s.core.passed == (if before == [] then [] else [before[|before| - 1]]) + after
      && M.ApplicationState in s.switches.enabled
  {
    var b, i, a := Notified(before), M.Install(traced), Notified(after);
    M.NotificationsPassedOn(M.INITIAL, b + ([i] + a));
    DueBefore(None, before, [i] + a);
    assert ([i] + a)[1..] == a;
    var last := if before == [] then None else Some(before[|before| - 1]);
    DueAfter(last, after);
    M.RunConcat(M.INITIAL, b, [i] + a);
    StaysEnabled(M.INITIAL, before);
    var s := M.Run(M.INITIAL, b);
    NotInstalled(M.INITIAL, before);
    assert M.Run(s, [i] + a) == M.Run(M.Step(s, i), a);
    StaysEnabled(M.Step(s, i), after);
    M.MaskedExactly(s.switches, s.core.monitoring, traced, M.ApplicationState);
  }

  lemma {:induction false} NotInstalled(s: M.State, ns: seq<M.Notification>)
    ensures var t := M.Run(s, Notified(ns)).core; t.installed == s.core.installed && t.monitoring == s.core.monitoring
    decreases |ns|
  {
    if ns != [] {
      assert Notified(ns)[1..] == Notified(ns[1..]);
      NotInstalled(M.Step(s, Notified(ns)[0]), ns[1..]);
    }
  }

  // --------------------------------------------------------------------------------------------- parts of runs

  lemma {:induction false} RunConcat(w: World, a: seq<Event>, b: seq<Event>)
    ensures Run(w, a + b) == Run(Run(w, a), b)
    decreases |b|
  {
    hide Step;
    if b == [] {
      assert a + b == a;
    } else {
      assert (a + b)[..|a + b| - 1] == a + b[..|b| - 1];
      RunConcat(w, a, b[..|b| - 1]);
    }
  }

  lemma {:induction false} PhaseConcat(p0: Phase, a: seq<Event>, b: seq<Event>)
    ensures PhaseAfter(p0, a + b) == if PhaseAfter(p0, a).Some? then PhaseAfter(PhaseAfter(p0, a).value, b) else None
    decreases |b|
  {
    hide Next;
    if b == [] {
      assert a + b == a;
    } else {
      assert (a + b)[..|a + b| - 1] == a + b[..|b| - 1];
      PhaseConcat(p0, a, b[..|b| - 1]);
    }
  }

  /** The time in a phase adds up over the parts of a run, and so does the loss. */
  lemma {:induction false} TimeConcat(p0: Phase, phase: Phase, start: real, a: seq<Event>, b: seq<Event>)
    requires PhaseAfter(p0, a + b).Some? && PhaseAfter(p0, a).Some?
    ensures var p := PhaseAfter(p0, a).value;
      && TimeIn(p0, phase, start, a + b) == TimeIn(p0, phase, start, a) + TimeIn(p, phase, Clock(start, a), b)
      && Lost(p0, phase, a + b) == Lost(p0, phase, a) + Lost(p, phase, b)
    decreases |b|
  {
    var p := PhaseAfter(p0, a).value;
    if b == [] {
      assert a + b == a;
    } else {
      var n := |b| - 1;
      assert (a + b)[..|a + b| - 1] == a + b[..n] && (a + b)[|a + b| - 1] == b[n];
      PhaseConcat(p0, a, b);
      PhaseConcat(p0, a, b[..n]);
      TimeConcat(p0, phase, start, a, b[..n]);
      TimeStep(p0, phase, start, a + b);
      TimeStep(p, phase, Clock(start, a), b);
      assert Clock(start, a + b[..n]) == Clock(Clock(start, a), b[..n]);
      hide TimeIn, PhaseAfter, Clock;
    }
  }

  // --------------------------------------------------------------------------------------------- what is lost

  /** The replayed notification, at the end of an installation at `t` of a process loaded at `t0`. */
  lemma ReplayCounts(file: Option<File>, t0: real, e: Event, t: real)
    ensures var s := Step(Begin(file, t0), Replayed(e, t)).state;
      && s.activeDurationSinceLaunch == (if e.Resign? || IsReading(e) then t - t0 else 0.0)
      && s.backgroundDurationSinceLaunch == (if e.EnterForeground? then t - t0 else 0.0)
      && s.sessionsSinceLaunch == (if e.EnterForeground? then 2 else 1)
      && (e.Active? ==> InPhase(s, IsActive, t))
      && (e.Resign? ==> InPhase(s, IsInactive, t))
      && (e.EnterBackground? ==> Launching(s, IsBackground, t))
      && (e.EnterForeground? ==> Launching(s, IsInactive, t0))
  {
  }

  /** What the application state sees of the notifications before an installation at `t`, and of what comes after. */
  function Seen(before: seq<Event>, t: real, after: seq<Event>): seq<Event>
    requires before != []
  {
    [Replayed(before[|before| - 1], t)] + after
  }

  /** What happened, with a look at the clock at the installation. */
  function Happened(before: seq<Event>, t: real, after: seq<Event>): seq<Event> {
    UpTo(before, t) + after
  }

  function UpTo(before: seq<Event>, t: real): seq<Event> {
    before + [Update(t, t)]
  }

  /** Of what was seen, KSCrashC passed the notifications on. */
  lemma SeenIsPassedOn(before: seq<Event>, t: real, after: seq<Event>, traced: bool)
    requires before != [] && Named(before[|before| - 1]).Some?
    ensures M.Run(M.INITIAL, Notified(Told(before)) + ([M.Install(traced)] + Notified(Told(after)))).core.passed
         == Told(Seen(before, t, after))
  {
    var last := before[|before| - 1];
    PassedAround(Told(before), traced, Told(after));
    hide M.Run;
    assert Told(Seen(before, t, [])) == [Named(last).value] by {
      assert Seen(before, t, []) == [Replayed(last, t)] && [Replayed(last, t)][..0] == [];
    }
    ToldConcat([Replayed(last, t)], after);
    assert [Replayed(last, t)] == Seen(before, t, []);
  }

  lemma {:induction false} ToldConcat(a: seq<Event>, b: seq<Event>)
    ensures Told(a + b) == Told(a) + Told(b)
    decreases |b|
  {
    if b == [] {
      assert a + b == a;
    } else {
      assert (a + b)[..|a + b| - 1] == a + b[..|b| - 1];
      ToldConcat(a, b[..|b| - 1]);
    }
  }

  /** The transition time behind the replayed notification. */
  function Restart(e: Event, t0: real, t: real): real {
    if e.EnterForeground? then t0 else t
  }

  predicate BeforeFirstActive(e: Event) {
    e.EnterBackground? || e.EnterForeground?
  }

  /**
   The two durations after an installation. They lack the time spent active and in the background before it; a
   replayed resignation counts all the time since loading as active instead, and a replayed return to the foreground
   as background.
   */
  lemma LossAtInstallation(file: Option<File>, t0: real, before: seq<Event>, t: real, after: seq<Event>)
    requires before != [] && !IsReading(before[|before| - 1])
    requires PhaseAfter(IsInactive, Happened(before, t, after)).Some? && PhaseAfter(IsInactive, before).Some?
    ensures var s, last := Run(Begin(file, t0), Seen(before, t, after)).state, before[|before| - 1];
      var p := PhaseAfter(IsInactive, before).value;
      && s.activeDurationSinceLaunch
         == TimeIn(IsInactive, IsActive, t0, Happened(before, t, after)) - Lost(p, IsActive, after)
            - TimeIn(IsInactive, IsActive, t0, UpTo(before, t))
            + (if last.Resign? then t - t0 else 0.0)
            + (if BeforeFirstActive(last) then Excess(Restart(last, t0, t), after) else 0.0)
      && s.backgroundDurationSinceLaunch
         == TimeIn(IsInactive, IsBackground, t0, Happened(before, t, after)) - Lost(p, IsBackground, after)
            - TimeIn(IsInactive, IsBackground, t0, UpTo(before, t))
            + (if last.EnterForeground? then t - t0 else 0.0)
            - (if BeforeFirstActive(last) then Misplaced(p, Restart(last, t0, t), after) else 0.0)
  {
    var last, p := before[|before| - 1], PhaseAfter(IsInactive, before).value;
    var w := Step(Begin(file, t0), Replayed(last, t));
    OneStep(Begin(file, t0), Replayed(last, t));
    RunConcat(Begin(file, t0), [Replayed(last, t)], after);
    ReplayCounts(file, t0, last, t);
    PhaseAtInstallation(before, t);
    PhaseConcat(IsInactive, UpTo(before, t), after);
    TimeConcat(IsInactive, IsActive, t0, UpTo(before, t), after);
    TimeConcat(IsInactive, IsBackground, t0, UpTo(before, t), after);
    assert Clock(t0, UpTo(before, t)) == t;
    hide Run, Step, Begin, TimeIn, Lost, Excess, Misplaced, PhaseAfter, InPhase, Launching, Replayed, Clock;
    if BeforeFirstActive(last) {
      DurationsWhileLaunching(w, p, Restart(last, t0, t), t, after);
    } else {
      DurationsAreExact(w, p, t, after);
    }
  }

  lemma OneStep(w: World, e: Event)
    ensures Run(w, [e]) == Step(w, e)
  {
    assert [e][..0] == [] && Run(w, []) == w;
  }

  /** The last notification tells the phase. */
  lemma PhaseAtInstallation(before: seq<Event>, t: real)
    requires before != [] && !IsReading(before[|before| - 1]) && PhaseAfter(IsInactive, before).Some?
    ensures PhaseAfter(IsInactive, UpTo(before, t)) == PhaseAfter(IsInactive, before)
    ensures var last := before[|before| - 1];
      PhaseAfter(IsInactive, before).value
        == if last.Active? then IsActive else if last.EnterBackground? then IsBackground else IsInactive
  {
    assert UpTo(before, t)[..|before|] == before;
  }

  lemma {:induction false} EnteredNotAhead(start: real, es: seq<Event>)
    requires Ordered(start, es)
    ensures Entered(start, es) <= Clock(start, es)
    decreases |es|
  {
    if es != [] {
      EnteredNotAhead(start, es[..|es| - 1]);
    }
  }

  lemma {:induction false} StaysNotNegative(p0: Phase, phase: Phase, start: real, es: seq<Event>)
    requires Ordered(start, es)
    ensures Stays(p0, phase, start, es) >= 0.0
    decreases |es|
  {
    if es != [] {
      StaysNotNegative(p0, phase, start, es[..|es| - 1]);
      EnteredNotAhead(start, es[..|es| - 1]);
      hide PhaseAfter;
    }
  }

  /** The time in the phase of the last notification, up to the installation. */
  lemma TimeUpTo(phase: Phase, t0: real, before: seq<Event>, t: real)
    requires before != [] && !IsReading(before[|before| - 1]) && PhaseAfter(IsInactive, before) == Some(phase)
    ensures TimeIn(IsInactive, phase, t0, UpTo(before, t)) == Stays(IsInactive, phase, t0, before) + t - before[|before| - 1].first
  {
    var es := UpTo(before, t);
    assert |es| - 1 == |before| && es[..|es| - 1] == before;
    assert Stays(IsInactive, phase, t0, es) == Stays(IsInactive, phase, t0, before) && Entered(t0, es) == Entered(t0, before);
  }

  /**
   So in an active application the active time is the one counted, less what is lost inside readings, exactly if the
   installation takes no time after the didBecomeActive and the application was never active before.
   */
  lemma ActiveTimeExactly(file: Option<File>, t0: real, before: seq<Event>, t: real, after: seq<Event>)
    requires before != [] && before[|before| - 1].Active? && PhaseAfter(IsInactive, before).Some?
    requires PhaseAfter(IsInactive, Happened(before, t, after)).Some? && Ordered(t0, UpTo(before, t))
    ensures Run(Begin(file, t0), Seen(before, t, after)).state.activeDurationSinceLaunch
              == TimeIn(IsInactive, IsActive, t0, Happened(before, t, after)) - Lost(IsActive, IsActive, after)
       <==> t == before[|before| - 1].first && Stays(IsInactive, IsActive, t0, before) == 0.0
  {
    LossAtInstallation(file, t0, before, t, after);
    PhaseAtInstallation(before, t);
    TimeUpTo(IsActive, t0, before, t);
    assert UpTo(before, t)[..|before|] == before;
    hide Run, TimeIn, Lost, PhaseAfter, Stays;
    StaysNotNegative(IsInactive, IsActive, t0, before);
  }
}
