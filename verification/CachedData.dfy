/**
 KSCrashCachedData: one thread keeps lists of all threads and their names up to date, step by step and
 without a lock, while crash handlers read them; a counter asks it to hold still.
 */
module CachedData {
  import opened Basics

  /** A C array on the heap, or no array yet. */
  datatype Pointer<+T> = Null | To(cells: seq<T>)

  function Cells<T>(p: Pointer<T>): seq<T> {
    if p.Null? then [] else p.cells
  }

  /** A duplicated name, known by a number of its own. */
  type Name = Option<nat>

  /** What one update learns of one thread. */
  datatype Row = Row(thread: nat, pthread: nat, name: Name, queue: Name)

  /** The statement the updater is about to execute. */
  datatype Statement =
    | Checking | Counting | Asking | Filling | Shrinking
    | SwappingThreads | SwappingPThreads | SwappingNames | SwappingQueues | Growing
    | FreeingNames | FreeingQueues

  /** The four published arrays; while updating, a second four are the updater's own. */
  datatype Lists = Lists(threads: Pointer<nat>, pthreads: Pointer<nat>, names: Pointer<Name>, queues: Pointer<Name>)

  /**
   `count`, `lists` and `semaphore` are the globals; `own`, `oldCount`, `newCount` and `i` the updater's
   variables. `restores` counts calls of unfreeze that went below zero and have yet to undo it. `shown` and
   `found` record what the last update and the present one learned, `names` and `freed` the names handed
   out and given back.
   */
  datatype State = State(
    count: nat, lists: Lists, semaphore: int, restores: nat,
    at: Statement, own: Lists, oldCount: nat, newCount: nat, i: nat,
    shown: seq<Row>, found: seq<Row>, names: nat, freed: seq<nat>)

  /** What the system answers to the updater's next question: the threads, if it can; and one thread's data. */
  datatype Answer = Answer(threads: Option<nat>, thread: nat, pthread: nat, hasName: bool, hasQueue: bool)

  datatype Event = Update(answer: Answer) | Freeze | Unfreeze | Restore

  const NOTHING := Lists(Null, Null, Null, Null)

  const INITIAL := State(0, NOTHING, 0, 0, Checking, NOTHING, 0, 0, 0, [], [], 0, [])

  function Blank<T>(n: nat, x: T): Pointer<T> {
    To(seq(n, _ => x))
  }

  function Put<T>(p: Pointer<T>, i: nat, x: T): Pointer<T> {
    if p.To? && i < |p.cells| then To(p.cells[i := x]) else p
  }

  /** One turn of the filling loop: the names are fresh duplicates. */
  function Fill(s: State, a: Answer): State {
    var name := if a.hasName then Some(s.names) else None;
    var named := s.names + if a.hasName then 1 else 0;
    var queue := if a.hasQueue then Some(named) else None;
    var row := Row(a.thread, a.pthread, name, queue);
    s.(own := Lists(Put(s.own.threads, s.i, a.thread), Put(s.own.pthreads, s.i, a.pthread),
                    Put(s.own.names, s.i, name), Put(s.own.queues, s.i, queue)),
       i := s.i + 1, found := s.found + [row], names := named + if a.hasQueue then 1 else 0)
  }

  /** One turn of a freeing loop. */
  function Freed(s: State, p: Pointer<Name>): State {
    s.(i := s.i + 1,
       freed := s.freed + if s.i < |Cells(p)| && p.cells[s.i].Some? then [p.cells[s.i].value] else [])
  }

  /** One statement of `monitorCachedData` and `updateThreadList`. */
  function Advance(s: State, a: Answer): State {
    match s.at
    case Checking => if s.semaphore <= 0 then s.(at := Counting) else s
    case Counting => s.(oldCount := s.count, at := Asking)
    case Asking =>
      (match a.threads
       case None => s.(at := Checking)
       case Some(n) => s.(newCount := n, own := Lists(Blank(n, 0), Blank(n, 0), Blank(n, None), Blank(n, None)),
                          i := 0, found := [], at := Filling))
    case Filling => if s.i < s.newCount then Fill(s, a) else s.(at := Shrinking)
    case Shrinking => s.(count := if s.count < s.newCount then s.count else s.newCount, at := SwappingThreads)
    case SwappingThreads =>
      s.(lists := s.lists.(threads := s.own.threads), own := s.own.(threads := s.lists.threads), at := SwappingPThreads)
    case SwappingPThreads =>
      s.(lists := s.lists.(pthreads := s.own.pthreads), own := s.own.(pthreads := s.lists.pthreads), at := SwappingNames)
    case SwappingNames =>
      s.(lists := s.lists.(names := s.own.names), own := s.own.(names := s.lists.names), at := SwappingQueues)
    case SwappingQueues =>
      s.(lists := s.lists.(queues := s.own.queues), own := s.own.(queues := s.lists.queues), at := Growing)
    case Growing => s.(count := s.newCount, i := 0, at := FreeingNames)
    case FreeingNames =>
      if s.own.names.To? && s.i < s.oldCount then Freed(s, s.own.names) else s.(i := 0, at := FreeingQueues)
    case FreeingQueues =>
      if s.own.queues.To? && s.i < s.oldCount then Freed(s, s.own.queues) else s.(shown := s.found, at := Checking)
  }

  /** A statement of the updater, or one atomic operation of a crash handler. */
  function Step(s: State, e: Event): State {
    match e
    case Update(a) => Advance(s, a)
    case Freeze => s.(semaphore := s.semaphore + 1)
    case Unfreeze => s.(semaphore := s.semaphore - 1, restores := s.restores + if s.semaphore - 1 < 0 then 1 else 0)
    case Restore => if s.restores > 0 then s.(semaphore := s.semaphore + 1, restores := s.restores - 1) else s
  }

  function Run(s: State, es: seq<Event>): State
    decreases |es|
  {
    if es == [] then s else Run(Step(s, es[0]), es[1..])
  }

  // -------------------------------------------------------------------------------------------- the invariant

  function Threads(rows: seq<Row>): seq<nat> { seq(|rows|, j requires 0 <= j < |rows| => rows[j].thread) }
  function PThreads(rows: seq<Row>): seq<nat> { seq(|rows|, j requires 0 <= j < |rows| => rows[j].pthread) }
  function Names(rows: seq<Row>): seq<Name> { seq(|rows|, j requires 0 <= j < |rows| => rows[j].name) }
  function Queues(rows: seq<Row>): seq<Name> { seq(|rows|, j requires 0 <= j < |rows| => rows[j].queue) }

  /** The four arrays hold the columns of these rows, each of its own. */
  predicate Hold(l: Lists, a: seq<Row>, b: seq<Row>, c: seq<Row>, d: seq<Row>) {
    && Cells(l.threads) == Threads(a)
    && Cells(l.pthreads) == PThreads(b)
    && Cells(l.names) == Names(c)
    && Cells(l.queues) == Queues(d)
  }

  /** The first `i` rows of new arrays of length `n` are filled. */
  predicate Filled(l: Lists, found: seq<Row>, n: nat) {
    && |found| <= n && l.threads.To? && l.pthreads.To? && l.names.To? && l.queues.To?
    && |l.threads.cells| == |l.pthreads.cells| == |l.names.cells| == |l.queues.cells| == n
    && l.threads.cells[..|found|] == Threads(found)
    && l.pthreads.cells[..|found|] == PThreads(found)
    && l.names.cells[..|found|] == Names(found)
    && l.queues.cells[..|found|] == Queues(found)
    && (forall j | |found| <= j < n :: l.names.cells[j] == None && l.queues.cells[j] == None)
  }

  /** The statements in the order of execution. */
  function Rank(at: Statement): nat {
    match at
    case Checking => 0
    case Counting => 1
    case Asking => 2
    case Filling => 3
    case Shrinking => 4
    case SwappingThreads => 5
    case SwappingPThreads => 6
    case SwappingNames => 7
    case SwappingQueues => 8
    case Growing => 9
    case FreeingNames => 10
    case FreeingQueues => 11
  }

  /** Whether the updater is past one of its statements. */
  predicate Past(s: State, at: Statement) {
    Rank(s.at) > Rank(at)
  }

  function Pick<T>(first: bool, a: T, b: T): T {
    if first then a else b
  }

  /** What holds before each statement. */
  predicate Consistent(s: State) {
    var now, next := s.shown, s.found;
    && Hold(s.lists, Pick(Past(s, SwappingThreads), next, now), Pick(Past(s, SwappingPThreads), next, now),
            Pick(Past(s, SwappingNames), next, now), Pick(Past(s, SwappingQueues), next, now))
    && s.count == (if !Past(s, Shrinking) then |now| else if Past(s, Growing) then |next| else Least(|now|, |next|))
    && (Past(s, Counting) ==> s.oldCount == |now|)
    && (s.at == Filling ==> Filled(s.own, next, s.newCount) && s.i == |next|)
    && (Past(s, Filling) ==>
          && s.newCount == |next|
          && Hold(s.own, Pick(Past(s, SwappingThreads), now, next), Pick(Past(s, SwappingPThreads), now, next),
                  Pick(Past(s, SwappingNames), now, next), Pick(Past(s, SwappingQueues), now, next)))
    && (Past(s, Growing) ==> s.i <= |now|)
  }

  /** How often a name occurs in an array from an index on. */
  function Times(p: Pointer<Name>, i: nat, x: nat): nat {
    multiset(Cells(p)[Least(i, |Cells(p)|)..])[Some(x)]
  }

  /** How often a name occurs in the updater's own arrays, as far as they have not been given back. */
  function InOwn(s: State, x: nat): nat {
    if !Past(s, Asking) then 0
    else if s.at == FreeingQueues then Times(s.own.queues, s.i, x)
    else Times(s.own.names, if s.at == FreeingNames then s.i else 0, x) + Times(s.own.queues, 0, x)
  }

  /** How often a name occurs in the published arrays. */
  function InLists(s: State, x: nat): nat {
    Times(s.lists.names, 0, x) + Times(s.lists.queues, 0, x)
  }

  function TimesFreed(s: State, x: nat): nat {
    multiset(s.freed)[x]
  }

  /** Every name handed out is in one place: in some array once, or given back once. */
  ghost predicate Accounted(s: State) {
    forall x: nat :: InLists(s, x) + InOwn(s, x) + TimesFreed(s, x) == if x < s.names then 1 else 0
  }

  ghost predicate Inv(s: State) {
    Consistent(s) && Accounted(s) && 0 <= s.semaphore + s.restores
  }

  lemma FillKeeps(s: State, a: Answer)
    requires Consistent(s) && s.at == Filling && s.i < s.newCount
    ensures Consistent(Fill(s, a))
  {
  }

  lemma WhenFilled(s: State)
    requires Consistent(s) && s.at == Filling && s.i == s.newCount
    ensures Hold(s.own, s.found, s.found, s.found, s.found)
  {
  }

  lemma {:induction false} MovesConsistent(s: State, a: Answer)
    requires Consistent(s) && s.at != Filling && s.at != Asking
    ensures Consistent(Advance(s, a))
  {
    hide Threads, PThreads, Names, Queues, Filled, Fill, Blank, Cells;
    match s.at
    case Checking =>
    case Counting =>
    case Shrinking =>
    case SwappingThreads =>
    case SwappingPThreads =>
    case SwappingNames =>
    case SwappingQueues =>
    case Growing =>
    case FreeingNames =>
    case FreeingQueues =>
  }

  lemma {:induction false} AskingConsistent(s: State, a: Answer)
    requires Consistent(s) && s.at == Asking
    ensures Consistent(Advance(s, a))
  {
    hide Hold;
  }

  lemma {:induction false} AdvanceConsistent(s: State, a: Answer)
    requires Consistent(s)
    ensures Consistent(Advance(s, a))
  {
    if s.at == Filling && s.i < s.newCount {
      FillKeeps(s, a);
    } else if s.at == Filling {
      WhenFilled(s);
      hide Hold;
    } else if s.at == Asking {
      AskingConsistent(s, a);
    } else {
      hide Consistent;
      MovesConsistent(s, a);
    }
  }

  lemma PutName(p: Pointer<Name>, i: nat, name: Name, x: nat)
    requires p.To? && i < |p.cells| && p.cells[i] == None
    ensures Times(Put(p, i, name), 0, x) == Times(p, 0, x) + if name == Some(x) then 1 else 0
  {
  }

  lemma NextIsBlank(s: State)
    requires Consistent(s) && s.at == Filling && s.i < s.newCount
    ensures s.own.names.To? && s.i < |s.own.names.cells| && s.own.names.cells[s.i] == None
    ensures s.own.queues.To? && s.i < |s.own.queues.cells| && s.own.queues.cells[s.i] == None
  {
  }

  lemma OwnIsOld(s: State)
    requires Consistent(s) && (s.at == FreeingNames || s.at == FreeingQueues)
    ensures |Cells(s.own.names)| == s.oldCount && |Cells(s.own.queues)| == s.oldCount
  {
  }

  lemma {:induction false} FillMoves(s: State, a: Answer, x: nat)
    requires Consistent(s) && s.at == Filling && s.i < s.newCount
    ensures var t := Fill(s, a);
      && InLists(t, x) == InLists(s, x) && TimesFreed(t, x) == TimesFreed(s, x)
      && InOwn(t, x) == InOwn(s, x) + if s.names <= x < t.names then 1 else 0
  {
    hide Put, Times, Consistent;
    NextIsBlank(s);
    var row := Fill(s, a).found[|s.found|];
    PutName(s.own.names, s.i, row.name, x);
    PutName(s.own.queues, s.i, row.queue, x);
  }

  lemma TimesNext(p: Pointer<Name>, i: nat, x: nat)
    ensures Times(p, i, x) == Times(p, i + 1, x) + if i < |Cells(p)| && Cells(p)[i] == Some(x) then 1 else 0
    ensures i >= |Cells(p)| ==> Times(p, i, x) == 0
  {
    if i < |Cells(p)| {
      assert Cells(p)[i..] == [Cells(p)[i]] + Cells(p)[i + 1..];
    }
  }

  /** Giving back the next name moves it from the array to the freed ones. */
  lemma FreedMoves(s: State, p: Pointer<Name>, x: nat)
    requires s.i < |Cells(p)|
    ensures Times(p, s.i, x) + TimesFreed(s, x) == Times(p, s.i + 1, x) + TimesFreed(Freed(s, p), x)
  {
    TimesNext(p, s.i, x);
    hide Times;
  }

  /** The array whose names are being given back. */
  function Released(s: State): Pointer<Name> {
    if s.at == FreeingNames then s.own.names else s.own.queues
  }

  lemma OwnWhileFreeing(s: State, x: nat)
    requires s.at == FreeingNames || s.at == FreeingQueues
    ensures InOwn(s, x) == Times(Released(s), s.i, x) + if s.at == FreeingNames then Times(s.own.queues, 0, x) else 0
  {
    hide Times;
  }

  lemma FreedOne(s: State, a: Answer, x: nat)
    requires (s.at == FreeingNames || s.at == FreeingQueues) && Released(s).To? && s.i < s.oldCount && s.i < |Cells(Released(s))|
    ensures var t := Advance(s, a);
      InLists(t, x) == InLists(s, x) && InOwn(t, x) + TimesFreed(t, x) == InOwn(s, x) + TimesFreed(s, x)
  {
    var t := Freed(s, Released(s));
    assert Advance(s, a) == t;
    assert t.own == s.own && t.lists == s.lists && t.at == s.at && t.i == s.i + 1;
    assert Released(t) == Released(s);
    hide Advance, Times, TimesFreed, InOwn, Released, Freed, Cells;
    OwnWhileFreeing(s, x);
    OwnWhileFreeing(t, x);
    FreedMoves(s, Released(s), x);
  }

  lemma NoneFreed(s: State, a: Answer, x: nat)
    requires (s.at == FreeingNames || s.at == FreeingQueues) && !(Released(s).To? && s.i < s.oldCount)
    requires Times(Released(s), s.i, x) == 0
    ensures var t := Advance(s, a);
      InLists(t, x) == InLists(s, x) && InOwn(t, x) + TimesFreed(t, x) == InOwn(s, x) + TimesFreed(s, x)
  {
    hide Times, Freed, Fill, Blank;
  }

  lemma {:induction false} FreeingMoves(s: State, a: Answer, x: nat)
    requires Consistent(s) && (s.at == FreeingNames || s.at == FreeingQueues)
    ensures var t := Advance(s, a);
      InLists(t, x) == InLists(s, x) && InOwn(t, x) + TimesFreed(t, x) == InOwn(s, x) + TimesFreed(s, x)
  {
    OwnIsOld(s);
    hide Consistent, Times, TimesFreed, InLists, InOwn, Freed, Advance;
    if Released(s).To? && s.i < s.oldCount {
      FreedOne(s, a, x);
    } else {
      TimesNext(Released(s), s.i, x);
      NoneFreed(s, a, x);
    }
  }

  lemma {:induction false} AskingMoves(s: State, a: Answer, x: nat)
    requires s.at == Asking
    ensures var t := Advance(s, a);
      InLists(t, x) == InLists(s, x) && InOwn(t, x) == 0 && TimesFreed(t, x) == TimesFreed(s, x)
  {
    assert a.threads.Some? ==> Times(Blank(a.threads.value, None), 0, x) == 0;
    hide Times;
  }

  /** A statement hands out names, or leaves each as often as it was. */
  lemma {:induction false} AdvanceMoves(s: State, a: Answer, x: nat)
    requires Consistent(s)
    ensures var t := Advance(s, a);
      InLists(t, x) + InOwn(t, x) + TimesFreed(t, x)
        == InLists(s, x) + InOwn(s, x) + TimesFreed(s, x) + if s.names <= x < t.names then 1 else 0
    ensures s.names <= Advance(s, a).names
  {
    hide Consistent, Times;
    match s.at {
      case Filling => if s.i < s.newCount { FillMoves(s, a, x); }
      case Asking => AskingMoves(s, a, x);
      case FreeingNames => FreeingMoves(s, a, x);
      case FreeingQueues => FreeingMoves(s, a, x);
      case _ =>
    }
  }

  lemma AdvanceAccounted(s: State, a: Answer)
    requires Consistent(s) && Accounted(s)
    ensures Accounted(Advance(s, a))
  {
    var t := Advance(s, a);
    hide Consistent, Advance, InLists, InOwn, TimesFreed;
    forall x: nat ensures InLists(t, x) + InOwn(t, x) + TimesFreed(t, x) == if x < t.names then 1 else 0 {
      AdvanceMoves(s, a, x);
    }
  }

  lemma AdvanceLeavesSemaphore(s: State, a: Answer)
    ensures Advance(s, a).semaphore == s.semaphore && Advance(s, a).restores == s.restores
  {
  }

  /** The counter's operations leave the lists alone. */
  lemma SemaphoreOnly(s: State, t: State)
    requires t == s.(semaphore := t.semaphore, restores := t.restores)
    ensures Consistent(t) == Consistent(s) && Accounted(t) == Accounted(s)
  {
    hide Hold, Filled, Times;
    assert forall x :: InLists(t, x) == InLists(s, x) && InOwn(t, x) == InOwn(s, x) && TimesFreed(t, x) == TimesFreed(s, x);
  }

  lemma StepKeeps(s: State, e: Event)
    requires Inv(s)
    ensures Inv(Step(s, e))
  {
    hide Consistent, Accounted, Advance;
    match e {
      case Update(a) =>
        AdvanceConsistent(s, a);
        AdvanceAccounted(s, a);
        AdvanceLeavesSemaphore(s, a);
      case _ =>
        SemaphoreOnly(s, Step(s, e));
    }
  }

  lemma {:induction false} RunKeeps(s: State, es: seq<Event>)
    requires Inv(s)
    ensures Inv(Run(s, es))
    decreases |es|
  {
    if es != [] {
      StepKeeps(s, es[0]);
      hide Inv, Step;
      RunKeeps(Step(s, es[0]), es[1..]);
    }
  }

  lemma InitialInv()
    ensures Inv(INITIAL)
  {
  }

  lemma {:induction false} RunConcat(s: State, es: seq<Event>, fs: seq<Event>)
    ensures Run(s, es + fs) == Run(Run(s, es), fs)
    decreases |es|
  {
    hide Step;
    if es == [] {
      assert es + fs == fs;
    } else {
      assert (es + fs)[0] == es[0] && (es + fs)[1..] == es[1..] + fs;
      RunConcat(Step(s, es[0]), es[1..], fs);
    }
  }

  // --------------------------------------------------------------------------------- what every state offers

  /** All four published arrays have an entry `i`. */
  predicate Readable(s: State, i: nat) {
    && i < |Cells(s.lists.threads)|
    && i < |Cells(s.lists.pthreads)|
    && i < |Cells(s.lists.names)|
    && i < |Cells(s.lists.queues)|
  }

  lemma CountedAreReadable(s: State, i: nat)
    requires Consistent(s) && i < s.count
    ensures Readable(s, i)
  {
  }

  /** Between any two statements of the updater, every index below the published count is in all four arrays. */
  lemma EveryStepInBounds(es: seq<Event>, i: nat)
    requires i < Run(INITIAL, es).count
    ensures Readable(Run(INITIAL, es), i)
  {
    InitialInv();
    RunKeeps(INITIAL, es);
    CountedAreReadable(Run(INITIAL, es), i);
  }

  /**
   No name is given back twice or while published, and once no update is under way every name handed out
   and no longer published has been given back.
   */
  lemma NamesFreedOnce(es: seq<Event>, x: nat)
    ensures var s := Run(INITIAL, es);
      && TimesFreed(s, x) <= 1
      && (TimesFreed(s, x) == 1 ==> InLists(s, x) == 0)
      && (!Past(s, Asking) && x < s.names && InLists(s, x) == 0 ==> TimesFreed(s, x) == 1)
  {
    InitialInv();
    RunKeeps(INITIAL, es);
    hide Consistent, Run, InLists, TimesFreed;
    assert Accounted(Run(INITIAL, es));
  }

  // ------------------------------------------------------------------------------------- reading in two steps

  predicate NoUnfreeze(es: seq<Event>) {
    Unfreeze !in es
  }

  /** Frozen, and no update is under way, or one that is known to have found enough threads. */
  predicate Settled(s: State, i: nat) {
    s.semaphore > 0 && (s.at == Checking || (Past(s, Asking) && i < s.newCount))
  }

  lemma {:induction false} SettledStep(s: State, e: Event, i: nat)
    requires Consistent(s) && i < s.count && Settled(s, i) && e != Unfreeze
    ensures i < Step(s, e).count && Settled(Step(s, e), i)
  {
    hide Hold, Filled;
  }

  lemma {:induction false} SettledStaysReadable(s: State, es: seq<Event>, i: nat)
    requires Inv(s) && i < s.count && Settled(s, i) && NoUnfreeze(es)
    ensures Readable(Run(s, es), i)
    decreases |es|
  {
    if es == [] {
      CountedAreReadable(s, i);
    } else {
      StepKeeps(s, es[0]);
      SettledStep(s, es[0], i);
      hide Consistent, Step, Settled, Readable, Accounted;
      SettledStaysReadable(Step(s, es[0]), es[1..], i);
    }
  }

  const NO_THREADS := Update(Answer(Some(0), 0, 0, false, false))

  /** The turns left in the loop that is under way. */
  function Left(s: State): nat {
    if s.at == Filling && s.i <= s.newCount then s.newCount - s.i
    else if Past(s, Growing) && s.i <= s.oldCount then s.oldCount - s.i
    else 0
  }

  lemma {:induction false} OnwardStep(s: State)
    requires Consistent(s) && Past(s, Asking)
    ensures var t := Step(s, NO_THREADS);
      && t.semaphore == s.semaphore
      && (t.at == Checking ==> |t.shown| == s.newCount)
      && (t.at != Checking ==> Past(t, Asking) && t.newCount == s.newCount)
      && (t.at != Checking ==> Rank(t.at) > Rank(s.at) || (t.at == s.at && Left(t) < Left(s)))
  {
    hide Hold, Filled;
    if Past(s, Growing) { OwnIsOld(s); }
  }

  /** An update under way can run to its end. */
  lemma {:induction false} CanFinish(s: State) returns (es: seq<Event>)
    requires Inv(s) && Past(s, Asking)
    ensures NoUnfreeze(es) && Inv(Run(s, es))
    ensures Run(s, es).at == Checking && Run(s, es).semaphore == s.semaphore && |Run(s, es).shown| == s.newCount
    decreases 12 - Rank(s.at), Left(s)
  {
    StepKeeps(s, NO_THREADS);
    OnwardStep(s);
    hide Consistent, Accounted, Step, Left;
    var t := Step(s, NO_THREADS);
    if t.at == Checking {
      es := [NO_THREADS];
      assert es[1..] == [] && Run(t, []) == t;
    } else {
      var rest := CanFinish(t);
      es := [NO_THREADS] + rest;
      assert es[1..] == rest;
    }
  }

  /** An update that has yet to ask may find no thread at all. */
  lemma CanVanish(s: State, i: nat) returns (es: seq<Event>)
    requires Inv(s) && !Past(s, Asking) && (s.at == Checking ==> s.semaphore <= 0)
    ensures NoUnfreeze(es) && !Readable(Run(s, es), i)
    decreases 12 - Rank(s.at)
  {
    if s.at == Asking {
      var t := Step(s, NO_THREADS);
      StepKeeps(s, NO_THREADS);
      assert t.at == Filling && t.newCount == 0;
      var rest := CanFinish(t);
      RunKeeps(t, rest);
      es := [NO_THREADS] + rest;
      assert es[1..] == rest;
      NothingShown(Run(t, rest), i);
    } else {
      StepKeeps(s, NO_THREADS);
      var rest := CanVanish(Step(s, NO_THREADS), i);
      es := [NO_THREADS] + rest;
      assert es[1..] == rest;
    }
  }

  lemma NothingShown(s: State, i: nat)
    requires Consistent(s) && s.at == Checking && |s.shown| <= i
    ensures !Readable(s, i)
  {
  }

  lemma {:induction false} CanBecomeUnreadable(s: State, i: nat) returns (es: seq<Event>)
    requires Inv(s) && i < s.count && !Settled(s, i)
    ensures NoUnfreeze(es) && !Readable(Run(s, es), i)
  {
    hide Consistent, Accounted, Readable;
    if !Past(s, Asking) {
      es := CanVanish(s, i);
    } else {
      var first := CanFinish(s);
      var t := Run(s, first);
      if s.newCount <= i {
        es := first;
        NothingShown(t, i);
      } else {
        var rest := CanVanish(t, i);
        es := first + rest;
        RunConcat(s, first, rest);
      }
    }
  }

  /**
   A reader compares its index with the count in one step and reads the arrays in later ones. Whatever
   happens in between, short of an unfreeze, the reads are in bounds exactly if the cache is frozen and no
   update is under way that may yet find too few threads.
   */
  lemma ReaderSafeExactly(s: State, i: nat)
    requires Inv(s) && i < s.count
    ensures Settled(s, i) <==> forall es | NoUnfreeze(es) :: Readable(Run(s, es), i)
  {
    hide Inv, Settled, Readable;
    if Settled(s, i) {
      forall es | NoUnfreeze(es) ensures Readable(Run(s, es), i) {
        SettledStaysReadable(s, es, i);
      }
    } else {
      var es := CanBecomeUnreadable(s, i);
      assert NoUnfreeze(es) && !Readable(Run(s, es), i);
    }
  }

  // ----------------------------------------------------------------------------------------- freeze counting

  function OneCount(held: nat, e: Event): nat {
    match e
    case Freeze => held + 1
    case Unfreeze => if held > 0 then held - 1 else 0
    case _ => held
  }

  /** The freezes in force if each call took place at once, and extra calls of unfreeze did nothing. */
  function Freezes(held: nat, es: seq<Event>): nat
    decreases |es|
  {
    if es == [] then held else Freezes(OneCount(held, es[0]), es[1..])
  }

  lemma {:induction false} NoFreezeLost(s: State, held: nat, es: seq<Event>)
    requires held <= s.semaphore + s.restores
    ensures var t := Run(s, es); Freezes(held, es) <= t.semaphore + t.restores
    decreases |es|
  {
    if es != [] {
      if es[0].Update? { AdvanceLeavesSemaphore(s, es[0].answer); }
      hide Advance;
      NoFreezeLost(Step(s, es[0]), OneCount(held, es[0]), es[1..]);
    }
  }

  /** While no unfreeze is half done, the counter is not negative, and no update starts if a freeze is in force. */
  lemma FrozenStaysFrozen(es: seq<Event>, a: Answer)
    requires Run(INITIAL, es).restores == 0
    ensures 0 <= Run(INITIAL, es).semaphore
    ensures Freezes(0, es) > 0 && Run(INITIAL, es).at == Checking ==> Step(Run(INITIAL, es), Update(a)) == Run(INITIAL, es)
  {
    InitialInv();
    RunKeeps(INITIAL, es);
    NoFreezeLost(INITIAL, 0, es);
  }

  /** An unfreeze lowers the freezes in force unless the counter is at zero or below while a restore is due. */
  lemma UnfreezeCountsExactly(s: State)
    requires Inv(s)
    ensures var t, n := Step(s, Unfreeze), s.semaphore + s.restores;
      t.semaphore + t.restores == (if n > 0 then n - 1 else 0) <==> s.semaphore > 0 || n == 0
  {
  }

  /** That does happen: two freezes and three unfreezes, all completed, leave the cache frozen. */
  lemma {:induction false} UnfreezeCanBeLost()
    ensures var es := [Freeze, Unfreeze, Unfreeze, Freeze, Unfreeze, Restore, Restore];
      Freezes(0, es) == 0 && Run(INITIAL, es).semaphore == 1 && Run(INITIAL, es).restores == 0
  {
    var es := [Freeze, Unfreeze, Unfreeze, Freeze, Unfreeze, Restore, Restore];
    hide Run, Freezes, Advance;
    var s, held, k := INITIAL, 0, 0;
    while k < |es|
      invariant k <= |es| && Run(s, es[k..]) == Run(INITIAL, es) && Freezes(held, es[k..]) == Freezes(0, es)
      invariant s == INITIAL.(semaphore := [0, 1, 0, -1, 0, -1, 0, 1][k], restores := [0, 0, 0, 1, 1, 2, 1, 0][k])
      invariant held == [0, 1, 0, 0, 1, 0, 0, 0][k]
    {
      OneStep(s, held, es[k..]);
      assert es[k..][1..] == es[k + 1..];
      s, held := Step(s, es[k]), OneCount(held, es[k]);
      k := k + 1;
    }
    NoStep(s, held, es[k..]);
  }

  lemma OneStep(s: State, held: nat, es: seq<Event>)
    requires es != []
    ensures Run(s, es) == Run(Step(s, es[0]), es[1..]) && Freezes(held, es) == Freezes(OneCount(held, es[0]), es[1..])
  {
  }

  lemma NoStep(s: State, held: nat, es: seq<Event>)
    requires es == []
    ensures Run(s, es) == s && Freezes(held, es) == held
  {
  }
}
