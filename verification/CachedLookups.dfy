/**
 Looking up a thread's name or queue in the published lists of CachedData, in one go: when the answer is one
 that a single update found, and runs that show where it is not.
 */
module CachedLookups {
  import opened Basics
  import opened CachedData

  datatype Column = OfNames | OfQueues

  function Entry(r: Row, c: Column): Name {
    if c.OfNames? then r.name else r.queue
  }

  function Entries(rows: seq<Row>, c: Column): seq<Name> {
    if c.OfNames? then Names(rows) else Queues(rows)
  }

  function ListOf(l: Lists, c: Column): seq<Name> {
    Cells(if c.OfNames? then l.names else l.queues)
  }

  /** The loop of `ksccd_getThreadName` and `ksccd_getQueueName`, run without interruption. */
  function Find(threads: seq<nat>, names: seq<Name>, j: nat, count: nat, thread: nat): Name
    requires j <= count <= |threads| && count <= |names|
    decreases count - j
  {
    if j == count then None
    else if threads[j] == thread then names[j]
    else Find(threads, names, j + 1, count, thread)
  }

  /** What an update found for a thread. */
  function RowEntry(rows: seq<Row>, thread: nat, c: Column): Name {
    if rows == [] then None else if rows[0].thread == thread then Entry(rows[0], c) else RowEntry(rows[1..], thread, c)
  }

  lemma {:induction false} FindInRows(rows: seq<Row>, j: nat, count: nat, thread: nat, c: Column)
    requires j <= count <= |rows|
    ensures Find(Threads(rows), Entries(rows, c), j, count, thread) == RowEntry(rows[j..count], thread, c)
    decreases count - j
  {
    if j < count {
      assert rows[j..count] == [rows[j]] + rows[j + 1..count];
      FindInRows(rows, j + 1, count, thread, c);
    }
  }

  lemma CountWithinLists(s: State)
    requires Consistent(s)
    ensures s.count <= |Cells(s.lists.threads)| && s.count <= |Cells(s.lists.names)| && s.count <= |Cells(s.lists.queues)|
  {
  }

  function Lookup(s: State, thread: nat, c: Column): Name
    requires Consistent(s)
  {
    CountWithinLists(s);
    Find(Cells(s.lists.threads), ListOf(s.lists, c), 0, s.count, thread)
  }

  /** The published lists give for a thread what one update found for it: the last one, or this one once it has asked. */
  predicate Truthful(s: State, thread: nat, c: Column)
    requires Consistent(s)
  {
    || Lookup(s, thread, c) == RowEntry(s.shown, thread, c)
    || (Past(s, Filling) && Lookup(s, thread, c) == RowEntry(s.found, thread, c))
  }

  /** The threads are of the new update and the column is of the old one. */
  predicate Mixed(s: State, c: Column) {
    Past(s, SwappingThreads) && !Past(s, if c.OfNames? then SwappingNames else SwappingQueues)
  }

  /** The update that the published threads are of ... */
  function ThreadRows(s: State): seq<Row> {
    if Past(s, SwappingThreads) then s.found else s.shown
  }

  /** ... the other one ... */
  function OtherRows(s: State): seq<Row> {
    if Past(s, SwappingThreads) then s.shown else s.found
  }

  /** ... and the one that the published column is of. */
  function EntryRows(s: State, c: Column): seq<Row> {
    if Mixed(s, c) then s.shown else ThreadRows(s)
  }

  lemma PublishedRows(s: State, c: Column)
    requires Consistent(s)
    ensures s.count <= |ThreadRows(s)| && s.count <= |EntryRows(s, c)|
    ensures Cells(s.lists.threads) == Threads(ThreadRows(s)) && ListOf(s.lists, c) == Entries(EntryRows(s, c), c)
    ensures ThreadRows(s) == s.shown || Past(s, Filling)
    ensures !Past(s, Filling) ==> s.count == |s.shown|
  {
  }

  // --------------------------------------------------------------------------------------------- first places

  ghost predicate IsFirstPlace(rows: seq<Row>, i: nat) {
    i < |rows| && forall k | 0 <= k < i :: rows[k].thread != rows[i].thread
  }

  lemma {:induction false} FindAtFirstPlace(rows: seq<Row>, names: seq<Name>, j: nat, count: nat, i: nat)
    requires j <= i < count <= |rows| && count <= |names| && IsFirstPlace(rows, i)
    ensures Find(Threads(rows), names, j, count, rows[i].thread) == names[i]
    decreases i - j
  {
    if j < i {
      FindAtFirstPlace(rows, names, j + 1, count, i);
    }
  }

  /** A thread that is found has a first place; one that is not is not found. */
  lemma {:induction false} FindOrNot(rows: seq<Row>, names: seq<Name>, j: nat, count: nat, thread: nat) returns (i: nat)
    requires j <= count <= |rows| && count <= |names| && forall k | 0 <= k < j :: rows[k].thread != thread
    ensures if i < count then IsFirstPlace(rows, i) && rows[i].thread == thread
            else Find(Threads(rows), names, j, count, thread) == None && forall k | 0 <= k < count :: rows[k].thread != thread
    decreases count - j
  {
    if j == count || rows[j].thread == thread {
      i := j;
    } else {
      i := FindOrNot(rows, names, j + 1, count, thread);
    }
  }

  lemma RowAtFirstPlace(rows: seq<Row>, i: nat, c: Column)
    requires IsFirstPlace(rows, i)
    ensures RowEntry(rows, rows[i].thread, c) == Entry(rows[i], c)
  {
    FindAtFirstPlace(rows, Entries(rows, c), 0, |rows|, i);
    FindInRows(rows, 0, |rows|, rows[i].thread, c);
    assert rows[0..|rows|] == rows;
  }

  lemma RowNowhere(rows: seq<Row>, thread: nat, c: Column)
    requires forall k | 0 <= k < |rows| :: rows[k].thread != thread
    ensures RowEntry(rows, thread, c) == None
  {
    var i := FindOrNot(rows, Entries(rows, c), 0, |rows|, thread);
    FindInRows(rows, 0, |rows|, thread, c);
    assert rows[0..|rows|] == rows;
  }

  /** A lookup gives the entry beside the first place of the thread, if that is below the count. */
  lemma LookupAt(s: State, c: Column, i: nat)
    requires Consistent(s) && IsFirstPlace(ThreadRows(s), i)
    ensures s.count <= |EntryRows(s, c)|
    ensures Lookup(s, ThreadRows(s)[i].thread, c) == if i < s.count then Entry(EntryRows(s, c)[i], c) else None
  {
    PublishedRows(s, c);
    CountWithinLists(s);
    var rows, entries := ThreadRows(s), Entries(EntryRows(s, c), c);
    hide Consistent, ThreadRows, EntryRows;
    if i < s.count {
      FindAtFirstPlace(rows, entries, 0, s.count, i);
    } else {
      var k := FindOrNot(rows, entries, 0, s.count, rows[i].thread);
    }
  }

  // ------------------------------------------------------------------------------------------ truthful lookups

  /**
   Each thread published has at its first place an entry of its own, the present or the old one; and where that
   place is cut off by the count, the thread had no entry in one of the two updates.
   */
  ghost predicate Whole(s: State, c: Column)
    requires s.count <= |EntryRows(s, c)|
  {
    var rows, other := ThreadRows(s), OtherRows(s);
    forall i | 0 <= i < |rows| && IsFirstPlace(rows, i) ::
      var now, before := Entry(rows[i], c), RowEntry(other, rows[i].thread, c);
      if i < s.count then Entry(EntryRows(s, c)[i], c) in [now, before] else now == None || before == None
  }

  lemma TruthfulAt(s: State, c: Column, i: nat)
    requires Consistent(s) && IsFirstPlace(ThreadRows(s), i) && s.count <= |EntryRows(s, c)|
    ensures var rows, t := ThreadRows(s), ThreadRows(s)[i].thread;
      var now, before := Entry(rows[i], c), RowEntry(OtherRows(s), t, c);
      Truthful(s, t, c)
        == if i < s.count then Entry(EntryRows(s, c)[i], c) in [now, before] else now == None || before == None
  {
    PublishedRows(s, c);
    LookupAt(s, c, i);
    RowAtFirstPlace(ThreadRows(s), i, c);
    hide Consistent;
  }

  lemma WholeIsTruthful(s: State, c: Column, thread: nat)
    requires Consistent(s) && s.count <= |EntryRows(s, c)| && Whole(s, c)
    ensures Truthful(s, thread, c)
  {
    var rows := ThreadRows(s);
    PublishedRows(s, c);
    CountWithinLists(s);
    var i := FindOrNot(rows, Entries(rows, c), 0, |rows|, thread);
    if i < |rows| {
      TruthfulAt(s, c, i);
    } else {
      RowNowhere(rows, thread, c);
      var k := FindOrNot(rows, Entries(EntryRows(s, c), c), 0, s.count, thread);
      hide Consistent;
    }
  }

  /** Before every statement, all lookups are truthful exactly if the published lists are whole. */
  lemma TruthfulExactly(s: State, c: Column)
    requires Consistent(s)
    ensures s.count <= |EntryRows(s, c)|
    ensures (forall thread :: Truthful(s, thread, c)) <==> Whole(s, c)
  {
    PublishedRows(s, c);
    if Whole(s, c) {
      forall thread ensures Truthful(s, thread, c) {
        WholeIsTruthful(s, c, thread);
      }
    } else {
      var rows, other := ThreadRows(s), OtherRows(s);
      var i :| 0 <= i < |rows| && IsFirstPlace(rows, i)
        && !(if i < s.count then Entry(EntryRows(s, c)[i], c) in [Entry(rows[i], c), RowEntry(other, rows[i].thread, c)]
             else Entry(rows[i], c) == None || RowEntry(other, rows[i].thread, c) == None);
      TruthfulAt(s, c, i);
    }
  }

  /** They are, outside the statements from the first lowering of the count to its final setting. */
  lemma WholeOutside(s: State, c: Column)
    requires Consistent(s) && (!Past(s, Shrinking) || Past(s, Growing))
    ensures s.count <= |EntryRows(s, c)| && Whole(s, c)
  {
    PublishedRows(s, c);
  }

  // ---------------------------------------------------------------------------------------------- concrete runs

  /** One thread, with a name and a queue. */
  function One(thread: nat): Event {
    Update(Answer(Some(1), thread, thread, true, true))
  }

  function OneRow(thread: nat, names: nat): Row {
    Row(thread, thread, Some(names), Some(names + 1))
  }

  function OneList(r: Row): Lists {
    Lists(To([r.thread]), To([r.pthread]), To([r.name]), To([r.queue]))
  }

  function Again(n: nat, e: Event): seq<Event> {
    if n == 0 then [] else [e] + Again(n - 1, e)
  }

  lemma AgainNext(s: State, n: nat, e: Event)
    requires n > 0
    ensures Run(s, Again(n, e)) == Run(Step(s, e), Again(n - 1, e))
  {
  }

  lemma LastOfAgain(s: State, e: Event)
    ensures Run(s, Again(1, e)) == Step(s, e) && Run(s, Again(0, e)) == s
  {
    AgainNext(s, 1, e);
  }

  lemma FillOne(s: State, t: nat)
    requires s.at == Filling && s.i == 0 && s.newCount == 1 && s.found == []
    requires s.own == Lists(To([0]), To([0]), To([None]), To([None]))
    ensures Advance(s, One(t).answer)
      == s.(i := 1, found := [OneRow(t, s.names)], names := s.names + 2, own := OneList(OneRow(t, s.names)))
  {
    var none: seq<Name> := [None];
    assert [0][0 := t] == [t] && none[0 := Some(s.names)] == [Some(s.names)] && none[0 := Some(s.names + 1)] == [Some(s.names + 1)];
  }

  lemma UpToFilling(s: State, t: nat)
    requires s.at == Checking && s.semaphore <= 0
    ensures Run(s, Again(7, One(t)))
      == Run(s.(oldCount := s.count, newCount := 1, i := 0, found := [], at := Filling,
                own := Lists(To([0]), To([0]), To([None]), To([None]))), Again(4, One(t)))
  {
    var e := One(t);
    var s1 := s.(at := Counting);
    var s2 := s1.(oldCount := s.count, at := Asking);
    assert Blank<nat>(1, 0).cells == [0] && Blank<Name>(1, None).cells == [None];
    assert Step(s, e) == s1 && Step(s1, e) == s2;
    hide Run, Again;
    AgainNext(s, 7, e);
    AgainNext(s1, 6, e);
    AgainNext(s2, 5, e);
  }

  lemma FromFilled(s: State, e: Event)
    requires s.at == Filling && s.i == s.newCount && e.Update?
    ensures Run(s, Again(3, e))
      == s.(count := Least(s.count, s.newCount), lists := s.lists.(threads := s.own.threads),
            own := s.own.(threads := s.lists.threads), at := SwappingPThreads)
  {
    var s1 := s.(at := Shrinking);
    var s2 := s1.(count := Least(s.count, s.newCount), at := SwappingThreads);
    hide Run, Again;
    AgainNext(s, 3, e);
    AgainNext(s1, 2, e);
    LastOfAgain(s2, e);
  }

  /** The statements up to the first swap of an update that finds one thread. */
  lemma UpToFirstSwap(s: State, t: nat)
    requires s.at == Checking && s.semaphore <= 0
    ensures var r := OneRow(t, s.names);
      Run(s, Again(7, One(t)))
        == s.(oldCount := s.count, newCount := 1, i := 1, found := [r], names := s.names + 2,
              count := Least(s.count, 1), lists := s.lists.(threads := To([t])),
              own := OneList(r).(threads := s.lists.threads), at := SwappingPThreads)
  {
    hide Run, Again, Advance;
    UpToFilling(s, t);
    var s3 := s.(oldCount := s.count, newCount := 1, i := 0, found := [], at := Filling,
                 own := Lists(To([0]), To([0]), To([None]), To([None])));
    AgainNext(s3, 4, One(t));
    FillOne(s3, t);
    FromFilled(Step(s3, One(t)), One(t));
  }

  /** The other swaps. */
  lemma OtherSwaps(s: State, e: Event)
    requires s.at == SwappingPThreads && e.Update?
    ensures var l, o := s.lists, s.own;
      Run(s, Again(3, e)) == s.(lists := Lists(l.threads, o.pthreads, o.names, o.queues),
                                own := Lists(o.threads, l.pthreads, l.names, l.queues), at := Growing)
  {
    var s1 := s.(lists := s.lists.(pthreads := s.own.pthreads), own := s.own.(pthreads := s.lists.pthreads), at := SwappingNames);
    var s2 := s1.(lists := s1.lists.(names := s.own.names), own := s1.own.(names := s.lists.names), at := SwappingQueues);
    hide Run, Again;
    AgainNext(s, 3, e);
    AgainNext(s1, 2, e);
    LastOfAgain(s2, e);
  }

  /** The end of an update that had nothing to free. */
  lemma FromGrowing(s: State, e: Event)
    requires s.at == Growing && e.Update? && s.own.names.Null? && s.own.queues.Null?
    ensures Run(s, Again(3, e)) == s.(count := s.newCount, i := 0, shown := s.found, at := Checking)
  {
    var s1 := s.(count := s.newCount, i := 0, at := FreeingNames);
    var s2 := s1.(at := FreeingQueues);
    hide Run, Again;
    AgainNext(s, 3, e);
    AgainNext(s1, 2, e);
    LastOfAgain(s2, e);
  }

  /** The events of the first update: it finds thread 1. */
  const FIRST_UPDATE := Again(7, One(1)) + (Again(3, One(1)) + Again(3, One(1)))

  function AfterFirst(): State {
    State(1, OneList(OneRow(1, 0)), 0, 0, Checking, NOTHING, 0, 1, 0, [OneRow(1, 0)], [OneRow(1, 0)], 2, [])
  }

  lemma FirstUpdate()
    ensures Run(INITIAL, FIRST_UPDATE) == AfterFirst()
  {
    hide Run, Again;
    var e := One(1);
    RunConcat(INITIAL, Again(7, e), Again(3, e) + Again(3, e));
    UpToFirstSwap(INITIAL, 1);
    var s := Run(INITIAL, Again(7, e));
    RunConcat(s, Again(3, e), Again(3, e));
    OtherSwaps(s, e);
    FromGrowing(Run(s, Again(3, e)), e);
  }

  /** Then thread 2 is found in the place of thread 1: up to the first swap, and `k` statements on. */
  function SecondUpdate(k: nat): seq<Event> {
    FIRST_UPDATE + Again(7, One(2)) + Again(k, One(2))
  }

  lemma AfterSecond(k: nat)
    requires k <= 2
    ensures var m, r, q := Run(INITIAL, SecondUpdate(k)), OneRow(1, 0), OneRow(2, 2);
      && m.at == [SwappingPThreads, SwappingNames, SwappingQueues][k]
      && m.count == 1 && m.shown == [r] && m.found == [q] && Cells(m.lists.threads) == [2]
      && ListOf(m.lists, OfNames) == (if k < 2 then [r.name] else [q.name]) && ListOf(m.lists, OfQueues) == [r.queue]
  {
    var e, s := One(2), AfterFirst();
    FirstUpdate();
    RunConcat(INITIAL, FIRST_UPDATE, Again(7, e));
    RunConcat(INITIAL, FIRST_UPDATE + Again(7, e), Again(k, e));
    hide Run, Again;
    UpToFirstSwap(s, 2);
    var m := Run(s, Again(7, e));
    LastOfAgain(m, e);
    if k == 2 {
      AgainNext(m, 2, e);
      LastOfAgain(Step(m, e), e);
    }
  }

  /** Both columns can be mixed, each at all the statements between its swaps: runs from the beginning that show it. */
  lemma MixedReached(k: nat, c: Column)
    requires k <= if c.OfNames? then 1 else 2
    ensures var m := Run(INITIAL, SecondUpdate(k));
      && m.at == [SwappingPThreads, SwappingNames, SwappingQueues][k]
      && Consistent(m) && Mixed(m, c) && !Truthful(m, 2, c)
  {
    var m := Run(INITIAL, SecondUpdate(k));
    InitialInv();
    RunKeeps(INITIAL, SecondUpdate(k));
    AfterSecond(k);
    hide Run, SecondUpdate, Accounted;
    LookupAt(m, c, 0);
    RowAtFirstPlace(m.found, 0, c);
    RowNowhere(m.shown, 2, c);
  }

  /** Reading in steps can fail: a run to a published thread in a state that is not settled, frozen or not. */
  lemma UnsettledReached(frozen: bool)
    ensures var s := Run(INITIAL, FIRST_UPDATE + if frozen then [One(2), Freeze] else []);
      0 < s.count && !Settled(s, 0) && s.semaphore == if frozen then 1 else 0
  {
    var es := if frozen then [One(2), Freeze] else [];
    FirstUpdate();
    RunConcat(INITIAL, FIRST_UPDATE, es);
    assert frozen ==> es[1..] == [Freeze] && [Freeze][1..] == [];
  }

  // ------------------------------------------------------------------------------------------------ a lost name

  /** Of two threads, this one. */
  function OfTwo(thread: nat): Event {
    Update(Answer(Some(2), thread, thread, true, true))
  }

  const BLANK_TWO := Lists(To([0, 0]), To([0, 0]), To([None, None]), To([None, None]))

  lemma TwoUpToFilling(s: State)
    requires s.at == Checking && s.semaphore <= 0
    ensures Run(s, Again(3, OfTwo(2)))
      == s.(oldCount := s.count, newCount := 2, i := 0, found := [], own := BLANK_TWO, at := Filling)
  {
    var e := OfTwo(2);
    var s1 := s.(at := Counting);
    var s2 := s1.(oldCount := s.count, at := Asking);
    assert Blank<nat>(2, 0).cells == [0, 0] && Blank<Name>(2, None).cells == [None, None];
    assert Step(s, e) == s1 && Step(s1, e) == s2;
    hide Run, Again;
    AgainNext(s, 3, e);
    AgainNext(s1, 2, e);
    LastOfAgain(s2, e);
  }

  lemma FillTwo(s: State)
    requires s.at == Filling && s.i == 0 && s.newCount == 2 && s.found == [] && s.own == BLANK_TWO
    ensures var r, q := OneRow(2, s.names), OneRow(1, s.names + 2);
      Step(Step(s, OfTwo(2)), OfTwo(1))
        == s.(i := 2, found := [r, q], names := s.names + 4,
              own := Lists(To([2, 1]), To([2, 1]), To([r.name, q.name]), To([r.queue, q.queue])))
  {
    var r, q := OneRow(2, s.names), OneRow(1, s.names + 2);
    assert s.own.threads.cells[0 := 2][1 := 1] == [2, 1];
    assert s.own.names.cells[0 := r.name][1 := q.name] == [r.name, q.name];
    assert s.own.queues.cells[0 := r.queue][1 := q.queue] == [r.queue, q.queue];
    assert [] + [r] == [r] && [r] + [q] == [r, q];
  }

  /** A second update finds thread 2 before thread 1, and has swapped all lists. */
  const LOSING_UPDATE := Again(3, OfTwo(2)) + ([OfTwo(2), OfTwo(1)] + (Again(3, OfTwo(1)) + Again(3, OfTwo(1))))

  lemma RunPair(s: State, d: Event, e: Event)
    ensures Run(s, [d, e]) == Step(Step(s, d), e)
  {
    hide Step;
    assert [d, e][1..] == [e] && [e][1..] == [];
    assert Run(Step(s, d), [e]) == Run(Step(Step(s, d), e), []);
  }

  lemma AfterLosing()
    ensures var m, r, q := Run(INITIAL, FIRST_UPDATE + LOSING_UPDATE), OneRow(2, 2), OneRow(1, 4);
      m.at == Growing && m.count == 1 && m.shown == [OneRow(1, 0)] && m.found == [r, q]
  {
    hide Again;
    var e, s := OfTwo(1), AfterFirst();
    var two, rest := [OfTwo(2), e], Again(3, e) + Again(3, e);
    FirstUpdate();
    RunConcat(INITIAL, FIRST_UPDATE, LOSING_UPDATE);
    RunConcat(s, Again(3, OfTwo(2)), two + rest);
    TwoUpToFilling(s);
    var f := Run(s, Again(3, OfTwo(2)));
    RunConcat(f, two, rest);
    FillTwo(f);
    RunPair(f, OfTwo(2), e);
    hide Run, Advance;
    var g := Run(f, two);
    RunConcat(g, Again(3, e), Again(3, e));
    FromFilled(g, e);
    OtherSwaps(Run(g, Again(3, e)), e);
  }

  /**
   A thread that both updates found, with an entry each time, is not found while the count is still the smaller
   one: a run from the beginning that shows it, for names and for queues.
   */
  lemma LostReached(c: Column)
    ensures var m := Run(INITIAL, FIRST_UPDATE + LOSING_UPDATE);
      && m.at == Growing && Consistent(m) && !Mixed(m, c)
      && Lookup(m, 1, c) == None && RowEntry(m.shown, 1, c).Some? && RowEntry(m.found, 1, c).Some? && !Truthful(m, 1, c)
  {
    var m := Run(INITIAL, FIRST_UPDATE + LOSING_UPDATE);
    InitialInv();
    RunKeeps(INITIAL, FIRST_UPDATE + LOSING_UPDATE);
    AfterLosing();
    hide Run, LOSING_UPDATE, FIRST_UPDATE, Accounted;
    LookupAt(m, c, 1);
    RowAtFirstPlace(m.found, 1, c);
    RowAtFirstPlace(m.shown, 0, c);
  }
}
