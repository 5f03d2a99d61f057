/** The globals of KSCrashCachedData and the functions that work on them, each statement a step of CachedData. */
module ThreadCache {
  import opened Basics
  import opened CachedData
  import opened CachedLookups

  /** What the system says of thread after thread. */
  ghost predicate FoundAre(rows: seq<Row>, answers: seq<Answer>) {
    && |rows| == |answers|
    && forall j | 0 <= j < |rows| ::
         && rows[j].thread == answers[j].thread
         && rows[j].pthread == answers[j].pthread
         && rows[j].name.Some? == answers[j].hasName
         && rows[j].queue.Some? == answers[j].hasQueue
  }

  const NO_ANSWER := Answer(None, 0, 0, false, false)

  /** The statements that publish, one by one. */
  lemma Publishing(s: State, a: Answer)
    requires Rank(Shrinking) <= Rank(s.at) <= Rank(Growing)
    ensures var t, l, o := Advance(s, a), s.lists, s.own;
      match s.at
      case Shrinking => t == s.(count := Least(s.count, s.newCount), at := SwappingThreads)
      case SwappingThreads =>
        t == s.(lists := l.(threads := o.threads), own := o.(threads := l.threads), at := SwappingPThreads)
      case SwappingPThreads =>
        t == s.(lists := l.(pthreads := o.pthreads), own := o.(pthreads := l.pthreads), at := SwappingNames)
      case SwappingNames =>
        t == s.(lists := l.(names := o.names), own := o.(names := l.names), at := SwappingQueues)
      case SwappingQueues =>
        t == s.(lists := l.(queues := o.queues), own := o.(queues := l.queues), at := Growing)
      case _ => t == s.(count := s.newCount, i := 0, at := FreeingNames)
  {
  }

  lemma Freeing(s: State, a: Answer)
    requires s.at == FreeingNames || s.at == FreeingQueues
    ensures var t, p := Advance(s, a), if s.at == FreeingNames then s.own.names else s.own.queues;
      if p.To? && s.i < s.oldCount then t == Freed(s, p)
      else if s.at == FreeingNames then t == s.(i := 0, at := FreeingQueues)
      else t == s.(shown := s.found, at := Checking)
  {
  }

  lemma OneMore(s: State, es: seq<Event>, e: Event)
    ensures Run(s, es + [e]) == Step(Run(s, es), e)
  {
    hide Step;
    RunConcat(s, es, [e]);
    assert [e][1..] == [];
  }

  /**
   `nextName` and `freed` stand for the allocator of duplicated names. `history` lists the steps taken so far,
   and `model` is the state of the protocol after them.
   */
  class Cache {
    var count: nat
    var threads: Pointer<nat>
    var pthreads: Pointer<nat>
    var names: Pointer<Name>
    var queues: Pointer<Name>
    var semaphore: int
    var nextName: nat
    var freed: seq<nat>
    ghost var model: State
    ghost var history: seq<Event>

    /** The globals are those of the protocol's state after `history`. */
    ghost predicate Matches()
      reads this
      ensures Matches() ==> count <= |Cells(threads)| && count <= |Cells(names)| && count <= |Cells(queues)|
    {
      && Inv(model)
      && (CountWithinLists(model); model == Run(INITIAL, history))
      && count == model.count && semaphore == model.semaphore && nextName == model.names && freed == model.freed
      && model.lists == Lists(threads, pthreads, names, queues)
    }

    constructor ()
      ensures Matches() && history == []
    {
      count, semaphore, nextName, freed := 0, 0, 0, [];
      threads, pthreads, names, queues := Null, Null, Null, Null;
      model, history := INITIAL, [];
      new;
      InitialInv();
    }

    ghost method Take(e: Event)
      requires Inv(model) && model == Run(INITIAL, history)
      modifies `model, `history
      ensures Inv(model) && model == Run(INITIAL, history)
      ensures model == Step(old(model), e) && history == old(history) + [e]
    {
      hide Inv, Step, Run;
      StepKeeps(model, e);
      OneMore(INITIAL, history, e);
      model, history := Step(model, e), history + [e];
    }

    /** `ksccd_freeze`, but for the microsecond of sleep. */
    method Freeze()
      requires Matches()
      modifies `semaphore, `model, `history
      ensures Matches() && semaphore == old(semaphore) + 1 && history == old(history) + [Event.Freeze]
    {
      hide Inv, Run;
      semaphore := semaphore + 1;
      Take(Event.Freeze);
    }

    /** `ksccd_unfreeze`, without interruption: extra calls do nothing. */
    method Unfreeze()
      requires Matches()
      modifies `semaphore, `model, `history
      ensures Matches() && semaphore == old(semaphore) - if old(semaphore) > 0 then 1 else 0
      ensures history == old(history) + if old(semaphore) > 0 then [Event.Unfreeze] else [Event.Unfreeze, Restore]
    {
      hide Inv, Run;
      semaphore := semaphore - 1;
      Take(Event.Unfreeze);
      if semaphore < 0 {
        semaphore := semaphore + 1;
        Take(Restore);
      }
    }

    /** `strdup`, if there is something to duplicate. */
    method Duplicate(has: bool) returns (name: Name)
      modifies `nextName
      ensures name == if has then Some(old(nextName)) else None
      ensures nextName == old(nextName) + if has then 1 else 0
    {
      name := if has then Some(nextName) else None;
      nextName := nextName + if has then 1 else 0;
    }

    /** The loop of `updateThreadList` that asks for each thread's data. */
    method FillLists(answers: seq<Answer>) returns (own: Lists)
      requires Matches() && model.at == Filling && model.i == 0 && model.found == [] && model.newCount == |answers|
      requires model.own == Lists(Blank(|answers|, 0), Blank(|answers|, 0), Blank(|answers|, None), Blank(|answers|, None))
      modifies `nextName, `model, `history
      ensures Matches() && model.at == Shrinking && FoundAre(model.found, answers) && model.own == own
      ensures model.oldCount == old(model.oldCount) && model.newCount == |answers|
    {
      hide Inv, Run;
      var k := |answers|;
      own := Lists(Blank(k, 0), Blank(k, 0), Blank(k, None), Blank(k, None));
      var i := 0;
      while i < k
        invariant 0 <= i <= k && Matches() && model.at == Filling && model.i == i
        invariant FoundAre(model.found, answers[..i]) && model.newCount == k
        invariant model.own == own && model.oldCount == old(model.oldCount)
      {
        var a := answers[i];
        var name := Duplicate(a.hasName);
        var queue := Duplicate(a.hasQueue);
        own := Lists(Put(own.threads, i, a.thread), Put(own.pthreads, i, a.pthread), Put(own.names, i, name), Put(own.queues, i, queue));
        Take(Update(a));
        i := i + 1;
      }
      assert answers[..i] == answers;
      Take(Update(NO_ANSWER));
    }

    /** One turn of the loop that frees the names of a superseded array. */
    method FreeName(list: Pointer<Name>, i: nat)
      requires Matches() && (model.at == FreeingNames || model.at == FreeingQueues) && model.i == i < model.oldCount
      requires list == (if model.at == FreeingNames then model.own.names else model.own.queues) && i < |Cells(list)|
      modifies `freed, `model, `history
      ensures Matches() && model == old(model).(i := i + 1, freed := freed)
      ensures freed == old(freed) + if list.cells[i].Some? then [list.cells[i].value] else []
    {
      hide Inv, Run, Advance;
      if list.cells[i].Some? {
        freed := freed + [list.cells[i].value];
      } else {
        assert freed + [] == freed;
      }
      Freeing(model, NO_ANSWER);
      Take(Update(NO_ANSWER));
    }

    /** The loop that frees the names of a superseded array. */
    method FreeEach(list: Pointer<Name>, oldCount: nat)
      requires Matches() && (model.at == FreeingNames || model.at == FreeingQueues) && model.i == 0 && model.oldCount == oldCount
      requires list == (if model.at == FreeingNames then model.own.names else model.own.queues) && oldCount <= |Cells(list)|
      modifies `freed, `model, `history
      ensures Matches() && model == old(model).(i := oldCount, freed := freed)
    {
      assert model.freed == freed;
      hide Inv, Run, Matches, Freed;
      var i := 0;
      while i < oldCount
        invariant 0 <= i <= oldCount && Matches() && model == old(model).(i := i, freed := freed)
      {
        FreeName(list, i);
        i := i + 1;
      }
    }

    /** The end of that loop, and nothing to free in an array that was never made. */
    method FreedAll()
      requires Matches() && (model.at == FreeingNames || model.at == FreeingQueues)
      requires (if model.at == FreeingNames then model.own.names else model.own.queues).To? ==> model.i >= model.oldCount
      modifies `model, `history
      ensures Matches() && model.oldCount == old(model.oldCount) && model.own == old(model.own) && model.found == old(model.found)
      ensures model.at == if old(model.at) == FreeingNames then FreeingQueues else Checking
      ensures model.i == 0 || model.at == Checking
      ensures model.at == Checking ==> model.shown == model.found
    {
      hide Inv, Run, Advance, Freed;
      Freeing(model, NO_ANSWER);
      Take(Update(NO_ANSWER));
    }

    method FreeNames(list: Pointer<Name>, oldCount: nat)
      requires Matches() && (model.at == FreeingNames || model.at == FreeingQueues) && model.i == 0 && model.oldCount == oldCount
      requires list == if model.at == FreeingNames then model.own.names else model.own.queues
      modifies `freed, `model, `history
      ensures Matches() && model.oldCount == oldCount && model.own == old(model.own) && model.found == old(model.found)
      ensures model.at == if old(model.at) == FreeingNames then FreeingQueues else Checking
      ensures model.i == 0 || model.at == Checking
      ensures model.at == Checking ==> model.shown == model.found
    {
      OwnIsOld(model);
      hide Inv, Run, Advance, Freed, Matches;
      if list.To? {
        FreeEach(list, oldCount);
      }
      FreedAll();
    }

    /** The new threads take the place of the old ones, under the smaller of the two counts. */
    method PublishThreads(own: Lists, newCount: nat)
      requires Matches() && model.at == Shrinking && model.own == own && model.newCount == newCount
      modifies `count, `threads, `pthreads, `model, `history
      ensures Matches() && model.at == SwappingNames && model.oldCount == old(model.oldCount) && model.newCount == newCount
      ensures model.own.names == own.names && model.own.queues == own.queues && model.found == old(model.found)
    {
      hide Inv, Run, Advance;
      count := if count < newCount then count else newCount;
      Publishing(model, NO_ANSWER);
      Take(Update(NO_ANSWER));
      threads := own.threads;
      Publishing(model, NO_ANSWER);
      Take(Update(NO_ANSWER));
      pthreads := own.pthreads;
      Publishing(model, NO_ANSWER);
      Take(Update(NO_ANSWER));
    }

    /** The new names take the place of the old ones, and the new count its. */
    method PublishNames(own: Lists, newCount: nat) returns (oldNames: Pointer<Name>, oldQueues: Pointer<Name>)
      requires Matches() && model.at == SwappingNames && model.newCount == newCount
      requires model.own.names == own.names && model.own.queues == own.queues
      modifies `count, `names, `queues, `model, `history
      ensures Matches() && model.at == FreeingNames && model.i == 0 && model.oldCount == old(model.oldCount)
      ensures oldNames == model.own.names && oldQueues == model.own.queues && model.found == old(model.found)
    {
      hide Inv, Run, Advance;
      oldNames, names := names, own.names;
      Publishing(model, NO_ANSWER);
      Take(Update(NO_ANSWER));
      oldQueues, queues := queues, own.queues;
      Publishing(model, NO_ANSWER);
      Take(Update(NO_ANSWER));
      count := newCount;
      Publishing(model, NO_ANSWER);
      Take(Update(NO_ANSWER));
    }

    /** `updateThreadList`; the system answers with the data of all threads, or not at all. */
    method UpdateThreadList(answer: Option<seq<Answer>>)
      requires Matches() && model.at == Counting
      modifies `count, `threads, `pthreads, `names, `queues, `nextName, `freed, `model, `history
      ensures Matches() && model.at == Checking
      ensures answer.None? ==> model.lists == old(model.lists) && count == old(count) && freed == old(freed)
      ensures answer.Some? ==> FoundAre(model.shown, answer.value)
    {
      hide Inv, Run, Fill, Freed;
      var oldCount := count;
      Take(Update(NO_ANSWER));
      if answer.None? {
        Take(Update(NO_ANSWER));
        return;
      }
      var newCount := |answer.value|;
      Take(Update(NO_ANSWER.(threads := Some(newCount))));
      var own := FillLists(answer.value);
      PublishThreads(own, newCount);
      var oldNames, oldQueues := PublishNames(own, newCount);
      FreeNames(oldNames, oldCount);
      FreeNames(oldQueues, oldCount);
    }

    /** One turn of `monitorCachedData`: no update while frozen. */
    method MonitorCachedData(answer: Option<seq<Answer>>)
      requires Matches() && model.at == Checking
      modifies `count, `threads, `pthreads, `names, `queues, `nextName, `freed, `model, `history
      ensures Matches() && model.at == Checking
      ensures semaphore > 0 ==> model == old(model)
      ensures semaphore <= 0 && answer.Some? ==> FoundAre(model.shown, answer.value)
    {
      hide Inv, Run;
      Take(Update(NO_ANSWER));
      if semaphore <= 0 {
        UpdateThreadList(answer);
      }
    }

    /** `ksccd_getThreadName`; between updates, the name that the last update found for the thread. */
    method GetThreadName(thread: nat) returns (name: Name)
      requires Matches()
      ensures name == Lookup(model, thread, OfNames)
      ensures model.at == Checking ==> name == RowEntry(model.shown, thread, OfNames)
    {
      if model.at == Checking {
        FindInRows(model.shown, 0, count, thread, OfNames);
        assert model.shown[0..count] == model.shown;
      }
      hide Inv, Run, RowEntry;
      name := None;
      if names.To? {
        var i := 0;
        while i < count
          invariant 0 <= i <= count
          invariant Find(Cells(threads), Cells(names), 0, count, thread) == Find(Cells(threads), Cells(names), i, count, thread)
        {
          if threads.cells[i] == thread {
            return names.cells[i];
          }
          i := i + 1;
        }
      }
    }

    /** `ksccd_getQueueName`; between updates, the queue name that the last update found for the thread. */
    method GetQueueName(thread: nat) returns (name: Name)
      requires Matches()
      ensures name == Lookup(model, thread, OfQueues)
      ensures model.at == Checking ==> name == RowEntry(model.shown, thread, OfQueues)
    {
      if model.at == Checking {
        FindInRows(model.shown, 0, count, thread, OfQueues);
        assert model.shown[0..count] == model.shown;
      }
      hide Inv, Run, RowEntry;
      name := None;
      if queues.To? {
        var i := 0;
        while i < count
          invariant 0 <= i <= count
          invariant Find(Cells(threads), Cells(queues), 0, count, thread) == Find(Cells(threads), Cells(queues), i, count, thread)
        {
          if threads.cells[i] == thread {
            return queues.cells[i];
          }
          i := i + 1;
        }
      }
    }
  }
}
