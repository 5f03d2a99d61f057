/**
 MTHCallTraceCore: one stack per thread holds both the open calls and their return addresses; on the
 main thread a leaving call is recorded when it took longer than a threshold and is not too deep, or
 always. Costs are cut to 32 bits.
 */
module MTHCallTrace {
  import opened Basics
  import opened CallForest
  import opened Growable
  import ReturnAddresses

  const TWO_32 := 0x1_0000_0000

  datatype ThreadCallRecord = ThreadCallRecord(cls: nat, cmd: nat, time: nat, lr: nat)

  datatype CallRecord = CallRecord(cls: nat, depth: int, sel: nat, cost: nat)

  datatype Settings = Settings(traceAll: bool, timeThreshold: nat, maxCallDepth: int)

  /** `uint32_t` of a difference of microseconds. */
  function Cost(enter: nat, leave: nat): nat {
    (leave - enter) % TWO_32
  }

  datatype Trace = Trace(stack: seq<ThreadCallRecord>, records: seq<CallRecord>)

  function PushRecord(t: Trace, r: ThreadCallRecord): Trace {
    t.(stack := t.stack + [r])
  }

  /** What a pop of the main thread records while recording is on; depths are stack indices. */
  function Logged(s: Settings, r: ThreadCallRecord, depth: nat, now: nat): seq<CallRecord> {
    var cost := Cost(r.time, now);
    if s.traceAll || (cost > s.timeThreshold && depth - 1 < s.maxCallDepth)
    then [CallRecord(r.cls, depth, r.cmd, cost)] else []
  }

  function PopRecord(t: Trace, s: Settings, now: nat): Trace
    requires t.stack != []
  {
    var depth := |t.stack| - 1;
    Trace(t.stack[..depth], t.records + Logged(s, t.stack[depth], depth, now))
  }

  /** A leave without an open call would read before the stack; it is outside the model's runs. */
  function Step(t: Trace, s: Settings, e: Event): Trace {
    match e
    case Enter(c) => PushRecord(t, ThreadCallRecord(c.cls, c.sel, c.enter, c.lr))
    case Leave(c) => if t.stack == [] then t else PopRecord(t, s, c.leave)
  }

  function Tracing(s: Settings): (Trace, Event) -> Trace {
    (t: Trace, e: Event) => Step(t, s, e)
  }

  function Kept(s: Settings): Row<Call> -> bool {
    (r: Row<Call>) =>
      var cost := Cost(r.call.enter, r.call.leave);
      s.traceAll || (cost > s.timeThreshold && r.depth <= s.maxCallDepth)
  }

  datatype Shown = Shown(cls: nat, sel: nat, cost: nat)

  function Show(c: Call): Shown {
    Shown(c.cls, c.sel, Cost(c.enter, c.leave))
  }

  function Record(r: Row<Shown>): CallRecord {
    CallRecord(r.call.cls, r.depth, r.call.sel, r.call.cost)
  }

  function Records(rows: seq<Row<Shown>>): seq<CallRecord> {
    seq(|rows|, i requires 0 <= i < |rows| => Record(rows[i]))
  }

  /** The records of a forest at a depth: its post-order, filtered, each call with its true depth. */
  function Recorded(f: Calls, s: Settings, d: nat): seq<CallRecord> {
    Records(RelabelRows(Filter(Flat(f, d), Kept(s)), Show))
  }

  function OwnRecord(c: Call, s: Settings, d: nat): seq<CallRecord> {
    if Kept(s)(Row(d, c)) then [Record(Row(d, Show(c)))] else []
  }

  /** For any forest of calls, the tracer adds exactly its records, and its stack is as before. */
  lemma {:induction false} RecordsAreFilteredPostOrder(t: Trace, s: Settings, f: Calls)
    ensures Run(Tracing(s), t, Events(f)) == t.(records := t.records + Recorded(f, s, |t.stack|))
    decreases f
  {
    match f
    case Empty =>
    case Node(c, kids, rest) =>
      hide Recorded, OwnRecord, Events;
      var d, t1 := |t.stack|, Step(t, s, Enter(c));
      RecordsAreFilteredPostOrder(t1, s, kids);
      var t2 := Run(Tracing(s), t1, Events(kids));
      assert t2.stack[..d] == t.stack;
      assert Logged(s, t2.stack[d], d, c.leave) == OwnRecord(c, s, d) by { LoggedIsOwn(c, s, d); }
      var t3 := Step(t2, s, Leave(c));
      hide Step;
      RecordsAreFilteredPostOrder(t3, s, rest);
      RunNode(Tracing(s), t, f);
      RecordedNode(f, s, d);
      Glue(t.records, Recorded(kids, s, d + 1), OwnRecord(c, s, d), Recorded(rest, s, d));
  }

  lemma LoggedIsOwn(c: Call, s: Settings, d: nat)
    ensures Logged(s, ThreadCallRecord(c.cls, c.sel, c.enter, c.lr), d, c.leave) == OwnRecord(c, s, d)
  {
  }

  lemma RecordedNode(f: Calls, s: Settings, d: nat)
    requires f.Node?
    ensures Recorded(f, s, d) == Recorded(f.kids, s, d + 1) + OwnRecord(f.call, s, d) + Recorded(f.rest, s, d)
  {
    var own := if Kept(s)(Row(d, f.call)) then [Row(d, f.call)] else [];
    FilterNode(f, Kept(s), d);
    RecordsConcat(Filter(Flat(f.kids, d + 1), Kept(s)), own, Filter(Flat(f.rest, d), Kept(s)));
    assert Records(RelabelRows(own, Show)) == OwnRecord(f.call, s, d);
  }

  lemma RecordsConcat(a: seq<Row<Call>>, b: seq<Row<Call>>, c: seq<Row<Call>>)
    ensures Records(RelabelRows(a + b + c, Show))
         == Records(RelabelRows(a, Show)) + Records(RelabelRows(b, Show)) + Records(RelabelRows(c, Show))
  {
  }

  // ------------------------------------------------------------------------------------ callers and costs

  /** A cost is the true one exactly below 2^32 microseconds, and always up to multiples of that. */
  lemma CostExactly(enter: nat, leave: nat)
    requires enter <= leave
    ensures Cost(enter, leave) < 0x1_0000_0000 && (leave - enter - Cost(enter, leave)) % 0x1_0000_0000 == 0
    ensures Cost(enter, leave) == leave - enter <==> leave - enter < 0x1_0000_0000
  {
  }

  /** So a short call is recorded by its true duration. */
  lemma ShortCallKept(s: Settings, r: Row<Call>)
    requires r.call.enter <= r.call.leave < r.call.enter + 0x1_0000_0000
    ensures Kept(s)(r) <==> s.traceAll || (r.call.leave - r.call.enter > s.timeThreshold && r.depth <= s.maxCallDepth)
  {
    KeptMeans(s, r);
    CostExactly(r.call.enter, r.call.leave);
    hide Kept, Cost;
  }

  /** What a record tells of a call and its depth. */
  predicate Tells(rec: CallRecord, r: Row<Call>) {
    rec.cls == r.call.cls && rec.sel == r.call.sel && rec.depth == r.depth && rec.cost == r.call.leave - r.call.enter
  }

  lemma TellsExactly(rec: CallRecord, r: Row<Call>)
    requires r.call.enter <= r.call.leave < r.call.enter + TWO_32
    ensures Tells(rec, r) <==> rec == Record(Row(r.depth, Show(r.call)))
  {
    CostExactly(r.call.enter, r.call.leave);
    hide Cost;
  }

  lemma RecordsHas(rows: seq<Row<Call>>, rec: CallRecord)
    requires forall r | r in rows :: r.call.enter <= r.call.leave < r.call.enter + TWO_32
    ensures rec in Records(RelabelRows(rows, Show)) <==> exists r :: r in rows && Tells(rec, r)
  {
    var shown := RelabelRows(rows, Show);
    forall k | 0 <= k < |rows| ensures Tells(rec, rows[k]) <==> Records(shown)[k] == rec {
      assert rows[k] in rows;
      TellsExactly(rec, rows[k]);
    }
    assert |Records(shown)| == |rows|;
    hide Tells, Records, RelabelRows;
    if rec in Records(shown) {
      var k :| 0 <= k < |rows| && Records(shown)[k] == rec;
      assert rows[k] in rows && Tells(rec, rows[k]);
    }
    forall r | r in rows && Tells(rec, r) ensures rec in Records(shown) {
      var k :| 0 <= k < |rows| && rows[k] == r;
      assert Records(shown)[k] == rec;
    }
  }

  /** Below 2^32 microseconds, a record is one of a recorded forest exactly if it tells of a call that passes the test. */
  lemma RecordedExactly(f: Calls, s: Settings, d: nat, lo: nat, hi: nat, rec: CallRecord)
    requires Timed(f, lo, hi) && Shorter(f, TWO_32)
    ensures rec in Recorded(f, s, d)
       <==> exists r :: r in Flat(f, d) && Tells(rec, r)
                        && (s.traceAll || (rec.cost > s.timeThreshold && rec.depth <= s.maxCallDepth))
  {
    var rows := Flat(f, d);
    forall r ensures r in Filter(rows, Kept(s)) <==> r in rows && Kept(s)(r) {
      FilterHas(rows, Kept(s), r);
    }
    forall r | r in rows
      ensures r.call.enter <= r.call.leave < r.call.enter + TWO_32
      ensures Kept(s)(r) <==> s.traceAll || (r.call.leave - r.call.enter > s.timeThreshold && r.depth <= s.maxCallDepth)
    {
      RowTimed(f, d, lo, hi, TWO_32, r);
      ShortCallKept(s, r);
    }
    hide Filter, Flat, Kept;
    RecordsHas(Filter(rows, Kept(s)), rec);
    hide Records, RelabelRows;
  }

  /** A cost dominates the costs of all calls inside exactly when it was not cut, or is the largest of all. */
  lemma CallerCostsMoreExactly(e1: nat, l1: nat)
    requires e1 <= l1
    ensures (forall e2, l2 | e1 <= e2 <= l2 <= l1 :: Cost(e2, l2) <= Cost(e1, l1))
       <==> l1 - e1 < TWO_32 || Cost(e1, l1) == TWO_32 - 1
  {
    if TWO_32 <= l1 - e1 {
      assert Cost(e1, e1 + TWO_32 - 1) == TWO_32 - 1;
    }
  }

  lemma KeptMeans(s: Settings, r: Row<Call>)
    ensures Kept(s)(r) <==> s.traceAll || (Cost(r.call.enter, r.call.leave) > s.timeThreshold && r.depth <= s.maxCallDepth)
  {
  }

  /** Whatever a call made while it was open, nothing of it is recorded when the call itself is not. */
  ghost predicate NeverLost(c: Call, d: nat) {
    forall kids, s | Timed(kids, c.enter, c.leave) && !Kept(s)(Row(d, c)) :: Filter(Flat(kids, d + 1), Kept(s)) == []
  }

  lemma {:induction false} NothingCheaper(c: Call, d: nat, s: Settings, kids: Calls, depth: nat, lo: nat)
    requires forall e2, l2 | c.enter <= e2 <= l2 <= c.leave :: Cost(e2, l2) <= Cost(c.enter, c.leave)
    requires !Kept(s)(Row(d, c)) && d <= depth && c.enter <= lo && Timed(kids, lo, c.leave)
    ensures Filter(Flat(kids, depth), Kept(s)) == []
    decreases kids
  {
    match kids
    case Empty =>
    case Node(k, inner, rest) =>
      Span(rest, k.leave, c.leave);
      TimedLater(inner, k.enter, k.leave, c.leave);
      KeptMeans(s, Row(d, c));
      KeptMeans(s, Row(depth, k));
      hide Kept;
      NothingCheaper(c, d, s, inner, depth + 1, k.enter);
      NothingCheaper(c, d, s, rest, depth, k.leave);
      FilterNode(kids, Kept(s), depth);
  }

  /** No settings and no callees lose a caller exactly if it is below 2^32 microseconds or shows the largest cost. */
  lemma NeverLostExactly(c: Call, d: nat)
    requires c.enter <= c.leave
    ensures NeverLost(c, d) <==> c.leave - c.enter < TWO_32 || Cost(c.enter, c.leave) == TWO_32 - 1
  {
    CallerCostsMoreExactly(c.enter, c.leave);
    hide Cost;
    if forall e2, l2 | c.enter <= e2 <= l2 <= c.leave :: Cost(e2, l2) <= Cost(c.enter, c.leave) {
      forall kids, s | Timed(kids, c.enter, c.leave) && !Kept(s)(Row(d, c)) ensures Filter(Flat(kids, d + 1), Kept(s)) == [] {
        NothingCheaper(c, d, s, kids, d + 1, c.enter);
      }
    } else {
      var e2, l2 :| c.enter <= e2 <= l2 <= c.leave && Cost(e2, l2) > Cost(c.enter, c.leave);
      var kids := Node(Call(0, 0, 0, e2, l2, false), Empty, Empty);
      var s := Settings(false, Cost(c.enter, c.leave), d + 1);
      KeptMeans(s, Row(d, c));
      KeptMeans(s, Row(d + 1, kids.call));
      hide Kept;
      assert Timed(kids, c.enter, c.leave) && !Kept(s)(Row(d, c));
      FilterNode(kids, Kept(s), d + 1);
    }
  }

  /** Below 2^32 microseconds, the caller of a recorded call is recorded too. */
  lemma CallersRecorded(f: Calls, s: Settings, d: nat, lo: nat, hi: nat)
    requires Timed(f, lo, hi) && Shorter(f, TWO_32)
    ensures CallersKept(f, Kept(s), d)
  {
    PassingUpKeepsCallers(f, Kept(s), TWO_32, d, lo, hi);
  }

  /** The record list is the flat list of the pruned forest, so it fixes which recorded call made which. */
  lemma RecordsDetermineCalls(f: Calls, g: Calls, s: Settings, lo: nat, hi: nat)
    requires Timed(f, lo, hi) && Timed(g, lo, hi) && Shorter(f, TWO_32) && Shorter(g, TWO_32)
    requires Run(Tracing(s), Trace([], []), Events(f)).records == Run(Tracing(s), Trace([], []), Events(g)).records
    ensures Relabel(Prune(f, Kept(s), 0), Show) == Relabel(Prune(g, Kept(s), 0), Show)
  {
    RecordsArePruned(f, s, lo, hi);
    RecordsArePruned(g, s, lo, hi);
    var pf, pg := Relabel(Prune(f, Kept(s), 0), Show), Relabel(Prune(g, Kept(s), 0), Show);
    RecordsInjective(Flat(pf, 0), Flat(pg, 0));
    FlatDetermines(pf, pg, 0);
  }

  lemma RecordsArePruned(f: Calls, s: Settings, lo: nat, hi: nat)
    requires Timed(f, lo, hi) && Shorter(f, TWO_32)
    ensures Run(Tracing(s), Trace([], []), Events(f)).records == Records(Flat(Relabel(Prune(f, Kept(s), 0), Show), 0))
  {
    RecordsAreFilteredPostOrder(Trace([], []), s, f);
    CallersRecorded(f, s, 0, lo, hi);
    FilterIsPrune(f, Kept(s), 0);
    FlatRelabel(Prune(f, Kept(s), 0), Show, 0);
  }

  lemma RecordsInjective(a: seq<Row<Shown>>, b: seq<Row<Shown>>)
    requires Records(a) == Records(b)
    ensures a == b
  {
    assert |a| == |Records(a)| && |b| == |Records(b)|;
    forall i | 0 <= i < |a| ensures a[i] == b[i] {
      assert Records(a)[i] == Records(b)[i];
    }
  }

  // ----------------------------------------------------------------------------- a thread and the records

  /** `_callrecords`: grown one record before it is full. */
  class CallRecords {
    var items: array?<CallRecord>
    var num: nat

    ghost predicate Valid()
      reads this, items
    {
      if items == null then num == 0 else num < items.Length
    }

    ghost function Contents(): seq<CallRecord>
      reads this, items
      requires Valid()
    {
      if items == null then [] else items[..num]
    }

    constructor ()
      ensures Valid() && Contents() == []
    {
      items, num := null, 0;
    }

    method Add(r: CallRecord)
      requires Valid()
      modifies this, items
      ensures Valid() && Contents() == old(Contents()) + [r]
      ensures items == old(items) || fresh(items)
    {
      if items == null {
        items := new CallRecord[1024];
      }
      num := num + 1;
      if num >= items.Length {
        var bigger := new CallRecord[items.Length + 1024];
        forall i | 0 <= i < items.Length {
          bigger[i] := items[i];
        }
        items := bigger;
      }
      items[num - 1] := r;
    }

    method Clear()
      modifies this
      ensures Valid() && Contents() == []
    {
      items, num := null, 0;
    }
  }

  /** The return addresses of the open calls. */
  function Addresses(stack: seq<ThreadCallRecord>): seq<nat> {
    seq(|stack|, i requires 0 <= i < |stack| => stack[i].lr)
  }

  /** Its open calls also hold the return addresses, so that it takes its part in the runs of ReturnAddresses. */
  class Thread {
    const cs: GrowableStack<ThreadCallRecord>
    const isMain: bool

    constructor (isMain: bool)
      ensures this.isMain == isMain && cs.Valid() && cs.Contents() == [] && cs.items.Length == 64
      ensures fresh(cs) && fresh(cs.items)
    {
      this.isMain := isMain;
      cs := new GrowableStack<ThreadCallRecord>(64);
    }

    /** Without recording, the new record keeps whatever time its memory holds. */
    method PushCallRecord(cls: nat, cmd: nat, lr: nat, enabled: bool, now: nat,
                          ghost m: ReturnAddresses.Stacks, ghost thread: nat)
      requires cs.Valid() && ReturnAddresses.StackOf(m, thread) == Addresses(cs.Contents())
      modifies cs, cs.items
      ensures cs.Valid() && (cs.items == old(cs.items) || fresh(cs.items))
      ensures |cs.Contents()| == |old(cs.Contents())| + 1 && old(cs.Contents()) <= cs.Contents()
      ensures var r := cs.Contents()[|old(cs.Contents())|];
              r == ThreadCallRecord(cls, cmd, if isMain && enabled then now else r.time, lr)
      ensures Addresses(cs.Contents())
           == ReturnAddresses.StackOf(ReturnAddresses.Step(m, ReturnAddresses.Before(thread, lr)), thread)
    {
      var time: nat;
      if isMain && enabled {
        time := now;
      } else if cs.index + 1 < cs.items.Length {
        time := cs.items[cs.index + 1].time;
      } else {
        time := *;
      }
      cs.Push(ThreadCallRecord(cls, cmd, time, lr));
    }

    method PopCallRecord(records: CallRecords, s: Settings, enabled: bool, now: nat,
                         ghost m: ReturnAddresses.Stacks, ghost thread: nat) returns (lr: nat)
      requires cs.Valid() && cs.Contents() != [] && records.Valid()
      requires ReturnAddresses.StackOf(m, thread) == Addresses(cs.Contents())
      modifies cs, records, records.items
      ensures cs.Valid() && records.Valid()
      ensures var t := old(Trace(cs.Contents(), records.Contents()));
              && lr == t.stack[|t.stack| - 1].lr
              && Trace(cs.Contents(), records.Contents())
                 == if isMain && enabled then PopRecord(t, s, now) else t.(stack := t.stack[..|t.stack| - 1])
      ensures Some(lr) == ReturnAddresses.Returned(m, ReturnAddresses.After(thread))
      ensures Addresses(cs.Contents())
           == ReturnAddresses.StackOf(ReturnAddresses.Step(m, ReturnAddresses.After(thread)), thread)
    {
      var depth := cs.index;
      var r := cs.Pop();
      assert old(cs.Contents())[..depth] == cs.Contents();
      if isMain && enabled {
        var cost := (now - r.time) % TWO_32;
        if s.traceAll || (cost > s.timeThreshold && cs.index < s.maxCallDepth) {
          records.Add(CallRecord(r.cls, depth, r.cmd, cost));
        }
      }
      lr := r.lr;
    }
  }
}
