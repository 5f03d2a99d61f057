/**
 TPCallTrace: on the main thread it keeps the open calls down to a depth limit, counts the deeper ones,
 and records every call that lasted long enough when it leaves. On every thread it keeps the return
 addresses that the hook of objc_msgSend replaced.
 */
module TPCallTrace {
  import opened CallForest
  import opened Growable

  const MICROS_PER_WRAP := 1_000_000_000
  const TWO_64 := 0x1_0000_0000_0000_0000

  datatype MethodRecord = MethodRecord(cls: nat, sel: nat, time: nat)

  datatype TPCallRecord = TPCallRecord(cls: nat, sel: nat, depth: int, costTime: nat, isSuper: bool)

  datatype Settings = Settings(maxDepth: int, costMinTime: nat)

  /** The clock of `getVirtualCallTime`, which starts over every 1000 seconds. */
  function VirtualTime(now: nat): nat {
    now % MICROS_PER_WRAP
  }

  /** The unsigned 64-bit difference of two readings. */
  function CostTime(enter: nat, leave: nat): nat {
    (VirtualTime(leave) - VirtualTime(enter)) % TWO_64
  }

  // --------------------------------------------------------------- the main thread's trace, as values

  /** The open calls that are kept, the number of open calls that are not, and the records so far. */
  datatype Trace = Trace(stack: seq<MethodRecord>, ignoreCallNum: nat, records: seq<TPCallRecord>)

  function PushRecord(t: Trace, s: Settings, cls: nat, sel: nat, now: nat): Trace {
    if |t.stack| - 1 >= s.maxDepth then t.(ignoreCallNum := t.ignoreCallNum + 1)
    else t.(stack := t.stack + [MethodRecord(cls, sel, VirtualTime(now))])
  }

  function PopRecord(t: Trace, s: Settings, isSuper: bool, now: nat): Trace {
    if t.ignoreCallNum > 0 then t.(ignoreCallNum := t.ignoreCallNum - 1)
    else if t.stack == [] then t
    else
      var depth := |t.stack| - 1;
      var r := t.stack[depth];
      var costTime := (VirtualTime(now) - r.time) % TWO_64;
      Trace(t.stack[..depth], 0,
            if costTime >= s.costMinTime then t.records + [TPCallRecord(r.cls, r.sel, depth, costTime, isSuper)]
            else t.records)
  }

  function Step(t: Trace, s: Settings, e: Event): Trace {
    match e
    case Enter(c) => PushRecord(t, s, c.cls, c.sel, c.enter)
    case Leave(c) => PopRecord(t, s, c.isSuper, c.leave)
  }

  function Tracing(s: Settings): (Trace, Event) -> Trace {
    (t: Trace, e: Event) => Step(t, s, e)
  }

  /** The calls that are recorded: not too deep, not too short. */
  function Kept(s: Settings): Row<Call> -> bool {
    (r: Row<Call>) => r.depth <= s.maxDepth && CostTime(r.call.enter, r.call.leave) >= s.costMinTime
  }

  /** What a record shows of a call. */
  datatype Shown = Shown(cls: nat, sel: nat, costTime: nat, isSuper: bool)

  function Show(c: Call): Shown {
    Shown(c.cls, c.sel, CostTime(c.enter, c.leave), c.isSuper)
  }

  function Records(rows: seq<Row<Call>>): seq<TPCallRecord> {
    seq(|rows|, i requires 0 <= i < |rows| => Record(rows[i]))
  }

  function Record(r: Row<Call>): TPCallRecord {
    var c := Show(r.call);
    TPCallRecord(c.cls, c.sel, r.depth, c.costTime, c.isSuper)
  }

  /** Calls are ignored only below the kept ones that reach the limit. */
  predicate Sound(t: Trace, s: Settings) {
    t.ignoreCallNum > 0 ==> |t.stack| - 1 >= s.maxDepth
  }

  function Nesting(t: Trace): nat {
    |t.stack| + t.ignoreCallNum
  }

  /** The records of a forest at a depth: its post-order, filtered, each call with its true depth. */
  function Recorded(f: Calls, s: Settings, d: nat): seq<TPCallRecord> {
    Records(Filter(Flat(f, d), Kept(s)))
  }

  function OwnRecord(c: Call, s: Settings, d: nat): seq<TPCallRecord> {
    if Kept(s)(Row(d, c)) then [Record(Row(d, c))] else []
  }

  /** A call, its callees and its siblings, one after the other. */
  lemma RunCall(t: Trace, s: Settings, f: Calls)
    requires f.Node?
    ensures Run(Tracing(s), t, Events(f))
         == Run(Tracing(s), Step(Run(Tracing(s), Step(t, s, Enter(f.call)), Events(f.kids)), s, Leave(f.call)), Events(f.rest))
  {
    hide Step, Run, Events;
    RunNode(Tracing(s), t, f);
  }

  lemma RecordsApart(t: Trace, s: Settings, records: seq<TPCallRecord>)
    ensures Nesting(t.(records := records)) == Nesting(t) && (Sound(t.(records := records), s) <==> Sound(t, s))
  {
  }

  /** The records of a call from those of its callees, its own, and those of its siblings. */
  lemma NodeRecords(t: Trace, s: Settings, f: Calls, inside: seq<TPCallRecord>, own: seq<TPCallRecord>, more: seq<TPCallRecord>)
    requires f.Node?
    requires var t1 := Step(t, s, Enter(f.call));
             var t2 := t1.(records := t1.records + inside);
             var t3 := t.(records := t.records + inside + own);
             && Run(Tracing(s), t1, Events(f.kids)) == t2 && Step(t2, s, Leave(f.call)) == t3
             && Run(Tracing(s), t3, Events(f.rest)) == t3.(records := t3.records + more)
    ensures Run(Tracing(s), t, Events(f)) == t.(records := t.records + (inside + own + more))
  {
    hide Step, Events, Run, Tracing;
    RunCall(t, s, f);
    Glue(t.records, inside, own, more);
  }

  /** For any forest of calls, the tracer adds exactly its records, and its stack is as before. */
  lemma {:induction false} RecordsAreFilteredPostOrder(t: Trace, s: Settings, f: Calls)
    requires Sound(t, s)
    ensures Run(Tracing(s), t, Events(f)) == t.(records := t.records + Recorded(f, s, Nesting(t)))
    decreases f
  {
    match f
    case Empty => assert t.records + [] == t.records;
    case Node(c, kids, rest) =>
      hide Recorded, Step, OwnRecord, Events, Run, Sound, Nesting, Tracing;
      var d, t1 := Nesting(t), Step(t, s, Enter(c));
      var inside, own, more := Recorded(kids, s, d + 1), OwnRecord(c, s, d), Recorded(rest, s, d);
      EnterThenLeave(t, s, c, inside);
      RecordsAreFilteredPostOrder(t1, s, kids);
      RecordsApart(t, s, t.records + inside + own);
      RecordsAreFilteredPostOrder(t.(records := t.records + inside + own), s, rest);
      RecordedNode(f, s, d);
      NodeRecords(t, s, f, inside, own, more);
  }

  lemma RecordedNode(f: Calls, s: Settings, d: nat)
    requires f.Node?
    ensures Recorded(f, s, d) == Recorded(f.kids, s, d + 1) + OwnRecord(f.call, s, d) + Recorded(f.rest, s, d)
  {
    var own := if Kept(s)(Row(d, f.call)) then [Row(d, f.call)] else [];
    FilterNode(f, Kept(s), d);
    RecordsConcat(Filter(Flat(f.kids, d + 1), Kept(s)), own, Filter(Flat(f.rest, d), Kept(s)));
    assert Records(own) == OwnRecord(f.call, s, d);
  }

  /** A call with the records of its callees in between. */
  lemma {:induction false} EnterThenLeave(t: Trace, s: Settings, c: Call, inside: seq<TPCallRecord>)
    requires Sound(t, s)
    ensures var t1, d := Step(t, s, Enter(c)), Nesting(t);
            && Sound(t1, s) && Nesting(t1) == d + 1
            && Step(t1.(records := t1.records + inside), s, Leave(c)) == t.(records := t.records + inside + OwnRecord(c, s, d))
  {
    var d := Nesting(t);
    if d <= s.maxDepth {
      var stack := t.stack + [MethodRecord(c.cls, c.sel, VirtualTime(c.enter))];
      assert stack[..d] == t.stack && stack[d].time == VirtualTime(c.enter);
    } else {
      assert t.records + inside + [] == t.records + inside;
    }
  }

  lemma RecordsConcat(a: seq<Row<Call>>, b: seq<Row<Call>>, c: seq<Row<Call>>)
    ensures Records(a + b + c) == Records(a) + Records(b) + Records(c)
  {
  }

  /** What a record tells of a call and its depth; the clock starts over every 1000 seconds. */
  predicate Tells(rec: TPCallRecord, r: Row<Call>) {
    && rec.cls == r.call.cls && rec.sel == r.call.sel && rec.isSuper == r.call.isSuper && rec.depth == r.depth
    && rec.costTime == (r.call.leave % 1_000_000_000 - r.call.enter % 1_000_000_000) % TWO_64
  }

  lemma TellsExactly(rec: TPCallRecord, r: Row<Call>)
    ensures Tells(rec, r) <==> rec == Record(r)
  {
  }

  lemma RecordsHas(rows: seq<Row<Call>>, rec: TPCallRecord)
    ensures rec in Records(rows) <==> exists r :: r in rows && Tells(rec, r)
  {
    forall r ensures Tells(rec, r) <==> rec == Record(r) {
      TellsExactly(rec, r);
    }
    hide Tells, Record;
    if rec in Records(rows) {
      var k :| 0 <= k < |rows| && Records(rows)[k] == rec;
      assert rows[k] in rows && Tells(rec, rows[k]);
    }
    forall r | r in rows && Tells(rec, r) ensures rec in Records(rows) {
      var k :| 0 <= k < |rows| && rows[k] == r;
      assert Records(rows)[k] == rec;
    }
  }

  /** A record is one of a recorded forest exactly if it tells of a call that is not too deep and cost enough. */
  lemma RecordedExactly(f: Calls, s: Settings, d: nat, rec: TPCallRecord)
    ensures rec in Recorded(f, s, d)
       <==> exists r :: r in Flat(f, d) && Tells(rec, r) && rec.depth <= s.maxDepth && rec.costTime >= s.costMinTime
  {
    var rows := Flat(f, d);
    RecordsHas(Filter(rows, Kept(s)), rec);
    forall r | Tells(rec, r)
      ensures r in Filter(rows, Kept(s)) <==> r in rows && rec.depth <= s.maxDepth && rec.costTime >= s.costMinTime
    {
      FilterHas(rows, Kept(s), r);
      KeptMeans(s, r);
      TellsExactly(rec, r);
    }
    hide Filter, Flat, Kept, Records, Tells;
  }

  // -------------------------------------------------------------------------------- costs and the clock

  /** The recorded cost is the true one exactly when the clock did not start over in between. */
  lemma CostIsTrueInOneWindow(enter: nat, leave: nat)
    requires enter <= leave < enter + TWO_64
    ensures CostTime(enter, leave) == leave - enter <==> leave / MICROS_PER_WRAP == enter / MICROS_PER_WRAP
  {
  }

  lemma CostCases(a: nat, b: nat)
    requires a < MICROS_PER_WRAP && b < MICROS_PER_WRAP
    ensures (b - a) % TWO_64 == if a <= b then b - a else TWO_64 - (a - b)
  {
  }

  /** The reading after a duration below one turn of the clock. */
  lemma VirtualLater(t: nat, d: nat)
    requires d < MICROS_PER_WRAP
    ensures VirtualTime(t + d)
         == if VirtualTime(t) + d < MICROS_PER_WRAP then VirtualTime(t) + d else VirtualTime(t) + d - MICROS_PER_WRAP
  {
  }

  /** A call of less than 1000 seconds never looks cheaper than a call inside it, clock turns included. */
  lemma {:induction false} CallerCostsMore(e1: nat, e2: nat, l2: nat, l1: nat)
    requires e1 <= e2 <= l2 <= l1 < e1 + MICROS_PER_WRAP
    ensures CostTime(e2, l2) <= CostTime(e1, l1)
  {
    VirtualLater(e1, e2 - e1);
    VirtualLater(e1, l2 - e1);
    VirtualLater(e1, l1 - e1);
    CostCases(VirtualTime(e1), VirtualTime(l1));
    CostCases(VirtualTime(e2), VirtualTime(l2));
  }

  /** And the bound is exact: a longer call dominates all inner calls only when its cost is the largest of all. */
  lemma CallerCostsMoreExactly(e1: nat, l1: nat)
    requires e1 <= l1
    ensures (forall e2, l2 | e1 <= e2 <= l2 <= l1 :: CostTime(e2, l2) <= CostTime(e1, l1))
       <==> l1 - e1 < MICROS_PER_WRAP || CostTime(e1, l1) == TWO_64 - 1
  {
    if l1 - e1 < MICROS_PER_WRAP {
      forall e2, l2 | e1 <= e2 <= l2 <= l1 ensures CostTime(e2, l2) <= CostTime(e1, l1) {
        CallerCostsMore(e1, e2, l2, l1);
      }
    } else {
      var e2 := if VirtualTime(e1) == 0 then e1 + 1 else e1;
      VirtualLater(e1, e2 - e1);
      VirtualLater(e2, MICROS_PER_WRAP - 1);
      CostCases(VirtualTime(e2), VirtualTime(e2 + MICROS_PER_WRAP - 1));
      assert e1 <= e2 <= e2 + MICROS_PER_WRAP - 1 <= l1;
      assert CostTime(e2, e2 + MICROS_PER_WRAP - 1) == TWO_64 - 1;
    }
  }

  lemma KeptMeans(s: Settings, r: Row<Call>)
    ensures Kept(s)(r) <==> r.depth <= s.maxDepth && CostTime(r.call.enter, r.call.leave) >= s.costMinTime
  {
  }

  /** Whatever a call made while it was open, nothing of it is recorded when the call itself is not. */
  ghost predicate NeverLost(c: Call, d: nat) {
    forall kids, s | Timed(kids, c.enter, c.leave) && !Kept(s)(Row(d, c)) :: Filter(Flat(kids, d + 1), Kept(s)) == []
  }

  lemma {:induction false} NothingCheaper(c: Call, d: nat, s: Settings, kids: Calls, depth: nat, lo: nat)
    requires forall e2, l2 | c.enter <= e2 <= l2 <= c.leave :: CostTime(e2, l2) <= CostTime(c.enter, c.leave)
    requires !Kept(s)(Row(d, c)) && d <= depth && c.enter <= lo && Timed(kids, lo, c.leave)
    ensures Filter(Flat(kids, depth), Kept(s)) == []
    decreases kids
  {
    match kids
    case Empty =>
    case Node(k, inner, rest) =>
      hide CostTime;
      Span(rest, k.leave, c.leave);
      TimedLater(inner, k.enter, k.leave, c.leave);
      KeptMeans(s, Row(d, c));
      KeptMeans(s, Row(depth, k));
      hide Kept;
      NothingCheaper(c, d, s, inner, depth + 1, k.enter);
      NothingCheaper(c, d, s, rest, depth, k.leave);
      FilterNode(kids, Kept(s), depth);
  }

  /** No settings and no callees lose a caller exactly if it is below 1000 seconds or shows the largest cost. */
  lemma NeverLostExactly(c: Call, d: nat)
    requires c.enter <= c.leave
    ensures NeverLost(c, d) <==> c.leave - c.enter < MICROS_PER_WRAP || CostTime(c.enter, c.leave) == TWO_64 - 1
  {
    CallerCostsMoreExactly(c.enter, c.leave);
    hide CostTime;
    if forall e2, l2 | c.enter <= e2 <= l2 <= c.leave :: CostTime(e2, l2) <= CostTime(c.enter, c.leave) {
      forall kids, s | Timed(kids, c.enter, c.leave) && !Kept(s)(Row(d, c)) ensures Filter(Flat(kids, d + 1), Kept(s)) == [] {
        NothingCheaper(c, d, s, kids, d + 1, c.enter);
      }
    } else {
      var e2, l2 :| c.enter <= e2 <= l2 <= c.leave && CostTime(e2, l2) > CostTime(c.enter, c.leave);
      var kids := Node(Call(0, 0, 0, e2, l2, false), Empty, Empty);
      var s := Settings(d + 1, CostTime(e2, l2));
      KeptMeans(s, Row(d, c));
      KeptMeans(s, Row(d + 1, kids.call));
      hide Kept;
      assert Timed(kids, c.enter, c.leave) && !Kept(s)(Row(d, c));
      FilterNode(kids, Kept(s), d + 1);
    }
  }

  /** With calls below 1000 seconds, the caller of a recorded call is recorded too. */
  lemma CallersRecorded(f: Calls, s: Settings, d: nat, lo: nat, hi: nat)
    requires Timed(f, lo, hi) && Shorter(f, MICROS_PER_WRAP)
    ensures CallersKept(f, Kept(s), d)
  {
    forall d: nat, a: Call, b: Call | a.enter <= b.enter <= b.leave <= a.leave < a.enter + MICROS_PER_WRAP
      ensures Kept(s)(Row(d + 1, b)) ==> Kept(s)(Row(d, a))
    {
      CallerCostsMore(a.enter, b.enter, b.leave, a.leave);
    }
    PassingUpKeepsCallers(f, Kept(s), MICROS_PER_WRAP, d, lo, hi);
  }

  /** So the flat record list is the flat list of the pruned forest ... */
  lemma RecordsArePruned(f: Calls, s: Settings, lo: nat, hi: nat)
    requires Timed(f, lo, hi) && Shorter(f, MICROS_PER_WRAP)
    ensures Run(Tracing(s), Trace([], 0, []), Events(f)).records == Records(Flat(Prune(f, Kept(s), 0), 0))
  {
    RecordsAreFilteredPostOrder(Trace([], 0, []), s, f);
    CallersRecorded(f, s, 0, lo, hi);
    FilterIsPrune(f, Kept(s), 0);
  }

  /** ... and determines it: which recorded call made which. */
  lemma RecordsDetermineCalls(f: Calls, g: Calls, s: Settings, lo: nat, hi: nat)
    requires Timed(f, lo, hi) && Timed(g, lo, hi) && Shorter(f, MICROS_PER_WRAP) && Shorter(g, MICROS_PER_WRAP)
    requires Run(Tracing(s), Trace([], 0, []), Events(f)).records == Run(Tracing(s), Trace([], 0, []), Events(g)).records
    ensures Relabel(Prune(f, Kept(s), 0), Show) == Relabel(Prune(g, Kept(s), 0), Show)
  {
    RecordsArePruned(f, s, lo, hi);
    RecordsArePruned(g, s, lo, hi);
    RowsDetermineShown(Prune(f, Kept(s), 0), Prune(g, Kept(s), 0));
  }

  lemma RowsDetermineShown(f: Calls, g: Calls)
    requires Records(Flat(f, 0)) == Records(Flat(g, 0))
    ensures Relabel(f, Show) == Relabel(g, Show)
  {
    RecordsShow(Flat(f, 0), Flat(g, 0));
    FlatRelabel(f, Show, 0);
    FlatRelabel(g, Show, 0);
    FlatDetermines(Relabel(f, Show), Relabel(g, Show), 0);
  }

  lemma RecordsShow(a: seq<Row<Call>>, b: seq<Row<Call>>)
    requires Records(a) == Records(b)
    ensures RelabelRows(a, Show) == RelabelRows(b, Show)
  {
    assert |a| == |Records(a)| && |b| == |Records(b)|;
    forall i | 0 <= i < |a| ensures RelabelRows(a, Show)[i] == RelabelRows(b, Show)[i] {
      assert Records(a)[i] == Records(b)[i];
    }
  }

  /** A caller of 1000 seconds can be lost while its 5 millisecond callee is recorded. */
  lemma LongCallerLost()
    ensures var callee := Call(1, 1, 0, 0, 5000, false);
            var caller := Call(2, 2, 0, 0, MICROS_PER_WRAP, false);
            var f := Node(caller, Node(callee, Empty, Empty), Empty);
            && Timed(f, 0, MICROS_PER_WRAP)
            && !CallersKept(f, Kept(Settings(3, 1000)), 0)
  {
  }

  // --------------------------------------------------------------- any sequence of enters and leaves

  function Weight(e: Event): int {
    if e.Enter? then 1 else -1
  }

  /** Enters minus leaves. */
  function Level(es: seq<Event>): int {
    if es == [] then 0 else Weight(es[0]) + Level(es[1..])
  }

  /** The lowest level of any prefix. */
  function Lowest(es: seq<Event>): int {
    if es == [] then 0 else
      var l := Weight(es[0]) + Lowest(es[1..]);
      if l < 0 then l else 0
  }

  /** Balanced or not: the stack and the ignored calls together count the level above the lowest so far. */
  lemma {:induction false} NestingIsLevelAboveLowest(t: Trace, s: Settings, es: seq<Event>)
    requires Sound(t, s)
    ensures Sound(Run(Tracing(s), t, es), s)
    ensures var low := Nesting(t) + Lowest(es);
            Nesting(Run(Tracing(s), t, es)) == Nesting(t) + Level(es) - if low < 0 then low else 0
    decreases |es|
  {
    if es != [] {
      NestingIsLevelAboveLowest(Step(t, s, es[0]), s, es[1..]);
    }
  }

  // ------------------------------------------------------------------------------ the tracer's globals

  class Tracer {
    var stack: GrowableStack?<MethodRecord>
    var record: GrowableStack?<TPCallRecord>
    var ignoreCallNum: nat
    var enabled: bool
    var settings: Settings

    ghost predicate Valid()
      reads this, stack, record
      reads if stack == null then {} else {stack.items}, if record == null then {} else {record.items}
    {
      && (stack != null ==> stack.Valid())
      && (record != null ==> record.Valid())
      && (stack == null ==> ignoreCallNum == 0)
    }

    /** A buffer that does not exist holds nothing. */
    ghost function Now(): Trace
      reads this, stack, record
      reads if stack == null then {} else {stack.items}, if record == null then {} else {record.items}
      requires Valid()
    {
      Trace(if stack == null then [] else stack.Contents(), ignoreCallNum, if record == null then [] else record.Contents())
    }

    constructor ()
      ensures Valid() && stack == null && record == null && enabled && settings == Settings(3, 1000)
    {
      stack, record, ignoreCallNum, enabled := null, null, 0, true;
      settings := Settings(3, 1000);
    }

    /** What is not there yet is made, what is there stays: records of earlier traces are kept. */
    method StartTrace()
      requires Valid()
      modifies this
      ensures Valid() && stack != null && record != null && enabled && settings == old(settings)
      ensures Now() == old(Now())
      ensures stack == old(stack) || fresh(stack)
      ensures record == old(record) || fresh(record)
    {
      if record == null {
        record := new GrowableStack<TPCallRecord>(128);
      }
      if stack == null {
        stack := new GrowableStack<MethodRecord>(128);
      }
      enabled := true;
    }

    method StopTrace()
      requires Valid()
      modifies this
      ensures Valid() && !enabled && stack == null && ignoreCallNum == 0
      ensures record == old(record) && settings == old(settings)
    {
      enabled := false;
      if stack != null {
        stack := null;
        ignoreCallNum := 0;
      }
    }

    /** Hands the records over; the next trace starts with an empty list. */
    method GetMainThreadCallRecord() returns (r: GrowableStack?<TPCallRecord>)
      requires Valid()
      modifies this
      ensures Valid() && r == old(record) && record == null
      ensures stack == old(stack) && ignoreCallNum == old(ignoreCallNum) && enabled == old(enabled)
    {
      r := record;
      record := null;
    }

    /** Needs the stack. */
    method PushCallRecord(cls: nat, sel: nat, now: nat)
      requires Valid() && stack != null
      modifies this`ignoreCallNum, stack, stack.items
      ensures Valid() && Now() == PushRecord(old(Now()), settings, cls, sel, now)
    {
      if stack.index >= settings.maxDepth {
        ignoreCallNum := ignoreCallNum + 1;
        return;
      }
      stack.Push(MethodRecord(cls, sel, VirtualTime(now)));
    }

    /** Needs the record buffer where it records. */
    method PopCallRecord(isSuper: bool, now: nat)
      requires Valid() && (record == null ==> PopRecord(Now(), settings, isSuper, now).records == [])
      modifies this`ignoreCallNum, stack, record, if record == null then {} else {record.items}
      ensures Valid() && Now() == PopRecord(old(Now()), settings, isSuper, now)
    {
      if ignoreCallNum > 0 {
        ignoreCallNum := ignoreCallNum - 1;
        return;
      }
      if stack != null && stack.index >= 0 {
        var depth := stack.index;
        var open := stack.Pop();
        var costTime := (VirtualTime(now) - open.time) % TWO_64;
        if costTime >= settings.costMinTime {
          record.Push(TPCallRecord(open.cls, open.sel, depth, costTime, isSuper));
        }
      }
    }

    /** The trace half of the hooks: only the main thread, only while enabled. */
    method Before(isMain: bool, cls: nat, sel: nat, now: nat)
      requires Valid() && (enabled && isMain ==> stack != null)
      modifies this`ignoreCallNum, stack, if stack == null then {} else {stack.items}
      ensures Valid()
      ensures Now() == if enabled && isMain then PushRecord(old(Now()), settings, cls, sel, now) else old(Now())
    {
      if enabled && isMain {
        PushCallRecord(cls, sel, now);
      }
    }

    method After(isMain: bool, isSuper: bool, now: nat)
      requires Valid()
      requires enabled && isMain && record == null ==> PopRecord(Now(), settings, isSuper, now).records == []
      modifies this`ignoreCallNum, stack, record, if record == null then {} else {record.items}
      ensures Valid()
      ensures Now() == if enabled && isMain then PopRecord(old(Now()), settings, isSuper, now) else old(Now())
    {
      if enabled && isMain {
        PopCallRecord(isSuper, now);
      }
    }
  }
}
