/**
 What both objc_msgSend tracers are about: the forest of completed calls on a thread. A tracer sees
 the enters and leaves and writes a flat list of (depth, call) rows, the callees of a call in front
 of it. That list has everything: it belongs to one forest only.
 */
module CallForest {

  /** A row of siblings: the first call, the calls it made, and the siblings after it. */
  datatype Forest<+T> = Empty | Node(call: T, kids: Forest<T>, rest: Forest<T>)

  datatype Row<+T> = Row(depth: nat, call: T)

  /** Every call with its depth, in the order of the leaves (post-order). */
  function Flat<T>(f: Forest<T>, d: nat): seq<Row<T>> {
    match f
    case Empty => []
    case Node(call, kids, rest) => Flat(kids, d + 1) + [Row(d, call)] + Flat(rest, d)
  }

  lemma {:induction false} FlatDepths<T>(f: Forest<T>, d: nat)
    ensures forall r | r in Flat(f, d) :: d <= r.depth
  {
    match f
    case Empty =>
    case Node(_, kids, rest) =>
      FlatDepths(kids, d + 1);
      FlatDepths(rest, d);
  }

  /** The flat list determines the forest. */
  lemma {:induction false} FlatDetermines<T>(f: Forest<T>, g: Forest<T>, d: nat)
    requires Flat(f, d) == Flat(g, d)
    ensures f == g
  {
    if f.Node? && g.Node? {
      FlatDepths(f.kids, d + 1);
      FlatDepths(g.kids, d + 1);
      SplitAtDepth(Flat(f.kids, d + 1), Row(d, f.call), Flat(f.rest, d),
                   Flat(g.kids, d + 1), Row(d, g.call), Flat(g.rest, d));
      FlatDetermines(f.kids, g.kids, d + 1);
      FlatDetermines(f.rest, g.rest, d);
    }
  }

  /** The first row at a depth splits a list in one way only. */
  lemma SplitAtDepth<T>(a: seq<Row<T>>, x: Row<T>, b: seq<Row<T>>, a': seq<Row<T>>, x': Row<T>, b': seq<Row<T>>)
    requires a + [x] + b == a' + [x'] + b' && x.depth == x'.depth
    requires (forall r | r in a :: x.depth < r.depth) && (forall r | r in a' :: x.depth < r.depth)
    ensures a == a' && x == x' && b == b'
  {
    var s, s' := a + [x] + b, a' + [x'] + b';
    assert s[|a|] == x && s'[|a'|] == x';
    assert s[|a'|] == x' && s'[|a|] == x;
    assert |a| == |a'|;
    assert a == s[..|a|] && b == s[|a| + 1..];
    assert a' == s'[..|a'|] && b' == s'[|a'| + 1..];
  }

  /** The calls that pass a test, without the subtrees of those that do not. */
  function Prune<T>(f: Forest<T>, keep: Row<T> -> bool, d: nat): Forest<T> {
    match f
    case Empty => Empty
    case Node(call, kids, rest) =>
      if keep(Row(d, call)) then Node(call, Prune(kids, keep, d + 1), Prune(rest, keep, d))
      else Prune(rest, keep, d)
  }

  function Filter<T>(rows: seq<Row<T>>, keep: Row<T> -> bool): seq<Row<T>> {
    if rows == [] then [] else (if keep(rows[0]) then [rows[0]] else []) + Filter(rows[1..], keep)
  }

  lemma {:induction false} FilterConcat<T>(a: seq<Row<T>>, b: seq<Row<T>>, keep: Row<T> -> bool)
    ensures Filter(a + b, keep) == Filter(a, keep) + Filter(b, keep)
  {
    if a == [] {
      assert a + b == b;
    } else {
      FilterConcat(a[1..], b, keep);
      assert (a + b)[1..] == a[1..] + b;
      var first := if keep(a[0]) then [a[0]] else [];
      assert Filter(a, keep) == first + Filter(a[1..], keep);
      assert Filter(a + b, keep) == first + Filter(a[1..] + b, keep);
      hide Filter;
    }
  }

  /** The filtered list of one call, its callees and its siblings. */
  lemma FilterNode<T>(f: Forest<T>, keep: Row<T> -> bool, d: nat)
    requires f.Node?
    ensures Filter(Flat(f, d), keep)
         == Filter(Flat(f.kids, d + 1), keep)
            + (if keep(Row(d, f.call)) then [Row(d, f.call)] else [])
            + Filter(Flat(f.rest, d), keep)
  {
    FilterConcat(Flat(f.kids, d + 1) + [Row(d, f.call)], Flat(f.rest, d), keep);
    FilterConcat(Flat(f.kids, d + 1), [Row(d, f.call)], keep);
    assert Filter([Row(d, f.call)], keep) == if keep(Row(d, f.call)) then [Row(d, f.call)] else [];
  }

  /** The rows that pass, and no others. */
  lemma {:induction false} FilterHas<T>(rows: seq<Row<T>>, keep: Row<T> -> bool, r: Row<T>)
    ensures r in Filter(rows, keep) <==> r in rows && keep(r)
  {
    if rows != [] {
      FilterHas(rows[1..], keep, r);
      assert rows == [rows[0]] + rows[1..];
    }
  }

  /** No kept call has a dropped caller. */
  ghost predicate CallersKept<T>(f: Forest<T>, keep: Row<T> -> bool, d: nat) {
    match f
    case Empty => true
    case Node(call, kids, rest) =>
      && (!keep(Row(d, call)) ==> Filter(Flat(kids, d + 1), keep) == [])
      && CallersKept(kids, keep, d + 1)
      && CallersKept(rest, keep, d)
  }

  /** Then the kept rows are themselves the flat list of a forest, the pruned one. */
  lemma {:induction false} FilterIsPrune<T>(f: Forest<T>, keep: Row<T> -> bool, d: nat)
    requires CallersKept(f, keep, d)
    ensures Filter(Flat(f, d), keep) == Flat(Prune(f, keep, d), d)
  {
    match f
    case Empty =>
    case Node(call, kids, rest) =>
      FilterNode(f, keep, d);
      FilterIsPrune(kids, keep, d + 1);
      FilterIsPrune(rest, keep, d);
  }

  // ------------------------------------------------------------------------------------- relabelling

  function Relabel<T, U>(f: Forest<T>, tag: T -> U): Forest<U> {
    match f
    case Empty => Empty
    case Node(call, kids, rest) => Node(tag(call), Relabel(kids, tag), Relabel(rest, tag))
  }

  function RelabelRows<T, U>(rows: seq<Row<T>>, tag: T -> U): seq<Row<U>> {
    seq(|rows|, i requires 0 <= i < |rows| => Row(rows[i].depth, tag(rows[i].call)))
  }

  lemma {:induction false} FlatRelabel<T, U>(f: Forest<T>, tag: T -> U, d: nat)
    ensures RelabelRows(Flat(f, d), tag) == Flat(Relabel(f, tag), d)
  {
    match f
    case Empty =>
    case Node(call, kids, rest) =>
      FlatRelabel(kids, tag, d + 1);
      FlatRelabel(rest, tag, d);
      var a, b := Flat(kids, d + 1), Flat(rest, d);
      assert RelabelRows(a + [Row(d, call)] + b, tag)
          == RelabelRows(a, tag) + [Row(d, tag(call))] + RelabelRows(b, tag);
  }

  // ------------------------------------------------------------------- enters and leaves of a thread

  /** A message send: class, selector, return address, when it entered and left (microseconds), and how. */
  datatype Call = Call(cls: nat, sel: nat, lr: nat, enter: nat, leave: nat, isSuper: bool)

  datatype Event = Enter(call: Call) | Leave(call: Call)

  type Calls = Forest<Call>

  /** What a thread that runs the forest does. */
  function Events(f: Calls): seq<Event> {
    match f
    case Empty => []
    case Node(call, kids, rest) => [Enter(call)] + Events(kids) + [Leave(call)] + Events(rest)
  }

  /** A tracer with state S sees the events one by one. */
  function Run<S>(step: (S, Event) -> S, s: S, es: seq<Event>): S
    decreases |es|
  {
    if es == [] then s else Run(step, step(s, es[0]), es[1..])
  }

  lemma {:induction false} RunConcat<S>(step: (S, Event) -> S, s: S, a: seq<Event>, b: seq<Event>)
    ensures Run(step, s, a + b) == Run(step, Run(step, s, a), b)
    decreases |a|
  {
    if a == [] {
      assert a + b == b;
    } else {
      assert (a + b)[1..] == a[1..] + b;
      RunConcat(step, step(s, a[0]), a[1..], b);
    }
  }

  lemma RunNode<S>(step: (S, Event) -> S, s: S, f: Calls)
    requires f.Node?
    ensures var t := Run(step, step(s, Enter(f.call)), Events(f.kids));
            Run(step, s, Events(f)) == Run(step, step(t, Leave(f.call)), Events(f.rest))
  {
    var k, r := Events(f.kids), Events(f.rest);
    var tail := k + ([Leave(f.call)] + r);
    EventsOfNode(f);
    hide Run, Events;
    RunOne(step, s, Enter(f.call), tail);
    var s1 := step(s, Enter(f.call));
    RunConcat(step, s1, k, [Leave(f.call)] + r);
    RunOne(step, Run(step, s1, k), Leave(f.call), r);
  }

  lemma EventsOfNode(f: Calls)
    requires f.Node?
    ensures Events(f) == [Enter(f.call)] + (Events(f.kids) + ([Leave(f.call)] + Events(f.rest)))
  {
    var k, r := Events(f.kids), Events(f.rest);
    hide Events;
    Regroup([Enter(f.call)], k, [Leave(f.call)], r);
  }

  lemma Regroup<T>(a: seq<T>, x: seq<T>, y: seq<T>, z: seq<T>)
    ensures a + x + y + z == a + (x + (y + z))
  {
  }

  lemma RunOne<S>(step: (S, Event) -> S, s: S, e: Event, es: seq<Event>)
    ensures Run(step, s, [e] + es) == Run(step, step(s, e), es)
  {
  }

  lemma Glue<T>(a: seq<T>, x: seq<T>, y: seq<T>, z: seq<T>)
    ensures a + x + y + z == a + (x + y + z)
  {
  }

  // ------------------------------------------------------------------------------- calls inside calls

  /** The clock never goes back: calls lie one after another inside their caller. */
  ghost predicate Timed(f: Calls, lo: nat, hi: nat) {
    match f
    case Empty => lo <= hi
    case Node(c, kids, rest) => lo <= c.enter <= c.leave && Timed(kids, c.enter, c.leave) && Timed(rest, c.leave, hi)
  }

  /** Every call lasts less than a limit. */
  ghost predicate Shorter(f: Calls, limit: nat) {
    match f
    case Empty => true
    case Node(c, kids, rest) => c.leave - c.enter < limit && Shorter(kids, limit) && Shorter(rest, limit)
  }

  /** So does every call of its flat list. */
  lemma {:induction false} RowTimed(f: Calls, d: nat, lo: nat, hi: nat, limit: nat, r: Row<Call>)
    requires Timed(f, lo, hi) && Shorter(f, limit) && r in Flat(f, d)
    ensures r.call.enter <= r.call.leave < r.call.enter + limit
    decreases f
  {
    match f
    case Empty =>
    case Node(c, kids, rest) =>
      if r in Flat(kids, d + 1) {
        RowTimed(kids, d + 1, c.enter, c.leave, limit, r);
      } else if r in Flat(rest, d) {
        RowTimed(rest, d, c.leave, hi, limit, r);
      } else {
        assert r == Row(d, c);
      }
  }

  /** A test that passes for a call passes for every call around it that lasts less than the limit. */
  ghost predicate PassesUp(keep: Row<Call> -> bool, limit: nat) {
    forall d: nat, a: Call, b: Call | a.enter <= b.enter <= b.leave <= a.leave < a.enter + limit ::
      keep(Row(d + 1, b)) ==> keep(Row(d, a))
  }

  lemma {:induction false} Span(f: Calls, lo: nat, hi: nat)
    requires Timed(f, lo, hi)
    ensures lo <= hi
    decreases f
  {
    if f.Node? { Span(f.rest, f.call.leave, hi); }
  }

  /** A forest that fits an interval fits a longer one. */
  lemma {:induction false} TimedLater(f: Calls, lo: nat, hi: nat, later: nat)
    requires Timed(f, lo, hi) && hi <= later
    ensures Timed(f, lo, later)
    decreases f
  {
    if f.Node? { TimedLater(f.rest, f.call.leave, hi, later); }
  }

  /** Then no kept call has a dropped caller. */
  lemma {:induction false} PassingUpKeepsCallers(f: Calls, keep: Row<Call> -> bool, limit: nat, d: nat, lo: nat, hi: nat)
    requires Timed(f, lo, hi) && Shorter(f, limit) && PassesUp(keep, limit)
    ensures CallersKept(f, keep, d)
    decreases f
  {
    match f
    case Empty =>
    case Node(c, kids, rest) =>
      PassingUpKeepsCallers(kids, keep, limit, d + 1, c.enter, c.leave);
      PassingUpKeepsCallers(rest, keep, limit, d, c.leave, hi);
      if !keep(Row(d, c)) {
        NothingInside(kids, keep, limit, d, c, c.enter);
      }
  }

  lemma {:induction false} NothingInside(f: Calls, keep: Row<Call> -> bool, limit: nat, d: nat, caller: Call, lo: nat)
    requires caller.enter <= lo && Timed(f, lo, caller.leave) && caller.leave - caller.enter < limit
    requires PassesUp(keep, limit) && !keep(Row(d, caller))
    ensures Filter(Flat(f, d + 1), keep) == []
    decreases f
  {
    match f
    case Empty =>
    case Node(c, kids, rest) =>
      Span(rest, c.leave, caller.leave);
      assert !keep(Row(d + 1, c));
      NothingInside(kids, keep, limit, d + 1, c, c.enter);
      NothingInside(rest, keep, limit, d, caller, c.leave);
      FilterNode(f, keep, d + 1);
  }
}
