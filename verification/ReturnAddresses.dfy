/**
 The hooks put each message send's return address on a stack of its thread and take it back when the
 send is over. Events of all threads interleave, and recording is switched on and off at any moment.
 */
module ReturnAddresses {
  import opened Basics
  import opened CallForest
  import opened Growable

  datatype HookEvent = Before(thread: nat, lr: nat) | After(thread: nat) | Toggle(on: bool)

  type Stacks = map<nat, seq<nat>>

  function StackOf(m: Stacks, t: nat): seq<nat> {
    if t in m then m[t] else []
  }

  function Step(m: Stacks, e: HookEvent): Stacks {
    match e
    case Before(t, lr) => m[t := StackOf(m, t) + [lr]]
    case After(t) => if StackOf(m, t) == [] then m else m[t := m[t][..|m[t]| - 1]]
    case Toggle(_) => m
  }

  /** What the hook of an event returns; nothing when its thread has no open send. */
  function Returned(m: Stacks, e: HookEvent): Option<nat> {
    if e.After? && StackOf(m, e.thread) != [] then Some(m[e.thread][|m[e.thread]| - 1]) else None
  }

  function Run(m: Stacks, es: seq<HookEvent>): Stacks
    decreases |es|
  {
    if es == [] then m else Run(Step(m, es[0]), es[1..])
  }

  predicate IsOf(e: HookEvent, t: nat) {
    !e.Toggle? && e.thread == t
  }

  /** The events of one thread. */
  function Mine(es: seq<HookEvent>, t: nat): seq<HookEvent> {
    if es == [] then [] else (if IsOf(es[0], t) then [es[0]] else []) + Mine(es[1..], t)
  }

  /** The events of a thread that runs a forest of sends. */
  function Sends(f: Forest<nat>, t: nat): seq<HookEvent> {
    match f
    case Empty => []
    case Node(lr, kids, rest) => [Before(t, lr)] + Sends(kids, t) + [After(t)] + Sends(rest, t)
  }

  lemma {:induction false} RunConcat(m: Stacks, a: seq<HookEvent>, b: seq<HookEvent>)
    ensures Run(m, a + b) == Run(Run(m, a), b)
    decreases |a|
  {
    if a == [] {
      assert a + b == b;
    } else {
      assert (a + b)[1..] == a[1..] + b;
      RunConcat(Step(m, a[0]), a[1..], b);
    }
  }

  /** Other threads and the recording switch leave a thread's stack alone. */
  lemma {:induction false} ThreadsAreApart(m: Stacks, n: Stacks, es: seq<HookEvent>, t: nat)
    requires StackOf(m, t) == StackOf(n, t)
    ensures StackOf(Run(m, es), t) == StackOf(Run(n, Mine(es, t)), t)
    decreases |es|
  {
    if es != [] {
      if IsOf(es[0], t) {
        assert Mine(es, t)[1..] == Mine(es[1..], t);
        ThreadsAreApart(Step(m, es[0]), Step(n, es[0]), es[1..], t);
      } else {
        assert Mine(es, t) == Mine(es[1..], t);
        ThreadsAreApart(Step(m, es[0]), n, es[1..], t);
      }
    }
  }

  /** Well nested sends leave their thread's stack as they found it. */
  lemma {:induction false} SendsRestore(m: Stacks, f: Forest<nat>, t: nat)
    ensures StackOf(Run(m, Sends(f, t)), t) == StackOf(m, t)
    decreases f
  {
    match f
    case Empty =>
    case Node(lr, kids, rest) =>
      var a, b, c, d := [Before(t, lr)], Sends(kids, t), [After(t)], Sends(rest, t);
      assert a + b + c + d == a + (b + (c + d));
      RunConcat(m, a, b + (c + d));
      RunConcat(Step(m, a[0]), b, c + d);
      var m2 := Run(Step(m, a[0]), b);
      RunConcat(m2, c, d);
      SendsRestore(Step(m, a[0]), kids, t);
      SendsRestore(Step(m2, c[0]), rest, t);
  }

  /**
   In any trace, whatever the other threads do and however recording is toggled, an after-hook returns
   the address that its matching before-hook saved: the one with only whole sends of the thread between.
   */
  lemma AfterReturnsItsBefore(m: Stacks, es: seq<HookEvent>, i: nat, j: nat, between: Forest<nat>)
    requires i < j < |es| && es[i].Before? && es[j] == After(es[i].thread)
    requires Mine(es[i + 1..j], es[i].thread) == Sends(between, es[i].thread)
    ensures Returned(Run(m, es[..j]), es[j]) == Some(es[i].lr)
  {
    var t := es[i].thread;
    var m1 := Run(m, es[..i]);
    assert es[..j] == es[..i] + ([es[i]] + es[i + 1..j]);
    RunConcat(m, es[..i], [es[i]] + es[i + 1..j]);
    RunConcat(m1, [es[i]], es[i + 1..j]);
    var m2 := Step(m1, es[i]);
    ThreadsAreApart(m2, m2, es[i + 1..j], t);
    SendsRestore(m2, between, t);
  }

  /** One thread's value of the key: no stack before its first send. */
  class LRSlot {
    var lrStack: GrowableStack?<nat>

    ghost predicate Valid()
      reads this, lrStack, if lrStack == null then {} else {lrStack.items}
    {
      lrStack != null ==> lrStack.Valid()
    }

    /** The thread's stack in the model. */
    ghost function Open(): seq<nat>
      reads this, lrStack, if lrStack == null then {} else {lrStack.items}
      requires Valid()
    {
      if lrStack == null then [] else lrStack.Contents()
    }

    constructor ()
      ensures Valid() && Open() == []
    {
      lrStack := null;
    }

    method SetLRRegisterValue(lr: nat, ghost m: Stacks, ghost thread: nat)
      requires Valid() && StackOf(m, thread) == Open()
      modifies this, lrStack, if lrStack == null then {} else {lrStack.items}
      ensures Valid() && Open() == StackOf(Step(m, Before(thread, lr)), thread)
      ensures lrStack == old(lrStack) || fresh(lrStack)
    {
      if lrStack == null {
        lrStack := new GrowableStack<nat>(128);
      }
      lrStack.Push(lr);
    }

    method GetLRRegisterValue(ghost m: Stacks, ghost thread: nat) returns (lr: nat)
      requires Valid() && StackOf(m, thread) == Open() && Open() != []
      modifies lrStack
      ensures Valid() && Open() == StackOf(Step(m, After(thread)), thread)
      ensures Some(lr) == Returned(m, After(thread))
    {
      lr := lrStack.Pop();
    }
  }
}
