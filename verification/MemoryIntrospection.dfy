/**
 The memory introspection of KSCrashReport: from one address it walks arrays and instance variables,
 with no record of where it has been. One shared limit, counted down as it goes, is all that stops it.
 */
module MemoryIntrospection {
  import opened Basics

  type Address = nat

  datatype Ivar = PlainIvar(name: string) | PointerIvar(name: string, pointer: Address) | UnknownIvar(name: string)

  /** What the value writers find in an object, by the kind of its class. */
  datatype Contents =
    | Text(text: Option<string>)            // strings and URLs
    | Number                                // dates and numbers
    | Array(first: Option<Address>)
    | Tagged                                // anything else, packed in the pointer
    | Other(ivars: seq<Ivar>)               // anything else

  datatype Object = Class(className: string) | Instance(className: string, contents: Contents) | Block(className: string)

  /** The process memory as the crash handler sees it: any graph, cycles included. */
  datatype Memory = Memory(objects: map<Address, Object>, strings: map<Address, string>,
                           zombies: map<Address, string>, restricted: set<string>)

  datatype Event = Begin(key: string) | End | Element(key: string, text: string) | Numeric(key: string)

  const DEFAULT_MEMORY_SEARCH_DEPTH := 15
  const MAX_IVARS := 10

  /** The events written, the limit left, and how many times `writeMemoryContents` was entered. */
  datatype Walk = Walk(events: seq<Event>, limit: int, calls: nat)

  function Max(a: int, b: int): int {
    if a < b then b else a
  }

  function Listed(ivars: seq<Ivar>): seq<Ivar> {
    if |ivars| <= MAX_IVARS then ivars else ivars[..MAX_IVARS]
  }

  function OptionalElement(key: string, m: map<Address, string>, a: Address): seq<Event> {
    if a in m then [Element(key, m[a])] else []
  }

  /** The beginning of a location: its address, and what was deallocated there. */
  function Head(m: Memory, key: string, a: Address): seq<Event> {
    [Begin(key), Numeric("address")] + OptionalElement("last_deallocated_obj", m.zombies, a)
  }

  /** `writeMemoryContents` */
  function WriteMemory(m: Memory, key: string, a: Address, limit: int): (w: Walk)
    ensures w.limit <= limit - w.calls && 1 <= w.calls
    decreases 4 * Max(limit, 0) + 2, 0
  {
    var w := WriteObject(m, a, limit - 1);
    Walk(Head(m, key, a) + w.events + (if IsDone(m, a) then [] else Fallback(m, a)) + [End], w.limit, w.calls + 1)
  }

  /** Whether `writeObjCObject` reports success; a restricted class falls through after its name. */
  predicate IsDone(m: Memory, a: Address) {
    a in m.objects && !(m.objects[a].Instance? && m.objects[a].className in m.restricted)
  }

  function Fallback(m: Memory, a: Address): seq<Event> {
    if a == 0 then [Element("type", "null_pointer")]
    else if a in m.strings then [Element("type", "string"), Element("value", m.strings[a])]
    else [Element("type", "unknown")]
  }

  /** `writeObjCObject` */
  function WriteObject(m: Memory, a: Address, limit: int): (w: Walk)
    ensures w.limit <= limit - w.calls
    decreases 4 * Max(limit + 1, 0) + 1, 0
  {
    if a !in m.objects then Walk([], limit, 0)
    else match m.objects[a]
      case Class(name) => Walk([Element("type", "objc_class"), Element("class", name)], limit, 0)
      case Block(name) => Walk([Element("type", "objc_block"), Element("class", name)], limit, 0)
      case Instance(name, contents) =>
        var head := [Element("type", "objc_object"), Element("class", name)];
        if name in m.restricted then Walk(head, limit, 0)
        else
          var w := WriteContents(m, contents, limit);
          Walk(head + w.events, w.limit, w.calls)
  }

  /** The writers by class type; following pointers needs a limit that is still positive. */
  function WriteContents(m: Memory, contents: Contents, limit: int): (w: Walk)
    ensures w.limit <= limit - w.calls
    decreases 4 * Max(limit + 1, 0), 0
  {
    match contents
    case Text(text) => Walk(if text.Some? then [Element("value", text.value)] else [], limit, 0)
    case Number => Walk([Numeric("value")], limit, 0)
    case Array(first) =>
      if limit > 0 && first.Some? then WriteMemory(m, "first_object", first.value, limit) else Walk([], limit, 0)
    case Tagged =>
      if limit > 0 then Walk([Begin("ivars"), Numeric("tagged_payload"), End], limit - 1, 0) else Walk([], limit, 0)
    case Other(ivars) =>
      if limit > 0 then
        var listed := Listed(ivars);
        var w := WriteIvars(m, listed, limit - 1 - |listed|);
        Walk([Begin("ivars")] + w.events + [End], w.limit, w.calls)
      else Walk([], limit, 0)
  }

  /** The ivar loop of `writeUnknownObjectContents` */
  function WriteIvars(m: Memory, ivars: seq<Ivar>, limit: int): (w: Walk)
    ensures w.limit <= limit - w.calls
    decreases 4 * Max(limit, 0) + 3, |ivars|
  {
    if ivars == [] then Walk([], limit, 0)
    else
      var first := WriteIvar(m, ivars[0], limit);
      var rest := WriteIvars(m, ivars[1..], first.limit);
      Walk(first.events + rest.events, rest.limit, first.calls + rest.calls)
  }

  function WriteIvar(m: Memory, ivar: Ivar, limit: int): (w: Walk)
    ensures w.limit <= limit - w.calls
    decreases 4 * Max(limit, 0) + 3, 0
  {
    match ivar
    case PlainIvar(name) => Walk([Numeric(name)], limit, 0)
    case UnknownIvar(_) => Walk([], limit, 0)
    case PointerIvar(name, pointer) => WriteMemory(m, name, pointer, limit)
  }

  // -------------------------------------------------------------------------------------- how far it goes

  /** What is counted: a first call, and then no more than the limit and eight. */
  predicate Bounded(pending: nat, limit: int, w: Walk) {
    w.calls <= pending + Max(limit + 8, 0)
  }

  lemma {:induction false} MemoryBounded(m: Memory, key: string, a: Address, limit: int)
    ensures Bounded(1, limit, WriteMemory(m, key, a, limit))
    decreases 4 * Max(limit, 0) + 2, 0
  {
    var l := limit - 1;
    CallsOf(m, key, a, limit);
    if a in m.objects && m.objects[a].Instance? && m.objects[a].className !in m.restricted && l > 0 {
      match m.objects[a].contents
      case Array(first) =>
        if first.Some? { MemoryBounded(m, "first_object", first.value, l); }
      case Other(ivars) =>
        IvarsBounded(m, Listed(ivars), l - 1 - |Listed(ivars)|);
      case _ =>
    }
  }

  /** One entry, and what the contents of an unrestricted instance lead to. */
  lemma CallsOf(m: Memory, key: string, a: Address, limit: int)
    ensures WriteMemory(m, key, a, limit).calls == 1 +
              if a in m.objects && m.objects[a].Instance? && m.objects[a].className !in m.restricted
              then WriteContents(m, m.objects[a].contents, limit - 1).calls else 0
  {
  }

  lemma {:induction false} IvarsBounded(m: Memory, ivars: seq<Ivar>, limit: int)
    ensures Bounded(|ivars|, limit, WriteIvars(m, ivars, limit))
    decreases 4 * Max(limit, 0) + 3, |ivars|
  {
    if ivars != [] {
      if ivars[0].PointerIvar? {
        MemoryBounded(m, ivars[0].name, ivars[0].pointer, limit);
      }
      IvarsBounded(m, ivars[1..], WriteIvar(m, ivars[0], limit).limit);
    }
  }

  /** From a limit of L the walk enters at most L + 9 memory locations, on every graph. */
  lemma AtMostLimitPlusNine(m: Memory, key: string, a: Address, limit: int)
    requires 1 <= limit
    ensures WriteMemory(m, key, a, limit).calls <= limit + 9
  {
    MemoryBounded(m, key, a, limit);
  }

  function Nulls(n: nat): (s: seq<Ivar>)
    ensures |s| == n && forall i | 0 <= i < n :: s[i] == PointerIvar("p", 0)
  {
    if n == 0 then [] else Nulls(n - 1) + [PointerIvar("p", 0)]
  }

  function Link(limit: nat, i: nat): Object {
    Instance("c", if i + 1 < limit then Array(Some(i + 1)) else Other(Nulls(MAX_IVARS)))
  }

  /** A chain of arrays from address 1 that ends, one step before the limit, in ten null pointers. */
  function Chain(limit: nat): Memory {
    Memory(map i: nat | 1 <= i < limit :: i := Link(limit, i), map[], map[], {})
  }

  lemma {:induction false} ChainWalk(limit: nat, key: string, i: nat)
    requires 2 <= limit && 1 <= i < limit
    ensures WriteMemory(Chain(limit), key, i, limit - i + 1).calls == limit - i + 10
    decreases limit - i
  {
    var m, l := Chain(limit), limit - i;
    CallsOf(m, key, i, l + 1);
    assert m.objects[i] == Link(limit, i);
    if i + 1 < limit {
      ChainWalk(limit, "first_object", i + 1);
      assert WriteContents(m, Array(Some(i + 1)), l).calls == WriteMemory(m, "first_object", i + 1, l).calls;
    } else {
      var ivars := Nulls(MAX_IVARS);
      NullsWalk(m, ivars, l - 1 - |ivars|);
      assert Listed(ivars) == ivars;
      assert WriteContents(m, Other(ivars), l).calls == WriteIvars(m, ivars, l - 1 - |ivars|).calls;
    }
  }

  lemma {:induction false} NullsWalk(m: Memory, ivars: seq<Ivar>, limit: int)
    requires 0 !in m.objects && forall i | 0 <= i < |ivars| :: ivars[i] == PointerIvar("p", 0)
    ensures WriteIvars(m, ivars, limit).calls == |ivars|
    decreases |ivars|
  {
    if ivars != [] {
      CallsOf(m, "p", 0, limit);
      NullsWalk(m, ivars[1..], WriteIvar(m, ivars[0], limit).limit);
    }
  }

  /** The bound is met for every limit from two on: 24 locations for the default of 15. */
  lemma BoundIsMet(limit: nat)
    requires 2 <= limit
    ensures WriteMemory(Chain(limit), "k", 1, limit).calls == limit + 9
  {
    ChainWalk(limit, "k", 1);
  }

  /** Some walk with the default limit enters 24 locations. */
  lemma DefaultIsMet() returns (m: Memory)
    ensures WriteMemory(m, "k", 1, DEFAULT_MEMORY_SEARCH_DEPTH).calls == 24
  {
    m := Chain(DEFAULT_MEMORY_SEARCH_DEPTH);
    BoundIsMet(DEFAULT_MEMORY_SEARCH_DEPTH);
  }

  // ------------------------------------------------------------------------------------------- containers

  /** The number of containers left open; below zero is remembered. */
  function Open(depth: nat, es: seq<Event>): Option<nat>
    decreases |es|
  {
    if es == [] then Some(depth)
    else match es[0]
      case Begin(_) => Open(depth + 1, es[1..])
      case End => if depth == 0 then None else Open(depth - 1, es[1..])
      case _ => Open(depth, es[1..])
  }

  /** Every container that the events open they close, and no other. */
  ghost predicate Balanced(es: seq<Event>) {
    forall depth: nat :: Open(depth, es) == Some(depth)
  }

  lemma {:induction false} OpenConcat(depth: nat, a: seq<Event>, b: seq<Event>)
    ensures Open(depth, a + b) == match Open(depth, a) case Some(d) => Open(d, b) case None => None
    decreases |a|
  {
    if a == [] {
      assert a + b == b;
    } else {
      assert (a + b)[1..] == a[1..] + b;
      match a[0]
      case Begin(_) => OpenConcat(depth + 1, a[1..], b);
      case End => if depth != 0 { OpenConcat(depth - 1, a[1..], b); }
      case _ => OpenConcat(depth, a[1..], b);
    }
  }

  lemma BalancedConcat(a: seq<Event>, b: seq<Event>)
    requires Balanced(a) && Balanced(b)
    ensures Balanced(a + b)
  {
    forall depth: nat ensures Open(depth, a + b) == Some(depth) {
      OpenConcat(depth, a, b);
    }
  }

  lemma BalancedNest(key: string, inner: seq<Event>)
    requires Balanced(inner)
    ensures Balanced([Begin(key)] + inner + [End])
  {
    forall depth: nat ensures Open(depth, [Begin(key)] + inner + [End]) == Some(depth) {
      assert ([Begin(key)] + inner + [End])[1..] == inner + [End];
      OpenConcat(depth + 1, inner, [End]);
    }
  }

  lemma {:induction false} BalancedFlat(es: seq<Event>)
    requires forall e | e in es :: e.Element? || e.Numeric?
    ensures Balanced(es)
    decreases |es|
  {
    if es != [] {
      assert es[0] in es;
      BalancedFlat(es[1..]);
    }
  }

  /** On every graph and from every limit, the written containers are closed. */
  lemma {:induction false} MemoryBalanced(m: Memory, key: string, a: Address, limit: int)
    ensures Balanced(WriteMemory(m, key, a, limit).events)
    decreases 4 * Max(limit, 0) + 2, 0
  {
    var z := OptionalElement("last_deallocated_obj", m.zombies, a);
    var w := WriteObject(m, a, limit - 1);
    var f := if IsDone(m, a) then [] else Fallback(m, a);
    ObjectBalanced(m, a, limit - 1);
    BalancedFlat([Numeric("address")]);
    BalancedFlat(z);
    BalancedFlat(f);
    Nested(key, z, w.events, f);
    hide WriteObject, Balanced, OptionalElement, Fallback;
    BalancedConcat([Numeric("address")], z);
    BalancedConcat([Numeric("address")] + z, w.events);
    BalancedConcat([Numeric("address")] + z + w.events, f);
    BalancedNest(key, [Numeric("address")] + z + w.events + f);
  }

  lemma Nested(key: string, z: seq<Event>, body: seq<Event>, f: seq<Event>)
    ensures [Begin(key), Numeric("address")] + z + body + f + [End] == [Begin(key)] + ([Numeric("address")] + z + body + f) + [End]
  {
  }

  lemma {:induction false} ObjectBalanced(m: Memory, a: Address, limit: int)
    ensures Balanced(WriteObject(m, a, limit).events)
    decreases 4 * Max(limit + 1, 0) + 1, 0
  {
    var w := WriteObject(m, a, limit);
    if a !in m.objects {
      BalancedFlat([]);
    } else {
      var o := m.objects[a];
      if o.Instance? && o.className !in m.restricted {
        var head := [Element("type", "objc_object"), Element("class", o.className)];
        BalancedFlat(head);
        ContentsBalanced(m, o.contents, limit);
        BalancedConcat(head, WriteContents(m, o.contents, limit).events);
      } else {
        BalancedFlat(w.events);
      }
    }
  }

  lemma {:induction false} ContentsBalanced(m: Memory, contents: Contents, limit: int)
    ensures Balanced(WriteContents(m, contents, limit).events)
    decreases 4 * Max(limit + 1, 0), 0
  {
    BalancedFlat([]);
    match contents
    case Text(text) => BalancedFlat(WriteContents(m, contents, limit).events);
    case Number => BalancedFlat([Numeric("value")]);
    case Array(first) => if limit > 0 && first.Some? { MemoryBalanced(m, "first_object", first.value, limit); }
    case Tagged =>
      BalancedFlat([Numeric("tagged_payload")]);
      BalancedNest("ivars", [Numeric("tagged_payload")]);
    case Other(ivars) =>
      if limit > 0 {
        IvarsBalanced(m, Listed(ivars), limit - 1 - |Listed(ivars)|);
        BalancedNest("ivars", WriteIvars(m, Listed(ivars), limit - 1 - |Listed(ivars)|).events);
      }
  }

  lemma {:induction false} IvarsBalanced(m: Memory, ivars: seq<Ivar>, limit: int)
    ensures Balanced(WriteIvars(m, ivars, limit).events)
    decreases 4 * Max(limit, 0) + 3, |ivars|
  {
    if ivars == [] {
      BalancedFlat([]);
    } else {
      var first := WriteIvar(m, ivars[0], limit);
      if ivars[0].PointerIvar? {
        MemoryBalanced(m, ivars[0].name, ivars[0].pointer, limit);
      } else {
        BalancedFlat(first.events);
      }
      IvarsBalanced(m, ivars[1..], first.limit);
      var rest := WriteIvars(m, ivars[1..], first.limit);
      BalancedConcat(first.events, rest.events);
      assert WriteIvars(m, ivars, limit).events == first.events + rest.events;
    }
  }

  // --------------------------------------------------------------------------------------------- the writer

  /** The report being written and the shared limit; `entered` counts the calls of WriteMemoryContents. */
  class ReportWriter {
    const memory: Memory
    var report: seq<Event>
    var limit: int
    ghost var entered: nat

    constructor (memory: Memory)
      ensures this.memory == memory && report == []
    {
      this.memory := memory;
      report := [];
      limit := DEFAULT_MEMORY_SEARCH_DEPTH;
    }

    /** From one state to the next a walk was written. */
    twostate predicate Wrote(w: Walk)
      reads this
    {
      report == old(report) + w.events && limit == w.limit && entered == old(entered) + w.calls
    }

    method Write(es: seq<Event>)
      modifies this`report
      ensures report == old(report) + es
    {
      report := report + es;
    }

    method WriteMemoryContents(key: string, address: Address)
      modifies this
      ensures Wrote(WriteMemory(memory, key, address, old(limit)))
      decreases 4 * Max(limit, 0) + 2, 0
    {
      limit := limit - 1;
      entered := entered + 1;
      ghost var head := Head(memory, key, address);
      WriteHead(key, address);
      ghost var w := WriteObject(memory, address, limit);
      var done := WriteObjCObject(address);
      hide WriteObject, Fallback, Head;
      ghost var tail := if IsDone(memory, address) then [] else Fallback(memory, address);
      if !done {
        WriteFallback(address);
      }
      assert report == old(report) + head + w.events + tail;
      Write([End]);
      assert report == old(report) + (head + w.events + tail + [End]);
    }

    method WriteHead(key: string, address: Address)
      modifies this`report
      ensures report == old(report) + Head(memory, key, address)
    {
      Write([Begin(key)]);
      Write([Numeric("address")]);
      Write(OptionalElement("last_deallocated_obj", memory.zombies, address));
    }

    /** A null pointer, a string, or something unknown. */
    method WriteFallback(address: Address)
      modifies this`report
      ensures report == old(report) + Fallback(memory, address)
    {
      if address == 0 {
        Write([Element("type", "null_pointer")]);
      } else if address in memory.strings {
        Write([Element("type", "string")]);
        Write([Element("value", memory.strings[address])]);
      } else {
        Write([Element("type", "unknown")]);
      }
    }

    method WriteObjCObject(address: Address) returns (done: bool)
      modifies this
      ensures done == IsDone(memory, address) && Wrote(WriteObject(memory, address, old(limit)))
      decreases 4 * Max(limit + 1, 0) + 1, 0
    {
      if address !in memory.objects {
        return false;
      }
      match memory.objects[address] {
        case Class(name) =>
          Write([Element("type", "objc_class")]);
          Write([Element("class", name)]);
          return true;
        case Block(name) =>
          Write([Element("type", "objc_block")]);
          Write([Element("class", name)]);
          return true;
        case Instance(name, contents) =>
          Write([Element("type", "objc_object")]);
          Write([Element("class", name)]);
          if name !in memory.restricted {
            WriteContentsOf(contents);
            return true;
          }
          return false;
      }
    }

    method WriteContentsOf(contents: Contents)
      modifies this
      ensures Wrote(WriteContents(memory, contents, old(limit)))
      decreases 4 * Max(limit + 1, 0), 0
    {
      match contents {
        case Text(text) =>
          if text.Some? {
            Write([Element("value", text.value)]);
          }
        case Number =>
          Write([Numeric("value")]);
        case Array(first) =>
          if limit > 0 {
            if first.Some? {
              WriteMemoryContents("first_object", first.value);
            }
          }
        case Tagged =>
          if limit > 0 {
            limit := limit - 1;
            Write([Begin("ivars")]);
            Write([Numeric("tagged_payload")]);
            Write([End]);
          }
        case Other(ivars) =>
          if limit > 0 {
            WriteUnknownObjectContents(ivars);
          }
      }
    }

    method WriteUnknownObjectContents(ivars: seq<Ivar>)
      requires limit > 0
      modifies this
      ensures Wrote(WriteContents(memory, Other(ivars), old(limit)))
      decreases 4 * Max(limit, 0) + 3, MAX_IVARS + 1
    {
      limit := limit - 1;
      Write([Begin("ivars")]);
      var listed := Listed(ivars);
      limit := limit - |listed|;
      ghost var all := WriteIvars(memory, listed, limit);
      WriteIvarList(listed);
      Write([End]);
      assert report == old(report) + ([Begin("ivars")] + all.events + [End]);
    }

    /** The loop over the listed ivars. */
    method WriteIvarList(listed: seq<Ivar>)
      modifies this
      ensures Wrote(WriteIvars(memory, listed, old(limit)))
      decreases 4 * Max(limit, 0) + 3, MAX_IVARS
    {
      ghost var all := WriteIvars(memory, listed, limit);
      for i := 0 to |listed|
        invariant limit <= old(limit)
        invariant Rest(all, WriteIvars(memory, listed[i..], limit), old(report), old(entered))
      {
        assert listed[i..][1..] == listed[i + 1..];
        ghost var w := WriteIvar(memory, listed[i], limit);
        ghost var rest := WriteIvars(memory, listed[i + 1..], w.limit);
        assert report + (w.events + rest.events) == report + w.events + rest.events;
        match listed[i] {
          case PlainIvar(name) =>
            Write([Numeric(name)]);
          case PointerIvar(name, pointer) =>
            WriteMemoryContents(name, pointer);
          case UnknownIvar(_) =>
        }
      }
      assert report + [] == report;
    }

    /** What is written and what remains make the whole walk. */
    ghost predicate Rest(all: Walk, rest: Walk, report0: seq<Event>, entered0: nat)
      reads this
    {
      report + rest.events == report0 + all.events && rest.limit == all.limit && entered + rest.calls == entered0 + all.calls
    }

    /** Starts afresh with the default limit; what is not notable is not written. */
    method WriteMemoryContentsIfNotable(key: string, address: Address, notable: bool)
      modifies this
      ensures notable ==> Wrote(WriteMemory(memory, key, address, DEFAULT_MEMORY_SEARCH_DEPTH))
      ensures !notable ==> report == old(report) && entered == old(entered)
      ensures entered <= old(entered) + 24
    {
      if notable {
        limit := DEFAULT_MEMORY_SEARCH_DEPTH;
        AtMostLimitPlusNine(memory, key, address, limit);
        WriteMemoryContents(key, address);
      }
    }
  }
}
