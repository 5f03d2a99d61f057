/**
 KSCrashReportFixer: the callbacks of a streaming JSON decoder (sections 4 and 5 of RFC 8259) rewrite a
 crash report leaf by leaf, knowing only the names of the open containers and the last version read.
 The values here are the decoder's events; `Fix` is the same rewriting done on the tree.
 */
module ReportFixer {
  import opened Basics
  import opened ReportVersion
  import opened ReportPaths

  datatype Scalar = Bool(b: bool) | Real(r: real) | Int(i: int) | Null | Str(s: string)

  datatype Event = Begin(name: Name, isObject: bool) | End | Leaf(name: Name, v: Scalar)

  /** The demanglers and the date printers; a demangler gives nothing for a name it does not know. */
  datatype Library = Library(demangleCPP: string -> Option<string>, demangleSwift: string -> Option<string>,
                             utcFromMicroseconds: int -> string, utcFromTimestamp: int -> string)

  // ------------------------------------------------------------------------------- one leaf, when matched

  function Date(lib: Library, v: Version, i: int): string {
    if MatchesMinVersion(v, 3, 3, 0) then lib.utcFromMicroseconds(i) else lib.utcFromTimestamp(i)
  }

  function Demangled(lib: Library, s: string): string {
    match lib.demangleCPP(s)
    case Some(d) => d
    case None =>
      match lib.demangleSwift(s)
      case Some(d) => d
      case None => s
  }

  /** What a timestamp is to become: seconds before version 3.3.0, microseconds since. */
  function TimeText(lib: Library, version: seq<int>, i: int): string {
    if LexLess(version, [3, 3, 0]) then lib.utcFromTimestamp(i) else lib.utcFromMicroseconds(i)
  }

  lemma DateExactly(lib: Library, v: Version, i: int)
    ensures Date(lib, v, i) == TimeText(lib, [v.major, v.minor, v.patch], i)
  {
    MinVersionIsLexicographic(v, 3, 3, 0);
    hide MatchesMinVersion, LexLess;
  }

  /** A C++ name is demangled as such, any other as Swift, and what is neither stays. */
  lemma DemangledExactly(lib: Library, s: string)
    ensures lib.demangleCPP(s).Some? ==> Demangled(lib, s) == lib.demangleCPP(s).value
    ensures lib.demangleCPP(s).None? && lib.demangleSwift(s).Some? ==> Demangled(lib, s) == lib.demangleSwift(s).value
    ensures lib.demangleCPP(s).None? && lib.demangleSwift(s).None? ==> Demangled(lib, s) == s
  {
  }

  // --------------------------------------------------------------------------------------- the callbacks

  /** The open container names as stored, the version in force, and what the encoder was told. */
  datatype Context = Context(open: Path, version: Version, output: seq<Event>)

  /** The decoder stops at a `TooLong`; `Crashed` is a NULL handed to `strncmp`. */
  datatype Result = Ok(c: Context) | TooLong | Crashed

  function Emit(c: Context, e: Event): Context {
    c.(output := c.output + [e])
  }

  function OnInteger(lib: Library, c: Context, name: Name, i: int): Result {
    match MatchAny(c.open, DATE_PATHS, name)
    case NullRead => Crashed
    case Yes => Ok(Emit(c, Leaf(name, Str(Date(lib, c.version, i)))))
    case No => Ok(Emit(c, Leaf(name, Int(i))))
  }

  function OnString(lib: Library, c: Context, name: Name, s: string): Result {
    match MatchAny(c.open, DEMANGLE_PATHS, name)
    case NullRead => Crashed
    case m =>
      var d := Emit(c, Leaf(name, Str(if m == Yes then Demangled(lib, s) else s)));
      match MatchAny(c.open, VERSION_PATHS, name)
      case NullRead => Crashed
      case Yes => Ok(d.(version := Parse(s)))
      case No => Ok(d)
  }

  function OnBegin(c: Context, name: Name, isObject: bool): Result {
    if |c.open| >= MAX_DEPTH then TooLong
    else Ok(Emit(c, Begin(name, isObject)).(open := c.open + [Stored(Text(name))]))
  }

  function OnEnd(c: Context): Result {
    Ok(Emit(c, End).(open := if c.open == [] then [] else c.open[..|c.open| - 1]))
  }

  function Step(lib: Library, c: Context, e: Event): Result {
    match e
    case Begin(name, isObject) => OnBegin(c, name, isObject)
    case End => OnEnd(c)
    case Leaf(name, Int(i)) => OnInteger(lib, c, name, i)
    case Leaf(name, Str(s)) => OnString(lib, c, name, s)
    case Leaf(_, _) => Ok(Emit(c, e))
  }

  function Run(lib: Library, c: Context, es: seq<Event>): Result
    decreases |es|
  {
    if es == [] then Ok(c) else
      match Step(lib, c, es[0])
      case Ok(d) => Run(lib, d, es[1..])
      case stop => stop
  }

  function Then(lib: Library, r: Result, es: seq<Event>): Result {
    match r
    case Ok(c) => Run(lib, c, es)
    case stop => stop
  }

  lemma {:induction false} RunConcat(lib: Library, c: Context, a: seq<Event>, b: seq<Event>)
    ensures Run(lib, c, a + b) == Then(lib, Run(lib, c, a), b)
    decreases |a|
  {
    if a == [] {
      assert a + b == b;
    } else {
      assert (a + b)[1..] == a[1..] + b;
      match Step(lib, c, a[0])
      case Ok(d) => RunConcat(lib, d, a[1..], b);
      case _ =>
    }
  }

  // -------------------------------------------------------------------------------- the rewriting on trees

  datatype Node = Value(name: Name, v: Scalar) | Container(name: Name, isObject: bool, kids: Nodes)

  datatype Nodes = Nil | Cons(head: Node, tail: Nodes)

  function EventsOf(n: Node): seq<Event> {
    match n
    case Value(name, v) => [Leaf(name, v)]
    case Container(name, isObject, kids) => [Begin(name, isObject)] + EventsOfAll(kids) + [End]
  }

  function EventsOfAll(ns: Nodes): seq<Event> {
    match ns
    case Nil => []
    case Cons(n, rest) => EventsOf(n) + EventsOfAll(rest)
  }

  /** Containers inside containers. */
  function Depth(n: Node): nat {
    if n.Value? then 0 else 1 + DepthOfAll(n.kids)
  }

  function DepthOfAll(ns: Nodes): nat {
    match ns
    case Nil => 0
    case Cons(n, rest) => if Depth(n) <= DepthOfAll(rest) then DepthOfAll(rest) else Depth(n)
  }

  ghost function FixScalar(lib: Library, path: Path, v: Version, name: Name, x: Scalar): Scalar {
    match x
    case Int(i) => if At(path, name, DATE_PATHS) then Str(Date(lib, v, i)) else x
    case Str(s) => if At(path, name, DEMANGLE_PATHS) then Str(Demangled(lib, s)) else x
    case _ => x
  }

  ghost function VersionAfterScalar(path: Path, v: Version, name: Name, x: Scalar): Version {
    if x.Str? && At(path, name, VERSION_PATHS) then Parse(x.s) else v
  }

  /** The rewritten tree, and the version in force behind it; `path` holds the names around the node. */
  ghost function Fix(lib: Library, path: Path, v: Version, n: Node): (Node, Version)
    decreases n
  {
    match n
    case Value(name, x) => (Value(name, FixScalar(lib, path, v, name, x)), VersionAfterScalar(path, v, name, x))
    case Container(name, isObject, kids) =>
      var (kids', v') := FixAll(lib, path + [Text(name)], v, kids);
      (Container(name, isObject, kids'), v')
  }

  ghost function FixAll(lib: Library, path: Path, v: Version, ns: Nodes): (Nodes, Version)
    decreases ns
  {
    match ns
    case Nil => (Nil, v)
    case Cons(n, rest) =>
      var (n', v1) := Fix(lib, path, v, n);
      var (rest', v2) := FixAll(lib, path, v1, rest);
      (Cons(n', rest'), v2)
  }

  /** No leaf sends the search past the end of a pattern: see `Inside`. */
  ghost predicate Safe(path: Path, n: Node)
    decreases n
  {
    match n
    case Value(_, Int(_)) => !Inside(path, DATE_PATHS)
    case Value(_, Str(_)) => !Inside(path, DEMANGLE_PATHS) && !Inside(path, VERSION_PATHS)
    case Value(_, _) => true
    case Container(name, _, kids) => SafeAll(path + [Text(name)], kids)
  }

  ghost predicate SafeAll(path: Path, ns: Nodes)
    decreases ns
  {
    match ns
    case Nil => true
    case Cons(n, rest) => Safe(path, n) && SafeAll(path, rest)
  }

  ghost predicate Shallow(path: Path, n: Node) {
    |path| + Depth(n) <= MAX_DEPTH
  }

  ghost predicate ShallowAll(path: Path, ns: Nodes) {
    |path| + DepthOfAll(ns) <= MAX_DEPTH
  }

  /** What a run over a node's events comes to: exactly the safe and shallow ones get through. */
  ghost predicate RunsTo(lib: Library, c: Context, es: seq<Event>, safe: bool, shallow: bool, v: Version, es': seq<Event>) {
    var r := Run(lib, c, es);
    && (safe && shallow ==> r == Ok(c.(version := v, output := c.output + es')))
    && (safe && !shallow ==> r == TooLong)
    && (!safe && shallow ==> r == Crashed)
    && (!safe && !shallow ==> !r.Ok?)
  }

  lemma LeafRuns(lib: Library, c: Context, path: Path, n: Node)
    requires n.Value? && c.open == StoredAll(path) && |path| <= MAX_DEPTH
    ensures RunsTo(lib, c, EventsOf(n), Safe(path, n), Shallow(path, n), Fix(lib, path, c.version, n).1, EventsOf(Fix(lib, path, c.version, n).0))
  {
    PatternsWellMade();
    MatchAnyMeans(path, DATE_PATHS, n.name);
    MatchAnyMeans(path, DEMANGLE_PATHS, n.name);
    MatchAnyMeans(path, VERSION_PATHS, n.name);
    RunOne(lib, c, Leaf(n.name, n.v));
    hide Run, Parse, Date, Demangled, At, Inside;
  }

  lemma {:induction false} NodeRuns(lib: Library, c: Context, path: Path, n: Node)
    requires c.open == StoredAll(path) && |path| <= MAX_DEPTH
    ensures RunsTo(lib, c, EventsOf(n), Safe(path, n), Shallow(path, n), Fix(lib, path, c.version, n).1, EventsOf(Fix(lib, path, c.version, n).0))
    decreases n
  {
    match n
    case Value(_, _) => LeafRuns(lib, c, path, n);
    case Container(name, isObject, kids) =>
      var inner := path + [Text(name)];
      if |path| < MAX_DEPTH {
        var d := OnBegin(c, name, isObject).c;
        assert d.open == StoredAll(inner);
        NodesRun(lib, d, inner, kids);
        ContainerRuns(lib, c, n, SafeAll(inner, kids), ShallowAll(inner, kids), FixAll(lib, inner, c.version, kids));
      } else {
        assert EventsOf(n) == [Begin(name, isObject)] + (EventsOfAll(kids) + [End]);
        RunConcat(lib, c, [Begin(name, isObject)], EventsOfAll(kids) + [End]);
      }
  }

  lemma RunOne(lib: Library, c: Context, e: Event)
    ensures Run(lib, c, [e]) == Step(lib, c, e)
  {
    hide Step;
    assert [e][1..] == [];
  }

  lemma RunAround(lib: Library, c: Context, name: Name, isObject: bool, es: seq<Event>)
    requires |c.open| < MAX_DEPTH
    ensures Run(lib, c, [Begin(name, isObject)] + es + [End])
         == match Run(lib, OnBegin(c, name, isObject).c, es)
            case Ok(k) => OnEnd(k)
            case stop => stop
  {
    var d, all := OnBegin(c, name, isObject).c, [Begin(name, isObject)] + es + [End];
    assert all[0] == Begin(name, isObject) && all[1..] == es + [End];
    assert Run(lib, c, all) == Run(lib, d, es + [End]);
    hide OnBegin, Run;
    RunConcat(lib, d, es, [End]);
    if Run(lib, d, es).Ok? { RunOne(lib, Run(lib, d, es).c, End); }
  }

  lemma AroundRunsTo(lib: Library, c: Context, name: Name, isObject: bool, es: seq<Event>, safe: bool, shallow: bool,
                     v: Version, es': seq<Event>)
    requires |c.open| < MAX_DEPTH && RunsTo(lib, OnBegin(c, name, isObject).c, es, safe, shallow, v, es')
    ensures RunsTo(lib, c, [Begin(name, isObject)] + es + [End], safe, shallow, v, [Begin(name, isObject)] + es' + [End])
  {
    RunAround(lib, c, name, isObject, es);
    hide Run;
    if safe && shallow {
      EndOf(c, name, isObject, v, es');
    }
  }

  lemma EndOf(c: Context, name: Name, isObject: bool, v: Version, es: seq<Event>)
    requires |c.open| < MAX_DEPTH
    ensures var d := OnBegin(c, name, isObject).c;
            OnEnd(d.(version := v, output := d.output + es))
              == Ok(c.(version := v, output := c.output + ([Begin(name, isObject)] + es + [End])))
  {
    var d := OnBegin(c, name, isObject).c;
    assert d.open[..|d.open| - 1] == c.open;
    assert d.output + es + [End] == c.output + ([Begin(name, isObject)] + es + [End]);
  }

  /** A container around kids of which the outcome is known. */
  lemma ContainerRuns(lib: Library, c: Context, n: Node, safe: bool, shallow: bool, fixed: (Nodes, Version))
    requires n.Container? && |c.open| < MAX_DEPTH
    requires RunsTo(lib, OnBegin(c, n.name, n.isObject).c, EventsOfAll(n.kids), safe, shallow, fixed.1, EventsOfAll(fixed.0))
    ensures RunsTo(lib, c, EventsOf(n), safe, shallow, fixed.1, EventsOf(Container(n.name, n.isObject, fixed.0)))
  {
    hide RunsTo, OnBegin;
    AroundRunsTo(lib, c, n.name, n.isObject, EventsOfAll(n.kids), safe, shallow, fixed.1, EventsOfAll(fixed.0));
  }

  lemma {:induction false} NodesRun(lib: Library, c: Context, path: Path, ns: Nodes)
    requires c.open == StoredAll(path) && |path| <= MAX_DEPTH
    ensures RunsTo(lib, c, EventsOfAll(ns), SafeAll(path, ns), ShallowAll(path, ns),
                   FixAll(lib, path, c.version, ns).1, EventsOfAll(FixAll(lib, path, c.version, ns).0))
    decreases ns
  {
    match ns
    case Nil =>
    case Cons(n, rest) =>
      NodeRuns(lib, c, path, n);
      RunConcat(lib, c, EventsOf(n), EventsOfAll(rest));
      if Safe(path, n) && Shallow(path, n) {
        NodesRun(lib, Run(lib, c, EventsOf(n)).c, path, rest);
      }
  }

  /**
   The streaming fixer is the tree rewriting: for every tree nested at most 100 deep with no leaf inside
   a container at a pattern, the output is the event stream of the rewritten tree; every other tree stops
   the decoder, and a safe one is stopped for its depth.
   */
  lemma StreamIsTreeRewriting(lib: Library, n: Node)
    ensures var r := Run(lib, Context([], NO_VERSION, []), EventsOf(n));
            var fixed := Fix(lib, [], NO_VERSION, n);
            && (r.Ok? <==> Safe([], n) && Depth(n) <= 100)
            && (r.Ok? ==> r == Ok(Context([], fixed.1, EventsOf(fixed.0))))
            && (Safe([], n) && Depth(n) > 100 ==> r == TooLong)
            && (!Safe([], n) && Depth(n) <= 100 ==> r == Crashed)
  {
    NodeRuns(lib, Context([], NO_VERSION, []), [], n);
  }

  // ------------------------------------------------------------- what the rewriting does, leaf by leaf

  /** A leaf with the names around it. */
  datatype Place = Place(path: Path, name: Name, v: Scalar)

  /** The leaves in document order. */
  function LeavesOf(path: Path, n: Node): seq<Place>
    decreases n
  {
    match n
    case Value(name, v) => [Place(path, name, v)]
    case Container(name, _, kids) => LeavesOfAll(path + [Text(name)], kids)
  }

  function LeavesOfAll(path: Path, ns: Nodes): seq<Place>
    decreases ns
  {
    match ns
    case Nil => []
    case Cons(n, rest) => LeavesOf(path, n) + LeavesOfAll(path, rest)
  }

  /** The version of the nearest version leaf in a list of leaves, from its end; `v` if there is none. */
  ghost function NearestVersion(v: Version, leaves: seq<Place>): Version {
    if leaves == [] then v
    else
      var last := leaves[|leaves| - 1];
      if last.v.Str? && At(last.path, last.name, VERSION_PATHS) then Parse(last.v.s)
      else NearestVersion(v, leaves[..|leaves| - 1])
  }

  /** Each leaf is rewritten under the version of the nearest version leaf before it. */
  ghost predicate RewrittenInOrder(lib: Library, v: Version, before: seq<Place>, after: seq<Place>) {
    && |after| == |before|
    && forall i | 0 <= i < |before| ::
         after[i] == before[i].(v := FixScalar(lib, before[i].path, NearestVersion(v, before[..i]), before[i].name, before[i].v))
  }

  lemma {:induction false} NearestConcat(v: Version, a: seq<Place>, b: seq<Place>)
    ensures NearestVersion(v, a + b) == NearestVersion(NearestVersion(v, a), b)
  {
    if b == [] {
      assert a + b == a;
    } else {
      assert (a + b)[..|a + b| - 1] == a + b[..|b| - 1];
      NearestConcat(v, a, b[..|b| - 1]);
    }
  }

  lemma {:induction false} RewrittenConcat(lib: Library, v: Version, a: seq<Place>, a': seq<Place>, b: seq<Place>, b': seq<Place>)
    requires RewrittenInOrder(lib, v, a, a') && RewrittenInOrder(lib, NearestVersion(v, a), b, b')
    ensures RewrittenInOrder(lib, v, a + b, a' + b')
  {
    forall i | 0 <= i < |a + b|
      ensures (a' + b')[i] == (a + b)[i].(v := FixScalar(lib, (a + b)[i].path, NearestVersion(v, (a + b)[..i]), (a + b)[i].name, (a + b)[i].v))
    {
      if i < |a| {
        assert (a + b)[..i] == a[..i];
      } else {
        assert (a + b)[..i] == a + b[..i - |a|];
        NearestConcat(v, a, b[..i - |a|]);
      }
    }
  }

  /** So in the rewritten tree; names and places stay. */
  lemma {:induction false} LeavesRewritten(lib: Library, path: Path, v: Version, n: Node)
    ensures RewrittenInOrder(lib, v, LeavesOf(path, n), LeavesOf(path, Fix(lib, path, v, n).0))
    ensures Fix(lib, path, v, n).1 == NearestVersion(v, LeavesOf(path, n))
    decreases n
  {
    match n
    case Value(_, _) =>
      assert LeavesOf(path, n)[..0] == [];
    case Container(name, _, kids) => AllLeavesRewritten(lib, path + [Text(name)], v, kids);
  }

  lemma {:induction false} AllLeavesRewritten(lib: Library, path: Path, v: Version, ns: Nodes)
    ensures RewrittenInOrder(lib, v, LeavesOfAll(path, ns), LeavesOfAll(path, FixAll(lib, path, v, ns).0))
    ensures FixAll(lib, path, v, ns).1 == NearestVersion(v, LeavesOfAll(path, ns))
    decreases ns
  {
    match ns
    case Nil =>
    case Cons(n, rest) =>
      var (n', v1) := Fix(lib, path, v, n);
      var (rest', v2) := FixAll(lib, path, v1, rest);
      LeavesRewritten(lib, path, v, n);
      AllLeavesRewritten(lib, path, v1, rest);
      var a, a', b, b' := LeavesOf(path, n), LeavesOf(path, n'), LeavesOfAll(path, rest), LeavesOfAll(path, rest');
      RewrittenConcat(lib, v, a, a', b, b');
      NearestConcat(v, a, b);
  }

  /** What becomes of a leaf under a version: dates printed, names demangled, and nothing else touched. */
  ghost predicate IsFixed(lib: Library, v: Version, p: Place, after: Scalar) {
    match p.v
    case Int(i) => after == if At(p.path, p.name, DATE_PATHS) then Str(TimeText(lib, [v.major, v.minor, v.patch], i)) else p.v
    case Str(s) =>
      if !At(p.path, p.name, DEMANGLE_PATHS) then after == p.v
      else
        var cpp, swift := lib.demangleCPP(s), lib.demangleSwift(s);
        after == Str(if cpp.Some? then cpp.value else if swift.Some? then swift.value else s)
    case _ => after == p.v
  }

  lemma FixedExactly(lib: Library, v: Version, p: Place)
    ensures IsFixed(lib, v, p, FixScalar(lib, p.path, v, p.name, p.v))
  {
    if p.v.Int? { DateExactly(lib, v, p.v.i); }
    if p.v.Str? { DemangledExactly(lib, p.v.s); }
    hide Date, Demangled, TimeText, At;
  }

  /** So every leaf becomes what it should under the version of the nearest version leaf before it. */
  lemma LeavesFixed(lib: Library, path: Path, v: Version, n: Node, i: nat)
    requires i < |LeavesOf(path, n)|
    ensures |LeavesOf(path, Fix(lib, path, v, n).0)| == |LeavesOf(path, n)|
    ensures var p, q := LeavesOf(path, n)[i], LeavesOf(path, Fix(lib, path, v, n).0)[i];
      q.path == p.path && q.name == p.name && IsFixed(lib, NearestVersion(v, LeavesOf(path, n)[..i]), p, q.v)
  {
    hide LeavesOf, Fix, IsFixed, FixScalar, NearestVersion;
    LeavesRewritten(lib, path, v, n);
    FixedExactly(lib, NearestVersion(v, LeavesOf(path, n)[..i]), LeavesOf(path, n)[i]);
  }

  /** The tree without its leaf values. */
  function Shape(n: Node): Node {
    match n
    case Value(name, _) => Value(name, Null)
    case Container(name, isObject, kids) => Container(name, isObject, ShapeAll(kids))
  }

  function ShapeAll(ns: Nodes): Nodes {
    match ns
    case Nil => Nil
    case Cons(n, rest) => Cons(Shape(n), ShapeAll(rest))
  }

  /** Nesting, order, kinds of containers and all names are unchanged. */
  lemma {:induction false} ShapeKept(lib: Library, path: Path, v: Version, n: Node)
    ensures Shape(Fix(lib, path, v, n).0) == Shape(n)
    decreases n
  {
    match n
    case Value(_, _) =>
    case Container(name, _, kids) => ShapeAllKept(lib, path + [Text(name)], v, kids);
  }

  lemma {:induction false} ShapeAllKept(lib: Library, path: Path, v: Version, ns: Nodes)
    ensures ShapeAll(FixAll(lib, path, v, ns).0) == ShapeAll(ns)
    decreases ns
  {
    match ns
    case Nil =>
    case Cons(n, rest) =>
      ShapeKept(lib, path, v, n);
      ShapeAllKept(lib, path, Fix(lib, path, v, n).1, rest);
  }

  // -------------------------------------------------------------------------------------- reports as written

  /** `writeReportInfo`: the version is written before the timestamp. */
  function ReportInfo(version: string, id: string, process: string, timestamp: int, kind: string): Node {
    Container(Named("report"), true,
      Cons(Value(Named("version"), Str(version)),
      Cons(Value(Named("id"), Str(id)),
      Cons(Value(Named("process_name"), Str(process)),
      Cons(Value(Named("timestamp"), Int(timestamp)),
      Cons(Value(Named("type"), Str(kind)), Nil))))))
  }

  function DatedInfo(version: string, id: string, process: string, timestamp: string, kind: string): Node {
    Container(Named("report"), true,
      Cons(Value(Named("version"), Str(version)),
      Cons(Value(Named("id"), Str(id)),
      Cons(Value(Named("process_name"), Str(process)),
      Cons(Value(Named("timestamp"), Str(timestamp)),
      Cons(Value(Named("type"), Str(kind)), Nil))))))
  }

  lemma AtWitness(path: Path, name: Name, patterns: seq<Path>, i: nat)
    requires i < |patterns| && path + [Text(name)] <= patterns[i]
    ensures At(path, name, patterns)
  {
    assert patterns[i] in patterns;
  }

  lemma InfoPlaces(path: Path)
    requires path == ["", "report"] || path == ["", "recrash_report", "report"]
    ensures At(path, Named("version"), VERSION_PATHS) && At(path, Named("timestamp"), DATE_PATHS)
    ensures forall s | s in ["id", "process_name", "type"] :: !At(path, Named(s), VERSION_PATHS)
    ensures forall s | s in ["version", "id", "process_name", "type"] :: !At(path, Named(s), DEMANGLE_PATHS)
  {
    var i := if path == ["", "report"] then 0 else 1;
    assert path + ["version"] == VERSION_PATHS[i] && path + ["timestamp"] == DATE_PATHS[i];
    AtWitness(path, Named("version"), VERSION_PATHS, i);
    AtWitness(path, Named("timestamp"), DATE_PATHS, i);
    forall s, p | s in ["id", "process_name", "type"] && p in VERSION_PATHS ensures !(path + [s] <= p) {
      assert (path + [s])[1] == path[1] && (path + [s])[|path|] == s;
      assert |s| != |"version"|;
    }
    forall s: string, p | p in DEMANGLE_PATHS ensures !(path + [s] <= p) {
      assert (path + [s])[1] == path[1] && (path + [s])[|path| - 1] == "report";
    }
  }

  lemma TextKept(lib: Library, path: Path, v: Version, name: string, x: string)
    requires !At(path, Named(name), DEMANGLE_PATHS) && !At(path, Named(name), VERSION_PATHS)
    ensures Fix(lib, path, v, Value(Named(name), Str(x))) == (Value(Named(name), Str(x)), v)
  {
  }

  lemma InfoMembers(lib: Library, here: Path, v: Version, version: string, id: string, process: string, t: int, kind: string)
    requires here == ["", "report"] || here == ["", "recrash_report", "report"]
    ensures FixAll(lib, here, v, ReportInfo(version, id, process, t, kind).kids)
         == (DatedInfo(version, id, process, Date(lib, Parse(version), t), kind).kids, Parse(version))
  {
    InfoPlaces(here);
    hide At, Parse, Date, FixAll;
    var w := Parse(version);
    assert "version" in ["version", "id", "process_name", "type"] && "type" in ["version", "id", "process_name", "type"];
    assert "id" in ["id", "process_name", "type"] && "process_name" in ["id", "process_name", "type"];
    var n1, n2, n3 := Value(Named("version"), Str(version)), Value(Named("id"), Str(id)), Value(Named("process_name"), Str(process));
    var n4, n5 := Value(Named("timestamp"), Int(t)), Value(Named("type"), Str(kind));
    var n4' := n4.(v := Str(Date(lib, w, t)));
    TextKept(lib, here, w, "id", id);
    TextKept(lib, here, w, "process_name", process);
    TextKept(lib, here, w, "type", kind);
    assert Fix(lib, here, v, n1) == (n1, w) && Fix(lib, here, w, n4) == (n4', w);
    hide Fix;
    FixCons(lib, here, v, n1, Cons(n2, Cons(n3, Cons(n4, Cons(n5, Nil)))), n1, w);
    FixCons(lib, here, w, n2, Cons(n3, Cons(n4, Cons(n5, Nil))), n2, w);
    FixCons(lib, here, w, n3, Cons(n4, Cons(n5, Nil)), n3, w);
    FixCons(lib, here, w, n4, Cons(n5, Nil), n4', w);
    FixCons(lib, here, w, n5, Nil, n5, w);
    FixNil(lib, here, w);
  }

  lemma FixNil(lib: Library, path: Path, v: Version)
    ensures FixAll(lib, path, v, Nil) == (Nil, v)
  {
  }

  /** At the two places of a report information object, its timestamp is read by its own version. */
  lemma InfoUsesOwnVersion(lib: Library, path: Path, v: Version, version: string, id: string, process: string, t: int, kind: string)
    requires path == [""] || path == ["", "recrash_report"]
    ensures Fix(lib, path, v, ReportInfo(version, id, process, t, kind))
         == (DatedInfo(version, id, process, Date(lib, Parse(version), t), kind), Parse(version))
  {
    hide FixAll, Parse, Date;
    InfoMembers(lib, path + ["report"], v, version, id, process, t, kind);
  }

  lemma FixCons(lib: Library, path: Path, v: Version, n: Node, rest: Nodes, n': Node, v': Version)
    requires Fix(lib, path, v, n) == (n', v')
    ensures FixAll(lib, path, v, Cons(n, rest)) == (Cons(n', FixAll(lib, path, v', rest).0), FixAll(lib, path, v', rest).1)
  {
  }

  /** The members of a recrash report: the old report under its own name, then the new information, then the rest. */
  function RecrashMembers(embedded: Nodes, info: Node, rest: Nodes): Nodes {
    Cons(Container(Named("recrash_report"), true, embedded), Cons(info, rest))
  }

  /** Written over a report that begins with its information, as a standard report does. */
  function Recrash(oldInfo: Node, oldRest: Nodes, newInfo: Node, rest: Nodes): Node {
    Container(NoName, true, RecrashMembers(Cons(oldInfo, oldRest), newInfo, rest))
  }

  /** Written over a recrash report. */
  function RecrashTwice(older: Nodes, oldInfo: Node, oldRest: Nodes, newInfo: Node, rest: Nodes): Node {
    Container(NoName, true, RecrashMembers(RecrashMembers(older, oldInfo, oldRest), newInfo, rest))
  }

  /** Whatever else the two reports hold, each of the two timestamps is read by its own report's version. */
  lemma RecrashUsesBothVersions(lib: Library, v1: string, id1: string, p1: string, t1: int, k1: string, oldRest: Nodes,
                                v2: string, id2: string, p2: string, t2: int, k2: string, rest: Nodes)
    ensures var info1, info2 := ReportInfo(v1, id1, p1, t1, k1), ReportInfo(v2, id2, p2, t2, k2);
            Fix(lib, [], NO_VERSION, Recrash(info1, oldRest, info2, rest)).0 ==
            Recrash(DatedInfo(v1, id1, p1, Date(lib, Parse(v1), t1), k1), FixAll(lib, ["", "recrash_report"], Parse(v1), oldRest).0,
                    DatedInfo(v2, id2, p2, Date(lib, Parse(v2), t2), k2), FixAll(lib, [""], Parse(v2), rest).0)
  {
    var info1, info2 := ReportInfo(v1, id1, p1, t1, k1), ReportInfo(v2, id2, p2, t2, k2);
    var dated1, dated2 := DatedInfo(v1, id1, p1, Date(lib, Parse(v1), t1), k1), DatedInfo(v2, id2, p2, Date(lib, Parse(v2), t2), k2);
    var inner := ["", "recrash_report"];
    assert [] + [""] == [""] && [""] + ["recrash_report"] == inner;
    InfoUsesOwnVersion(lib, inner, NO_VERSION, v1, id1, p1, t1, k1);
    FixCons(lib, inner, NO_VERSION, info1, oldRest, dated1, Parse(v1));
    var old' := FixAll(lib, inner, Parse(v1), oldRest);
    InfoUsesOwnVersion(lib, [""], old'.1, v2, id2, p2, t2, k2);
    FixCons(lib, [""], old'.1, info2, rest, dated2, Parse(v2));
    FixCons(lib, [""], NO_VERSION, Container(Named("recrash_report"), true, Cons(info1, oldRest)), Cons(info2, rest),
            Container(Named("recrash_report"), true, Cons(dated1, old'.0)), old'.1);
  }

  /** No pattern reaches two recrash reports down. */
  lemma NotAtDeep(path: Path, name: Name)
    requires |path| >= 3 && path[1] == path[2] == "recrash_report"
    ensures !At(path, name, DATE_PATHS) && !At(path, name, DEMANGLE_PATHS) && !At(path, name, VERSION_PATHS)
  {
    var x := path + [Text(name)];
    forall p | p in DATE_PATHS || p in DEMANGLE_PATHS || p in VERSION_PATHS ensures !(x <= p) {
      assert |"report"| != |"recrash_report"| && |"crash"| != |"recrash_report"|;
      assert x[1] == x[2] == "recrash_report" && (p[1] != "recrash_report" || p[2] != "recrash_report");
    }
  }

  lemma {:induction false} DeepUntouched(lib: Library, path: Path, v: Version, n: Node)
    requires |path| >= 3 && path[1] == path[2] == "recrash_report"
    ensures Fix(lib, path, v, n) == (n, v)
    decreases n
  {
    match n
    case Value(name, _) => NotAtDeep(path, name);
    case Container(name, _, kids) => AllDeepUntouched(lib, path + [Text(name)], v, kids);
  }

  lemma {:induction false} AllDeepUntouched(lib: Library, path: Path, v: Version, ns: Nodes)
    requires |path| >= 3 && path[1] == path[2] == "recrash_report"
    ensures FixAll(lib, path, v, ns) == (ns, v)
    decreases ns
  {
    match ns
    case Nil =>
    case Cons(n, rest) =>
      DeepUntouched(lib, path, v, n);
      AllDeepUntouched(lib, path, v, rest);
  }

  /**
   In a recrash report written over a recrash report, the outer two timestamps are read by their own versions,
   and whatever lies deeper, its timestamps included, is left as it is.
   */
  lemma RecrashTwiceStopsAtTwo(lib: Library, older: Nodes,
                               v1: string, id1: string, p1: string, t1: int, k1: string, oldRest: Nodes,
                               v2: string, id2: string, p2: string, t2: int, k2: string, rest: Nodes)
    ensures var info1, info2 := ReportInfo(v1, id1, p1, t1, k1), ReportInfo(v2, id2, p2, t2, k2);
            Fix(lib, [], NO_VERSION, RecrashTwice(older, info1, oldRest, info2, rest)).0 ==
            RecrashTwice(older,
                         DatedInfo(v1, id1, p1, Date(lib, Parse(v1), t1), k1), FixAll(lib, ["", "recrash_report"], Parse(v1), oldRest).0,
                         DatedInfo(v2, id2, p2, Date(lib, Parse(v2), t2), k2), FixAll(lib, [""], Parse(v2), rest).0)
  {
    var info1, info2 := ReportInfo(v1, id1, p1, t1, k1), ReportInfo(v2, id2, p2, t2, k2);
    var dated1, dated2 := DatedInfo(v1, id1, p1, Date(lib, Parse(v1), t1), k1), DatedInfo(v2, id2, p2, Date(lib, Parse(v2), t2), k2);
    var inner, deep := ["", "recrash_report"], ["", "recrash_report", "recrash_report"];
    var oldest := Container(Named("recrash_report"), true, older);
    assert [] + [""] == [""] && [""] + ["recrash_report"] == inner && inner + ["recrash_report"] == deep;
    AllDeepUntouched(lib, deep, NO_VERSION, older);
    InfoUsesOwnVersion(lib, inner, NO_VERSION, v1, id1, p1, t1, k1);
    FixCons(lib, inner, NO_VERSION, info1, oldRest, dated1, Parse(v1));
    FixCons(lib, inner, NO_VERSION, oldest, Cons(info1, oldRest), oldest, NO_VERSION);
    var fixed := FixAll(lib, inner, NO_VERSION, RecrashMembers(older, info1, oldRest));
    InfoUsesOwnVersion(lib, [""], fixed.1, v2, id2, p2, t2, k2);
    FixCons(lib, [""], fixed.1, info2, rest, dated2, Parse(v2));
    FixCons(lib, [""], NO_VERSION, Container(Named("recrash_report"), true, RecrashMembers(older, info1, oldRest)), Cons(info2, rest),
            Container(Named("recrash_report"), true, fixed.0), fixed.1);
  }

  /** So in a report information object of any version a.b.c. */
  lemma InfoTimeExactly(lib: Library, path: Path, v: Version, a: nat, b: nat, c: nat, id: string, process: string, t: int, kind: string)
    requires path == [""] || path == ["", "recrash_report"]
    ensures var version := Print(Version(a, b, c));
            Fix(lib, path, v, ReportInfo(version, id, process, t, kind))
              == (DatedInfo(version, id, process, TimeText(lib, [a, b, c], t), kind), Version(a, b, c))
  {
    InfoUsesOwnVersion(lib, path, v, Print(Version(a, b, c)), id, process, t, kind);
    ParsePrinted(Version(a, b, c));
    DateExactly(lib, Version(a, b, c), t);
    hide Fix, Parse, Print, Date, TimeText;
  }

  /** And in a recrash report whose two reports are of any two versions. */
  lemma RecrashTimesExactly(lib: Library, v: Version, id1: string, p1: string, t1: int, k1: string, oldRest: Nodes,
                            w: Version, id2: string, p2: string, t2: int, k2: string, rest: Nodes)
    requires 0 <= v.major && 0 <= v.minor && 0 <= v.patch && 0 <= w.major && 0 <= w.minor && 0 <= w.patch
    ensures var info1, info2 := ReportInfo(Print(v), id1, p1, t1, k1), ReportInfo(Print(w), id2, p2, t2, k2);
            var text1 := TimeText(lib, [v.major, v.minor, v.patch], t1);
            var text2 := TimeText(lib, [w.major, w.minor, w.patch], t2);
            Fix(lib, [], NO_VERSION, Recrash(info1, oldRest, info2, rest)).0 ==
            Recrash(DatedInfo(Print(v), id1, p1, text1, k1), FixAll(lib, ["", "recrash_report"], v, oldRest).0,
                    DatedInfo(Print(w), id2, p2, text2, k2), FixAll(lib, [""], w, rest).0)
  {
    hide Fix, FixAll, Parse, Print, Date, TimeText, Recrash;
    RecrashUsesBothVersions(lib, Print(v), id1, p1, t1, k1, oldRest, Print(w), id2, p2, t2, k2, rest);
    ParsePrinted(v);
    ParsePrinted(w);
    DateExactly(lib, v, t1);
    DateExactly(lib, w, t2);
  }

  /** Reports of the version the writer writes carry microseconds. */
  lemma {:induction false} WrittenVersionIsMicroseconds(lib: Library, t: int)
    ensures Date(lib, Parse("3.3.0"), t) == lib.utcFromMicroseconds(t)
  {
    assert Decimal(3) == "3" && Decimal(0) == "0";
    assert Print(Version(3, 3, 0)) == "3.3.0";
    ParsePrinted(Version(3, 3, 0));
  }

  /** The two kinds of names that are demangled, in a report and in the report that a recrash report embeds. */
  lemma NamePlaces(around: Path)
    requires around == [""] || around == ["", "recrash_report"]
    ensures At(around + ["crash", "threads", "", "backtrace", "contents", ""], Named("symbol_name"), DEMANGLE_PATHS)
    ensures At(around + ["crash", "error", "cpp_exception"], Named("name"), DEMANGLE_PATHS)
  {
    var symbol, error := around + ["crash", "threads", "", "backtrace", "contents", ""], around + ["crash", "error", "cpp_exception"];
    var i := if around == [""] then 0 else 1;
    assert symbol + ["symbol_name"] == DEMANGLE_PATHS[i] && error + ["name"] == DEMANGLE_PATHS[2 + i];
    AtWitness(symbol, Named("symbol_name"), DEMANGLE_PATHS, i);
    AtWitness(error, Named("name"), DEMANGLE_PATHS, 2 + i);
  }

  /**
   The match is wider than the pattern list: a leaf at the beginning of a pattern is rewritten too, and so a
   string that is the whole `crash` member is demangled.
   */
  lemma CrashStringIsDemangled(lib: Library, s: string)
    ensures var n := Container(NoName, true, Cons(Value(Named("crash"), Str(s)), Nil));
            Fix(lib, [], NO_VERSION, n).0 == Container(NoName, true, Cons(Value(Named("crash"), Str(Demangled(lib, s))), Nil))
  {
    assert [] + [""] == [""] && [""] + ["crash"] == ["", "crash"];
    assert ["", "crash"] <= DEMANGLE_PATHS[0];
    AtWitness([""], Named("crash"), DEMANGLE_PATHS, 0);
    var leaf := Value(Named("crash"), Str(s));
    var (leaf', v) := Fix(lib, [""], NO_VERSION, leaf);
    FixCons(lib, [""], NO_VERSION, leaf, Nil, leaf', v);
  }

  // ------------------------------------------------------------------------------------- the fixup context

  datatype Code = KSJSON_OK | KSJSON_ERROR_DATA_TOO_LONG | NULL_READ

  class FixupContext {
    const lib: Library
    const objectPath: array<string>
    const reportVersionComponents: array<int>
    var currentDepth: nat
    var output: seq<Event>

    ghost predicate Valid()
      reads this, objectPath, reportVersionComponents
    {
      && objectPath.Length == MAX_DEPTH
      && reportVersionComponents.Length == 3
      && currentDepth <= MAX_DEPTH
    }

    ghost function Now(): Context
      reads this, objectPath, reportVersionComponents
      requires Valid()
    {
      var v := reportVersionComponents;
      Context(objectPath[..currentDepth], Version(v[0], v[1], v[2]), output)
    }

    /** A callback did what the model's callback does, up to the code that stops the decoder. */
    ghost predicate Did(r: Code, result: Result)
      reads this, objectPath, reportVersionComponents
    {
      && Valid()
      && match result
         case Ok(c) => r == KSJSON_OK && Now() == c
         case TooLong => r == KSJSON_ERROR_DATA_TOO_LONG
         case Crashed => r == NULL_READ
    }

    constructor (lib: Library)
      ensures Valid() && Now() == Context([], NO_VERSION, []) && this.lib == lib
      ensures fresh(objectPath) && fresh(reportVersionComponents)
    {
      this.lib := lib;
      objectPath := new string[MAX_DEPTH];
      reportVersionComponents := new int[3](_ => 0);
      currentDepth := 0;
      output := [];
    }

    method IncreaseDepth(name: Name) returns (ok: bool)
      requires Valid()
      modifies this`currentDepth, objectPath
      ensures Valid() && ok == (|old(Now()).open| < MAX_DEPTH)
      ensures Now() == if ok then old(Now()).(open := old(Now()).open + [Stored(Text(name))]) else old(Now())
    {
      if currentDepth >= MAX_DEPTH {
        return false;
      }
      if name.NoName? {
        objectPath[currentDepth] := "";
      } else {
        objectPath[currentDepth] := Stored(name.text);
      }
      currentDepth := currentDepth + 1;
      return true;
    }

    method DecreaseDepth() returns (ok: bool)
      requires Valid()
      modifies this`currentDepth
      ensures Valid() && ok == (old(Now()).open != [])
      ensures Now() == old(Now()).(open := if ok then old(Now()).open[..|old(Now()).open| - 1] else [])
    {
      if currentDepth <= 0 {
        return false;
      }
      currentDepth := currentDepth - 1;
      return true;
    }

    method MatchesPath(pattern: Path, name: Name) returns (m: Match)
      requires Valid()
      ensures m == MatchFrom(Now().open, pattern, name, 0)
    {
      for i := 0 to currentDepth
        invariant MatchFrom(Now().open, pattern, name, 0) == MatchFrom(Now().open, pattern, name, i)
      {
        if i >= |pattern| {
          return NullRead;
        }
        if !SameName(objectPath[i], pattern[i]) {
          return No;
        }
      }
      if currentDepth >= |pattern| {
        return NullRead;
      }
      return if SameName(Text(name), pattern[currentDepth]) then Yes else No;
    }

    method MatchesAPath(patterns: seq<Path>, name: Name) returns (m: Match)
      requires Valid()
      ensures m == MatchAny(Now().open, patterns, name)
    {
      for i := 0 to |patterns|
        invariant MatchAny(Now().open, patterns, name) == MatchAny(Now().open, patterns[i..], name)
      {
        m := MatchesPath(patterns[i], name);
        if m != No {
          return;
        }
      }
      m := No;
    }

    method OnIntegerElement(name: Name, i: int) returns (r: Code)
      requires Valid()
      modifies this`output
      ensures Did(r, Step(lib, old(Now()), Leaf(name, Int(i))))
    {
      var m := MatchesAPath(DATE_PATHS, name);
      if m == NullRead {
        return NULL_READ;
      }
      var v := reportVersionComponents;
      if m == Yes {
        output := output + [Leaf(name, Str(Date(lib, Version(v[0], v[1], v[2]), i)))];
      } else {
        output := output + [Leaf(name, Int(i))];
      }
      return KSJSON_OK;
    }

    /** The components of a version string, token by token. */
    method SaveVersion(value: string)
      requires Valid()
      modifies reportVersionComponents
      ensures Valid() && Now() == old(Now()).(version := Parse(value))
    {
      for i := 0 to 3
        invariant forall k | 0 <= k < i :: reportVersionComponents[k] == 0
      {
        reportVersionComponents[i] := 0;
      }
      var tokens := Tokens(value);
      var index := 0;
      while index < |tokens| && index < 3
        invariant index <= |tokens| && index <= 3
        invariant forall k | 0 <= k < 3 :: reportVersionComponents[k] == if k < index then Atoi(tokens[k]) else 0
      {
        reportVersionComponents[index] := Atoi(tokens[index]);
        index := index + 1;
      }
    }

    method OnStringElement(name: Name, value: string) returns (r: Code)
      requires Valid()
      modifies this`output, reportVersionComponents
      ensures Did(r, Step(lib, old(Now()), Leaf(name, Str(value))))
    {
      var m := MatchesAPath(DEMANGLE_PATHS, name);
      if m == NullRead {
        return NULL_READ;
      }
      output := output + [Leaf(name, Str(if m == Yes then Demangled(lib, value) else value))];
      var n := MatchesAPath(VERSION_PATHS, name);
      if n == NullRead {
        return NULL_READ;
      }
      if n == Yes {
        SaveVersion(value);
      }
      return KSJSON_OK;
    }

    /** Booleans, reals and nulls go through unchanged. */
    method OnOtherElement(name: Name, v: Scalar) returns (r: Code)
      requires Valid() && !v.Int? && !v.Str?
      modifies this`output
      ensures Did(r, Step(lib, old(Now()), Leaf(name, v)))
    {
      output := output + [Leaf(name, v)];
      return KSJSON_OK;
    }

    method OnBeginContainer(name: Name, isObject: bool) returns (r: Code)
      requires Valid()
      modifies this, objectPath
      ensures Did(r, Step(lib, old(Now()), Begin(name, isObject)))
    {
      output := output + [Begin(name, isObject)];
      var ok := IncreaseDepth(name);
      return if ok then KSJSON_OK else KSJSON_ERROR_DATA_TOO_LONG;
    }

    method OnEndContainer() returns (r: Code)
      requires Valid()
      modifies this
      ensures Did(r, Step(lib, old(Now()), End))
    {
      output := output + [End];
      var ok := DecreaseDepth();
      return KSJSON_OK;
    }
  }

  /** `kscrf_fixupCrashReport`, fed by the decoder until a callback refuses. */
  method FixupCrashReport(lib: Library, events: seq<Event>) returns (r: Code, fixed: seq<Event>)
    ensures match Run(lib, Context([], NO_VERSION, []), events)
            case Ok(c) => r == KSJSON_OK && fixed == c.output
            case TooLong => r == KSJSON_ERROR_DATA_TOO_LONG
            case Crashed => r == NULL_READ
  {
    var context := new FixupContext(lib);
    r, fixed := KSJSON_OK, [];
    for i := 0 to |events|
      invariant context.Valid() && fresh(context) && fresh(context.objectPath) && fresh(context.reportVersionComponents)
      invariant context.lib == lib && r == KSJSON_OK
      invariant Run(lib, Context([], NO_VERSION, []), events) == Run(lib, context.Now(), events[i..])
    {
      match events[i] {
        case Begin(name, isObject) => r := context.OnBeginContainer(name, isObject);
        case End => r := context.OnEndContainer();
        case Leaf(name, Int(x)) => r := context.OnIntegerElement(name, x);
        case Leaf(name, Str(x)) => r := context.OnStringElement(name, x);
        case Leaf(name, v) => r := context.OnOtherElement(name, v);
      }
      if r != KSJSON_OK {
        return;
      }
    }
    fixed := context.output;
  }
}
