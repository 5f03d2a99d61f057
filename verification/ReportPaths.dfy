/**
 How KSCrashReportFixer finds the places of a report that it rewrites: the names of the open containers,
 cut to 100 characters, against NULL-terminated patterns. What the search means is a prefix relation.
 */
module ReportPaths {

  /** Array elements and the root have no name. */
  datatype Name = NoName | Named(text: string)

  const MAX_DEPTH := 100
  const MAX_NAME_LENGTH := 100

  type Path = seq<string>

  const DATE_PATHS: seq<Path> := [
    ["", "report", "timestamp"],
    ["", "recrash_report", "report", "timestamp"]]

  const DEMANGLE_PATHS: seq<Path> := [
    ["", "crash", "threads", "", "backtrace", "contents", "", "symbol_name"],
    ["", "recrash_report", "crash", "threads", "", "backtrace", "contents", "", "symbol_name"],
    ["", "crash", "error", "cpp_exception", "name"],
    ["", "recrash_report", "crash", "error", "cpp_exception", "name"]]

  const VERSION_PATHS: seq<Path> := [
    ["", "report", "version"],
    ["", "recrash_report", "report", "version"]]

  function Text(n: Name): string {
    if n.NoName? then "" else n.text
  }

  // ------------------------------------------------------------------------------ matching, as the code does

  /** What `strncpy` leaves in a name slot, and what `strncmp` looks at: 100 characters. */
  function Stored(s: string): string {
    if |s| <= MAX_NAME_LENGTH then s else s[..MAX_NAME_LENGTH]
  }

  predicate SameName(a: string, b: string) {
    Stored(a) == Stored(b)
  }

  /** Names are the same if they are equal, or agree in their first 100 characters. */
  lemma SameNameExactly(a: string, b: string)
    ensures SameName(a, b) <==> a == b || (|a| >= 100 && |b| >= 100 && a[..100] == b[..100])
  {
    if |a| == 100 { assert a[..100] == a; }
    if |b| == 100 { assert b[..100] == b; }
  }

  /** A pattern that ends too early hands NULL to `strncmp`. */
  datatype Match = Yes | No | NullRead

  /** `matchesPath` from the `i`th name on. */
  function MatchFrom(open: Path, pattern: Path, name: Name, i: nat): Match
    requires i <= |open|
    decreases |open| - i
  {
    if i >= |pattern| then NullRead
    else if i == |open| then if SameName(Text(name), pattern[i]) then Yes else No
    else if !SameName(open[i], pattern[i]) then No
    else MatchFrom(open, pattern, name, i + 1)
  }

  /** `matchesAPath`: the first pattern that matches ends the search. */
  function MatchAny(open: Path, patterns: seq<Path>, name: Name): Match {
    if patterns == [] then No
    else
      var m := MatchFrom(open, patterns[0], name, 0);
      if m == No then MatchAny(open, patterns[1..], name) else m
  }

  // --------------------------------------------------------------------------------------- what matching means

  /** A leaf is at a pattern, or at the beginning of one. */
  ghost predicate At(path: Path, name: Name, patterns: seq<Path>) {
    exists p | p in patterns :: path + [Text(name)] <= p
  }

  /** A leaf is inside a container that is itself at a whole pattern. */
  ghost predicate Inside(path: Path, patterns: seq<Path>) {
    exists p | p in patterns :: p <= path
  }

  ghost predicate ShortNames(p: Path) {
    forall s | s in p :: |s| < MAX_NAME_LENGTH
  }

  /** Pattern names are short, and no pattern continues another. */
  ghost predicate WellMade(patterns: seq<Path>) {
    && (forall p | p in patterns :: ShortNames(p))
    && (forall p, q | p in patterns && q in patterns && p <= q :: p == q)
  }

  /** The names of the open containers as their slots hold them. */
  function StoredAll(path: Path): Path {
    seq(|path|, i requires 0 <= i < |path| => Stored(path[i]))
  }

  lemma {:induction false} MatchFromMeans(path: Path, pattern: Path, name: Name, i: nat)
    requires i <= |path| && i <= |pattern| && path[..i] == pattern[..i]
    requires ShortNames(pattern)
    ensures MatchFrom(StoredAll(path), pattern, name, i) == NullRead <==> pattern <= path
    ensures MatchFrom(StoredAll(path), pattern, name, i) == Yes <==> path + [Text(name)] <= pattern
    decreases |path| - i
  {
    if i < |pattern| {
      assert pattern[i] in pattern;
      if i < |path| {
        if SameName(StoredAll(path)[i], pattern[i]) {
          assert path[..i + 1] == pattern[..i + 1];
          MatchFromMeans(path, pattern, name, i + 1);
        } else {
          assert path[i] != pattern[i];
          assert (path + [Text(name)])[i] == path[i];
        }
      } else {
        assert path + [Text(name)] == pattern[..i] + [Text(name)];
      }
    } else {
      assert pattern == path[..i];
    }
  }

  /** The search finds a leaf at a pattern, and reads NULL exactly inside one. */
  lemma MatchAnyMeans(path: Path, patterns: seq<Path>, name: Name)
    requires WellMade(patterns)
    ensures MatchAny(StoredAll(path), patterns, name) == Yes <==> At(path, name, patterns)
    ensures MatchAny(StoredAll(path), patterns, name) == NullRead <==> Inside(path, patterns)
  {
    NotBoth(path, patterns, name);
    MatchAnyScans(path, patterns, name);
  }

  lemma NotBoth(path: Path, patterns: seq<Path>, name: Name)
    requires WellMade(patterns)
    ensures !(At(path, name, patterns) && Inside(path, patterns))
  {
  }

  lemma {:induction false} MatchAnyScans(path: Path, patterns: seq<Path>, name: Name)
    requires forall p | p in patterns :: ShortNames(p)
    ensures MatchAny(StoredAll(path), patterns, name) == Yes ==> At(path, name, patterns)
    ensures MatchAny(StoredAll(path), patterns, name) == NullRead ==> Inside(path, patterns)
    ensures MatchAny(StoredAll(path), patterns, name) == No ==> !At(path, name, patterns) && !Inside(path, patterns)
  {
    if patterns != [] {
      assert patterns == [patterns[0]] + patterns[1..];
      assert patterns[0] in patterns;
      MatchFromMeans(path, patterns[0], name, 0);
      var rest := patterns[1..];
      MatchAnyScans(path, rest, name);
      if At(path, name, rest) {
        var p :| p in rest && path + [Text(name)] <= p;
        assert p in patterns;
      }
      if Inside(path, rest) {
        var p :| p in rest && p <= path;
        assert p in patterns;
      }
    }
  }

  lemma PatternsWellMade()
    ensures WellMade(DATE_PATHS) && WellMade(DEMANGLE_PATHS) && WellMade(VERSION_PATHS)
  {
    assert WellMade(DATE_PATHS) by {
      forall p, q | p in DATE_PATHS && q in DATE_PATHS && p <= q ensures p == q {
        assert p[1] == q[1];
      }
    }
    assert WellMade(VERSION_PATHS) by {
      forall p, q | p in VERSION_PATHS && q in VERSION_PATHS && p <= q ensures p == q {
        assert p[1] == q[1];
      }
    }
    DemanglePathsWellMade();
  }

  lemma DemanglePathsWellMade()
    ensures WellMade(DEMANGLE_PATHS)
  {
    forall p, q | p in DEMANGLE_PATHS && q in DEMANGLE_PATHS && p <= q ensures p == q {
      assert p[1] == q[1] && p[2] == q[2] && p[3] == q[3];
    }
  }
}
