/** Report version strings: how the fixer reads them, and how it compares them with 3.3.0. */
module ReportVersion {
  import opened Basics

  datatype Version = Version(major: int, minor: int, patch: int)

  const NO_VERSION := Version(0, 0, 0)

  // ------------------------------------------------------------------------------------- strtok and atoi

  /** The length of the text up to the next dot. */
  function UpToDot(s: string): (n: nat)
    ensures n <= |s|
    ensures n < |s| ==> s[n] == '.'
    ensures forall i | 0 <= i < n :: s[i] != '.'
  {
    if s == "" || s[0] == '.' then 0 else 1 + UpToDot(s[1..])
  }

  /** `strtok` with ".": the non-empty stretches between dots. */
  function Tokens(s: string): seq<string>
    decreases |s|
  {
    if s == "" then []
    else if s[0] == '.' then Tokens(s[1..])
    else [s[..UpToDot(s)]] + Tokens(s[UpToDot(s)..])
  }

  function DigitsOf(s: string): (d: string)
    ensures forall c | c in d :: IsDigit(c)
  {
    if s != "" && IsDigit(s[0]) then [s[0]] + DigitsOf(s[1..]) else ""
  }

  function Value(d: string): nat
    requires forall c | c in d :: IsDigit(c)
  {
    if d == "" then 0 else
      10 * Value(d[..|d| - 1]) + DigitValue(d[|d| - 1])
  }

  function Unsigned(s: string): nat {
    Value(DigitsOf(s))
  }

  /** `atoi`: white space, a sign, digits, and then anything. */
  function Atoi(s: string): int
    decreases |s|
  {
    if s == "" then 0
    else if IsSpace(s[0]) then Atoi(s[1..])
    else if s[0] == '-' then 0 - Unsigned(s[1..])
    else if s[0] == '+' then Unsigned(s[1..])
    else Unsigned(s)
  }

  function Component(tokens: seq<string>, i: nat): int {
    if i < |tokens| then Atoi(tokens[i]) else 0
  }

  function Parse(s: string): Version {
    Version(Component(Tokens(s), 0), Component(Tokens(s), 1), Component(Tokens(s), 2))
  }

  // ----------------------------------------------------------------------------------- printing versions

  function Decimal(n: nat): (s: string)
    ensures s != "" && forall c | c in s :: IsDigit(c)
  {
    var last := [('0' as int + n % 10) as char];
    if n < 10 then last else Decimal(n / 10) + last
  }

  function Print(v: Version): string
    requires 0 <= v.major && 0 <= v.minor && 0 <= v.patch
  {
    Decimal(v.major) + "." + Decimal(v.minor) + "." + Decimal(v.patch)
  }

  lemma {:induction false} ValueOfDecimal(n: nat)
    ensures Value(Decimal(n)) == n
  {
    var d := Decimal(n);
    if n < 10 {
      assert d[..|d| - 1] == "";
    } else {
      ValueOfDecimal(n / 10);
      assert d[..|d| - 1] == Decimal(n / 10);
    }
  }

  lemma {:induction false} AllDigits(s: string)
    requires forall c | c in s :: IsDigit(c)
    ensures DigitsOf(s) == s
  {
    if s != "" { AllDigits(s[1..]); }
  }

  lemma AtoiOfDecimal(n: nat)
    ensures Atoi(Decimal(n)) == n
  {
    var d := Decimal(n);
    assert d[0] in d;
    AllDigits(d);
    ValueOfDecimal(n);
  }

  /** A token and a dot come off the front. */
  lemma {:induction false} UpToDotOf(t: string, rest: string)
    requires (forall c | c in t :: c != '.') && (rest == "" || rest[0] == '.')
    ensures UpToDot(t + rest) == |t|
  {
    if t == "" {
      assert t + rest == rest;
    } else {
      assert t[0] in t;
      assert (t + rest)[1..] == t[1..] + rest;
      assert forall c | c in t[1..] :: c in t;
      UpToDotOf(t[1..], rest);
    }
  }

  lemma FirstToken(t: string, rest: string)
    requires t != "" && (forall c | c in t :: c != '.') && (rest == "" || rest[0] == '.')
    ensures Tokens(t + rest) == [t] + Tokens(rest)
  {
    UpToDotOf(t, rest);
    assert t[0] in t;
    assert (t + rest)[..|t|] == t && (t + rest)[|t|..] == rest;
  }

  lemma TokenThenDot(t: string, rest: string)
    requires t != "" && forall c | c in t :: c != '.'
    ensures Tokens(t + "." + rest) == [t] + Tokens(rest)
  {
    assert t + "." + rest == t + ("." + rest);
    FirstToken(t, "." + rest);
    assert ("." + rest)[1..] == rest;
  }

  lemma ThreeTokens(a: string, b: string, c: string)
    requires a != "" && b != "" && c != ""
    requires (forall x | x in a :: x != '.') && (forall x | x in b :: x != '.') && (forall x | x in c :: x != '.')
    ensures Tokens(a + "." + b + "." + c) == [a, b, c]
  {
    assert a + "." + b + "." + c == a + "." + (b + "." + c);
    TokenThenDot(a, b + "." + c);
    TokenThenDot(b, c);
    FirstToken(c, "");
    assert c + "" == c;
  }

  /** Reading a printed version gives the version back. */
  lemma ParsePrinted(v: Version)
    requires 0 <= v.major && 0 <= v.minor && 0 <= v.patch
    ensures Parse(Print(v)) == v
  {
    ThreeTokens(Decimal(v.major), Decimal(v.minor), Decimal(v.patch));
    AtoiOfDecimal(v.major);
    AtoiOfDecimal(v.minor);
    AtoiOfDecimal(v.patch);
  }

  lemma {:induction false} DigitsBefore(d: string, rest: string)
    requires (forall c | c in d :: IsDigit(c)) && (rest == "" || !IsDigit(rest[0]))
    ensures DigitsOf(d + rest) == d
    decreases |d|
  {
    if d == "" {
      assert d + rest == rest;
    } else {
      assert d[0] in d && (d + rest)[1..] == d[1..] + rest;
      DigitsBefore(d[1..], rest);
    }
  }

  lemma AtoiOfMarked(n: nat, rest: string)
    requires rest == "" || !IsDigit(rest[0])
    ensures Atoi(Decimal(n) + rest) == n
  {
    var d := Decimal(n);
    assert d[0] in d && (d + rest)[0] == d[0];
    DigitsBefore(d, rest);
    ValueOfDecimal(n);
  }

  lemma AtoiFront(c: char, rest: string)
    ensures Atoi([c] + rest)
         == if IsSpace(c) then Atoi(rest) else if c == '-' then 0 - Unsigned(rest) else if c == '+' then Unsigned(rest)
            else Unsigned([c] + rest)
  {
    assert ([c] + rest)[0] == c && ([c] + rest)[1..] == rest;
  }

  /** White space and a sign before a number are read as such. */
  lemma AtoiExactly(n: nat, rest: string)
    requires rest == "" || !IsDigit(rest[0])
    ensures var t := Decimal(n) + rest; Atoi(['-'] + t) == 0 - n && Atoi(['+'] + t) == n && Atoi([' '] + t) == n
  {
    var t := Decimal(n) + rest;
    AtoiOfMarked(n, rest);
    DigitsBefore(Decimal(n), rest);
    ValueOfDecimal(n);
    hide Decimal, Atoi, Value, DigitsOf;
    AtoiFront('-', t);
    AtoiFront('+', t);
    AtoiFront(' ', t);
  }

  /** A text that does not begin with a number, after white space and a sign, is 0. */
  lemma AtoiOfOther(c: char, rest: string)
    requires !IsSpace(c) && !IsDigit(c) && c != '-' && c != '+'
    ensures Atoi([c] + rest) == 0 && Atoi("") == 0
  {
    AtoiFront(c, rest);
    assert DigitsOf([c] + rest) == "";
  }

  /** Whatever follows the third number, unless it is a digit, is not looked at. */
  lemma ParseMarked(v: Version, rest: string)
    requires 0 <= v.major && 0 <= v.minor && 0 <= v.patch && (rest == "" || !IsDigit(rest[0]))
    ensures Parse(Print(v) + rest) == v
  {
    var a, b, n := Decimal(v.major), Decimal(v.minor), UpToDot(rest);
    var c := Decimal(v.patch) + rest[..n];
    assert rest == rest[..n] + rest[n..];
    assert Print(v) + rest == a + "." + (b + "." + (c + rest[n..]));
    TokenThenDot(a, b + "." + (c + rest[n..]));
    TokenThenDot(b, c + rest[n..]);
    FirstToken(c, rest[n..]);
    AtoiOfDecimal(v.major);
    AtoiOfDecimal(v.minor);
    AtoiOfMarked(v.patch, rest[..n]);
    hide Tokens, Atoi, Decimal;
  }

  /** Empty parts are passed over: dots in front, and two dots for one. */
  lemma EmptyPartsSkipped(t: string, rest: string)
    requires t != "" && forall c | c in t :: c != '.'
    ensures Parse("." + rest) == Parse(rest) && Parse(t + "." + ("." + rest)) == Parse(t + "." + rest)
  {
    assert ("." + rest)[1..] == rest;
    TokenThenDot(t, "." + rest);
    TokenThenDot(t, rest);
    hide Atoi;
  }

  /** Numbers that are missing are 0. */
  lemma ParseShort(a: nat, b: nat)
    ensures Parse("") == NO_VERSION
    ensures Parse(Decimal(a)) == Version(a, 0, 0)
    ensures Parse(Decimal(a) + "." + Decimal(b)) == Version(a, b, 0)
  {
    TokenThenDot(Decimal(a), Decimal(b));
    FirstToken(Decimal(a), "");
    FirstToken(Decimal(b), "");
    assert Decimal(a) + "" == Decimal(a) && Decimal(b) + "" == Decimal(b);
    AtoiOfDecimal(a);
    AtoiOfDecimal(b);
    hide Atoi, Decimal;
  }

  // ------------------------------------------------------------------------------------------- comparing

  /** `matchesMinVersion`, test by test. */
  function MatchesMinVersion(v: Version, major: int, minor: int, patch: int): bool {
    var r := false || v.major > major;
    var r := r || (v.major == major && v.minor > minor);
    r || (v.major == major && v.minor == minor && v.patch >= patch)
  }

  /** The lexicographic order on lists of numbers. */
  predicate LexLess(a: seq<int>, b: seq<int>) {
    b != [] && (a == [] || a[0] < b[0] || (a[0] == b[0] && LexLess(a[1..], b[1..])))
  }

  lemma MinVersionIsLexicographic(v: Version, major: int, minor: int, patch: int)
    ensures MatchesMinVersion(v, major, minor, patch) <==> !LexLess([v.major, v.minor, v.patch], [major, minor, patch])
  {
    LexStep([v.major, v.minor, v.patch], [major, minor, patch], [v.minor, v.patch], [minor, patch]);
    LexStep([v.minor, v.patch], [minor, patch], [v.patch], [patch]);
    LexStep([v.patch], [patch], [], []);
  }

  lemma LexStep(a: seq<int>, b: seq<int>, a': seq<int>, b': seq<int>)
    requires a != [] && b != [] && a[1..] == a' && b[1..] == b'
    ensures LexLess(a, b) <==> a[0] < b[0] || (a[0] == b[0] && LexLess(a', b'))
  {
  }
}
