/** Report file names: `%016llx` when printing and `%llx` when scanning, after the application's name. */
module ReportNames {
  import opened Basics

  const TWO_63 := 0x8000_0000_0000_0000
  const TWO_64 := 0x1_0000_0000_0000_0000

  const HEX := "0123456789abcdef"

  function HexDigit(d: nat): char
    requires d < 16
  {
    HEX[d]
  }

  /** The value of a hexadecimal digit, upper or lower case; -1 for other characters. */
  function NibbleValue(c: char): int {
    if IsDigit(c) then DigitValue(c)
    else if 'a' <= c <= 'f' then c as int - 'a' as int + 10
    else if 'A' <= c <= 'F' then c as int - 'A' as int + 10
    else -1
  }

  function Hex(n: nat, width: nat): (s: string)
    ensures |s| == width
  {
    if width == 0 then "" else Hex(n / 16, width - 1) + [HexDigit(n % 16)]
  }

  /** `getCrashReportPathByID`, without the directory; `%llx` sees the 64 bits as unsigned. */
  function FileName(app: string, id: int): string {
    app + "-report-" + Hex(id % TWO_64, 16) + ".json"
  }

  // ----------------------------------------------------------------------------------------------- sscanf

  function SkipSpaces(s: string): string {
    if s != "" && IsSpace(s[0]) then SkipSpaces(s[1..]) else s
  }

  /** Literal text of a format: white space matches any amount of white space, the rest itself. */
  function ScanLiteral(format: string, s: string): Option<string>
    decreases |format|
  {
    if format == "" then Some(s)
    else if IsSpace(format[0]) then ScanLiteral(format[1..], SkipSpaces(s))
    else if s != "" && s[0] == format[0] then ScanLiteral(format[1..], s[1..])
    else None
  }

  function HexPrefix(s: string): (p: string)
    ensures forall c | c in p :: 0 <= NibbleValue(c)
  {
    if s != "" && 0 <= NibbleValue(s[0]) then [s[0]] + HexPrefix(s[1..]) else ""
  }

  function HexValue(s: string): nat
    requires forall c | c in s :: 0 <= NibbleValue(c)
  {
    if s == "" then 0 else
      var d := NibbleValue(s[|s| - 1]);
      16 * HexValue(s[..|s| - 1]) + d
  }

  /** Digits after an optional `0x`. */
  function ScanDigits(s: string): Option<int> {
    var t := if |s| >= 3 && s[0] == '0' && (s[1] == 'x' || s[1] == 'X') && 0 <= NibbleValue(s[2]) then s[2..] else s;
    if HexPrefix(t) == "" then None else Some(HexValue(HexPrefix(t)))
  }

  /** `%llx`: white space, a sign, digits. */
  function ScanHex(s: string): Option<int> {
    var t := SkipSpaces(s);
    if t != "" && t[0] == '-' then
      match ScanDigits(t[1..])
      case None => None
      case Some(v) => Some(-v)
    else if t != "" && t[0] == '+' then ScanDigits(t[1..])
    else ScanDigits(t)
  }

  /** The number as an `int64_t`; a number too long for 64 bits is read as the largest unsigned one. */
  function ToInt64(v: int): int {
    var w := if -TWO_64 < v < TWO_64 then v % TWO_64 else TWO_64 - 1;
    if w < TWO_63 then w else w - TWO_64
  }

  /** `getReportIDFromFilename`: what follows the number is not looked at. */
  function ReportID(app: string, file: string): int {
    match ScanLiteral(app + "-report-", file)
    case None => 0
    case Some(rest) =>
      match ScanHex(rest)
      case None => 0
      case Some(v) => ToInt64(v)
  }

  // --------------------------------------------------------------------------------------------- round trip

  lemma {:induction false} SkipSpacesTwice(s: string)
    ensures SkipSpaces(SkipSpaces(s)) == SkipSpaces(s)
  {
    if s != "" && IsSpace(s[0]) { SkipSpacesTwice(s[1..]); }
  }

  /** A text scans itself off the front, with its white space or without the leading part of it. */
  lemma {:induction false} ScanSelf(format: string, rest: string)
    requires rest != "" && !IsSpace(rest[0])
    ensures ScanLiteral(format, format + rest) == Some(rest)
    ensures ScanLiteral(format, SkipSpaces(format + rest)) == Some(rest)
    decreases |format|
  {
    var s := format + rest;
    if format == "" {
      assert s == rest;
    } else {
      assert s[0] == format[0] && s[1..] == format[1..] + rest;
      ScanSelf(format[1..], rest);
      if IsSpace(format[0]) {
        SkipSpacesTwice(s[1..]);
      }
    }
  }

  lemma HexDigitValue(d: nat)
    requires d < 16
    ensures NibbleValue(HexDigit(d)) == d && !IsSpace(HexDigit(d)) && HexDigit(d) != '-' && HexDigit(d) != '+'
    ensures HexDigit(d) != 'x' && HexDigit(d) != 'X'
  {
  }

  lemma {:induction false} HexDigits(n: nat, width: nat)
    ensures forall c | c in Hex(n, width) :: 0 <= NibbleValue(c) && !IsSpace(c) && c != '-' && c != '+' && c != 'x' && c != 'X'
  {
    if width > 0 {
      HexDigits(n / 16, width - 1);
      HexDigitValue(n % 16);
    }
  }

  function Power16(width: nat): nat {
    if width == 0 then 1 else 16 * Power16(width - 1)
  }

  lemma {:induction false} HexValueOfHex(n: nat, width: nat)
    requires n < Power16(width)
    ensures (forall c | c in Hex(n, width) :: 0 <= NibbleValue(c)) && HexValue(Hex(n, width)) == n
  {
    HexDigits(n, width);
    if width > 0 {
      HexValueOfHex(n / 16, width - 1);
      HexDigitValue(n % 16);
      assert Hex(n, width)[..width - 1] == Hex(n / 16, width - 1);
    }
  }

  lemma {:induction false} HexPrefixOf(p: string, rest: string)
    requires (forall c | c in p :: 0 <= NibbleValue(c)) && (rest == "" || NibbleValue(rest[0]) < 0)
    ensures HexPrefix(p + rest) == p
    decreases |p|
  {
    if p == "" {
      assert p + rest == rest;
    } else {
      assert p[0] in p && (p + rest)[1..] == p[1..] + rest;
      assert forall c | c in p[1..] :: c in p;
      HexPrefixOf(p[1..], rest);
    }
  }

  lemma Power16Of16()
    ensures Power16(16) == TWO_64
  {
    assert Power16(4) == 0x1_0000;
    assert Power16(8) == 0x1_0000_0000;
    assert Power16(12) == 0x1_0000_0000_0000;
  }

  lemma ScanPrinted(id: nat)
    requires id < TWO_64
    ensures var s := Hex(id, 16) + ".json"; !IsSpace(s[0]) && ScanHex(s) == Some(id)
  {
    var h := Hex(id, 16);
    Power16Of16();
    hide Hex, HexValue, Power16;
    HexValueOfHex(id, 16);
    HexDigits(id, 16);
    assert h[0] in h;
    ScanHexOf(h, ".json");
  }

  /** Scanning the file name of any 64-bit ID gives the ID back. */
  lemma NameRoundTrip(app: string, id: int)
    requires -TWO_63 <= id < TWO_63
    ensures ReportID(app, FileName(app, id)) == id
  {
    hide Hex, ScanHex, ScanLiteral, IsSpace;
    ScanPrinted(id % TWO_64);
    var prefix, hex := app + "-report-", Hex(id % TWO_64, 16);
    Regroup(prefix, hex, ".json");
    ScanSelf(prefix, hex + ".json");
  }

  lemma Regroup(a: string, b: string, c: string)
    ensures a + b + c == a + (b + c)
  {
  }

  lemma ScanHexOf(h: string, rest: string)
    requires |h| >= 2 && (rest == "" || NibbleValue(rest[0]) < 0)
    requires forall c | c in h :: 0 <= NibbleValue(c) && !IsSpace(c) && c != '-' && c != '+' && c != 'x' && c != 'X'
    ensures ScanHex(h + rest) == Some(HexValue(h))
  {
    var s := h + rest;
    assert s[0] == h[0] && s[1] == h[1] && h[0] in h && h[1] in h;
    HexPrefixOf(h, rest);
  }

  /** The digits of either case, and no other characters. */
  lemma NibbleExactly(c: char, d: nat)
    requires d < 16
    ensures NibbleValue(c) == d <==> c == "0123456789abcdef"[d] || c == "0123456789ABCDEF"[d]
    ensures -1 <= NibbleValue(c) < 16
  {
  }

  /** A name is the application's name, a fixed text, sixteen lower-case digits of the ID's value, and the ending. */
  lemma {:induction false} NameIs(app: string, id: int) returns (h: string)
    requires 0 < id < TWO_63
    ensures FileName(app, id) == app + "-report-" + h + ".json" && |h| == 16
    ensures (forall c | c in h :: IsLowerHex(c) && 0 <= NibbleValue(c)) && HexValue(h) == id
  {
    hide Hex, HexValue, Power16, NibbleValue, IsLowerHex;
    h := Hex(id, 16);
    LowerCase(id, 16);
    Power16Of16();
    HexValueOfHex(id, 16);
  }

  predicate IsLowerHex(c: char) {
    '0' <= c <= '9' || 'a' <= c <= 'f'
  }

  lemma {:induction false} LowerCase(n: nat, width: nat)
    ensures forall c | c in Hex(n, width) :: IsLowerHex(c)
  {
    if width > 0 {
      LowerCase(n / 16, width - 1);
    }
  }

  lemma PlainDigit(c: char)
    requires 0 <= NibbleValue(c)
    ensures !IsSpace(c) && c != '-' && c != '+' && c != 'x' && c != 'X'
  {
  }

  /** Any other spelling of a number, in either case and of any length, is read all the same, whatever follows it. */
  lemma {:induction false} SpellingIsRead(app: string, h: string, rest: string)
    requires |h| >= 2 && (rest == "" || NibbleValue(rest[0]) < 0)
    requires forall c | c in h :: 0 <= NibbleValue(c)
    ensures ReportID(app, app + "-report-" + h + rest)
         == var v := HexValue(h); if v < TWO_63 then v else if v < TWO_64 then v - TWO_64 else -1
  {
    hide NibbleValue, HexValue, ScanHex, ScanLiteral, IsSpace;
    forall c | c in h ensures !IsSpace(c) && c != '-' && c != '+' && c != 'x' && c != 'X' {
      PlainDigit(c);
    }
    ScanHexOf(h, rest);
    assert h[0] in h;
    Regroup(app + "-report-", h, rest);
    ScanSelf(app + "-report-", h + rest);
  }

  lemma ScanDigitsOf(h: string, rest: string)
    requires |h| >= 2 && (rest == "" || NibbleValue(rest[0]) < 0)
    requires forall c | c in h :: 0 <= NibbleValue(c)
    ensures ScanDigits(h + rest) == Some(HexValue(h)) && ScanDigits(['0', 'x'] + (h + rest)) == Some(HexValue(h))
  {
    var s := h + rest;
    var x := ['0', 'x'] + s;
    assert s[0] == h[0] && s[1] == h[1] && h[0] in h && h[1] in h;
    PlainDigit(h[1]);
    HexPrefixOf(h, rest);
    hide HexValue, HexPrefix, NibbleValue;
    assert x[0] == '0' && x[1] == 'x' && x[2] == s[0] && x[2..] == s;
  }

  lemma ScanHexFront(c: char, t: string)
    requires t != "" && !IsSpace(t[0]) && t[0] != '-' && t[0] != '+' && (c == ' ' || c == '-' || c == '+')
    ensures ScanHex([c] + t)
         == if c == '-' then match ScanDigits(t) case None => None case Some(v) => Some(-v) else ScanDigits(t)
  {
    var s := [c] + t;
    assert s[0] == c && s[1..] == t;
    hide ScanDigits;
    assert SkipSpaces(t) == t && SkipSpaces(s) == if c == ' ' then t else s;
  }

  predicate Scans(s: string, v: int) {
    ScanHex(s) == Some(v)
  }

  /** White space, a sign and `0x` are read, too. */
  lemma {:induction false} SignedSpelling(h: string, rest: string)
    requires |h| >= 2 && (rest == "" || NibbleValue(rest[0]) < 0)
    requires forall c | c in h :: 0 <= NibbleValue(c)
    ensures Scans([' '] + (h + rest), HexValue(h)) && Scans([' '] + (['0', 'x'] + (h + rest)), HexValue(h))
    ensures Scans(['+'] + (h + rest), HexValue(h)) && Scans(['-'] + (h + rest), 0 - HexValue(h))
  {
    var t := h + rest;
    assert t[0] == h[0] && h[0] in h;
    PlainDigit(h[0]);
    PlainDigit('0');
    ScanDigitsOf(h, rest);
    hide NibbleValue, HexValue, ScanHex, ScanDigits, IsSpace;
    ScanHexFront(' ', t);
    ScanHexFront('+', t);
    ScanHexFront('-', t);
    ScanHexFront(' ', ['0', 'x'] + t);
  }

  /** So different IDs have different files. */
  lemma NamesDiffer(app: string, a: int, b: int)
    requires -TWO_63 <= a < TWO_63 && -TWO_63 <= b < TWO_63 && a != b
    ensures FileName(app, a) != FileName(app, b)
  {
    NameRoundTrip(app, a);
    NameRoundTrip(app, b);
  }
}
