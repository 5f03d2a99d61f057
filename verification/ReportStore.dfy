/**
 KSCrashReportStore: report IDs made from the time of launch and a counter, and a directory in which
 only the reports with the largest IDs are kept.
 */
module ReportStore {
  import opened Basics
  import opened ReportNames
  import opened ReportSort

  // -------------------------------------------------------------------------------------------------- IDs

  const TWO_23 := 0x80_0000
  const TWO_32 := 0x1_0000_0000

  /** `struct tm`, as far as it is used; seconds up to 60 and days up to 365. */
  datatype Time = Time(year: nat, yday: nat, hour: nat, min: nat, sec: nat)

  /** A calendar time whose IDs fit 64 bits: years since 1900, below 34200. */
  predicate IsTime(t: Time) {
    t.year < 34200 && t.yday < 366 && t.hour < 24 && t.min < 60 && t.sec <= 60
  }

  function BaseID(t: Time): nat {
    t.sec + t.min * 61 + t.hour * 61 * 60 + t.yday * 61 * 60 * 24 + t.year * 61 * 60 * 24 * 366
  }

  predicate Earlier(a: Time, b: Time) {
    || a.year < b.year
    || (a.year == b.year && a.yday < b.yday)
    || (a.year == b.year && a.yday == b.yday && a.hour < b.hour)
    || (a.year == b.year && a.yday == b.yday && a.hour == b.hour && a.min < b.min)
    || (a.year == b.year && a.yday == b.yday && a.hour == b.hour && a.min == b.min && a.sec < b.sec)
  }

  lemma EarlierHasSmallerBase(a: Time, b: Time)
    requires IsTime(a) && IsTime(b) && Earlier(a, b)
    ensures BaseID(a) < BaseID(b)
  {
  }

  /** The base ID orders calendar times, leap seconds included. */
  lemma BaseOrdersTimes(a: Time, b: Time)
    requires IsTime(a) && IsTime(b)
    ensures BaseID(a) < BaseID(b) <==> Earlier(a, b)
    ensures BaseID(a) == BaseID(b) <==> a == b
  {
  }

  /** And it leaves no gaps: it is the number of calendar times before. */
  lemma BaseHasNoGaps(n: nat) returns (t: Time)
    requires n < 34200 * 366 * 24 * 60 * 61
    ensures IsTime(t) && BaseID(t) == n
  {
    var minutes := n / 61;
    var hours := minutes / 60;
    var days := hours / 24;
    var years := days / 366;
    t := Time(years, days % 366, hours % 24, minutes % 60, n % 61);
    assert days == years * 366 + t.yday && hours == days * 24 + t.hour && minutes == hours * 60 + t.min;
  }

  /** The first ID of a launch. */
  function FirstID(t: Time): nat {
    BaseID(t) * TWO_23
  }

  /** The `k`th ID drawn in a launch: a fixed high word, and a low word that wraps. */
  function Drawn(t: Time, k: nat): nat {
    var high, low := FirstID(t) - FirstID(t) % TWO_32, FirstID(t) % TWO_32;
    high + (low + k) % TWO_32
  }

  lemma RunsOver(low: nat, k: nat)
    requires low < TWO_32 && k < TWO_32
    ensures (low + k) % TWO_32 == if low + k < TWO_32 then low + k else low + k - TWO_32
  {
  }

  /** Below 2^32 draws, the count goes straight on exactly until the low word is full ... */
  lemma DrawsCountUpExactly(t: Time, k: nat)
    requires k < TWO_32
    ensures Drawn(t, k) == FirstID(t) + k <==> FirstID(t) % TWO_32 + k < TWO_32
  {
    hide FirstID;
    RunsOver(FirstID(t) % TWO_32, k);
  }

  /** ... which takes at least 2^23 draws. */
  lemma {:induction false} DrawsCountUp(t: Time, k: nat)
    requires k < TWO_23
    ensures Drawn(t, k) == FirstID(t) + k == BaseID(t) * 0x80_0000 + k
  {
    hide BaseID;
    LowWord(BaseID(t));
  }

  lemma LowWord(b: nat)
    ensures b * TWO_23 % TWO_32 == b % 512 * TWO_23 <= TWO_32 - TWO_23
  {
  }

  /** With at most 2^23 draws in a launch, every ID of an earlier second is below every ID of a later one. */
  lemma {:induction false} LaterLaunchHasLargerIDs(a: Time, b: Time, j: nat, k: nat)
    requires IsTime(a) && IsTime(b) && Earlier(a, b) && j < TWO_23 && k < TWO_23
    ensures Drawn(a, j) < Drawn(b, k) && Drawn(b, k) < TWO_63
  {
    EarlierHasSmallerBase(a, b);
    DrawsCountUp(a, j);
    DrawsCountUp(b, k);
  }

  /** Below 2^23 draws a launch, IDs are the same exactly for equally late draws of launches in the same second. */
  lemma SameIDExactly(a: Time, b: Time, j: nat, k: nat)
    requires IsTime(a) && IsTime(b) && j < TWO_23 && k < TWO_23
    ensures Drawn(a, j) == Drawn(b, k) <==> a == b && j == k
    ensures Drawn(a, j) < TWO_63
  {
    hide Drawn, BaseID;
    DrawsCountUp(a, j);
    DrawsCountUp(b, k);
    BaseOrdersTimes(a, b);
    BelowLimit(a);
  }

  lemma BelowLimit(t: Time)
    requires IsTime(t)
    ensures BaseID(t) * TWO_23 + TWO_23 <= TWO_63
  {
  }

  /** So a second launch in the same second writes over the reports of the first, one by one, and no other launch does. */
  lemma SameFileExactly(app: string, a: Time, b: Time, j: nat, k: nat)
    requires IsTime(a) && IsTime(b) && j < TWO_23 && k < TWO_23 && Drawn(a, j) > 0 && Drawn(b, k) > 0
    ensures FileName(app, Drawn(a, j)) == FileName(app, Drawn(b, k)) <==> a == b && j == k
  {
    hide Drawn, FileName;
    SameIDExactly(a, b, j, k);
    SameIDExactly(b, a, k, j);
    if Drawn(a, j) != Drawn(b, k) {
      NamesDiffer(app, Drawn(a, j), Drawn(b, k));
    }
  }

  lemma WrapsOn(n: nat)
    ensures (n % TWO_32 + 1) % TWO_32 == (n + 1) % TWO_32
  {
  }

  // ------------------------------------------------------------------------------------------- the directory

  /** The IDs of the report files of a directory listing. */
  function IDs(app: string, files: seq<string>): seq<int> {
    if files == [] then []
    else
      var id := ReportID(app, files[0]);
      (if id > 0 then [id] else []) + IDs(app, files[1..])
  }

  /** The IDs to delete: the smallest ones, as many as there are too many. */
  function Victims(app: string, files: seq<string>, limit: nat): seq<int> {
    var ids := Sort(IDs(app, files));
    if |ids| <= limit then [] else ids[..|ids| - limit]
  }

  /** Removing a file that is not there does nothing. */
  function Removed(files: seq<string>, name: string): seq<string> {
    if files == [] then [] else (if files[0] == name then [] else [files[0]]) + Removed(files[1..], name)
  }

  function RemovedAll(app: string, files: seq<string>, ids: seq<int>): seq<string>
    decreases |ids|
  {
    if ids == [] then files else RemovedAll(app, Removed(files, FileName(app, ids[0])), ids[1..])
  }

  /** The directory after `pruneReports`. */
  function Pruned(app: string, files: seq<string>, limit: nat): seq<string> {
    RemovedAll(app, files, Victims(app, files, limit))
  }

  ghost predicate NoTwice<T>(s: seq<T>) {
    forall i, j | 0 <= i < j < |s| :: s[i] != s[j]
  }

  /** A listing names no file twice. */
  type Directory = files: seq<string> | NoTwice(files) witness []

  lemma {:induction false} RemovedHas(files: seq<string>, name: string, f: string)
    ensures f in Removed(files, name) <==> f in files && f != name
  {
    if files != [] {
      RemovedHas(files[1..], name, f);
      assert files == [files[0]] + files[1..];
    }
  }

  /** In a directory that is unlinking one entry. */
  lemma {:induction false} RemovedOne(files: seq<string>, i: nat)
    requires NoTwice(files) && i < |files|
    ensures Removed(files, files[i]) == files[..i] + files[i + 1..]
  {
    NoTwiceStep(files);
    if i == 0 {
      RemovedAbsent(files[1..], files[0]);
    } else {
      RemovedOne(files[1..], i - 1);
      assert files[..i] == [files[0]] + files[1..][..i - 1];
    }
  }

  lemma {:induction false} RemovedAbsent(files: seq<string>, name: string)
    requires name !in files
    ensures Removed(files, name) == files
  {
    if files != [] {
      RemovedAbsent(files[1..], name);
      assert files == [files[0]] + files[1..];
    }
  }

  lemma {:induction false} RemovedNoTwice(files: seq<string>, name: string)
    requires NoTwice(files)
    ensures NoTwice(Removed(files, name))
  {
    if files != [] {
      RemovedNoTwice(files[1..], name);
      RemovedHas(files[1..], name, files[0]);
    }
  }

  lemma IDsCons(app: string, f: string, files: seq<string>)
    ensures IDs(app, [f] + files) == (if ReportID(app, f) > 0 then [ReportID(app, f)] else []) + IDs(app, files)
  {
  }

  ghost predicate AreIDs(ids: seq<int>) {
    forall id | id in ids :: 0 < id < TWO_63
  }

  /** Removing the file of an ID takes away one report, if that file is there. */
  lemma {:induction false} RemovedIDs(app: string, files: seq<string>, id: int)
    requires NoTwice(files) && 0 < id < TWO_63
    ensures |IDs(app, Removed(files, FileName(app, id)))| == |IDs(app, files)| - if FileName(app, id) in files then 1 else 0
    decreases |files|
  {
    if files != [] {
      NameRoundTrip(app, id);
      var name, f, rest := FileName(app, id), files[0], files[1..];
      hide FileName, ReportID;
      RemovedIDs(app, rest, id);
      assert files == [f] + rest;
      IDsCons(app, f, rest);
      IDsCons(app, f, Removed(rest, name));
      hide IDs;
      assert f == name ==> name !in rest;
      assert Removed(files, name) == (if f == name then [] else [f]) + Removed(rest, name);
      assert [] + Removed(rest, name) == Removed(rest, name);
    }
  }

  /** The IDs can all be deleted: each has its file, and none comes twice. */
  ghost predicate AllDeletable(app: string, files: seq<string>, ids: seq<int>) {
    (forall id | id in ids :: FileName(app, id) in files) && NoTwice(ids)
  }

  lemma {:induction false} RemovedAllCount(app: string, files: seq<string>, ids: seq<int>)
    requires NoTwice(files) && AreIDs(ids)
    ensures |IDs(app, RemovedAll(app, files, ids))| >= |IDs(app, files)| - |ids|
    ensures |IDs(app, RemovedAll(app, files, ids))| == |IDs(app, files)| - |ids| <==> AllDeletable(app, files, ids)
    decreases |ids|
  {
    if ids != [] {
      var id, rest := ids[0], ids[1..];
      assert forall x | x in rest :: x in ids;
      assert id in ids && AreIDs(rest);
      hide FileName, ReportID, IDs, AreIDs, NoTwice;
      var left := Removed(files, FileName(app, id));
      RemovedNoTwice(files, FileName(app, id));
      RemovedIDs(app, files, id);
      RemovedAllCount(app, left, rest);
      DeletableStep(app, files, ids);
    } else {
      assert AllDeletable(app, files, []);
    }
  }

  lemma DeletableStep(app: string, files: seq<string>, ids: seq<int>)
    requires ids != [] && AreIDs(ids)
    ensures AllDeletable(app, files, ids)
       <==> FileName(app, ids[0]) in files && AllDeletable(app, Removed(files, FileName(app, ids[0])), ids[1..])
  {
    var id, rest := ids[0], ids[1..];
    var name := FileName(app, id);
    assert ids == [id] + rest && id in ids;
    hide FileName;
    forall x | x in rest ensures FileName(app, x) in Removed(files, name) <==> FileName(app, x) in files && x != id {
      assert x in ids;
      RemovedHas(files, name, FileName(app, x));
      if x != id { NamesDiffer(app, x, id); }
    }
    NoTwiceStep(ids);
    hide NoTwice;
  }

  lemma NoTwiceStep<T>(s: seq<T>)
    requires s != []
    ensures NoTwice(s) <==> NoTwice(s[1..]) && s[0] !in s[1..]
  {
  }

  lemma {:induction false} IDsOfFiles(app: string, files: seq<string>)
    ensures AreIDs(IDs(app, files))
    ensures forall f | f in files && ReportID(app, f) > 0 :: ReportID(app, f) in IDs(app, files)
    ensures forall id | id in IDs(app, files) :: exists f :: f in files && ReportID(app, f) == id
  {
    if files != [] {
      IDsOfFiles(app, files[1..]);
      assert ReportID(app, files[0]) < TWO_63;
      hide ReportID;
      assert files == [files[0]] + files[1..];
      forall id | id in IDs(app, files) ensures exists f :: f in files && ReportID(app, f) == id {
        if id in IDs(app, files[1..]) {
          var f :| f in files[1..] && ReportID(app, f) == id;
          assert f in files;
        } else {
          assert files[0] in files && ReportID(app, files[0]) == id;
        }
      }
    }
  }

  lemma {:induction false} VictimsAreIDs(app: string, files: seq<string>, limit: nat)
    ensures AreIDs(Victims(app, files, limit)) && forall id | id in Victims(app, files, limit) :: id in IDs(app, files)
  {
    IDsOfFiles(app, files);
    forall id | id in Victims(app, files, limit) ensures id in IDs(app, files) {
      assert id in Sort(IDs(app, files));
      SortMembers(IDs(app, files), id);
    }
  }

  /** Pruning leaves the wanted number of reports exactly when every ID it deletes has its file, and once. */
  lemma {:induction false} PruneCountExactly(app: string, files: seq<string>, limit: nat)
    requires NoTwice(files)
    ensures |IDs(app, Pruned(app, files, limit))| == Least(|IDs(app, files)|, limit)
       <==> AllDeletable(app, files, Victims(app, files, limit))
  {
    VictimsAreIDs(app, files, limit);
    RemovedAllCount(app, files, Victims(app, files, limit));
  }

  /** The report files are named as the store names them. */
  ghost predicate Canonical(app: string, files: seq<string>) {
    forall f | f in files && ReportID(app, f) > 0 :: f == FileName(app, ReportID(app, f))
  }

  lemma {:induction false} RemovedAllHas(app: string, files: seq<string>, ids: seq<int>, f: string)
    ensures f in RemovedAll(app, files, ids) <==> f in files && forall id | id in ids :: f != FileName(app, id)
    decreases |ids|
  {
    if ids != [] {
      var rest := ids[1..];
      assert ids == [ids[0]] + rest;
      RemovedHas(files, FileName(app, ids[0]), f);
      RemovedAllHas(app, Removed(files, FileName(app, ids[0])), rest, f);
    }
  }

  lemma {:induction false} AtMostOnce<T>(s: seq<T>, x: T)
    requires NoTwice(s)
    ensures multiset(s)[x] <= 1
  {
    if s != [] {
      assert s == [s[0]] + s[1..];
      NoTwiceStep(s);
      AtMostOnce(s[1..], x);
    }
  }

  lemma SameItemsNoTwice<T>(s: seq<T>, r: seq<T>)
    requires NoTwice(s) && multiset(r) == multiset(s)
    ensures NoTwice(r)
  {
    forall i, j | 0 <= i < j < |r| ensures r[i] != r[j] {
      AtMostOnce(s, r[i]);
      var a, b := r[..j], r[j..];
      assert r == a + b && r[i] == a[i] && r[j] == b[0];
      assert r[i] in multiset(a) && r[j] in multiset(b);
    }
  }

  lemma {:induction false} CanonicalIDsDiffer(app: string, files: seq<string>)
    requires Canonical(app, files) && NoTwice(files)
    ensures NoTwice(IDs(app, files))
  {
    if files != [] {
      var f, rest := files[0], files[1..];
      assert files == [f] + rest;
      hide ReportID, FileName;
      NoTwiceStep(files);
      CanonicalIDsDiffer(app, rest);
      if ReportID(app, f) > 0 {
        IDsOfFiles(app, rest);
        assert ReportID(app, f) !in IDs(app, rest);
        NoTwiceStep(IDs(app, files));
        assert IDs(app, files)[1..] == IDs(app, rest);
      }
    }
  }

  lemma VictimsDeletable(app: string, files: seq<string>, limit: nat)
    requires Canonical(app, files) && NoTwice(files)
    ensures AllDeletable(app, files, Victims(app, files, limit))
  {
    hide ReportID, FileName;
    VictimsAreIDs(app, files, limit);
    IDsOfFiles(app, files);
    CanonicalIDsDiffer(app, files);
    SortPermutes(IDs(app, files));
    SameItemsNoTwice(IDs(app, files), Sort(IDs(app, files)));
    forall id | id in Victims(app, files, limit) ensures FileName(app, id) in files {
      var f :| f in files && ReportID(app, f) == id;
      assert 0 < id;
    }
  }

  /** A report is deleted exactly when its ID is among the victims. */
  lemma {:induction false} PrunedHas(app: string, files: seq<string>, limit: nat, f: string)
    requires Canonical(app, files) && f in files
    ensures f in Pruned(app, files, limit) <==> ReportID(app, f) <= 0 || ReportID(app, f) !in Victims(app, files, limit)
  {
    var ids := Victims(app, files, limit);
    VictimsAreIDs(app, files, limit);
    RemovedAllHas(app, files, ids, f);
    forall id | id in ids ensures ReportID(app, FileName(app, id)) == id && id > 0 {
      NameRoundTrip(app, id);
    }
  }

  /** What pruning does to a directory whose reports are named as the store names them. */
  lemma {:induction false} PruneKeepsTheLargest(app: string, files: seq<string>, limit: nat)
    requires Canonical(app, files) && NoTwice(files)
    ensures |IDs(app, Pruned(app, files, limit))| == Least(|IDs(app, files)|, limit)
    ensures forall f | f in files && ReportID(app, f) <= 0 :: f in Pruned(app, files, limit)
    ensures forall f, g | f in files && g in files && f in Pruned(app, files, limit) && g !in Pruned(app, files, limit)
              && ReportID(app, f) > 0 :: ReportID(app, g) < ReportID(app, f)
  {
    hide ReportID, FileName;
    PruneCountExactly(app, files, limit);
    VictimsDeletable(app, files, limit);
    forall f | f in files && ReportID(app, f) <= 0 ensures f in Pruned(app, files, limit) {
      PrunedHas(app, files, limit, f);
    }
    forall f, g | f in files && g in files && f in Pruned(app, files, limit) && g !in Pruned(app, files, limit)
      && ReportID(app, f) > 0 ensures ReportID(app, g) < ReportID(app, f) {
      PrunedHas(app, files, limit, f);
      PrunedHas(app, files, limit, g);
      IDsOfFiles(app, files);
      VictimsAreLeast(app, files, limit, ReportID(app, g), ReportID(app, f));
    }
  }

  lemma {:induction false} VictimsAreLeast(app: string, files: seq<string>, limit: nat, a: int, b: int)
    requires a in Victims(app, files, limit) && b in IDs(app, files) && b !in Victims(app, files, limit)
    ensures a < b
  {
    var ids := Sort(IDs(app, files));
    SortSorted(IDs(app, files));
    SortMembers(IDs(app, files), b);
    hide Sort, IDs;
    var n := |ids| - limit;
    var i :| 0 <= i < n && ids[i] == a;
    var j :| 0 <= j < |ids| && ids[j] == b;
    assert forall m | 0 <= m < n :: ids[m] == ids[..n][m];
  }

  /** Over launches that draw at most 2^23 IDs each, the reports of earlier seconds go first. */
  lemma {:induction false} OldestReportsGoFirst(app: string, files: seq<string>, limit: nat, a: Time, j: nat, b: Time, k: nat)
    requires Canonical(app, files) && NoTwice(files)
    requires IsTime(a) && IsTime(b) && Earlier(a, b) && j < TWO_23 && k < TWO_23 && Drawn(a, j) > 0
    requires FileName(app, Drawn(a, j)) in files && FileName(app, Drawn(b, k)) in files
    requires FileName(app, Drawn(b, k)) !in Pruned(app, files, limit)
    ensures FileName(app, Drawn(a, j)) !in Pruned(app, files, limit)
  {
    LaterLaunchHasLargerIDs(a, b, j, k);
    hide ReportID, FileName, Drawn;
    NameRoundTrip(app, Drawn(a, j));
    NameRoundTrip(app, Drawn(b, k));
    PruneKeepsTheLargest(app, files, limit);
  }

  /** A file that merely begins like a report is counted, but not deleted. */
  lemma {:induction false} StrangeNameSurvives()
    ensures var files := ["A-report-1.json"]; IDs("A", files) == [1] && Pruned("A", files, 0) == files
  {
    var f := "A-report-1.json";
    StrangeNameIsOne();
    hide ReportID, FileName;
    assert [f][1..] == [] && [1][1..] == [];
    assert IDs("A", [f]) == [1] && Sort([1]) == [1];
    assert Victims("A", [f], 0) == [1];
    assert Removed([f], FileName("A", 1)) == [f];
  }

  lemma StrangeNameIsOne()
    ensures ReportID("A", "A-report-1.json") == 1 && FileName("A", 1) != "A-report-1.json"
  {
    var rest := "1.json";
    assert "A" + "-report-" == "A-report-" && "A-report-1.json" == "A-report-" + rest;
    ScanSelf("A-report-", rest);
    HexPrefixOf("1", ".json");
    assert rest == "1" + ".json";
    assert HexValue("1") == 1 by { assert "1"[..0] == ""; }
    assert |FileName("A", 1)| == 30;
  }

  // ---------------------------------------------------------------------------------------------- the store

  /** `files` is the directory as `readdir` lists it; `opens` says whether `opendir` succeeds. */
  class ReportStore {
    const app: string
    var files: Directory
    var maxReportCount: int
    var nextUniqueIDHigh: nat
    var nextUniqueIDLow: nat
    ghost var launch: Time
    ghost var draws: nat

    ghost predicate Counting()
      reads this
    {
      && nextUniqueIDHigh == FirstID(launch) - FirstID(launch) % TWO_32
      && nextUniqueIDLow == (FirstID(launch) % TWO_32 + draws) % TWO_32
    }

    /** `kscrs_initialize`; with a negative maximum the pruning leaves its buffer. */
    constructor (app: string, files: Directory, maxReportCount: int, opensToCount: bool, opensToList: bool, now: Time)
      ensures this.app == app && this.maxReportCount == maxReportCount
      ensures 0 <= maxReportCount ==>
                this.files == if opensToCount && opensToList then Pruned(app, files, maxReportCount) else files
      ensures Counting() && launch == now && draws == 0
    {
      this.app := app;
      this.files := files;
      this.maxReportCount := maxReportCount;
      new;
      var inBounds := PruneReports(opensToCount, opensToList);
      InitializeIDs(now);
    }

    method InitializeIDs(now: Time)
      modifies `nextUniqueIDHigh, `nextUniqueIDLow, `launch, `draws
      ensures Counting() && launch == now && draws == 0
    {
      var baseID := now.sec
        + now.min * 61
        + now.hour * 61 * 60
        + now.yday * 61 * 60 * 24
        + now.year * 61 * 60 * 24 * 366;
      baseID := baseID * TWO_23;
      nextUniqueIDHigh := baseID - baseID % TWO_32;
      nextUniqueIDLow := baseID % TWO_32;
      launch, draws := now, 0;
    }

    method GetNextUniqueID() returns (id: nat)
      requires Counting()
      modifies `nextUniqueIDLow, `draws
      ensures id == Drawn(launch, old(draws))
      ensures Counting() && draws == old(draws) + 1
    {
      hide FirstID;
      WrapsOn(FirstID(launch) % TWO_32 + draws);
      id := nextUniqueIDHigh + nextUniqueIDLow;
      nextUniqueIDLow := (nextUniqueIDLow + 1) % TWO_32;
      draws := draws + 1;
    }

    /** `kscrs_getNextCrashReport` */
    method GetNextCrashReport() returns (id: nat, name: string)
      requires Counting()
      modifies `nextUniqueIDLow, `draws
      ensures id == Drawn(launch, old(draws)) && name == FileName(app, id)
      ensures Counting() && draws == old(draws) + 1
    {
      id := GetNextUniqueID();
      name := FileName(app, id);
    }

    method GetReportCount(opens: bool) returns (count: nat)
      ensures count == if opens then |IDs(app, files)| else 0
    {
      count := 0;
      if !opens { return; }
      var i := 0;
      while i < |files|
        invariant 0 <= i <= |files|
        invariant count + |IDs(app, files[i..])| == |IDs(app, files)|
      {
        assert files[i..] == [files[i]] + files[i + 1..];
        IDsCons(app, files[i], files[i + 1..]);
        if ReportID(app, files[i]) > 0 {
          count := count + 1;
        }
        i := i + 1;
      }
    }

    /** The loop of `getReportIDs`: the first `count` IDs of the listing. */
    method ListReportIDs(reportIDs: array<int>, count: nat) returns (index: nat)
      requires count <= reportIDs.Length
      modifies reportIDs
      ensures index == Least(count, |IDs(app, files)|)
      ensures reportIDs[..] == IDs(app, files)[..index] + old(reportIDs[..])[index..]
    {
      hide ReportID, IDs;
      index := 0;
      var i := 0;
      ghost var before := reportIDs[..];
      EmptyIDs(app, files);
      while i < |files| && index < count
        invariant 0 <= i <= |files| && 0 <= index <= count && index <= |IDs(app, files)|
        invariant IDs(app, files) == IDs(app, files)[..index] + IDs(app, files[i..])
        invariant reportIDs[..] == IDs(app, files)[..index] + before[index..]
      {
        NextFile(app, files, i, index);
        var reportID := ReportID(app, files[i]);
        if reportID > 0 {
          PutNext(IDs(app, files), index, before, reportID);
          reportIDs[index] := reportID;
          index := index + 1;
        }
        i := i + 1;
      }
    }

    /** `getReportIDs`: the IDs listed are sorted together with what the buffer still holds below `count`. */
    method GetReportIDs(reportIDs: array<int>, count: nat, opens: bool) returns (index: nat)
      requires count <= reportIDs.Length
      modifies reportIDs
      ensures index == if opens then Least(count, |IDs(app, files)|) else 0
      ensures opens ==>
                var filled := IDs(app, files)[..index] + old(reportIDs[..])[index..count];
                && multiset(reportIDs[..count]) == multiset(filled)
                && (Comparable(filled) ==> reportIDs[..count] == Sort(filled))
      ensures !opens ==> reportIDs[..] == old(reportIDs[..])
      ensures reportIDs[count..] == old(reportIDs[..])[count..]
    {
      hide ReportID, Sort, IDs, Comparable;
      index := 0;
      if !opens { return; }
      index := ListReportIDs(reportIDs, count);
      FirstOnes(IDs(app, files)[..index], old(reportIDs[..]), count);
      assert reportIDs[..count] == reportIDs[..][..count] && reportIDs[count..] == reportIDs[..][count..];
      Qsort(reportIDs, count);
    }

    /** `kscrs_deleteReportWithID`: the file's entry is unlinked, if it has one. */
    method DeleteReportWithID(id: int)
      modifies `files
      ensures forall f :: f in files <==> f in old(files) && f != FileName(app, id)
      ensures files == Removed(old(files), FileName(app, id))
    {
      var name := FileName(app, id);
      hide FileName;
      forall f ensures f in Removed(files, name) <==> f in files && f != name {
        RemovedHas(files, name, f);
      }
      RemovedNoTwice(files, name);
      if name in files {
        var i :| 0 <= i < |files| && files[i] == name;
        RemovedOne(files, i);
        files := files[..i] + files[i + 1..];
      } else {
        RemovedAbsent(files, name);
      }
    }

    /** The loop of `pruneReports`; it must not read past the `filled` entries. */
    method DeleteFirst(reportIDs: array<int>, filled: nat, count: int) returns (inBounds: bool)
      requires filled <= reportIDs.Length
      modifies `files
      ensures inBounds <==> count <= filled
      ensures files == RemovedAll(app, old(files), reportIDs[..Least(filled, if count < 0 then 0 else count)])
    {
      hide FileName, Removed;
      ghost var victims := reportIDs[..Least(filled, if count < 0 then 0 else count)];
      var i := 0;
      while i < count
        invariant 0 <= i <= |victims|
        invariant RemovedAll(app, files, victims[i..]) == RemovedAll(app, old(files), victims)
      {
        if i >= filled {
          return false;
        }
        assert victims[i..][0] == victims[i] && victims[i..][1..] == victims[i + 1..];
        DeleteReportWithID(reportIDs[i]);
        i := i + 1;
      }
      return true;
    }

    /** With a negative limit all reports are deleted, and then an entry is read that was never written. */
    method PruneReports(opensToCount: bool, opensToList: bool) returns (inBounds: bool)
      modifies `files
      ensures inBounds <==> 0 <= maxReportCount
      ensures inBounds ==> files == if opensToCount && opensToList then Pruned(app, old(files), maxReportCount) else old(files)
      ensures !inBounds ==>
                files == RemovedAll(app, old(files), if opensToCount && opensToList then Sort(IDs(app, old(files))) else [])
    {
      var reportCount: int := GetReportCount(opensToCount);
      IDsComparable(app, files);
      hide ReportID, FileName, Sort, IDs, Removed, Comparable;
      if reportCount > maxReportCount {
        var reportIDs := new int[reportCount];
        reportCount := GetReportIDs(reportIDs, reportCount, opensToList);
        assert opensToList && opensToCount ==> reportIDs[..] == reportIDs[..reportCount] == Sort(IDs(app, files)) by {
          assert IDs(app, files)[..|IDs(app, files)|] == IDs(app, files) && IDs(app, files) + [] == IDs(app, files);
        }
        inBounds := DeleteFirst(reportIDs, reportCount, reportCount - maxReportCount);
      } else {
        inBounds := true;
      }
    }
  }

  lemma IDsComparable(app: string, files: seq<string>)
    ensures Comparable(IDs(app, files))
  {
    IDsOfFiles(app, files);
  }

  lemma EmptyIDs(app: string, files: seq<string>)
    ensures IDs(app, files[|files|..]) == [] && files[0..] == files
  {
  }

  /** The next file adds its ID, if it has one, to the IDs listed so far. */
  lemma NextFile(app: string, files: seq<string>, i: nat, index: nat)
    requires i < |files| && index <= |IDs(app, files)|
    requires IDs(app, files) == IDs(app, files)[..index] + IDs(app, files[i..])
    ensures var id, all := ReportID(app, files[i]), IDs(app, files);
            if id > 0 then index < |all| && all[index] == id && all == all[..index + 1] + IDs(app, files[i + 1..])
            else all == all[..index] + IDs(app, files[i + 1..])
  {
    hide ReportID, IDs;
    assert files[i..] == [files[i]] + files[i + 1..];
    IDsCons(app, files[i], files[i + 1..]);
    var id := ReportID(app, files[i]);
    NextID(IDs(app, files), index, if id > 0 then [id] else [], IDs(app, files[i + 1..]));
  }

  lemma PutNext(all: seq<int>, index: nat, before: seq<int>, id: int)
    requires index < |all| && index < |before| && all[index] == id
    ensures (all[..index] + before[index..])[index := id] == all[..index + 1] + before[index + 1..]
  {
  }

  lemma FirstOnes<T>(a: seq<T>, b: seq<T>, n: nat)
    requires |a| <= n <= |b|
    ensures var s := a + b[|a|..]; s[..n] == a + b[|a|..n] && s[n..] == b[n..]
  {
  }

  lemma NextID(all: seq<int>, index: nat, next: seq<int>, rest: seq<int>)
    requires index <= |all| && all == all[..index] + (next + rest) && |next| <= 1
    ensures index + |next| <= |all| && all == all[..index + |next|] + rest && all[..index + |next|] == all[..index] + next
    ensures next != [] ==> all[index] == next[0]
  {
  }
}
