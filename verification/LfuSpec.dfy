/**
 What a least-frequently-used cache is, with no buckets and no lists: a map from each key to its
 value, the number of times it was touched since it was inserted, and the moment of its last touch.
 A history is a sequence of operations; the moment of an operation is its index in the history.
 */
module LfuSpec {

  /** `uintptr_t` */
  type Key = nat

  /** `Dl_info`: four pointers, 0 for NULL. */
  datatype DlInfo = DlInfo(fname: nat, fbase: nat, sname: nat, saddr: nat)

  /** What a miss returns. */
  const NO_INFO := DlInfo(0, 0, 0, 0)

  datatype Entry = Entry(value: DlInfo, touches: nat, last: nat)

  datatype Cache = Cache(cap: int, clock: nat, entries: map<Key, Entry>)

  datatype Op = Get(key: Key) | Put(key: Key, value: DlInfo) | Remove(key: Key) | Clear
  {
    predicate Touches(k: Key) {
      (Get? || Put?) && key == k
    }
  }

  /** Touches happened in the past, at different moments. */
  ghost predicate Stamped(c: Cache) {
    && (forall k <- c.entries :: 1 <= c.entries[k].touches && c.entries[k].last < c.clock)
    && (forall j, k | j in c.entries && k in c.entries && j != k :: c.entries[j].last != c.entries[k].last)
  }

  /** The eviction order: fewer touches first, then the older last touch. */
  predicate Before(a: Entry, b: Entry) {
    a.touches < b.touches || (a.touches == b.touches && a.last < b.last)
  }

  ghost predicate IsVictim(m: map<Key, Entry>, v: Key) {
    v in m && forall k | k in m && k != v :: Before(m[v], m[k])
  }

  lemma {:induction false} VictimExists(m: map<Key, Entry>) returns (v: Key)
    requires m != map[]
    requires forall j, k | j in m && k in m && j != k :: m[j].last != m[k].last
    ensures IsVictim(m, v)
    decreases |m|
  {
    var k :| k in m;
    var rest := m - {k};
    if rest == map[] {
      v := k;
      assert forall j | j in m && j != k :: j in rest;
    } else {
      assert rest.Keys == m.Keys - {k};
      var w := VictimExists(rest);
      v := if Before(m[k], m[w]) then k else w;
      forall j | j in m && j != v ensures Before(m[v], m[j]) {
        assert j == k || (j in rest && rest[j] == m[j]);
      }
    }
  }

  ghost function Victim(c: Cache): (v: Key)
    requires Stamped(c) && c.entries != map[]
    ensures IsVictim(c.entries, v)
  {
    assert exists v :: IsVictim(c.entries, v) by {
      var v := VictimExists(c.entries);
    }
    var v :| IsVictim(c.entries, v);
    v
  }

  lemma VictimUnique(m: map<Key, Entry>, v: Key, w: Key)
    requires IsVictim(m, v) && IsVictim(m, w)
    ensures v == w
  {
  }

  /** One more touch of a resident key. */
  function Touch(c: Cache, k: Key): Cache
    requires k in c.entries
  {
    c.(clock := c.clock + 1,
       entries := c.entries[k := c.entries[k].(touches := c.entries[k].touches + 1, last := c.clock)])
  }

  function SetValue(c: Cache, k: Key, value: DlInfo): Cache
    requires k in c.entries
  {
    c.(entries := c.entries[k := c.entries[k].(value := value)])
  }

  function Without(c: Cache, k: Key): Cache {
    c.(entries := c.entries - {k})
  }

  lemma WithoutAbsent(c: Cache, k: Key)
    requires k !in c.entries
    ensures Without(c, k) == c
  {
  }

  function Insert(c: Cache, k: Key, value: DlInfo): Cache {
    c.(clock := c.clock + 1, entries := c.entries[k := Entry(value, 1, c.clock)])
  }

  function Tick(c: Cache): Cache {
    c.(clock := c.clock + 1)
  }

  /** Makes room for one new key. */
  ghost function MakeRoom(c: Cache): Cache
    requires Stamped(c) && c.cap != 0
  {
    if |c.entries| == c.cap then Without(c, Victim(c)) else c
  }

  ghost function Step(c: Cache, op: Op): (d: Cache)
    requires Stamped(c)
    ensures Stamped(d) && d.clock == c.clock + 1 && d.cap == c.cap
  {
    match op
    case Get(k) => if k in c.entries then Touch(c, k) else Tick(c)
    case Put(k, value) =>
      if c.cap == 0 then Tick(c)
      else if k in c.entries then Touch(SetValue(c, k, value), k)
      else Insert(MakeRoom(c), k, value)
    case Remove(k) => Tick(Without(c, k))
    case Clear => Tick(c.(entries := map[]))
  }

  /** What a get returns. */
  function Answer(c: Cache, k: Key): DlInfo {
    if k in c.entries then c.entries[k].value else NO_INFO
  }

  ghost function Run(cap: int, ops: seq<Op>): (c: Cache)
    ensures Stamped(c) && c.clock == |ops| && c.cap == cap
    ensures cap == 0 ==> c.entries == map[]
  {
    if ops == [] then Cache(cap, 0, map[]) else Step(Run(cap, ops[..|ops| - 1]), ops[|ops| - 1])
  }

  // ---------------------------------------------------------------- what a run means

  function TouchCount(ops: seq<Op>, k: Key): nat {
    if ops == [] then 0
    else TouchCount(ops[..|ops| - 1], k) + if ops[|ops| - 1].Touches(k) then 1 else 0
  }

  ghost predicate IsLastTouch(ops: seq<Op>, k: Key, at: nat) {
    && at < |ops| && ops[at].Touches(k)
    && forall i | at < i < |ops| :: !ops[i].Touches(k)
  }

  ghost predicate IsLastPut(ops: seq<Op>, k: Key, value: DlInfo) {
    exists at :: 0 <= at < |ops| && ops[at] == Put(k, value) && forall i | at < i < |ops| && ops[i].Put? :: ops[i].key != k
  }

  /** `b` is the put that brought `k` in for its present stay. */
  ghost predicate IsBirth(cap: int, ops: seq<Op>, k: Key, b: nat) {
    && b < |ops| && ops[b].Put? && ops[b].key == k
    && k !in Run(cap, ops[..b]).entries
    && forall p | b < p <= |ops| :: k in Run(cap, ops[..p]).entries
  }

  /** What one step does to one resident key. */
  lemma StepOnKey(c: Cache, op: Op, k: Key)
    requires Stamped(c) && k in Step(c, op).entries
    requires c.cap == 0 ==> c.entries == map[]
    ensures k !in c.entries ==> op.Put? && op.key == k && Step(c, op).entries[k] == Entry(op.value, 1, c.clock)
    ensures k in c.entries && op.Touches(k) ==>
              Step(c, op).entries[k]
              == Entry(if op.Put? then op.value else c.entries[k].value, c.entries[k].touches + 1, c.clock)
    ensures k in c.entries && !op.Touches(k) ==> Step(c, op).entries[k] == c.entries[k]
  {
  }

  /** The stored count, stamp and value of a resident key are what its history says they are. */
  lemma {:induction false} ResidentHistory(cap: int, ops: seq<Op>, k: Key) returns (b: nat)
    requires k in Run(cap, ops).entries
    ensures IsBirth(cap, ops, k, b)
    ensures Run(cap, ops).entries[k].touches == TouchCount(ops[b..], k)
    ensures IsLastTouch(ops, k, Run(cap, ops).entries[k].last)
    ensures IsLastPut(ops, k, Run(cap, ops).entries[k].value)
    decreases |ops|
  {
    hide Step, Stamped;
    var n := |ops| - 1;
    var prev := ops[..n];
    var c := Run(cap, prev);
    StepOnKey(c, ops[n], k);
    if k in c.entries {
      b := ResidentHistory(cap, prev, k);
      LastPutExtends(prev, ops[n], k, c.entries[k].value);
      assert prev + [ops[n]] == ops;
      BirthExtends(cap, ops, k, b);
      CountExtends(ops, b, k);
      hide IsBirth, IsLastPut, TouchCount;
    } else {
      b := n;
      assert ops[b..] == [ops[n]];
      assert [ops[n]][..0] == [];
      assert ops[n] == Put(k, Run(cap, ops).entries[k].value);
      assert ops[..|ops|] == ops;
    }
  }

  lemma CountExtends(ops: seq<Op>, b: nat, k: Key)
    requires b < |ops|
    ensures TouchCount(ops[b..], k)
         == TouchCount(ops[..|ops| - 1][b..], k) + if ops[|ops| - 1].Touches(k) then 1 else 0
  {
    assert ops[b..][..|ops[b..]| - 1] == ops[..|ops| - 1][b..];
  }

  lemma {:induction false} BirthExtends(cap: int, ops: seq<Op>, k: Key, b: nat)
    requires ops != [] && IsBirth(cap, ops[..|ops| - 1], k, b) && k in Run(cap, ops).entries
    ensures IsBirth(cap, ops, k, b)
  {
    hide Step, Stamped;
    var prev := ops[..|ops| - 1];
    assert prev[..b] == ops[..b];
    forall p | b < p <= |ops| ensures k in Run(cap, ops[..p]).entries {
      if p == |ops| {
        assert ops[..p] == ops;
      } else {
        assert prev[..p] == ops[..p];
      }
    }
  }

  lemma LastPutExtends(ops: seq<Op>, op: Op, k: Key, value: DlInfo)
    requires IsLastPut(ops, k, value)
    ensures IsLastPut(ops + [op], k, if op.Put? && op.key == k then op.value else value)
  {
    var all := ops + [op];
    if op.Put? && op.key == k {
      assert all[|ops|] == Put(k, op.value);
    } else {
      var at :| 0 <= at < |ops| && ops[at] == Put(k, value) && forall i | at < i < |ops| && ops[i].Put? :: ops[i].key != k;
      assert all[at] == Put(k, value);
    }
  }

  /** A get never returns a stale value: it misses, or returns what the last put of the key stored. */
  lemma {:induction false} GetIsFresh(cap: int, ops: seq<Op>, k: Key)
    ensures Answer(Run(cap, ops), k) == NO_INFO || IsLastPut(ops, k, Answer(Run(cap, ops), k))
  {
    if k in Run(cap, ops).entries {
      var b := ResidentHistory(cap, ops, k);
    }
  }

  /** A key came in by a put and has stayed since. */
  ghost predicate IsResident(cap: int, ops: seq<Op>, k: Key) {
    exists b: nat :: IsBirth(cap, ops, k, b)
  }

  lemma {:induction false} ResidentExactly(cap: int, ops: seq<Op>, k: Key)
    ensures k in Run(cap, ops).entries <==> IsResident(cap, ops, k)
  {
    hide Run;
    if k in Run(cap, ops).entries {
      var b := ResidentHistory(cap, ops, k);
    }
    forall b: nat | IsBirth(cap, ops, k, b) ensures k in Run(cap, ops).entries {
      assert ops[..|ops|] == ops;
    }
  }

  /** A get of a resident key returns what the last put of the key stored; only of other keys it misses. */
  lemma GetExactly(cap: int, ops: seq<Op>, k: Key)
    ensures IsResident(cap, ops, k) ==> IsLastPut(ops, k, Answer(Run(cap, ops), k))
    ensures !IsResident(cap, ops, k) ==> Answer(Run(cap, ops), k) == DlInfo(0, 0, 0, 0)
  {
    ResidentExactly(cap, ops, k);
    hide Run, IsResident, IsLastPut;
    if k in Run(cap, ops).entries {
      var b := ResidentHistory(cap, ops, k);
    }
  }

  lemma SizeOfUpdate<K, V>(m: map<K, V>, k: K, v: V)
    ensures |m[k := v]| == |m| + if k in m then 0 else 1
  {
    assert m[k := v].Keys == m.Keys + {k};
  }

  lemma SizeOfDrop<K, V>(m: map<K, V>, k: K)
    ensures |m - {k}| == |m| - if k in m then 1 else 0
  {
    assert (m - {k}).Keys == m.Keys - {k};
  }

  lemma StepWithin(c: Cache, op: Op)
    requires Stamped(c) && |c.entries| <= c.cap
    ensures |Step(c, op).entries| <= c.cap
  {
    var e := c.entries;
    hide Stamped, IsVictim;
    match op {
      case Get(k) => if k in e { SizeOfUpdate(e, k, Touch(c, k).entries[k]); }
      case Put(k, value) =>
        if c.cap != 0 {
          if k in e {
            SizeOfUpdate(e, k, SetValue(c, k, value).entries[k]);
            SizeOfUpdate(SetValue(c, k, value).entries, k, Touch(SetValue(c, k, value), k).entries[k]);
          } else {
            RoomMade(c);
            SizeOfUpdate(MakeRoom(c).entries, k, Entry(value, 1, c.clock));
          }
        }
      case Remove(k) => SizeOfDrop(e, k);
      case Clear =>
    }
  }

  lemma RoomMade(c: Cache)
    requires Stamped(c) && c.cap != 0 && |c.entries| <= c.cap
    ensures |MakeRoom(c).entries| < c.cap && MakeRoom(c).clock == c.clock
  {
    hide Stamped;
    if |c.entries| == c.cap {
      SizeOfDrop(c.entries, Victim(c));
    }
  }

  /** The bound holds in every reachable state of a cache with a capacity that is not negative. */
  lemma {:induction false} WithinCapacity(cap: int, ops: seq<Op>)
    requires 0 <= cap
    ensures |Run(cap, ops).entries| <= cap
  {
    if ops != [] {
      var n := |ops| - 1;
      WithinCapacity(cap, ops[..n]);
      StepWithin(Run(cap, ops[..n]), ops[n]);
      hide Step;
    }
  }

  /** A put of a new key into a full cache drops exactly the key that is least in the eviction order. */
  lemma PutEvictsExactlyTheLeast(cap: int, ops: seq<Op>, k: Key, value: DlInfo, v: Key)
    requires 0 < cap == |Run(cap, ops).entries| && k !in Run(cap, ops).entries
    requires IsVictim(Run(cap, ops).entries, v)
    ensures Run(cap, ops + [Put(k, value)]).entries
         == (Run(cap, ops).entries - {v})[k := Entry(value, 1, |ops|)]
  {
  }

  lemma OneBirth(cap: int, ops: seq<Op>, k: Key, a: nat, b: nat)
    requires IsBirth(cap, ops, k, a) && IsBirth(cap, ops, k, b)
    ensures a == b
  {
    hide Run;
  }

  /**
   In terms of the history alone: a put of a new key drops one key at most, and then the cache was full, and
   every key that stays was touched more often since it came in, or as often and later; it keeps its value.
   */
  lemma EvictedIsLeastTouched(cap: int, ops: seq<Op>, k: Key, value: DlInfo, v: Key, w: Key, bv: nat, bw: nat, av: nat, aw: nat)
    requires 0 < cap && k !in Run(cap, ops).entries
    requires v in Run(cap, ops).entries && v !in Run(cap, ops + [Put(k, value)]).entries
    requires w in Run(cap, ops).entries && w != v
    requires IsBirth(cap, ops, v, bv) && IsBirth(cap, ops, w, bw) && IsLastTouch(ops, v, av) && IsLastTouch(ops, w, aw)
    ensures |Run(cap, ops).entries| == cap
    ensures TouchCount(ops[bv..], v) < TouchCount(ops[bw..], w)
            || (TouchCount(ops[bv..], v) == TouchCount(ops[bw..], w) && av < aw)
    ensures var d := Run(cap, ops + [Put(k, value)]); w in d.entries && IsLastPut(ops, w, d.entries[w].value)
  {
    var c := Run(cap, ops);
    assert (ops + [Put(k, value)])[..|ops|] == ops;
    var birthV := ResidentHistory(cap, ops, v);
    var birthW := ResidentHistory(cap, ops, w);
    OneBirth(cap, ops, v, bv, birthV);
    OneBirth(cap, ops, w, bw, birthW);
    WithinCapacity(cap, ops);
    hide TouchCount, IsBirth, IsLastPut;
    assert MakeRoom(c) != c;
    assert v == Victim(c) && Before(c.entries[v], c.entries[w]);
    assert c.entries[v].last == av && c.entries[w].last == aw;
  }

  /** The keys ever put. */
  function PutKeys(ops: seq<Op>): set<Key> {
    set i | 0 <= i < |ops| && ops[i].Put? :: ops[i].key
  }

  /** The plain map: every put stores, every remove deletes. */
  function PlainMap(ops: seq<Op>): map<Key, DlInfo> {
    if ops == [] then map[] else PlainStep(PlainMap(ops[..|ops| - 1]), ops[|ops| - 1])
  }

  function PlainStep(m: map<Key, DlInfo>, op: Op): map<Key, DlInfo> {
    match op
    case Get(_) => m
    case Put(k, value) => m[k := value]
    case Remove(k) => m - {k}
    case Clear => map[]
  }

  /** With no more distinct keys than room, or with a negative capacity, nothing is ever evicted. */
  lemma {:induction false} EnoughRoomIsAPlainMap(cap: int, ops: seq<Op>)
    requires cap < 0 || (0 < cap && |PutKeys(ops)| <= cap)
    ensures Values(Run(cap, ops)) == PlainMap(ops)
    ensures PlainMap(ops).Keys <= PutKeys(ops)
  {
    if ops != [] {
      var n := |ops| - 1;
      var prev := ops[..n];
      assert PutKeys(prev) <= PutKeys(ops);
      if 0 < cap { SubsetSize(PutKeys(prev), PutKeys(ops)); }
      EnoughRoomIsAPlainMap(cap, prev);
      var c := Run(cap, prev);
      assert Values(c).Keys == c.entries.Keys;
      if ops[n].Put? {
        assert ops[n].key in PutKeys(ops);
        if ops[n].key !in c.entries {
          RoomForOneMore(c, ops[n].key, PutKeys(ops));
        }
      }
      PlainStepMatches(c, ops[n]);
    }
  }

  /** So with enough room a get returns what the plain map holds. */
  lemma EnoughRoomGets(cap: int, ops: seq<Op>, k: Key)
    requires cap < 0 || (0 < cap && |PutKeys(ops)| <= cap)
    ensures Answer(Run(cap, ops), k) == if k in PlainMap(ops) then PlainMap(ops)[k] else NO_INFO
  {
    EnoughRoomIsAPlainMap(cap, ops);
    hide Run, PlainMap;
    assert k in Values(Run(cap, ops)) <==> k in Run(cap, ops).entries;
  }

  lemma ValuesOfUpdate(c: Cache, k: Key, x: Entry)
    ensures Values(c.(entries := c.entries[k := x])) == Values(c)[k := x.value]
  {
  }

  lemma ValuesOfDrop(c: Cache, k: Key)
    ensures Values(Without(c, k)) == Values(c) - {k}
  {
  }

  lemma PlainStepMatches(c: Cache, op: Op)
    requires Stamped(c) && c.cap != 0
    requires op.Put? && op.key !in c.entries ==> MakeRoom(c) == c
    ensures Values(Step(c, op)) == PlainStep(Values(c), op)
  {
    hide Stamped;
    match op {
      case Get(k) => if k in c.entries { ValuesOfUpdate(c, k, Touch(c, k).entries[k]); }
      case Put(k, value) =>
        if k in c.entries {
          var d := SetValue(c, k, value);
          assert Touch(d, k).entries == c.entries[k := Touch(d, k).entries[k]];
          ValuesOfUpdate(c, k, Touch(d, k).entries[k]);
        } else {
          ValuesOfUpdate(c, k, Entry(value, 1, c.clock));
        }
      case Remove(k) => ValuesOfDrop(c, k);
      case Clear =>
    }
  }

  function Values(c: Cache): map<Key, DlInfo> {
    map k | k in c.entries :: c.entries[k].value
  }

  lemma RoomForOneMore(c: Cache, k: Key, all: set<Key>)
    requires Stamped(c) && c.cap != 0 && k !in c.entries && c.entries.Keys + {k} <= all
    requires c.cap < 0 || |all| <= c.cap
    ensures MakeRoom(c) == c
  {
    SubsetSize(c.entries.Keys + {k}, all);
    assert |c.entries.Keys + {k}| == |c.entries.Keys| + 1;
  }

  lemma {:induction false} SubsetSize<T>(a: set<T>, b: set<T>)
    requires a <= b
    ensures |a| <= |b|
  {
    if a != {} {
      var x :| x in a;
      SubsetSize(a - {x}, b - {x});
    }
  }
}
