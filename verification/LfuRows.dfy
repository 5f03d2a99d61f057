/**
 The bucket structure of the cache at one moment, as a value: rows of the bucket list and the key map.
 The invariant says that rows and map describe the same cache as the plain entries of LfuSpec, and
 every restructuring of the source keeps it. Buckets and nodes are references that are never followed
 to mutable state here, so none of this reads the heap.
 */
module LfuRows {
  import opened LfuSpec

  /** A node of a key list: what `sub_it` names. */
  class KeyNode {
    const key: Key

    constructor (key: Key)
      ensures this.key == key
    {
      this.key := key;
    }
  }

  /** A node of the bucket list: what `main_it` names. */
  class Bucket {
    var first: int
    var second: seq<KeyNode>

    constructor (first: int, second: seq<KeyNode>)
      ensures this.first == first && this.second == second
    {
      this.first, this.second := first, second;
    }
  }

  datatype LFUMapValue = LFUMapValue(value: DlInfo, mainIt: Bucket, subIt: KeyNode)

  // ------------------------------------------------- the list structure at one moment, as a value

  /** A bucket and what it holds. */
  datatype Row = Row(bucket: Bucket, first: int, second: seq<KeyNode>)

  type Rows = seq<Row>

  type Places = map<Key, LFUMapValue>

  /** The bucket list has a front, strictly rising counts, and no bucket twice. */
  ghost predicate Rising(rows: Rows) {
    && rows != []
    && 1 <= rows[0].first
    && (forall i, j | 0 <= i < j < |rows| :: rows[i].first < rows[j].first)
    && (forall i, j | 0 <= i < j < |rows| :: rows[i].bucket != rows[j].bucket)
  }

  /** A node is the one its key's map value names, and its bucket has the key's count. */
  ghost predicate NodeOk(r: Row, n: KeyNode, m: Places, e: map<Key, Entry>) {
    && n.key in m && m[n.key].mainIt == r.bucket && m[n.key].subIt == n
    && n.key in e && e[n.key].touches == r.first
  }

  /** Inside a bucket the newest touch is in front. */
  ghost predicate NewestFirst(s: seq<KeyNode>, e: map<Key, Entry>)
    requires forall n | n in s :: n.key in e
  {
    forall p, q | 0 <= p < q < |s| :: e[s[q].key].last < e[s[p].key].last
  }

  ghost predicate RowOk(r: Row, m: Places, e: map<Key, Entry>) {
    (forall n | n in r.second :: NodeOk(r, n, m, e)) && NewestFirst(r.second, e)
  }

  /** Both positions of a mapped key are good. */
  ghost predicate Placed(rows: Rows, k: Key, v: LFUMapValue) {
    v.subIt.key == k && exists r :: r in rows && r.bucket == v.mainIt && v.subIt in r.second
  }

  ghost predicate RowsOk(rows: Rows, m: Places, e: map<Key, Entry>) {
    forall r | r in rows :: RowOk(r, m, e)
  }

  ghost predicate AllPlaced(rows: Rows, m: Places) {
    forall k | k in m :: Placed(rows, k, m[k])
  }

  ghost predicate Inv(rows: Rows, m: Places, e: map<Key, Entry>) {
    && Rising(rows)
    && RowsOk(rows, m, e)
    && AllPlaced(rows, m)
    && m.Keys == e.Keys
    && (forall k | k in m :: m[k].value == e[k].value)
  }

  function Cut(s: seq<KeyNode>, p: nat): seq<KeyNode>
    requires p < |s|
  {
    s[..p] + s[p + 1..]
  }

  /** A row without the key is indifferent to what happens to the key. */
  lemma OtherRowOk(r: Row, m: Places, e: map<Key, Entry>, k: Key, v: LFUMapValue, x: Entry)
    requires RowOk(r, m, e) && forall n | n in r.second :: n.key != k
    ensures RowOk(r, m[k := v], e[k := x])
  {
  }

  lemma CutMembers(s: seq<KeyNode>, p: nat, n: KeyNode)
    requires p < |s|
    ensures n in s && n != s[p] ==> n in Cut(s, p)
    ensures n in Cut(s, p) ==> n in s
  {
  }

  lemma CutOrder(s: seq<KeyNode>, e: map<Key, Entry>, p: nat)
    requires p < |s| && (forall n | n in s :: n.key in e) && NewestFirst(s, e)
    ensures forall n | n in Cut(s, p) :: n in s && n.key != s[p].key
    ensures NewestFirst(Cut(s, p), e)
  {
  }

  lemma CutRowOk(r: Row, m: Places, e: map<Key, Entry>, p: nat)
    requires RowOk(r, m, e) && p < |r.second|
    ensures RowOk(r.(second := Cut(r.second, p)), m, e)
    ensures forall n | n in Cut(r.second, p) :: n in r.second && n.key != r.second[p].key
    ensures forall n | n in r.second && n != r.second[p] :: n in Cut(r.second, p)
  {
    assert forall n | n in r.second :: NodeOk(r, n, m, e);
    CutOrder(r.second, e, p);
    hide NewestFirst;
    forall n | n in r.second && n != r.second[p] ensures n in Cut(r.second, p) {
      CutMembers(r.second, p, n);
    }
  }

  lemma FrontRowOk(r: Row, m: Places, e: map<Key, Entry>, n: KeyNode)
    requires RowOk(r, m, e) && NodeOk(r, n, m, e)
    requires forall o | o in r.second :: e[o.key].last < e[n.key].last
    ensures RowOk(r.(second := [n] + r.second), m, e)
  {
  }

  // ------------------------------------------------------- every restructuring replaces a few rows

  /** `mid` in place of the rows from `i` to `j`. */
  function Splice(rows: Rows, i: nat, j: nat, mid: Rows): Rows
    requires i <= j <= |rows|
  {
    rows[..i] + mid + rows[j..]
  }

  /** Counts rise through `mid` and its buckets are its own. */
  ghost predicate Fits(rows: Rows, i: nat, j: nat, mid: Rows)
    requires i <= j <= |rows|
  {
    && Rising(mid)
    && (forall x, r | 0 <= x < i && r in mid :: rows[x].first < r.first && rows[x].bucket != r.bucket)
    && (forall x, r | j <= x < |rows| && r in mid :: r.first < rows[x].first && rows[x].bucket != r.bucket)
  }

  /** Where a row of the result comes from. */
  lemma SpliceAt(rows: Rows, i: nat, j: nat, mid: Rows, x: nat)
    requires i <= j <= |rows| && x < |Splice(rows, i, j, mid)|
    ensures var r := Splice(rows, i, j, mid)[x];
            r == if x < i then rows[x] else if x < i + |mid| then mid[x - i] else rows[x - |mid| + j - i]
  {
  }

  lemma {:induction false} SpliceRising(rows: Rows, i: nat, j: nat, mid: Rows)
    requires Rising(rows) && i <= j <= |rows| && Fits(rows, i, j, mid)
    ensures Rising(Splice(rows, i, j, mid))
  {
    var s := Splice(rows, i, j, mid);
    SpliceAt(rows, i, j, mid, 0);
    assert mid[0] in mid;
    forall x, y | 0 <= x < y < |s| ensures s[x].first < s[y].first && s[x].bucket != s[y].bucket {
      SpliceAt(rows, i, j, mid, x);
      SpliceAt(rows, i, j, mid, y);
      SplicePair(rows, i, j, mid, x, y);
    }
  }

  lemma SplicePair(rows: Rows, i: nat, j: nat, mid: Rows, x: nat, y: nat)
    requires Rising(rows) && i <= j <= |rows| && Fits(rows, i, j, mid)
    requires x < y < i + |mid| + |rows| - j
    ensures var a := if x < i then rows[x] else if x < i + |mid| then mid[x - i] else rows[x - |mid| + j - i];
            var b := if y < i then rows[y] else if y < i + |mid| then mid[y - i] else rows[y - |mid| + j - i];
            a.first < b.first && a.bucket != b.bucket
  {
    if i <= x < i + |mid| { assert mid[x - i] in mid; }
    if i <= y < i + |mid| { assert mid[y - i] in mid; }
  }

  lemma SpliceMembers(rows: Rows, i: nat, j: nat, mid: Rows, r: Row)
    requires i <= j <= |rows|
    ensures r in Splice(rows, i, j, mid) <==> r in rows[..i] || r in mid || r in rows[j..]
  {
  }

  /** No row holds the key. */
  ghost predicate Lacks(rows: Rows, k: Key) {
    forall r, n | r in rows && n in r.second :: n.key != k
  }

  /** The keys of `part`, but for `k`, are placed in `mid` where the map says. */
  ghost predicate Rehomed(part: Rows, mid: Rows, m: Places, k: Key) {
    forall r, n | r in part && n in r.second && n.key in m && n.key != k :: Placed(mid, n.key, m[n.key])
  }

  lemma SpliceRowsOk(rows: Rows, i: nat, j: nat, mid: Rows, m: Places, e: map<Key, Entry>, k: Key, v: LFUMapValue, x: Entry)
    requires i <= j <= |rows|
    requires RowsOk(rows, m, e) && Lacks(rows[..i], k) && Lacks(rows[j..], k)
    requires RowsOk(mid, m[k := v], e[k := x])
    ensures RowsOk(Splice(rows, i, j, mid), m[k := v], e[k := x])
  {
    forall r | r in Splice(rows, i, j, mid) ensures RowOk(r, m[k := v], e[k := x]) {
      SpliceMembers(rows, i, j, mid, r);
      if r !in mid {
        assert r in rows;
        OtherRowOk(r, m, e, k, v, x);
      }
    }
  }

  lemma SplicePlaced(rows: Rows, i: nat, j: nat, mid: Rows, k: Key, v: LFUMapValue)
    requires i <= j <= |rows| && Placed(rows, k, v)
    requires forall r | r in rows[i..j] && r.bucket == v.mainIt && v.subIt in r.second :: Placed(mid, k, v)
    ensures Placed(Splice(rows, i, j, mid), k, v)
  {
  }

  lemma SpliceAllPlaced(rows: Rows, i: nat, j: nat, mid: Rows, m: Places, k: Key, v: LFUMapValue)
    requires i <= j <= |rows| && AllPlaced(rows, m)
    requires Placed(mid, k, v) && Rehomed(rows[i..j], mid, m, k)
    ensures AllPlaced(Splice(rows, i, j, mid), m[k := v])
  {
    var m', rows' := m[k := v], Splice(rows, i, j, mid);
    forall o | o in m' ensures Placed(rows', o, m'[o]) {
      if o == k {
        var q :| q in mid && q.bucket == v.mainIt && v.subIt in q.second;
        SpliceMembers(rows, i, j, mid, q);
      } else {
        assert Placed(rows, o, m[o]);
        SplicePlaced(rows, i, j, mid, o, m[o]);
      }
    }
  }

  /** The one proof behind put and right_move: rows that do not hold `k` stay, `mid` takes the rest. */
  lemma SpliceInv(rows: Rows, i: nat, j: nat, mid: Rows, m: Places, e: map<Key, Entry>, k: Key, v: LFUMapValue, x: Entry)
    requires Inv(rows, m, e) && i <= j <= |rows| && Fits(rows, i, j, mid)
    requires Lacks(rows[..i], k) && Lacks(rows[j..], k)
    requires RowsOk(mid, m[k := v], e[k := x])
    requires Placed(mid, k, v) && v.value == x.value
    requires Rehomed(rows[i..j], mid, m, k)
    ensures Inv(Splice(rows, i, j, mid), m[k := v], e[k := x])
  {
    hide Rising, RowsOk, AllPlaced, Splice, Fits, Lacks, Placed, Rehomed;
    SpliceRising(rows, i, j, mid);
    SpliceRowsOk(rows, i, j, mid, m, e, k, v, x);
    SpliceAllPlaced(rows, i, j, mid, m, k, v);
    assert m[k := v].Keys == e[k := x].Keys;
  }

  /** The rows other than a key's own do not hold it. */
  lemma OnlyInOneRow(rows: Rows, m: Places, e: map<Key, Entry>, i: nat, j: nat, k: Key)
    requires Inv(rows, m, e) && k in m && i < j <= |rows| && rows[i].bucket == m[k].mainIt
    ensures Lacks(rows[..i], k) && Lacks(rows[j..], k)
    ensures m[k].subIt in rows[i].second
  {
    assert Placed(rows, k, m[k]);
    forall r, n | (r in rows[..i] || r in rows[j..]) && n in r.second ensures n.key != k {
      assert r in rows && NodeOk(r, n, m, e);
      if r in rows[..i] {
        var y :| 0 <= y < i && rows[..i][y] == r;
        assert rows[y] == r;
      } else {
        var y :| 0 <= y < |rows[j..]| && rows[j..][y] == r;
        assert rows[j + y] == r;
      }
    }
  }

  lemma RowFacts(rows: Rows, m: Places, e: map<Key, Entry>, i: nat)
    requires Inv(rows, m, e) && i < |rows|
    ensures RowOk(rows[i], m, e) && 1 <= rows[i].first
  {
  }

  // ---------------------------------------------------------------------------- the restructurings

  function Bumped(r: Row): Row {
    r.(first := r.first + 1)
  }

  function Left(r: Row, p: nat): Row
    requires p < |r.second|
  {
    r.(second := Cut(r.second, p))
  }

  function Pushed(r: Row, n: KeyNode): Row {
    r.(second := [n] + r.second)
  }

  function BumpInPlace(rows: Rows, i: nat): Rows
    requires i < |rows|
  {
    Splice(rows, i, i + 1, [Bumped(rows[i])])
  }

  function NextMid(rows: Rows, i: nat, p: nat): Rows
    requires i + 1 < |rows| && p < |rows[i].second|
  {
    var right := Pushed(rows[i + 1], rows[i].second[p]);
    if |rows[i].second| == 1 then [right] else [Left(rows[i], p), right]
  }

  function MoveToNext(rows: Rows, i: nat, p: nat): Rows
    requires i + 1 < |rows| && p < |rows[i].second|
  {
    Splice(rows, i, i + 2, NextMid(rows, i, p))
  }

  function NewMid(rows: Rows, i: nat, p: nat, b: Bucket, n: KeyNode): Rows
    requires i < |rows| && p < |rows[i].second|
  {
    [Left(rows[i], p), Row(b, rows[i].first + 1, [n])]
  }

  function MoveToNew(rows: Rows, i: nat, p: nat, b: Bucket, n: KeyNode): Rows
    requires i < |rows| && p < |rows[i].second|
  {
    Splice(rows, i, i + 1, NewMid(rows, i, p, b, n))
  }

  /** The key's own row, without the key's node, is good after the touch. */
  lemma LeftOk(rows: Rows, m: Places, c: Cache, i: nat, p: nat, k: Key, v: LFUMapValue)
    requires Inv(rows, m, c.entries) && k in m
    requires i < |rows| && p < |rows[i].second| && rows[i].second[p] == m[k].subIt
    ensures RowOk(Left(rows[i], p), m[k := v], Touch(c, k).entries)
    ensures Rehomed([rows[i]], [Left(rows[i], p)], m, k)
  {
    var e := c.entries;
    RowFacts(rows, m, e, i);
    CutRowOk(rows[i], m, e, p);
    OtherRowOk(Left(rows[i], p), m, e, k, v, Touch(c, k).entries[k]);
    forall o | o in rows[i].second && o.key != k && o.key in m
      ensures Placed([Left(rows[i], p)], o.key, m[o.key])
    {
      assert NodeOk(rows[i], o, m, e);
      assert Left(rows[i], p) in [Left(rows[i], p)];
    }
  }

  lemma PlacedInMore(rows: Rows, more: Rows, k: Key, v: LFUMapValue)
    requires Placed(rows, k, v) && forall r | r in rows :: r in more
    ensures Placed(more, k, v)
  {
  }

  lemma FitsOne(rows: Rows, i: nat, r: Row)
    requires Rising(rows) && i < |rows| && r.bucket == rows[i].bucket
    requires rows[i].first <= r.first && (i + 1 < |rows| ==> r.first < rows[i + 1].first)
    ensures Fits(rows, i, i + 1, [r])
  {
  }

  lemma {:induction false} BumpedRow(rows: Rows, m: Places, c: Cache, i: nat, k: Key)
    requires Inv(rows, m, c.entries) && k in m
    requires i < |rows| && rows[i].bucket == m[k].mainIt && |rows[i].second| == 1
    ensures RowsOk([Bumped(rows[i])], m, Touch(c, k).entries)
    ensures Placed([Bumped(rows[i])], k, m[k])
    ensures Rehomed(rows[i..i + 1], [Bumped(rows[i])], m, k)
  {
    hide Inv;
    KeysAgree(rows, m, c.entries);
    PlacedHere(rows, m, c.entries, i, k);
    RowFacts(rows, m, c.entries, i);
    var r, n := Bumped(rows[i]), m[k].subIt;
    assert r.second == [n] && r in [r];
    assert rows[i..i + 1] == [rows[i]];
    assert NodeOk(rows[i], n, m, c.entries);
    assert n.key == k by { assert Placed(rows, k, m[k]) by { PlacedKey(rows, m, c.entries, k); } }
    assert NodeOk(r, n, m, Touch(c, k).entries);
  }

  lemma {:induction false} BumpInPlaceInv(rows: Rows, m: Places, c: Cache, i: nat, k: Key)
    requires Inv(rows, m, c.entries) && k in m
    requires i < |rows| && rows[i].bucket == m[k].mainIt && |rows[i].second| == 1
    requires i + 1 < |rows| ==> rows[i].first + 1 < rows[i + 1].first
    ensures Inv(BumpInPlace(rows, i), m, Touch(c, k).entries)
  {
    hide Inv, RowsOk, Placed, Rehomed, Fits, Lacks, Touch, Splice, Bumped;
    KeysAgree(rows, m, c.entries);
    SameValue(m, k);
    TouchAsUpdate(c, k);
    BumpedRow(rows, m, c, i, k);
    OnlyInOneRow(rows, m, c.entries, i, i + 1, k);
    BumpedFits(rows, m, c.entries, i);
    SpliceInv(rows, i, i + 1, [Bumped(rows[i])], m, c.entries, k, m[k], Touch(c, k).entries[k]);
  }

  lemma SameValue<K, V>(m: map<K, V>, k: K)
    requires k in m
    ensures m[k := m[k]] == m
  {
  }

  lemma TouchAsUpdate(c: Cache, k: Key)
    requires k in c.entries
    ensures var e := Touch(c, k).entries; k in e && e == c.entries[k := e[k]] && e[k].value == c.entries[k].value
  {
  }

  lemma BumpedFits(rows: Rows, m: Places, e: map<Key, Entry>, i: nat)
    requires Inv(rows, m, e) && i < |rows| && (i + 1 < |rows| ==> rows[i].first + 1 < rows[i + 1].first)
    ensures Fits(rows, i, i + 1, [Bumped(rows[i])])
  {
    FitsOne(rows, i, Bumped(rows[i]));
  }

  lemma NextFits(rows: Rows, i: nat, p: nat)
    requires Rising(rows) && i + 1 < |rows| && p < |rows[i].second|
    ensures Fits(rows, i, i + 2, NextMid(rows, i, p))
  {
  }

  lemma {:induction false} NextRows(rows: Rows, m: Places, c: Cache, i: nat, p: nat, k: Key)
    requires Inv(rows, m, c.entries) && Stamped(c) && k in m
    requires i + 1 < |rows| && rows[i].bucket == m[k].mainIt
    requires p < |rows[i].second| && rows[i].second[p] == m[k].subIt
    requires rows[i].first + 1 == rows[i + 1].first
    ensures RowsOk(NextMid(rows, i, p), m[k := m[k].(mainIt := rows[i + 1].bucket)], Touch(c, k).entries)
  {
    hide RowOk;
    LeftOk(rows, m, c, i, p, k, m[k].(mainIt := rows[i + 1].bucket));
    RightOk(rows, m, c, i, p, k);
  }

  lemma {:induction false} RightOk(rows: Rows, m: Places, c: Cache, i: nat, p: nat, k: Key)
    requires Inv(rows, m, c.entries) && Stamped(c) && k in m
    requires i + 1 < |rows| && rows[i].bucket == m[k].mainIt
    requires p < |rows[i].second| && rows[i].second[p] == m[k].subIt
    requires rows[i].first + 1 == rows[i + 1].first
    ensures RowOk(Pushed(rows[i + 1], rows[i].second[p]), m[k := m[k].(mainIt := rows[i + 1].bucket)], Touch(c, k).entries)
  {
    var e, x := c.entries, Touch(c, k).entries[k];
    var v := m[k].(mainIt := rows[i + 1].bucket);
    OnlyInOneRow(rows, m, e, i, i + 1, k);
    assert rows[i + 1] in rows[i + 1..];
    assert NodeOk(rows[i], m[k].subIt, m, e) by { RowFacts(rows, m, e, i); }
    RowFacts(rows, m, e, i + 1);
    hide Inv;
    OtherRowOk(rows[i + 1], m, e, k, v, x);
    var r := rows[i + 1];
    assert forall o | o in r.second :: NodeOk(r, o, m, e);
    FrontRowOk(r, m[k := v], e[k := x], m[k].subIt);
  }

  lemma NextRehomed(rows: Rows, m: Places, c: Cache, i: nat, p: nat, k: Key)
    requires Inv(rows, m, c.entries) && k in m
    requires i + 1 < |rows| && rows[i].bucket == m[k].mainIt
    requires p < |rows[i].second| && rows[i].second[p] == m[k].subIt
    ensures Rehomed(rows[i..i + 2], NextMid(rows, i, p), m, k)
    ensures Placed(NextMid(rows, i, p), k, m[k].(mainIt := rows[i + 1].bucket))
  {
    var mid, right := NextMid(rows, i, p), Pushed(rows[i + 1], m[k].subIt);
    LeftOk(rows, m, c, i, p, k, m[k]);
    RowFacts(rows, m, c.entries, i + 1);
    PlacedKey(rows, m, c.entries, k);
    hide Inv;
    assert right in mid;
    forall r, o | r in rows[i..i + 2] && o in r.second && o.key in m && o.key != k ensures Placed(mid, o.key, m[o.key]) {
      if r == rows[i] {
        LeftStays(rows, i, p, m, k, o);
      } else {
        assert r == rows[i + 1] && NodeOk(r, o, m, c.entries);
        hide RowOk;
        assert o in right.second;
      }
    }
  }

  lemma LeftStays(rows: Rows, i: nat, p: nat, m: Places, k: Key, o: KeyNode)
    requires i + 1 < |rows| && p < |rows[i].second| && Rehomed([rows[i]], [Left(rows[i], p)], m, k)
    requires o in rows[i].second && o.key in m && o.key != k
    ensures Placed(NextMid(rows, i, p), o.key, m[o.key])
  {
    assert rows[i] in [rows[i]];
    assert Placed([Left(rows[i], p)], o.key, m[o.key]);
    hide Rehomed;
    PlacedInMore([Left(rows[i], p)], NextMid(rows, i, p), o.key, m[o.key]);
  }

  lemma {:induction false} MoveToNextInv(rows: Rows, m: Places, c: Cache, i: nat, p: nat, k: Key)
    requires Inv(rows, m, c.entries) && Stamped(c) && k in m
    requires i + 1 < |rows| && rows[i].bucket == m[k].mainIt
    requires p < |rows[i].second| && rows[i].second[p] == m[k].subIt
    requires rows[i].first + 1 == rows[i + 1].first
    ensures Inv(MoveToNext(rows, i, p), m[k := m[k].(mainIt := rows[i + 1].bucket)], Touch(c, k).entries)
  {
    hide RowsOk, AllPlaced, Placed, Rehomed, Fits, Lacks;
    NextFits(rows, i, p);
    hide Rising;
    NextRows(rows, m, c, i, p, k);
    NextRehomed(rows, m, c, i, p, k);
    OnlyInOneRow(rows, m, c.entries, i, i + 1, k);
    LacksLess(rows[i + 1..], k);
    assert rows[i + 1..][1..] == rows[i + 2..];
    SpliceInv(rows, i, i + 2, NextMid(rows, i, p), m, c.entries, k, m[k].(mainIt := rows[i + 1].bucket), Touch(c, k).entries[k]);
  }

  lemma LacksLess(rows: Rows, k: Key)
    requires rows != [] && Lacks(rows, k)
    ensures Lacks(rows[1..], k)
  {
  }

  lemma NewFits(rows: Rows, i: nat, p: nat, b: Bucket, n: KeyNode)
    requires Rising(rows) && i < |rows| && p < |rows[i].second|
    requires i + 1 < |rows| ==> rows[i].first + 1 < rows[i + 1].first
    requires forall r | r in rows :: r.bucket != b
    ensures Fits(rows, i, i + 1, NewMid(rows, i, p, b, n))
  {
  }

  lemma NewRows(rows: Rows, m: Places, c: Cache, i: nat, p: nat, k: Key, b: Bucket, n: KeyNode)
    requires Inv(rows, m, c.entries) && k in m && n.key == k
    requires i < |rows| && rows[i].bucket == m[k].mainIt
    requires p < |rows[i].second| && rows[i].second[p] == m[k].subIt
    ensures RowsOk(NewMid(rows, i, p, b, n), m[k := m[k].(mainIt := b, subIt := n)], Touch(c, k).entries)
    ensures Placed(NewMid(rows, i, p, b, n), k, m[k].(mainIt := b, subIt := n))
    ensures Rehomed(rows[i..i + 1], NewMid(rows, i, p, b, n), m, k)
  {
    var v, mid := m[k].(mainIt := b, subIt := n), NewMid(rows, i, p, b, n);
    RowFacts(rows, m, c.entries, i);
    LeftOk(rows, m, c, i, p, k, v);
    assert NodeOk(rows[i], m[k].subIt, m, c.entries);
    assert RowOk(mid[1], m[k := v], Touch(c, k).entries);
    assert mid[1] in mid;
    assert rows[i..i + 1] == [rows[i]];
    forall o | o in rows[i].second && o.key in m && o.key != k ensures Placed(mid, o.key, m[o.key]) {
      assert rows[i] in [rows[i]];
      PlacedInMore([Left(rows[i], p)], mid, o.key, m[o.key]);
    }
  }

  lemma {:induction false} MoveToNewInv(rows: Rows, m: Places, c: Cache, i: nat, p: nat, k: Key, b: Bucket, n: KeyNode)
    requires Inv(rows, m, c.entries) && k in m && n.key == k
    requires i < |rows| && rows[i].bucket == m[k].mainIt
    requires p < |rows[i].second| && rows[i].second[p] == m[k].subIt
    requires i + 1 < |rows| ==> rows[i].first + 1 < rows[i + 1].first
    requires forall r | r in rows :: r.bucket != b
    ensures Inv(MoveToNew(rows, i, p, b, n), m[k := m[k].(mainIt := b, subIt := n)], Touch(c, k).entries)
  {
    hide RowsOk, AllPlaced, Placed, Rehomed, Fits, Lacks;
    NewFits(rows, i, p, b, n);
    hide Rising;
    NewRows(rows, m, c, i, p, k, b, n);
    OnlyInOneRow(rows, m, c.entries, i, i + 1, k);
    SpliceInv(rows, i, i + 1, NewMid(rows, i, p, b, n), m, c.entries, k, m[k].(mainIt := b, subIt := n), Touch(c, k).entries[k]);
  }

  /** A new key goes to the front of the bucket of count 1, which is made when there is none. */
  function InsertFront(rows: Rows, b: Bucket, n: KeyNode): Rows
    requires rows != []
  {
    if rows[0].first == 1 then Splice(rows, 0, 1, [Pushed(rows[0], n)]) else Splice(rows, 0, 0, [Row(b, 1, [n])])
  }

  lemma NewKeyLacks(rows: Rows, m: Places, e: map<Key, Entry>, k: Key)
    requires RowsOk(rows, m, e) && k !in m
    ensures Lacks(rows, k)
  {
  }

  lemma PushRow(rows: Rows, m: Places, c: Cache, n: KeyNode, v: LFUMapValue)
    requires Inv(rows, m, c.entries) && Stamped(c) && n.key !in m
    requires rows[0].first == 1 && v.mainIt == rows[0].bucket && v.subIt == n
    ensures RowsOk([Pushed(rows[0], n)], m[n.key := v], c.entries[n.key := Entry(v.value, 1, c.clock)])
    ensures Placed([Pushed(rows[0], n)], n.key, v)
    ensures Rehomed([rows[0]], [Pushed(rows[0], n)], m, n.key)
  {
    var e, k, x := c.entries, n.key, Entry(v.value, 1, c.clock);
    NewKeyLacks(rows, m, e, k);
    RowFacts(rows, m, e, 0);
    assert rows[0] in rows;
    OtherRowOk(rows[0], m, e, k, v, x);
    FrontRowOk(rows[0], m[k := v], e[k := x], n);
    assert Pushed(rows[0], n) in [Pushed(rows[0], n)];
    forall o | o in rows[0].second && o.key in m ensures Placed([Pushed(rows[0], n)], o.key, m[o.key]) {
      assert NodeOk(rows[0], o, m, e) && o in Pushed(rows[0], n).second;
    }
  }

  lemma InsertFrontInv(rows: Rows, m: Places, c: Cache, b: Bucket, n: KeyNode, v: LFUMapValue)
    requires Inv(rows, m, c.entries) && Stamped(c) && n.key !in m
    requires forall r | r in rows :: r.bucket != b
    requires v.mainIt == (if rows[0].first == 1 then rows[0].bucket else b) && v.subIt == n
    ensures Inv(InsertFront(rows, b, n), m[n.key := v], Insert(c, n.key, v.value).entries)
  {
    var e, k, x := c.entries, n.key, Entry(v.value, 1, c.clock);
    NewKeyLacks(rows, m, e, k);
    if rows[0].first == 1 {
      PushRow(rows, m, c, n, v);
      FitsOne(rows, 0, Pushed(rows[0], n));
      hide Inv, RowsOk, Placed, Rehomed, Fits, Stamped;
      assert rows[0..1] == [rows[0]] && rows[..0] == [];
      LacksLess(rows, k);
      SpliceInv(rows, 0, 1, [Pushed(rows[0], n)], m, e, k, v, x);
    } else {
      NewFrontOk(m, c, b, n, v);
      NewFrontFits(rows, b, n);
      hide Inv, RowsOk, Placed, Fits, Stamped;
      assert rows[0..] == rows && rows[..0] == [] && rows[0..0] == [];
      SpliceInv(rows, 0, 0, [Row(b, 1, [n])], m, e, k, v, x);
    }
  }

  lemma NewFrontOk(m: Places, c: Cache, b: Bucket, n: KeyNode, v: LFUMapValue)
    requires v.mainIt == b && v.subIt == n
    ensures var k := n.key;
      RowsOk([Row(b, 1, [n])], m[k := v], c.entries[k := Entry(v.value, 1, c.clock)]) && Placed([Row(b, 1, [n])], k, v)
  {
    assert Row(b, 1, [n]) in [Row(b, 1, [n])];
  }

  lemma NewFrontFits(rows: Rows, b: Bucket, n: KeyNode)
    requires Rising(rows) && rows[0].first != 1 && forall r | r in rows :: r.bucket != b
    ensures Fits(rows, 0, 0, [Row(b, 1, [n])])
  {
    assert forall i | 0 <= i < |rows| :: rows[i] in rows && 1 < rows[i].first;
  }

  /** Removal and eviction unlink one node and leave its bucket, empty or not. */
  function Unlinked(rows: Rows, i: nat, p: nat): Rows
    requires i < |rows| && p < |rows[i].second|
  {
    rows[i := Left(rows[i], p)]
  }

  lemma DropRowOk(r: Row, m: Places, e: map<Key, Entry>, k: Key)
    requires RowOk(r, m, e) && forall n | n in r.second :: n.key != k
    ensures RowOk(r, m - {k}, e - {k})
  {
    assert forall n | n in r.second :: NodeOk(r, n, m - {k}, e - {k}) && (e - {k})[n.key] == e[n.key];
  }

  lemma UnlinkedLeft(rows: Rows, m: Places, e: map<Key, Entry>, i: nat, p: nat, k: Key)
    requires Inv(rows, m, e) && k in m
    requires i < |rows| && rows[i].bucket == m[k].mainIt
    requires p < |rows[i].second| && rows[i].second[p] == m[k].subIt
    ensures RowOk(Left(rows[i], p), m - {k}, e - {k})
  {
    RowFacts(rows, m, e, i);
    PlacedKey(rows, m, e, k);
    assert rows[i].second[p].key == k;
    hide Inv, RowOk, Placed;
    CutRowOk(rows[i], m, e, p);
    DropRowOk(Left(rows[i], p), m, e, k);
  }

  lemma UnlinkedRows(rows: Rows, m: Places, e: map<Key, Entry>, i: nat, p: nat, k: Key)
    requires Inv(rows, m, e) && k in m
    requires i < |rows| && rows[i].bucket == m[k].mainIt
    requires p < |rows[i].second| && rows[i].second[p] == m[k].subIt
    ensures RowsOk(Unlinked(rows, i, p), m - {k}, e - {k})
  {
    var left, rows' := Left(rows[i], p), Unlinked(rows, i, p);
    assert RowsOk(rows, m, e);
    hide Inv, RowOk;
    OnlyInOneRow(rows, m, e, i, i + 1, k);
    UnlinkedLeft(rows, m, e, i, p, k);
    assert rows' == rows[..i] + [left] + rows[i + 1..];
    hide Left, Unlinked;
    forall r | r in rows' ensures RowOk(r, m - {k}, e - {k}) {
      if r in rows[..i] || r in rows[i + 1..] {
        assert r in rows;
        DropRowOk(r, m, e, k);
      } else {
        assert r == left;
      }
    }
  }

  lemma UnlinkedPlaced(rows: Rows, m: Places, e: map<Key, Entry>, i: nat, p: nat, k: Key, o: Key)
    requires Inv(rows, m, e) && k in m && o in m && o != k
    requires i < |rows| && rows[i].bucket == m[k].mainIt
    requires p < |rows[i].second| && rows[i].second[p] == m[k].subIt
    ensures Placed(Unlinked(rows, i, p), o, m[o])
  {
    var rows' := Unlinked(rows, i, p);
    assert Placed(rows, o, m[o]) && Placed(rows, k, m[k]);
    var r :| r in rows && r.bucket == m[o].mainIt && m[o].subIt in r.second;
    var x :| 0 <= x < |rows| && rows[x] == r;
    if x == i {
      RowFacts(rows, m, e, i);
      CutRowOk(rows[i], m, e, p);
    }
    assert rows'[x] in rows' && rows'[x].bucket == r.bucket && m[o].subIt in rows'[x].second;
  }

  lemma UnlinkedInv(rows: Rows, m: Places, e: map<Key, Entry>, i: nat, p: nat, k: Key)
    requires Inv(rows, m, e) && k in m
    requires i < |rows| && rows[i].bucket == m[k].mainIt
    requires p < |rows[i].second| && rows[i].second[p] == m[k].subIt
    ensures Inv(Unlinked(rows, i, p), m - {k}, e - {k})
  {
    UnlinkedRows(rows, m, e, i, p, k);
    forall o | o in m - {k} ensures Placed(Unlinked(rows, i, p), o, m[o]) {
      UnlinkedPlaced(rows, m, e, i, p, k, o);
    }
  }

  lemma PlacedKey(rows: Rows, m: Places, e: map<Key, Entry>, k: Key)
    requires Inv(rows, m, e) && k in m
    ensures Placed(rows, k, m[k])
  {
  }

  lemma PlacedHere(rows: Rows, m: Places, e: map<Key, Entry>, i: nat, k: Key)
    requires Inv(rows, m, e) && k in m && i < |rows| && rows[i].bucket == m[k].mainIt
    ensures m[k].subIt in rows[i].second
  {
  }

  /** The restructurings as single row updates. */
  lemma BumpAsUpdate(rows: Rows, i: nat)
    requires i < |rows|
    ensures BumpInPlace(rows, i) == rows[i := Bumped(rows[i])]
  {
  }

  lemma NextAsUpdate(rows: Rows, i: nat, p: nat)
    requires i + 1 < |rows| && p < |rows[i].second|
    ensures MoveToNext(rows, i, p) == NextUpdate(rows, i, p)
  {
  }

  function NextUpdate(rows: Rows, i: nat, p: nat): Rows
    requires i + 1 < |rows| && p < |rows[i].second|
  {
    var moved := rows[i := Left(rows[i], p)][i + 1 := Pushed(rows[i + 1], rows[i].second[p])];
    if |rows[i].second| == 1 then moved[..i] + moved[i + 1..] else moved
  }

  function Emplaced(rows: Rows, i: nat, r: Row): Rows
    requires i < |rows|
  {
    rows[..i + 1] + [r] + rows[i + 1..]
  }

  lemma NewAsUpdate(rows: Rows, i: nat, p: nat, b: Bucket, n: KeyNode)
    requires i < |rows| && p < |rows[i].second|
    ensures var r := Row(b, rows[i].first + 1, []);
            Emplaced(rows, i, r)[i := Left(rows[i], p)][i + 1 := r.(second := [n] + r.second)] == MoveToNew(rows, i, p, b, n)
  {
    assert [n] + [] == [n];
  }

  ghost predicate Distinct(rows: Rows) {
    forall i, j | 0 <= i < j < |rows| :: rows[i].bucket != rows[j].bucket
  }

  lemma DistinctBuckets(rows: Rows, m: Places, e: map<Key, Entry>)
    requires Inv(rows, m, e)
    ensures Distinct(rows) && m.Keys == e.Keys
  {
  }

  /** A front bucket that holds a key still does after a move. */
  lemma FrontStays(rows: Rows, i: nat, p: nat, b: Bucket, n: KeyNode)
    requires i < |rows| && p < |rows[i].second|
    ensures var t := MoveToNew(rows, i, p, b, n); t != [] && (|rows[i].second| != 1 && rows[0].second != [] ==> t[0].second != [])
    ensures i + 1 < |rows| ==>
              var t := MoveToNext(rows, i, p); t != [] && (rows[0].second != [] ==> t[0].second != [])
  {
  }

  lemma TouchFacts(c: Cache, k: Key)
    requires Stamped(c) && k in c.entries
    ensures Stamped(Touch(c, k)) && Touch(c, k).entries.Keys == c.entries.Keys && Touch(c, k).cap == c.cap
  {
  }

  lemma EmptyInv(b: Bucket)
    ensures Inv([Row(b, 1, [])], map[], map[])
  {
  }

  lemma KeysAgree(rows: Rows, m: Places, e: map<Key, Entry>)
    requires Inv(rows, m, e)
    ensures m.Keys == e.Keys
    ensures forall k | k in m :: m[k].value == e[k].value
  {
  }

  lemma {:induction false} SetValueInv(rows: Rows, m: Places, c: Cache, k: Key, value: DlInfo)
    requires Inv(rows, m, c.entries) && Stamped(c) && k in m
    ensures Inv(rows, m[k := m[k].(value := value)], SetValue(c, k, value).entries)
    ensures Stamped(SetValue(c, k, value))
  {
    hide RowsOk, Rising, AllPlaced;
    var m', e' := m[k := m[k].(value := value)], SetValue(c, k, value).entries;
    SameStampsRowsOk(rows, m, c.entries, m', e');
    SamePlaces(rows, m, m');
  }

  lemma SamePlaces(rows: Rows, m: Places, m': Places)
    requires AllPlaced(rows, m) && m'.Keys == m.Keys
    requires forall k | k in m :: m'[k].mainIt == m[k].mainIt && m'[k].subIt == m[k].subIt
    ensures AllPlaced(rows, m')
  {
  }

  lemma SameStampsRowsOk(rows: Rows, m: Places, e: map<Key, Entry>, m': Places, e': map<Key, Entry>)
    requires RowsOk(rows, m, e)
    requires forall k | k in m :: k in m' && m'[k].mainIt == m[k].mainIt && m'[k].subIt == m[k].subIt
    requires forall k | k in e :: k in e' && e'[k].touches == e[k].touches && e'[k].last == e[k].last
    ensures RowsOk(rows, m', e')
  {
    hide RowOk;
    forall r | r in rows ensures RowOk(r, m', e') {
      SameStampsRowOk(r, m, e, m', e');
    }
  }

  lemma SameStampsRowOk(r: Row, m: Places, e: map<Key, Entry>, m': Places, e': map<Key, Entry>)
    requires RowOk(r, m, e)
    requires forall k | k in m :: k in m' && m'[k].mainIt == m[k].mainIt && m'[k].subIt == m[k].subIt
    requires forall k | k in e :: k in e' && e'[k].touches == e[k].touches && e'[k].last == e[k].last
    ensures RowOk(r, m', e')
  {
    assert forall n | n in r.second :: NodeOk(r, n, m, e);
    assert forall n | n in r.second :: NodeOk(r, n, m', e') && e'[n.key].last == e[n.key].last;
  }

  /** The back of a front bucket that is not empty is the victim. */
  lemma {:induction false} BackIsVictim(rows: Rows, m: Places, c: Cache)
    requires Inv(rows, m, c.entries) && Stamped(c) && rows[0].second != []
    ensures c.entries != map[] && Victim(c) == rows[0].second[|rows[0].second| - 1].key
  {
    var e, s := c.entries, rows[0].second;
    var v := s[|s| - 1];
    BackPlaced(rows, m, c);
    forall k | k in e && k != v.key ensures Before(e[v.key], e[k]) {
      BackIsLeast(rows, m, c, k);
    }
    VictimUnique(e, v.key, Victim(c));
  }

  /** In a bucket the back was touched first. */
  lemma BackIsOldest(r: Row, m: Places, e: map<Key, Entry>, n: KeyNode)
    requires RowOk(r, m, e) && n in r.second && n.key != r.second[|r.second| - 1].key
    ensures r.second[|r.second| - 1].key in e && n.key in e
    ensures Before(e[r.second[|r.second| - 1].key], e[n.key])
  {
    var s := r.second;
    var q :| 0 <= q < |s| && s[q] == n;
    assert NodeOk(r, n, m, e) && NodeOk(r, s[|s| - 1], m, e);
  }

  lemma TouchesAre(r: Row, m: Places, e: map<Key, Entry>, n: KeyNode)
    requires RowOk(r, m, e) && n in r.second
    ensures n.key in e && e[n.key].touches == r.first
  {
    assert NodeOk(r, n, m, e);
  }

  lemma BackIsLeast(rows: Rows, m: Places, c: Cache, k: Key)
    requires Inv(rows, m, c.entries) && rows[0].second != [] && k in m
    requires k != rows[0].second[|rows[0].second| - 1].key
    ensures rows[0].second[|rows[0].second| - 1].key in c.entries
    ensures Before(c.entries[rows[0].second[|rows[0].second| - 1].key], c.entries[k])
  {
    var e, s := c.entries, rows[0].second;
    PlacedKey(rows, m, e, k);
    hide Inv;
    var r :| r in rows && r.bucket == m[k].mainIt && m[k].subIt in r.second;
    var i :| 0 <= i < |rows| && rows[i] == r;
    RowFacts(rows, m, e, i);
    RowFacts(rows, m, e, 0);
    hide RowOk;
    if i == 0 {
      BackIsOldest(r, m, e, m[k].subIt);
    } else {
      TouchesAre(r, m, e, m[k].subIt);
      TouchesAre(rows[0], m, e, s[|s| - 1]);
      CountsRise(rows, m, e, i);
    }
  }

  lemma CountsRise(rows: Rows, m: Places, e: map<Key, Entry>, i: nat)
    requires Inv(rows, m, e) && 0 < i < |rows|
    ensures rows[0].first < rows[i].first
  {
  }

  lemma BackPlaced(rows: Rows, m: Places, c: Cache)
    requires Inv(rows, m, c.entries) && rows[0].second != []
    ensures var v := rows[0].second[|rows[0].second| - 1];
            v.key in m && m[v.key].mainIt == rows[0].bucket && m[v.key].subIt == v
  {
    RowFacts(rows, m, c.entries, 0);
    var v := rows[0].second[|rows[0].second| - 1];
    assert v in rows[0].second && NodeOk(rows[0], v, m, c.entries);
  }

  lemma TickFacts(c: Cache)
    requires Stamped(c)
    ensures Stamped(Tick(c))
  {
  }

  lemma DropFacts(c: Cache, k: Key)
    requires Stamped(c)
    ensures Stamped(Without(c, k)) && Without(c, k).cap == c.cap
  {
  }

  lemma InsertFacts(c: Cache, k: Key, value: DlInfo)
    requires Stamped(c)
    ensures Stamped(Insert(c, k, value)) && Insert(c, k, value).cap == c.cap
  {
  }

  function InsertUpdate(rows: Rows, b: Bucket, n: KeyNode): Rows
    requires rows != []
  {
    var r := if rows[0].first == 1 then rows else [Row(b, 1, [])] + rows;
    r[0 := Pushed(r[0], n)]
  }

  lemma {:induction false} InsertFrontAsUpdate(rows: Rows, b: Bucket, n: KeyNode)
    requires rows != []
    ensures InsertFront(rows, b, n) == InsertUpdate(rows, b, n)
    ensures InsertFront(rows, b, n)[0].second != []
  {
    if rows[0].first != 1 {
      assert [n] + [] == [n];
      assert rows[0..] == rows;
    }
  }
}
