/**
 MTHawkeyeLFUCache: a list of count buckets, each a list of keys with the newest touch in front, and
 a map from each key to its value and to the two list positions that hold it. A list position (a C++
 list iterator) is a reference to the node it names, so splicing moves the node and keeps the
 position good. The ghost field `model` is the cache of LfuSpec that the structure stands for, and
 `rows` is the bucket list as a value.
 */
module LfuCache {
  import opened LfuSpec
  import opened LfuRows

  /** The sizes agree; only a cache with room has an empty front bucket. */
  ghost predicate Counted(curCap: int, maxCap: int, size: int, c: Cache, rows: Rows)
    requires rows != []
  {
    && curCap == size
    && maxCap == c.cap
    && (0 <= maxCap ==> curCap <= maxCap)
    && (maxCap != 0 && curCap == maxCap ==> rows[0].second != [])
  }

  /** They still do where no key comes or goes and the front bucket is not emptied. */
  lemma CountedStill(curCap: int, maxCap: int, size: int, c: Cache, rows: Rows, c': Cache, rows': Rows)
    requires rows != [] && rows' != [] && Counted(curCap, maxCap, size, c, rows)
    requires c'.cap == c.cap && (rows[0].second != [] ==> rows'[0].second != [])
    ensures Counted(curCap, maxCap, size, c', rows')
  {
  }

  lemma CountedLess(curCap: int, maxCap: int, size: int, c: Cache, rows: Rows, c': Cache, rows': Rows)
    requires rows != [] && rows' != [] && Counted(curCap, maxCap, size, c, rows)
    requires c'.cap == c.cap && 1 <= size
    ensures Counted(curCap - 1, maxCap, size - 1, c', rows')
  {
  }

  lemma OneMoreBucket(list: seq<Bucket>, i: nat, it: Bucket)
    requires i < |list|
    ensures forall b | b in list[..i + 1] + [it] + list[i + 1..] :: b in list || b == it
  {
  }

  class MTHawkeyeLFUCache {
    var maxCap: int
    var curCap: int
    var mList: seq<Bucket>
    var uMap: map<Key, LFUMapValue>
    ghost var rows: Rows
    ghost var model: Cache

    /** `rows` is what the bucket list holds. */
    ghost predicate Mirrored()
      reads `rows, `mList, mList
    {
      && |rows| == |mList|
      && forall i | 0 <= i < |mList| :: rows[i] == Row(mList[i], mList[i].first, mList[i].second)
    }

    ghost predicate Valid()
      reads this, mList
    {
      Mirrored() && rows != [] && Stamped(model) && Inv(rows, uMap, model.entries) && Counted(curCap, maxCap, |uMap|, model, rows)
    }

    /** One bucket and its row. */
    lemma AtRow(i: nat)
      requires Mirrored() && (i < |mList| || i < |rows|)
      ensures |rows| == |mList| && rows[i] == Row(mList[i], mList[i].first, mList[i].second)
    {
    }

    /** A bucket that is not in the list has no row. */
    lemma RowsAreListed(b: Bucket)
      requires Mirrored() && b !in mList
      ensures forall r | r in rows :: r.bucket != b
    {
    }

    constructor (capacity: int)
      ensures Valid() && fresh(mList)
      ensures model == Cache(capacity, 0, map[])
    {
      var front := new Bucket(1, []);
      curCap := 0;
      maxCap := capacity;
      mList := [front];
      uMap := map[];
      rows := [Row(front, 1, [])];
      model := Cache(capacity, 0, map[]);
    }

    /** Time goes by: an operation that touches no key. */
    ghost method Advance()
      requires Valid()
      modifies this`model
      ensures Valid() && model == Tick(old(model))
    {
      hide Inv, Stamped;
      TickFacts(model);
      model := Tick(model);
    }

    /** Where the two positions of a mapped key point. */
    method Locate(key: Key) returns (i: nat, p: nat)
      requires Valid() && key in uMap
      ensures i < |mList| && mList[i] == uMap[key].mainIt
      ensures p < |mList[i].second| && mList[i].second[p] == uMap[key].subIt
      ensures uMap[key].subIt.key == key
    {
      assert Placed(rows, key, uMap[key]);
      i :| 0 <= i < |mList| && mList[i] == uMap[key].mainIt;
      PlacedHere(rows, uMap, model.entries, i, key);
      p :| 0 <= p < |mList[i].second| && mList[i].second[p] == uMap[key].subIt;
    }

    /** The bucket's only key: the count is raised in place. */
    method BumpBucket(key: Key, ghost i: nat)
      requires Valid() && key in uMap
      requires i < |mList| && mList[i] == uMap[key].mainIt && |mList[i].second| == 1
      requires i + 1 < |mList| ==> mList[i].first + 1 < mList[i + 1].first
      modifies this`rows, this`model, uMap[key].mainIt`first
      ensures Valid() && model == Touch(old(model), key)
    {
      hide Inv, Stamped, BumpInPlace, Touch;
      DistinctBuckets(rows, uMap, model.entries);
      BumpInPlaceInv(rows, uMap, model, i, key);
      BumpAsUpdate(rows, i);
      TouchFacts(model, key);
      var pre := uMap[key].mainIt;
      pre.first := pre.first + 1;
      rows := rows[i := Bumped(rows[i])];
      model := Touch(model, key);
      assert Mirrored();
      assert rows[0].second == old(rows)[0].second;
    }

    /** Splices the node at a position to the front of the next bucket; an emptied bucket is erased. */
    method SpliceAndErase(i: nat, p: nat)
      requires Mirrored() && Distinct(rows) && i + 1 < |mList| && p < |mList[i].second|
      modifies this`rows, this`mList, mList
      ensures Mirrored() && rows == MoveToNext(old(rows), i, p)
      ensures mList == old(mList) || mList == old(mList)[..i] + old(mList)[i + 1..]
    {
      hide MoveToNext;
      NextAsUpdate(rows, i, p);
      var pre, next := mList[i], mList[i + 1];
      var node := pre.second[p];
      pre.second := Cut(pre.second, p);
      next.second := [node] + next.second;
      rows := rows[i := Left(rows[i], p)][i + 1 := Pushed(rows[i + 1], node)];
      assert Mirrored();
      if |pre.second| == 0 {
        mList := mList[..i] + mList[i + 1..];
        rows := rows[..i] + rows[i + 1..];
      }
    }

    method SpliceToNext(key: Key, i: nat, p: nat)
      requires Valid() && key in uMap
      requires i + 1 < |mList| && mList[i] == uMap[key].mainIt && mList[i].first + 1 == mList[i + 1].first
      requires p < |mList[i].second| && mList[i].second[p] == uMap[key].subIt
      modifies this`rows, this`model, this`mList, this`uMap, mList
      ensures Valid() && model == Touch(old(model), key)
      ensures uMap.Keys == old(uMap.Keys) && uMap[key].value == old(uMap[key].value)
      ensures forall b | b in mList :: b in old(mList)
    {
      hide Inv, Stamped, Touch, MoveToNew, MoveToNext, Mirrored, Counted;
      AtRow(i);
      AtRow(i + 1);
      DistinctBuckets(rows, uMap, model.entries);
      FrontStays(rows, i, p, mList[i], mList[i].second[p]);
      MoveToNextInv(rows, uMap, model, i, p, key);
      TouchFacts(model, key);
      CountedStill(curCap, maxCap, |uMap|, model, rows, Touch(model, key), MoveToNext(rows, i, p));
      var next := mList[i + 1];
      SpliceAndErase(i, p);
      uMap := uMap[key := uMap[key].(mainIt := next)];
      model := Touch(model, key);
    }

    /** Links a new bucket behind the `i`th and moves a node, as `node`, into it. */
    method EmplaceAndSplice(i: nat, p: nat, it: Bucket, node: KeyNode)
      requires Mirrored() && Distinct(rows) && it !in mList
      requires i < |mList| && p < |mList[i].second| && it.second == [] && it.first == mList[i].first + 1
      modifies this`rows, this`mList, mList, it
      ensures Mirrored() && rows == MoveToNew(old(rows), i, p, it, node)
      ensures mList == old(mList)[..i + 1] + [it] + old(mList)[i + 1..]
    {
      hide MoveToNew;
      NewAsUpdate(rows, i, p, it, node);
      mList := mList[..i + 1] + [it] + mList[i + 1..];
      rows := Emplaced(rows, i, Row(it, it.first, it.second));
      assert Mirrored();
      mList[i].second := Cut(mList[i].second, p);
      it.second := [node] + it.second;
      rows := rows[i := Left(rows[i], p)][i + 1 := Row(it, it.first, it.second)];
    }

    /** The key moves, as `node`, to a new bucket behind its old one. */
    method SpliceToNew(key: Key, i: nat, p: nat, node: KeyNode)
      requires Valid() && key in uMap && node.key == key
      requires i < |mList| && mList[i] == uMap[key].mainIt && |mList[i].second| != 1
      requires i + 1 < |mList| ==> mList[i].first + 1 < mList[i + 1].first
      requires p < |mList[i].second| && mList[i].second[p] == uMap[key].subIt
      modifies this`rows, this`model, this`mList, this`uMap, mList
      ensures Valid() && model == Touch(old(model), key)
      ensures uMap.Keys == old(uMap.Keys) && uMap[key].value == old(uMap[key].value)
      ensures forall b | b in mList :: b in old(mList) || fresh(b)
    {
      hide Inv, Stamped, Touch, MoveToNew, MoveToNext, Mirrored, Counted;
      AtRow(i);
      if i + 1 < |mList| { AtRow(i + 1); }
      DistinctBuckets(rows, uMap, model.entries);
      TouchFacts(model, key);
      var it := new Bucket(mList[i].first + 1, []);
      RowsAreListed(it);
      FrontStays(rows, i, p, it, node);
      MoveToNewInv(rows, uMap, model, i, p, key, it, node);
      CountedStill(curCap, maxCap, |uMap|, model, rows, Touch(model, key), MoveToNew(rows, i, p, it, node));
      OneMoreBucket(mList, i, it);
      EmplaceAndSplice(i, p, it, node);
      uMap := uMap[key := uMap[key].(mainIt := it, subIt := node)];
      model := Touch(model, key);
    }

    /** The next bucket's count is at least one more. */
    lemma NextCount()
      requires Valid()
      ensures forall i | 0 <= i < |mList| - 1 :: mList[i].first + 1 <= mList[i + 1].first
    {
    }

    /** One more touch of a mapped key. */
    method RightMove(key: Key)
      requires Valid() && key in uMap
      modifies this`rows, this`model, this`mList, this`uMap, mList
      ensures Valid() && model == Touch(old(model), key)
      ensures uMap.Keys == old(uMap.Keys) && uMap[key].value == old(uMap[key].value)
      ensures forall b | b in mList :: b in old(mList) || fresh(b)
    {
      hide Inv, Touch, Stamped, Mirrored;
      var i, p := Locate(key);
      NextCount();
      var pre := mList[i];
      if i + 1 < |mList| {
        if pre.first + 1 != mList[i + 1].first {
          if |pre.second| == 1 {
            BumpBucket(key, i);
          } else {
            SpliceToNew(key, i, p, pre.second[p]);
          }
        } else {
          SpliceToNext(key, i, p);
        }
      } else {
        if |pre.second| == 1 {
          BumpBucket(key, i);
        } else {
          // The temporary list is copied into the list, so the new bucket holds a new node.
          var copied := new KeyNode(pre.second[p].key);
          SpliceToNew(key, i, p, copied);
        }
      }
    }

    method Get(key: Key) returns (r: DlInfo)
      requires Valid()
      modifies this, mList
      ensures Valid()
      ensures r == Answer(old(model), key)
      ensures r == if key in old(uMap) then old(uMap[key].value) else NO_INFO
      ensures model == Step(old(model), Op.Get(key))
      ensures forall b | b in mList :: b in old(mList) || fresh(b)
    {
      hide Inv, Stamped;
      KeysAgree(rows, uMap, model.entries);
      if key !in uMap {
        Advance();
        return NO_INFO;
      }
      RightMove(key);
      r := uMap[key].value;
    }

    method Put(key: Key, value: DlInfo)
      requires Valid()
      modifies this, mList
      ensures Valid()
      ensures model == Step(old(model), Op.Put(key, value))
      ensures forall b | b in mList :: b in old(mList) || fresh(b)
    {
      hide Inv, Stamped;
      KeysAgree(rows, uMap, model.entries);
      if maxCap == 0 {
        Advance();
        return;
      }
      if key !in uMap {
        if curCap == maxCap {
          if |mList[0].second| > 0 {
            Evict();
          }
        }
        InsertNew(key, value);
      } else {
        SetValueInv(rows, uMap, model, key, value);
        uMap := uMap[key := uMap[key].(value := value)];
        model := SetValue(model, key, value);
        RightMove(key);
      }
    }

    /** The key at the back of the front bucket goes. */
    method Evict()
      requires Valid() && maxCap != 0 && curCap == maxCap
      modifies this`rows, this`model, this`uMap, this`curCap, mList
      ensures Valid() && mList == old(mList) && curCap != maxCap
      ensures model == MakeRoom(old(model)) && uMap.Keys <= old(uMap).Keys
    {
      hide Inv, Stamped;
      BackPlaced(rows, uMap, model);
      BackIsVictim(rows, uMap, model);
      KeysAgree(rows, uMap, model.entries);
      assert |model.entries.Keys| == |uMap.Keys|;
      var last := |mList[0].second| - 1;
      DropAt(mList[0].second[last].key, 0, last);
    }

    /** Puts a node in front of the bucket of count 1; there is one after this, `front` if need be. */
    method PushFront(front: Bucket, node: KeyNode)
      requires Mirrored() && Distinct(rows) && mList != []
      requires front !in mList && front.first == 1 && front.second == []
      modifies this`rows, this`mList, mList, front
      ensures Mirrored() && rows == InsertFront(old(rows), front, node)
      ensures mList == if old(mList[0].first) == 1 then old(mList) else [front] + old(mList)
    {
      hide InsertFront;
      InsertFrontAsUpdate(rows, front, node);
      if mList[0].first != 1 {
        mList := [front] + mList;
        rows := [Row(front, 1, [])] + rows;
      }
      mList[0].second := [node] + mList[0].second;
      rows := rows[0 := Pushed(rows[0], node)];
    }

    /** A new key enters a cache that has room. */
    method InsertNew(key: Key, value: DlInfo)
      requires Valid() && maxCap != 0 && curCap != maxCap && key !in uMap
      modifies this, mList
      ensures Valid() && model == Insert(old(model), key, value)
      ensures forall b | b in mList :: b in old(mList) || fresh(b)
    {
      hide Inv, Stamped, Insert, InsertFront, Mirrored;
      AtRow(0);
      DistinctBuckets(rows, uMap, model.entries);
      var node := new KeyNode(key);
      var front := new Bucket(1, []);
      RowsAreListed(front);
      var mapValue := LFUMapValue(value, if mList[0].first == 1 then mList[0] else front, node);
      InsertFrontInv(rows, uMap, model, front, node, mapValue);
      InsertFacts(model, key, value);
      InsertFrontAsUpdate(rows, front, node);
      curCap := curCap + 1;
      PushFront(front, node);
      uMap := uMap[key := mapValue];
      model := Insert(model, key, value);
    }

    method RemoveKey(key: Key)
      requires Valid()
      modifies this, mList
      ensures Valid() && mList == old(mList)
      ensures model == Step(old(model), Op.Remove(key))
    {
      hide Inv, Stamped;
      if key in uMap {
        var i, p := Locate(key);
        DropAt(key, i, p);
      } else {
        KeysAgree(rows, uMap, model.entries);
        WithoutAbsent(model, key);
      }
      assert model == Without(old(model), key);
      Advance();
    }

    /** Erases the node at a position from its bucket. */
    method UnlinkAt(i: nat, p: nat)
      requires Mirrored() && Distinct(rows) && i < |mList| && p < |mList[i].second|
      modifies this`rows, mList
      ensures Mirrored() && rows == Unlinked(old(rows), i, p) && rows != []
    {
      mList[i].second := Cut(mList[i].second, p);
      rows := Unlinked(rows, i, p);
    }

    /** The key at a position goes; its bucket stays, empty or not. */
    method DropAt(key: Key, i: nat, p: nat)
      requires Valid() && key in uMap
      requires i < |mList| && mList[i] == uMap[key].mainIt
      requires p < |mList[i].second| && mList[i].second[p] == uMap[key].subIt
      modifies this`rows, this`model, this`uMap, this`curCap, mList
      ensures Valid() && model == Without(old(model), key)
      ensures curCap == old(curCap) - 1 && uMap == old(uMap) - {key}
    {
      hide Inv, Stamped, Mirrored, Counted;
      AtRow(i);
      DistinctBuckets(rows, uMap, model.entries);
      UnlinkedInv(rows, uMap, model.entries, i, p, key);
      DropFacts(model, key);
      SizeOfDrop(uMap, key);
      CountedLess(curCap, maxCap, |uMap|, model, rows, Without(model, key), Unlinked(rows, i, p));
      UnlinkAt(i, p);
      uMap := uMap - {key};
      curCap := curCap - 1;
      model := Without(model, key);
    }

    method Clear()
      requires Valid()
      modifies this
      ensures Valid() && fresh(mList)
      ensures model == Step(old(model), Op.Clear)
    {
      hide Inv, Stamped;
      var front := new Bucket(1, []);
      EmptyInv(front);
      mList := [front];
      rows := [Row(front, 1, [])];
      uMap := map[];
      curCap := 0;
      model := Step(model, Op.Clear);
    }
  }
}
