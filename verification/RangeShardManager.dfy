/** The manager of the range shards: the map, the cached sorted list and the passes over them. */
module RangeShardManager {
  import opened Sequences
  import opened Wrappers
  import opened ByteStrings
  import opened RangeShards
  import opened RangeShardLaws

  /** The shards of the map, each once, in some order. */
  ghost predicate Snapshot(all: seq<Shard>, m: ShardMap) {
    && |all| == |m.Keys|
    && (forall i :: 0 <= i < |all| ==> all[i].id in m && m[all[i].id] == all[i])
    && (forall i, j :: 0 <= i < j < |all| ==> all[i].id != all[j].id)
    && (forall id :: id in m ==> m[id] in all)
  }

  predicate WantsSplit(sh: Shard) {
    !sh.isSplitting && !sh.isMerging && OverThreshold(sh)
  }

  /** What splitting the shards of a snapshot, one after the other, makes of a map. */
  function SplitPass(m: ShardMap, s: seq<Shard>, now: int): ShardMap
    decreases |s|
  {
    if s == [] then m
    else
      var sh, m' := s[|s| - 1], SplitPass(m, s[..|s| - 1], now);
      if WantsSplit(sh) then SplitMap(m', sh, now) else m'
  }

  /** What merging the first i pairs of a list that qualify makes of a map. */
  function MergedPairs(m: ShardMap, s: seq<Shard>, i: nat, now: int): ShardMap
    requires i == 0 || i < |s|
  {
    if i == 0 then m
    else
      var m' := MergedPairs(m, s, i - 1, now);
      if Qualifies(s[i - 1], s[i]) then MergeMap(m', s[i - 1], s[i], now) else m'
  }

  function MergePass(m: ShardMap, s: seq<Shard>, now: int): ShardMap {
    MergedPairs(m, s, if s == [] then 0 else |s| - 1, now)
  }

  /** Two new shards have taken the place of the old one: they share its range at the split key, hold half its
      documents and bytes each, and are otherwise fresh copies of it. */
  ghost predicate HalvedInto(sh: Shard, m: ShardMap, now: int) {
    && sh.id !in m && sh.id + "_left" in m && sh.id + "_right" in m
    && (var left, right := m[sh.id + "_left"], m[sh.id + "_right"];
        && left.id == sh.id + "_left" && left.name == sh.name + "_left"
        && right.id == sh.id + "_right" && right.name == sh.name + "_right"
        && left.startKey == sh.startKey && left.endKey == SplitKey(sh.startKey, sh.endKey)
        && right.startKey == SplitKey(sh.startKey, sh.endKey) && right.endKey == sh.endKey
        && HalfOf(left, sh, now) && HalfOf(right, sh, now))
  }

  predicate HalfOf(half: Shard, sh: Shard, now: int) {
    && !half.isSplitting && !half.isMerging && half.status == "active"
    && half.nodes == sh.nodes && half.leaderNode == sh.leaderNode
    && half.createdAt == now && half.updatedAt == now && half.lastRebalanced == now
    && (sh.sizeBytes >= 0 ==> half.sizeBytes == sh.sizeBytes / 2)
    && (sh.documentCount >= 0 ==> half.documentCount == sh.documentCount / 2)
  }

  /** A split pass replaces the shard if it is neither splitting nor merging, has both keys, and holds more than
      100 MiB or more than a million documents; otherwise it leaves it as it is. */
  ghost predicate SplitIfLarge(sh: Shard, m: ShardMap, now: int) {
    if !sh.isSplitting && !sh.isMerging && sh.startKey != [] && sh.endKey != []
       && (sh.sizeBytes > 104857600 || sh.documentCount > 1000000)
    then HalvedInto(sh, m, now)
    else Live(m, sh)
  }

  ghost predicate IsHalf(id: ShardId, start: ShardMap, m: ShardMap) {
    exists jd :: jd in start && jd !in m && (id == jd + "_left" || id == jd + "_right")
  }

  /** What a split pass does, and that it does nothing else. */
  ghost predicate SplitByNumbers(start: ShardMap, m: ShardMap, now: int) {
    && (forall id :: id in start ==> SplitIfLarge(start[id], m, now))
    && (forall id :: id in m ==> id in start || IsHalf(id, start, m))
  }

  /** Two neighbours that a merge pass merges: neither is splitting or merging, one ends where the other begins,
      and together they hold less than 10 MiB and less than 100,000 documents. */
  predicate SmallNeighbours(a: Shard, b: Shard) {
    && !a.isSplitting && !a.isMerging && !b.isSplitting && !b.isMerging && a.endKey == b.startKey
    && a.sizeBytes + b.sizeBytes < 10485760 && a.documentCount + b.documentCount < 100000
  }

  /** One new shard spans the two and holds all of both. */
  ghost predicate MergedInto(a: Shard, b: Shard, m: ShardMap, now: int) {
    && a.id + "_merged" in m
    && (var c := m[a.id + "_merged"];
        && c.id == a.id + "_merged" && c.name == a.name + "_merged"
        && c.startKey == a.startKey && c.endKey == b.endKey
        && c.sizeBytes == a.sizeBytes + b.sizeBytes && c.documentCount == a.documentCount + b.documentCount
        && !c.isSplitting && !c.isMerging && c.status == "active" && c.nodes == a.nodes && c.leaderNode == a.leaderNode
        && c.createdAt == now && c.updatedAt == now && c.lastRebalanced == now)
  }

  predicate SmallPairAt(s: seq<Shard>, i: int) {
    0 <= i && i + 1 < |s| && SmallNeighbours(s[i], s[i + 1])
  }

  /** A small pair of the list has been merged, and its two shards are gone. */
  ghost predicate PairMerged(s: seq<Shard>, m: ShardMap, i: int, now: int) {
    SmallPairAt(s, i) ==> MergedInto(s[i], s[i + 1], m, now) && s[i].id !in m && s[i + 1].id !in m
  }

  /** A shard of no small pair is as it was. */
  ghost predicate SingleKept(s: seq<Shard>, m: ShardMap, j: int) {
    0 <= j < |s| && !SmallPairAt(s, j - 1) && !SmallPairAt(s, j) ==> Live(m, s[j])
  }

  ghost predicate IsMergedPair(id: ShardId, s: seq<Shard>) {
    exists i :: SmallPairAt(s, i) && id == s[i].id + "_merged"
  }

  /** What a merge pass over the sorted list does, and that it does nothing else. */
  ghost predicate MergedByNumbers(s: seq<Shard>, start: ShardMap, m: ShardMap, now: int) {
    && (forall i :: PairMerged(s, m, i, now))
    && (forall j :: SingleKept(s, m, j))
    && (forall id :: id in m ==> id in start || IsMergedPair(id, s))
  }

  lemma SplitPassNext(m: ShardMap, s: seq<Shard>, i: nat, now: int)
    requires i < |s|
    ensures var m' := SplitPass(m, s[..i], now);
      SplitPass(m, s[..i + 1], now) == if WantsSplit(s[i]) then SplitMap(m', s[i], now) else m'
  {
    assert s[..i + 1][..i] == s[..i] && s[..i + 1][i] == s[i];
  }

  lemma MergedPairsNext(m: ShardMap, s: seq<Shard>, i: nat, now: int)
    requires i + 1 < |s|
    ensures var m' := MergedPairs(m, s, i, now);
      MergedPairs(m, s, i + 1, now) == if Qualifies(s[i], s[i + 1]) then MergeMap(m', s[i], s[i + 1], now) else m'
  {
  }

  class RangeShardManager {
    var shards: ShardMap
    var sortedShards: seq<Shard>

    ghost predicate Valid()
      reads this
    {
      Keyed(shards) && SortedView(sortedShards, shards)
    }

    constructor ()
      ensures Valid() && shards == map[]
    {
      shards := map[];
      sortedShards := [];
    }

    /** All shards, in whatever order the map yields them. */
    method GetAllShards() returns (all: seq<Shard>)
      requires Keyed(shards)
      ensures Snapshot(all, shards)
    {
      all := [];
      var rest := shards.Keys;
      while rest != {}
        invariant rest <= shards.Keys && |all| + |rest| == |shards.Keys|
        invariant forall i :: 0 <= i < |all| ==> all[i].id in shards && shards[all[i].id] == all[i]
        invariant forall i :: 0 <= i < |all| ==> all[i].id !in rest
        invariant forall i, j :: 0 <= i < j < |all| ==> all[i].id != all[j].id
        invariant forall id :: id in shards && id !in rest ==> shards[id] in all
        decreases |rest|
      {
        var id :| id in rest;
        rest := rest - {id};
        all := all + [shards[id]];
      }
    }

    /** Rebuilds the cached list. */
    method UpdateSortedShards()
      requires Keyed(shards)
      modifies this`sortedShards
      ensures SortedView(sortedShards, shards)
    {
      var all := GetAllShards();
      sortedShards := SortSlice(all);
      SortedPermutation(all, sortedShards, shards);
    }

    method SplitShard(sh: Shard, now: int) returns (ok: bool)
      requires Valid()
      modifies this
      ensures Valid()
      ensures ok == (SplitKey(sh.startKey, sh.endKey) != [])
      ensures shards == SplitMap(old(shards), sh, now)
      ensures !ok ==> sortedShards == old(sortedShards)
    {
      var splitKey := FindSplitKey(sh);
      if splitKey == [] {
        return false;
      }
      var left := LeftHalf(sh, splitKey, now);
      var right := RightHalf(sh, splitKey, now);
      var newShards := shards - {sh.id};
      newShards := newShards[left.id := left];
      newShards := newShards[right.id := right];
      shards := newShards;
      UpdateSortedShards();
      ok := true;
    }

    method MergeShards(a: Shard, b: Shard, now: int)
      requires Valid()
      modifies this
      ensures Valid()
      ensures shards == MergeMap(old(shards), a, b, now)
    {
      var merged := Merged(a, b, now);
      var newShards := shards - {a.id, b.id};
      newShards := newShards[merged.id := merged];
      shards := newShards;
      UpdateSortedShards();
    }

    method Rebalance(now: int)
      requires Valid()
      modifies this
      ensures Valid()
      ensures shards == RebalanceMap(old(shards), now)
    {
      shards := map id | id in shards :: shards[id].(lastRebalanced := now, updatedAt := now);
      UpdateSortedShards();
    }

    /** One pass of the split monitor, from whatever state: the shards as they were when the pass began, in whatever
        order the map yields them, are split one after the other if they want to be. */
    method CheckAndSplit(now: int) returns (ghost snapshot: seq<Shard>)
      requires Valid()
      modifies this
      ensures Valid()
      ensures Snapshot(snapshot, old(shards)) && shards == SplitPass(old(shards), snapshot, now)
      ensures Good(old(shards)) ==> SplitByNumbers(old(shards), shards, now)
    {
      var all := GetAllShards();
      snapshot := all;
      for i := 0 to |all|
        invariant Valid() && shards == SplitPass(old(shards), all[..i], now)
      {
        SplitPassNext(old(shards), all, i, now);
        var sh := all[i];
        if sh.isSplitting || sh.isMerging {
          continue;
        }
        if sh.sizeBytes > SIZE_THRESHOLD || sh.documentCount > COUNT_THRESHOLD {
          var _ := SplitShard(sh, now);
        }
      }
      assert all[..|all|] == all;
      if Good(old(shards)) {
        SplitPassByNumbers(old(shards), all, now);
      }
    }

    /** One pass of the merge monitor, from whatever state: it walks the list as it was when the pass began and merges
        each two neighbours of that list that qualify, live or not. */
    method CheckAndMerge(now: int)
      requires Valid()
      modifies this
      ensures Valid()
      ensures shards == MergePass(old(shards), old(sortedShards), now)
      ensures Good(old(shards)) ==> MergedByNumbers(old(sortedShards), old(shards), shards, now)
    {
      MergePassByNumbers(shards, sortedShards, now);
      MergeSmallNeighbours(now);
    }

    /** The walk over the list as it was. */
    method MergeSmallNeighbours(now: int)
      requires Valid()
      modifies this
      ensures Valid()
      ensures shards == MergePass(old(shards), old(sortedShards), now)
    {
      var snapshot := sortedShards;
      ghost var start := shards;
      var i := 0;
      while i < |snapshot| - 1
        invariant 0 <= i && (snapshot != [] ==> i < |snapshot|) && (snapshot == [] ==> i == 0)
        invariant Valid() && shards == MergedPairs(start, snapshot, i, now)
        decreases |snapshot| - i
      {
        MergedPairsNext(start, snapshot, i, now);
        var a, b := snapshot[i], snapshot[i + 1];
        i := i + 1;
        if a.isSplitting || a.isMerging || b.isSplitting || b.isMerging {
          continue;
        }
        if a.endKey != b.startKey {
          continue;
        }
        var totalSize := a.sizeBytes + b.sizeBytes;
        var totalDocs := a.documentCount + b.documentCount;
        if totalSize < MIN_SHARD_SIZE && totalDocs < COUNT_THRESHOLD / 10 {
          MergeShards(a, b, now);
        }
      }
    }

    /** The first shard of the sorted list that covers the key. */
    method GetShard(key: Key) returns (r: Option<Shard>)
      requires Valid()
      ensures r.Some? ==> r.value.id in shards && shards[r.value.id] == r.value && Covers(r.value, key)
      ensures r.Some? ==> !Less(key, r.value.startKey) && (r.value.endKey == [] || Less(key, r.value.endKey))
      ensures r.None? ==> forall id :: id in shards ==> !Covers(shards[id], key)
      ensures Partition(shards) && r.Some? ==> forall id :: id in shards && Covers(shards[id], key) ==> id == r.value.id
    {
      for i := 0 to |sortedShards|
        invariant forall j :: 0 <= j < i ==> !Covers(sortedShards[j], key)
      {
        if Covers(sortedShards[i], key) {
          var sh := sortedShards[i];
          forall id | Partition(shards) && id in shards && Covers(shards[id], key)
            ensures id == sh.id
          {
            if id != sh.id {
              DisjointRanges(sh, shards[id], key);
            }
          }
          return Some(sh);
        }
      }
      return None;
    }
  }

  // ---------- What the passes pick ----------

  /** A shard that a split pass replaces: over a threshold, not flagged, and bounded on both sides. */
  predicate Picked(sh: Shard) {
    WantsSplit(sh) && sh.startKey != [] && sh.endKey != []
  }

  ghost predicate PickedAreSplittable(m: ShardMap) {
    forall id :: id in m && Picked(m[id]) ==> Splittable(m[id].startKey, m[id].endKey)
  }

  ghost predicate HalvesIn(m: ShardMap, sh: Shard, now: int) {
    var k := SplitKey(sh.startKey, sh.endKey);
    && sh.id !in m
    && sh.id + "_left" in m && m[sh.id + "_left"] == LeftHalf(sh, k, now)
    && sh.id + "_right" in m && m[sh.id + "_right"] == RightHalf(sh, k, now)
  }

  /** The same keys have an owner. */
  ghost predicate SameKeys(m: ShardMap, m': ShardMap) {
    forall key: Key :: Owned(m, key) <==> Owned(m', key)
  }

  ghost predicate Live(m: ShardMap, sh: Shard) {
    sh.id in m && m[sh.id] == sh
  }

  /** How far a split pass over the snapshot has come after its first i shards. */
  ghost predicate SplitSoFar(m: ShardMap, s: seq<Shard>, i: nat, now: int) {
    forall j :: 0 <= j < |s| ==> if j < i && Picked(s[j]) then HalvesIn(m, s[j], now) else Live(m, s[j])
  }

  /** Splitting another live shard leaves the halves of an earlier split alone. */
  lemma HalvesSurvive(m: ShardMap, gone: Shard, sh: Shard, now: int)
    requires Keyed(m) && PrefixFree(m.Keys) && HalvesIn(m, gone, now)
    requires Live(m, sh) && SplitKey(sh.startKey, sh.endKey) != []
    requires !(gone.id <= sh.id) && !(sh.id <= gone.id)
    ensures HalvesIn(SplitMap(m, sh, now), gone, now)
  {
    SplitKeepsIds(m, sh, now);
  }

  /** The halves of a shard that is not splittable are no partition: one of them is empty. */
  lemma BadHalves(m: ShardMap, sh: Shard, now: int)
    requires HalvesIn(m, sh, now) && Picked(sh) && !Splittable(sh.startKey, sh.endKey)
    ensures !Partition(m)
  {
    SplitKeyInside(sh.startKey, sh.endKey);
    assert SplitKey(sh.startKey, sh.endKey) != [];
    assert !NonEmpty(m[sh.id + "_left"]) || !NonEmpty(m[sh.id + "_right"]);
  }

  lemma SplitKeepsSoFar(start: ShardMap, m: ShardMap, s: seq<Shard>, i: nat, now: int)
    requires PrefixFree(start.Keys) && Keyed(m) && PrefixFree(m.Keys) && i < |s| && SplitSoFar(m, s, i, now)
    requires forall j :: 0 <= j < |s| ==> Live(start, s[j])
    requires forall j, k :: 0 <= j < k < |s| ==> s[j].id != s[k].id
    requires Picked(s[i])
    ensures SplitSoFar(SplitMap(m, s[i], now), s, i + 1, now)
  {
    var m' := SplitMap(m, s[i], now);
    assert Live(m, s[i]);
    SplitKeepsIds(m, s[i], now);
    forall j | 0 <= j < |s|
      ensures if j < i + 1 && Picked(s[j]) then HalvesIn(m', s[j], now) else Live(m', s[j])
    {
      if j == i {
        SuffixesDiffer(s[i].id);
        assert s[i].id != s[i].id + "_left" && s[i].id != s[i].id + "_right";
      } else if j < i && Picked(s[j]) {
        assert Live(start, s[i]) && Live(start, s[j]) && s[i].id != s[j].id;
        HalvesSurvive(m, s[j], s[i], now);
      } else {
        assert Live(m, s[j]) && s[i].id != s[j].id;
      }
    }
  }

  lemma SplitKeepsKeys(m: ShardMap, sh: Shard, now: int)
    requires Good(m) && Live(m, sh) && Splittable(sh.startKey, sh.endKey)
    ensures Good(SplitMap(m, sh, now)) && SameKeys(SplitMap(m, sh, now), m)
  {
    SplittableHasKey(sh.startKey, sh.endKey);
    SplitKeepsPartition(m, sh, now);
    forall key: Key
      ensures Owned(SplitMap(m, sh, now), key) <==> Owned(m, key)
    {
      SplitOwners(m, sh, now, key);
    }
  }

  lemma SplitPassStep(start: ShardMap, m: ShardMap, s: seq<Shard>, i: nat, now: int)
    requires PrefixFree(start.Keys) && Keyed(m) && PrefixFree(m.Keys) && i < |s| && SplitSoFar(m, s, i, now)
    requires forall j :: 0 <= j < |s| ==> Live(start, s[j])
    requires forall j, k :: 0 <= j < k < |s| ==> s[j].id != s[k].id
    requires PickedAreSplittable(start) ==> Good(m)
    ensures var m' := if Picked(s[i]) then SplitMap(m, s[i], now) else m;
      && Keyed(m') && PrefixFree(m'.Keys) && SplitSoFar(m', s, i + 1, now)
      && (PickedAreSplittable(start) ==> Good(m') && SameKeys(m', m))
  {
    if Picked(s[i]) {
      assert Live(m, s[i]) && Live(start, s[i]);
      SplitKeepsIds(m, s[i], now);
      SplitKeepsSoFar(start, m, s, i, now);
      if PickedAreSplittable(start) {
        SplitKeepsKeys(m, s[i], now);
      }
    }
  }

  lemma {:induction false} SplitPassSoFar(start: ShardMap, s: seq<Shard>, i: nat, now: int)
    requires Good(start) && Snapshot(s, start) && i <= |s|
    ensures var m := SplitPass(start, s[..i], now);
      && Keyed(m) && PrefixFree(m.Keys) && SplitSoFar(m, s, i, now)
      && (PickedAreSplittable(start) ==> Good(m) && SameKeys(m, start))
    decreases i
  {
    if i > 0 {
      SplitPassSoFar(start, s, i - 1, now);
      SplitPassStep(start, SplitPass(start, s[..i - 1], now), s, i - 1, now);
      PassUnfolds(start, s, i, now);
    }
  }

  /** A shard that wants to be split but has an open end has no split key, so nothing happens to it. */
  lemma PassUnfolds(start: ShardMap, s: seq<Shard>, i: nat, now: int)
    requires 0 < i <= |s|
    ensures var m := SplitPass(start, s[..i - 1], now);
      SplitPass(start, s[..i], now) == if Picked(s[i - 1]) then SplitMap(m, s[i - 1], now) else m
  {
    SplitPassNext(start, s, i - 1, now);
  }

  /** A split pass over a partition replaces exactly the shards it picks by their halves, leaves all others, and keeps
      the ranges a partition, of the same keys, exactly when every picked shard was splittable. */
  lemma SplitPassMeaning(start: ShardMap, s: seq<Shard>, now: int)
    requires Good(start) && Snapshot(s, start)
    ensures var m := SplitPass(start, s, now);
      && PrefixFree(m.Keys)
      && (Good(m) <==> PickedAreSplittable(start))
      && (PickedAreSplittable(start) ==> SameKeys(m, start))
      && (forall id :: id in start && !Picked(start[id]) ==> Live(m, start[id]))
      && (forall id :: id in start && Picked(start[id]) ==> HalvesIn(m, start[id], now))
  {
    SplitPassSoFar(start, s, |s|, now);
    assert s[..|s|] == s;
    var m := SplitPass(start, s, now);
    if !PickedAreSplittable(start) {
      var id :| id in start && Picked(start[id]) && !Splittable(start[id].startKey, start[id].endKey);
      assert start[id] in s;
      BadHalves(m, start[id], now);
    }
  }

  /** Every identifier after the pass was there before, or is that of a half. */
  lemma {:induction false} SplitPassKeys(start: ShardMap, s: seq<Shard>, i: nat, now: int, id: ShardId)
    requires i <= |s| && id in SplitPass(start, s[..i], now) && id !in start
    ensures exists j :: 0 <= j < i && Picked(s[j]) && (id == s[j].id + "_left" || id == s[j].id + "_right")
    decreases i
  {
    if i > 0 {
      PassUnfolds(start, s, i, now);
      if id in SplitPass(start, s[..i - 1], now) {
        SplitPassKeys(start, s, i - 1, now, id);
      }
    }
  }

  lemma HalvesAreHalved(sh: Shard, m: ShardMap, now: int)
    requires HalvesIn(m, sh, now)
    ensures HalvedInto(sh, m, now)
  {
  }

  lemma NewIsHalf(start: ShardMap, s: seq<Shard>, m: ShardMap, now: int, id: ShardId)
    requires Snapshot(s, start) && m == SplitPass(start, s, now) && id in m && id !in start
    requires forall jd :: jd in start && Picked(start[jd]) ==> HalvesIn(m, start[jd], now)
    ensures IsHalf(id, start, m)
  {
    assert s[..|s|] == s;
    SplitPassKeys(start, s, |s|, now, id);
    var j :| 0 <= j < |s| && Picked(s[j]) && (id == s[j].id + "_left" || id == s[j].id + "_right");
    assert s[j].id in start && start[s[j].id] == s[j];
  }

  lemma LargeIsPicked(m: ShardMap, sh: Shard, now: int)
    requires if Picked(sh) then HalvesIn(m, sh, now) else Live(m, sh)
    ensures SplitIfLarge(sh, m, now)
  {
    if Picked(sh) {
      HalvesAreHalved(sh, m, now);
    }
  }

  /** What a split pass over a partition does, in numbers. */
  lemma SplitPassByNumbers(start: ShardMap, s: seq<Shard>, now: int)
    requires Good(start) && Snapshot(s, start)
    ensures SplitByNumbers(start, SplitPass(start, s, now), now)
  {
    var m := SplitPass(start, s, now);
    SplitPassMeaning(start, s, now);
    forall id | id in start
      ensures SplitIfLarge(start[id], m, now)
    {
      LargeIsPicked(m, start[id], now);
    }
    forall id | id in m && id !in start
      ensures IsHalf(id, start, m)
    {
      NewIsHalf(start, s, m, now, id);
    }
  }

  predicate QualifiesAt(s: seq<Shard>, i: nat) {
    i + 1 < |s| && Qualifies(s[i], s[i + 1])
  }

  predicate ChainAt(s: seq<Shard>, i: nat) {
    QualifiesAt(s, i) && QualifiesAt(s, i + 1)
  }

  /** No shard qualifies to merge both with the one before it and with the one after it. */
  ghost predicate NoChain(s: seq<Shard>) {
    forall i: nat :: !ChainAt(s, i)
  }

  /** The shard qualifies with neither neighbour. */
  predicate Loner(s: seq<Shard>, j: nat) {
    j < |s| && !QualifiesAt(s, j) && (j > 0 ==> !QualifiesAt(s, j - 1))
  }

  ghost predicate LonersLive(m: ShardMap, s: seq<Shard>) {
    forall j: nat {:trigger Loner(s, j)} :: Loner(s, j) ==> Live(m, s[j])
  }

  ghost predicate MergedIn(m: ShardMap, a: Shard, b: Shard, now: int) {
    MergedId(a) in m && m[MergedId(a)] == Merged(a, b, now)
  }

  /** The first i pairs of the snapshot that qualify have been merged. */
  ghost predicate MergedSoFar(m: ShardMap, s: seq<Shard>, i: nat, now: int) {
    forall j: nat {:trigger QualifiesAt(s, j)} :: j < i && QualifiesAt(s, j) ==> MergedIn(m, s[j], s[j + 1], now)
  }

  /** The shards that a pass without chains has not merged before step i are live. */
  ghost predicate RestLive(m: ShardMap, s: seq<Shard>, i: nat) {
    forall j: nat :: i <= j < |s| && (j == i && i > 0 ==> !QualifiesAt(s, i - 1)) ==> Live(m, s[j])
  }

  /** The identifier of a merged shard is that of no shard of the list, and of no other merged shard. */
  lemma MergedIdFresh(m: ShardMap, s: seq<Shard>, i: nat, j: nat)
    requires Good(m) && SortedView(s, m) && i < |s| && j < |s|
    ensures MergedId(s[i]) != s[j].id
    ensures i != j ==> MergedId(s[i]) != MergedId(s[j])
  {
    SuffixIsFresh(m.Keys, s[i].id, "_merged");
    if i != j {
      assert s[i].id != s[j].id;
      SuffixInjective(s[i].id, s[j].id, "_merged");
    }
  }

  /** No two shards of the list, and no two that a pass could make of them, get in each other's way. */
  ghost predicate Fresh(s: seq<Shard>) {
    forall i: nat, j: nat {:trigger FreshPair(s, i, j)} :: i < |s| && j < |s| ==> FreshPair(s, i, j)
  }

  predicate FreshPair(s: seq<Shard>, i: nat, j: nat)
    requires i < |s| && j < |s|
  {
    && MergedId(s[i]) != s[j].id
    && (i != j ==> s[i].id != s[j].id && MergedId(s[i]) != MergedId(s[j]))
  }

  /** Each shard of the list lies below the next. */
  ghost predicate Ascending(s: seq<Shard>) {
    forall i: nat {:trigger BelowNext(s, i)} :: i + 1 < |s| ==> BelowNext(s, i)
  }

  predicate BelowNext(s: seq<Shard>, i: nat)
    requires i + 1 < |s|
  {
    Below(s[i], s[i + 1])
  }

  lemma ListIsAscending(m: ShardMap, s: seq<Shard>)
    requires Good(m) && SortedView(s, m)
    ensures Ascending(s)
  {
    forall i: nat | i + 1 < |s|
      ensures BelowNext(s, i)
    {
      SortedIsBelow(m, s, i, i + 1);
    }
  }

  lemma ListIsFresh(m: ShardMap, s: seq<Shard>)
    requires Good(m) && SortedView(s, m)
    ensures Fresh(s) && LonersLive(m, s) && RestLive(m, s, 0)
  {
    forall i: nat, j: nat | i < |s| && j < |s|
      ensures FreshPair(s, i, j)
    {
      MergedIdFresh(m, s, i, j);
    }
  }

  lemma SuffixInjective(a: string, b: string, suffix: string)
    ensures a + suffix == b + suffix ==> a == b
  {
    assert (a + suffix)[..|a|] == a && (b + suffix)[..|b|] == b;
    assert |a + suffix| == |b + suffix| ==> |a| == |b|;
  }

  /** What was merged earlier in the pass stays, whatever merges next. */
  lemma MergedStays(m: ShardMap, s: seq<Shard>, i: nat, j: nat, now: int)
    requires Fresh(s) && j < i && i + 1 < |s| && MergedIn(m, s[j], s[j + 1], now)
    ensures MergedIn(MergeMap(m, s[i], s[i + 1], now), s[j], s[j + 1], now)
  {
    assert FreshPair(s, j, i) && FreshPair(s, j, i + 1);
    OthersStay(m, s[i], s[i + 1], MergedId(s[j]), now);
  }

  lemma MergedSurvives(m: ShardMap, s: seq<Shard>, i: nat, now: int)
    requires Fresh(s) && QualifiesAt(s, i) && MergedSoFar(m, s, i, now)
    ensures MergedSoFar(MergeMap(m, s[i], s[i + 1], now), s, i + 1, now)
  {
    forall j: nat | j < i + 1 && QualifiesAt(s, j)
      ensures MergedIn(MergeMap(m, s[i], s[i + 1], now), s[j], s[j + 1], now)
    {
      if j < i {
        MergedStays(m, s, i, j, now);
      }
    }
  }

  /** A merge leaves every entry alone but the two it takes and the one it makes. */
  lemma OthersStay(m: ShardMap, a: Shard, b: Shard, id: ShardId, now: int)
    requires id in m && id != a.id && id != b.id && id != MergedId(a)
    ensures id in MergeMap(m, a, b, now) && MergeMap(m, a, b, now)[id] == m[id]
  {
  }

  lemma LonerSurvives(m: ShardMap, s: seq<Shard>, i: nat, j: nat, now: int)
    requires Fresh(s) && QualifiesAt(s, i) && Loner(s, j) && Live(m, s[j])
    ensures Live(MergeMap(m, s[i], s[i + 1], now), s[j])
  {
    assert j != i && j != i + 1;
    assert FreshPair(s, i, j) && FreshPair(s, i + 1, j);
    OthersStay(m, s[i], s[i + 1], s[j].id, now);
  }

  lemma LonersSurvive(m: ShardMap, s: seq<Shard>, i: nat, now: int)
    requires Fresh(s) && QualifiesAt(s, i) && LonersLive(m, s)
    ensures LonersLive(MergeMap(m, s[i], s[i + 1], now), s)
  {
    forall j: nat | Loner(s, j)
      ensures Live(MergeMap(m, s[i], s[i + 1], now), s[j])
    {
      LonerSurvives(m, s, i, j, now);
    }
  }

  lemma CleanMergeStep(m: ShardMap, s: seq<Shard>, i: nat, now: int)
    requires Fresh(s) && Ascending(s) && QualifiesAt(s, i)
    requires NoChain(s) && Good(m) && RestLive(m, s, i)
    ensures Good(MergeMap(m, s[i], s[i + 1], now)) && RestLive(MergeMap(m, s[i], s[i + 1], now), s, i + 1)
    ensures SameKeys(MergeMap(m, s[i], s[i + 1], now), m)
    ensures Documents(MergeMap(m, s[i], s[i + 1], now)) == Documents(m)
  {
    assert i > 0 ==> !ChainAt(s, i - 1);
    assert Live(m, s[i]) && Live(m, s[i + 1]);
    assert FreshPair(s, i, i + 1) && BelowNext(s, i);
    MergeKeepsPartition(m, s[i], s[i + 1], now);
    MergeDocuments(m, s[i], s[i + 1], now);
    forall key: Key
      ensures Owned(MergeMap(m, s[i], s[i + 1], now), key) <==> Owned(m, key)
    {
      MergeOwners(m, s[i], s[i + 1], now, key);
    }
    forall j: nat | i + 2 <= j < |s|
      ensures Live(MergeMap(m, s[i], s[i + 1], now), s[j])
    {
      assert Live(m, s[j]) && FreshPair(s, i, j) && FreshPair(s, i + 1, j);
      OthersStay(m, s[i], s[i + 1], s[j].id, now);
    }
  }

  /** In the sorted list of a partition each shard lies below all later ones. */
  lemma SortedIsBelow(m: ShardMap, s: seq<Shard>, i: nat, j: nat)
    requires Good(m) && SortedView(s, m) && i < j < |s|
    ensures Below(s[i], s[j])
  {
    assert s[i].id != s[j].id;
    assert m[s[i].id] == s[i] && m[s[j].id] == s[j];
    if Below(s[j], s[i]) {
      NotLessTransitive(s[j].endKey, s[i].startKey, s[j].startKey);
      assert false;
    }
  }

  /** Merging b both with a and with c makes two ranges that share the start of b. */
  lemma SharedStart(a: Shard, b: Shard, c: Shard, now: int)
    requires NonEmpty(a) && NonEmpty(b) && NonEmpty(c)
    requires Below(a, b) && Below(b, c) && a.endKey == b.startKey && b.endKey == c.startKey
    ensures !Below(Merged(a, b, now), Merged(b, c, now)) && !Below(Merged(b, c, now), Merged(a, b, now))
  {
    var key := b.startKey;
    LessIrreflexive(key);
    LessAsymmetric(a.startKey, key);
    if c.endKey != [] {
      LessTransitive(key, c.startKey, c.endKey);
    }
    DisjointRanges(Merged(a, b, now), Merged(b, c, now), key);
  }

  /** After a pass over a chain two merged shards overlap. */
  lemma ChainOverlaps(m: ShardMap, s: seq<Shard>, m': ShardMap, now: int)
    requires Good(m) && SortedView(s, m) && !NoChain(s)
    requires MergedSoFar(m', s, |s| - 1, now)
    ensures !Partition(m')
  {
    var i: nat :| ChainAt(s, i);
    assert MergedIn(m', s[i], s[i + 1], now) && MergedIn(m', s[i + 1], s[i + 2], now);
    MergedIdFresh(m, s, i, i + 1);
    SortedIsBelow(m, s, i, i + 1);
    SortedIsBelow(m, s, i + 1, i + 2);
    SnapshotNonEmpty(m, s, i);
    SnapshotNonEmpty(m, s, i + 1);
    SnapshotNonEmpty(m, s, i + 2);
    TwoOverlap(m', s[i], s[i + 1], s[i + 2], now);
  }

  lemma SnapshotNonEmpty(m: ShardMap, s: seq<Shard>, i: nat)
    requires Good(m) && SortedView(s, m) && i < |s|
    ensures NonEmpty(s[i])
  {
    assert m[s[i].id] == s[i];
  }

  lemma TwoOverlap(m: ShardMap, a: Shard, b: Shard, c: Shard, now: int)
    requires NonEmpty(a) && NonEmpty(b) && NonEmpty(c) && Below(a, b) && Below(b, c)
    requires a.endKey == b.startKey && b.endKey == c.startKey
    requires MergedIn(m, a, b, now) && MergedIn(m, b, c, now) && MergedId(a) != MergedId(b)
    ensures !Partition(m)
  {
    SharedStart(a, b, c, now);
    OverlapRefutes(m, MergedId(a), MergedId(b));
  }

  lemma OverlapRefutes(m: ShardMap, id: ShardId, jd: ShardId)
    requires id in m && jd in m && id != jd && !Below(m[id], m[jd]) && !Below(m[jd], m[id])
    ensures !Partition(m)
  {
  }

  lemma MergedOnesNext(start: ShardMap, s: seq<Shard>, i: nat, now: int)
    requires Fresh(s) && 0 < i < |s|
    requires MergedSoFar(MergedPairs(start, s, i - 1, now), s, i - 1, now)
    requires LonersLive(MergedPairs(start, s, i - 1, now), s)
    ensures MergedSoFar(MergedPairs(start, s, i, now), s, i, now)
    ensures LonersLive(MergedPairs(start, s, i, now), s)
  {
    if QualifiesAt(s, i - 1) {
      MergedSurvives(MergedPairs(start, s, i - 1, now), s, i - 1, now);
      LonersSurvive(MergedPairs(start, s, i - 1, now), s, i - 1, now);
    }
  }

  /** The pairs merged so far stay merged, and the loners stay live. */
  lemma {:induction false} MergedOnes(start: ShardMap, s: seq<Shard>, i: nat, now: int)
    requires Fresh(s) && LonersLive(start, s) && (i == 0 || i < |s|)
    ensures MergedSoFar(MergedPairs(start, s, i, now), s, i, now)
    ensures LonersLive(MergedPairs(start, s, i, now), s)
    decreases i
  {
    if i > 0 {
      MergedOnes(start, s, i - 1, now);
      MergedOnesNext(start, s, i, now);
    }
  }

  lemma SameKeysTransitive(m: ShardMap, m': ShardMap, m'': ShardMap)
    requires SameKeys(m, m') && SameKeys(m', m'')
    ensures SameKeys(m, m'')
  {
  }

  lemma RestLiveSkips(m: ShardMap, s: seq<Shard>, i: nat)
    requires 0 < i < |s| && !QualifiesAt(s, i - 1) && RestLive(m, s, i - 1)
    ensures RestLive(m, s, i)
  {
  }

  lemma CleanStep(m: ShardMap, s: seq<Shard>, i: nat, m': ShardMap, now: int)
    requires Fresh(s) && Ascending(s) && NoChain(s) && 0 < i < |s| && Good(m) && RestLive(m, s, i - 1)
    requires m' == if Qualifies(s[i - 1], s[i]) then MergeMap(m, s[i - 1], s[i], now) else m
    ensures Good(m') && RestLive(m', s, i) && SameKeys(m', m) && Documents(m') == Documents(m)
  {
    if QualifiesAt(s, i - 1) {
      CleanMergeStep(m, s, i - 1, now);
    } else {
      RestLiveSkips(m, s, i);
    }
  }

  lemma CleanPassNext(start: ShardMap, s: seq<Shard>, i: nat, now: int)
    requires Fresh(s) && Ascending(s) && NoChain(s) && 0 < i < |s|
    requires Good(MergedPairs(start, s, i - 1, now)) && RestLive(MergedPairs(start, s, i - 1, now), s, i - 1)
    ensures Good(MergedPairs(start, s, i, now)) && RestLive(MergedPairs(start, s, i, now), s, i)
    ensures SameKeys(MergedPairs(start, s, i, now), MergedPairs(start, s, i - 1, now))
    ensures Documents(MergedPairs(start, s, i, now)) == Documents(MergedPairs(start, s, i - 1, now))
  {
    CleanStep(MergedPairs(start, s, i - 1, now), s, i, MergedPairs(start, s, i, now), now);
  }

  /** Without chains every merge of the pass is of two live neighbours. */
  lemma {:induction false} CleanPass(start: ShardMap, s: seq<Shard>, i: nat, now: int)
    requires Fresh(s) && Ascending(s) && NoChain(s) && (i == 0 || i < |s|)
    requires Good(start) && RestLive(start, s, 0)
    ensures Good(MergedPairs(start, s, i, now)) && RestLive(MergedPairs(start, s, i, now), s, i)
    decreases i
  {
    if i > 0 {
      CleanPass(start, s, i - 1, now);
      CleanPassNext(start, s, i, now);
    }
  }

  lemma {:induction false} CleanPassKeeps(start: ShardMap, s: seq<Shard>, i: nat, now: int)
    requires Fresh(s) && Ascending(s) && NoChain(s) && (i == 0 || i < |s|)
    requires Good(start) && RestLive(start, s, 0)
    ensures SameKeys(MergedPairs(start, s, i, now), start)
    ensures Documents(MergedPairs(start, s, i, now)) == Documents(start)
    decreases i
  {
    if i > 0 {
      CleanPassKeeps(start, s, i - 1, now);
      CleanPass(start, s, i - 1, now);
      CleanPassNext(start, s, i, now);
      SameKeysTransitive(MergedPairs(start, s, i, now), MergedPairs(start, s, i - 1, now), start);
    }
  }

  /** A merge pass over a partition merges every two neighbours that qualify, leaves the shards that qualify with
      neither neighbour, and keeps the ranges a partition exactly when no shard qualified with both. Then it keeps the
      keys and the documents too. */
  lemma MergePassMeaning(start: ShardMap, s: seq<Shard>, now: int)
    requires Good(start) && SortedView(s, start)
    ensures var m := MergePass(start, s, now);
      && (Good(m) <==> NoChain(s))
      && (NoChain(s) ==> SameKeys(m, start) && Documents(m) == Documents(start))
      && MergedSoFar(m, s, |s|, now) && LonersLive(m, s)
  {
    var last := if s == [] then 0 else |s| - 1;
    ListIsFresh(start, s);
    MergedOnes(start, s, last, now);
    if NoChain(s) {
      ListIsAscending(start, s);
      CleanPass(start, s, last, now);
      CleanPassKeeps(start, s, last, now);
    } else {
      ChainOverlaps(start, s, MergePass(start, s, now), now);
    }
  }

  /** Every identifier after the pass was there before, or is that of a merged pair. */
  lemma {:induction false} MergePassKeys(start: ShardMap, s: seq<Shard>, i: nat, now: int, id: ShardId)
    requires (i == 0 || i < |s|) && id in MergedPairs(start, s, i, now) && id !in start
    ensures exists j :: 0 <= j < i && j + 1 < |s| && Qualifies(s[j], s[j + 1]) && id == MergedId(s[j])
    decreases i
  {
    if i > 0 && id in MergedPairs(start, s, i - 1, now) {
      MergePassKeys(start, s, i - 1, now, id);
    }
  }

  /** What was merged is gone, for good: nothing that the pass makes has its identifier. */
  lemma {:induction false} MergedGone(start: ShardMap, s: seq<Shard>, i: nat, j: nat, now: int)
    requires Fresh(s) && i < |s| && j < i && Qualifies(s[j], s[j + 1])
    ensures s[j].id !in MergedPairs(start, s, i, now) && s[j + 1].id !in MergedPairs(start, s, i, now)
    decreases i
  {
    assert FreshPair(s, i - 1, j) && FreshPair(s, i - 1, j + 1);
    if j < i - 1 {
      MergedGone(start, s, i - 1, j, now);
    }
  }

  lemma PairIsMerged(start: ShardMap, s: seq<Shard>, m: ShardMap, i: int, now: int)
    requires Fresh(s) && m == MergePass(start, s, now) && MergedSoFar(m, s, |s|, now)
    ensures PairMerged(s, m, i, now)
  {
    if SmallPairAt(s, i) {
      assert QualifiesAt(s, i) && MergedIn(m, s[i], s[i + 1], now);
      MergedGone(start, s, |s| - 1, i, now);
    }
  }

  lemma SingleIsKept(s: seq<Shard>, m: ShardMap, j: int)
    requires LonersLive(m, s)
    ensures SingleKept(s, m, j)
  {
    if 0 <= j < |s| && !SmallPairAt(s, j - 1) && !SmallPairAt(s, j) {
      assert Loner(s, j);
    }
  }

  lemma NewIsMergedPair(start: ShardMap, s: seq<Shard>, now: int, id: ShardId)
    requires id in MergePass(start, s, now) && id !in start
    ensures IsMergedPair(id, s)
  {
    var last := if s == [] then 0 else |s| - 1;
    MergePassKeys(start, s, last, now, id);
    var j :| 0 <= j < last && j + 1 < |s| && Qualifies(s[j], s[j + 1]) && id == MergedId(s[j]);
    assert SmallPairAt(s, j);
  }

  /** What a merge pass over a partition does, in numbers. */
  lemma MergePassByNumbers(start: ShardMap, s: seq<Shard>, now: int)
    requires SortedView(s, start)
    ensures Good(start) ==> MergedByNumbers(s, start, MergePass(start, s, now), now)
  {
    if Good(start) {
      var m := MergePass(start, s, now);
      MergePassMeaning(start, s, now);
      ListIsFresh(start, s);
      forall i
        ensures PairMerged(s, m, i, now)
      {
        PairIsMerged(start, s, m, i, now);
      }
      forall j
        ensures SingleKept(s, m, j)
      {
        SingleIsKept(s, m, j);
      }
      forall id | id in m && id !in start
        ensures IsMergedPair(id, s)
      {
        NewIsMergedPair(start, s, now, id);
      }
    }
  }

  // ---------- A chain ----------

  function SmallShard(id: ShardId, startKey: Key, endKey: Key): Shard {
    Shard(id, id, startKey, endKey, [], "", "active", 0, 0, 0, 1, 1, false, false)
  }

  function ThreeShards(): seq<Shard> {
    [SmallShard("a", [1], [2]), SmallShard("b", [2], [3]), SmallShard("c", [3], [4])]
  }

  function ShardsById(s: seq<Shard>): ShardMap
    requires |s| == 3
  {
    map[s[0].id := s[0], s[1].id := s[1], s[2].id := s[2]]
  }

  lemma SingleBytes(x: Byte, y: Byte)
    ensures Less([x], [y]) <==> x < y
  {
    var a: Key, b: Key := [x], [y];
    assert a[1..] == [] && b[1..] == [];
  }

  lemma ThreeGood(s: seq<Shard>)
    requires |s| == 3 && s[0].id == "a" && s[1].id == "b" && s[2].id == "c"
    requires NonEmpty(s[0]) && NonEmpty(s[1]) && NonEmpty(s[2])
    requires Below(s[0], s[1]) && Below(s[1], s[2]) && Below(s[0], s[2])
    ensures Good(ShardsById(s))
  {
    var m := ShardsById(s);
    assert "a"[0] != "b"[0] && "b"[0] != "c"[0] && "a"[0] != "c"[0];
    assert m.Keys == {"a", "b", "c"};
    ThreePrefixFree();
    assert m["a"] == s[0] && m["b"] == s[1] && m["c"] == s[2];
    ThreePartition(m);
  }

  lemma ThreePrefixFree()
    ensures PrefixFree({"a", "b", "c"})
  {
    assert "a"[0] != "b"[0] && "b"[0] != "c"[0] && "a"[0] != "c"[0];
  }

  lemma ThreePartition(m: ShardMap)
    requires m.Keys == {"a", "b", "c"} && NonEmpty(m["a"]) && NonEmpty(m["b"]) && NonEmpty(m["c"])
    requires Below(m["a"], m["b"]) && Below(m["b"], m["c"]) && Below(m["a"], m["c"])
    ensures Partition(m)
  {
    forall id, jd | id in m && jd in m && id != jd
      ensures Below(m[id], m[jd]) || Below(m[jd], m[id])
    {
      assert id in {"a", "b", "c"} && jd in {"a", "b", "c"};
    }
  }

  lemma ThreeSorted(s: seq<Shard>)
    requires |s| == 3 && s[0].id == "a" && s[1].id == "b" && s[2].id == "c"
    requires !Less(s[1].startKey, s[0].startKey) && !Less(s[2].startKey, s[1].startKey) && !Less(s[2].startKey, s[0].startKey)
    ensures SortedView(s, ShardsById(s))
  {
    assert "a"[0] != "b"[0] && "b"[0] != "c"[0] && "a"[0] != "c"[0];
    assert ShardsById(s).Keys == {"a", "b", "c"};
    assert s[0] in s && s[1] in s && s[2] in s;
  }

  /** Three small neighbours: a partition that a merge pass destroys. */
  lemma ChainExample(now: int)
    ensures var s, m := ThreeShards(), ShardsById(ThreeShards());
      Good(m) && SortedView(s, m) && !NoChain(s) && !Good(MergePass(m, s, now))
  {
    var s := ThreeShards();
    SingleBytes(1, 2);
    SingleBytes(2, 3);
    SingleBytes(3, 4);
    SingleBytes(2, 1);
    SingleBytes(3, 2);
    SingleBytes(3, 1);
    SingleBytes(2, 2);
    SingleBytes(3, 3);
    ThreeGood(s);
    ThreeSorted(s);
    ThreeChain();
    MergePassMeaning(ShardsById(s), s, now);
  }

  lemma ThreeChain()
    ensures !NoChain(ThreeShards())
  {
    assert ChainAt(ThreeShards(), 0);
  }

  /** The source's loop over the bytes of the start key, writing the average into a buffer. */
  method FindSplitKey(sh: Shard) returns (k: Key)
    ensures k == SplitKey(sh.startKey, sh.endKey)
  {
    var s, e := sh.startKey, sh.endKey;
    if |s| == 0 || |e| == 0 {
      return [];
    }
    var mid := new Byte[|s|](_ => 0);
    for i := 0 to |s|
      invariant forall j :: 0 <= j < i ==> mid[j] == if j < |e| then AverageByte(s[j], e[j]) else s[j]
    {
      if i < |e| {
        mid[i] := (s[i] as int + e[i] as int) % 256 / 2;
      } else {
        mid[i] := s[i];
      }
    }
    forall j | 0 <= j < |s|
      ensures |Middle(s, e)| == |s| && Middle(s, e)[j] == mid[..][j]
    {
      MiddleAt(s, e, j);
    }
    k := mid[..];
  }

  lemma {:induction false} MiddleAt(s: Key, e: Key, j: nat)
    requires j < |s|
    ensures |Middle(s, e)| == |s|
    ensures Middle(s, e)[j] == if j < |e| then AverageByte(s[j], e[j]) else s[j]
  {
    if e != [] && |s| > 1 {
      MiddleAt(s[1..], e[1..], if j > 0 then j - 1 else 0);
    } else if e != [] {
      assert Middle(s[1..], e[1..]) == [];
    }
  }

  // ---------- Sorting (the library routine the source calls) ----------

  /** Any sort by start key will do: nothing else is known of the result. */
  method SortSlice(s: seq<Shard>) returns (r: seq<Shard>)
    ensures SortedByStart(r) && multiset(r) == multiset(s)
  {
    r := [];
    for i := 0 to |s|
      invariant SortedByStart(r) && multiset(r) == multiset(s[..i])
    {
      var p := 0;
      while p < |r| && !Less(s[i].startKey, r[p].startKey)
        invariant 0 <= p <= |r|
        invariant forall q :: 0 <= q < p ==> !Less(s[i].startKey, r[q].startKey)
      {
        p := p + 1;
      }
      InsertSorted(r, p, s[i]);
      InsertCounts(r, p, s[i]);
      r := r[..p] + [s[i]] + r[p..];
      assert s[..i + 1] == s[..i] + [s[i]];
    }
    assert s[..|s|] == s;
  }

  lemma InsertCounts(r: seq<Shard>, p: nat, x: Shard)
    requires p <= |r|
    ensures multiset(r[..p] + [x] + r[p..]) == multiset(r) + multiset{x}
  {
    assert r == r[..p] + r[p..];
  }

  lemma InsertSorted(r: seq<Shard>, p: nat, x: Shard)
    requires SortedByStart(r) && p <= |r|
    requires forall q :: 0 <= q < p ==> !Less(x.startKey, r[q].startKey)
    requires p < |r| ==> Less(x.startKey, r[p].startKey)
    ensures SortedByStart(r[..p] + [x] + r[p..])
  {
    forall q | p <= q < |r|
      ensures !Less(r[q].startKey, x.startKey)
    {
      LessIrreflexive(r[p].startKey);
      NotLessTransitive(x.startKey, r[p].startKey, r[q].startKey);
      LessAsymmetric(x.startKey, r[q].startKey);
    }
  }

  lemma SortedPermutation(s: seq<Shard>, r: seq<Shard>, m: ShardMap)
    requires SortedByStart(r) && multiset(r) == multiset(s) && |s| == |m.Keys|
    requires forall i :: 0 <= i < |s| ==> s[i].id in m && m[s[i].id] == s[i]
    requires forall i, j :: 0 <= i < j < |s| ==> s[i].id != s[j].id
    requires forall id :: id in m ==> m[id] in s
    ensures SortedView(r, m)
  {
    SameLength(s, r);
    forall i | 0 <= i < |r|
      ensures r[i] in s
    {
      assert r[i] in multiset(r);
    }
    forall id | id in m
      ensures m[id] in r
    {
      assert m[id] in multiset(s);
    }
    forall i, j | 0 <= i < j < |r|
      ensures r[i].id != r[j].id
    {
      if r[i].id == r[j].id {
        OnceOnly(s, r[i]);
        Twice(r, i, j);
      }
    }
  }

  lemma SameLength(s: seq<Shard>, r: seq<Shard>)
    requires multiset(r) == multiset(s)
    ensures |r| == |s|
  {
    assert |multiset(r)| == |r| && |multiset(s)| == |s|;
  }

  lemma DisjointRanges(a: Shard, b: Shard, key: Key)
    requires Covers(a, key) && Covers(b, key)
    ensures !Below(a, b) && !Below(b, a)
  {
    NotLessTransitive(b.startKey, key, a.endKey);
    NotLessTransitive(a.startKey, key, b.endKey);
  }
}
