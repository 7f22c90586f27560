/** What one split, merge or rebalance does to the ranges, the owners, the identifiers and the totals. */
module RangeShardLaws {
  import opened ByteStrings
  import opened RangeShards

  // ---------- Where the split key lands ----------

  /** Up to some byte the end key is equal or one above, there it is at least two above, and no sum
      on the way reaches 256. */
  predicate Splittable(s: Key, e: Key) {
    s != [] && e != [] && s[0] as int + e[0] as int < 256
    && (e[0] as int >= s[0] as int + 2 || ((e[0] == s[0] || e[0] as int == s[0] as int + 1) && Splittable(s[1..], e[1..])))
  }

  lemma {:induction false} MiddleAboveStart(s: Key, e: Key)
    ensures Less(s, Middle(s, e)) <==> Splittable(s, e)
  {
    if s != [] && e != [] {
      MiddleAboveStart(s[1..], e[1..]);
    } else if s != [] {
      LessIrreflexive(s);
    }
  }

  lemma {:induction false} MiddleBelowEnd(s: Key, e: Key)
    requires Splittable(s, e)
    ensures Less(Middle(s, e), e)
  {
    if e[0] == s[0] {
      MiddleBelowEnd(s[1..], e[1..]);
    }
  }

  /** The split key lies strictly inside the range exactly when the keys are splittable. */
  lemma SplitKeyInside(s: Key, e: Key)
    ensures Less(s, SplitKey(s, e)) && Less(SplitKey(s, e), e) <==> Splittable(s, e)
  {
    MiddleAboveStart(s, e);
    if Splittable(s, e) {
      MiddleBelowEnd(s, e);
    }
  }

  /** Two ranges whose split key does not fall inside: neighbouring letters, and bytes above 127. */
  lemma SplitKeyOutside()
    ensures SplitKey([0x61], [0x62]) == [0x61]
    ensures SplitKey([0x80], [0xFE]) == [0x3F] && Less([0x3F], [0x80])
  {
    var a: Key, b: Key, c: Key, d: Key := [0x61], [0x62], [0x80], [0xFE];
    assert a[1..] == [] && c[1..] == [];
  }

  // ---------- Identifiers ----------

  /** A live identifier extended by a suffix is not live. */
  lemma SuffixIsFresh(ids: set<ShardId>, id: ShardId, suffix: string)
    requires PrefixFree(ids) && id in ids && suffix != ""
    ensures id + suffix !in ids
  {
    assert id <= id + suffix && id != id + suffix;
  }

  /** Replacing identifiers by extensions of one of them, none a prefix of another, keeps prefix-freeness. */
  lemma ExtensionsPrefixFree(ids: set<ShardId>, id: ShardId, gone: set<ShardId>, new1: ShardId, new2: ShardId)
    requires PrefixFree(ids) && id in ids && id in gone
    requires id <= new1 && id <= new2 && (new1 == new2 || (!(new1 <= new2) && !(new2 <= new1)))
    ensures PrefixFree(ids - gone + {new1, new2})
  {
    forall a | a in ids - gone
      ensures !(a <= new1) && !(a <= new2) && !(new1 <= a) && !(new2 <= a)
    {
      PrefixesCompare(a, id, new1);
      PrefixesCompare(a, id, new2);
    }
  }

  /** Two prefixes of one string are prefixes of each other one way round. */
  lemma PrefixesCompare(a: string, id: string, x: string)
    requires id <= x
    ensures a <= x ==> a <= id || id <= a
    ensures x <= a ==> id <= a
  {
  }

  lemma SuffixesDiffer(id: ShardId)
    ensures !(id + "_left" <= id + "_right") && !(id + "_right" <= id + "_left")
  {
    assert (id + "_left")[|id| + 1] == 'l' && (id + "_right")[|id| + 1] == 'r';
  }

  // ---------- One split ----------

  lemma SplitKeepsIds(m: ShardMap, sh: Shard, now: int)
    requires Keyed(m) && PrefixFree(m.Keys) && sh.id in m && SplitKey(sh.startKey, sh.endKey) != []
    ensures Keyed(SplitMap(m, sh, now)) && PrefixFree(SplitMap(m, sh, now).Keys)
    ensures sh.id + "_left" !in m && sh.id + "_right" !in m
    ensures SplitMap(m, sh, now).Keys == m.Keys - {sh.id} + {sh.id + "_left", sh.id + "_right"}
  {
    SuffixIsFresh(m.Keys, sh.id, "_left");
    SuffixIsFresh(m.Keys, sh.id, "_right");
    SuffixesDiffer(sh.id);
    ExtensionsPrefixFree(m.Keys, sh.id, {sh.id}, sh.id + "_left", sh.id + "_right");
  }

  /** A part of a range lies on the same side of a disjoint range. */
  lemma PartsStayDisjoint(sh: Shard, k: Key, other: Shard, now: int)
    requires Below(sh, other) || Below(other, sh)
    requires sh.endKey != [] && Less(sh.startKey, k) && Less(k, sh.endKey)
    ensures Below(LeftHalf(sh, k, now), other) || Below(other, LeftHalf(sh, k, now))
    ensures Below(RightHalf(sh, k, now), other) || Below(other, RightHalf(sh, k, now))
  {
    LessAsymmetric(k, sh.endKey);
    LessAsymmetric(sh.startKey, k);
    NotLessTransitive(k, sh.endKey, other.startKey);
    NotLessTransitive(other.endKey, sh.startKey, k);
  }

  /** What is in the map after a split: a half, or a shard that was there and is not the one split. */
  lemma AfterSplit(m: ShardMap, sh: Shard, now: int, id: ShardId)
    requires Keyed(m) && PrefixFree(m.Keys) && sh.id in m && SplitKey(sh.startKey, sh.endKey) != []
    requires id in SplitMap(m, sh, now)
    ensures var k := SplitKey(sh.startKey, sh.endKey);
      if id == sh.id + "_left" then SplitMap(m, sh, now)[id] == LeftHalf(sh, k, now)
      else if id == sh.id + "_right" then SplitMap(m, sh, now)[id] == RightHalf(sh, k, now)
      else id in m && id != sh.id && SplitMap(m, sh, now)[id] == m[id]
  {
    SuffixesDiffer(sh.id);
  }

  lemma HalvesDisjoint(sh: Shard, k: Key, now: int)
    requires Less(sh.startKey, k) && Less(k, sh.endKey) && sh.endKey != []
    ensures NonEmpty(LeftHalf(sh, k, now)) && NonEmpty(RightHalf(sh, k, now))
    ensures Below(LeftHalf(sh, k, now), RightHalf(sh, k, now))
  {
    LessIrreflexive(k);
  }

  lemma SplitStaysPartition(m: ShardMap, sh: Shard, now: int)
    requires Good(m) && sh.id in m && m[sh.id] == sh && Splittable(sh.startKey, sh.endKey)
    ensures Good(SplitMap(m, sh, now))
  {
    var k, m' := SplitKey(sh.startKey, sh.endKey), SplitMap(m, sh, now);
    SplitKeyInside(sh.startKey, sh.endKey);
    SplitKeepsIds(m, sh, now);
    HalvesDisjoint(sh, k, now);
    forall id | id in m'
      ensures NonEmpty(m'[id])
    {
      AfterSplit(m, sh, now, id);
    }
    forall id, jd | id in m' && jd in m' && id != jd
      ensures Below(m'[id], m'[jd]) || Below(m'[jd], m'[id])
    {
      SplitPair(m, sh, now, id, jd);
    }
  }

  lemma SplitPair(m: ShardMap, sh: Shard, now: int, id: ShardId, jd: ShardId)
    requires Good(m) && sh.id in m && m[sh.id] == sh && Splittable(sh.startKey, sh.endKey)
    requires id in SplitMap(m, sh, now) && jd in SplitMap(m, sh, now) && id != jd
    ensures Below(SplitMap(m, sh, now)[id], SplitMap(m, sh, now)[jd])
            || Below(SplitMap(m, sh, now)[jd], SplitMap(m, sh, now)[id])
  {
    var k := SplitKey(sh.startKey, sh.endKey);
    SplitKeyInside(sh.startKey, sh.endKey);
    AfterSplit(m, sh, now, id);
    AfterSplit(m, sh, now, jd);
    HalvesDisjoint(sh, k, now);
    if id in m && id != sh.id {
      PartsStayDisjoint(sh, k, m[id], now);
    }
    if jd in m && jd != sh.id {
      PartsStayDisjoint(sh, k, m[jd], now);
    }
  }

  /** A split keeps the ranges a partition exactly when the keys of the shard are splittable. */
  lemma SplitKeepsPartition(m: ShardMap, sh: Shard, now: int)
    requires Good(m) && sh.id in m && m[sh.id] == sh && SplitKey(sh.startKey, sh.endKey) != []
    ensures Good(SplitMap(m, sh, now)) <==> Splittable(sh.startKey, sh.endKey)
  {
    if Splittable(sh.startKey, sh.endKey) {
      SplitStaysPartition(m, sh, now);
    } else {
      var k, m' := SplitKey(sh.startKey, sh.endKey), SplitMap(m, sh, now);
      SplitKeyInside(sh.startKey, sh.endKey);
      SuffixesDiffer(sh.id);
      assert m'[sh.id + "_left"] == LeftHalf(sh, k, now) && m'[sh.id + "_right"] == RightHalf(sh, k, now);
      assert !NonEmpty(m'[sh.id + "_left"]) || !NonEmpty(m'[sh.id + "_right"]);
    }
  }

  predicate Owned(m: ShardMap, key: Key) {
    exists id :: id in m && Covers(m[id], key)
  }

  /** Within the split range the owner becomes the half on the key's side; elsewhere nothing changes. */
  lemma SplitOwners(m: ShardMap, sh: Shard, now: int, key: Key)
    requires Good(m) && sh.id in m && m[sh.id] == sh && Splittable(sh.startKey, sh.endKey)
    ensures var m' := SplitMap(m, sh, now);
      var k := SplitKey(sh.startKey, sh.endKey);
      && (forall id :: id in m && id != sh.id ==> id in m' && m'[id] == m[id])
      && (Covers(sh, key) <==> Covers(m'[sh.id + "_left"], key) || Covers(m'[sh.id + "_right"], key))
      && (Covers(m'[sh.id + "_left"], key) <==> Covers(sh, key) && Less(key, k))
      && (Owned(m', key) <==> Owned(m, key))
  {
    var k, m' := SplitKey(sh.startKey, sh.endKey), SplitMap(m, sh, now);
    SplitKeyInside(sh.startKey, sh.endKey);
    SplitKeepsIds(m, sh, now);
    NotLessTransitive(key, k, sh.endKey);
    if Less(key, k) {
      LessTransitive(key, k, sh.endKey);
    }
    NotLessTransitive(sh.startKey, k, key);
    LessAsymmetric(sh.startKey, k);
    assert forall id :: id in m' <==> (id in m && id != sh.id) || id == sh.id + "_left" || id == sh.id + "_right";
  }

  // ---------- One merge ----------

  lemma MergeKeepsIds(m: ShardMap, a: Shard, b: Shard, now: int)
    requires Keyed(m) && PrefixFree(m.Keys) && a.id in m && b.id in m
    ensures Keyed(MergeMap(m, a, b, now)) && PrefixFree(MergeMap(m, a, b, now).Keys)
    ensures MergedId(a) !in m
    ensures MergeMap(m, a, b, now).Keys == m.Keys - {a.id, b.id} + {MergedId(a)}
  {
    SuffixIsFresh(m.Keys, a.id, "_merged");
    ExtensionsPrefixFree(m.Keys, a.id, {a.id, b.id}, MergedId(a), MergedId(a));
    assert {MergedId(a), MergedId(a)} == {MergedId(a)};
  }

  /** Merging two live neighbours keeps the ranges a partition. */
  lemma MergeKeepsPartition(m: ShardMap, a: Shard, b: Shard, now: int)
    requires Good(m) && a.id in m && m[a.id] == a && b.id in m && m[b.id] == b && a.id != b.id
    requires a.endKey == b.startKey && Below(a, b)
    ensures Good(MergeMap(m, a, b, now))
  {
    var m', c := MergeMap(m, a, b, now), Merged(a, b, now);
    MergeKeepsIds(m, a, b, now);
    if b.endKey != [] {
      LessTransitive(a.startKey, a.endKey, b.endKey);
    }
    forall id | id in m && id != a.id && id != b.id
      ensures Below(c, m[id]) || Below(m[id], c)
    {
      MergedStaysDisjoint(a, b, m[id], now);
    }
  }

  lemma MergedStaysDisjoint(a: Shard, b: Shard, other: Shard, now: int)
    requires NonEmpty(a) && NonEmpty(b) && NonEmpty(other) && a.endKey == b.startKey && a.endKey != []
    requires Below(a, other) || Below(other, a)
    requires Below(b, other) || Below(other, b)
    ensures Below(Merged(a, b, now), other) || Below(other, Merged(a, b, now))
  {
    if Below(a, other) && Below(other, b) {
      NotLessTransitive(other.startKey, other.endKey, a.endKey);
      LessAsymmetric(other.startKey, other.endKey);
    }
  }

  /** After a merge of neighbours the merged shard owns what the two owned; elsewhere nothing changes. */
  lemma MergeOwners(m: ShardMap, a: Shard, b: Shard, now: int, key: Key)
    requires Good(m) && a.id in m && m[a.id] == a && b.id in m && m[b.id] == b && a.id != b.id
    requires a.endKey == b.startKey && Below(a, b)
    ensures var m' := MergeMap(m, a, b, now);
      && (forall id :: id in m && id != a.id && id != b.id ==> id in m' && m'[id] == m[id])
      && (Covers(m'[MergedId(a)], key) <==> Covers(a, key) || Covers(b, key))
      && (Owned(m', key) <==> Owned(m, key))
  {
    var m' := MergeMap(m, a, b, now);
    MergeKeepsIds(m, a, b, now);
    LessTotal(key, a.endKey);
    NotLessTransitive(a.startKey, a.endKey, key);
    LessAsymmetric(a.startKey, a.endKey);
    if b.endKey != [] && Less(key, a.endKey) {
      LessTransitive(key, a.endKey, b.endKey);
    }
    assert forall id :: id in m' <==> (id in m && id != a.id && id != b.id) || id == MergedId(a);
  }

  // ---------- Rebalancing ----------

  lemma RebalanceKeepsGood(m: ShardMap, now: int)
    requires Good(m)
    ensures Good(RebalanceMap(m, now)) && RebalanceMap(m, now).Keys == m.Keys
    ensures forall id, key :: id in m ==> (Covers(RebalanceMap(m, now)[id], key) <==> Covers(m[id], key))
    ensures forall id :: id in m ==>
              && RebalanceMap(m, now)[id].lastRebalanced == now && RebalanceMap(m, now)[id].updatedAt == now
              && RebalanceMap(m, now)[id].(lastRebalanced := m[id].lastRebalanced, updatedAt := m[id].updatedAt) == m[id]
  {
    var m' := RebalanceMap(m, now);
    assert m'.Keys == m.Keys;
  }

  // ---------- Totals ----------

  /** The sum of a measure over all shards of a map. */
  ghost function Total(m: ShardMap, f: Shard -> int): int
    decreases |m.Keys|
  {
    if m.Keys == {} then 0
    else var id :| id in m; f(m[id]) + Total(m - {id}, f)
  }

  lemma {:induction false} TotalRemove(m: ShardMap, f: Shard -> int, id: ShardId)
    requires id in m
    ensures Total(m, f) == f(m[id]) + Total(m - {id}, f)
    decreases |m.Keys|
  {
    var jd :| jd in m && Total(m, f) == f(m[jd]) + Total(m - {jd}, f);
    if jd != id {
      RemovalsCommute(m, id, jd);
      TotalRemove(m - {jd}, f, id);
      TotalRemove(m - {id}, f, jd);
    }
  }

  lemma RemovalsCommute(m: ShardMap, id: ShardId, jd: ShardId)
    ensures m - {jd} - {id} == m - {id} - {jd}
  {
  }

  lemma TotalAdd(m: ShardMap, f: Shard -> int, id: ShardId, sh: Shard)
    requires id !in m
    ensures Total(m[id := sh], f) == Total(m, f) + f(sh)
  {
    TotalRemove(m[id := sh], f, id);
    assert m[id := sh] - {id} == m;
  }

  lemma SplitTotal(m: ShardMap, sh: Shard, now: int, f: Shard -> int)
    requires Keyed(m) && PrefixFree(m.Keys) && sh.id in m && m[sh.id] == sh && SplitKey(sh.startKey, sh.endKey) != []
    ensures var k := SplitKey(sh.startKey, sh.endKey);
      Total(SplitMap(m, sh, now), f) == Total(m, f) - f(sh) + f(LeftHalf(sh, k, now)) + f(RightHalf(sh, k, now))
  {
    var k := SplitKey(sh.startKey, sh.endKey);
    SplitKeepsIds(m, sh, now);
    SuffixesDiffer(sh.id);
    TotalRemove(m, f, sh.id);
    TotalAdd(m - {sh.id}, f, sh.id + "_left", LeftHalf(sh, k, now));
    TotalAdd((m - {sh.id})[sh.id + "_left" := LeftHalf(sh, k, now)], f, sh.id + "_right", RightHalf(sh, k, now));
  }

  lemma MergeTotal(m: ShardMap, a: Shard, b: Shard, now: int, f: Shard -> int)
    requires Keyed(m) && PrefixFree(m.Keys) && a.id in m && m[a.id] == a && b.id in m && m[b.id] == b && a.id != b.id
    ensures Total(MergeMap(m, a, b, now), f) == Total(m, f) - f(a) - f(b) + f(Merged(a, b, now))
  {
    MergeKeepsIds(m, a, b, now);
    TotalRemove(m, f, a.id);
    TotalRemove(m - {a.id}, f, b.id);
    assert m - {a.id} - {b.id} == m - {a.id, b.id};
    TotalAdd(m - {a.id, b.id}, f, MergedId(a), Merged(a, b, now));
  }

  /** The number of documents: a merge keeps it, a split keeps it or loses one. */
  ghost function Documents(m: ShardMap): int {
    Total(m, (sh: Shard) => sh.documentCount)
  }

  lemma SplitDocuments(m: ShardMap, sh: Shard, now: int)
    requires Keyed(m) && PrefixFree(m.Keys) && sh.id in m && m[sh.id] == sh && SplitKey(sh.startKey, sh.endKey) != []
    requires sh.documentCount >= 0
    ensures Documents(SplitMap(m, sh, now)) == Documents(m) - sh.documentCount % 2
  {
    SplitTotal(m, sh, now, (x: Shard) => x.documentCount);
  }

  lemma MergeDocuments(m: ShardMap, a: Shard, b: Shard, now: int)
    requires Keyed(m) && PrefixFree(m.Keys) && a.id in m && m[a.id] == a && b.id in m && m[b.id] == b && a.id != b.id
    ensures Documents(MergeMap(m, a, b, now)) == Documents(m)
  {
    MergeTotal(m, a, b, now, (x: Shard) => x.documentCount);
  }

  // ---------- Why splitting and merging stop ----------

  predicate NonNegative(sh: Shard) {
    sh.sizeBytes >= 0 && sh.documentCount >= 0
  }

  ghost predicate AllNonNegative(m: ShardMap) {
    forall id :: id in m ==> NonNegative(m[id])
  }

  function Square(x: int): int {
    x * x
  }

  /** Twice the weight of a shard that is over a threshold, and one for the shard itself. */
  function Burden(sh: Shard): int {
    1 + if OverThreshold(sh) then 2 * (Square(sh.sizeBytes) + Square(sh.documentCount)) else 0
  }

  ghost function Potential(m: ShardMap): int {
    Total(m, Burden)
  }

  lemma HalfSquare(x: int)
    requires x >= 0
    ensures 4 * Square(Half(x)) <= Square(x)
    ensures x > 0 ==> Square(x) > 0
  {
    var h := x / 2;
    assert 2 * h <= x;
    assert (2 * h) * (2 * h) <= x * x;
  }

  lemma HalfBurden(sh: Shard, half: Shard)
    requires NonNegative(sh) && half.sizeBytes == Half(sh.sizeBytes) && half.documentCount == Half(sh.documentCount)
    ensures NonNegative(half) && 2 * (Burden(half) - 1) <= Square(sh.sizeBytes) + Square(sh.documentCount)
  {
    HalfSquare(sh.sizeBytes);
    HalfSquare(sh.documentCount);
    assert Square(half.sizeBytes) >= 0 && Square(half.documentCount) >= 0;
  }

  lemma HalvesWeighLess(sh: Shard, k: Key, now: int)
    requires OverThreshold(sh) && NonNegative(sh)
    ensures Burden(LeftHalf(sh, k, now)) + Burden(RightHalf(sh, k, now)) < Burden(sh)
    ensures NonNegative(LeftHalf(sh, k, now)) && NonNegative(RightHalf(sh, k, now))
  {
    HalfBurden(sh, LeftHalf(sh, k, now));
    HalfBurden(sh, RightHalf(sh, k, now));
    BigSquare(sh.sizeBytes);
    BigSquare(sh.documentCount);
  }

  lemma BigSquare(x: int)
    requires x >= 0
    ensures Square(x) >= x
  {
  }

  /** A split takes at least one from the potential. */
  lemma SplitLightens(m: ShardMap, sh: Shard, now: int)
    requires Keyed(m) && PrefixFree(m.Keys) && sh.id in m && m[sh.id] == sh && SplitKey(sh.startKey, sh.endKey) != []
    requires OverThreshold(sh) && AllNonNegative(m)
    ensures Potential(SplitMap(m, sh, now)) < Potential(m) && AllNonNegative(SplitMap(m, sh, now))
  {
    SplitTotal(m, sh, now, Burden);
    HalvesWeighLess(sh, SplitKey(sh.startKey, sh.endKey), now);
  }

  /** A merge makes nothing that could be split again, and takes at least one from the potential. */
  lemma MergeLightens(m: ShardMap, a: Shard, b: Shard, now: int)
    requires Keyed(m) && PrefixFree(m.Keys) && a.id in m && m[a.id] == a && b.id in m && m[b.id] == b && a.id != b.id
    requires Qualifies(a, b) && AllNonNegative(m)
    ensures !OverThreshold(Merged(a, b, now))
    ensures Potential(MergeMap(m, a, b, now)) < Potential(m) && AllNonNegative(MergeMap(m, a, b, now))
  {
    MergeTotal(m, a, b, now, Burden);
  }

  /** A half of a shard that was split never qualifies for a merge, on either side. */
  lemma HalvesDoNotMerge(sh: Shard, k: Key, now: int, other: Shard)
    requires OverThreshold(sh) && NonNegative(sh) && NonNegative(other)
    ensures !Qualifies(LeftHalf(sh, k, now), other) && !Qualifies(other, LeftHalf(sh, k, now))
    ensures !Qualifies(RightHalf(sh, k, now), other) && !Qualifies(other, RightHalf(sh, k, now))
  {
  }

  lemma {:induction false} PotentialNonNegative(m: ShardMap)
    ensures Potential(m) >= 0
    decreases |m.Keys|
  {
    if m.Keys != {} {
      var id :| id in m && Potential(m) == Burden(m[id]) + Potential(m - {id});
      PotentialNonNegative(m - {id});
      BurdenNonNegative(m[id]);
    }
  }

  lemma BurdenNonNegative(sh: Shard)
    ensures Burden(sh) >= 0
  {
    assert Square(sh.sizeBytes) >= 0 && Square(sh.documentCount) >= 0;
  }

  lemma {:induction false} RebalanceTotal(m: ShardMap, now: int, f: Shard -> int)
    requires forall sh: Shard :: f(sh.(lastRebalanced := now, updatedAt := now)) == f(sh)
    ensures Total(RebalanceMap(m, now), f) == Total(m, f)
    decreases |m.Keys|
  {
    if m.Keys != {} {
      var id :| id in m && Total(m, f) == f(m[id]) + Total(m - {id}, f);
      RebalanceTotal(m - {id}, now, f);
      RebalanceRemoves(m, now, id);
      TotalRemove(RebalanceMap(m, now), f, id);
      var sh := m[id];
      assert f(sh.(lastRebalanced := now, updatedAt := now)) == f(sh);
    } else {
      assert RebalanceMap(m, now).Keys == {};
    }
  }

  lemma RebalanceRemoves(m: ShardMap, now: int, id: ShardId)
    requires id in m
    ensures id in RebalanceMap(m, now) && RebalanceMap(m, now) - {id} == RebalanceMap(m - {id}, now)
    ensures RebalanceMap(m, now)[id] == m[id].(lastRebalanced := now, updatedAt := now)
  {
  }

  // ---------- Runs ----------

  datatype Op =
    | Split(sh: Shard, now: int)
    | Merge(left: Shard, right: Shard, now: int)
    | Rebalance(now: int)

  /** A split of a live splittable shard over a threshold, a merge of two live neighbours that qualify, or a rebalance. */
  predicate Allowed(m: ShardMap, op: Op) {
    match op
    case Split(sh, _) => sh.id in m && m[sh.id] == sh && OverThreshold(sh) && Splittable(sh.startKey, sh.endKey)
    case Merge(a, b, _) =>
      a.id in m && m[a.id] == a && b.id in m && m[b.id] == b && a.id != b.id && Below(a, b) && Qualifies(a, b)
    case Rebalance(_) => true
  }

  function Apply(m: ShardMap, op: Op): ShardMap {
    match op
    case Split(sh, now) => SplitMap(m, sh, now)
    case Merge(a, b, now) => MergeMap(m, a, b, now)
    case Rebalance(now) => RebalanceMap(m, now)
  }

  predicate AllowedRun(m: ShardMap, ops: seq<Op>)
    decreases |ops|
  {
    ops != [] ==> Allowed(m, ops[0]) && AllowedRun(Apply(m, ops[0]), ops[1..])
  }

  function RunAll(m: ShardMap, ops: seq<Op>): ShardMap
    decreases |ops|
  {
    if ops == [] then m else RunAll(Apply(m, ops[0]), ops[1..])
  }

  function Changes(ops: seq<Op>): nat {
    if ops == [] then 0 else (if ops[0].Rebalance? then 0 else 1) + Changes(ops[1..])
  }

  function Splits(ops: seq<Op>): nat {
    if ops == [] then 0 else (if ops[0].Split? then 1 else 0) + Splits(ops[1..])
  }

  lemma SplittableHasKey(s: Key, e: Key)
    requires Splittable(s, e)
    ensures SplitKey(s, e) != []
  {
    SplitKeyInside(s, e);
  }

  lemma StepKeeps(m: ShardMap, op: Op, key: Key)
    requires Good(m) && AllNonNegative(m) && Allowed(m, op)
    ensures var m' := Apply(m, op);
      && Good(m') && AllNonNegative(m')
      && (Owned(m', key) <==> Owned(m, key))
      && Potential(m') <= Potential(m) - (if op.Rebalance? then 0 else 1)
      && Documents(m) - (if op.Split? then 1 else 0) <= Documents(m') <= Documents(m)
  {
    match op {
      case Split(sh, now) =>
        SplittableHasKey(sh.startKey, sh.endKey);
        SplitKeepsPartition(m, sh, now);
        SplitOwners(m, sh, now, key);
        SplitLightens(m, sh, now);
        SplitDocuments(m, sh, now);
      case Merge(a, b, now) =>
        MergeKeepsPartition(m, a, b, now);
        MergeOwners(m, a, b, now, key);
        MergeLightens(m, a, b, now);
        MergeDocuments(m, a, b, now);
      case Rebalance(now) =>
        RebalanceKeepsGood(m, now);
        RebalanceTotal(m, now, Burden);
        RebalanceTotal(m, now, (sh: Shard) => sh.documentCount);
        assert forall id :: id in RebalanceMap(m, now) <==> id in m;
    }
  }

  /** Every allowed run keeps the ranges a partition of the same keys with prefix-free identifiers, loses at
      most one document per split and creates none, and has at most as many splits and merges as the
      potential of the map it started from. */
  lemma {:induction false} RunKeeps(m: ShardMap, ops: seq<Op>, key: Key)
    requires Good(m) && AllNonNegative(m) && AllowedRun(m, ops)
    ensures Good(RunAll(m, ops)) && AllNonNegative(RunAll(m, ops))
    ensures Owned(RunAll(m, ops), key) <==> Owned(m, key)
    ensures Documents(m) - Splits(ops) <= Documents(RunAll(m, ops)) <= Documents(m)
    ensures Changes(ops) <= Potential(m)
    decreases |ops|
  {
    if ops == [] {
      PotentialNonNegative(m);
    } else {
      StepKeeps(m, ops[0], key);
      RunKeeps(Apply(m, ops[0]), ops[1..], key);
    }
  }
}
