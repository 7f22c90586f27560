/** The range shard map: what its shards are and what splitting, merging and rebalancing make of it. */
module RangeShards {
  import opened ByteStrings

  type ShardId = string

  datatype Shard = Shard(
    id: ShardId, name: string, startKey: Key, endKey: Key, nodes: seq<string>, leaderNode: string, status: string,
    createdAt: int, updatedAt: int, lastRebalanced: int,
    documentCount: int, sizeBytes: int, isSplitting: bool, isMerging: bool)

  type ShardMap = map<ShardId, Shard>

  const SIZE_THRESHOLD := 100 * 1024 * 1024
  const COUNT_THRESHOLD := 1000000
  const MIN_SHARD_SIZE := 10 * 1024 * 1024

  // ---------- Ranges ----------

  /** An empty end key means that the range has no upper end. */
  predicate Covers(sh: Shard, key: Key) {
    !Less(key, sh.startKey) && (sh.endKey == [] || Less(key, sh.endKey))
  }

  predicate NonEmpty(sh: Shard) {
    sh.endKey == [] || Less(sh.startKey, sh.endKey)
  }

  /** a lies wholly below b. */
  predicate Below(a: Shard, b: Shard) {
    a.endKey != [] && !Less(b.startKey, a.endKey)
  }

  ghost predicate Partition(m: ShardMap) {
    && (forall id :: id in m ==> NonEmpty(m[id]))
    && (forall id, jd :: id in m && jd in m && id != jd ==> Below(m[id], m[jd]) || Below(m[jd], m[id]))
  }

  ghost predicate Keyed(m: ShardMap) {
    forall id :: id in m ==> m[id].id == id
  }

  /** No live identifier is a prefix of another. */
  ghost predicate PrefixFree(ids: set<ShardId>) {
    forall a, b :: a in ids && b in ids && a != b ==> !(a <= b)
  }

  ghost predicate Good(m: ShardMap) {
    Keyed(m) && PrefixFree(m.Keys) && Partition(m)
  }

  // ---------- Splitting ----------

  /** The source averages byte by byte in eight-bit arithmetic, without carrying. */
  function AverageByte(a: Byte, b: Byte): Byte {
    ((a + b) % 256) / 2
  }

  function Middle(s: Key, e: Key): Key {
    if s == [] then []
    else if e == [] then s
    else [AverageByte(s[0], e[0])] + Middle(s[1..], e[1..])
  }

  function SplitKey(s: Key, e: Key): Key {
    if s == [] || e == [] then [] else Middle(s, e)
  }

  /** The source's integer division, which truncates toward zero. */
  function Half(x: int): int {
    if x < 0 then -((-x) / 2) else x / 2
  }

  function LeftHalf(sh: Shard, k: Key, now: int): Shard {
    sh.(id := sh.id + "_left", name := sh.name + "_left", endKey := k, status := "active",
        createdAt := now, updatedAt := now, lastRebalanced := now,
        documentCount := Half(sh.documentCount), sizeBytes := Half(sh.sizeBytes), isSplitting := false, isMerging := false)
  }

  function RightHalf(sh: Shard, k: Key, now: int): Shard {
    sh.(id := sh.id + "_right", name := sh.name + "_right", startKey := k, status := "active",
        createdAt := now, updatedAt := now, lastRebalanced := now,
        documentCount := Half(sh.documentCount), sizeBytes := Half(sh.sizeBytes), isSplitting := false, isMerging := false)
  }

  predicate OverThreshold(sh: Shard) {
    sh.sizeBytes > SIZE_THRESHOLD || sh.documentCount > COUNT_THRESHOLD
  }

  function SplitMap(m: ShardMap, sh: Shard, now: int): ShardMap {
    var k := SplitKey(sh.startKey, sh.endKey);
    if k == [] then m
    else (m - {sh.id})[sh.id + "_left" := LeftHalf(sh, k, now)][sh.id + "_right" := RightHalf(sh, k, now)]
  }

  // ---------- Merging ----------

  function MergedId(a: Shard): ShardId {
    a.id + "_merged"
  }

  function Merged(a: Shard, b: Shard, now: int): Shard {
    a.(id := MergedId(a), name := a.name + "_merged", endKey := b.endKey, status := "active",
       createdAt := now, updatedAt := now, lastRebalanced := now,
       documentCount := a.documentCount + b.documentCount, sizeBytes := a.sizeBytes + b.sizeBytes,
       isSplitting := false, isMerging := false)
  }

  predicate Qualifies(a: Shard, b: Shard) {
    && !a.isSplitting && !a.isMerging && !b.isSplitting && !b.isMerging
    && a.endKey == b.startKey
    && a.sizeBytes + b.sizeBytes < MIN_SHARD_SIZE
    && a.documentCount + b.documentCount < COUNT_THRESHOLD / 10
  }

  function MergeMap(m: ShardMap, a: Shard, b: Shard, now: int): ShardMap {
    (m - {a.id, b.id})[MergedId(a) := Merged(a, b, now)]
  }

  function RebalanceMap(m: ShardMap, now: int): ShardMap {
    map id | id in m :: m[id].(lastRebalanced := now, updatedAt := now)
  }

  // ---------- The sorted list ----------

  ghost predicate SortedByStart(s: seq<Shard>) {
    forall i, j :: 0 <= i < j < |s| ==> !Less(s[j].startKey, s[i].startKey)
  }

  /** The sorted list holds exactly the shards of the map. */
  ghost predicate SortedView(s: seq<Shard>, m: ShardMap) {
    && SortedByStart(s)
    && |s| == |m|
    && (forall i :: 0 <= i < |s| ==> s[i].id in m && m[s[i].id] == s[i])
    && (forall i, j :: 0 <= i < j < |s| ==> s[i].id != s[j].id)
    && (forall id :: id in m ==> m[id] in s)
  }
}
