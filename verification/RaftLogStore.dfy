/** The in-memory log store that Raft writes to: appending with conflict truncation, deletion of ranges,
    and the first and last index kept beside the entries. */
module RaftLogStore {
  import opened Wrappers

  type Index = nat

  datatype Entry = Entry(index: Index, term: nat, payload: string)

  /** The entries by index, and the two recorded bounds. */
  datatype Log = Log(data: map<Index, Entry>, first: Index, last: Index)

  // ---------- What each operation makes of a log ----------

  function Without(data: map<Index, Entry>, min: Index, max: Index): map<Index, Entry> {
    map i | i in data && !(min <= i <= max) :: data[i]
  }

  /** Deletes indices min..max and moves the last index down if the end was deleted. */
  function Cleared(l: Log, min: Index, max: Index): Log {
    Log(Without(l.data, min, max), l.first,
        if min <= l.last <= max then (if min > 0 then min - 1 else 0) else l.last)
  }

  function Deleted(l: Log, min: Index, max: Index): Log {
    var c := Cleared(l, min, max);
    var f := if min <= c.first then max + 1 else c.first;
    c.(first := if f > c.last then c.last + 1 else f)
  }

  /** An entry that is already there with the same or a later term is left alone. */
  predicate Kept(l: Log, e: Entry) {
    e.index in l.data && l.data[e.index].term >= e.term
  }

  function Written(l: Log, e: Entry): Log {
    Log(l.data[e.index := e],
        if e.index < l.first || l.first == 0 then e.index else l.first,
        if l.last == 0 || e.index > l.last then e.index else l.last)
  }

  function Stored(l: Log, e: Entry): Log {
    if Kept(l, e) then l
    else if e.index in l.data then Written(Cleared(l, e.index + 1, l.last), e)
    else Written(l, e)
  }

  function StoredAll(l: Log, es: seq<Entry>): Log
    decreases |es|
  {
    if es == [] then l else StoredAll(Stored(l, es[0]), es[1..])
  }

  /** The first index that the store reports: zero stands for an empty log. */
  function FirstOf(l: Log): Index {
    if l.last == 0 then 0 else l.first
  }

  /** What reading an index finds. */
  function Found(l: Log, i: Index): Option<Entry> {
    if i in l.data then Some(l.data[i]) else None
  }

  lemma {:induction false} StoredAllAppend(l: Log, es: seq<Entry>, e: Entry)
    ensures StoredAll(l, es + [e]) == Stored(StoredAll(l, es), e)
    decreases |es|
  {
    if es == [] {
      assert [e][1..] == [];
    } else {
      assert (es + [e])[1..] == es[1..] + [e];
      StoredAllAppend(Stored(l, es[0]), es[1..], e);
    }
  }

  // ---------- The store ----------

  class InmemStore {
    var data: map<Index, Entry>
    var firstIndex: Index
    var lastIndex: Index

    constructor ()
      ensures View() == Log(map[], 1, 0)
    {
      data := map[];
      firstIndex := 1;
      lastIndex := 0;
    }

    function View(): Log
      reads this
    {
      Log(data, firstIndex, lastIndex)
    }

    method FirstIndex() returns (i: Index)
      ensures i == FirstOf(View())
      ensures Contiguous(View()) && data != map[] ==> i in data && forall k :: k in data ==> i <= k
      ensures Contiguous(View()) && data == map[] ==> (i == 0 <==> lastIndex == 0)
    {
      FirstMeaning(View());
      if lastIndex == 0 {
        return 0;
      }
      i := firstIndex;
    }

    method LastIndex() returns (i: Index)
      ensures i == lastIndex
    {
      i := lastIndex;
    }

    method GetLog(index: Index) returns (r: Option<Entry>)
      ensures r == Found(View(), index)
      ensures Contiguous(View()) ==> (r.Some? <==> firstIndex <= index <= lastIndex) && (r.Some? ==> r.value.index == index)
    {
      if index !in data {
        return None;
      }
      r := Some(data[index]);
    }

    /** Stores a batch, entry by entry. */
    method StoreLogs(logs: seq<Entry>)
      modifies this
      ensures View() == StoredAll(old(View()), logs)
    {
      if |logs| == 0 {
        return;
      }
      for n := 0 to |logs|
        invariant View() == StoredAll(old(View()), logs[..n])
      {
        var log := logs[n];
        ghost var before := View();
        assert logs[..n + 1] == logs[..n] + [log];
        StoredAllAppend(old(View()), logs[..n], log);
        if log.index in data {
          var existing := data[log.index];
          if existing.term == log.term {
            continue;
          }
          if existing.term > log.term {
            continue;
          }
          DeleteRangeLocked(log.index + 1, lastIndex);
        }
        ghost var cleared := View();
        assert Stored(before, log) == Written(cleared, log);
        data := data[log.index := log];
        if lastIndex == 0 || log.index > lastIndex {
          lastIndex := log.index;
        }
        if log.index < firstIndex || firstIndex == 0 {
          firstIndex := log.index;
        }
        assert View() == Written(cleared, log);
      }
      assert logs[..|logs|] == logs;
    }

    method DeleteRangeLocked(min: Index, max: Index)
      modifies this`data, this`lastIndex
      ensures View() == Cleared(old(View()), min, max)
    {
      var i := min;
      while i <= max
        invariant min <= i && lastIndex == old(lastIndex)
        invariant data == map k | k in old(data) && !(min <= k <= max && k < i) :: old(data)[k]
        decreases max + 1 - i
      {
        data := data - {i};
        i := i + 1;
      }
      assert data == Without(old(data), min, max);
      if max >= lastIndex && min <= lastIndex {
        if min > 0 {
          lastIndex := min - 1;
        } else {
          lastIndex := 0;
        }
      }
    }

    method DeleteRange(min: Index, max: Index)
      modifies this
      ensures View() == Deleted(old(View()), min, max)
    {
      DeleteRangeLocked(min, max);
      if min <= firstIndex {
        firstIndex := max + 1;
      }
      if firstIndex > lastIndex {
        firstIndex := lastIndex + 1;
      }
    }
  }

  // ---------- Contiguity ----------

  /** The stored indices are exactly those from the first to the last, each holding its own entry. */
  ghost predicate Contiguous(l: Log) {
    && 1 <= l.first <= l.last + 1
    && (forall i :: i in l.data <==> l.first <= i <= l.last)
    && (forall i :: i in l.data ==> l.data[i].index == i)
  }

  /** In a contiguous log that holds entries the reported first index is that of the earliest. For an empty one it
      is zero, as it should be, exactly when the last index is zero too. */
  lemma FirstMeaning(l: Log)
    ensures Contiguous(l) && l.data != map[] ==> FirstOf(l) in l.data && forall k :: k in l.data ==> FirstOf(l) <= k
    ensures Contiguous(l) && l.data == map[] ==> (FirstOf(l) == 0 <==> l.last == 0)
  {
    if Contiguous(l) && l.data != map[] {
      var k :| k in l.data;
      assert l.first in l.data;
    }
    if Contiguous(l) && l.data == map[] {
      assert l.first !in l.data;
    }
  }

  /** A log that held entries 3 and 4 and is emptied still reports 3 as its first index. */
  lemma EmptiedReportsFirst(e3: Entry, e4: Entry)
    requires e3.index == 3 && e4.index == 4
    ensures var l := Log(map[3 := e3, 4 := e4], 3, 4);
      Contiguous(l) && Deleted(l, 3, 4) == Log(map[], 3, 2) && FirstOf(Deleted(l, 3, 4)) == 3
  {
    var l := Log(map[3 := e3, 4 := e4], 3, 4);
    assert Without(l.data, 3, 4) == map[];
  }

  predicate StoreFits(l: Log, i: Index) {
    1 <= i && l.first <= i + 1 && i <= l.last + 1
  }

  predicate DeleteFits(l: Log, min: Index, max: Index) {
    if min <= l.first then l.first <= max + 1 else max >= l.last || min > max
  }

  /** Storing an entry keeps the log contiguous exactly when its index touches the stored range. */
  lemma StoreKeepsContiguous(l: Log, e: Entry)
    requires Contiguous(l)
    ensures Contiguous(Stored(l, e)) <==> StoreFits(l, e.index)
  {
    var l' := Stored(l, e);
    if !StoreFits(l, e.index) {
      assert e.index in l'.data;
      if e.index > l.last + 1 {
        assert l.last + 1 !in l'.data && l'.first <= l.last + 1 <= l'.last;
      } else if e.index >= 1 {
        assert l.first - 1 !in l'.data && l'.first <= l.first - 1 <= l'.last;
      }
    }
  }

  /** Deleting a range keeps the log contiguous exactly when the range is a prefix that reaches the first
      entry, a suffix, or empty above the first index. */
  lemma DeleteKeepsContiguous(l: Log, min: Index, max: Index)
    requires Contiguous(l)
    ensures Contiguous(Deleted(l, min, max)) <==> DeleteFits(l, min, max)
  {
    var l' := Deleted(l, min, max);
    if !DeleteFits(l, min, max) {
      if min <= l.first {
        assert max + 1 !in l'.data && l'.first == max + 1 <= l'.last;
      } else {
        assert min !in l'.data && l'.first <= min <= l'.last;
      }
    }
  }

  /** Emptying the log and then storing at a higher index, as installing a snapshot does, leaves a hole. */
  lemma EmptyThenHigher(e1: Entry, e2: Entry)
    requires e1.index == 1 && e2.index == 10
    ensures var l := Deleted(Stored(Log(map[], 1, 0), e1), 1, 1);
      l == Log(map[], 1, 0) && Stored(l, e2).first == 1 && Stored(l, e2).last == 10 && 5 !in Stored(l, e2).data
  {
  }

  datatype Op = Store(e: Entry) | Delete(min: Index, max: Index)

  function Applied(l: Log, op: Op): Log {
    match op
    case Store(e) => Stored(l, e)
    case Delete(min, max) => Deleted(l, min, max)
  }

  predicate Fits(l: Log, op: Op) {
    match op
    case Store(e) => StoreFits(l, e.index)
    case Delete(min, max) => DeleteFits(l, min, max)
  }

  function AppliedAll(l: Log, ops: seq<Op>): Log
    decreases |ops|
  {
    if ops == [] then l else AppliedAll(Applied(l, ops[0]), ops[1..])
  }

  predicate AllFit(l: Log, ops: seq<Op>)
    decreases |ops|
  {
    ops != [] ==> Fits(l, ops[0]) && AllFit(Applied(l, ops[0]), ops[1..])
  }

  /** Contiguous at the start of the run and after each of its operations. */
  ghost predicate ContiguousThroughout(l: Log, ops: seq<Op>)
    decreases |ops|
  {
    Contiguous(l) && (ops != [] ==> ContiguousThroughout(Applied(l, ops[0]), ops[1..]))
  }

  /** The log stays contiguous throughout a run exactly when every operation of the run fits. */
  lemma {:induction false} RunContiguous(l: Log, ops: seq<Op>)
    requires Contiguous(l)
    ensures ContiguousThroughout(l, ops) <==> AllFit(l, ops)
    decreases |ops|
  {
    if ops != [] {
      match ops[0] {
        case Store(e) => StoreKeepsContiguous(l, e);
        case Delete(min, max) => DeleteKeepsContiguous(l, min, max);
      }
      if Contiguous(Applied(l, ops[0])) {
        RunContiguous(Applied(l, ops[0]), ops[1..]);
      }
    }
  }

  // ---------- The log never moves backwards ----------

  function Terms(l: Log): seq<nat>
    requires l.first <= l.last + 1 && forall i :: l.first <= i <= l.last ==> i in l.data
  {
    seq<nat>(l.last + 1 - l.first, k requires 0 <= k < l.last + 1 - l.first => l.data[l.first + k].term)
  }

  /** Lexicographic order, a proper prefix being smaller. */
  predicate Smaller(s: seq<nat>, t: seq<nat>) {
    t != [] && (s == [] || s[0] < t[0] || (s[0] == t[0] && Smaller(s[1..], t[1..])))
  }

  lemma {:induction false} SmallerAt(s: seq<nat>, t: seq<nat>, k: nat)
    requires k <= |s| && k < |t| && s[..k] == t[..k] && (k < |s| ==> s[k] < t[k])
    ensures Smaller(s, t)
  {
    if k > 0 {
      assert s[0] == s[..k][0] == t[..k][0] == t[0];
      assert s[1..][..k - 1] == s[..k][1..] && t[1..][..k - 1] == t[..k][1..];
      SmallerAt(s[1..], t[1..], k - 1);
    }
  }

  lemma {:induction false} SmallerTransitive(s: seq<nat>, t: seq<nat>, u: seq<nat>)
    requires Smaller(s, t) && Smaller(t, u)
    ensures Smaller(s, u)
  {
    if s != [] && s[0] == t[0] == u[0] {
      SmallerTransitive(s[1..], t[1..], u[1..]);
    }
  }

  /** The terms before a newly stored entry stay, and its own is the last. */
  lemma StoredTerms(l: Log, e: Entry)
    requires Contiguous(l) && l.first <= e.index <= l.last + 1 && !Kept(l, e)
    ensures Contiguous(Stored(l, e)) && Stored(l, e).first == l.first && Stored(l, e).last == e.index
    ensures Terms(Stored(l, e)) == Terms(l)[..e.index - l.first] + [e.term]
    ensures e.index <= l.last ==> Terms(l)[e.index - l.first] < e.term
  {
    StoreKeepsContiguous(l, e);
  }

  /** Storing an entry either changes nothing or makes the sequence of terms strictly larger. */
  lemma StoreGrows(l: Log, e: Entry)
    requires Contiguous(l) && l.first <= e.index <= l.last + 1
    ensures Contiguous(Stored(l, e)) && Stored(l, e).first == l.first && e.index <= Stored(l, e).last
    ensures if Kept(l, e) then Stored(l, e) == l else Smaller(Terms(l), Terms(Stored(l, e)))
  {
    StoreKeepsContiguous(l, e);
    if !Kept(l, e) {
      var k := e.index - l.first;
      StoredTerms(l, e);
      assert Terms(Stored(l, e))[..k] == Terms(l)[..k];
      SmallerAt(Terms(l), Terms(Stored(l, e)), k);
    }
  }

  /** Each index of the batch lies in the log as it then is, or just after it. */
  predicate BatchFits(l: Log, es: seq<Entry>)
    decreases |es|
  {
    es != [] ==> l.first <= es[0].index <= l.last + 1 && BatchFits(Stored(l, es[0]), es[1..])
  }

  lemma {:induction false} BatchGrows(l: Log, es: seq<Entry>)
    requires Contiguous(l) && BatchFits(l, es)
    ensures Contiguous(StoredAll(l, es))
    ensures StoredAll(l, es) == l || Smaller(Terms(l), Terms(StoredAll(l, es)))
    decreases |es|
  {
    if es != [] {
      StoreGrows(l, es[0]);
      BatchGrows(Stored(l, es[0]), es[1..]);
      if Stored(l, es[0]) != l && StoredAll(l, es) != Stored(l, es[0]) {
        SmallerTransitive(Terms(l), Terms(Stored(l, es[0])), Terms(StoredAll(l, es)));
      }
    }
  }

  // ---------- Storing twice ----------

  ghost predicate Increasing(es: seq<Entry>) {
    forall i, j :: 0 <= i < j < |es| ==> es[i].index < es[j].index
  }

  /** Entries of a batch with later indices leave the entry at an earlier index alone. */
  lemma {:induction false} LaterLeavesEarlier(l: Log, es: seq<Entry>, i: Index)
    requires i in l.data && forall j :: 0 <= j < |es| ==> i < es[j].index
    ensures i in StoredAll(l, es).data && StoredAll(l, es).data[i] == l.data[i]
    decreases |es|
  {
    if es != [] {
      LaterLeavesEarlier(Stored(l, es[0]), es[1..], i);
    }
  }

  lemma {:induction false} BatchKept(l: Log, es: seq<Entry>)
    requires Increasing(es)
    ensures forall j :: 0 <= j < |es| ==> Kept(StoredAll(l, es), es[j])
    decreases |es|
  {
    if es != [] {
      LaterLeavesEarlier(Stored(l, es[0]), es[1..], es[0].index);
      BatchKept(Stored(l, es[0]), es[1..]);
      forall j | 0 <= j < |es|
        ensures Kept(StoredAll(l, es), es[j])
      {
        assert j > 0 ==> es[j] == es[1..][j - 1];
      }
    }
  }

  /** Reading an index of a batch after it was stored finds the batch's entry, or the entry that was there before,
      which then has no earlier term. */
  lemma {:induction false} ReadAfterStore(l: Log, es: seq<Entry>, j: nat)
    requires Increasing(es) && j < |es|
    ensures var found := Found(StoredAll(l, es), es[j].index);
      found == Some(es[j]) || (Kept(l, es[j]) && found == Found(l, es[j].index))
    decreases |es|
  {
    if j == 0 {
      LaterLeavesEarlier(Stored(l, es[0]), es[1..], es[0].index);
    } else {
      ReadAfterStore(Stored(l, es[0]), es[1..], j - 1);
    }
  }

  /** Reading any other index finds what it found before, or nothing if it lies behind an entry of the batch. */
  lemma {:induction false} ReadOthersAfterStore(l: Log, es: seq<Entry>, i: Index)
    requires forall j :: 0 <= j < |es| ==> es[j].index != i
    ensures || Found(StoredAll(l, es), i) == Found(l, i)
            || (Found(StoredAll(l, es), i) == None && exists j :: 0 <= j < |es| && es[j].index < i)
    decreases |es|
  {
    if es != [] {
      ReadOthersAfterStore(Stored(l, es[0]), es[1..], i);
      assert es[0].index < i || Found(Stored(l, es[0]), i) == Found(l, i);
      assert forall j :: 0 <= j < |es[1..]| ==> es[1..][j] == es[j + 1];
    }
  }

  /** Deleting a range takes away exactly the entries in it. */
  lemma ReadAfterDelete(l: Log, min: Index, max: Index, i: Index)
    ensures Found(Deleted(l, min, max), i) == if min <= i <= max then None else Found(l, i)
  {
  }

  lemma {:induction false} KeptChangesNothing(l: Log, es: seq<Entry>)
    requires forall j :: 0 <= j < |es| ==> Kept(l, es[j])
    ensures StoredAll(l, es) == l
    decreases |es|
  {
    if es != [] {
      assert forall j :: 0 <= j < |es[1..]| ==> es[1..][j] == es[j + 1];
      KeptChangesNothing(l, es[1..]);
    }
  }

  /** Storing a batch with increasing indices a second time changes nothing, whatever the log held. */
  lemma StoringTwice(l: Log, es: seq<Entry>)
    requires Increasing(es)
    ensures StoredAll(StoredAll(l, es), es) == StoredAll(l, es)
  {
    BatchKept(l, es);
    KeptChangesNothing(StoredAll(l, es), es);
  }

  // ---------- The conflict rule of Raft ----------

  function Entries(l: Log): seq<Entry>
    requires l.first <= l.last + 1 && forall i :: l.first <= i <= l.last ==> i in l.data
  {
    seq(l.last + 1 - l.first, k requires 0 <= k < l.last + 1 - l.first => l.data[l.first + k])
  }

  predicate Consecutive(es: seq<Entry>) {
    forall j :: 0 <= j < |es| ==> es[j].index == es[0].index + j
  }

  /** How many leading entries of the batch are in the log with the same term, the batch starting at position p. */
  function Agreeing(log: seq<Entry>, p: nat, es: seq<Entry>): (n: nat)
    requires p <= |log|
    ensures n <= |es| && p + n <= |log|
    ensures forall j :: 0 <= j < n ==> log[p + j].term == es[j].term
    ensures n < |es| && p + n < |log| ==> log[p + n].term != es[n].term
    decreases |es|
  {
    if es == [] || p == |log| || log[p].term != es[0].term then 0
    else 1 + Agreeing(log, p + 1, es[1..])
  }

  /** Section 5.3 of the Raft paper: the first conflicting entry and all that follow it are deleted, and the
      entries of the batch that are not in the log are appended. */
  function RaftRule(log: seq<Entry>, p: nat, es: seq<Entry>): seq<Entry>
    requires p <= |log|
  {
    var n := Agreeing(log, p, es);
    if n == |es| then log else log[..p + n] + es[n..]
  }

  /** The first conflicting entry of the log has a later term than the batch's. */
  predicate StaleConflict(log: seq<Entry>, p: nat, es: seq<Entry>)
    requires p <= |log|
  {
    var n := Agreeing(log, p, es);
    n < |es| && p + n < |log| && log[p + n].term > es[n].term
  }

  lemma ConsecutiveTail(es: seq<Entry>)
    requires Consecutive(es) && es != []
    ensures Consecutive(es[1..]) && (es[1..] != [] ==> es[1..][0].index == es[0].index + 1)
  {
    assert forall j :: 0 <= j < |es[1..]| ==> es[1..][j] == es[j + 1];
  }

  lemma HeadAndTail(front: seq<Entry>, es: seq<Entry>)
    requires es != []
    ensures front + [es[0]] + es[1..] == front + es
  {
  }

  lemma AppendOne(l: Log, e: Entry)
    requires Contiguous(l) && e.index == l.last + 1
    ensures Contiguous(Stored(l, e)) && Stored(l, e).first == l.first && Stored(l, e).last == e.index
    ensures Entries(Stored(l, e)) == Entries(l) + [e]
  {
    StoreKeepsContiguous(l, e);
  }

  /** Appending a consecutive batch just after the end. */
  lemma {:induction false} AppendBatch(l: Log, es: seq<Entry>)
    requires Contiguous(l) && Consecutive(es) && (es != [] ==> es[0].index == l.last + 1)
    ensures Contiguous(StoredAll(l, es)) && StoredAll(l, es).first == l.first
    ensures Entries(StoredAll(l, es)) == Entries(l) + es
    decreases |es|
  {
    if es != [] {
      AppendOne(l, es[0]);
      ConsecutiveTail(es);
      AppendBatch(Stored(l, es[0]), es[1..]);
      HeadAndTail(Entries(l), es);
    }
  }

  lemma ReplaceOne(l: Log, e: Entry)
    requires Contiguous(l) && l.first <= e.index <= l.last && l.data[e.index].term < e.term
    ensures Contiguous(Stored(l, e)) && Stored(l, e).first == l.first && Stored(l, e).last == e.index
    ensures Entries(Stored(l, e)) == Entries(l)[..e.index - l.first] + [e]
  {
    StoreKeepsContiguous(l, e);
  }

  /** A consecutive batch keeps the log contiguous and its first index in place. */
  lemma {:induction false} BatchStays(l: Log, es: seq<Entry>)
    requires Contiguous(l) && Consecutive(es) && (es != [] ==> l.first <= es[0].index <= l.last + 1)
    ensures Contiguous(StoredAll(l, es)) && StoredAll(l, es).first == l.first
    ensures es != [] ==> es[0].index <= StoredAll(l, es).last
    decreases |es|
  {
    if es != [] {
      StoreGrows(l, es[0]);
      BatchStays(Stored(l, es[0]), es[1..]);
      if |es| == 1 {
        assert es[1..] == [];
      }
    }
  }

  lemma AgreeingStep(log: seq<Entry>, p: nat, es: seq<Entry>)
    requires p < |log| && es != [] && log[p].term == es[0].term
    ensures Agreeing(log, p, es) == 1 + Agreeing(log, p + 1, es[1..])
  {
  }

  lemma TailSlice(es: seq<Entry>, n: nat)
    requires 0 < n <= |es|
    ensures es[n..] == es[1..][n - 1..]
  {
  }

  /** The first entry of the batch agrees with the log: both sides go on with the rest of the batch. */
  lemma AgreeingHead(log: seq<Entry>, p: nat, es: seq<Entry>)
    requires p < |log| && es != [] && log[p].term == es[0].term
    ensures RaftRule(log, p, es) == RaftRule(log, p + 1, es[1..])
    ensures StaleConflict(log, p, es) <==> StaleConflict(log, p + 1, es[1..])
  {
    AgreeingStep(log, p, es);
    TailSlice(es, Agreeing(log, p, es));
  }

  /** What the Raft rule yields when the first entry of the batch conflicts. */
  lemma ConflictingHead(log: seq<Entry>, p: nat, es: seq<Entry>)
    requires p < |log| && es != [] && log[p].term != es[0].term
    ensures RaftRule(log, p, es) == log[..p] + es
    ensures StaleConflict(log, p, es) <==> log[p].term > es[0].term
  {
    assert es[0..] == es;
  }

  /** Once the first entry of a batch is the last of the log, the rest is appended to it. */
  lemma RestAppended(l: Log, front: seq<Entry>, es: seq<Entry>)
    requires Contiguous(l) && Consecutive(es) && es != [] && l.last == es[0].index && Entries(l) == front + [es[0]]
    ensures Contiguous(StoredAll(l, es[1..])) && StoredAll(l, es[1..]).first == l.first
    ensures Entries(StoredAll(l, es[1..])) == front + es
  {
    ConsecutiveTail(es);
    AppendBatch(l, es[1..]);
    HeadAndTail(front, es);
  }

  /** The conflict is with an entry of an earlier term, which goes with all that follow it. */
  lemma ReplacedHead(l: Log, es: seq<Entry>)
    requires Contiguous(l) && Consecutive(es) && es != [] && l.first <= es[0].index <= l.last
    requires l.data[es[0].index].term < es[0].term
    ensures Contiguous(StoredAll(l, es)) && StoredAll(l, es).first == l.first
    ensures Entries(StoredAll(l, es)) == Entries(l)[..es[0].index - l.first] + es
  {
    ReplaceOne(l, es[0]);
    RestAppended(Stored(l, es[0]), Entries(l)[..es[0].index - l.first], es);
  }

  /** The conflict is with an entry of a later term, which stays. */
  lemma RefusedHead(l: Log, es: seq<Entry>)
    requires Contiguous(l) && Consecutive(es) && es != [] && l.first <= es[0].index <= l.last
    requires l.data[es[0].index].term > es[0].term
    requires Contiguous(StoredAll(l, es)) && StoredAll(l, es).first == l.first
    ensures Entries(StoredAll(l, es)) != Entries(l)[..es[0].index - l.first] + es
  {
    LaterLeavesEarlier(l, es[1..], es[0].index);
    DifferAt(Entries(StoredAll(l, es)), Entries(l)[..es[0].index - l.first] + es, es[0].index - l.first);
  }

  /** The log holds one entry of term 3, and the batch one of term 2 for the same index: the rule would replace the
      entry, the store keeps it. */
  lemma StaleConflictKept(e: Entry, stale: Entry)
    requires e.index == 1 && e.term == 3 && stale.index == 1 && stale.term == 2
    ensures var l := Log(map[1 := e], 1, 1);
      && Contiguous(l) && Touches(l, [stale]) && StaleConflict(Entries(l), 0, [stale])
      && StoredAll(l, [stale]) == l && RaftRule(Entries(l), 0, [stale]) == [stale]
  {
    var l := Log(map[1 := e], 1, 1);
    assert Entries(l) == [e] && [stale][0..] == [stale] && [stale][1..] == [];
    assert Agreeing([e], 0, [stale]) == 0;
  }

  lemma DifferAt(s: seq<Entry>, t: seq<Entry>, p: nat)
    requires p < |s| && p < |t| && s[p] != t[p]
    ensures s != t
  {
  }

  predicate Touches(l: Log, es: seq<Entry>) {
    es != [] && l.first <= es[0].index <= l.last + 1
  }

  /** The result of the batch is that of the Raft rule exactly when no first conflict is with a later term. */
  ghost predicate Obeys(l: Log, es: seq<Entry>)
    requires Contiguous(l) && Touches(l, es) && Contiguous(StoredAll(l, es))
  {
    Entries(StoredAll(l, es)) == RaftRule(Entries(l), es[0].index - l.first, es)
    <==> !StaleConflict(Entries(l), es[0].index - l.first, es)
  }

  lemma EntryAt(l: Log, i: Index)
    requires Contiguous(l) && l.first <= i <= l.last
    ensures i - l.first < |Entries(l)| && Entries(l)[i - l.first] == l.data[i]
  {
  }

  lemma AppendedObeys(l: Log, es: seq<Entry>)
    requires Contiguous(l) && Consecutive(es) && Touches(l, es) && es[0].index == l.last + 1
    ensures Contiguous(StoredAll(l, es)) && Obeys(l, es)
  {
    AppendBatch(l, es);
    assert Entries(l)[..es[0].index - l.first] == Entries(l);
  }

  lemma ConflictingObeys(l: Log, es: seq<Entry>)
    requires Contiguous(l) && Consecutive(es) && Touches(l, es) && es[0].index <= l.last
    requires l.data[es[0].index].term != es[0].term
    requires Contiguous(StoredAll(l, es)) && StoredAll(l, es).first == l.first
    ensures Obeys(l, es)
  {
    EntryAt(l, es[0].index);
    ConflictingHead(Entries(l), es[0].index - l.first, es);
    if l.data[es[0].index].term < es[0].term {
      ReplacedHead(l, es);
    } else {
      RefusedHead(l, es);
    }
  }

  lemma AgreeingObeys(l: Log, es: seq<Entry>)
    requires Contiguous(l) && Consecutive(es) && Touches(l, es) && es[0].index <= l.last
    requires l.data[es[0].index].term == es[0].term && Contiguous(StoredAll(l, es))
    requires |es| > 1 ==> StoredAll(l, es[1..]) == StoredAll(l, es) && Obeys(l, es[1..])
    ensures Obeys(l, es)
  {
    AgreeingHead(Entries(l), es[0].index - l.first, es);
    if |es| == 1 {
      assert es[1..] == [] && StoredAll(l, es) == l;
    }
  }

  /** For a batch of consecutive entries that begins inside the log or just after it, the result is that of the
      Raft rule exactly when the first conflict, if any, is not with an entry of a later term. */
  lemma {:induction false} ConflictRule(l: Log, es: seq<Entry>)
    requires Contiguous(l) && Consecutive(es) && Touches(l, es)
    ensures Contiguous(StoredAll(l, es)) && StoredAll(l, es).first == l.first && Obeys(l, es)
    decreases |es|
  {
    BatchStays(l, es);
    if es[0].index == l.last + 1 {
      AppendedObeys(l, es);
    } else if l.data[es[0].index].term == es[0].term {
      assert Stored(l, es[0]) == l;
      if |es| > 1 {
        ConflictRule(l, es[1..]);
      }
      AgreeingObeys(l, es);
    } else {
      ConflictingObeys(l, es);
    }
  }
}
