/** The ring buffer that keeps the history of load levels. */
module BufferRing {

  import opened Arithmetic

  datatype Level = LevelNone | LevelLow | LevelMedium | LevelHigh | LevelCritical

  datatype RingEntry = RingEntry(level: Level, timestamp: int, cpu: real, memory: real, queueSize: int, conns: int)

  const ZERO_ENTRY := RingEntry(LevelNone, 0, 0.0, 0.0, 0, 0)

  /** The most recent n elements, or all of them. */
  function LastOf(s: seq<RingEntry>, n: nat): seq<RingEntry> {
    if n >= |s| then s else s[|s| - n..]
  }

  /** Two indices less than a capacity apart share a slot only if they are equal. */
  lemma SameSlot(i: nat, j: nat, capacity: nat)
    requires capacity > 0 && i <= j < i + capacity && i % capacity == j % capacity
    ensures i == j
  {
    var d := j / capacity - i / capacity;
    assert j - i == d * capacity;
    ProductAtLeast(d, capacity);
  }

  /** The last n of the last entries that a buffer keeps are a suffix of the whole history. */
  lemma LastOfLast(s: seq<RingEntry>, capacity: nat, n: int)
    ensures var count := if |s| < capacity then |s| else capacity;
      LastOf(LastOf(s, capacity), if n < 0 then 0 else n) == s[|s| - (if n < 0 then 0 else if n > count then count else n)..]
  {
  }

  /** Reading one more entry out of its slot. */
  lemma ReadOneMore(pushed: seq<RingEntry>, start: nat, i: nat)
    requires start <= i < |pushed|
    ensures pushed[start..i] + [pushed[i]] == pushed[start..i + 1]
  {
  }

  class BufferRing {
    var entries: array<RingEntry>
    const capacity: nat
    var head: nat
    var tail: nat
    var count: nat

    /** Everything pushed since the buffer was created or last cleared. */
    ghost var pushed: seq<RingEntry>

    ghost predicate Valid()
      reads this, entries
    {
      && capacity > 0 && entries.Length == capacity
      && head == |pushed| && head - tail == count
      && count == (if |pushed| < capacity then |pushed| else capacity)
      && forall i :: tail <= i < head ==> entries[i % capacity] == pushed[i]
    }

    constructor (size: int)
      ensures Valid() && pushed == [] && capacity == (if size <= 0 then 100 else size) && fresh(entries)
    {
      var n := if size <= 0 then 100 else size;
      entries := new RingEntry[n](_ => ZERO_ENTRY);
      capacity := n;
      head, tail, count := 0, 0, 0;
      pushed := [];
    }

    method Push(e: RingEntry)
      requires Valid()
      modifies this`head, this`tail, this`count, this`pushed, entries
      ensures Valid() && pushed == old(pushed) + [e]
    {
      var idx := head % capacity;
      forall i | tail <= i < head && i % capacity == idx
        ensures count == capacity && i == tail
      {
        if i > tail || count < capacity {
          SameSlot(i, head, capacity);
        }
      }
      entries[idx] := e;
      pushed := pushed + [e];
      head := head + 1;
      if count < capacity {
        count := count + 1;
      } else {
        tail := head - capacity;
      }
    }

    /** Both readers walk from some index to the head. */
    method ReadFrom(start: nat) returns (result: seq<RingEntry>)
      requires Valid() && tail <= start <= head
      ensures result == pushed[start..]
    {
      result := [];
      var i := start;
      while i < head
        invariant start <= i <= head && result == pushed[start..i]
      {
        ReadOneMore(pushed, start, i);
        result := result + [entries[i % capacity]];
        i := i + 1;
      }
    }

    method GetAll() returns (result: seq<RingEntry>)
      requires Valid()
      ensures result == LastOf(pushed, capacity)
    {
      if count == 0 {
        return [];
      }
      result := ReadFrom(tail);
    }

    method GetLastN(n: int) returns (result: seq<RingEntry>)
      requires Valid()
      ensures result == LastOf(LastOf(pushed, capacity), if n < 0 then 0 else n)
    {
      LastOfLast(pushed, capacity, n);
      if count == 0 || n <= 0 {
        return [];
      }
      var m := if n > count then count else n;
      var start := head - m;
      if start < 0 {
        start := 0;
      }
      result := ReadFrom(start);
    }

    method Size() returns (n: nat)
      requires Valid()
      ensures n == |LastOf(pushed, capacity)|
    {
      n := count;
    }

    method Clear()
      requires Valid()
      modifies this`head, this`tail, this`count, this`pushed, entries
      ensures Valid() && pushed == []
    {
      head, tail, count := 0, 0, 0;
      pushed := [];
      for i := 0 to entries.Length
        invariant head == 0 && tail == 0 && count == 0 && pushed == []
      {
        entries[i] := ZERO_ENTRY;
      }
    }
  }

  // ---------- What a reader of the history sees ----------

  datatype Op = Push(e: RingEntry) | Clear

  /** What has been pushed since the last clear of a run. */
  function Pushed(ops: seq<Op>): seq<RingEntry> {
    if ops == [] then []
    else
      match ops[|ops| - 1]
      case Push(e) => Pushed(ops[..|ops| - 1]) + [e]
      case Clear => []
  }

  /** The buffer run through any sequence of pushes and clears answers with the most recent entries since the
      last clear, at most as many as its capacity and asked for, in the order they were pushed. */
  method RunThrough(size: int, ops: seq<Op>, n: int) returns (all: seq<RingEntry>, last: seq<RingEntry>)
    ensures all == LastOf(Pushed(ops), if size <= 0 then 100 else size)
    ensures last == LastOf(all, if n < 0 then 0 else n)
  {
    var ring := new BufferRing(size);
    for i := 0 to |ops|
      invariant ring.Valid() && ring.pushed == Pushed(ops[..i])
      invariant fresh(ring) && fresh(ring.entries)
    {
      assert ops[..i + 1][..i] == ops[..i];
      match ops[i] {
        case Push(e) => ring.Push(e);
        case Clear => ring.Clear();
      }
    }
    assert ops[..|ops|] == ops;
    all := ring.GetAll();
    last := ring.GetLastN(n);
  }
}
