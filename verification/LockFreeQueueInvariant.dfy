/** The inductive invariant of the lock-free queue: what holds between any two atomic accesses. */
module LockFreeQueueInvariant {
  import opened Wrappers
  import opened LockFreeQueue

  // ---------- The shape of shared memory ----------

  ghost predicate LinkAt(q: Queue, a: Trace, i: nat) {
    i + 1 < |a.chain| && a.chain[i] < |q.nodes| && q.nodes[a.chain[i]].next == Some(a.chain[i + 1])
  }

  ghost predicate ValueAt(q: Queue, a: Trace, i: nat) {
    i < |a.tasks| && i + 1 < |a.chain| && a.chain[i + 1] < |q.nodes|
    && q.nodes[a.chain[i + 1]].value == Some(a.tasks[i])
  }

  ghost predicate LastHasNoNext(q: Queue, a: Trace) {
    |a.chain| > 0 && a.chain[|a.chain| - 1] < |q.nodes| && q.nodes[a.chain[|a.chain| - 1]].next.None?
  }

  /** The nodes form one chain; head is never past tail and tail lags the last node by at most one. */
  ghost predicate Chained(q: Queue, a: Trace) {
    && |a.chain| == |a.tasks| + 1
    && (forall i :: 0 <= i < |a.chain| ==> a.chain[i] < |q.nodes|)
    && (forall i, j :: 0 <= i < j < |a.chain| ==> a.chain[i] != a.chain[j])
    && (forall i :: 0 <= i < |a.tasks| ==> LinkAt(q, a, i))
    && (forall i :: 0 <= i < |a.tasks| ==> ValueAt(q, a, i))
    && LastHasNoNext(q, a)
    && a.head <= a.tail < |a.chain| <= a.tail + 2
    && q.head == a.chain[a.head]
    && q.tail == a.chain[a.tail]
    && a.moves == |a.tasks| + a.head + a.tail
  }

  // ---------- What a running call may rely on ----------

  /** The node an enqueue has allocated but not linked. */
  function Unlinked(l: Local): Option<NodeId> {
    match l
    case EnqLoadTail(n) => Some(n)
    case EnqLoadNext(n, _) => Some(n)
    case EnqRecheck(n, _, _) => Some(n)
    case EnqHelp(n, _, _) => Some(n)
    case EnqLink(n, _) => Some(n)
    case _ => None
  }

  ghost predicate OwnNode(q: Queue, a: Trace, l: Local, x: Note) {
    Unlinked(l).Some? ==>
      && Unlinked(l).value < |q.nodes|
      && Unlinked(l).value !in a.chain
      && x.arg.Some?
      && q.nodes[Unlinked(l).value] == Node(x.arg, None)
  }

  /** The tail the call loaded is a node the tail has reached. */
  ghost predicate TailSeen(a: Trace, t: NodeId, x: Note) {
    x.tailPos <= a.tail && x.tailPos < |a.chain| && a.chain[x.tailPos] == t
  }

  ghost predicate HeadSeen(a: Trace, h: NodeId, x: Note) {
    x.headPos <= a.head && x.headPos < |a.chain| && a.chain[x.headPos] == h
  }

  ghost predicate Follows(a: Trace, pos: nat, n: NodeId) {
    pos + 1 < |a.chain| && a.chain[pos + 1] == n
  }

  /** If no pointer moved since this iteration began, what the call read is still so. */
  ghost predicate StillCurrent(q: Queue, a: Trace, l: Local, x: Note) {
    x.iter == a.moves ==>
      match l
      case EnqLoadNext(_, t) => q.tail == t
      case EnqRecheck(_, t, nx) => q.tail == t && t < |q.nodes| && q.nodes[t].next == nx
      case EnqHelp(_, t, _) => q.tail == t
      case EnqLink(_, t) => q.tail == t && t < |q.nodes| && q.nodes[t].next.None?
      case DeqLoadTail(h) => q.head == h
      case DeqLoadNext(h, t) => q.head == h && q.tail == t
      case DeqRecheck(h, t, _) => q.head == h && q.tail == t
      case DeqHelp(h, t, _) => q.tail == t
      case DeqSwing(h, _, _) => q.head == h
      case _ => true
  }

  ghost predicate Positions(q: Queue, a: Trace, l: Local, x: Note) {
    match l
    case EnqLoadTail(_) => true
    case EnqLoadNext(_, t) => TailSeen(a, t, x)
    case EnqRecheck(_, t, nx) => TailSeen(a, t, x) && (nx.Some? ==> Follows(a, x.tailPos, nx.value))
    case EnqHelp(_, t, f) => TailSeen(a, t, x) && Follows(a, x.tailPos, f)
    case EnqLink(_, t) => TailSeen(a, t, x)
    case EnqSwing(n, t) => TailSeen(a, t, x) && Follows(a, x.tailPos, n)
    case EnqCount(_) => true
    case DeqLoadHead => true
    case DeqLoadTail(h) => HeadSeen(a, h, x)
    case DeqLoadNext(h, t) => HeadSeen(a, h, x) && TailSeen(a, t, x) && x.headPos <= x.tailPos
    case DeqRecheck(h, t, nx) =>
      && HeadSeen(a, h, x) && TailSeen(a, t, x) && x.headPos <= x.tailPos
      && (nx.Some? ==> Follows(a, x.headPos, nx.value))
      && (nx.None? ==> h == t)
    case DeqHelp(h, t, f) => TailSeen(a, t, x) && Follows(a, x.tailPos, f)
    case DeqSwing(h, f, task) =>
      && HeadSeen(a, h, x) && Follows(a, x.headPos, f) && x.headPos + 1 <= a.tail
      && x.headPos < |a.tasks| && task == Some(a.tasks[x.headPos])
    case DeqCount(_) => true
    case DeqReturnNil(h, t) => h == t
  }

  predicate Enqueueing(l: Local) {
    l.EnqLoadTail? || l.EnqLoadNext? || l.EnqRecheck? || l.EnqHelp? || l.EnqLink? || l.EnqSwing? || l.EnqCount?
  }

  ghost predicate CallOk(q: Queue, a: Trace, l: Local, x: Note) {
    && OwnNode(q, a, l, x)
    && Positions(q, a, l, x)
    && StillCurrent(q, a, l, x)
    && (Enqueueing(l) <==> x.arg.Some?)
    && x.start < a.time
    && x.base <= x.iter <= a.moves
    && x.base + x.retries <= x.iter
  }

  // ---------- Effects and their instants ----------

  /** Runs a sequence of operations on a first-in-first-out queue; None if a result is wrong. */
  function Replay(s: seq<Task>, points: seq<Point>): Option<seq<Task>>
    decreases |points|
  {
    if points == [] then Some(s)
    else
      match points[0].op
      case Enq(task) => Replay(s + [task], points[1..])
      case Deq(None) => if s == [] then Replay(s, points[1..]) else None
      case Deq(Some(task)) => if s != [] && s[0] == task then Replay(s[1..], points[1..]) else None
  }

  ghost predicate Ordered(points: seq<Point>) {
    forall i, j :: 0 <= i < j < |points| ==> points[i].at < points[j].at
  }

  /** The operation of a call that has taken effect but not returned. */
  function Effected(l: Local, x: Note): Option<Op> {
    match l
    case EnqSwing(_, _) => if x.arg.Some? then Some(Enq(x.arg.value)) else None
    case EnqCount(_) => if x.arg.Some? then Some(Enq(x.arg.value)) else None
    case DeqCount(task) => Some(Deq(task))
    case _ => None
  }

  ghost predicate HasPoint(points: seq<Point>, t: ThreadId, start: nat, op: Op, end: nat) {
    exists p :: p in points && p.thread == t && p.start == start && p.op == op && start < p.at < end
  }

  /** The call holds evidence that the queue was empty at instant `sawAt`, during the call. */
  ghost predicate SawEmpty(points: seq<Point>, start: nat, sawAt: nat, now: nat) {
    && start < sawAt < now
    && Replay([], Before(points, sawAt)) == Some([])
    && (forall p :: p in points ==> p.at != sawAt)
  }

  predicate HoldsNil(l: Local) {
    (l.DeqRecheck? && l.next.None?) || l.DeqReturnNil?
  }

  ghost predicate CallLogged(a: Trace, t: ThreadId, l: Local, x: Note) {
    && (Effected(l, x).Some? ==> HasPoint(a.points, t, x.start, Effected(l, x).value, a.time))
    && (Effected(l, x).None? ==> forall p :: p in a.points ==> p.thread != t || p.start != x.start)
    && (HoldsNil(l) ==> SawEmpty(a.points, x.start, x.sawAt, a.time))
    && (forall c :: c in a.calls && c.thread == t ==> c.end < x.start)
    && x.start < a.time
  }

  /** The effect belongs to a call that returned that result. */
  ghost predicate Reported(calls: seq<Call>, p: Point) {
    exists c :: c in calls && c.thread == p.thread && c.start == p.start && c.op == p.op && p.at < c.end
  }

  /** The effect belongs to a call that is about to return that result. */
  ghost predicate Pending(running: map<ThreadId, Local>, notes: map<ThreadId, Note>, p: Point) {
    && p.thread in running && p.thread in notes && notes[p.thread].start == p.start
    && Effected(running[p.thread], notes[p.thread]) == Some(p.op)
  }

  /** The effects, in order, are a correct history of a first-in-first-out queue that ends in its present contents. */
  ghost predicate Effects(points: seq<Point>, contents: seq<Task>, now: nat) {
    && Ordered(points)
    && (forall p :: p in points ==> p.start < p.at < now)
    && Replay([], points) == Some(contents)
    && (forall p, r :: p in points && r in points && p.thread == r.thread && p.start == r.start ==> p == r)
  }

  /** Every call that returned took effect once, between its invocation and its return, with that result. */
  ghost predicate CallsEffected(points: seq<Point>, calls: seq<Call>, now: nat) {
    forall c :: c in calls ==> c.start < c.end < now && HasPoint(points, c.thread, c.start, c.op, c.end)
  }

  /** Every effect belongs to a call. */
  ghost predicate Owned(points: seq<Point>, calls: seq<Call>, running: map<ThreadId, Local>, notes: map<ThreadId, Note>) {
    forall p :: p in points ==> Reported(calls, p) || Pending(running, notes, p)
  }

  ghost predicate Logged(s: State) {
    var a := s.trace;
    && Effects(a.points, Contents(a), a.time)
    && CallsEffected(a.points, a.calls, a.time)
    && Owned(a.points, a.calls, s.running, a.notes)
  }

  // ---------- The counter ----------

  /** Calls that linked a node and have not added it to `size`. */
  function Uncounted(r: map<ThreadId, Local>): set<ThreadId> {
    set t | t in r && (r[t].EnqSwing? || r[t].EnqCount?)
  }

  /** Calls that removed a node and have not subtracted it from `size`. */
  function Undiscounted(r: map<ThreadId, Local>): set<ThreadId> {
    set t | t in r && r[t].DeqCount?
  }

  ghost predicate Counted(s: State) {
    s.queue.size == |Contents(s.trace)| - |Uncounted(s.running)| + |Undiscounted(s.running)|
  }

  // ---------- The invariant ----------

  ghost predicate Private(r: map<ThreadId, Local>) {
    forall t, u :: t in r && u in r && t != u && Unlinked(r[t]).Some? ==> Unlinked(r[t]) != Unlinked(r[u])
  }

  ghost predicate DistinctWitnesses(s: State) {
    forall t, u | t in s.running && u in s.running && t in s.trace.notes && u in s.trace.notes && t != u ::
      HoldsNil(s.running[t]) && HoldsNil(s.running[u]) ==> s.trace.notes[t].sawAt != s.trace.notes[u].sawAt
  }

  ghost predicate Inv(s: State) {
    && s.running.Keys == s.trace.notes.Keys
    && Chained(s.queue, s.trace)
    && Private(s.running)
    && (forall t :: t in s.running ==> CallOk(s.queue, s.trace, s.running[t], s.trace.notes[t]))
    && Logged(s)
    && (forall t :: t in s.running ==> CallLogged(s.trace, t, s.running[t], s.trace.notes[t]))
    && DistinctWitnesses(s)
    && Counted(s)
  }
}
