/** The lock-free task queue of the worker pool as a machine whose steps are single atomic accesses.

    `Queue` and `Local` are what the program has: shared memory and the program counter with the
    local variables of one running call. `Step` is one atomic access by one call. Any number of
    threads run, in any order. `Trace` is bookkeeping for the statements only: `Step` is not given
    it, so it cannot influence what the program does. */
module LockFreeQueue {
  import opened Wrappers

  datatype Task = Task(id: string, createdAt: int)

  type NodeId = nat
  type ThreadId = nat

  // ---------- The program ----------

  /** `next` is written once, by the linking CAS; nodes are never reused (they are garbage collected). */
  datatype Node = Node(value: Option<Task>, next: Option<NodeId>)

  datatype Queue = Queue(nodes: seq<Node>, head: NodeId, tail: NodeId, size: int)

  /** Where a running call stands: the access it is about to make, and its local variables. */
  datatype Local =
    | EnqLoadTail(node: NodeId)
    | EnqLoadNext(node: NodeId, tail: NodeId)
    | EnqRecheck(node: NodeId, tail: NodeId, next: Option<NodeId>)
    | EnqHelp(node: NodeId, tail: NodeId, following: NodeId)
    | EnqLink(node: NodeId, tail: NodeId)
    | EnqSwing(node: NodeId, tail: NodeId)
    | EnqCount(node: NodeId)
    | DeqLoadHead
    | DeqLoadTail(head: NodeId)
    | DeqLoadNext(head: NodeId, tail: NodeId)
    | DeqRecheck(head: NodeId, tail: NodeId, next: Option<NodeId>)
    | DeqHelp(head: NodeId, tail: NodeId, following: NodeId)
    | DeqSwing(head: NodeId, following: NodeId, task: Option<Task>)
    | DeqCount(task: Option<Task>)
    | DeqReturnNil(head: NodeId, tail: NodeId)

  /** What an access did, as far as the statements care. */
  datatype Effect =
    | Quiet
    | LoadedTail
    | LoadedHead
    | SawNoNext
    | Retried                 // back to the top of the loop without having changed anything
    | Helped(moved: bool)     // tried to advance a lagging tail, then back to the top of the loop
    | Linked
    | Swung(moved: bool)      // tried to advance the tail over the node just linked
    | Removed
    | ReturnedEnqueue
    | ReturnedTask(task: Option<Task>)
    | ReturnedNil

  function InitQueue(): Queue {
    Queue([Node(None, None)], 0, 0, 0)
  }

  /** The nodes the next access dereferences exist. */
  ghost predicate InMemory(q: Queue, l: Local) {
    match l
    case EnqLoadTail(_) => true
    case EnqLoadNext(_, t) => t < |q.nodes|
    case EnqRecheck(_, _, _) => true
    case EnqHelp(_, _, _) => true
    case EnqLink(_, t) => t < |q.nodes|
    case EnqSwing(_, _) => true
    case EnqCount(_) => true
    case DeqLoadHead => true
    case DeqLoadTail(_) => true
    case DeqLoadNext(h, _) => h < |q.nodes|
    case DeqRecheck(_, _, nx) => nx.Some? ==> nx.value < |q.nodes|
    case DeqHelp(_, _, _) => true
    case DeqSwing(_, _, _) => true
    case DeqCount(_) => true
    case DeqReturnNil(_, _) => true
  }

  /** One atomic access of a running call. A call that returned keeps its last `Local`; it is dropped by `Run`. */
  function Step(q: Queue, l: Local): (r: (Queue, Local, Effect))
    requires InMemory(q, l)
  {
    match l
    case EnqLoadTail(n) => (q, EnqLoadNext(n, q.tail), LoadedTail)
    case EnqLoadNext(n, t) => (q, EnqRecheck(n, t, q.nodes[t].next), Quiet)
    case EnqRecheck(n, t, nx) =>
      if t != q.tail then (q, EnqLoadTail(n), Retried)
      else if nx.Some? then (q, EnqHelp(n, t, nx.value), Quiet)
      else (q, EnqLink(n, t), Quiet)
    case EnqHelp(n, t, f) =>
      if q.tail == t then (q.(tail := f), EnqLoadTail(n), Helped(true))
      else (q, EnqLoadTail(n), Helped(false))
    case EnqLink(n, t) =>
      if q.nodes[t].next.None?
      then (q.(nodes := q.nodes[t := q.nodes[t].(next := Some(n))]), EnqSwing(n, t), Linked)
      else (q, EnqLoadTail(n), Retried)
    case EnqSwing(n, t) =>
      if q.tail == t then (q.(tail := n), EnqCount(n), Swung(true))
      else (q, EnqCount(n), Swung(false))
    case EnqCount(n) => (q.(size := q.size + 1), l, ReturnedEnqueue)
    case DeqLoadHead => (q, DeqLoadTail(q.head), LoadedHead)
    case DeqLoadTail(h) => (q, DeqLoadNext(h, q.tail), LoadedTail)
    case DeqLoadNext(h, t) =>
      (q, DeqRecheck(h, t, q.nodes[h].next), if q.nodes[h].next.None? then SawNoNext else Quiet)
    case DeqRecheck(h, t, nx) =>
      if h != q.head then (q, DeqLoadHead, Retried)
      else if h == t then
        if nx.None? then (q, DeqReturnNil(h, t), Quiet) else (q, DeqHelp(h, t, nx.value), Quiet)
      else if nx.None? then (q, DeqReturnNil(h, t), Quiet)
      else (q, DeqSwing(h, nx.value, q.nodes[nx.value].value), Quiet)
    case DeqHelp(h, t, f) =>
      if q.tail == t then (q.(tail := f), DeqLoadHead, Helped(true))
      else (q, DeqLoadHead, Helped(false))
    case DeqSwing(h, f, task) =>
      if q.head == h then (q.(head := f), DeqCount(task), Removed)
      else (q, DeqLoadHead, Retried)
    case DeqCount(task) => (q.(size := q.size - 1), l, ReturnedTask(task))
    case DeqReturnNil(h, t) => (q, l, ReturnedNil)
  }

  // ---------- What is recorded about a run ----------

  datatype Op = Enq(task: Task) | Deq(result: Option<Task>)

  /** An operation taking effect at instant `at`; (thread, start) names the call it belongs to. */
  datatype Point = Point(thread: ThreadId, start: nat, op: Op, at: nat)

  /** A call that returned, with the instants of its invocation and of its return. */
  datatype Call = Call(thread: ThreadId, start: nat, op: Op, end: nat)

  /** About a running call: when it began, its argument, the positions in the chain of the nodes it
      loaded, the instant it last saw a node without successor, the number of pointer moves when the
      call and its current loop iteration began, and how often it went round the loop. */
  datatype Note = Note(start: nat, arg: Option<Task>, tailPos: nat, headPos: nat, sawAt: nat,
                       base: nat, iter: nat, retries: nat)

  /** `chain` lists the linked nodes in linking order, `tasks` the tasks in chain[1..]; `head` and `tail`
      are positions in `chain`; `moves` counts successful links, tail swings and head swings. */
  datatype Trace = Trace(time: nat, chain: seq<NodeId>, tasks: seq<Task>, head: nat, tail: nat, moves: nat,
                         points: seq<Point>, calls: seq<Call>, notes: map<ThreadId, Note>)

  datatype State = State(queue: Queue, running: map<ThreadId, Local>, trace: Trace)

  datatype Action = CallEnqueue(t: ThreadId, task: Task) | CallDequeue(t: ThreadId) | Run(t: ThreadId)

  function Init(): State {
    State(InitQueue(), map[], Trace(0, [0], [], 0, 0, 0, [], [], map[]))
  }

  /** The tasks in the queue, oldest first. */
  function Contents(a: Trace): (s: seq<Task>)
  {
    if a.head <= |a.tasks| then a.tasks[a.head..] else []
  }

  /** The points up to the first that is not before instant k. */
  function Before(points: seq<Point>, k: nat): seq<Point> {
    if points == [] || points[0].at >= k then []
    else [points[0]] + Before(points[1..], k)
  }

  /** Inserts a point at its place in time. */
  function InsertPoint(points: seq<Point>, p: Point): seq<Point> {
    if points == [] || points[0].at >= p.at then [p] + points
    else [points[0]] + InsertPoint(points[1..], p)
  }

  /** The bookkeeping for one access by call t, from what the access did. */
  function Record(a: Trace, t: ThreadId, e: Effect, l: Local): (a': Trace)
    requires t in a.notes
  {
    var x := a.notes[t];
    var b := a.(time := a.time + 1);
    match e
    case Quiet => b
    case LoadedTail => b.(notes := a.notes[t := x.(tailPos := a.tail)])
    case LoadedHead => b.(notes := a.notes[t := x.(headPos := a.head)])
    case SawNoNext => b.(notes := a.notes[t := x.(sawAt := a.time)])
    case Retried => b.(notes := a.notes[t := x.(iter := a.moves, retries := x.retries + 1)])
    case Helped(moved) =>
      var m := if moved then a.moves + 1 else a.moves;
      b.(tail := if moved then a.tail + 1 else a.tail, moves := m,
         notes := a.notes[t := x.(iter := m, retries := x.retries + 1)])
    case Linked =>
      if l.EnqLink? && x.arg.Some? then
        b.(chain := a.chain + [l.node], tasks := a.tasks + [x.arg.value], moves := a.moves + 1,
           points := a.points + [Point(t, x.start, Enq(x.arg.value), a.time)])
      else b
    case Swung(moved) =>
      if moved then b.(tail := a.tail + 1, moves := a.moves + 1) else b
    case Removed =>
      b.(head := a.head + 1, moves := a.moves + 1,
         points := a.points + [Point(t, x.start, Deq(if l.DeqSwing? then l.task else None), a.time)])
    case ReturnedEnqueue =>
      b.(calls := if x.arg.Some? then a.calls + [Call(t, x.start, Enq(x.arg.value), a.time)] else a.calls,
         notes := a.notes - {t})
    case ReturnedTask(task) =>
      b.(calls := a.calls + [Call(t, x.start, Deq(task), a.time)], notes := a.notes - {t})
    case ReturnedNil =>
      b.(calls := a.calls + [Call(t, x.start, Deq(None), a.time)], notes := a.notes - {t},
         points := InsertPoint(a.points, Point(t, x.start, Deq(None), x.sawAt)))
  }

  predicate Returns(e: Effect) {
    e.ReturnedEnqueue? || e.ReturnedTask? || e.ReturnedNil?
  }

  function NewNote(a: Trace, arg: Option<Task>): Note {
    Note(a.time, arg, 0, 0, 0, a.moves, a.moves, 0)
  }

  ghost predicate Enabled(s: State, act: Action) {
    match act
    case CallEnqueue(t, _) => t !in s.running
    case CallDequeue(t) => t !in s.running
    case Run(t) => t in s.running && t in s.trace.notes && InMemory(s.queue, s.running[t])
  }

  function Apply(s: State, act: Action): (s': State)
    requires Enabled(s, act)
  {
    var a := s.trace;
    match act
    case CallEnqueue(t, task) =>
      var n := |s.queue.nodes|;
      State(s.queue.(nodes := s.queue.nodes + [Node(Some(task), None)]),
            s.running[t := EnqLoadTail(n)],
            a.(time := a.time + 1, notes := a.notes[t := NewNote(a, Some(task))]))
    case CallDequeue(t) =>
      State(s.queue, s.running[t := DeqLoadHead],
            a.(time := a.time + 1, notes := a.notes[t := NewNote(a, None)]))
    case Run(t) =>
      var (q', l', e) := Step(s.queue, s.running[t]);
      State(q', if Returns(e) then s.running - {t} else s.running[t := l'], Record(a, t, e, s.running[t]))
  }

  /** The state after a run of actions from the empty queue, None if some action was not possible. */
  ghost function Exec(acts: seq<Action>): Option<State> {
    if acts == [] then Some(Init())
    else
      match Exec(acts[..|acts| - 1])
      case None => None
      case Some(s) => if Enabled(s, acts[|acts| - 1]) then Some(Apply(s, acts[|acts| - 1])) else None
  }
}
