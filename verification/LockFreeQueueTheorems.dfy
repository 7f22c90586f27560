/** What the lock-free queue promises, for every interleaving of any number of threads. */
module LockFreeQueueTheorems {
  import opened Wrappers
  import opened LockFreeQueue
  import opened LockFreeQueueInvariant
  import opened LockFreeQueueSteps
  import opened LockFreeQueueLinearization

  // ---------- The counter ----------

  function OwesAdd(l: Local): int {
    if l.EnqSwing? || l.EnqCount? then 1 else 0
  }

  function OwesSub(l: Local): int {
    if l.DeqCount? then 1 else 0
  }

  /** How many calls owe `size` an addition after call t moved to l, or returned. */
  lemma OwingAdd(r: map<ThreadId, Local>, t: ThreadId, l: Local)
    requires t in r
    ensures |Uncounted(r[t := l])| == |Uncounted(r)| - OwesAdd(r[t]) + OwesAdd(l)
    ensures |Uncounted(r - {t})| == |Uncounted(r)| - OwesAdd(r[t])
  {
    var add := Uncounted(r);
    assert Uncounted(r[t := l]) == if OwesAdd(l) == 1 then (add - {t}) + {t} else add - {t};
    assert Uncounted(r - {t}) == add - {t};
    SizeWithout(add, t);
  }

  /** The same for subtractions. */
  lemma OwingSub(r: map<ThreadId, Local>, t: ThreadId, l: Local)
    requires t in r
    ensures |Undiscounted(r[t := l])| == |Undiscounted(r)| - OwesSub(r[t]) + OwesSub(l)
    ensures |Undiscounted(r - {t})| == |Undiscounted(r)| - OwesSub(r[t])
  {
    var sub := Undiscounted(r);
    assert Undiscounted(r[t := l]) == if OwesSub(l) == 1 then (sub - {t}) + {t} else sub - {t};
    assert Undiscounted(r - {t}) == sub - {t};
    SizeWithout(sub, t);
  }

  lemma SizeWithout(s: set<ThreadId>, t: ThreadId)
    ensures |s - {t}| == |s| - (if t in s then 1 else 0)
    ensures |(s - {t}) + {t}| == |s - {t}| + 1
  {
  }

  /** An access changes `size`, the length of the queue and what its call owes in step. */
  ghost predicate Balanced(q: Queue, a: Trace, t: ThreadId, l: Local)
    requires t in a.notes && InMemory(q, l)
  {
    var (q', l', e) := Step(q, l);
    q'.size - q.size == |Contents(Record(a, t, e, l))| - |Contents(a)|
      - ((if Returns(e) then 0 else OwesAdd(l')) - OwesAdd(l))
      + ((if Returns(e) then 0 else OwesSub(l')) - OwesSub(l))
  }

  lemma RemoveBalance(q: Queue, a: Trace, t: ThreadId, l: Local)
    requires Chained(q, a) && t in a.notes && CallOk(q, a, l, a.notes[t]) && l.DeqSwing?
    ensures Balanced(q, a, t, l)
  {
    if q.head == l.head {
      SamePosition(q, a, a.head, a.notes[t].headPos);
    }
  }

  lemma LinkBalance(q: Queue, a: Trace, t: ThreadId, l: Local)
    requires Chained(q, a) && t in a.notes && CallOk(q, a, l, a.notes[t]) && InMemory(q, l) && l.EnqLink?
    ensures Balanced(q, a, t, l)
  {
  }

  lemma OtherBalance(q: Queue, a: Trace, t: ThreadId, l: Local)
    requires t in a.notes && InMemory(q, l) && !l.EnqLink? && !l.DeqSwing?
    ensures Balanced(q, a, t, l)
  {
    var r := Step(q, l);
    var b := Record(a, t, r.2, l);
    assert b.tasks == a.tasks && b.head == a.head;
  }

  lemma StepBalance(q: Queue, a: Trace, t: ThreadId, l: Local)
    requires Chained(q, a) && t in a.notes && CallOk(q, a, l, a.notes[t]) && InMemory(q, l)
    ensures Balanced(q, a, t, l)
  {
    if l.DeqSwing? {
      RemoveBalance(q, a, t, l);
    } else if l.EnqLink? {
      LinkBalance(q, a, t, l);
    } else {
      OtherBalance(q, a, t, l);
    }
  }

  lemma RunKeepsCount(s: State, t: ThreadId)
    requires ShapeInv(s) && Counted(s) && t in s.running && Enabled(s, Run(t))
    ensures Counted(Apply(s, Run(t)))
  {
    StepBalance(s.queue, s.trace, t, s.running[t]);
    OwingAdd(s.running, t, Step(s.queue, s.running[t]).1);
    OwingSub(s.running, t, Step(s.queue, s.running[t]).1);
  }

  lemma CallKeepsCount(s: State, act: Action)
    requires ShapeInv(s) && Counted(s) && !act.Run? && Enabled(s, act)
    ensures Counted(Apply(s, act))
  {
    var s' := Apply(s, act);
    assert Uncounted(s'.running) == Uncounted(s.running);
    assert Undiscounted(s'.running) == Undiscounted(s.running);
  }

  // ---------- The invariant holds in every run ----------

  lemma InvParts(s: State)
    ensures Inv(s) <==> ShapeInv(s) && LogInv(s) && Counted(s)
  {
  }

  lemma InitInv()
    ensures Inv(Init())
  {
    assert Uncounted(map[]) == {} && Undiscounted(map[]) == {};
  }

  lemma ApplyKeepsInv(s: State, act: Action)
    requires Inv(s) && Enabled(s, act)
    ensures Inv(Apply(s, act))
  {
    InvParts(s);
    InvParts(Apply(s, act));
    if act.Run? {
      RunKeepsShape(s, act.t);
      RunKeepsLog(s, act.t);
      RunKeepsCount(s, act.t);
    } else {
      CallKeepsShape(s, act);
      CallKeepsLog(s, act);
      CallKeepsCount(s, act);
    }
  }

  /** In every run, between any two accesses, the invariant holds. */
  lemma {:induction false} InvAlways(acts: seq<Action>)
    requires Exec(acts).Some?
    ensures Inv(Exec(acts).value)
  {
    if acts == [] {
      InitInv();
    } else {
      InvAlways(acts[..|acts| - 1]);
      ApplyKeepsInv(Exec(acts[..|acts| - 1]).value, acts[|acts| - 1]);
    }
  }

  /** No running call is ever stuck: its next access is always possible and is to an existing node. */
  lemma NeverStuck(acts: seq<Action>, t: ThreadId)
    requires Exec(acts).Some? && t in Exec(acts).value.running
    ensures Enabled(Exec(acts).value, Run(t))
  {
    InvAlways(acts);
    RunKeepsShape(Exec(acts).value, t);
  }

  /** The chain from head is well formed, head is never past tail, and tail lags the last node by at most one. */
  lemma ChainAlways(acts: seq<Action>)
    requires Exec(acts).Some?
    ensures Chained(Exec(acts).value.queue, Exec(acts).value.trace)
  {
    InvAlways(acts);
  }

  /** The branch of Dequeue for a head without successor that differs from the tail is never taken. */
  lemma LagBranchNeverTaken(acts: seq<Action>, t: ThreadId)
    requires Exec(acts).Some? && t in Exec(acts).value.running
    ensures var l := Exec(acts).value.running[t];
      && (l.DeqReturnNil? ==> l.head == l.tail)
      && (l.DeqRecheck? && l.next.None? ==> l.head == l.tail)
  {
    InvAlways(acts);
    var s := Exec(acts).value;
    assert CallOk(s.queue, s.trace, s.running[t], s.trace.notes[t]);
  }

  // ---------- Linearizability ----------

  /** The tasks enqueued, in the order of their effects. */
  function Enqueued(points: seq<Point>): seq<Task> {
    if points == [] then []
    else (match points[0].op case Enq(task) => [task] case Deq(_) => []) + Enqueued(points[1..])
  }

  /** The tasks dequeued, in the order of their effects. */
  function Dequeued(points: seq<Point>): seq<Task> {
    if points == [] then []
    else (match points[0].op case Deq(Some(task)) => [task] case _ => []) + Dequeued(points[1..])
  }

  lemma Associates(a: seq<Task>, x: Task, b: seq<Task>)
    ensures a + [x] + b == a + ([x] + b)
  {
  }

  lemma HeadOff(a: seq<Task>, b: seq<Task>)
    requires a != []
    ensures a + b == [a[0]] + (a[1..] + b)
  {
  }

  lemma {:induction false} ReplayConserves(s: seq<Task>, points: seq<Point>)
    requires Replay(s, points).Some?
    ensures s + Enqueued(points) == Dequeued(points) + Replay(s, points).value
    decreases |points|
  {
    if points != [] {
      match points[0].op {
        case Enq(task) =>
          ReplayConserves(s + [task], points[1..]);
          Associates(s, task, Enqueued(points[1..]));
        case Deq(None) => ReplayConserves(s, points[1..]);
        case Deq(Some(task)) =>
          ReplayConserves(s[1..], points[1..]);
          HeadOff(s, Enqueued(points));
          HeadOff(Dequeued(points), Replay(s, points).value);
      }
    }
  }

  // ---------- What the calls were asked, and what they answered ----------

  /** Action `start` of the run invoked this operation: an enqueue of that very task, or a dequeue. */
  predicate Asked(acts: seq<Action>, t: ThreadId, start: nat, op: Op) {
    start < |acts|
    && match acts[start]
       case CallEnqueue(u, task) => u == t && op == Enq(task)
       case CallDequeue(u) => u == t && op.Deq?
       case Run(_) => false
  }

  /** The same for a call whose operation is known only by its argument. */
  predicate AskedFor(acts: seq<Action>, t: ThreadId, start: nat, arg: Option<Task>) {
    start < |acts|
    && match acts[start]
       case CallEnqueue(u, task) => u == t && arg == Some(task)
       case CallDequeue(u) => u == t && arg == None
       case Run(_) => false
  }

  /** The access returns, from an enqueue, or from a dequeue with that result. */
  predicate AnswersWith(e: Effect, op: Op) {
    match op
    case Enq(_) => e.ReturnedEnqueue?
    case Deq(result) => e == ReturnedTask(result) || (e.ReturnedNil? && result == None)
  }

  /** Action `end` of the run is the access with which the call returned, with that result. */
  ghost predicate Answered(acts: seq<Action>, t: ThreadId, end: nat, op: Op) {
    && end < |acts| && acts[end] == Run(t)
    && Exec(acts[..end]).Some?
    && (var s := Exec(acts[..end]).value;
        t in s.running && InMemory(s.queue, s.running[t])
        && AnswersWith(Step(s.queue, s.running[t]).2, op))
  }

  ghost predicate NotesAsked(acts: seq<Action>, running: map<ThreadId, Local>, notes: map<ThreadId, Note>) {
    forall t :: t in running ==> t in notes && AskedFor(acts, t, notes[t].start, notes[t].arg)
  }

  ghost predicate PointsAsked(acts: seq<Action>, points: seq<Point>) {
    forall p :: p in points ==> Asked(acts, p.thread, p.start, p.op)
  }

  ghost predicate CallsAsked(acts: seq<Action>, calls: seq<Call>) {
    forall c :: c in calls ==> Asked(acts, c.thread, c.start, c.op) && Answered(acts, c.thread, c.end, c.op)
  }

  lemma ApplyTicks(s: State, act: Action)
    requires Enabled(s, act)
    ensures Apply(s, act).trace.time == s.trace.time + 1
  {
  }

  lemma {:induction false} TimeIsLength(acts: seq<Action>)
    requires Exec(acts).Some?
    ensures Exec(acts).value.trace.time == |acts|
  {
    if acts != [] {
      TimeIsLength(acts[..|acts| - 1]);
      ApplyTicks(Exec(acts[..|acts| - 1]).value, acts[|acts| - 1]);
    }
  }

  lemma AskedLonger(acts: seq<Action>, n: nat, t: ThreadId, start: nat, op: Op)
    requires n <= |acts| && Asked(acts[..n], t, start, op)
    ensures Asked(acts, t, start, op)
  {
  }

  lemma AnsweredLonger(acts: seq<Action>, n: nat, t: ThreadId, end: nat, op: Op)
    requires n <= |acts| && Answered(acts[..n], t, end, op)
    ensures Answered(acts, t, end, op)
  {
    assert acts[..n][..end] == acts[..end];
  }

  /** A call's note keeps its invocation and its argument. */
  lemma RecordKeepsNote(a: Trace, t: ThreadId, e: Effect, l: Local)
    requires t in a.notes && !Returns(e)
    ensures var b := Record(a, t, e, l);
      t in b.notes && b.notes[t].start == a.notes[t].start && b.notes[t].arg == a.notes[t].arg
  {
  }

  /** What an access records as taking effect is of the operation the call was asked for. */
  lemma RecordedPoint(q: Queue, a: Trace, t: ThreadId, l: Local, acts: seq<Action>, p: Point)
    requires t in a.notes && InMemory(q, l) && (Enqueueing(l) <==> a.notes[t].arg.Some?)
    requires AskedFor(acts, t, a.notes[t].start, a.notes[t].arg)
    requires p in Record(a, t, Step(q, l).2, l).points && p !in a.points
    ensures Asked(acts, p.thread, p.start, p.op)
  {
    if l.DeqReturnNil? {
      InsertedMembers(a.points, Point(t, a.notes[t].start, Deq(None), a.notes[t].sawAt));
    }
  }

  /** What an access records as returned is the call's operation with the result it returned. */
  lemma RecordedCall(q: Queue, a: Trace, t: ThreadId, l: Local, acts: seq<Action>, c: Call)
    requires t in a.notes && InMemory(q, l) && (Enqueueing(l) <==> a.notes[t].arg.Some?)
    requires AskedFor(acts, t, a.notes[t].start, a.notes[t].arg)
    requires c in Record(a, t, Step(q, l).2, l).calls && c !in a.calls
    ensures c.thread == t && c.start == a.notes[t].start && c.end == a.time && Asked(acts, t, c.start, c.op)
    ensures AnswersWith(Step(q, l).2, c.op)
  {
  }

  lemma ArgumentKnown(s: State, t: ThreadId)
    requires Inv(s) && t in s.running
    ensures t in s.trace.notes && (Enqueueing(s.running[t]) <==> s.trace.notes[t].arg.Some?)
  {
    assert CallOk(s.queue, s.trace, s.running[t], s.trace.notes[t]);
  }

  lemma NotesStayAsked(s: State, acts: seq<Action>, n: nat, act: Action)
    requires s.running.Keys == s.trace.notes.Keys && Enabled(s, act)
    requires n + 1 == |acts| && acts[n] == act && s.trace.time == n
    requires NotesAsked(acts[..n], s.running, s.trace.notes)
    ensures NotesAsked(acts, Apply(s, act).running, Apply(s, act).trace.notes)
  {
    if act.Run? {
      var e := Step(s.queue, s.running[act.t]).2;
      RecordedNotes(s.trace, act.t, e, s.running[act.t]);
      if !Returns(e) {
        RecordKeepsNote(s.trace, act.t, e, s.running[act.t]);
      }
    }
  }

  lemma PointsStayAsked(s: State, acts: seq<Action>, n: nat, act: Action)
    requires Inv(s) && Enabled(s, act) && n + 1 == |acts| && acts[n] == act
    requires NotesAsked(acts[..n], s.running, s.trace.notes) && PointsAsked(acts[..n], s.trace.points)
    ensures PointsAsked(acts, Apply(s, act).trace.points)
  {
    forall p | p in Apply(s, act).trace.points
      ensures Asked(acts, p.thread, p.start, p.op)
    {
      if p in s.trace.points {
        AskedLonger(acts, n, p.thread, p.start, p.op);
      } else {
        ArgumentKnown(s, act.t);
        RecordedPoint(s.queue, s.trace, act.t, s.running[act.t], acts, p);
      }
    }
  }

  lemma CallsStayAsked(s: State, acts: seq<Action>, n: nat, act: Action)
    requires Inv(s) && Enabled(s, act) && n + 1 == |acts| && acts[n] == act && s.trace.time == n
    requires Exec(acts[..n]) == Some(s)
    requires NotesAsked(acts[..n], s.running, s.trace.notes) && CallsAsked(acts[..n], s.trace.calls)
    ensures CallsAsked(acts, Apply(s, act).trace.calls)
  {
    forall c | c in Apply(s, act).trace.calls
      ensures Asked(acts, c.thread, c.start, c.op) && Answered(acts, c.thread, c.end, c.op)
    {
      if c in s.trace.calls {
        AskedLonger(acts, n, c.thread, c.start, c.op);
        AnsweredLonger(acts, n, c.thread, c.end, c.op);
      } else {
        ArgumentKnown(s, act.t);
        RecordedCall(s.queue, s.trace, act.t, s.running[act.t], acts, c);
      }
    }
  }

  /** In every run the instants are the numbers of the actions, and all that is recorded of a call is of what it was
      asked: its note, its effect and its result. */
  lemma {:induction false} AskedAlways(acts: seq<Action>)
    requires Exec(acts).Some?
    ensures var s := Exec(acts).value;
      && NotesAsked(acts, s.running, s.trace.notes) && PointsAsked(acts, s.trace.points) && CallsAsked(acts, s.trace.calls)
  {
    if acts != [] {
      var n := |acts| - 1;
      var s, act := Exec(acts[..n]).value, acts[n];
      AskedAlways(acts[..n]);
      InvAlways(acts[..n]);
      TimeIsLength(acts[..n]);
      NotesStayAsked(s, acts, n, act);
      PointsStayAsked(s, acts, n, act);
      CallsStayAsked(s, acts, n, act);
    }
  }

  ghost predicate Accounted(s: State, t: ThreadId, start: nat) {
    || (exists c :: c in s.trace.calls && c.thread == t && c.start == start)
    || (t in s.running && t in s.trace.notes && s.trace.notes[t].start == start)
  }

  /** Every call that an action of the run invoked is among those returned or among those running. */
  lemma {:induction false} EveryCallAccounted(acts: seq<Action>, i: nat)
    requires Exec(acts).Some? && i < |acts|
    ensures !acts[i].Run? ==> Accounted(Exec(acts).value, acts[i].t, i)
  {
    var n := |acts| - 1;
    var s, act := Exec(acts[..n]).value, acts[n];
    TimeIsLength(acts[..n]);
    if i < n {
      EveryCallAccounted(acts[..n], i);
      if !acts[i].Run? {
        InvAlways(acts[..n]);
        if act.Run? {
          ArgumentKnown(s, act.t);
        }
        StaysAccounted(s, act, acts[i].t, i);
      }
    }
  }

  lemma CallsGrow(s: State, act: Action)
    requires Enabled(s, act)
    ensures forall c :: c in s.trace.calls ==> c in Apply(s, act).trace.calls
  {
  }

  lemma ReturnRecorded(q: Queue, a: Trace, t: ThreadId, l: Local)
    requires t in a.notes && InMemory(q, l) && (Enqueueing(l) <==> a.notes[t].arg.Some?) && Returns(Step(q, l).2)
    ensures exists c :: c in Record(a, t, Step(q, l).2, l).calls && c.thread == t && c.start == a.notes[t].start
  {
    var calls := Record(a, t, Step(q, l).2, l).calls;
    assert |calls| == |a.calls| + 1 && calls[|a.calls|] in calls;
  }

  lemma StaysAccounted(s: State, act: Action, t: ThreadId, start: nat)
    requires s.running.Keys == s.trace.notes.Keys && Enabled(s, act) && Accounted(s, t, start)
    requires act.Run? ==> (Enqueueing(s.running[act.t]) <==> s.trace.notes[act.t].arg.Some?)
    ensures Accounted(Apply(s, act), t, start)
  {
    var s' := Apply(s, act);
    CallsGrow(s, act);
    if c :| c in s.trace.calls && c.thread == t && c.start == start {
      assert c in s'.trace.calls;
    } else if act.Run? {
      var e := Step(s.queue, s.running[act.t]).2;
      RecordedNotes(s.trace, act.t, e, s.running[act.t]);
      if act.t == t && Returns(e) {
        ReturnRecorded(s.queue, s.trace, t, s.running[t]);
      } else if act.t == t {
        RecordKeepsNote(s.trace, t, e, s.running[t]);
      }
    }
  }

  /** Every run is linearizable to a first-in-first-out queue. Each call that returned was invoked and answered by
      actions of the run: an enqueue of the very task it was called with, or a dequeue with the result it returned.
      There is one effect for each, strictly between its invocation and its return and with its result; all
      other effects are of calls still running; and the effects in the order of their instants are a correct
      history of a sequential queue that ends with the tasks now in it. */
  lemma Linearizable(acts: seq<Action>)
    requires Exec(acts).Some?
    ensures var a := Exec(acts).value.trace;
      && Ordered(a.points)
      && Replay([], a.points) == Some(Contents(a))
      && (forall c :: c in a.calls ==> Asked(acts, c.thread, c.start, c.op) && Answered(acts, c.thread, c.end, c.op))
      && (forall c :: c in a.calls ==> HasPoint(a.points, c.thread, c.start, c.op, c.end))
      && (forall p, r :: p in a.points && r in a.points && p.thread == r.thread && p.start == r.start ==> p == r)
      && (forall p :: p in a.points ==> Asked(acts, p.thread, p.start, p.op))
      && (forall p :: p in a.points ==>
            Reported(a.calls, p) || Pending(Exec(acts).value.running, a.notes, p))
  {
    InvAlways(acts);
    AskedAlways(acts);
  }

  predicate PointOf(p: Point, c: Call) {
    p.thread == c.thread && p.start == c.start && p.op == c.op
  }

  /** A call that returned before another began takes effect before it: the order of effects respects real time. */
  lemma RealTimeOrder(acts: seq<Action>, c: Call, d: Call) returns (i: nat, j: nat)
    requires Exec(acts).Some?
    requires c in Exec(acts).value.trace.calls && d in Exec(acts).value.trace.calls && c.end < d.start
    ensures i < j < |Exec(acts).value.trace.points|
    ensures PointOf(Exec(acts).value.trace.points[i], c) && PointOf(Exec(acts).value.trace.points[j], d)
  {
    InvAlways(acts);
    i := EffectOf(Exec(acts).value.trace, c);
    j := EffectOf(Exec(acts).value.trace, d);
  }

  /** Where in the history the effect of a returned call is. */
  lemma EffectOf(a: Trace, c: Call) returns (i: nat)
    requires Effects(a.points, Contents(a), a.time) && CallsEffected(a.points, a.calls, a.time) && c in a.calls
    ensures i < |a.points| && PointOf(a.points[i], c) && c.start < a.points[i].at < c.end
  {
    var p :| p in a.points && PointOf(p, c) && c.start < p.at < c.end;
    i :| 0 <= i < |a.points| && a.points[i] == p;
  }

  /** No task is lost, duplicated or overtaken: what was dequeued, followed by what is in the queue,
      is exactly what was enqueued, in that order. */
  lemma NothingLost(acts: seq<Action>)
    requires Exec(acts).Some?
    ensures var a := Exec(acts).value.trace;
      Enqueued(a.points) == Dequeued(a.points) + Contents(a)
  {
    InvAlways(acts);
    ReplayConserves([], Exec(acts).value.trace.points);
    assert [] + Enqueued(Exec(acts).value.trace.points) == Enqueued(Exec(acts).value.trace.points);
  }

  lemma {:induction false} ReplayPrefix(s: seq<Task>, points: seq<Point>, i: nat)
    requires i < |points| && Replay(s, points).Some?
    ensures Replay(s, points[..i]).Some?
    ensures Replay(Replay(s, points[..i]).value, [points[i]]).Some?
    decreases i
  {
    if i > 0 {
      assert points[..i][1..] == points[1..][..i - 1];
      match points[0].op {
        case Enq(task) => ReplayPrefix(s + [task], points[1..], i - 1);
        case Deq(None) => ReplayPrefix(s, points[1..], i - 1);
        case Deq(Some(_)) => ReplayPrefix(s[1..], points[1..], i - 1);
      }
    }
  }

  /** A nil return happens only if the queue was empty at some instant during the call; a successful
      dequeue returned the oldest task at some instant during the call. */
  lemma DequeueResult(acts: seq<Action>, c: Call) returns (i: nat)
    requires Exec(acts).Some? && c in Exec(acts).value.trace.calls && c.op.Deq?
    ensures i < |Exec(acts).value.trace.points| && c.start < Exec(acts).value.trace.points[i].at < c.end
    ensures match Replay([], Exec(acts).value.trace.points[..i])
      case None => false
      case Some(present) => match c.op.result
        case None => present == []
        case Some(task) => present != [] && present[0] == task
  {
    InvAlways(acts);
    i := EffectOf(Exec(acts).value.trace, c);
    ReplayPrefix([], Exec(acts).value.trace.points, i);
  }

  // ---------- Counting ----------

  /** `size` is the length of the queue, less the links not yet counted, plus the removals not yet counted. */
  lemma SizeAlways(acts: seq<Action>)
    requires Exec(acts).Some?
    ensures var s := Exec(acts).value;
      s.queue.size == |Contents(s.trace)| - |Uncounted(s.running)| + |Undiscounted(s.running)|
  {
    InvAlways(acts);
  }

  /** With no call running, `size` is exact. */
  lemma SizeExactWhenQuiet(acts: seq<Action>)
    requires Exec(acts).Some? && Exec(acts).value.running == map[]
    ensures Exec(acts).value.queue.size == |Contents(Exec(acts).value.trace)|
  {
    InvAlways(acts);
    assert Uncounted(map[]) == {} && Undiscounted(map[]) == {};
  }

  // ---------- Progress ----------

  predicate AtTop(l: Local) {
    l.EnqLoadTail? || l.DeqLoadHead?
  }

  /** If this access takes the call back to the top of its loop, pointers moved since its iteration began, and a
      new iteration begins. */
  ghost predicate RetryMeansMoves(q: Queue, a: Trace, t: ThreadId, l: Local) {
    && t in a.notes && InMemory(q, l)
    && (var (q', l', e) := Step(q, l);
        var b := Record(a, t, e, l);
        !Returns(e) && AtTop(l') ==> t in b.notes && a.notes[t].iter < b.moves && b.notes[t].iter == b.moves)
  }

  lemma EnqRetryNeedsProgress(q: Queue, a: Trace, t: ThreadId, l: Local)
    requires Chained(q, a) && t in a.notes && CallOk(q, a, l, a.notes[t]) && InMemory(q, l) && Enqueueing(l)
    ensures RetryMeansMoves(q, a, t, l)
  {
  }

  lemma DeqRetryNeedsProgress(q: Queue, a: Trace, t: ThreadId, l: Local)
    requires Chained(q, a) && t in a.notes && CallOk(q, a, l, a.notes[t]) && InMemory(q, l) && !Enqueueing(l)
    ensures RetryMeansMoves(q, a, t, l)
  {
  }

  /** In every run a call goes back to the top of its loop only if, since the iteration began, some link, tail swing
      or head swing took place, its own included. */
  lemma RetryAlways(acts: seq<Action>, t: ThreadId)
    requires Exec(acts).Some? && t in Exec(acts).value.running
    ensures RetryMeansMoves(Exec(acts).value.queue, Exec(acts).value.trace, t, Exec(acts).value.running[t])
  {
    InvAlways(acts);
    NeverStuck(acts, t);
    var s := Exec(acts).value;
    if Enqueueing(s.running[t]) {
      EnqRetryNeedsProgress(s.queue, s.trace, t, s.running[t]);
    } else {
      DeqRetryNeedsProgress(s.queue, s.trace, t, s.running[t]);
    }
  }

  /** In every run a call has gone round its loop at most as often as pointers moved since it was invoked,
      and all pointer moves together are at most three for each task ever linked. So while no enqueue takes
      effect the number of retries of all calls is bounded. */
  lemma RetriesBounded(acts: seq<Action>, t: ThreadId)
    requires Exec(acts).Some? && t in Exec(acts).value.running
    ensures var a := Exec(acts).value.trace;
      && t in a.notes
      && a.notes[t].retries <= a.moves - a.notes[t].base
      && a.moves <= 3 * |Enqueued(a.points)|
  {
    InvAlways(acts);
    var s := Exec(acts).value;
    assert CallOk(s.queue, s.trace, s.running[t], s.trace.notes[t]);
    LinkedTasks(acts);
  }

  lemma {:induction false} EnqueuedAppend(points: seq<Point>, p: Point)
    ensures Enqueued(points + [p]) == Enqueued(points) + (match p.op case Enq(task) => [task] case Deq(_) => [])
  {
    if points == [] {
      assert points + [p] == [p] && [p][1..] == [];
    } else {
      EnqueuedAppend(points[1..], p);
      assert (points + [p])[1..] == points[1..] + [p];
    }
  }

  lemma {:induction false} EnqueuedInsertNil(points: seq<Point>, p: Point)
    requires p.op.Deq?
    ensures Enqueued(InsertPoint(points, p)) == Enqueued(points)
  {
    if points == [] || points[0].at >= p.at {
      assert ([p] + points)[1..] == points;
    } else {
      EnqueuedInsertNil(points[1..], p);
      assert InsertPoint(points, p)[1..] == InsertPoint(points[1..], p);
    }
  }

  lemma StepLinks(q: Queue, a: Trace, t: ThreadId, l: Local)
    requires Chained(q, a) && t in a.notes && CallOk(q, a, l, a.notes[t]) && InMemory(q, l)
    requires Enqueued(a.points) == a.tasks
    ensures var b := Record(a, t, Step(q, l).2, l); Enqueued(b.points) == b.tasks
  {
    var x, e := a.notes[t], Step(q, l).2;
    match e {
      case Linked => EnqueuedAppend(a.points, Point(t, x.start, Enq(x.arg.value), a.time));
      case Removed => EnqueuedAppend(a.points, Point(t, x.start, Deq(l.task), a.time));
      case ReturnedNil => EnqueuedInsertNil(a.points, Point(t, x.start, Deq(None), x.sawAt));
      case _ =>
    }
  }

  /** The tasks enqueued are the tasks linked. */
  lemma {:induction false} LinkedTasks(acts: seq<Action>)
    requires Exec(acts).Some?
    ensures Enqueued(Exec(acts).value.trace.points) == Exec(acts).value.trace.tasks
  {
    if acts != [] {
      var s, act := Exec(acts[..|acts| - 1]).value, acts[|acts| - 1];
      LinkedTasks(acts[..|acts| - 1]);
      InvAlways(acts[..|acts| - 1]);
      if act.Run? {
        StepLinks(s.queue, s.trace, act.t, s.running[act.t]);
      }
    }
  }

  // ---------- A call running alone finishes ----------

  /** At most this many own accesses remain if nobody else runs. */
  function Rank(a: Trace, l: Local, x: Note): nat {
    var stale := if x.iter == a.moves then 0 else 8;
    var lag := if a.tail + 1 < |a.chain| then 8 else 0;
    match l
    case EnqLoadTail(_) => stale + lag + 6
    case EnqLoadNext(_, _) => stale + lag + 5
    case EnqRecheck(_, _, _) => stale + lag + 4
    case EnqHelp(_, _, _) => stale + lag + 3
    case EnqLink(_, _) => stale + lag + 3
    case EnqSwing(_, _) => 2
    case EnqCount(_) => 1
    case DeqLoadHead => stale + lag + 6
    case DeqLoadTail(_) => stale + lag + 5
    case DeqLoadNext(_, _) => stale + lag + 4
    case DeqRecheck(_, _, _) => stale + lag + 3
    case DeqHelp(_, _, _) => stale + lag + 2
    case DeqSwing(_, _, _) => stale + lag + 2
    case DeqCount(_) => 1
    case DeqReturnNil(_, _) => 1
  }

  ghost predicate Falls(q: Queue, a: Trace, t: ThreadId, l: Local)
    requires t in a.notes && InMemory(q, l)
  {
    var (q', l', e) := Step(q, l);
    var b := Record(a, t, e, l);
    !Returns(e) ==> t in b.notes && Rank(b, l', b.notes[t]) < Rank(a, l, a.notes[t])
  }

  lemma EnqRankFalls(q: Queue, a: Trace, t: ThreadId, l: Local)
    requires Chained(q, a) && t in a.notes && CallOk(q, a, l, a.notes[t]) && InMemory(q, l) && Enqueueing(l)
    ensures Falls(q, a, t, l)
  {
    if l.EnqHelp? && q.tail == l.tail {
      SamePosition(q, a, a.tail, a.notes[t].tailPos);
    }
  }

  lemma DeqHelpRankFalls(q: Queue, a: Trace, t: ThreadId, l: Local)
    requires Chained(q, a) && t in a.notes && CallOk(q, a, l, a.notes[t]) && InMemory(q, l) && l.DeqHelp?
    ensures Falls(q, a, t, l)
  {
    if q.tail == l.tail {
      SamePosition(q, a, a.tail, a.notes[t].tailPos);
    }
  }

  lemma DeqRankFalls(q: Queue, a: Trace, t: ThreadId, l: Local)
    requires Chained(q, a) && t in a.notes && CallOk(q, a, l, a.notes[t]) && InMemory(q, l)
    requires !Enqueueing(l) && !l.DeqHelp?
    ensures Falls(q, a, t, l)
  {
  }

  lemma RankFalls(q: Queue, a: Trace, t: ThreadId, l: Local)
    requires Chained(q, a) && t in a.notes && CallOk(q, a, l, a.notes[t]) && InMemory(q, l)
    ensures Falls(q, a, t, l)
  {
    if Enqueueing(l) {
      EnqRankFalls(q, a, t, l);
    } else if l.DeqHelp? {
      DeqHelpRankFalls(q, a, t, l);
    } else {
      DeqRankFalls(q, a, t, l);
    }
  }

  ghost function RunAlone(s: State, t: ThreadId, n: nat): State
    decreases n
  {
    if n == 0 || t !in s.running || !Enabled(s, Run(t)) then s else RunAlone(Apply(s, Run(t)), t, n - 1)
  }

  ghost predicate AtMost(s: State, t: ThreadId, n: nat) {
    Inv(s) && (t in s.running ==> t in s.trace.notes && Rank(s.trace, s.running[t], s.trace.notes[t]) <= n)
  }

  lemma AloneStep(s: State, t: ThreadId, n: nat)
    requires AtMost(s, t, n) && t in s.running
    ensures n > 0 && Enabled(s, Run(t)) && AtMost(Apply(s, Run(t)), t, n - 1)
  {
    RunKeepsShape(s, t);
    ApplyKeepsInv(s, Run(t));
    RankFalls(s.queue, s.trace, t, s.running[t]);
  }

  lemma AloneUnfold(s: State, t: ThreadId, n: nat)
    requires n > 0 && t in s.running && Enabled(s, Run(t))
    ensures RunAlone(s, t, n) == RunAlone(Apply(s, Run(t)), t, n - 1)
  {
  }

  lemma {:induction false} AloneWithin(s: State, t: ThreadId, n: nat)
    requires AtMost(s, t, n)
    ensures t !in RunAlone(s, t, n).running
    decreases n
  {
    if t in s.running {
      AloneStep(s, t, n);
      var next := Apply(s, Run(t));
      AloneWithin(next, t, n - 1);
      AloneUnfold(s, t, n);
    }
  }

  /** From any reachable state, whatever the other threads were in the middle of, a call that runs alone
      returns within 22 accesses. */
  lemma AloneFinishes(acts: seq<Action>, t: ThreadId)
    requires Exec(acts).Some?
    ensures t !in RunAlone(Exec(acts).value, t, 22).running
  {
    InvAlways(acts);
    AloneWithin(Exec(acts).value, t, 22);
  }
}
