/** Every step keeps the invariant of the lock-free queue. */
module LockFreeQueueSteps {
  import opened Wrappers
  import opened LockFreeQueue
  import opened LockFreeQueueInvariant

  // ---------- Shared memory ----------

  /** Nothing that a call may rely on is ever taken back. */
  ghost predicate Grows(q: Queue, a: Trace, q': Queue, a': Trace) {
    && a.chain <= a'.chain
    && a.tasks <= a'.tasks
    && a.head <= a'.head && a.tail <= a'.tail && a.moves <= a'.moves && a.time < a'.time
    && |q.nodes| <= |q'.nodes|
    && (a.moves == a'.moves ==>
          q'.head == q.head && q'.tail == q.tail
          && forall n :: 0 <= n < |q.nodes| ==> q'.nodes[n].next == q.nodes[n].next)
  }

  /** Another thread's step does not disturb a call whose own node it leaves alone. */
  lemma Stable(q: Queue, a: Trace, q': Queue, a': Trace, l: Local, x: Note)
    requires Chained(q, a) && Chained(q', a') && Grows(q, a, q', a')
    requires CallOk(q, a, l, x)
    requires Unlinked(l).Some? ==>
               Unlinked(l).value !in a'.chain && q'.nodes[Unlinked(l).value] == q.nodes[Unlinked(l).value]
    ensures CallOk(q', a', l, x)
  {
    assert forall i :: 0 <= i < |a.chain| ==> a'.chain[i] == a.chain[i];
    assert forall i :: 0 <= i < |a.tasks| ==> a'.tasks[i] == a.tasks[i];
  }

  lemma LinkKeepsChained(q: Queue, a: Trace, n: NodeId, task: Task, q': Queue, a': Trace)
    requires Chained(q, a)
    requires n < |q.nodes| && n !in a.chain && q.nodes[n] == Node(Some(task), None)
    requires var last := a.chain[|a.tasks|];
      && q' == q.(nodes := q.nodes[last := q.nodes[last].(next := Some(n))])
      && a.tail == |a.tasks|
    requires a'.chain == a.chain + [n] && a'.tasks == a.tasks + [task]
    requires a'.head == a.head && a'.tail == a.tail && a'.moves == a.moves + 1
    ensures Chained(q', a')
  {
    forall i | 0 <= i < |a'.tasks|
      ensures LinkAt(q', a', i) && ValueAt(q', a', i)
    {
      if i < |a.tasks| {
        assert LinkAt(q, a, i) && ValueAt(q, a, i);
      }
    }
  }

  lemma TailKeepsChained(q: Queue, a: Trace, q': Queue, a': Trace)
    requires Chained(q, a) && a.tail + 1 < |a.chain|
    requires q' == q.(tail := a.chain[a.tail + 1])
    requires a'.chain == a.chain && a'.tasks == a.tasks
    requires a'.head == a.head && a'.tail == a.tail + 1 && a'.moves == a.moves + 1
    ensures Chained(q', a')
  {
    forall i | 0 <= i < |a.tasks|
      ensures LinkAt(q', a', i) && ValueAt(q', a', i)
    {
      assert LinkAt(q, a, i) && ValueAt(q, a, i);
    }
  }

  lemma HeadKeepsChained(q: Queue, a: Trace, q': Queue, a': Trace)
    requires Chained(q, a) && a.head + 1 <= a.tail
    requires q' == q.(head := a.chain[a.head + 1])
    requires a'.chain == a.chain && a'.tasks == a.tasks
    requires a'.head == a.head + 1 && a'.tail == a.tail && a'.moves == a.moves + 1
    ensures Chained(q', a')
  {
    forall i | 0 <= i < |a.tasks|
      ensures LinkAt(q', a', i) && ValueAt(q', a', i)
    {
      assert LinkAt(q, a, i) && ValueAt(q, a, i);
    }
  }

  /** Allocating nodes and changing `size` do not touch the chain. */
  lemma OtherKeepsChained(q: Queue, a: Trace, q': Queue, a': Trace)
    requires Chained(q, a)
    requires q.nodes <= q'.nodes && q'.head == q.head && q'.tail == q.tail
    requires a'.chain == a.chain && a'.tasks == a.tasks
    requires a'.head == a.head && a'.tail == a.tail && a'.moves == a.moves
    ensures Chained(q', a')
  {
    forall i | 0 <= i < |a.tasks|
      ensures LinkAt(q', a', i) && ValueAt(q', a', i)
    {
      assert LinkAt(q, a, i) && ValueAt(q, a, i);
    }
  }

  /** Positions in the chain are determined by the nodes. */
  lemma SamePosition(q: Queue, a: Trace, i: nat, j: nat)
    requires Chained(q, a) && i < |a.chain| && j < |a.chain| && a.chain[i] == a.chain[j]
    ensures i == j
  {
    if i < j {
    } else if j < i {
    }
  }

  /** A linked node without successor is the last one. */
  lemma NoNextIsLast(q: Queue, a: Trace, i: nat)
    requires Chained(q, a) && i < |a.chain|
    ensures q.nodes[a.chain[i]].next.None? <==> i == |a.tasks|
    ensures q.nodes[a.chain[i]].next.Some? ==> Follows(a, i, q.nodes[a.chain[i]].next.value)
  {
    if i < |a.tasks| {
      assert LinkAt(q, a, i);
    }
  }

  /** What a call's own access must do to shared memory and to what the call relies on. */
  ghost predicate StepsWell(q: Queue, a: Trace, t: ThreadId, l: Local)
    requires t in a.notes && InMemory(q, l)
  {
    var (q', l', e) := Step(q, l);
    var a' := Record(a, t, e, l);
    && Chained(q', a')
    && Grows(q, a, q', a')
    && (!Returns(e) ==> t in a'.notes && CallOk(q', a', l', a'.notes[t]))
    && (Unlinked(l').Some? ==> Unlinked(l') == Unlinked(l))
  }

  /** Every node a call holds exists, so no access of the program is to a missing node. */
  lemma OwnInMemory(q: Queue, a: Trace, l: Local, x: Note)
    requires Chained(q, a) && CallOk(q, a, l, x)
    ensures InMemory(q, l)
  {
  }

  lemma LoadSteps(q: Queue, a: Trace, t: ThreadId, l: Local)
    requires Chained(q, a) && t in a.notes && CallOk(q, a, l, a.notes[t]) && InMemory(q, l)
    requires l.EnqLoadTail? || l.DeqLoadHead? || l.DeqLoadTail?
    ensures StepsWell(q, a, t, l)
  {
    OtherKeepsChained(q, a, q, Record(a, t, Step(q, l).2, l));
  }

  lemma EnqLoadNextSteps(q: Queue, a: Trace, t: ThreadId, l: Local)
    requires Chained(q, a) && t in a.notes && CallOk(q, a, l, a.notes[t]) && InMemory(q, l)
    requires l.EnqLoadNext?
    ensures StepsWell(q, a, t, l)
  {
    NoNextIsLast(q, a, a.notes[t].tailPos);
    OtherKeepsChained(q, a, q, Record(a, t, Step(q, l).2, l));
  }

  lemma DeqLoadNextSteps(q: Queue, a: Trace, t: ThreadId, l: Local)
    requires Chained(q, a) && t in a.notes && CallOk(q, a, l, a.notes[t]) && InMemory(q, l)
    requires l.DeqLoadNext?
    ensures StepsWell(q, a, t, l)
  {
    NoNextIsLast(q, a, a.notes[t].headPos);
    OtherKeepsChained(q, a, q, Record(a, t, Step(q, l).2, l));
  }

  lemma EnqRecheckSteps(q: Queue, a: Trace, t: ThreadId, l: Local)
    requires Chained(q, a) && t in a.notes && CallOk(q, a, l, a.notes[t]) && InMemory(q, l)
    requires l.EnqRecheck?
    ensures StepsWell(q, a, t, l)
  {
    OtherKeepsChained(q, a, q, Record(a, t, Step(q, l).2, l));
  }

  /** The shared half of StepsWell. */
  ghost predicate StepsShared(q: Queue, a: Trace, t: ThreadId, l: Local)
    requires t in a.notes && InMemory(q, l)
  {
    var (q', l', e) := Step(q, l);
    Chained(q', Record(a, t, e, l)) && Grows(q, a, q', Record(a, t, e, l))
  }

  lemma DeqRecheckShared(q: Queue, a: Trace, t: ThreadId, l: Local)
    requires Chained(q, a) && t in a.notes && InMemory(q, l) && l.DeqRecheck?
    ensures StepsShared(q, a, t, l)
  {
    OtherKeepsChained(q, a, q, Record(a, t, Step(q, l).2, l));
  }

  lemma DeqRecheckOwn(q: Queue, a: Trace, t: ThreadId, l: Local)
    requires Chained(q, a) && t in a.notes && CallOk(q, a, l, a.notes[t]) && InMemory(q, l) && l.DeqRecheck?
    ensures var (q', l', e) := Step(q, l);
      var b := Record(a, t, e, l);
      !Returns(e) && t in b.notes && CallOk(q', b, l', b.notes[t]) && Unlinked(l').None?
  {
    var x := a.notes[t];
    if l.head == l.tail {
      SamePosition(q, a, x.headPos, x.tailPos);
    } else if l.next.Some? {
      assert ValueAt(q, a, x.headPos);
    }
  }

  lemma DeqRecheckSteps(q: Queue, a: Trace, t: ThreadId, l: Local)
    requires Chained(q, a) && t in a.notes && CallOk(q, a, l, a.notes[t]) && InMemory(q, l)
    requires l.DeqRecheck?
    ensures StepsWell(q, a, t, l)
  {
    DeqRecheckShared(q, a, t, l);
    DeqRecheckOwn(q, a, t, l);
  }

  /** Trying to advance the tail, whoever does it. */
  lemma TailShared(q: Queue, a: Trace, t: ThreadId, l: Local)
    requires Chained(q, a) && t in a.notes && CallOk(q, a, l, a.notes[t]) && InMemory(q, l)
    requires l.EnqHelp? || l.DeqHelp? || l.EnqSwing?
    ensures StepsShared(q, a, t, l)
  {
    var (q', l', e) := Step(q, l);
    if q.tail == l.tail {
      SamePosition(q, a, a.tail, a.notes[t].tailPos);
      TailKeepsChained(q, a, q', Record(a, t, e, l));
    } else {
      OtherKeepsChained(q, a, q', Record(a, t, e, l));
    }
  }

  lemma EnqHelpSteps(q: Queue, a: Trace, t: ThreadId, l: Local)
    requires Chained(q, a) && t in a.notes && CallOk(q, a, l, a.notes[t]) && InMemory(q, l)
    requires l.EnqHelp?
    ensures StepsWell(q, a, t, l)
  {
    TailShared(q, a, t, l);
  }

  lemma DeqHelpSteps(q: Queue, a: Trace, t: ThreadId, l: Local)
    requires Chained(q, a) && t in a.notes && CallOk(q, a, l, a.notes[t]) && InMemory(q, l)
    requires l.DeqHelp?
    ensures StepsWell(q, a, t, l)
  {
    TailShared(q, a, t, l);
  }

  lemma SwingSteps(q: Queue, a: Trace, t: ThreadId, l: Local)
    requires Chained(q, a) && t in a.notes && CallOk(q, a, l, a.notes[t]) && InMemory(q, l)
    requires l.EnqSwing?
    ensures StepsWell(q, a, t, l)
  {
    TailShared(q, a, t, l);
  }

  lemma LinkSteps(q: Queue, a: Trace, t: ThreadId, l: Local)
    requires Chained(q, a) && t in a.notes && CallOk(q, a, l, a.notes[t]) && InMemory(q, l)
    requires l.EnqLink?
    ensures StepsWell(q, a, t, l)
  {
    var (q', l', e) := Step(q, l);
    NoNextIsLast(q, a, a.notes[t].tailPos);
    if e.Linked? {
      LinkKeepsChained(q, a, l.node, a.notes[t].arg.value, q', Record(a, t, e, l));
    } else {
      OtherKeepsChained(q, a, q', Record(a, t, e, l));
    }
  }

  lemma RemoveSteps(q: Queue, a: Trace, t: ThreadId, l: Local)
    requires Chained(q, a) && t in a.notes && CallOk(q, a, l, a.notes[t]) && InMemory(q, l)
    requires l.DeqSwing?
    ensures StepsWell(q, a, t, l)
  {
    var (q', l', e) := Step(q, l);
    if q.head == l.head {
      SamePosition(q, a, a.head, a.notes[t].headPos);
      HeadKeepsChained(q, a, q', Record(a, t, e, l));
    } else {
      OtherKeepsChained(q, a, q', Record(a, t, e, l));
    }
  }

  lemma ReturnSteps(q: Queue, a: Trace, t: ThreadId, l: Local)
    requires Chained(q, a) && t in a.notes && CallOk(q, a, l, a.notes[t]) && InMemory(q, l)
    requires l.EnqCount? || l.DeqCount? || l.DeqReturnNil?
    ensures StepsWell(q, a, t, l)
  {
    var (q', l', e) := Step(q, l);
    OtherKeepsChained(q, a, q', Record(a, t, e, l));
  }

  lemma OwnStep(q: Queue, a: Trace, t: ThreadId, l: Local)
    requires Chained(q, a) && t in a.notes && CallOk(q, a, l, a.notes[t])
    ensures InMemory(q, l) && StepsWell(q, a, t, l)
  {
    OwnInMemory(q, a, l, a.notes[t]);
    match l {
      case EnqLoadTail(_) => LoadSteps(q, a, t, l);
      case EnqLoadNext(_, _) => EnqLoadNextSteps(q, a, t, l);
      case EnqRecheck(_, _, _) => EnqRecheckSteps(q, a, t, l);
      case EnqHelp(_, _, _) => EnqHelpSteps(q, a, t, l);
      case EnqLink(_, _) => LinkSteps(q, a, t, l);
      case EnqSwing(_, _) => SwingSteps(q, a, t, l);
      case EnqCount(_) => ReturnSteps(q, a, t, l);
      case DeqLoadHead => LoadSteps(q, a, t, l);
      case DeqLoadTail(_) => LoadSteps(q, a, t, l);
      case DeqLoadNext(_, _) => DeqLoadNextSteps(q, a, t, l);
      case DeqRecheck(_, _, _) => DeqRecheckSteps(q, a, t, l);
      case DeqHelp(_, _, _) => DeqHelpSteps(q, a, t, l);
      case DeqSwing(_, _, _) => RemoveSteps(q, a, t, l);
      case DeqCount(_) => ReturnSteps(q, a, t, l);
      case DeqReturnNil(_, _) => ReturnSteps(q, a, t, l);
    }
  }

  /** The part of the invariant about shared memory and local variables. */
  ghost predicate ShapeInv(s: State) {
    && s.running.Keys == s.trace.notes.Keys
    && Chained(s.queue, s.trace)
    && Private(s.running)
    && (forall t :: t in s.running ==> CallOk(s.queue, s.trace, s.running[t], s.trace.notes[t]))
  }

  /** A step changes no unlinked node of another call. */
  lemma Untouched(q: Queue, a: Trace, t: ThreadId, l: Local, m: Local, y: Note)
    requires Chained(q, a) && t in a.notes && CallOk(q, a, l, a.notes[t]) && InMemory(q, l)
    requires CallOk(q, a, m, y)
    requires Unlinked(m).Some? && Unlinked(l).Some? ==> Unlinked(m) != Unlinked(l)
    ensures Unlinked(m).Some? ==> var (q', l', e) := Step(q, l);
      && Unlinked(m).value !in Record(a, t, e, l).chain
      && q'.nodes[Unlinked(m).value] == q.nodes[Unlinked(m).value]
  {
    if Unlinked(m).Some? && l.EnqLink? {
      assert a.chain[a.notes[t].tailPos] in a.chain;
    }
  }

  /** Call t's step leaves call u all it relies on. */
  lemma OtherCall(s: State, t: ThreadId, u: ThreadId)
    requires ShapeInv(s) && t in s.running && u in s.running && u != t
    requires InMemory(s.queue, s.running[t])
    requires StepsWell(s.queue, s.trace, t, s.running[t])
    ensures var (q', l', e) := Step(s.queue, s.running[t]);
      CallOk(q', Record(s.trace, t, e, s.running[t]), s.running[u], s.trace.notes[u])
  {
    var q, a, l, m, y := s.queue, s.trace, s.running[t], s.running[u], s.trace.notes[u];
    var (q', l', e) := Step(q, l);
    Untouched(q, a, t, l, m, y);
    Stable(q, a, q', Record(a, t, e, l), m, y);
  }

  lemma RunKeepsPrivate(r: map<ThreadId, Local>, t: ThreadId, l: Local)
    requires Private(r) && t in r && (Unlinked(l).Some? ==> Unlinked(l) == Unlinked(r[t]))
    ensures Private(r[t := l]) && Private(r - {t})
  {
  }

  /** Only call t's note changes, and it goes away exactly when t returns. */
  lemma RecordedNotes(a: Trace, t: ThreadId, e: Effect, l: Local)
    requires t in a.notes
    ensures var b := Record(a, t, e, l);
      && b.notes.Keys == (if Returns(e) then a.notes.Keys - {t} else a.notes.Keys)
      && forall u :: u in b.notes && u != t ==> b.notes[u] == a.notes[u]
  {
  }

  lemma AssembleShape(s: State, t: ThreadId, q': Queue, l': Local, returned: bool, a': Trace)
    requires s.running.Keys == s.trace.notes.Keys && Private(s.running) && t in s.running
    requires Chained(q', a')
    requires a'.notes.Keys == if returned then s.trace.notes.Keys - {t} else s.trace.notes.Keys
    requires !returned ==> CallOk(q', a', l', a'.notes[t])
    requires Unlinked(l').Some? ==> Unlinked(l') == Unlinked(s.running[t])
    requires forall u :: u in a'.notes && u != t ==> a'.notes[u] == s.trace.notes[u]
    requires forall u :: u in s.running && u != t ==> CallOk(q', a', s.running[u], s.trace.notes[u])
    ensures ShapeInv(State(q', if returned then s.running - {t} else s.running[t := l'], a'))
  {
    RunKeepsPrivate(s.running, t, l');
  }

  lemma RunKeepsShape(s: State, t: ThreadId)
    requires ShapeInv(s) && t in s.running
    ensures Enabled(s, Run(t)) && ShapeInv(Apply(s, Run(t)))
  {
    OwnStep(s.queue, s.trace, t, s.running[t]);
    var r := Step(s.queue, s.running[t]);
    var a' := Record(s.trace, t, r.2, s.running[t]);
    RecordedNotes(s.trace, t, r.2, s.running[t]);
    forall u | u in s.running && u != t
      ensures CallOk(r.0, a', s.running[u], s.trace.notes[u])
    {
      OtherCall(s, t, u);
    }
    AssembleShape(s, t, r.0, r.1, Returns(r.2), a');
  }

  /** A new call leaves a running one all it relies on, and the new node is not its own. */
  lemma NewCallLeaves(s: State, act: Action, u: ThreadId)
    requires ShapeInv(s) && !act.Run? && Enabled(s, act) && u in s.running
    requires Chained(Apply(s, act).queue, Apply(s, act).trace)
    ensures CallOk(Apply(s, act).queue, Apply(s, act).trace, s.running[u], s.trace.notes[u])
    ensures Unlinked(s.running[u]) != Some(|s.queue.nodes|)
  {
    Stable(s.queue, s.trace, Apply(s, act).queue, Apply(s, act).trace, s.running[u], s.trace.notes[u]);
  }

  lemma CallKeepsShape(s: State, act: Action)
    requires ShapeInv(s) && !act.Run? && Enabled(s, act)
    ensures ShapeInv(Apply(s, act))
  {
    var q, a := s.queue, s.trace;
    var s' := Apply(s, act);
    OtherKeepsChained(q, a, s'.queue, s'.trace);
    assert |q.nodes| !in a.chain;
    forall u | u in s.running
      ensures CallOk(s'.queue, s'.trace, s.running[u], a.notes[u])
      ensures Unlinked(s.running[u]) != Some(|q.nodes|)
    {
      NewCallLeaves(s, act, u);
    }
  }
}
