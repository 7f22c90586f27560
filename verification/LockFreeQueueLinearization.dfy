/** The recorded effects of the lock-free queue's calls stay a correct queue history, step by step. */
module LockFreeQueueLinearization {
  import opened Wrappers
  import opened LockFreeQueue
  import opened LockFreeQueueInvariant
  import opened LockFreeQueueSteps

  // ---------- Replaying and inserting ----------

  lemma {:induction false} ReplayAppend(s: seq<Task>, points: seq<Point>, p: Point)
    ensures Replay(s, points + [p]) == match Replay(s, points) case None => None case Some(r) => Replay(r, [p])
    decreases |points|
  {
    if points == [] {
      assert points + [p] == [p];
    } else {
      assert (points + [p])[1..] == points[1..] + [p];
      match points[0].op {
        case Enq(task) => ReplayAppend(s + [task], points[1..], p);
        case Deq(None) => ReplayAppend(s, points[1..], p);
        case Deq(Some(_)) => if s != [] { ReplayAppend(s[1..], points[1..], p); }
      }
    }
  }

  /** A dequeue that finds nothing can be placed wherever the queue was empty. */
  lemma {:induction false} ReplayInsertNil(s: seq<Task>, points: seq<Point>, p: Point)
    requires p.op == Deq(None) && Replay(s, Before(points, p.at)) == Some([])
    ensures Replay(s, InsertPoint(points, p)) == Replay(s, points)
    decreases |points|
  {
    if points != [] && points[0].at < p.at {
      assert Before(points, p.at)[1..] == Before(points[1..], p.at);
      assert InsertPoint(points, p)[1..] == InsertPoint(points[1..], p);
      match points[0].op {
        case Enq(task) => ReplayInsertNil(s + [task], points[1..], p);
        case Deq(None) => ReplayInsertNil(s, points[1..], p);
        case Deq(Some(_)) => ReplayInsertNil(s[1..], points[1..], p);
      }
    } else {
      assert ([p] + points)[1..] == points;
    }
  }

  lemma {:induction false} BeforeInsert(points: seq<Point>, p: Point, k: nat)
    ensures Before(InsertPoint(points, p), k) == if k <= p.at then Before(points, k) else InsertPoint(Before(points, k), p)
  {
    if points != [] && points[0].at < p.at {
      BeforeInsert(points[1..], p, k);
      assert InsertPoint(points, p)[1..] == InsertPoint(points[1..], p);
      assert points[0].at < k ==> Before(points, k)[1..] == Before(points[1..], k);
    } else {
      assert ([p] + points)[1..] == points;
    }
  }

  lemma {:induction false} BeforeBefore(points: seq<Point>, j: nat, k: nat)
    requires j <= k
    ensures Before(Before(points, k), j) == Before(points, j)
  {
    if points != [] && points[0].at < j {
      BeforeBefore(points[1..], j, k);
      assert Before(points, k)[1..] == Before(points[1..], k);
    }
  }

  lemma {:induction false} BeforeAll(points: seq<Point>, k: nat)
    requires forall p :: p in points ==> p.at < k
    ensures Before(points, k) == points
  {
    if points != [] {
      BeforeAll(points[1..], k);
    }
  }

  lemma {:induction false} InsertedMembers(points: seq<Point>, p: Point)
    ensures forall r :: r in InsertPoint(points, p) <==> r == p || r in points
  {
    if points != [] && points[0].at < p.at {
      InsertedMembers(points[1..], p);
      assert points == [points[0]] + points[1..];
    }
  }

  lemma {:induction false} InsertedOrdered(points: seq<Point>, p: Point)
    requires Ordered(points) && forall r :: r in points ==> r.at != p.at
    ensures Ordered(InsertPoint(points, p))
  {
    if points != [] && points[0].at < p.at {
      InsertedOrdered(points[1..], p);
      InsertedMembers(points[1..], p);
      var rest := InsertPoint(points[1..], p);
      assert forall i :: 0 <= i < |rest| ==> rest[i] in rest;
    }
  }

  /** A point later than all others goes to the end. */
  lemma {:induction false} InsertedLast(points: seq<Point>, p: Point)
    requires forall r :: r in points ==> r.at < p.at
    ensures InsertPoint(points, p) == points + [p]
  {
    if points != [] {
      InsertedLast(points[1..], p);
    }
  }

  /** Evidence of an empty queue survives a later effect, and an earlier dequeue that found nothing. */
  lemma EvidenceSurvives(points: seq<Point>, p: Point, start: nat, sawAt: nat, now: nat, now': nat)
    requires SawEmpty(points, start, sawAt, now) && now <= now' && p.at != sawAt
    requires sawAt < p.at || (p.op == Deq(None) && Replay([], Before(points, p.at)) == Some([]))
    ensures SawEmpty(InsertPoint(points, p), start, sawAt, now')
  {
    InsertedMembers(points, p);
    BeforeInsert(points, p, sawAt);
    if p.at < sawAt {
      BeforeBefore(points, p.at, sawAt);
      ReplayInsertNil([], Before(points, sawAt), p);
    }
  }

  // ---------- The part of the invariant about effects ----------

  ghost predicate LogInv(s: State) {
    && s.running.Keys == s.trace.notes.Keys
    && Logged(s)
    && (forall t :: t in s.running ==> CallLogged(s.trace, t, s.running[t], s.trace.notes[t]))
    && DistinctWitnesses(s)
  }

  /** A step with no effect on the abstract queue. */
  lemma SilentKeepsLog(s: State, t: ThreadId, s': State)
    requires LogInv(s) && t in s.running
    requires s'.running.Keys == s.running.Keys && s'.trace.notes.Keys == s.trace.notes.Keys
    requires forall u :: u in s.running && u != t ==>
               s'.running[u] == s.running[u] && s'.trace.notes[u] == s.trace.notes[u]
    requires s'.trace.points == s.trace.points && s'.trace.calls == s.trace.calls
    requires Contents(s'.trace) == Contents(s.trace) && s'.trace.time == s.trace.time + 1
    requires s'.trace.notes[t].start == s.trace.notes[t].start && s'.trace.notes[t].arg == s.trace.notes[t].arg
    requires Effected(s'.running[t], s'.trace.notes[t]) == Effected(s.running[t], s.trace.notes[t])
    requires HoldsNil(s'.running[t]) ==>
               || (HoldsNil(s.running[t]) && s'.trace.notes[t].sawAt == s.trace.notes[t].sawAt)
               || (s'.trace.notes[t].sawAt == s.trace.time && Contents(s.trace) == [])
    ensures LogInv(s')
  {
    var a, a' := s.trace, s'.trace;
    SilentOwned(s, t, s');
    forall u | u in s'.running
      ensures CallLogged(a', u, s'.running[u], a'.notes[u])
    {
      SilentCallLogged(a, u, s.running[u], a.notes[u], s'.running[u], a'.notes[u], a');
    }
    SilentWitnesses(s, t, s');
  }

  /** Every effect still belongs to a call. */
  lemma SilentOwned(s: State, t: ThreadId, s': State)
    requires Owned(s.trace.points, s.trace.calls, s.running, s.trace.notes)
    requires t in s.running && s.running.Keys == s.trace.notes.Keys
    requires s'.running.Keys == s.running.Keys && s'.trace.notes.Keys == s.trace.notes.Keys
    requires forall u :: u in s.running && u != t ==>
               s'.running[u] == s.running[u] && s'.trace.notes[u] == s.trace.notes[u]
    requires s'.trace.points == s.trace.points && s'.trace.calls == s.trace.calls
    requires s'.trace.notes[t].start == s.trace.notes[t].start
    requires Effected(s'.running[t], s'.trace.notes[t]) == Effected(s.running[t], s.trace.notes[t])
    ensures Owned(s'.trace.points, s'.trace.calls, s'.running, s'.trace.notes)
  {
    forall p | p in s'.trace.points
      ensures Reported(s'.trace.calls, p) || Pending(s'.running, s'.trace.notes, p)
    {
      assert Reported(s.trace.calls, p) || Pending(s.running, s.trace.notes, p);
    }
  }

  /** Witnesses stay distinct if the call that moved kept its own or took the present instant. */
  lemma SilentWitnesses(s: State, t: ThreadId, s': State)
    requires LogInv(s) && t in s.running
    requires s'.running.Keys == s.running.Keys && s'.trace.notes.Keys == s.trace.notes.Keys
    requires forall u :: u in s.running && u != t ==>
               s'.running[u] == s.running[u] && s'.trace.notes[u] == s.trace.notes[u]
    requires HoldsNil(s'.running[t]) ==>
               || (HoldsNil(s.running[t]) && s'.trace.notes[t].sawAt == s.trace.notes[t].sawAt)
               || s'.trace.notes[t].sawAt == s.trace.time
    ensures DistinctWitnesses(s')
  {
    var a, a' := s.trace, s'.trace;
    forall u, v | u in s'.running && v in s'.running && u != v && HoldsNil(s'.running[u]) && HoldsNil(s'.running[v])
      ensures a'.notes[u].sawAt != a'.notes[v].sawAt
    {
      assert u != t ==> HoldsNil(s.running[u]) && CallLogged(a, u, s.running[u], a.notes[u]);
      assert v != t ==> HoldsNil(s.running[v]) && CallLogged(a, v, s.running[v], a.notes[v]);
    }
  }

  /** What a call recorded stays true, or it just saw the queue empty. */
  lemma SilentCallLogged(a: Trace, u: ThreadId, l: Local, x: Note, l': Local, x': Note, a': Trace)
    requires CallLogged(a, u, l, x) && Effects(a.points, Contents(a), a.time)
    requires a'.points == a.points && a'.calls == a.calls && a'.time == a.time + 1
    requires x'.start == x.start && Effected(l', x') == Effected(l, x)
    requires HoldsNil(l') ==>
               (HoldsNil(l) && x'.sawAt == x.sawAt) || (x'.sawAt == a.time && Contents(a) == [])
    ensures CallLogged(a', u, l', x')
  {
    BeforeAll(a.points, a.time);
  }

  /** A new effect of call t, placed at its instant, keeps the effects a correct history. */
  lemma EffectsInsert(points: seq<Point>, contents: seq<Task>, now: nat, p: Point, contents': seq<Task>)
    requires Effects(points, contents, now) && p.start < p.at <= now
    requires forall r :: r in points ==> r.at != p.at && (r.thread != p.thread || r.start != p.start)
    requires Replay([], InsertPoint(points, p)) == Some(contents')
    ensures Effects(InsertPoint(points, p), contents', now + 1)
  {
    InsertedMembers(points, p);
    InsertedOrdered(points, p);
  }

  /** What call u recorded stays true when another call's effect is inserted and calls of others return. */
  lemma OtherLogged(a: Trace, u: ThreadId, l: Local, x: Note, p: Point, a': Trace)
    requires CallLogged(a, u, l, x) && p.thread != u
    requires a'.points == InsertPoint(a.points, p) && a'.time == a.time + 1
    requires forall c :: c in a'.calls && c.thread == u ==> c in a.calls
    requires HoldsNil(l) ==> x.sawAt != p.at
    requires HoldsNil(l) ==> x.sawAt < p.at || (p.op == Deq(None) && Replay([], Before(a.points, p.at)) == Some([]))
    ensures CallLogged(a', u, l, x)
  {
    InsertedMembers(a.points, p);
    if HoldsNil(l) {
      EvidenceSurvives(a.points, p, x.start, x.sawAt, a.time, a'.time);
    }
    if Effected(l, x).Some? {
      var r :| r in a.points && r.thread == u && r.start == x.start && r.op == Effected(l, x).value && x.start < r.at < a.time;
      assert r in a'.points;
    }
  }

  /** What a call recorded stays true when nothing takes effect and other calls return. */
  lemma QuietLogged(a: Trace, u: ThreadId, l: Local, x: Note, a': Trace)
    requires CallLogged(a, u, l, x)
    requires a'.points == a.points && a'.time == a.time + 1
    requires forall c :: c in a'.calls && c.thread == u ==> c in a.calls
    ensures CallLogged(a', u, l, x)
  {
  }

  lemma OwnedInsert(points: seq<Point>, calls: seq<Call>, running: map<ThreadId, Local>, notes: map<ThreadId, Note>,
                    p: Point, running': map<ThreadId, Local>)
    requires Owned(points, calls, running, notes) && p.thread in running && p.thread in notes
    requires Effected(running[p.thread], notes[p.thread]).None?
    requires running'.Keys == running.Keys
    requires forall u :: u in running && u != p.thread ==> running'[u] == running[u]
    requires Pending(running', notes, p)
    ensures Owned(InsertPoint(points, p), calls, running', notes)
  {
    InsertedMembers(points, p);
    forall r | r in points
      ensures Reported(calls, r) || Pending(running', notes, r)
    {
      assert Reported(calls, r) || Pending(running, notes, r);
    }
  }

  lemma ReportedMore(calls: seq<Call>, c: Call, p: Point)
    requires Reported(calls, p)
    ensures Reported(calls + [c], p)
  {
    var d :| d in calls && d.thread == p.thread && d.start == p.start && d.op == p.op && p.at < d.end;
    assert d in calls + [c];
  }

  lemma OwnedReturn(points: seq<Point>, calls: seq<Call>, running: map<ThreadId, Local>, notes: map<ThreadId, Note>, c: Call)
    requires Owned(points, calls, running, notes)
    requires forall p :: p in points && p.thread == c.thread && Pending(running, notes, p) ==>
               p.start == c.start && p.op == c.op && p.at < c.end
    ensures Owned(points, calls + [c], running - {c.thread}, notes - {c.thread})
  {
    assert c in calls + [c];
    forall p | p in points
      ensures Reported(calls + [c], p) || Pending(running - {c.thread}, notes - {c.thread}, p)
    {
      if Reported(calls, p) {
        ReportedMore(calls, c, p);
      } else {
        assert Pending(running, notes, p);
      }
    }
  }

  lemma CallsReturn(points: seq<Point>, calls: seq<Call>, now: nat, points': seq<Point>, c: Call)
    requires CallsEffected(points, calls, now)
    requires forall p :: p in points ==> p in points'
    requires c.start < c.end <= now && HasPoint(points', c.thread, c.start, c.op, c.end)
    ensures CallsEffected(points', calls + [c], now + 1)
  {
    forall d | d in calls
      ensures HasPoint(points', d.thread, d.start, d.op, d.end)
    {
      var p :| p in points && p.thread == d.thread && p.start == d.start && p.op == d.op && d.start < p.at < d.end;
      assert p in points';
    }
  }

  /** Between s and s' call t took effect as op, at the present instant, and nothing else was recorded. */
  ghost predicate TookEffect(s: State, t: ThreadId, s': State, op: Op) {
    && t in s.running && t in s.trace.notes
    && s'.running.Keys == s.running.Keys && s'.trace.notes == s.trace.notes
    && (forall u :: u in s.running && u != t ==> s'.running[u] == s.running[u])
    && s'.trace.calls == s.trace.calls && s'.trace.time == s.trace.time + 1
    && s'.trace.points == s.trace.points + [Point(t, s.trace.notes[t].start, op, s.trace.time)]
    && Effected(s.running[t], s.trace.notes[t]).None? && Effected(s'.running[t], s.trace.notes[t]) == Some(op)
    && !HoldsNil(s'.running[t])
  }

  lemma EffectCallsLogged(s: State, t: ThreadId, s': State, op: Op)
    requires LogInv(s) && TookEffect(s, t, s', op)
    ensures forall u :: u in s'.running ==> CallLogged(s'.trace, u, s'.running[u], s'.trace.notes[u])
  {
    var a, a' := s.trace, s'.trace;
    var p := Point(t, a.notes[t].start, op, a.time);
    forall u | u in s'.running
      ensures CallLogged(a', u, s'.running[u], a'.notes[u])
    {
      if u == t {
        OwnEffectLogged(a, t, s.running[t], a.notes[t], p, s'.running[t], a');
      } else {
        OtherEffectLogged(a, u, s.running[u], a.notes[u], p, a');
      }
    }
  }

  /** A call that has not taken effect has no point. */
  lemma NothingYet(a: Trace, t: ThreadId, l: Local, x: Note)
    requires CallLogged(a, t, l, x) && Effected(l, x).None?
    ensures x.start < a.time && forall r :: r in a.points ==> r.thread != t || r.start != x.start
  {
  }

  lemma EffectLogged(s: State, t: ThreadId, s': State, op: Op)
    requires LogInv(s) && TookEffect(s, t, s', op)
    requires Replay(Contents(s.trace), [Point(t, s.trace.notes[t].start, op, s.trace.time)]) == Some(Contents(s'.trace))
    ensures Logged(s')
  {
    var a := s.trace;
    NothingYet(a, t, s.running[t], a.notes[t]);
    EffectKeepsLogged(a, Contents(a), Point(t, a.notes[t].start, op, a.time), Contents(s'.trace), s.running, s'.running);
  }

  /** The step at which an enqueue or a successful dequeue takes effect. */
  lemma EffectKeepsLog(s: State, t: ThreadId, s': State, op: Op)
    requires LogInv(s) && TookEffect(s, t, s', op)
    requires Replay(Contents(s.trace), [Point(t, s.trace.notes[t].start, op, s.trace.time)]) == Some(Contents(s'.trace))
    ensures LogInv(s')
  {
    EffectLogged(s, t, s', op);
    EffectCallsLogged(s, t, s', op);
    WitnessesStay(s, t, s');
  }

  /** After its own effect a call has that effect recorded. */
  lemma OwnEffectLogged(a: Trace, t: ThreadId, l: Local, x: Note, p: Point, l': Local, a': Trace)
    requires CallLogged(a, t, l, x) && p.thread == t && p.start == x.start && p.at == a.time
    requires a'.points == a.points + [p] && a'.calls == a.calls && a'.time == a.time + 1
    requires Effected(l', x) == Some(p.op) && !HoldsNil(l')
    ensures CallLogged(a', t, l', x)
  {
    assert p in a'.points;
  }

  /** Another call's effect at the present instant. */
  lemma OtherEffectLogged(a: Trace, u: ThreadId, l: Local, x: Note, p: Point, a': Trace)
    requires CallLogged(a, u, l, x) && p.thread != u && p.at == a.time
    requires forall r :: r in a.points ==> r.at < a.time
    requires a'.points == a.points + [p] && a'.calls == a.calls && a'.time == a.time + 1
    ensures CallLogged(a', u, l, x)
  {
    InsertedLast(a.points, p);
    OtherLogged(a, u, l, x, p, a');
  }

  /** Witnesses of an empty queue stay distinct if no call gets a new one. */
  lemma WitnessesStay(s: State, t: ThreadId, s': State)
    requires DistinctWitnesses(s) && s'.running.Keys <= s.running.Keys <= s.trace.notes.Keys
    requires forall u :: u in s'.running && u != t ==> s'.running[u] == s.running[u]
    requires forall u :: u in s'.trace.notes && u != t ==> u in s.trace.notes && s'.trace.notes[u] == s.trace.notes[u]
    requires t in s'.running ==> !HoldsNil(s'.running[t])
    ensures DistinctWitnesses(s')
  {
  }

  /** An effect at the present instant extends the history of effects. */
  lemma EffectKeepsLogged(a: Trace, contents: seq<Task>, p: Point, contents': seq<Task>,
                          running: map<ThreadId, Local>, running': map<ThreadId, Local>)
    requires Effects(a.points, contents, a.time) && CallsEffected(a.points, a.calls, a.time)
    requires Owned(a.points, a.calls, running, a.notes)
    requires p.start < p.at == a.time && p.thread in running && p.thread in a.notes
    requires forall r :: r in a.points ==> r.thread != p.thread || r.start != p.start
    requires Replay(contents, [p]) == Some(contents')
    requires Effected(running[p.thread], a.notes[p.thread]).None? && running'.Keys == running.Keys
    requires forall u :: u in running && u != p.thread ==> running'[u] == running[u]
    requires Pending(running', a.notes, p)
    ensures Effects(a.points + [p], contents', a.time + 1) && CallsEffected(a.points + [p], a.calls, a.time + 1)
    ensures Owned(a.points + [p], a.calls, running', a.notes)
  {
    ReplayAppend([], a.points, p);
    InsertedLast(a.points, p);
    EffectsInsert(a.points, contents, a.time, p, contents');
    OwnedInsert(a.points, a.calls, running, a.notes, p, running');
    EffectKeepsCalls(a, p);
  }

  lemma EffectKeepsCalls(a: Trace, p: Point)
    requires CallsEffected(a.points, a.calls, a.time)
    ensures CallsEffected(a.points + [p], a.calls, a.time + 1)
  {
    forall d | d in a.calls
      ensures HasPoint(a.points + [p], d.thread, d.start, d.op, d.end)
    {
      var r :| r in a.points && r.thread == d.thread && r.start == d.start && r.op == d.op && d.start < r.at < d.end;
      assert r in a.points + [p];
    }
  }

  /** The return of a call that has taken effect. */
  lemma ReturnKeepsLog(s: State, t: ThreadId, s': State, op: Op)
    requires LogInv(s) && t in s.running
    requires s'.running == s.running - {t} && s'.trace.notes == s.trace.notes - {t}
    requires s'.trace.calls == s.trace.calls + [Call(t, s.trace.notes[t].start, op, s.trace.time)]
    requires s'.trace.points == s.trace.points && s'.trace.time == s.trace.time + 1
    requires Contents(s'.trace) == Contents(s.trace)
    requires Effected(s.running[t], s.trace.notes[t]) == Some(op)
    ensures LogInv(s')
  {
    var a, a' := s.trace, s'.trace;
    var c := Call(t, a.notes[t].start, op, a.time);
    assert CallLogged(a, t, s.running[t], a.notes[t]);
    assert Logged(s') by {
      CallsReturn(a.points, a.calls, a.time, a.points, c);
      OwnedReturn(a.points, a.calls, s.running, a.notes, c);
    }
    forall u | u in s'.running
      ensures CallLogged(a', u, s'.running[u], a'.notes[u])
    {
      QuietLogged(a, u, s.running[u], a.notes[u], a');
    }
    WitnessesStay(s, t, s');
  }

  /** The return of a dequeue that found nothing: its effect is placed at the instant it saw the queue empty. */
  lemma NilKeepsLog(s: State, t: ThreadId, s': State)
    requires LogInv(s) && t in s.running
    requires s'.running == s.running - {t} && s'.trace.notes == s.trace.notes - {t}
    requires s'.trace.calls == s.trace.calls + [Call(t, s.trace.notes[t].start, Deq(None), s.trace.time)]
    requires s'.trace.points ==
             InsertPoint(s.trace.points, Point(t, s.trace.notes[t].start, Deq(None), s.trace.notes[t].sawAt))
    requires s'.trace.time == s.trace.time + 1
    requires Contents(s'.trace) == Contents(s.trace)
    requires HoldsNil(s.running[t]) && Effected(s.running[t], s.trace.notes[t]).None?
    ensures LogInv(s')
  {
    var a, a', x := s.trace, s'.trace, s.trace.notes[t];
    var c := Call(t, x.start, Deq(None), a.time);
    var p := Point(t, x.start, Deq(None), x.sawAt);
    assert CallLogged(a, t, s.running[t], x);
    InsertedMembers(a.points, p);
    assert p in a'.points;
    ReplayInsertNil([], a.points, p);
    EffectsInsert(a.points, Contents(a), a.time, p, Contents(a'));
    CallsReturn(a.points, a.calls, a.time, a'.points, c);
    OwnedReturn(a.points, a.calls, s.running, a.notes, c);
    assert Reported(a'.calls, p) by {
      assert c in a'.calls;
    }
    forall u | u in s'.running
      ensures CallLogged(a', u, s'.running[u], a'.notes[u])
    {
      assert CallLogged(a, u, s.running[u], a.notes[u]);
      OtherLogged(a, u, s.running[u], a.notes[u], p, a');
    }
  }

  // ---------- Each access keeps it ----------

  /** The accesses that change nothing on the abstract queue. */
  ghost predicate Silent(q: Queue, l: Local)
    requires InMemory(q, l)
  {
    var e := Step(q, l).2;
    !l.DeqLoadNext? && !e.Linked? && !e.Removed? && !Returns(e)
  }

  lemma SilentStep(q: Queue, a: Trace, t: ThreadId, l: Local)
    requires t in a.notes && InMemory(q, l) && Silent(q, l)
    ensures var (q', l', e) := Step(q, l);
      var b := Record(a, t, e, l);
      && !Returns(e) && b.points == a.points && b.calls == a.calls && b.time == a.time + 1
      && b.tasks == a.tasks && b.head == a.head && b.notes.Keys == a.notes.Keys
      && (forall u :: u in a.notes && u != t ==> b.notes[u] == a.notes[u])
      && b.notes[t].start == a.notes[t].start && b.notes[t].arg == a.notes[t].arg
      && b.notes[t].sawAt == a.notes[t].sawAt
      && Effected(l', b.notes[t]) == Effected(l, a.notes[t])
      && (HoldsNil(l') ==> HoldsNil(l))
  {
  }

  /** Linking a node appends its task to the contents. */
  lemma LinkReplay(a: Trace, task: Task, p: Point, a': Trace)
    requires a.head <= |a.tasks| && p.op == Enq(task)
    requires a'.tasks == a.tasks + [task] && a'.head == a.head
    ensures Replay(Contents(a), [p]) == Some(Contents(a'))
  {
    assert a'.tasks[a'.head..] == a.tasks[a.head..] + [task];
    assert [p][1..] == [];
  }

  /** Swinging the head takes the oldest task. */
  lemma RemoveReplay(a: Trace, p: Point, a': Trace)
    requires a.head < |a.tasks| && p.op == Deq(Some(a.tasks[a.head]))
    requires a'.tasks == a.tasks && a'.head == a.head + 1
    ensures Replay(Contents(a), [p]) == Some(Contents(a'))
  {
    assert a.tasks[a.head..][1..] == a'.tasks[a'.head..];
    assert [p][1..] == [];
  }

  lemma LinkKeepsLog(s: State, t: ThreadId)
    requires LogInv(s) && t in s.running && Enabled(s, Run(t))
    requires Chained(s.queue, s.trace) && CallOk(s.queue, s.trace, s.running[t], s.trace.notes[t])
    requires s.running[t].EnqLink? && Step(s.queue, s.running[t]).2.Linked?
    ensures LogInv(Apply(s, Run(t)))
  {
    var a, x := s.trace, s.trace.notes[t];
    var s' := Apply(s, Run(t));
    LinkReplay(a, x.arg.value, Point(t, x.start, Enq(x.arg.value), a.time), s'.trace);
    EffectKeepsLog(s, t, s', Enq(x.arg.value));
  }

  /** The task a call takes off the queue is the oldest. */
  lemma RemovedTask(q: Queue, a: Trace, l: Local, x: Note)
    requires Chained(q, a) && CallOk(q, a, l, x) && l.DeqSwing? && q.head == l.head
    ensures a.head < |a.tasks| && l.task == Some(a.tasks[a.head])
  {
    SamePosition(q, a, a.head, x.headPos);
  }

  lemma RemoveTakesEffect(s: State, t: ThreadId)
    requires t in s.running && s.running.Keys == s.trace.notes.Keys && Enabled(s, Run(t))
    requires s.running[t].DeqSwing? && Step(s.queue, s.running[t]).2.Removed?
    ensures TookEffect(s, t, Apply(s, Run(t)), Deq(s.running[t].task))
    ensures Apply(s, Run(t)).trace.tasks == s.trace.tasks && Apply(s, Run(t)).trace.head == s.trace.head + 1
  {
  }

  lemma RemoveKeepsLog(s: State, t: ThreadId)
    requires LogInv(s) && t in s.running && Enabled(s, Run(t))
    requires Chained(s.queue, s.trace) && CallOk(s.queue, s.trace, s.running[t], s.trace.notes[t])
    requires s.running[t].DeqSwing? && Step(s.queue, s.running[t]).2.Removed?
    ensures LogInv(Apply(s, Run(t)))
  {
    var a, l, x := s.trace, s.running[t], s.trace.notes[t];
    var s' := Apply(s, Run(t));
    RemovedTask(s.queue, a, l, x);
    RemoveTakesEffect(s, t);
    RemoveReplay(a, Point(t, x.start, Deq(l.task), a.time), s'.trace);
    EffectKeepsLog(s, t, s', Deq(l.task));
  }

  /** A call about to count has taken effect. */
  lemma CountingEffected(q: Queue, a: Trace, l: Local, x: Note)
    requires CallOk(q, a, l, x) && (l.EnqCount? || l.DeqCount?)
    ensures Effected(l, x) == Some(if l.EnqCount? && x.arg.Some? then Enq(x.arg.value) else Deq(if l.DeqCount? then l.task else None))
    ensures l.EnqCount? ==> x.arg.Some?
  {
  }

  lemma ReturningKeepsLog(s: State, t: ThreadId)
    requires LogInv(s) && t in s.running && Enabled(s, Run(t))
    requires Chained(s.queue, s.trace) && CallOk(s.queue, s.trace, s.running[t], s.trace.notes[t])
    requires s.running[t].EnqCount? || s.running[t].DeqCount?
    ensures LogInv(Apply(s, Run(t)))
  {
    CountingEffected(s.queue, s.trace, s.running[t], s.trace.notes[t]);
    ReturnKeepsLog(s, t, Apply(s, Run(t)), Effected(s.running[t], s.trace.notes[t]).value);
  }

  lemma ReturningNilKeepsLog(s: State, t: ThreadId)
    requires LogInv(s) && t in s.running && Enabled(s, Run(t)) && s.running[t].DeqReturnNil?
    ensures LogInv(Apply(s, Run(t)))
  {
    NilKeepsLog(s, t, Apply(s, Run(t)));
  }

  lemma LoadNextKeepsLog(s: State, t: ThreadId)
    requires LogInv(s) && t in s.running && Enabled(s, Run(t))
    requires Chained(s.queue, s.trace) && CallOk(s.queue, s.trace, s.running[t], s.trace.notes[t])
    requires s.running[t].DeqLoadNext?
    ensures LogInv(Apply(s, Run(t)))
  {
    NoNextIsLast(s.queue, s.trace, s.trace.notes[t].headPos);
    SilentKeepsLog(s, t, Apply(s, Run(t)));
  }

  /** The accesses that are not silent. */
  lemma LoudAccesses(q: Queue, l: Local)
    requires InMemory(q, l) && !Silent(q, l)
    ensures || l.DeqLoadNext? || l.EnqCount? || l.DeqCount? || l.DeqReturnNil?
            || (l.EnqLink? && Step(q, l).2.Linked?) || (l.DeqSwing? && Step(q, l).2.Removed?)
  {
  }

  lemma RunKeepsLog(s: State, t: ThreadId)
    requires ShapeInv(s) && LogInv(s) && t in s.running && Enabled(s, Run(t))
    ensures LogInv(Apply(s, Run(t)))
  {
    var l := s.running[t];
    if Silent(s.queue, l) {
      SilentRunKeepsLog(s, t);
    } else {
      LoudAccesses(s.queue, l);
      assert CallOk(s.queue, s.trace, l, s.trace.notes[t]);
      match l {
        case EnqLink(_, _) => LinkKeepsLog(s, t);
        case DeqSwing(_, _, _) => RemoveKeepsLog(s, t);
        case DeqLoadNext(_, _) => LoadNextKeepsLog(s, t);
        case EnqCount(_) => ReturningKeepsLog(s, t);
        case DeqCount(_) => ReturningKeepsLog(s, t);
        case DeqReturnNil(_, _) => ReturningNilKeepsLog(s, t);
      }
    }
  }

  lemma SilentRunKeepsLog(s: State, t: ThreadId)
    requires LogInv(s) && t in s.running && Enabled(s, Run(t)) && Silent(s.queue, s.running[t])
    ensures LogInv(Apply(s, Run(t)))
  {
    SilentStep(s.queue, s.trace, t, s.running[t]);
    SilentKeepsLog(s, t, Apply(s, Run(t)));
  }

  lemma NewCallOwned(s: State, t: ThreadId, l: Local, x: Note)
    requires Owned(s.trace.points, s.trace.calls, s.running, s.trace.notes) && t !in s.running
    ensures Owned(s.trace.points, s.trace.calls, s.running[t := l], s.trace.notes[t := x])
  {
    forall p | p in s.trace.points
      ensures Reported(s.trace.calls, p) || Pending(s.running[t := l], s.trace.notes[t := x], p)
    {
      assert Reported(s.trace.calls, p) || Pending(s.running, s.trace.notes, p);
    }
  }

  /** A new call has no effects yet, and all earlier calls of its thread ended before it began. */
  lemma NewCallLogged(a: Trace, t: ThreadId, l: Local, arg: Option<Task>)
    requires Effects(a.points, Contents(a), a.time) && CallsEffected(a.points, a.calls, a.time)
    requires l.EnqLoadTail? || l.DeqLoadHead?
    ensures CallLogged(a.(time := a.time + 1), t, l, NewNote(a, arg))
  {
  }

  lemma CallKeepsLog(s: State, act: Action)
    requires LogInv(s) && !act.Run? && Enabled(s, act)
    ensures LogInv(Apply(s, act))
  {
    var a, s' := s.trace, Apply(s, act);
    var t, l, x := act.t, s'.running[act.t], s'.trace.notes[act.t];
    NewCallOwned(s, t, l, x);
    NewCallLogged(a, t, l, x.arg);
    assert CallLogged(s'.trace, t, l, x);
    forall u | u in s.running
      ensures CallLogged(s'.trace, u, s.running[u], a.notes[u])
    {
      QuietLogged(a, u, s.running[u], a.notes[u], s'.trace);
    }
  }
}
