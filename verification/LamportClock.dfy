/** Lamport clocks as a machine whose steps are single atomic accesses: any number of processes, each with one
    clock and any number of threads, exchanging the values their calls returned. */
module LamportClock {
  import opened Wrappers

  type ClockId = nat
  type ThreadId = nat

  /** An atomic update of a clock: the value it wrote and returned, and which earlier event it observed. */
  datatype Event = Event(clock: ClockId, value: nat, observed: Option<nat>)

  /** Where a running call stands. `since` is the number of events when the counter was loaded; it is kept for
      the statements only. */
  datatype Local =
    | AtAdd(clock: ClockId)
    | AtLoad(clock: ClockId, remote: nat, observed: nat)
    | AtSwap(clock: ClockId, remote: nat, observed: nat, current: nat, since: nat)

  datatype State = State(counters: map<ClockId, nat>, running: map<ThreadId, Local>, log: seq<Event>)

  /** An observed value is one that an earlier event returned. */
  datatype Action = CallTick(t: ThreadId, c: ClockId) | CallObserve(t: ThreadId, c: ClockId, event: nat) | Run(t: ThreadId)

  function Read(s: State, c: ClockId): nat {
    if c in s.counters then s.counters[c] else 0
  }

  predicate Enabled(s: State, a: Action) {
    match a
    case CallTick(t, _) => t !in s.running
    case CallObserve(t, _, e) => t !in s.running && e < |s.log|
    case Run(t) => t in s.running
  }

  /** The value an observing call tries to write. */
  function Next(remote: nat, current: nat): nat {
    if remote > current then remote + 1 else current + 1
  }

  function Apply(s: State, a: Action): State
    requires Enabled(s, a)
  {
    match a
    case CallTick(t, c) => s.(running := s.running[t := AtAdd(c)])
    case CallObserve(t, c, e) => s.(running := s.running[t := AtLoad(c, s.log[e].value, e)])
    case Run(t) =>
      match s.running[t]
      case AtAdd(c) =>
        State(s.counters[c := Read(s, c) + 1], s.running - {t}, s.log + [Event(c, Read(s, c) + 1, None)])
      case AtLoad(c, remote, e) =>
        s.(running := s.running[t := AtSwap(c, remote, e, Read(s, c), |s.log|)])
      case AtSwap(c, remote, e, current, _) =>
        if Read(s, c) == current
        then State(s.counters[c := Next(remote, current)], s.running - {t},
                   s.log + [Event(c, Next(remote, current), Some(e))])
        else s.(running := s.running[t := AtLoad(c, remote, e)])
  }

  function Exec(acts: seq<Action>): Option<State> {
    if acts == [] then Some(State(map[], map[], []))
    else
      match Exec(acts[..|acts| - 1])
      case None => None
      case Some(s) => if Enabled(s, acts[|acts| - 1]) then Some(Apply(s, acts[|acts| - 1])) else None
  }

  // ---------- The invariant ----------

  /** Event j comes right after event i in the order of one clock, or observed it. */
  predicate Precedes(log: seq<Event>, i: nat, j: nat) {
    i < j < |log| && (log[i].clock == log[j].clock || log[j].observed == Some(i))
  }

  predicate UpdatedSince(log: seq<Event>, c: ClockId, since: nat) {
    exists i :: since <= i < |log| && log[i].clock == c
  }

  ghost predicate LocalOk(s: State, l: Local) {
    match l
    case AtAdd(_) => true
    case AtLoad(_, remote, e) => e < |s.log| && s.log[e].value == remote
    case AtSwap(c, remote, e, current, since) =>
      && e < |s.log| && s.log[e].value == remote
      && since <= |s.log| && current <= Read(s, c)
      && (current == Read(s, c) <==> !UpdatedSince(s.log, c, since))
  }

  ghost predicate Inv(s: State) {
    && (forall i :: 0 <= i < |s.log| ==> s.log[i].value <= Read(s, s.log[i].clock))
    && (forall j :: 0 <= j < |s.log| && s.log[j].observed.Some? ==> s.log[j].observed.value < j)
    && (forall i: nat, j: nat :: Precedes(s.log, i, j) ==> s.log[i].value < s.log[j].value)
    && (forall t :: t in s.running ==> LocalOk(s, s.running[t]))
  }

  /** An atomic update of clock c to a value above its present one and above the value observed. */
  lemma UpdateKeepsInv(s: State, t: ThreadId, c: ClockId, v: nat, observed: Option<nat>)
    requires Inv(s) && t in s.running && Read(s, c) < v
    requires observed.Some? ==> observed.value < |s.log| && s.log[observed.value].value < v
    ensures Inv(State(s.counters[c := v], s.running - {t}, s.log + [Event(c, v, observed)]))
  {
    var s' := State(s.counters[c := v], s.running - {t}, s.log + [Event(c, v, observed)]);
    forall i: nat, j: nat | Precedes(s'.log, i, j)
      ensures s'.log[i].value < s'.log[j].value
    {
      assert j < |s.log| ==> Precedes(s.log, i, j);
    }
    forall u | u in s'.running
      ensures LocalOk(s', s'.running[u])
    {
      var l := s.running[u];
      assert LocalOk(s, l);
      if l.AtSwap? {
        if l.clock == c {
          assert s'.log[|s.log|].clock == c;
        } else if UpdatedSince(s.log, l.clock, l.since) {
          var i :| l.since <= i < |s.log| && s.log[i].clock == l.clock;
          assert s'.log[i].clock == l.clock;
        }
      }
    }
  }

  lemma ApplyKeepsInv(s: State, a: Action)
    requires Inv(s) && Enabled(s, a)
    ensures Inv(Apply(s, a))
  {
    match a {
      case CallTick(_, _) =>
      case CallObserve(_, _, _) =>
      case Run(t) =>
        var l := s.running[t];
        assert LocalOk(s, l);
        match l {
          case AtAdd(c) => UpdateKeepsInv(s, t, c, Read(s, c) + 1, None);
          case AtLoad(_, _, _) =>
          case AtSwap(c, remote, e, current, _) =>
            if Read(s, c) == current {
              UpdateKeepsInv(s, t, c, Next(remote, current), Some(e));
            }
        }
    }
  }

  lemma {:induction false} InvAlways(acts: seq<Action>)
    requires Exec(acts).Some?
    ensures Inv(Exec(acts).value)
  {
    if acts != [] {
      InvAlways(acts[..|acts| - 1]);
      ApplyKeepsInv(Exec(acts[..|acts| - 1]).value, acts[|acts| - 1]);
    }
  }

  // ---------- What the calls were given ----------

  /** Action i is the latest by which thread t called anything. */
  predicate CalledAt(acts: seq<Action>, t: ThreadId, i: nat) {
    i < |acts| && !acts[i].Run? && acts[i].t == t
    && forall k :: i < k < |acts| && acts[k].t == t ==> acts[k].Run?
  }

  /** The running call is the one that the action made, on that clock and with that event to observe. */
  predicate Doing(a: Action, l: Local) {
    match a
    case CallTick(_, c) => l == AtAdd(c)
    case CallObserve(_, c, e) => (l.AtLoad? || l.AtSwap?) && l.clock == c && l.observed == e
    case Run(_) => false
  }

  ghost predicate RunningAsCalled(acts: seq<Action>, running: map<ThreadId, Local>) {
    forall t :: t in running ==> CallKnown(acts, t, running[t])
  }

  ghost predicate CallKnown(acts: seq<Action>, t: ThreadId, l: Local) {
    exists i: nat :: CalledAt(acts, t, i) && Doing(acts[i], l)
  }

  /** The event is what the call had to write: on its clock, observing what it was given and exceeding it. */
  predicate Fits(a: Action, log: seq<Event>, j: nat) {
    j < |log|
    && match a
       case CallTick(_, c) => log[j].clock == c && log[j].observed == None
       case CallObserve(_, c, e) =>
         log[j].clock == c && log[j].observed == Some(e) && e < j && log[j].value > log[e].value
       case Run(_) => false
  }

  /** Event j was written by action n, the last access of a call that action i made and that returned with it. */
  ghost predicate WrittenBy(acts: seq<Action>, log: seq<Event>, j: nat, n: nat, i: nat) {
    && n < |acts| && acts[n].Run? && Exec(acts[..n]).Some? && Exec(acts[..n + 1]).Some?
    && j < |log| && Exec(acts[..n]).value.log == log[..j] && Exec(acts[..n + 1]).value.log == log[..j + 1]
    && acts[n].t in Exec(acts[..n]).value.running && acts[n].t !in Exec(acts[..n + 1]).value.running
    && CalledAt(acts[..n], acts[n].t, i) && Fits(acts[i], log, j)
  }

  ghost predicate AsCalled(acts: seq<Action>, log: seq<Event>, j: nat) {
    exists n: nat, i: nat :: WrittenBy(acts, log, j, n, i)
  }

  /** What is known of a running call stays known while its thread only goes on with it. */
  lemma CallStaysKnown(acts: seq<Action>, n: nat, t: ThreadId, l: Local, l': Local)
    requires n + 1 == |acts| && CallKnown(acts[..n], t, l) && (acts[n].t == t ==> acts[n].Run?)
    requires forall a :: Doing(a, l) ==> Doing(a, l')
    ensures CallKnown(acts, t, l')
  {
    var i: nat :| CalledAt(acts[..n], t, i) && Doing(acts[..n][i], l);
    assert CalledAt(acts, t, i) && Doing(acts[i], l');
  }

  lemma {:induction false} CallsKnown(acts: seq<Action>)
    requires Exec(acts).Some?
    ensures RunningAsCalled(acts, Exec(acts).value.running)
  {
    if acts != [] {
      var n := |acts| - 1;
      var s, a := Exec(acts[..n]).value, acts[n];
      var s' := Exec(acts).value;
      CallsKnown(acts[..n]);
      forall t | t in s'.running
        ensures CallKnown(acts, t, s'.running[t])
      {
        if t == a.t && !a.Run? {
          assert CalledAt(acts, t, n) && Doing(acts[n], s'.running[t]);
        } else {
          CallStaysKnown(acts, n, t, s.running[t], s'.running[t]);
        }
      }
    }
  }

  /** The event that an access writes fits the call. */
  lemma WrittenFits(s: State, t: ThreadId, a: Action)
    requires Inv(s) && t in s.running && Doing(a, s.running[t]) && Apply(s, Run(t)).log != s.log
    ensures Apply(s, Run(t)).log[..|s.log|] == s.log && |Apply(s, Run(t)).log| == |s.log| + 1
    ensures t !in Apply(s, Run(t)).running && Fits(a, Apply(s, Run(t)).log, |s.log|)
  {
    assert LocalOk(s, s.running[t]);
  }

  lemma LogGrows(s: State, a: Action)
    requires Enabled(s, a)
    ensures |s.log| <= |Apply(s, a).log| <= |s.log| + 1 && Apply(s, a).log[..|s.log|] == s.log
    ensures !a.Run? ==> Apply(s, a).log == s.log
  {
  }

  /** Every event of every run was written by the last access of a call, on the clock that the call was made for and
      observing the event that the call was given; the value it returned exceeds that of the event. */
  lemma {:induction false} EventsAsCalled(acts: seq<Action>, j: nat) returns (n: nat, i: nat)
    requires Exec(acts).Some? && j < |Exec(acts).value.log|
    ensures WrittenBy(acts, Exec(acts).value.log, j, n, i)
  {
    var m := |acts| - 1;
    var s, a, log := Exec(acts[..m]).value, acts[m], Exec(acts).value.log;
    LogGrows(s, a);
    if j < |s.log| {
      n, i := EventsAsCalled(acts[..m], j);
      StaysWritten(acts, m, s.log, log, j, n, i);
    } else {
      n := m;
      i := LastWritten(acts, m);
    }
  }

  lemma StaysWritten(acts: seq<Action>, m: nat, before: seq<Event>, log: seq<Event>, j: nat, n: nat, i: nat)
    requires m <= |acts| && |before| <= |log| && log[..|before|] == before && WrittenBy(acts[..m], before, j, n, i)
    ensures WrittenBy(acts, log, j, n, i)
  {
    assert acts[..m][..n] == acts[..n] && acts[..m][..n + 1] == acts[..n + 1];
    assert before[..j] == log[..j] && before[..j + 1] == log[..j + 1];
    assert before[j] == log[j] && forall e :: 0 <= e < j ==> before[e] == log[e];
  }

  lemma LastWritten(acts: seq<Action>, m: nat) returns (i: nat)
    requires m + 1 == |acts| && Exec(acts).Some? && Exec(acts).value.log != Exec(acts[..m]).value.log
    ensures WrittenBy(acts, Exec(acts).value.log, |Exec(acts[..m]).value.log|, m, i)
  {
    var s, a, log := Exec(acts[..m]).value, acts[m], Exec(acts).value.log;
    LogGrows(s, a);
    CallsKnown(acts[..m]);
    InvAlways(acts[..m]);
    assert CallKnown(acts[..m], a.t, s.running[a.t]);
    i :| CalledAt(acts[..m], a.t, i) && Doing(acts[..m][i], s.running[a.t]);
    WrittenFits(s, a.t, acts[i]);
    assert acts[..m + 1] == acts && log[..|s.log| + 1] == log;
  }

  // ---------- What the clocks promise ----------

  /** A chain of events from i to j, each in the order of one clock with the next or observed by it. */
  ghost predicate HappensBefore(log: seq<Event>, i: nat, j: nat)
    decreases j
  {
    Precedes(log, i, j) || exists k: nat :: k < j && HappensBefore(log, i, k) && Precedes(log, k, j)
  }

  lemma {:induction false} ChainIncreases(s: State, i: nat, j: nat)
    requires Inv(s) && HappensBefore(s.log, i, j)
    ensures i < j < |s.log| && s.log[i].value < s.log[j].value
    decreases j
  {
    if !Precedes(s.log, i, j) {
      var k: nat :| k < j && HappensBefore(s.log, i, k) && Precedes(s.log, k, j);
      ChainIncreases(s, i, k);
    }
  }

  /** In every run of any processes and threads, an event that happens before another has a smaller value; and what
      the events observe, on which that order rests, is what the calls were given. */
  lemma ClockCondition(acts: seq<Action>, i: nat, j: nat)
    requires Exec(acts).Some? && HappensBefore(Exec(acts).value.log, i, j)
    ensures i < j < |Exec(acts).value.log| && Exec(acts).value.log[i].value < Exec(acts).value.log[j].value
    ensures forall k: nat :: k < |Exec(acts).value.log| ==> AsCalled(acts, Exec(acts).value.log, k)
  {
    InvAlways(acts);
    ChainIncreases(Exec(acts).value, i, j);
    forall k: nat | k < |Exec(acts).value.log|
      ensures AsCalled(acts, Exec(acts).value.log, k)
    {
      var n, m := EventsAsCalled(acts, k);
    }
  }

  /** The values of one clock are distinct and increase in the order of its atomic updates. */
  lemma ClockIncreases(acts: seq<Action>, i: nat, j: nat)
    requires Exec(acts).Some? && i < j < |Exec(acts).value.log|
    requires Exec(acts).value.log[i].clock == Exec(acts).value.log[j].clock
    ensures Exec(acts).value.log[i].value < Exec(acts).value.log[j].value
  {
    InvAlways(acts);
    assert Precedes(Exec(acts).value.log, i, j);
  }

  /** An observing call goes round its loop exactly when the clock was updated after the call loaded it. */
  lemma RetryMeansUpdate(acts: seq<Action>, t: ThreadId)
    requires Exec(acts).Some? && t in Exec(acts).value.running && Exec(acts).value.running[t].AtSwap?
    ensures var s := Exec(acts).value;
      t in Apply(s, Run(t)).running <==> UpdatedSince(s.log, s.running[t].clock, s.running[t].since)
  {
    InvAlways(acts);
    assert LocalOk(Exec(acts).value, Exec(acts).value.running[t]);
  }

  // ---------- Lamport's rule, from the events alone ----------

  /** The value of the last event of a clock, 0 before its first. */
  function LastValue(log: seq<Event>, c: ClockId): nat {
    if log == [] then 0
    else if log[|log| - 1].clock == c then log[|log| - 1].value
    else LastValue(log[..|log| - 1], c)
  }

  function Max(a: nat, b: nat): nat {
    if a < b then b else a
  }

  /** One above the larger of the clock's previous value and the value observed. */
  predicate ByTheRule(log: seq<Event>, j: nat) {
    j < |log|
    && (log[j].observed.Some? ==> log[j].observed.value < j)
    && log[j].value
       == 1 + Max(LastValue(log[..j], log[j].clock), if log[j].observed.Some? then log[log[j].observed.value].value else 0)
  }

  ghost predicate Exact(s: State) {
    && (forall c: ClockId :: Read(s, c) == LastValue(s.log, c))
    && (forall j: nat :: j < |s.log| ==> ByTheRule(s.log, j))
  }

  lemma UpdateKeepsExact(s: State, t: ThreadId, e: Event)
    requires Exact(s) && (e.observed.Some? ==> e.observed.value < |s.log|)
    requires e.value == 1 + Max(Read(s, e.clock), if e.observed.Some? then s.log[e.observed.value].value else 0)
    ensures Exact(State(s.counters[e.clock := e.value], s.running - {t}, s.log + [e]))
  {
    var s', log := State(s.counters[e.clock := e.value], s.running - {t}, s.log + [e]), s.log + [e];
    assert log[..|log| - 1] == s.log;
    forall c: ClockId
      ensures Read(s', c) == LastValue(log, c)
    {
      assert Read(s, c) == LastValue(s.log, c);
    }
    forall j: nat | j < |log|
      ensures ByTheRule(log, j)
    {
      if j < |s.log| {
        assert ByTheRule(s.log, j) && log[..j] == s.log[..j];
      }
    }
  }

  /** In every run each returned value is by Lamport's rule: one above the larger of the last value of the same
      clock and the value observed, whatever the interleaving of threads and however often they retried. */
  lemma {:induction false} RuleAlways(acts: seq<Action>)
    requires Exec(acts).Some?
    ensures Exact(Exec(acts).value)
  {
    if acts != [] {
      var s, a := Exec(acts[..|acts| - 1]).value, acts[|acts| - 1];
      RuleAlways(acts[..|acts| - 1]);
      InvAlways(acts[..|acts| - 1]);
      if a.Run? {
        var l := s.running[a.t];
        assert LocalOk(s, l);
        match l {
          case AtAdd(c) => UpdateKeepsExact(s, a.t, Event(c, Read(s, c) + 1, None));
          case AtLoad(_, _, _) =>
          case AtSwap(c, remote, e, current, _) =>
            if Read(s, c) == current {
              UpdateKeepsExact(s, a.t, Event(c, Next(remote, current), Some(e)));
            }
        }
      }
    }
  }
}
