/** The saga executor: steps run in order with retries, and after a failure the executed steps are
    compensated in reverse order. The world the steps act on is any type; what a step does may depend on the
    instant it is called. */
module Saga {

  const MAX_RETRIES: nat := 3

  /** What a step's two functions do to the world, and whether they succeed. */
  datatype Code<!W> = Code(execute: (nat, W) -> (W, bool), compensate: (nat, W) -> (W, bool))

  datatype Call = Execute(step: nat, ok: bool) | Compensate(step: nat, ok: bool)

  /** The world, the number of calls made, and the calls in order. */
  datatype Run<W> = Run(world: W, clock: nat, trace: seq<Call>)

  datatype StepStatus = StepPending | StepRunning | StepCompleted | StepFailed | StepSkipped | Compensated | CompensationFailed

  datatype SagaStatus = Pending | Running | Completed | Compensating | Aborted

  // ---------- What execution does ----------

  function Attempt<W>(c: Code<W>, i: nat, r: Run<W>): (Run<W>, bool) {
    var (w, ok) := c.execute(r.clock, r.world);
    (Run(w, r.clock + 1, r.trace + [Execute(i, ok)]), ok)
  }

  function Attempts<W>(c: Code<W>, i: nat, r: Run<W>, left: nat): (Run<W>, bool)
    decreases left
  {
    if left == 0 then (r, false)
    else
      var (r', ok) := Attempt(c, i, r);
      if ok then (r', true) else Attempts(c, i, r', left - 1)
  }

  /** Runs the steps from i on; the number is that of the step that failed, or the number of steps. */
  function Forward<W>(codes: seq<Code<W>>, i: nat, r: Run<W>): (x: (Run<W>, nat))
    requires i <= |codes|
    ensures i <= x.1 <= |codes|
    decreases |codes| - i
  {
    if i == |codes| then (r, i)
    else
      var (r', ok) := Attempts(codes[i], i, r, MAX_RETRIES);
      if ok then Forward(codes, i + 1, r') else (r', i)
  }

  function Undo<W>(c: Code<W>, j: nat, r: Run<W>): (Run<W>, bool) {
    var (w, ok) := c.compensate(r.clock, r.world);
    (Run(w, r.clock + 1, r.trace + [Compensate(j, ok)]), ok)
  }

  /** Compensates steps n-1 down to 0. */
  function Backward<W>(codes: seq<Code<W>>, n: nat, r: Run<W>): Run<W>
    requires n <= |codes|
  {
    if n == 0 then r else Backward(codes, n - 1, Undo(codes[n - 1], n - 1, r).0)
  }

  /** The statuses that compensating steps n-1 down to 0 leaves. */
  function BackwardStatus<W>(codes: seq<Code<W>>, n: nat, r: Run<W>): (s: seq<StepStatus>)
    requires n <= |codes|
    ensures |s| == n
  {
    if n == 0 then []
    else
      var (r', ok) := Undo(codes[n - 1], n - 1, r);
      BackwardStatus(codes, n - 1, r') + [if ok then Compensated else CompensationFailed]
  }

  function Whole<W>(codes: seq<Code<W>>, r: Run<W>): (Run<W>, bool) {
    var (r', f) := Forward(codes, 0, r);
    if f == |codes| then (r', true) else (Backward(codes, f, r'), false)
  }

  function Repeat(x: StepStatus, n: nat): (s: seq<StepStatus>)
    ensures |s| == n && forall k :: 0 <= k < n ==> s[k] == x
  {
    seq(n, _ => x)
  }

  /** The statuses of the steps after a whole saga. */
  function FinalStatuses<W>(codes: seq<Code<W>>, r: Run<W>): (s: seq<StepStatus>)
    ensures |s| == |codes|
  {
    var (r', f) := Forward(codes, 0, r);
    if f == |codes| then Repeat(StepCompleted, f)
    else BackwardStatus(codes, f, r') + [StepSkipped] + Repeat(StepPending, |codes| - f - 1)
  }

  lemma ForwardStep<W>(codes: seq<Code<W>>, i: nat, r: Run<W>)
    requires i < |codes|
    ensures var (r', ok) := Attempts(codes[i], i, r, MAX_RETRIES);
      Forward(codes, i, r) == if ok then Forward(codes, i + 1, r') else (r', i)
  {
  }

  // ---------- The objects ----------

  class World<W> {
    var state: W
    var clock: nat
    var trace: seq<Call>

    constructor (w: W)
      ensures View() == Run(w, 0, [])
    {
      state := w;
      clock := 0;
      trace := [];
    }

    function View(): Run<W>
      reads this
    {
      Run(state, clock, trace)
    }

    method CallExecute(c: Code<W>, i: nat) returns (ok: bool)
      modifies this
      ensures (View(), ok) == Attempt(c, i, old(View()))
    {
      var r := c.execute(clock, state);
      state, ok := r.0, r.1;
      clock := clock + 1;
      trace := trace + [Execute(i, ok)];
    }

    method CallCompensate(c: Code<W>, j: nat) returns (ok: bool)
      modifies this
      ensures (View(), ok) == Undo(c, j, old(View()))
    {
      var r := c.compensate(clock, state);
      state, ok := r.0, r.1;
      clock := clock + 1;
      trace := trace + [Compensate(j, ok)];
    }
  }

  datatype Step<!W> = Step(code: Code<W>, status: StepStatus)

  function Codes<W>(steps: seq<Step<W>>): (s: seq<Code<W>>)
    ensures |s| == |steps|
  {
    seq(|steps|, i requires 0 <= i < |steps| => steps[i].code)
  }

  function Statuses<W>(steps: seq<Step<W>>): (s: seq<StepStatus>)
    ensures |s| == |steps|
  {
    seq(|steps|, i requires 0 <= i < |steps| => steps[i].status)
  }

  class SagaTransaction<W> {
    var steps: seq<Step<W>>
    var currentStep: nat
    var status: SagaStatus
    var executed: map<nat, bool>

    ghost predicate Valid()
      reads this
    {
      status == Pending ==> executed == map[] && Statuses(steps) == Repeat(StepPending, |steps|)
    }

    constructor ()
      ensures Valid() && status == Pending && steps == []
    {
      steps := [];
      currentStep := 0;
      status := Pending;
      executed := map[];
    }

    method AddStep(code: Code<W>)
      requires Valid()
      modifies this
      ensures Valid() && status == old(status) && executed == old(executed)
      ensures steps == old(steps) + [Step(code, StepPending)]
    {
      steps := steps + [Step(code, StepPending)];
      assert Statuses(steps) == Statuses(old(steps)) + [StepPending];
      assert Repeat(StepPending, |steps|) == Repeat(StepPending, |steps| - 1) + [StepPending];
    }

    method SetStatus(j: nat, x: StepStatus)
      requires j < |steps|
      modifies this`steps
      ensures Codes(steps) == Codes(old(steps)) && Statuses(steps) == Statuses(old(steps))[j := x]
    {
      steps := steps[j := steps[j].(status := x)];
    }
  }

  ghost predicate ExecutedUpTo(executed: map<nat, bool>, i: nat) {
    (forall k :: k in executed <==> 0 <= k < i) && forall k :: k in executed ==> executed[k]
  }

  /** Tries one step until it succeeds, at most MAX_RETRIES times. */
  method TryStep<W>(code: Code<W>, i: nat, world: World<W>) returns (ok: bool)
    modifies world
    ensures (world.View(), ok) == Attempts(code, i, old(world.View()), MAX_RETRIES)
  {
    ok := false;
    var retry := 0;
    while retry < MAX_RETRIES
      invariant 0 <= retry <= MAX_RETRIES && !ok
      invariant Attempts(code, i, old(world.View()), MAX_RETRIES)
                == Attempts(code, i, world.View(), MAX_RETRIES - retry)
    {
      ok := world.CallExecute(code, i);
      if ok {
        break;
      }
      retry := retry + 1;
    }
  }

  /** Runs a saga. */
  method ExecuteSaga<W>(saga: SagaTransaction<W>, world: World<W>) returns (ok: bool)
    requires saga.Valid()
    modifies saga, world
    ensures saga.Valid() && Codes(saga.steps) == old(Codes(saga.steps))
    ensures old(saga.status) != Pending ==>
              && !ok && world.View() == old(world.View())
              && saga.status == old(saga.status) && saga.steps == old(saga.steps)
    ensures old(saga.status) == Pending ==>
              && (world.View(), ok) == Whole(old(Codes(saga.steps)), old(world.View()))
              && saga.status == (if ok then Completed else Aborted)
              && Statuses(saga.steps) == FinalStatuses(old(Codes(saga.steps)), old(world.View()))
  {
    if saga.status != Pending {
      return false;
    }
    ghost var codes, r0, n := Codes(saga.steps), world.View(), |saga.steps|;
    saga.status := Running;
    var i := 0;
    while i < |saga.steps|
      invariant 0 <= i <= n && saga.status == Running && Codes(saga.steps) == codes && |saga.steps| == n
      invariant ExecutedUpTo(saga.executed, i)
      invariant Statuses(saga.steps) == Repeat(StepCompleted, i) + Repeat(StepPending, n - i)
      invariant Forward(codes, 0, r0) == Forward(codes, i, world.View())
      decreases n - i
    {
      ForwardStep(codes, i, world.View());
      var success := RunStep(saga, world, i);
      if !success {
        assert Forward(codes, 0, r0) == (world.View(), i);
        saga.status := Compensating;
        CompensateFrom(saga, world, i);
        saga.status := Aborted;
        return false;
      }
      i := i + 1;
    }
    assert Forward(codes, i, world.View()) == (world.View(), n);
    assert Repeat(StepCompleted, n) + Repeat(StepPending, 0) == Repeat(StepCompleted, n);
    saga.status := Completed;
    ok := true;
  }

  /** One round of the loop over the steps. */
  method RunStep<W>(saga: SagaTransaction<W>, world: World<W>, i: nat) returns (ok: bool)
    requires i < |saga.steps| && ExecutedUpTo(saga.executed, i)
    requires Statuses(saga.steps) == Repeat(StepCompleted, i) + Repeat(StepPending, |saga.steps| - i)
    modifies saga`steps, saga`currentStep, saga`executed, world
    ensures Codes(saga.steps) == old(Codes(saga.steps)) && saga.currentStep == i
    ensures (world.View(), ok) == Attempts(Codes(saga.steps)[i], i, old(world.View()), MAX_RETRIES)
    ensures ExecutedUpTo(saga.executed, if ok then i + 1 else i)
    ensures Statuses(saga.steps) ==
            if ok then Repeat(StepCompleted, i + 1) + Repeat(StepPending, |saga.steps| - i - 1)
            else Repeat(StepCompleted, i) + [StepFailed] + Repeat(StepPending, |saga.steps| - i - 1)
  {
    saga.currentStep := i;
    StatusUpdates(i, |saga.steps|);
    saga.SetStatus(i, StepRunning);
    assert saga.steps[i].code == Codes(saga.steps)[i];
    ok := TryStep(saga.steps[i].code, i, world);
    if !ok {
      saga.SetStatus(i, StepFailed);
      return;
    }
    saga.SetStatus(i, StepCompleted);
    saga.executed := saga.executed[i := true];
  }

  /** Compensates the executed steps from step i down, each once; step i itself was not executed. */
  method CompensateFrom<W>(saga: SagaTransaction<W>, world: World<W>, i: nat)
    requires i < |saga.steps| && ExecutedUpTo(saga.executed, i)
    requires Statuses(saga.steps) == Repeat(StepCompleted, i) + [StepFailed] + Repeat(StepPending, |saga.steps| - i - 1)
    modifies saga`steps, world
    ensures Codes(saga.steps) == old(Codes(saga.steps))
    ensures world.View() == Backward(Codes(saga.steps), i, old(world.View()))
    ensures Statuses(saga.steps) == BackwardStatus(Codes(saga.steps), i, old(world.View())) + [StepSkipped]
                                    + Repeat(StepPending, |saga.steps| - i - 1)
  {
    ghost var codes, r0 := Codes(saga.steps), world.View();
    ghost var done: seq<StepStatus> := [];
    ghost var rest := Repeat(StepPending, |saga.steps| - i - 1);
    ghost var tail := [StepSkipped] + rest;
    var j: int := i;
    while j >= 0
      invariant -1 <= j <= i && Codes(saga.steps) == codes
      invariant j == i ==> done == [] && world.View() == r0
      invariant Statuses(saga.steps) ==
                if j == i then Repeat(StepCompleted, i) + [StepFailed] + rest
                else Repeat(StepCompleted, j + 1) + done + tail
      invariant j < i ==> Backward(codes, i, r0) == Backward(codes, j + 1, world.View())
      invariant j < i ==> BackwardStatus(codes, i, r0) == BackwardStatus(codes, j + 1, world.View()) + done
      decreases j
    {
      var step := saga.steps[j];
      assert step.status == Statuses(saga.steps)[j] && step.code == codes[j];
      if j < i {
        UndoUpdates(j, done, tail, StepCompleted);
      }
      if j !in saga.executed || !saga.executed[j] {
        SkipUpdates(j, rest);
        saga.SetStatus(j, StepSkipped);
      } else if step.status != Compensated && step.status != CompensationFailed {
        ghost var before := world.View();
        var success := world.CallCompensate(step.code, j);
        var x := if success then Compensated else CompensationFailed;
        UndoUpdates(j, done, tail, x);
        ConcatAssociates(BackwardStatus(codes, j, world.View()), x, done);
        assert BackwardStatus(codes, j + 1, before) == BackwardStatus(codes, j, world.View()) + [x];
        saga.SetStatus(j, x);
        done := [x] + done;
      }
      j := j - 1;
    }
    assert Repeat(StepCompleted, 0) + done + tail == done + [StepSkipped] + rest;
  }

  lemma ConcatAssociates<T>(a: seq<T>, x: T, b: seq<T>)
    ensures a + [x] + b == a + ([x] + b)
  {
  }

  lemma SkipUpdates(j: nat, rest: seq<StepStatus>)
    ensures (Repeat(StepCompleted, j) + [StepFailed] + rest)[j := StepSkipped]
            == Repeat(StepCompleted, j) + [] + ([StepSkipped] + rest)
  {
  }

  lemma StatusUpdates(i: nat, n: nat)
    requires i < n
    ensures var s := Repeat(StepCompleted, i) + Repeat(StepPending, n - i);
      && s[i := StepRunning][i := StepCompleted] == Repeat(StepCompleted, i + 1) + Repeat(StepPending, n - i - 1)
      && s[i := StepRunning][i := StepFailed] == Repeat(StepCompleted, i) + [StepFailed] + Repeat(StepPending, n - i - 1)
  {
  }

  lemma UndoUpdates(j: nat, done: seq<StepStatus>, rest: seq<StepStatus>, x: StepStatus)
    ensures (Repeat(StepCompleted, j + 1) + done + rest)[j := x] == Repeat(StepCompleted, j) + ([x] + done) + rest
    ensures (Repeat(StepCompleted, j + 1) + done + rest)[j] == StepCompleted
  {
  }

  // ---------- What a saga promises ----------

  /** A step that fails has changed nothing. */
  ghost predicate FailsCleanly<W(!new)>(c: Code<W>) {
    forall t: nat, w: W :: !c.execute(t, w).1 ==> c.execute(t, w).0 == w
  }

  /** Compensating, at any later instant, succeeds and restores the world the step was executed in. */
  ghost predicate Undoes<W(!new)>(c: Code<W>) {
    forall t: nat, u: nat, w: W :: c.execute(t, w).1 ==> c.compensate(u, c.execute(t, w).0) == (w, true)
  }

  ghost predicate Sound<W(!new)>(codes: seq<Code<W>>) {
    forall i :: 0 <= i < |codes| ==> FailsCleanly(codes[i]) && Undoes(codes[i])
  }

  /** The worlds a run of steps passes through: each step took one world to the next, at some instant. */
  ghost predicate Chain<W(!new)>(codes: seq<Code<W>>, worlds: seq<W>) {
    |worlds| == |codes| + 1
    && forall i :: 0 <= i < |codes| ==> Leads(codes[i], worlds[i], worlds[i + 1])
  }

  ghost predicate Leads<W(!new)>(c: Code<W>, before: W, after: W) {
    exists t: nat :: c.execute(t, before) == (after, true)
  }

  /** Trying a step either executes it once or leaves the world as it was. */
  lemma {:induction false} AttemptsEffect<W(!new)>(c: Code<W>, i: nat, r: Run<W>, left: nat)
    requires FailsCleanly(c)
    ensures var (r', ok) := Attempts(c, i, r, left);
      if ok then Leads(c, r.world, r'.world) else r'.world == r.world
    decreases left
  {
    if left > 0 {
      var (r', ok) := Attempt(c, i, r);
      assert c.execute(r.clock, r.world) == (r'.world, ok);
      if !ok {
        AttemptsEffect(c, i, r', left - 1);
      }
    }
  }

  /** Undoing the steps of a chain leads back to where it began. */
  lemma {:induction false} BackwardRestores<W(!new)>(codes: seq<Code<W>>, n: nat, r: Run<W>, worlds: seq<W>)
    requires Sound(codes) && n <= |codes|
    requires Chain(codes[..n], worlds) && r.world == worlds[n]
    ensures Backward(codes, n, r).world == worlds[0]
  {
    if n > 0 {
      var c := codes[n - 1];
      assert codes[..n][n - 1] == c && FailsCleanly(c) && Undoes(c);
      assert Leads(c, worlds[n - 1], worlds[n]);
      var t: nat :| c.execute(t, worlds[n - 1]) == (worlds[n], true);
      assert c.compensate(r.clock, c.execute(t, worlds[n - 1]).0) == (worlds[n - 1], true);
      ShorterChain(codes, n, worlds);
      BackwardRestores(codes, n - 1, Undo(c, n - 1, r).0, worlds[..n]);
    }
  }

  /** The compensations along such a chain all succeed. */
  lemma {:induction false} BackwardSucceeds<W(!new)>(codes: seq<Code<W>>, n: nat, r: Run<W>, worlds: seq<W>)
    requires Sound(codes) && n <= |codes|
    requires Chain(codes[..n], worlds) && r.world == worlds[n]
    ensures forall j :: 0 <= j < n ==> BackwardStatus(codes, n, r)[j] == Compensated
  {
    if n > 0 {
      var c := codes[n - 1];
      assert codes[..n][n - 1] == c && FailsCleanly(c) && Undoes(c);
      assert Leads(c, worlds[n - 1], worlds[n]);
      var t: nat :| c.execute(t, worlds[n - 1]) == (worlds[n], true);
      assert c.compensate(r.clock, c.execute(t, worlds[n - 1]).0) == (worlds[n - 1], true);
      ShorterChain(codes, n, worlds);
      BackwardSucceeds(codes, n - 1, Undo(c, n - 1, r).0, worlds[..n]);
    }
  }

  lemma ShorterChain<W(!new)>(codes: seq<Code<W>>, n: nat, worlds: seq<W>)
    requires 0 < n <= |codes| && Chain(codes[..n], worlds)
    ensures Chain(codes[..n - 1], worlds[..n])
  {
    forall i | 0 <= i < n - 1
      ensures Leads(codes[..n - 1][i], worlds[..n][i], worlds[..n][i + 1])
    {
      assert Leads(codes[..n][i], worlds[i], worlds[i + 1]);
    }
  }

  /** The steps before the one that fails, or all of them, are executed in order, once each. */
  lemma {:induction false} ForwardChain<W(!new)>(codes: seq<Code<W>>, i: nat, r: Run<W>, worlds: seq<W>)
    returns (all: seq<W>)
    requires Sound(codes) && i <= |codes|
    requires Chain(codes[..i], worlds) && r.world == worlds[i]
    ensures var (r', f) := Forward(codes, i, r);
      Chain(codes[..f], all) && r'.world == all[f] && all[0] == worlds[0]
    decreases |codes| - i
  {
    all := worlds;
    if i < |codes| {
      var (r', ok) := Attempts(codes[i], i, r, MAX_RETRIES);
      AttemptsEffect(codes[i], i, r, MAX_RETRIES);
      if ok {
        var longer := worlds + [r'.world];
        forall k | 0 <= k < i + 1
          ensures Leads(codes[..i + 1][k], longer[k], longer[k + 1])
        {
          assert k < i ==> codes[..i][k] == codes[k] && Leads(codes[..i][k], worlds[k], worlds[k + 1]);
        }
        all := ForwardChain(codes, i + 1, r', longer);
      }
    }
  }

  /** All or nothing: if a failed step changes nothing and compensating undoes a step, then a saga either
      executes all its steps in order, or ends in the world it began in with every executed step compensated. */
  lemma AllOrNothing<W(!new)>(codes: seq<Code<W>>, r: Run<W>) returns (worlds: seq<W>)
    requires Sound(codes)
    ensures var (r', ok) := Whole(codes, r);
      if ok then Chain(codes, worlds) && worlds[0] == r.world && worlds[|codes|] == r'.world
      else r'.world == r.world
    ensures !Whole(codes, r).1 ==>
              forall j :: 0 <= j < Forward(codes, 0, r).1 ==> FinalStatuses(codes, r)[j] == Compensated
  {
    assert codes[..0] == [];
    worlds := ForwardChain(codes, 0, r, [r.world]);
    var (r', f) := Forward(codes, 0, r);
    if f == |codes| {
      assert codes[..f] == codes;
    } else {
      BackwardRestores(codes, f, r', worlds);
      BackwardSucceeds(codes, f, r', worlds);
    }
  }

  // ---------- The order of the calls ----------

  /** The steps executed successfully, in the order of the calls. */
  function Executed(trace: seq<Call>): seq<nat> {
    if trace == [] then []
    else (if trace[0].Execute? && trace[0].ok then [trace[0].step] else []) + Executed(trace[1..])
  }

  /** The steps compensated, in the order of the calls. */
  function CompensatedSteps(trace: seq<Call>): seq<nat> {
    if trace == [] then []
    else (if trace[0].Compensate? then [trace[0].step] else []) + CompensatedSteps(trace[1..])
  }

  /** How often step i was tried. */
  function Tries(trace: seq<Call>, i: nat): nat {
    if trace == [] then 0 else (if trace[0].Execute? && trace[0].step == i then 1 else 0) + Tries(trace[1..], i)
  }

  function UpTo(n: nat): (s: seq<nat>)
    ensures |s| == n && forall k :: 0 <= k < n ==> s[k] == k
  {
    if n == 0 then [] else UpTo(n - 1) + [n - 1]
  }

  function DownFrom(n: nat): (s: seq<nat>)
    ensures |s| == n && forall k :: 0 <= k < n ==> s[k] == n - 1 - k
  {
    if n == 0 then [] else [n - 1] + DownFrom(n - 1)
  }

  lemma {:induction false} ExecutedAppend(trace: seq<Call>, c: Call)
    ensures Executed(trace + [c]) == Executed(trace) + (if c.Execute? && c.ok then [c.step] else [])
  {
    if trace == [] {
      assert [c][1..] == [];
    } else {
      ExecutedAppend(trace[1..], c);
      assert (trace + [c])[1..] == trace[1..] + [c];
    }
  }

  lemma {:induction false} CompensatedAppend(trace: seq<Call>, c: Call)
    ensures CompensatedSteps(trace + [c]) == CompensatedSteps(trace) + (if c.Compensate? then [c.step] else [])
  {
    if trace == [] {
      assert [c][1..] == [];
    } else {
      CompensatedAppend(trace[1..], c);
      assert (trace + [c])[1..] == trace[1..] + [c];
    }
  }

  lemma {:induction false} TriesAppend(trace: seq<Call>, c: Call, i: nat)
    ensures Tries(trace + [c], i) == Tries(trace, i) + (if c.Execute? && c.step == i then 1 else 0)
  {
    if trace == [] {
      assert [c][1..] == [];
    } else {
      TriesAppend(trace[1..], c, i);
      assert (trace + [c])[1..] == trace[1..] + [c];
    }
  }

  lemma CallsAppend(trace: seq<Call>, c: Call, i: nat)
    ensures Executed(trace + [c]) == Executed(trace) + (if c.Execute? && c.ok then [c.step] else [])
    ensures CompensatedSteps(trace + [c]) == CompensatedSteps(trace) + (if c.Compensate? then [c.step] else [])
    ensures Tries(trace + [c], i) == Tries(trace, i) + (if c.Execute? && c.step == i then 1 else 0)
  {
    ExecutedAppend(trace, c);
    CompensatedAppend(trace, c);
    TriesAppend(trace, c, i);
  }

  lemma {:induction false} AttemptsCalls<W>(c: Code<W>, i: nat, r: Run<W>, left: nat, k: nat)
    ensures var (r', ok) := Attempts(c, i, r, left);
      && Executed(r'.trace) == Executed(r.trace) + (if ok then [i] else [])
      && CompensatedSteps(r'.trace) == CompensatedSteps(r.trace)
      && Tries(r.trace, k) <= Tries(r'.trace, k) <= Tries(r.trace, k) + (if k == i then left else 0)
      && (!ok && k == i ==> Tries(r'.trace, k) == Tries(r.trace, k) + left)
    decreases left
  {
    if left > 0 {
      var (r', ok) := Attempt(c, i, r);
      CallsAppend(r.trace, Execute(i, ok), k);
      if !ok {
        AttemptsCalls(c, i, r', left - 1, k);
      }
    }
  }

  lemma {:induction false} ForwardCalls<W>(codes: seq<Code<W>>, i: nat, r: Run<W>, k: nat)
    requires i <= |codes| && Executed(r.trace) == UpTo(i)
    requires Tries(r.trace, k) <= if k < i then MAX_RETRIES else 0
    ensures var (r', f) := Forward(codes, i, r);
      && Executed(r'.trace) == UpTo(f)
      && CompensatedSteps(r'.trace) == CompensatedSteps(r.trace)
      && Tries(r'.trace, k) <= (if k <= f then MAX_RETRIES else 0)
      && (f < |codes| && k == f ==> Tries(r'.trace, k) == MAX_RETRIES)
    decreases |codes| - i
  {
    if i < |codes| {
      var (r', ok) := Attempts(codes[i], i, r, MAX_RETRIES);
      AttemptsCalls(codes[i], i, r, MAX_RETRIES, k);
      if ok {
        ForwardCalls(codes, i + 1, r', k);
      }
    }
  }

  lemma {:induction false} BackwardCalls<W>(codes: seq<Code<W>>, n: nat, r: Run<W>, k: nat)
    requires n <= |codes|
    ensures var r' := Backward(codes, n, r);
      && Executed(r'.trace) == Executed(r.trace)
      && CompensatedSteps(r'.trace) == CompensatedSteps(r.trace) + DownFrom(n)
      && Tries(r'.trace, k) == Tries(r.trace, k)
  {
    if n > 0 {
      var (r', ok) := Undo(codes[n - 1], n - 1, r);
      CallsAppend(r.trace, Compensate(n - 1, ok), k);
      BackwardCalls(codes, n - 1, r', k);
      ConcatAssociates(CompensatedSteps(r.trace), n - 1, DownFrom(n - 1));
    }
  }

  /** Whatever the steps do: each step before the failing one is executed once, in order; on failure exactly
      those are compensated, once each and in strictly reverse order; no step is tried more than MAX_RETRIES
      times, the failing one exactly that often, and later ones never. */
  lemma OrderOfCalls<W>(codes: seq<Code<W>>, w: W, t: nat, k: nat)
    ensures var (r', ok) := Whole(codes, Run(w, t, []));
      var f := Forward(codes, 0, Run(w, t, [])).1;
      && (ok <==> f == |codes|)
      && Executed(r'.trace) == UpTo(f)
      && CompensatedSteps(r'.trace) == (if ok then [] else DownFrom(f))
      && Tries(r'.trace, k) <= (if k <= f then 3 else 0)
      && (!ok && k == f ==> Tries(r'.trace, k) == 3)
  {
    ForwardCalls(codes, 0, Run(w, t, []), k);
    var (r', f) := Forward(codes, 0, Run(w, t, []));
    if f < |codes| {
      BackwardCalls(codes, f, r', k);
    }
  }

  // ---------- The statuses that are left ----------

  lemma {:induction false} CompensatedOrNot<W>(codes: seq<Code<W>>, n: nat, r: Run<W>)
    requires n <= |codes|
    ensures forall x :: x in BackwardStatus(codes, n, r) ==> x == Compensated || x == CompensationFailed
  {
    if n > 0 {
      CompensatedOrNot(codes, n - 1, Undo(codes[n - 1], n - 1, r).0);
    }
  }

  lemma {:induction false} CompensatedMembers(trace: seq<Call>, j: nat)
    ensures j in CompensatedSteps(trace) <==> Compensate(j, true) in trace || Compensate(j, false) in trace
  {
    if trace != [] {
      CompensatedMembers(trace[1..], j);
      assert trace == [trace[0]] + trace[1..];
    }
  }

  /** Compensating steps n-1 down to 0 adds one call for each of them and nothing for others. */
  lemma {:induction false} BackwardAdds<W>(codes: seq<Code<W>>, n: nat, r: Run<W>, j: nat, ok: bool)
    requires n <= |codes| && j >= n
    ensures Compensate(j, ok) in Backward(codes, n, r).trace <==> Compensate(j, ok) in r.trace
  {
    if n > 0 {
      BackwardAdds(codes, n - 1, Undo(codes[n - 1], n - 1, r).0, j, ok);
    }
  }

  lemma {:induction false} BackwardStatusCalls<W>(codes: seq<Code<W>>, n: nat, r: Run<W>, j: nat, ok: bool)
    requires j < n <= |codes| && Compensate(j, true) !in r.trace && Compensate(j, false) !in r.trace
    ensures Compensate(j, ok) in Backward(codes, n, r).trace
            <==> BackwardStatus(codes, n, r)[j] == if ok then Compensated else CompensationFailed
  {
    var (r', done) := Undo(codes[n - 1], n - 1, r);
    if j == n - 1 {
      BackwardAdds(codes, n - 1, r', j, ok);
    } else {
      BackwardStatusCalls(codes, n - 1, r', j, ok);
    }
  }

  /** The statuses that a saga leaves, by the calls that were made: all steps completed, or each executed step
      compensated or not as its compensation answered, the failing one skipped and the later ones pending. */
  lemma StatusMeaning<W>(codes: seq<Code<W>>, w: W, t: nat, j: nat)
    requires j < |codes|
    ensures var r := Run(w, t, []);
      var (r', ok), f, status := Whole(codes, r), Forward(codes, 0, r).1, FinalStatuses(codes, r)[j];
      if ok then status == StepCompleted
      else if j < f then
        && (status == Compensated <==> Compensate(j, true) in r'.trace)
        && (status == CompensationFailed <==> Compensate(j, false) in r'.trace)
      else status == if j == f then StepSkipped else StepPending
  {
    var r := Run(w, t, []);
    var (r', f) := Forward(codes, 0, r);
    ForwardCalls(codes, 0, r, j);
    CompensatedMembers(r'.trace, j);
    if j < f < |codes| {
      BackwardStatusCalls(codes, f, r', j, true);
      BackwardStatusCalls(codes, f, r', j, false);
    }
  }

  /** After an aborted saga the step that failed reads as skipped, and no step reads as failed: compensation begins at
      the failed step itself and overwrites its status. */
  lemma FailedEndsSkipped<W>(codes: seq<Code<W>>, r: Run<W>)
    requires !Whole(codes, r).1
    ensures FinalStatuses(codes, r)[Forward(codes, 0, r).1] == StepSkipped
    ensures StepFailed !in FinalStatuses(codes, r)
  {
    var (r', f) := Forward(codes, 0, r);
    CompensatedOrNot(codes, f, r');
    var before, after := BackwardStatus(codes, f, r'), Repeat(StepPending, |codes| - f - 1);
    assert FinalStatuses(codes, r) == before + [StepSkipped] + after;
    forall x | x in FinalStatuses(codes, r)
      ensures x != StepFailed
    {
      assert x in before || x == StepSkipped || x in after;
    }
  }

  function Failing(): Code<int> {
    Code((t: nat, w: int) => (w, false), (t: nat, w: int) => (w, true))
  }

  lemma FailingAttempts(r: Run<int>, left: nat)
    ensures !Attempts(Failing(), 0, r, left).1
    decreases left
  {
    if left > 0 {
      FailingAttempts(Attempt(Failing(), 0, r).0, left - 1);
    }
  }

  /** A saga of one step that always fails. */
  lemma SkippedExample(r: Run<int>)
    ensures !Whole([Failing()], r).1 && FinalStatuses([Failing()], r) == [StepSkipped]
  {
    FailingAttempts(r, MAX_RETRIES);
    ForwardStep([Failing()], 0, r);
    FailedEndsSkipped([Failing()], r);
  }
}
