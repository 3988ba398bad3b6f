/**
 The saga coordinator (rszero/src/saga/mod.rs). Actions and compensations act on a world;
 what a call does may depend on the world and on how many calls were made before it, so
 that a compensation can fail at first and succeed when it is tried again.
 */
module Saga {
  import opened Wrappers

  /** An error, by its variant where the coordinator looks at it and by its displayed text. */
  datatype Error = Internal(message: string) | Other(text: string) {
    function Display(): string {
      match this
      case Internal(message) => "internal error: " + message
      case Other(text) => text
    }
  }

  datatype Result<+T> = Ok(value: T) | Err(error: Error) {
    function Failure(): Option<Error> {
      match this
      case Ok(_) => None
      case Err(e) => Some(e)
    }
  }

  datatype Step<!W, !T> = Step(
    name: string,
    action: (W, nat) -> (W, Result<T>),
    compensation: (W, nat) -> (W, Result<()>))

  /** A call of the action or of the compensation of a step. */
  datatype Call = Act(step: nat) | Undo(step: nat)

  /** The world and the calls made so far. */
  datatype Exec<W> = Exec(world: W, calls: seq<Call>)

  datatype SagaResult<T> = SagaResult(
    completed: seq<string>,
    outputs: seq<T>,
    failed: Option<string>,
    error: Option<Error>,
    compensationErrors: seq<(string, Error)>)

  // ------------------------------------------------------------- specification

  function Names<W, T>(steps: seq<Step<W, T>>): (names: seq<string>)
    ensures |names| == |steps| && forall i :: 0 <= i < |steps| ==> names[i] == steps[i].name
  {
    seq(|steps|, i requires 0 <= i < |steps| => steps[i].name)
  }

  /** The attempts at one compensation from number `retry` on, and the error if the third one fails too. */
  function Attempts<W, T>(step: Step<W, T>, i: nat, st: Exec<W>, retry: nat): (r: (Exec<W>, Option<Error>))
    requires retry < 3
    decreases 3 - retry, i
  {
    var (world, result) := step.compensation(st.world, |st.calls|);
    var next := Exec(world, st.calls + [Undo(i)]);
    match result
    case Ok(_) => (next, None)
    case Err(e) => if retry == 2 then (next, Some(e)) else Attempts(step, i, next, retry + 1)
  }

  /** The compensations of the first `k` steps, last step first. */
  function Compensate<W, T>(steps: seq<Step<W, T>>, k: nat, st: Exec<W>, errors: seq<(string, Error)>)
    : (r: (Exec<W>, seq<(string, Error)>))
    requires k <= |steps|
  {
    if k == 0 then (st, errors)
    else
      var (next, e) := Attempts(steps[k - 1], k - 1, st, 0);
      Compensate(steps, k - 1, next, if e.Some? then errors + [(steps[k - 1].name, e.value)] else errors)
  }

  /** The saga from step `k` on, the steps before it having succeeded with `outputs`. */
  function RunFrom<W, T>(steps: seq<Step<W, T>>, k: nat, st: Exec<W>, outputs: seq<T>)
    : (r: (Exec<W>, SagaResult<T>))
    requires k <= |steps|
    decreases |steps| - k
  {
    if k == |steps| then (st, SagaResult(Names(steps), outputs, None, None, []))
    else
      var (world, result) := steps[k].action(st.world, |st.calls|);
      var next := Exec(world, st.calls + [Act(k)]);
      match result
      case Ok(output) => RunFrom(steps, k + 1, next, outputs + [output])
      case Err(e) =>
        var (last, errors) := Compensate(steps, k, next, []);
        (last, SagaResult(Names(steps)[..k], outputs, Some(steps[k].name), Some(e), errors))
  }

  // -------------------------------------------------------------------- method

  /** The retry loop of one compensation. */
  method TryCompensate<W, T>(step: Step<W, T>, i: nat, st: Exec<W>) returns (next: Exec<W>, error: Option<Error>)
    ensures (next, error) == Attempts(step, i, st, 0)
  {
    next, error := st, None;
    var retry, done := 0, false;
    while retry < 3 && !done
      invariant retry <= 3
      invariant if done || retry == 3 then (next, error) == Attempts(step, i, st, 0)
                else error.None? && Attempts(step, i, next, retry) == Attempts(step, i, st, 0)
    {
      var (world, result) := step.compensation(next.world, |next.calls|);
      next := Exec(world, next.calls + [Undo(i)]);
      match result {
        case Ok(_) => done := true;
        case Err(e) =>
          if retry == 2 {
            error := Some(e);
          }
      }
      retry := retry + 1;
    }
  }

  /** The loop over the completed steps after a failure, last first. */
  method CompensateAll<W, T>(steps: seq<Step<W, T>>, k: nat, st: Exec<W>)
    returns (next: Exec<W>, errors: seq<(string, Error)>)
    requires k <= |steps|
    ensures (next, errors) == Compensate(steps, k, st, [])
  {
    next, errors := st, [];
    var i := k;
    while i > 0
      invariant 0 <= i <= k && Compensate(steps, i, next, errors) == Compensate(steps, k, st, [])
    {
      i := i - 1;
      var error;
      next, error := TryCompensate(steps[i], i, next);
      if error.Some? {
        errors := errors + [(steps[i].name, error.value)];
      }
    }
  }

  /** `Saga::execute`. */
  method Execute<W, T>(steps: seq<Step<W, T>>, world: W) returns (st: Exec<W>, result: SagaResult<T>)
    ensures (st, result) == RunFrom(steps, 0, Exec(world, []), [])
  {
    st := Exec(world, []);
    var completed, outputs := [], [];
    var k := 0;
    while k < |steps|
      invariant k <= |steps| && completed == Names(steps)[..k]
      invariant RunFrom(steps, k, st, outputs) == RunFrom(steps, 0, Exec(world, []), [])
    {
      var (w, r) := steps[k].action(st.world, |st.calls|);
      st := Exec(w, st.calls + [Act(k)]);
      match r {
        case Ok(output) =>
          completed := completed + [steps[k].name];
          outputs := outputs + [output];
        case Err(e) =>
          var errors;
          st, errors := CompensateAll(steps, k, st);
          result := SagaResult(completed, outputs, Some(steps[k].name), Some(e), errors);
          return;
      }
      k := k + 1;
    }
    assert completed == Names(steps);
    result := SagaResult(completed, outputs, None, None, []);
  }

  // ------------------------------------------------------------ order of calls

  function Acts(n: nat): (calls: seq<Call>)
    ensures |calls| == n && forall i :: 0 <= i < n ==> calls[i] == Act(i)
  {
    seq(n, i requires 0 <= i < n => Act(i))
  }

  /** One to three calls in a row of the compensation of each of the first `k` steps, in strictly falling order. */
  ghost predicate UndoneInReverse(calls: seq<Call>, k: nat) {
    if k == 0 then calls == []
    else
      exists n :: 1 <= n <= 3 && n <= |calls| && (forall j :: 0 <= j < n ==> calls[j] == Undo(k - 1))
                  && UndoneInReverse(calls[n..], k - 1)
  }

  /** The attempts at one compensation extend the calls by one to three calls of it. */
  lemma {:induction false} AttemptsCalls<W, T>(step: Step<W, T>, i: nat, st: Exec<W>, retry: nat)
    requires retry < 3
    ensures var calls := Attempts(step, i, st, retry).0.calls;
            && |st.calls| < |calls| <= |st.calls| + 3 - retry && calls[..|st.calls|] == st.calls
            && forall j :: |st.calls| <= j < |calls| ==> calls[j] == Undo(i)
    decreases 3 - retry
  {
    var (world, result) := step.compensation(st.world, |st.calls|);
    if result.Err? && retry < 2 {
      AttemptsCalls(step, i, Exec(world, st.calls + [Undo(i)]), retry + 1);
    }
  }

  lemma {:induction false} CompensateCalls<W, T>(
    steps: seq<Step<W, T>>, k: nat, st: Exec<W>, errors: seq<(string, Error)>)
    requires k <= |steps|
    ensures var calls := Compensate(steps, k, st, errors).0.calls;
            && |st.calls| <= |calls| && calls[..|st.calls|] == st.calls
            && UndoneInReverse(calls[|st.calls|..], k)
    decreases k
  {
    if k > 0 {
      var (next, e) := Attempts(steps[k - 1], k - 1, st, 0);
      AttemptsCalls(steps[k - 1], k - 1, st, 0);
      CompensateCalls(steps, k - 1, next, if e.Some? then errors + [(steps[k - 1].name, e.value)] else errors);
      UndoneFirst(Compensate(steps, k, st, errors).0.calls, st.calls, next.calls, k);
    }
  }

  /** Calls after `base` that start with the compensations of step `k - 1` up to `mid`. */
  lemma UndoneFirst(calls: seq<Call>, base: seq<Call>, mid: seq<Call>, k: nat)
    requires k > 0 && |base| < |mid| <= |base| + 3 && mid[..|base|] == base
    requires forall j :: |base| <= j < |mid| ==> mid[j] == Undo(k - 1)
    requires |mid| <= |calls| && calls[..|mid|] == mid && UndoneInReverse(calls[|mid|..], k - 1)
    ensures calls[..|base|] == base && UndoneInReverse(calls[|base|..], k)
  {
    var n, rest := |mid| - |base|, calls[|base|..];
    assert rest[n..] == calls[|mid|..];
    assert forall j :: 0 <= j < n ==> rest[j] == calls[..|mid|][|base| + j];
  }

  /** The worlds between successful actions, and what those actions returned. */
  ghost predicate Succeeded<W, T>(steps: seq<Step<W, T>>, worlds: seq<W>, outputs: seq<T>) {
    && |worlds| == |outputs| + 1 && |outputs| <= |steps|
    && forall i :: 0 <= i < |outputs| ==> steps[i].action(worlds[i], i) == (worlds[i + 1], Ok(outputs[i]))
  }

  lemma SucceededMore<W, T>(steps: seq<Step<W, T>>, worlds: seq<W>, outputs: seq<T>, world: W, output: T)
    requires Succeeded(steps, worlds, outputs) && |outputs| < |steps|
    requires steps[|outputs|].action(worlds[|outputs|], |outputs|) == (world, Ok(output))
    ensures Succeeded(steps, worlds + [world], outputs + [output])
  {
  }

  /** A saga that ran to its end. */
  ghost predicate RanToEnd<W, T>(steps: seq<Step<W, T>>, worlds: seq<W>, st: Exec<W>, r: SagaResult<T>) {
    && Succeeded(steps, worlds, r.outputs) && |r.outputs| == |steps|
    && st == Exec(worlds[|steps|], Acts(|steps|))
    && r.completed == Names(steps) && r.failed.None? && r.error.None? && r.compensationErrors == []
  }

  /** A saga whose step `|r.outputs|` failed. */
  ghost predicate Aborted<W, T>(steps: seq<Step<W, T>>, worlds: seq<W>, st: Exec<W>, r: SagaResult<T>) {
    var f := |r.outputs|;
    && Succeeded(steps, worlds, r.outputs) && f < |steps|
    && steps[f].action(worlds[f], f).1.Err?
    && r.completed == Names(steps)[..f] && r.failed == Some(steps[f].name)
    && r.error == Some(steps[f].action(worlds[f], f).1.error)
    && |st.calls| > f && st.calls[..f + 1] == Acts(f + 1) && UndoneInReverse(st.calls[f + 1..], f)
    && (st, r.compensationErrors) == Compensate(steps, f, Exec(steps[f].action(worlds[f], f).0, Acts(f + 1)), [])
  }

  /** The run from a step that fails. */
  lemma FailShape<W, T>(steps: seq<Step<W, T>>, worlds: seq<W>, outputs: seq<T>)
    requires Succeeded(steps, worlds, outputs) && |outputs| < |steps|
    requires steps[|outputs|].action(worlds[|outputs|], |outputs|).1.Err?
    ensures var k := |outputs|;
            var (st, r) := RunFrom(steps, k, Exec(worlds[k], Acts(k)), outputs);
            Aborted(steps, worlds, st, r)
  {
    var k := |outputs|;
    assert Acts(k) + [Act(k)] == Acts(k + 1);
    CompensateCalls(steps, k, Exec(steps[k].action(worlds[k], k).0, Acts(k + 1)), []);
  }

  lemma {:induction false} RunShape<W, T>(steps: seq<Step<W, T>>, worlds: seq<W>, outputs: seq<T>)
    returns (all: seq<W>)
    requires Succeeded(steps, worlds, outputs)
    ensures var k := |outputs|;
            var (st, r) := RunFrom(steps, k, Exec(worlds[k], Acts(k)), outputs);
            |all| > 0 && all[0] == worlds[0] && (RanToEnd(steps, all, st, r) || Aborted(steps, all, st, r))
    decreases |steps| - |outputs|
  {
    var k := |outputs|;
    all := worlds;
    if k < |steps| {
      var (world, result) := steps[k].action(worlds[k], k);
      assert Acts(k) + [Act(k)] == Acts(k + 1);
      match result
      case Ok(output) =>
        SucceededMore(steps, worlds, outputs, world, output);
        all := RunShape(steps, worlds + [world], outputs + [output]);
      case Err(e) => FailShape(steps, worlds, outputs);
    }
  }

  /**
   Every run of a saga either completes all steps, calling each action once in order, or fails at
   some step `f`: then the actions up to and including `f` were called once in order, and after
   them exactly the compensations of the steps before `f`, last step first, each one to three
   times. The result names the completed steps, their outputs, the failed step and its error.
   */
  lemma ExecuteShape<W, T>(steps: seq<Step<W, T>>, world: W)
    ensures var (st, r) := RunFrom(steps, 0, Exec(world, []), []);
            exists worlds: seq<W> :: |worlds| > 0 && worlds[0] == world
              && (RanToEnd(steps, worlds, st, r) || Aborted(steps, worlds, st, r))
  {
    assert Acts(0) == [];
    var worlds := RunShape(steps, [world], []);
  }

  // ----------------------------------------------------------------- atomicity

  /** A failed action changes nothing. */
  ghost predicate FailsClean<W(!new), T>(step: Step<W, T>) {
    forall w: W, n: nat :: step.action(w, n).1.Err? ==> step.action(w, n).0 == w
  }

  /** An attempt at the compensation, in the world its action left, restores the world or changes nothing. */
  ghost predicate Inverts<W(!new), T>(step: Step<W, T>) {
    forall w: W, n: nat, m: nat :: step.action(w, n).1.Ok? ==>
      var (after, r) := step.compensation(step.action(w, n).0, m);
      after == if r.Ok? then w else step.action(w, n).0
  }

  /** One of the calls of the compensation numbered from `m` succeeds, if the world stays as it is. */
  predicate SucceedsWithin<W, T>(step: Step<W, T>, world: W, m: nat, attempts: nat)
    decreases attempts
  {
    attempts > 0 && (step.compensation(world, m).1.Ok? || SucceedsWithin(step, world, m + 1, attempts - 1))
  }

  /** Of three attempts in a row, from the world its action left, one succeeds. */
  ghost predicate Recovers<W(!new), T>(step: Step<W, T>) {
    forall w: W, n: nat, m: nat :: step.action(w, n).1.Ok? ==> SucceedsWithin(step, step.action(w, n).0, m, 3)
  }

  ghost predicate Reliable<W(!new), T>(steps: seq<Step<W, T>>) {
    forall i :: 0 <= i < |steps| ==> FailsClean(steps[i]) && Inverts(steps[i]) && Recovers(steps[i])
  }

  lemma {:induction false} AttemptsRestore<W(!new), T>(
    step: Step<W, T>, i: nat, w: W, n: nat, calls: seq<Call>, retry: nat)
    requires Inverts(step) && step.action(w, n).1.Ok? && retry < 3
    requires SucceedsWithin(step, step.action(w, n).0, |calls|, 3 - retry)
    ensures var (next, e) := Attempts(step, i, Exec(step.action(w, n).0, calls), retry);
            next.world == w && e.None?
    decreases 3 - retry
  {
    var w' := step.action(w, n).0;
    if step.compensation(w', |calls|).1.Err? {
      AttemptsRestore(step, i, w, n, calls + [Undo(i)], retry + 1);
    }
  }

  lemma {:induction false} CompensateRestores<W(!new), T>(
    steps: seq<Step<W, T>>, worlds: seq<W>, outputs: seq<T>, k: nat, calls: seq<Call>,
    errors: seq<(string, Error)>)
    requires Reliable(steps) && Succeeded(steps, worlds, outputs) && k <= |outputs|
    ensures var (last, errs) := Compensate(steps, k, Exec(worlds[k], calls), errors);
            last.world == worlds[0] && errs == errors
    decreases k
  {
    if k > 0 {
      var step, i := steps[k - 1], k - 1;
      assert step.action(worlds[i], i) == (worlds[k], Ok(outputs[i]));
      assert SucceedsWithin(step, worlds[k], |calls|, 3);
      AttemptsRestore(step, i, worlds[i], i, calls, 0);
      var (next, _) := Attempts(step, i, Exec(worlds[k], calls), 0);
      assert next == Exec(worlds[i], next.calls);
      CompensateRestores(steps, worlds, outputs, i, next.calls, errors);
    }
  }

  /**
   All or nothing: a saga that fails, at whatever step, leaves the world as it found it and reports
   no compensation error.
   */
  lemma Atomicity<W(!new), T>(steps: seq<Step<W, T>>, world: W)
    requires Reliable(steps)
    ensures var (st, r) := RunFrom(steps, 0, Exec(world, []), []);
            r.failed.Some? ==> st.world == world && r.compensationErrors == []
  {
    var (st, r) := RunFrom(steps, 0, Exec(world, []), []);
    if r.failed.Some? {
      ExecuteShape(steps, world);
      var worlds: seq<W> :| |worlds| > 0 && worlds[0] == world && Aborted(steps, worlds, st, r);
      var f := |r.outputs|;
      assert steps[f].action(worlds[f], f).0 == worlds[f];
      CompensateRestores(steps, worlds, r.outputs, f, Acts(f + 1), []);
    }
  }
}
