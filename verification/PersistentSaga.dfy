/**
 The persistent saga (rszero/src/saga/persistence.rs): the same loops, with a journal record
 attempted around every call. A record that cannot be stored is logged and otherwise ignored,
 so a persister is here a function that says, for each attempt, whether it works.
 */
module PersistentSaga {
  import opened Wrappers
  import opened Saga

  datatype SagaState = Running | Compensating | Completed | Failed | Compensated

  datatype Record = Record(step: string, state: SagaState, error: string)

  /** What happens, in order: a journal record is attempted, or an action or compensation is called, and may fail. */
  datatype Event = Journal(record: Record, stored: bool) | Ran(call: Call, failure: Option<Error>)

  type Persister = seq<Event> -> bool

  /** The saga's progress and the events so far. */
  datatype Logged<W> = Logged(exec: Exec<W>, log: seq<Event>)

  // ------------------------------------------------------------- specification

  function Note<W>(works: Persister, st: Logged<W>, step: string, state: SagaState, error: string): Logged<W> {
    st.(log := st.log + [Journal(Record(step, state, error), works(st.log))])
  }

  function LoggedAttempts<W, T>(works: Persister, step: Step<W, T>, i: nat, st: Logged<W>, retry: nat)
    : (r: (Logged<W>, Option<Error>))
    requires retry < 3
    decreases 3 - retry, i
  {
    var (world, result) := step.compensation(st.exec.world, |st.exec.calls|);
    var next := Logged(Exec(world, st.exec.calls + [Undo(i)]), st.log + [Ran(Undo(i), result.Failure())]);
    match result
    case Ok(_) => (Note(works, next, step.name, Compensated, ""), None)
    case Err(e) =>
      if retry == 2 then (Note(works, next, step.name, Compensating, e.Display()), Some(Internal(e.Display())))
      else LoggedAttempts(works, step, i, next, retry + 1)
  }

  function LoggedCompensate<W, T>(
    works: Persister, steps: seq<Step<W, T>>, k: nat, st: Logged<W>, errors: seq<(string, Error)>)
    : (r: (Logged<W>, seq<(string, Error)>))
    requires k <= |steps|
  {
    if k == 0 then (st, errors)
    else
      var (next, e) := LoggedAttempts(works, steps[k - 1], k - 1, st, 0);
      LoggedCompensate(works, steps, k - 1, next,
                       if e.Some? then errors + [(steps[k - 1].name, e.value)] else errors)
  }

  /** The records between a failed action and the first compensation. */
  function NoteFailure<W>(works: Persister, st: Logged<W>, step: string, e: Error): Logged<W> {
    Note(works, Note(works, st, step, Failed, e.Display()), "__compensate__", Compensating, "")
  }

  function LoggedRunFrom<W, T>(works: Persister, steps: seq<Step<W, T>>, k: nat, st: Logged<W>, outputs: seq<T>)
    : (r: (Logged<W>, SagaResult<T>))
    requires k <= |steps|
    decreases |steps| - k
  {
    if k == |steps| then
      (Note(works, st, "__end__", Completed, ""), SagaResult(Names(steps), outputs, None, None, []))
    else
      var name := steps[k].name;
      var begun := Note(works, st, name, Running, "");
      var (world, result) := steps[k].action(begun.exec.world, |begun.exec.calls|);
      var next := Logged(Exec(world, begun.exec.calls + [Act(k)]), begun.log + [Ran(Act(k), result.Failure())]);
      match result
      case Ok(output) => LoggedRunFrom(works, steps, k + 1, Note(works, next, name, Completed, ""), outputs + [output])
      case Err(e) =>
        var (undone, errors) := LoggedCompensate(works, steps, k, NoteFailure(works, next, name, e), []);
        (Note(works, undone, "__end__", Failed, e.Display()),
         SagaResult(Names(steps)[..k], outputs, Some(name), Some(e), errors))
  }

  function Begin<W>(works: Persister, world: W): Logged<W> {
    Note(works, Logged(Exec(world, []), []), "__start__", Running, "")
  }

  // -------------------------------------------------------------------- method

  method TryCompensateLogged<W, T>(works: Persister, step: Step<W, T>, i: nat, st: Logged<W>)
    returns (next: Logged<W>, error: Option<Error>)
    ensures (next, error) == LoggedAttempts(works, step, i, st, 0)
  {
    next, error := st, None;
    var retry, done := 0, false;
    while retry < 3 && !done
      invariant retry <= 3
      invariant if done || retry == 3 then (next, error) == LoggedAttempts(works, step, i, st, 0)
                else error.None? && LoggedAttempts(works, step, i, next, retry) == LoggedAttempts(works, step, i, st, 0)
    {
      var (world, result) := step.compensation(next.exec.world, |next.exec.calls|);
      next := Logged(Exec(world, next.exec.calls + [Undo(i)]), next.log + [Ran(Undo(i), result.Failure())]);
      match result {
        case Ok(_) =>
          next := Note(works, next, step.name, Compensated, "");
          done := true;
        case Err(e) =>
          if retry == 2 {
            error := Some(Internal(e.Display()));
            next := Note(works, next, step.name, Compensating, e.Display());
          }
      }
      retry := retry + 1;
    }
  }

  /** The loop over the completed steps after a failure, last first. */
  method CompensateLogged<W, T>(works: Persister, steps: seq<Step<W, T>>, k: nat, st: Logged<W>)
    returns (next: Logged<W>, errors: seq<(string, Error)>)
    requires k <= |steps|
    ensures (next, errors) == LoggedCompensate(works, steps, k, st, [])
  {
    next, errors := st, [];
    var i := k;
    while i > 0
      invariant 0 <= i <= k
      invariant LoggedCompensate(works, steps, i, next, errors) == LoggedCompensate(works, steps, k, st, [])
    {
      i := i - 1;
      var error;
      next, error := TryCompensateLogged(works, steps[i], i, next);
      if error.Some? {
        errors := errors + [(steps[i].name, error.value)];
      }
    }
  }

  /** `PersistentSaga::execute`. */
  method ExecuteLogged<W, T>(works: Persister, steps: seq<Step<W, T>>, world: W)
    returns (st: Logged<W>, result: SagaResult<T>)
    ensures (st, result) == LoggedRunFrom(works, steps, 0, Begin(works, world), [])
  {
    st := Begin(works, world);
    var completed, outputs := [], [];
    var k := 0;
    while k < |steps|
      invariant k <= |steps| && completed == Names(steps)[..k]
      invariant LoggedRunFrom(works, steps, k, st, outputs) == LoggedRunFrom(works, steps, 0, Begin(works, world), [])
    {
      var name := steps[k].name;
      st := Note(works, st, name, Running, "");
      var (w, r) := steps[k].action(st.exec.world, |st.exec.calls|);
      st := Logged(Exec(w, st.exec.calls + [Act(k)]), st.log + [Ran(Act(k), r.Failure())]);
      match r {
        case Ok(output) =>
          st := Note(works, st, name, Completed, "");
          completed := completed + [name];
          outputs := outputs + [output];
        case Err(e) =>
          st := NoteFailure(works, st, name, e);
          var errors;
          st, errors := CompensateLogged(works, steps, k, st);
          st := Note(works, st, "__end__", Failed, e.Display());
          result := SagaResult(completed, outputs, Some(name), Some(e), errors);
          return;
      }
      k := k + 1;
    }
    st := Note(works, st, "__end__", Completed, "");
    assert completed == Names(steps);
    result := SagaResult(completed, outputs, None, None, []);
  }

  // ---------------------------------------------------------------- refinement

  /** Compensation errors are wrapped again by the persistent saga; nothing else differs. */
  function Rewrap(errors: seq<(string, Error)>): (r: seq<(string, Error)>)
    ensures |r| == |errors|
    ensures forall i :: 0 <= i < |r| ==> r[i] == (errors[i].0, Internal(errors[i].1.Display()))
  {
    seq(|errors|, i requires 0 <= i < |errors| => (errors[i].0, Internal(errors[i].1.Display())))
  }

  lemma {:induction false} AttemptsRefine<W, T>(works: Persister, step: Step<W, T>, i: nat, st: Logged<W>, retry: nat)
    requires retry < 3
    ensures var (next, e) := LoggedAttempts(works, step, i, st, retry);
            var (plain, pe) := Attempts(step, i, st.exec, retry);
            next.exec == plain && e == if pe.Some? then Some(Internal(pe.value.Display())) else None
    decreases 3 - retry
  {
    var (world, result) := step.compensation(st.exec.world, |st.exec.calls|);
    if result.Err? && retry < 2 {
      var next := Logged(Exec(world, st.exec.calls + [Undo(i)]), st.log + [Ran(Undo(i), result.Failure())]);
      AttemptsRefine(works, step, i, next, retry + 1);
    }
  }

  lemma RewrapMore(errors: seq<(string, Error)>, name: string, e: Error)
    ensures Rewrap(errors + [(name, e)]) == Rewrap(errors) + [(name, Internal(e.Display()))]
  {
  }

  lemma {:induction false} CompensateRefines<W, T>(
    works: Persister, steps: seq<Step<W, T>>, k: nat, st: Logged<W>, errors: seq<(string, Error)>)
    requires k <= |steps|
    ensures var (last, errs) := LoggedCompensate(works, steps, k, st, Rewrap(errors));
            var (plain, plainErrs) := Compensate(steps, k, st.exec, errors);
            last.exec == plain && errs == Rewrap(plainErrs)
    decreases k
  {
    if k > 0 {
      var (next, _) := LoggedAttempts(works, steps[k - 1], k - 1, st, 0);
      AttemptsRefine(works, steps[k - 1], k - 1, st, 0);
      var (_, e) := Attempts(steps[k - 1], k - 1, st.exec, 0);
      if e.Some? {
        RewrapMore(errors, steps[k - 1].name, e.value);
        CompensateRefines(works, steps, k - 1, next, errors + [(steps[k - 1].name, e.value)]);
      } else {
        CompensateRefines(works, steps, k - 1, next, errors);
      }
    }
  }

  lemma {:induction false} RunRefines<W, T>(
    works: Persister, steps: seq<Step<W, T>>, k: nat, st: Logged<W>, outputs: seq<T>)
    requires k <= |steps|
    ensures var (last, r) := LoggedRunFrom(works, steps, k, st, outputs);
            var (plain, pr) := RunFrom(steps, k, st.exec, outputs);
            last.exec == plain && r == pr.(compensationErrors := Rewrap(pr.compensationErrors))
    decreases |steps| - k
  {
    assert Rewrap([]) == [];
    if k < |steps| {
      var name := steps[k].name;
      var begun := Note(works, st, name, Running, "");
      var (world, result) := steps[k].action(st.exec.world, |st.exec.calls|);
      var next := Logged(Exec(world, st.exec.calls + [Act(k)]), begun.log + [Ran(Act(k), result.Failure())]);
      match result
      case Ok(output) => RunRefines(works, steps, k + 1, Note(works, next, name, Completed, ""), outputs + [output]);
      case Err(e) => CompensateRefines(works, steps, k, NoteFailure(works, next, name, e), []);
    }
  }

  /**
   Whatever the persister does, the persistent saga makes the same calls in the same worlds as the
   plain one and returns the same result, except that compensation errors are wrapped again.
   */
  lemma RefinesSaga<W, T>(works: Persister, steps: seq<Step<W, T>>, world: W)
    ensures var (last, r) := LoggedRunFrom(works, steps, 0, Begin(works, world), []);
            var (plain, pr) := RunFrom(steps, 0, Exec(world, []), []);
            last.exec == plain && r == pr.(compensationErrors := Rewrap(pr.compensationErrors))
  {
    RunRefines(works, steps, 0, Begin(works, world), []);
  }

  // ------------------------------------------------------------------- journal

  const COMPENSATE := Record("__compensate__", Compensating, "")

  /** The attempt to record that the saga is compensating has been made. */
  predicate Announced(log: seq<Event>) {
    log != [] && var e := log[|log| - 1];
                 (e.Journal? && e.record == COMPENSATE) || Announced(log[..|log| - 1])
  }

  /** Successful actions count up, records of completed steps count down. */
  function Delta(e: Event): int {
    match e
    case Ran(Act(_), None) => 1
    case Journal(record, _) => if record.state.Completed? then -1 else 0
    case _ => 0
  }

  /** Actions that took effect without a record of it. */
  function Unrecorded(log: seq<Event>): int {
    if log == [] then 0 else Unrecorded(log[..|log| - 1]) + Delta(log[|log| - 1])
  }

  /** How often the compensation of step `i` has just failed in a row. */
  function Tries(log: seq<Event>, i: nat): nat {
    if log == [] then 0
    else
      var e := log[|log| - 1];
      if e.Ran? && e.call == Undo(i) && e.failure.Some? then Tries(log[..|log| - 1], i) + 1 else 0
  }

  /**
   The record that has to come next. A success is recorded as such: Completed for an action,
   Compensated for a compensation. The failure of an action is recorded with its error, and then that
   the saga compensates; the failure of a compensation when it is the third in a row.
   */
  function Awaited(log: seq<Event>, names: seq<string>): Option<Record> {
    if log == [] then None
    else
      match log[|log| - 1]
      case Ran(Act(i), None) => if i < |names| then Some(Record(names[i], Completed, "")) else None
      case Ran(Act(i), Some(e)) => if i < |names| then Some(Record(names[i], Failed, e.Display())) else None
      case Ran(Undo(i), None) => if i < |names| then Some(Record(names[i], Compensated, "")) else None
      case Ran(Undo(i), Some(e)) =>
        if i < |names| && Tries(log, i) == 3 then Some(Record(names[i], Compensating, e.Display())) else None
      case Journal(record, _) => if record.state.Failed? then Some(COMPENSATE) else None
  }

  /** Nothing is left to do about the last event. */
  predicate Closed(log: seq<Event>) {
    log == [] || (log[|log| - 1].Journal? && !log[|log| - 1].record.state.Failed?)
  }

  /**
   The records stand where they belong: the one that has to come next does; after a failed try the
   compensation is tried again; otherwise a call follows, or the record that a step is running.
   */
  predicate InPlace(log: seq<Event>, e: Event, names: seq<string>) {
    if Awaited(log, names).Some? then e.Journal? && e.record == Awaited(log, names).value
    else if Closed(log) then e.Ran? || e.record.state.Running?
    else e.Ran? && e.call == log[|log| - 1].call
  }

  /**
   The event may come after these: a record is stored if the persister works and is not the final
   one, and stands in its place; an action is called right after the record that its step is running;
   a compensation is called after the record that the saga is compensating.
   */
  predicate MayFollow(works: Persister, log: seq<Event>, e: Event, names: seq<string>) {
    InPlace(log, e, names) &&
    match e
    case Journal(record, stored) =>
      && stored == works(log)
      && (record.step in names || record.step == "__start__" || record.step == "__compensate__")
    case Ran(Act(i), _) => i < |names| && log != [] && log[|log| - 1].Journal?
                           && log[|log| - 1].record == Record(names[i], Running, "")
    case Ran(Undo(i), _) => i < |names| && Announced(log)
  }

  /** Every event could follow those before it, and at most one action was ever unrecorded. */
  predicate Sound(works: Persister, log: seq<Event>, names: seq<string>)
    decreases |log|
  {
    log == [] ||
    var before, e := log[..|log| - 1], log[|log| - 1];
    Sound(works, before, names) && MayFollow(works, before, e, names) && 0 <= Unrecorded(log) <= 1
  }

  /** What a crash after any number of events leaves is sound as well. */
  lemma {:induction false} SoundAtEveryCrash(works: Persister, log: seq<Event>, names: seq<string>, n: nat)
    requires Sound(works, log, names) && n <= |log|
    ensures Sound(works, log[..n], names)
  {
    if n < |log| {
      SoundAtEveryCrash(works, log[..|log| - 1], names, n);
      assert log[..|log| - 1][..n] == log[..n];
    } else {
      assert log[..n] == log;
    }
  }

  /** What soundness means for the event at position `p`. */
  lemma EventIsSound(works: Persister, log: seq<Event>, names: seq<string>, p: nat)
    requires Sound(works, log, names) && p < |log|
    ensures MayFollow(works, log[..p], log[p], names)
    ensures 0 <= Unrecorded(log[..p]) <= 1
  {
    SoundAtEveryCrash(works, log, names, p + 1);
    SoundAtEveryCrash(works, log, names, p);
    assert log[..p + 1][..p] == log[..p];
  }

  lemma SoundMore(works: Persister, log: seq<Event>, e: Event, names: seq<string>)
    requires Sound(works, log, names) && MayFollow(works, log, e, names) && 0 <= Unrecorded(log) + Delta(e) <= 1
    ensures Sound(works, log + [e], names) && Unrecorded(log + [e]) == Unrecorded(log) + Delta(e)
    ensures Announced(log) ==> Announced(log + [e])
  {
    assert (log + [e])[..|log|] == log;
  }

  /** The journal is sound, no action is unrecorded, and nothing has to come next. */
  predicate Quiet(works: Persister, log: seq<Event>, names: seq<string>) {
    Sound(works, log, names) && Unrecorded(log) == 0 && Closed(log)
  }

  lemma NoteKeeps<W>(works: Persister, st: Logged<W>, step: string, state: SagaState, error: string, names: seq<string>)
    requires Sound(works, st.log, names)
    requires step in names || step == "__start__" || step == "__compensate__"
    requires state.Completed? ==> Unrecorded(st.log) == 1
    requires InPlace(st.log, Journal(Record(step, state, error), works(st.log)), names)
    ensures var log := Note(works, st, step, state, error).log;
            && Sound(works, log, names)
            && Unrecorded(log) == (if state.Completed? then 0 else Unrecorded(st.log))
            && (Announced(st.log) ==> Announced(log))
  {
    assert 0 <= Unrecorded(st.log) <= 1;
    SoundMore(works, st.log, Journal(Record(step, state, error), works(st.log)), names);
  }

  /** The journal is sound, all actions are recorded, and the compensation of step `i` has failed `tries` times. */
  predicate Trying(works: Persister, log: seq<Event>, names: seq<string>, i: nat, tries: nat) {
    && Sound(works, log, names) && Unrecorded(log) == 0 && Announced(log)
    && Tries(log, i) == tries && (tries == 0 ==> Closed(log))
  }

  /** A compensation is called, for the first time or again. */
  lemma TrySound(works: Persister, log: seq<Event>, names: seq<string>, i: nat, tries: nat, failure: Option<Error>)
    requires Trying(works, log, names, i, tries) && tries < 3 && i < |names|
    ensures var more := log + [Ran(Undo(i), failure)];
            && Sound(works, more, names) && Unrecorded(more) == 0 && Announced(more)
            && more[..|more| - 1] == log && (failure.Some? ==> Trying(works, more, names, i, tries + 1))
  {
    var more := log + [Ran(Undo(i), failure)];
    assert more[..|more| - 1] == log;
    SoundMore(works, log, Ran(Undo(i), failure), names);
  }

  lemma {:induction false} AttemptsSound<W, T>(
    works: Persister, step: Step<W, T>, i: nat, st: Logged<W>, retry: nat, names: seq<string>)
    requires retry < 3 && i < |names| && names[i] == step.name && Trying(works, st.log, names, i, retry)
    ensures var log := LoggedAttempts(works, step, i, st, retry).0.log;
            Quiet(works, log, names) && Announced(log)
    decreases 3 - retry
  {
    var (world, result) := step.compensation(st.exec.world, |st.exec.calls|);
    var next := Logged(Exec(world, st.exec.calls + [Undo(i)]), st.log + [Ran(Undo(i), result.Failure())]);
    TrySound(works, st.log, names, i, retry, result.Failure());
    match result
    case Ok(_) => NoteKeeps(works, next, step.name, Compensated, "", names);
    case Err(e) =>
      if retry == 2 {
        NoteKeeps(works, next, step.name, Compensating, e.Display(), names);
      } else {
        AttemptsSound(works, step, i, next, retry + 1, names);
      }
  }

  lemma {:induction false} CompensateSound<W, T>(
    works: Persister, steps: seq<Step<W, T>>, k: nat, st: Logged<W>, errors: seq<(string, Error)>)
    requires k <= |steps| && Quiet(works, st.log, Names(steps)) && Announced(st.log)
    ensures Quiet(works, LoggedCompensate(works, steps, k, st, errors).0.log, Names(steps))
    decreases k
  {
    if k > 0 {
      assert Names(steps)[k - 1] == steps[k - 1].name;
      AttemptsSound(works, steps[k - 1], k - 1, st, 0, Names(steps));
      var (next, e) := LoggedAttempts(works, steps[k - 1], k - 1, st, 0);
      CompensateSound(works, steps, k - 1, next,
                      if e.Some? then errors + [(steps[k - 1].name, e.value)] else errors);
    }
  }

  /** An action is called. */
  lemma ActSound(works: Persister, log: seq<Event>, names: seq<string>, k: nat, failure: Option<Error>)
    requires k < |names| && Quiet(works, log, names)
    requires log != [] && log[|log| - 1].Journal? && log[|log| - 1].record == Record(names[k], Running, "")
    ensures var more := log + [Ran(Act(k), failure)];
            Sound(works, more, names) && Unrecorded(more) == if failure.None? then 1 else 0
  {
    SoundMore(works, log, Ran(Act(k), failure), names);
  }

  /** A step from its Running record to the call of its action. */
  lemma ActKeeps<W>(works: Persister, names: seq<string>, k: nat, st: Logged<W>, failure: Option<Error>)
    returns (log: seq<Event>)
    requires k < |names| && Quiet(works, st.log, names)
    ensures log == Note(works, st, names[k], Running, "").log + [Ran(Act(k), failure)]
    ensures Sound(works, log, names) && Unrecorded(log) == if failure.None? then 1 else 0
  {
    NoteKeeps(works, st, names[k], Running, "", names);
    var begun := Note(works, st, names[k], Running, "").log;
    ActSound(works, begun, names, k, failure);
    log := begun + [Ran(Act(k), failure)];
  }

  /** The journal is sound up to the failure of the action of step `k`. */
  predicate JustFailed(works: Persister, log: seq<Event>, names: seq<string>, k: nat, e: Error) {
    Sound(works, log, names) && Unrecorded(log) == 0 && log != [] && log[|log| - 1] == Ran(Act(k), Some(e))
  }

  lemma FailureKeeps<W>(works: Persister, st: Logged<W>, k: nat, e: Error, names: seq<string>)
    requires k < |names| && JustFailed(works, st.log, names, k, e)
    ensures var log := NoteFailure(works, st, names[k], e).log; Quiet(works, log, names) && Announced(log)
  {
    var noted := Note(works, st, names[k], Failed, e.Display());
    NoteKeeps(works, st, names[k], Failed, e.Display(), names);
    NoteKeeps(works, noted, "__compensate__", Compensating, "", names);
  }

  /** The final record of a saga. */
  function EndRecord<T>(r: SagaResult<T>): Record {
    if r.error.None? then Record("__end__", Completed, "") else Record("__end__", Failed, r.error.value.Display())
  }

  /** The events of a whole run: a sound journal, then the final record. */
  predicate Ended<T>(works: Persister, log: seq<Event>, names: seq<string>, r: SagaResult<T>) {
    && log != [] && Quiet(works, log[..|log| - 1], names)
    && log[|log| - 1] == Journal(EndRecord(r), works(log[..|log| - 1]))
    && (r.failed.None? <==> r.error.None?)
  }

  lemma EndsRun<W, T>(works: Persister, st: Logged<W>, names: seq<string>, r: SagaResult<T>)
    requires Quiet(works, st.log, names) && (r.failed.None? <==> r.error.None?)
    ensures var e := EndRecord(r); Ended(works, Note(works, st, e.step, e.state, e.error).log, names, r)
  {
    var e := EndRecord(r);
    var log := Note(works, st, e.step, e.state, e.error).log;
    assert log[..|log| - 1] == st.log;
  }

  /** A step that fails, from the call of its action to the end of the run. */
  lemma {:induction false} FailSound<W, T>(
    works: Persister, steps: seq<Step<W, T>>, k: nat, st: Logged<W>, e: Error, r: SagaResult<T>)
    requires k < |steps| && JustFailed(works, st.log, Names(steps), k, e) && r.failed.Some? && r.error == Some(e)
    ensures var undone := LoggedCompensate(works, steps, k, NoteFailure(works, st, steps[k].name, e), []).0;
            Ended(works, Note(works, undone, "__end__", Failed, e.Display()).log, Names(steps), r)
  {
    assert Names(steps)[k] == steps[k].name;
    FailureKeeps(works, st, k, e, Names(steps));
    CompensateSound(works, steps, k, NoteFailure(works, st, steps[k].name, e), []);
    EndsRun(works, LoggedCompensate(works, steps, k, NoteFailure(works, st, steps[k].name, e), []).0, Names(steps), r);
  }

  lemma {:induction false} RunSound<W, T>(
    works: Persister, steps: seq<Step<W, T>>, k: nat, st: Logged<W>, outputs: seq<T>)
    requires k <= |steps| && Quiet(works, st.log, Names(steps))
    ensures var (last, r) := LoggedRunFrom(works, steps, k, st, outputs); Ended(works, last.log, Names(steps), r)
    decreases |steps| - k
  {
    var (last, r) := LoggedRunFrom(works, steps, k, st, outputs);
    if k == |steps| {
      EndsRun(works, st, Names(steps), r);
    } else {
      var name := steps[k].name;
      var begun := Note(works, st, name, Running, "");
      var (world, result) := steps[k].action(st.exec.world, |st.exec.calls|);
      var next := Logged(Exec(world, st.exec.calls + [Act(k)]), begun.log + [Ran(Act(k), result.Failure())]);
      var log := ActKeeps(works, Names(steps), k, st, result.Failure());
      match result
      case Ok(output) =>
        assert Names(steps)[k] == name;
        NoteKeeps(works, next, name, Completed, "", Names(steps));
        RunSound(works, steps, k + 1, Note(works, next, name, Completed, ""), outputs + [output]);
      case Err(e) => FailSound(works, steps, k, next, e, r);
    }
  }

  /**
   The journal of every run, whatever the persister does: up to the final record it is sound, and
   the final record tells whether all steps succeeded.
   */
  lemma JournalIsSound<W, T>(works: Persister, steps: seq<Step<W, T>>, world: W)
    ensures var (last, r) := LoggedRunFrom(works, steps, 0, Begin(works, world), []);
            Ended(works, last.log, Names(steps), r)
  {
    NoteKeeps(works, Logged(Exec(world, []), []), "__start__", Running, "", Names(steps));
    RunSound(works, steps, 0, Begin(works, world), []);
  }

  /**
   A crash at any point of any run: the events before it, none of which is the final record, are
   sound, so that each one followed from those before it and the journal lags by at most one action.
   */
  lemma CrashPoint<W, T>(works: Persister, steps: seq<Step<W, T>>, world: W, p: nat)
    requires p + 1 < |LoggedRunFrom(works, steps, 0, Begin(works, world), []).0.log|
    ensures var log := LoggedRunFrom(works, steps, 0, Begin(works, world), []).0.log;
            MayFollow(works, log[..p], log[p], Names(steps)) && 0 <= Unrecorded(log[..p + 1]) <= 1
  {
    var log := LoggedRunFrom(works, steps, 0, Begin(works, world), []).0.log;
    JournalIsSound(works, steps, world);
    var body := log[..|log| - 1];
    EventIsSound(works, body, Names(steps), p);
    SoundAtEveryCrash(works, body, Names(steps), p + 1);
    assert body[..p] == log[..p] && body[..p + 1] == log[..p + 1];
  }

  /** The event at `p` is this record, stored or not. */
  predicate Notes(log: seq<Event>, p: int, record: Record) {
    0 <= p < |log| && log[p].Journal? && log[p].record == record
  }

  predicate FailedTry(log: seq<Event>, p: int, i: nat) {
    0 <= p < |log| && log[p].Ran? && log[p].call == Undo(i) && log[p].failure.Some?
  }

  predicate ThirdTry(log: seq<Event>, p: int, i: nat) {
    FailedTry(log, p, i) && FailedTry(log, p - 1, i) && FailedTry(log, p - 2, i)
  }

  lemma TriesAre(log: seq<Event>, i: nat)
    ensures Tries(log, i) >= 1 <==> FailedTry(log, |log| - 1, i)
    ensures Tries(log, i) >= 3 <==> ThirdTry(log, |log| - 1, i)
  {
    if |log| >= 2 {
      var before := log[..|log| - 1];
      assert before[|before| - 1] == log[|log| - 2];
      if |log| >= 3 {
        assert before[..|before| - 1][|before| - 2] == log[|log| - 3];
        assert Tries(before, i) >= 2 <==> FailedTry(log, |log| - 2, i) && FailedTry(log, |log| - 3, i);
      } else {
        assert before[..|before| - 1] == [] && Tries(before[..|before| - 1], i) == 0;
      }
    }
  }

  /** A fourth try never comes. */
  lemma NeverFour(works: Persister, log: seq<Event>, names: seq<string>, i: nat)
    requires Sound(works, log, names) && i < |names|
    ensures Tries(log, i) <= 3
    decreases |log|
  {
    if log != [] {
      NeverFour(works, log[..|log| - 1], names, i);
    }
  }

  /** What is recorded about the call at `p`, and where. */
  predicate CallIsRecorded(log: seq<Event>, names: seq<string>, p: nat)
    requires p < |log|
  {
    match log[p]
    case Ran(Act(i), None) => i < |names| && Notes(log, p + 1, Record(names[i], Completed, ""))
    case Ran(Act(i), Some(e)) =>
      i < |names| && Notes(log, p + 1, Record(names[i], Failed, e.Display())) && Notes(log, p + 2, COMPENSATE)
    case Ran(Undo(i), None) => i < |names| && Notes(log, p + 1, Record(names[i], Compensated, ""))
    case Ran(Undo(i), Some(e)) =>
      && i < |names|
      && if ThirdTry(log, p, i) then Notes(log, p + 1, Record(names[i], Compensating, e.Display()))
         else p + 1 < |log| && log[p + 1].Ran? && log[p + 1].call == Undo(i)
    case Journal(_, _) => true
  }

  /** Which call the record at `p` is about. */
  predicate RecordHasCall(log: seq<Event>, names: seq<string>, p: nat)
    requires p < |log|
  {
    log[p].Journal? ==>
      match log[p].record.state
      case Running => true
      case Completed => p > 0 && log[p - 1].Ran? && log[p - 1].call.Act? && log[p - 1].failure.None?
      case Failed => p > 0 && log[p - 1].Ran? && log[p - 1].call.Act? && log[p - 1].failure.Some?
      case Compensated => p > 0 && log[p - 1].Ran? && log[p - 1].call.Undo? && log[p - 1].failure.None?
      case Compensating =>
        p > 0 && if log[p - 1].Ran? then log[p - 1].call.Undo? && ThirdTry(log, p - 1, log[p - 1].call.step)
                 else log[p].record == COMPENSATE && log[p - 1].record.state.Failed?
  }

  lemma PlaceOf(works: Persister, log: seq<Event>, names: seq<string>, p: nat)
    requires Sound(works, log, names) && p < |log|
    ensures MayFollow(works, log[..p], log[p], names)
    ensures forall i :: 0 <= i < |names| ==> Tries(log[..p], i) <= 3
  {
    EventIsSound(works, log, names, p);
    SoundAtEveryCrash(works, log, names, p);
    forall i | 0 <= i < |names| ensures Tries(log[..p], i) <= 3 {
      NeverFour(works, log[..p], names, i);
    }
  }

  lemma PrefixTries(log: seq<Event>, n: nat, i: nat)
    requires n <= |log|
    ensures Tries(log[..n], i) >= 3 <==> ThirdTry(log, n - 1, i)
  {
    TriesAre(log[..n], i);
  }

  /** A sound journal with nothing left to do records every call, and nothing else. */
  lemma QuietRecords(works: Persister, log: seq<Event>, names: seq<string>, p: nat)
    requires Quiet(works, log, names) && p < |log|
    ensures CallIsRecorded(log, names, p) && RecordHasCall(log, names, p)
  {
    PlaceOf(works, log, names, p);
    if p > 0 && log[p - 1].Ran? {
      PrefixTries(log, p, log[p - 1].call.step);
    }
    if p + 1 < |log| {
      PlaceOf(works, log, names, p + 1);
      if log[p].Ran? {
        PrefixTries(log, p + 1, log[p].call.step);
      }
    }
    if p + 2 < |log| {
      PlaceOf(works, log, names, p + 2);
    }
  }

  /**
   Every run, whatever the persister does: before the final record, each call is recorded right
   after it by what came of it, with its error, and a record of an outcome stands nowhere else.
   */
  lemma OutcomesAreRecorded<W, T>(works: Persister, steps: seq<Step<W, T>>, world: W, p: nat)
    requires p + 1 < |LoggedRunFrom(works, steps, 0, Begin(works, world), []).0.log|
    ensures var log := LoggedRunFrom(works, steps, 0, Begin(works, world), []).0.log;
            CallIsRecorded(log[..|log| - 1], Names(steps), p) && RecordHasCall(log[..|log| - 1], Names(steps), p)
  {
    JournalIsSound(works, steps, world);
    var log := LoggedRunFrom(works, steps, 0, Begin(works, world), []).0.log;
    QuietRecords(works, log[..|log| - 1], Names(steps), p);
  }

  // ------------------------------------------------------- compensation errors

  /** The steps whose compensation failed three times in a row, in order, each with the error of the third. */
  function ErrorsIn(log: seq<Event>, names: seq<string>): seq<(string, Error)> {
    if log == [] then []
    else
      var before := ErrorsIn(log[..|log| - 1], names);
      match log[|log| - 1]
      case Ran(Undo(i), Some(e)) => if i < |names| && Tries(log, i) == 3 then before + [(names[i], e)] else before
      case _ => before
  }

  lemma ErrorsMore(log: seq<Event>, e: Event, names: seq<string>)
    requires e.Ran? ==> e.call.Act? || e.failure.None?
    ensures ErrorsIn(log + [e], names) == ErrorsIn(log, names)
  {
    assert (log + [e])[..|log|] == log;
  }

  lemma ErrorsTry(log: seq<Event>, i: nat, e: Error, names: seq<string>)
    requires i < |names|
    ensures var more := log + [Ran(Undo(i), Some(e))];
            && Tries(more, i) == Tries(log, i) + 1
            && ErrorsIn(more, names) == ErrorsIn(log, names) + if Tries(log, i) == 2 then [(names[i], e)] else []
  {
    assert (log + [Ran(Undo(i), Some(e))])[..|log|] == log;
  }

  lemma {:induction false} AttemptsErrors<W, T>(
    works: Persister, step: Step<W, T>, i: nat, st: Logged<W>, retry: nat, names: seq<string>)
    requires retry < 3 && Tries(st.log, i) == retry && i < |names| && names[i] == step.name
    ensures var (next, _) := LoggedAttempts(works, step, i, st, retry);
            var (_, e) := Attempts(step, i, st.exec, retry);
            && Closed(next.log)
            && ErrorsIn(next.log, names) == ErrorsIn(st.log, names) + if e.Some? then [(step.name, e.value)] else []
    decreases 3 - retry
  {
    var (world, result) := step.compensation(st.exec.world, |st.exec.calls|);
    var next := Logged(Exec(world, st.exec.calls + [Undo(i)]), st.log + [Ran(Undo(i), result.Failure())]);
    match result
    case Ok(_) =>
      ErrorsMore(st.log, Ran(Undo(i), None), names);
      ErrorsMore(next.log, Journal(Record(step.name, Compensated, ""), works(next.log)), names);
    case Err(e) =>
      ErrorsTry(st.log, i, e, names);
      if retry == 2 {
        ErrorsMore(next.log, Journal(Record(step.name, Compensating, e.Display()), works(next.log)), names);
      } else {
        AttemptsErrors(works, step, i, next, retry + 1, names);
      }
  }

  lemma NoTries(log: seq<Event>, i: nat)
    requires Closed(log)
    ensures Tries(log, i) == 0
  {
  }

  lemma {:induction false} CompensateErrors<W, T>(
    works: Persister, steps: seq<Step<W, T>>, k: nat, st: Logged<W>, errors: seq<(string, Error)>)
    requires k <= |steps| && Closed(st.log) && errors == ErrorsIn(st.log, Names(steps))
    ensures var (last, _) := LoggedCompensate(works, steps, k, st, Rewrap(errors));
            Compensate(steps, k, st.exec, errors).1 == ErrorsIn(last.log, Names(steps))
    decreases k
  {
    if k > 0 {
      var (next, _) := LoggedAttempts(works, steps[k - 1], k - 1, st, 0);
      NoTries(st.log, k - 1);
      AttemptsErrors(works, steps[k - 1], k - 1, st, 0, Names(steps));
      AttemptsRefine(works, steps[k - 1], k - 1, st, 0);
      var (_, e) := Attempts(steps[k - 1], k - 1, st.exec, 0);
      if e.Some? {
        RewrapMore(errors, steps[k - 1].name, e.value);
        CompensateErrors(works, steps, k - 1, next, errors + [(steps[k - 1].name, e.value)]);
      } else {
        CompensateErrors(works, steps, k - 1, next, errors);
      }
    }
  }

  /** From a failed action to the end. */
  lemma {:induction false} FailErrors<W, T>(works: Persister, steps: seq<Step<W, T>>, k: nat, st: Logged<W>, e: Error)
    requires k < |steps| && ErrorsIn(st.log, Names(steps)) == []
    ensures var undone := LoggedCompensate(works, steps, k, NoteFailure(works, st, steps[k].name, e), []).0;
            Compensate(steps, k, st.exec, []).1
            == ErrorsIn(Note(works, undone, "__end__", Failed, e.Display()).log, Names(steps))
  {
    var noted := Note(works, st, steps[k].name, Failed, e.Display());
    ErrorsMore(st.log, Journal(Record(steps[k].name, Failed, e.Display()), works(st.log)), Names(steps));
    ErrorsMore(noted.log, Journal(COMPENSATE, works(noted.log)), Names(steps));
    assert Rewrap([]) == [];
    CompensateErrors(works, steps, k, NoteFailure(works, st, steps[k].name, e), []);
    var undone := LoggedCompensate(works, steps, k, NoteFailure(works, st, steps[k].name, e), []).0;
    ErrorsMore(undone.log, Journal(Record("__end__", Failed, e.Display()), works(undone.log)), Names(steps));
  }

  lemma {:induction false} RunErrors<W, T>(
    works: Persister, steps: seq<Step<W, T>>, k: nat, st: Logged<W>, outputs: seq<T>)
    requires k <= |steps| && ErrorsIn(st.log, Names(steps)) == []
    ensures var (last, _) := LoggedRunFrom(works, steps, k, st, outputs);
            RunFrom(steps, k, st.exec, outputs).1.compensationErrors == ErrorsIn(last.log, Names(steps))
    decreases |steps| - k
  {
    if k == |steps| {
      ErrorsMore(st.log, Journal(Record("__end__", Completed, ""), works(st.log)), Names(steps));
    } else {
      var name := steps[k].name;
      var begun := Note(works, st, name, Running, "");
      var (world, result) := steps[k].action(st.exec.world, |st.exec.calls|);
      var next := Logged(Exec(world, st.exec.calls + [Act(k)]), begun.log + [Ran(Act(k), result.Failure())]);
      ErrorsMore(st.log, Journal(Record(name, Running, ""), works(st.log)), Names(steps));
      ErrorsMore(begun.log, Ran(Act(k), result.Failure()), Names(steps));
      match result
      case Ok(output) =>
        ErrorsMore(next.log, Journal(Record(name, Completed, ""), works(next.log)), Names(steps));
        RunErrors(works, steps, k + 1, Note(works, next, name, Completed, ""), outputs + [output]);
      case Err(e) => FailErrors(works, steps, k, next, e);
    }
  }

  /** A saga reports exactly those errors, in that order; the persistent one wraps each again. */
  lemma CompensationErrors<W, T>(works: Persister, steps: seq<Step<W, T>>, world: W)
    ensures var (last, r) := LoggedRunFrom(works, steps, 0, Begin(works, world), []);
            var errors := ErrorsIn(last.log, Names(steps));
            && RunFrom(steps, 0, Exec(world, []), []).1.compensationErrors == errors
            && r.compensationErrors == Rewrap(errors)
  {
    ErrorsMore([], Journal(Record("__start__", Running, ""), works([])), Names(steps));
    RunErrors(works, steps, 0, Begin(works, world), []);
    RefinesSaga(works, steps, world);
  }

  // ------------------------------------------------------------------ load_saga

  /** The rows that reached the table. */
  function Rows(log: seq<Event>): seq<Record> {
    if log == [] then []
    else
      var e := log[|log| - 1];
      Rows(log[..|log| - 1]) + if e.Journal? && e.stored then [e.record] else []
  }

  function RowsOf(table: seq<(string, Record)>, id: string): seq<Record> {
    if table == [] then []
    else
      var row := table[|table| - 1];
      RowsOf(table[..|table| - 1], id) + if row.0 == id then [row.1] else []
  }

  /** `load_saga`: the newest row of the saga. */
  function LoadSaga(table: seq<(string, Record)>, id: string): Option<Record> {
    if table == [] then None
    else if table[|table| - 1].0 == id then Some(table[|table| - 1].1)
    else LoadSaga(table[..|table| - 1], id)
  }

  lemma {:induction false} LoadsLast(table: seq<(string, Record)>, id: string)
    ensures var rows := RowsOf(table, id);
            LoadSaga(table, id) == if rows == [] then None else Some(rows[|rows| - 1])
  {
    if table != [] {
      LoadsLast(table[..|table| - 1], id);
    }
  }

  /**
   After a run whose final record was stored, in a table that other sagas may have written to as
   well, `load_saga` returns a Completed record exactly when all steps succeeded.
   */
  lemma LoadTellsSuccess<W, T>(
    works: Persister, steps: seq<Step<W, T>>, world: W, table: seq<(string, Record)>, id: string)
    requires var log := LoggedRunFrom(works, steps, 0, Begin(works, world), []).0.log;
             RowsOf(table, id) == Rows(log) && log != [] && works(log[..|log| - 1])
    ensures var r := LoggedRunFrom(works, steps, 0, Begin(works, world), []).1;
            LoadSaga(table, id).Some? && (LoadSaga(table, id).value.state.Completed? <==> r.failed.None?)
  {
    JournalIsSound(works, steps, world);
    LoadsLast(table, id);
  }

  // ------------------------------------------- what a loaded record can tell

  lemma RowsMore(log: seq<Event>, e: Event)
    ensures Rows(log + [e]) == Rows(log) + if e.Journal? && e.stored then [e.record] else []
  {
    assert (log + [e])[..|log|] == log;
  }

  /** Every record that was attempted has the property `p`. */
  predicate AllRecords(log: seq<Event>, p: Record -> bool) {
    log == [] ||
    var e := log[|log| - 1];
    AllRecords(log[..|log| - 1], p) && (e.Journal? ==> p(e.record))
  }

  /** A weaker property holds of them as well, and every property of them all holds of every row. */
  lemma {:induction false} AllRecordsMean(log: seq<Event>, p: Record -> bool, q: Record -> bool)
    requires AllRecords(log, p) && forall row :: p(row) ==> q(row)
    ensures AllRecords(log, q) && forall row :: row in Rows(log) ==> q(row)
    decreases |log|
  {
    if log != [] {
      AllRecordsMean(log[..|log| - 1], p, q);
    }
  }

  lemma RowsAfter(log: seq<Event>, e: Event, p: Record -> bool)
    requires AllRecords(log, p) && (e.Journal? ==> p(e.record))
    ensures AllRecords(log + [e], p)
  {
    assert (log + [e])[..|log|] == log;
  }

  lemma NoteStores<W>(
    works: Persister, st: Logged<W>, step: string, state: SagaState, error: string, p: Record -> bool)
    requires AllRecords(st.log, p) && p(Record(step, state, error))
    ensures AllRecords(Note(works, st, step, state, error).log, p)
  {
    RowsAfter(st.log, Journal(Record(step, state, error), works(st.log)), p);
  }

  /** What is stored once a step has failed has the property. */
  ghost predicate AllowsUndoing(p: Record -> bool) {
    forall row: Record :: !row.state.Running? && !row.state.Completed? ==> p(row)
  }

  lemma {:induction false} AttemptsStore<W, T>(
    works: Persister, step: Step<W, T>, i: nat, st: Logged<W>, retry: nat, p: Record -> bool)
    requires retry < 3 && AllRecords(st.log, p) && AllowsUndoing(p)
    ensures AllRecords(LoggedAttempts(works, step, i, st, retry).0.log, p)
    decreases 3 - retry
  {
    var (world, result) := step.compensation(st.exec.world, |st.exec.calls|);
    var next := Logged(Exec(world, st.exec.calls + [Undo(i)]), st.log + [Ran(Undo(i), result.Failure())]);
    RowsAfter(st.log, Ran(Undo(i), result.Failure()), p);
    match result
    case Ok(_) => NoteStores(works, next, step.name, Compensated, "", p);
    case Err(e) =>
      if retry == 2 {
        NoteStores(works, next, step.name, Compensating, e.Display(), p);
      } else {
        AttemptsStore(works, step, i, next, retry + 1, p);
      }
  }

  /** One turn of the loop over the compensations. */
  lemma CompensateNext<W, T>(
    works: Persister, steps: seq<Step<W, T>>, k: nat, st: Logged<W>, errors: seq<(string, Error)>)
    returns (next: Logged<W>, more: seq<(string, Error)>)
    requires 0 < k <= |steps|
    ensures next == LoggedAttempts(works, steps[k - 1], k - 1, st, 0).0
    ensures LoggedCompensate(works, steps, k, st, errors) == LoggedCompensate(works, steps, k - 1, next, more)
  {
    var (last, e) := LoggedAttempts(works, steps[k - 1], k - 1, st, 0);
    next := last;
    more := if e.Some? then errors + [(steps[k - 1].name, e.value)] else errors;
  }

  lemma {:induction false} CompensateStores<W, T>(
    works: Persister, steps: seq<Step<W, T>>, k: nat, st: Logged<W>, errors: seq<(string, Error)>, p: Record -> bool)
    requires k <= |steps| && AllRecords(st.log, p) && AllowsUndoing(p)
    ensures AllRecords(LoggedCompensate(works, steps, k, st, errors).0.log, p)
    decreases k
  {
    if k > 0 {
      AttemptsStore(works, steps[k - 1], k - 1, st, 0, p);
      var next, more := CompensateNext(works, steps, k, st, errors);
      CompensateStores(works, steps, k - 1, next, more, p);
    }
  }

  /** The rows that are stored on the way forward, when these steps have succeeded. */
  predicate Forth(done: seq<string>, row: Record) {
    row.error == ""
    && (row.state.Running? || row.state.Completed?)
    && (row.step in done || (row.state.Running? && row.step == "__start__"))
  }

  /** The rows of runs of a saga with these steps that succeed, and of runs that fail. */
  predicate Possible(names: seq<string>, row: Record, succeeds: bool) {
    match row.state
    case Running => row.error == "" && (row.step == "__start__" || row.step in names) && (succeeds || names != [])
    case Completed =>
      row.error == "" && (InFront(names, row.step) || (succeeds && (row.step in names || row.step == "__end__")))
    case _ => !succeeds
  }

  /** A step that is not the last one has this name. */
  predicate InFront(names: seq<string>, name: string) {
    names != [] && name in names[..|names| - 1]
  }

  lemma ForthIsPossible(names: seq<string>, k: nat, row: Record, succeeds: bool)
    requires k <= |names| && Forth(names[..k], row) && (succeeds || k < |names|)
    ensures Possible(names, row, succeeds)
  {
    if row.state.Completed? && !succeeds {
      assert names[..k] <= names[..|names| - 1];
    }
  }

  lemma AllPossible(log: seq<Event>, names: seq<string>, k: nat, succeeds: bool)
    requires k <= |names| && AllRecords(log, row => Forth(names[..k], row)) && (succeeds || k < |names|)
    ensures AllRecords(log, row => Possible(names, row, succeeds))
  {
    forall row | Forth(names[..k], row) ensures Possible(names, row, succeeds) {
      ForthIsPossible(names, k, row, succeeds);
    }
    AllRecordsMean(log, row => Forth(names[..k], row), row => Possible(names, row, succeeds));
  }

  lemma FailureStores<W>(works: Persister, st: Logged<W>, step: string, e: Error, p: Record -> bool)
    requires AllRecords(st.log, p) && AllowsUndoing(p)
    ensures AllRecords(NoteFailure(works, st, step, e).log, p)
  {
    NoteStores(works, st, step, Failed, e.Display(), p);
    NoteStores(works, Note(works, st, step, Failed, e.Display()), "__compensate__", Compensating, "", p);
  }

  /** A step that fails, from the call of its action to the end of the run. */
  lemma FailStores<W, T>(works: Persister, steps: seq<Step<W, T>>, k: nat, st: Logged<W>, e: Error, p: Record -> bool)
    requires k < |steps| && AllRecords(st.log, p) && AllowsUndoing(p)
    ensures var undone := LoggedCompensate(works, steps, k, NoteFailure(works, st, steps[k].name, e), []).0;
            AllRecords(Note(works, undone, "__end__", Failed, e.Display()).log, p)
  {
    FailureStores(works, st, steps[k].name, e, p);
    var failed := NoteFailure(works, st, steps[k].name, e);
    CompensateStores(works, steps, k, failed, [], p);
    var undone := LoggedCompensate(works, steps, k, failed, []).0;
    NoteStores(works, undone, "__end__", Failed, e.Display(), p);
  }

  /** The Running record of a step, and the call of its action. */
  lemma ActStores<W>(works: Persister, st: Logged<W>, name: string, c: Call, failure: Option<Error>, p: Record -> bool)
    requires AllRecords(st.log, p) && p(Record(name, Running, ""))
    ensures AllRecords(Note(works, st, name, Running, "").log + [Ran(c, failure)], p)
  {
    NoteStores(works, st, name, Running, "", p);
    RowsAfter(Note(works, st, name, Running, "").log, Ran(c, failure), p);
  }

  lemma ForthLonger(log: seq<Event>, names: seq<string>, k: nat)
    requires k < |names| && AllRecords(log, row => Forth(names[..k], row))
    ensures AllRecords(log, row => Forth(names[..k + 1], row))
  {
    assert names[..k + 1] == names[..k] + [names[k]];
    AllRecordsMean(log, row => Forth(names[..k], row), row => Forth(names[..k + 1], row));
  }

  /** A step that succeeds, on the way forward. */
  lemma ForthMore<W>(works: Persister, names: seq<string>, k: nat, st: Logged<W>, next: Logged<W>)
    requires k < |names| && AllRecords(st.log, row => Forth(names[..k], row))
    requires next.log == Note(works, st, names[k], Running, "").log + [Ran(Act(k), None)]
    ensures AllRecords(Note(works, next, names[k], Completed, "").log, row => Forth(names[..k + 1], row))
  {
    ForthLonger(st.log, names, k);
    assert names[k] in names[..k + 1] by {
      assert names[..k + 1][k] == names[k];
    }
    ActStores(works, st, names[k], Act(k), None, row => Forth(names[..k + 1], row));
    NoteStores(works, next, names[k], Completed, "", row => Forth(names[..k + 1], row));
  }

  /** A step that fails, up to the call of its action. */
  lemma BackMore<W>(works: Persister, names: seq<string>, k: nat, st: Logged<W>, e: Error)
    requires k < |names| && AllRecords(st.log, row => Forth(names[..k], row))
    ensures AllRecords(Note(works, st, names[k], Running, "").log + [Ran(Act(k), Some(e))],
                       row => Possible(names, row, false))
  {
    AllPossible(st.log, names, k, false);
    ActStores(works, st, names[k], Act(k), Some(e), row => Possible(names, row, false));
  }

  lemma {:induction false} RunStores<W, T>(
    works: Persister, steps: seq<Step<W, T>>, k: nat, st: Logged<W>, outputs: seq<T>)
    requires k <= |steps| && AllRecords(st.log, row => Forth(Names(steps)[..k], row))
    ensures var (last, r) := LoggedRunFrom(works, steps, k, st, outputs);
            AllRecords(last.log, row => Possible(Names(steps), row, r.failed.None?))
    decreases |steps| - k
  {
    if k == |steps| {
      AllPossible(st.log, Names(steps), k, true);
      NoteStores(works, st, "__end__", Completed, "", row => Possible(Names(steps), row, true));
    } else {
      var name := steps[k].name;
      var begun := Note(works, st, name, Running, "");
      var (world, result) := steps[k].action(st.exec.world, |st.exec.calls|);
      var next := Logged(Exec(world, st.exec.calls + [Act(k)]), begun.log + [Ran(Act(k), result.Failure())]);
      match result
      case Ok(output) =>
        ForthMore(works, Names(steps), k, st, next);
        RunStores(works, steps, k + 1, Note(works, next, name, Completed, ""), outputs + [output]);
      case Err(e) =>
        BackMore(works, Names(steps), k, st, e);
        FailStores(works, steps, k, next, e, row => Possible(Names(steps), row, false));
    }
  }

  /** Every row of every run is one of those, whatever the persister does. */
  lemma RowsArePossible<W, T>(works: Persister, steps: seq<Step<W, T>>, world: W)
    ensures var (last, r) := LoggedRunFrom(works, steps, 0, Begin(works, world), []);
            AllRecords(last.log, row => Possible(Names(steps), row, r.failed.None?))
  {
    NoteStores(works, Logged(Exec(world, []), []), "__start__", Running, "", row => Forth(Names(steps)[..0], row));
    RunStores(works, steps, 0, Begin(works, world), []);
  }

  /**
   The records that settle how the saga ended: all but Running ones, and Completed ones of a step
   that is followed by another. A saga without steps cannot fail.
   */
  predicate Settles(names: seq<string>, row: Record) {
    match row.state
    case Running => names == []
    case Completed => !InFront(names, row.step)
    case _ => true
  }

  /** The newest row. */
  predicate Newest(log: seq<Event>, row: Record) {
    var rows := Rows(log);
    rows != [] && rows[|rows| - 1] == row
  }

  predicate Loads<W, T>(works: Persister, steps: seq<Step<W, T>>, world: W, row: Record) {
    Newest(LoggedRunFrom(works, steps, 0, Begin(works, world), []).0.log, row)
  }

  predicate Succeeds<W, T>(works: Persister, steps: seq<Step<W, T>>, world: W) {
    LoggedRunFrom(works, steps, 0, Begin(works, world), []).1.failed.None?
  }

  lemma LoadedIsPossible<W, T>(works: Persister, steps: seq<Step<W, T>>, world: W, row: Record)
    requires Loads(works, steps, world, row)
    ensures Possible(Names(steps), row, Succeeds(works, steps, world))
  {
    RowsArePossible(works, steps, world);
    var p := (row: Record) => Possible(Names(steps), row, Succeeds(works, steps, world));
    AllRecordsMean(LoggedRunFrom(works, steps, 0, Begin(works, world), []).0.log, p, p);
    var rows := Rows(LoggedRunFrom(works, steps, 0, Begin(works, world), []).0.log);
    assert rows[|rows| - 1] in rows;
  }

  /**
   Whatever the persister lost: when the record that `load_saga` returns settles the outcome, all
   steps succeeded exactly if it is a Running or a Completed one.
   */
  lemma LoadedTells<W, T>(
    works: Persister, steps: seq<Step<W, T>>, world: W, table: seq<(string, Record)>, id: string)
    requires RowsOf(table, id) == Rows(LoggedRunFrom(works, steps, 0, Begin(works, world), []).0.log)
    requires LoadSaga(table, id).Some? && Settles(Names(steps), LoadSaga(table, id).value)
    ensures var state := LoadSaga(table, id).value.state;
            Succeeds(works, steps, world) <==> state.Running? || state.Completed?
  {
    LoadsLast(table, id);
    LoadedIsPossible(works, steps, world, LoadSaga(table, id).value);
  }

  /** In particular a final record tells the truth, if no step but the last may be named like it. */
  lemma LoadedEndIsTrue<W, T>(
    works: Persister, steps: seq<Step<W, T>>, world: W, table: seq<(string, Record)>, id: string)
    requires !InFront(Names(steps), "__end__")
    requires RowsOf(table, id) == Rows(LoggedRunFrom(works, steps, 0, Begin(works, world), []).0.log)
    requires LoadSaga(table, id).Some? && LoadSaga(table, id).value.step == "__end__"
    requires "__end__" in Names(steps) ==> !LoadSaga(table, id).value.state.Running?
    ensures LoadSaga(table, id).value.state.Completed? <==> Succeeds(works, steps, world)
  {
    LoadsLast(table, id);
    LoadedIsPossible(works, steps, world, LoadSaga(table, id).value);
    assert "__end__"[2] != "__start__"[2];
    LoadedTells(works, steps, world, table, id);
  }

  // ------------------------------------------------------- records that mislead

  /** A persister that stops working after `m` events. */
  function Until(m: nat): Persister {
    log => |log| < m
  }

  lemma NotedInVain<W>(m: nat, st: Logged<W>, step: string, state: SagaState, error: string)
    requires |st.log| >= m
    ensures var noted := Note(Until(m), st, step, state, error); |noted.log| >= m && Rows(noted.log) == Rows(st.log)
  {
    RowsMore(st.log, Journal(Record(step, state, error), false));
  }

  lemma {:induction false} AttemptsInVain<W, T>(m: nat, step: Step<W, T>, i: nat, st: Logged<W>, retry: nat)
    requires retry < 3 && |st.log| >= m
    ensures var log := LoggedAttempts(Until(m), step, i, st, retry).0.log; |log| >= m && Rows(log) == Rows(st.log)
    decreases 3 - retry
  {
    var (world, result) := step.compensation(st.exec.world, |st.exec.calls|);
    var next := Logged(Exec(world, st.exec.calls + [Undo(i)]), st.log + [Ran(Undo(i), result.Failure())]);
    RowsMore(st.log, Ran(Undo(i), result.Failure()));
    match result
    case Ok(_) => NotedInVain(m, next, step.name, Compensated, "");
    case Err(e) =>
      if retry == 2 {
        NotedInVain(m, next, step.name, Compensating, e.Display());
      } else {
        AttemptsInVain(m, step, i, next, retry + 1);
      }
  }

  lemma {:induction false} CompensateInVain<W, T>(
    m: nat, steps: seq<Step<W, T>>, k: nat, st: Logged<W>, errors: seq<(string, Error)>)
    requires k <= |steps| && |st.log| >= m
    ensures var log := LoggedCompensate(Until(m), steps, k, st, errors).0.log; |log| >= m && Rows(log) == Rows(st.log)
    decreases k
  {
    if k > 0 {
      AttemptsInVain(m, steps[k - 1], k - 1, st, 0);
      var next, more := CompensateNext(Until(m), steps, k, st, errors);
      CompensateInVain(m, steps, k - 1, next, more);
    }
  }

  /** Once the persister has stopped, nothing is stored to the end of the run. */
  lemma {:induction false} RunInVain<W, T>(m: nat, steps: seq<Step<W, T>>, k: nat, st: Logged<W>, outputs: seq<T>)
    requires k <= |steps| && |st.log| >= m
    ensures Rows(LoggedRunFrom(Until(m), steps, k, st, outputs).0.log) == Rows(st.log)
    decreases |steps| - k, 1
  {
    if k == |steps| {
      NotedInVain(m, st, "__end__", Completed, "");
    } else {
      NotedInVain(m, st, steps[k].name, Running, "");
      StepInVain(m, steps, k, st, outputs);
    }
  }

  /** The same when it stops after the Running record of a step. */
  lemma {:induction false} StepInVain<W, T>(m: nat, steps: seq<Step<W, T>>, k: nat, st: Logged<W>, outputs: seq<T>)
    requires k < |steps| && |st.log| + 1 >= m
    ensures Rows(LoggedRunFrom(Until(m), steps, k, st, outputs).0.log)
            == Rows(Note(Until(m), st, steps[k].name, Running, "").log)
    decreases |steps| - k, 0
  {
    var works, name := Until(m), steps[k].name;
    var begun := Note(works, st, name, Running, "");
    var (world, result) := steps[k].action(st.exec.world, |st.exec.calls|);
    var next := Logged(Exec(world, st.exec.calls + [Act(k)]), begun.log + [Ran(Act(k), result.Failure())]);
    RowsMore(begun.log, Ran(Act(k), result.Failure()));
    match result
    case Ok(output) =>
      NotedInVain(m, next, name, Completed, "");
      RunInVain(m, steps, k + 1, Note(works, next, name, Completed, ""), outputs + [output]);
    case Err(e) =>
      NotedInVain(m, next, name, Failed, e.Display());
      NotedInVain(m, Note(works, next, name, Failed, e.Display()), "__compensate__", Compensating, "");
      CompensateInVain(m, steps, k, NoteFailure(works, next, name, e), []);
      var undone := LoggedCompensate(works, steps, k, NoteFailure(works, next, name, e), []).0;
      NotedInVain(m, undone, "__end__", Failed, e.Display());
  }

  /** Steps with these names, of which only the one at position `f` fails, if there is one. */
  function StepsNamed(names: seq<string>, f: nat): (steps: seq<Step<int, int>>)
    ensures |steps| == |names| && Names(steps) == names
  {
    var steps := seq(|names|, i requires 0 <= i < |names| =>
                   Step(names[i], (w, _) => (w, if i == f then Err(Internal("no")) else Ok(0)), (w, _) => (w, Ok(()))));
    assert Names(steps) == names;
    steps
  }

  lemma NotedLast<W>(m: nat, st: Logged<W>, step: string, state: SagaState, error: string)
    requires |st.log| < m
    ensures Newest(Note(Until(m), st, step, state, error).log, Record(step, state, error))
  {
    RowsMore(st.log, Journal(Record(step, state, error), true));
  }

  /** The record that is attempted last before step `k` begins. */
  function Reached(names: seq<string>, k: nat): Record
    requires k <= |names|
  {
    if k == 0 then Record("__start__", Running, "") else Record(names[k - 1], Completed, "")
  }

  lemma BeginStores(m: nat, names: seq<string>)
    ensures var st := Begin(Until(m), 0); |st.log| == 1 && (1 <= m ==> Newest(st.log, Reached(names, 0)))
  {
    if 1 <= m {
      NotedLast(m, Logged(Exec(0, []), []), "__start__", Running, "");
    }
  }

  /** The first `f` steps never fail. */
  ghost predicate NeverFail<W(!new), T>(steps: seq<Step<W, T>>, f: nat)
    requires f <= |steps|
  {
    forall i, w: W, n: nat :: 0 <= i < f ==> steps[i].action(w, n).1.Ok?
  }

  lemma ForwardOne<W(!new), T>(m: nat, steps: seq<Step<W, T>>, k: nat, st: Logged<W>, outputs: seq<T>)
    returns (next: Logged<W>, more: seq<T>)
    requires k < |steps| && steps[k].action(st.exec.world, |st.exec.calls|).1.Ok?
    ensures LoggedRunFrom(Until(m), steps, k, st, outputs) == LoggedRunFrom(Until(m), steps, k + 1, next, more)
    ensures |next.log| == |st.log| + 3 && (|next.log| <= m ==> Newest(next.log, Record(steps[k].name, Completed, "")))
  {
    var works, name := Until(m), steps[k].name;
    var begun := Note(works, st, name, Running, "");
    var (world, result) := steps[k].action(st.exec.world, |st.exec.calls|);
    var acted := Logged(Exec(world, st.exec.calls + [Act(k)]), begun.log + [Ran(Act(k), None)]);
    next, more := Note(works, acted, name, Completed, ""), outputs + [result.value];
    if |next.log| <= m {
      NotedLast(m, acted, name, Completed, "");
    }
  }

  /** When the persister stops before step `j`, the last record before that is loaded. */
  lemma {:induction false} StopsBefore<W(!new), T>(
    steps: seq<Step<W, T>>, j: nat, k: nat, st: Logged<W>, outputs: seq<T>)
    requires k <= j <= |steps| && NeverFail(steps, j)
    requires |st.log| == 1 + 3 * k && Newest(st.log, Reached(Names(steps), k))
    ensures Newest(LoggedRunFrom(Until(1 + 3 * j), steps, k, st, outputs).0.log, Reached(Names(steps), j))
    decreases j - k
  {
    if k == j {
      RunInVain(1 + 3 * j, steps, k, st, outputs);
    } else {
      var next, more := ForwardOne(1 + 3 * j, steps, k, st, outputs);
      StopsBefore(steps, j, k + 1, next, more);
    }
  }

  lemma StopsHere<W(!new), T>(steps: seq<Step<W, T>>, j: nat, st: Logged<W>, outputs: seq<T>)
    requires j < |steps| && |st.log| == 1 + 3 * j
    ensures Newest(LoggedRunFrom(Until(2 + 3 * j), steps, j, st, outputs).0.log, Record(steps[j].name, Running, ""))
  {
    StepInVain(2 + 3 * j, steps, j, st, outputs);
    NotedLast(2 + 3 * j, st, steps[j].name, Running, "");
  }

  /** When it stops before the action of step `j`, the Running record of the step is. */
  lemma {:induction false} StopsAtAction<W(!new), T>(
    steps: seq<Step<W, T>>, j: nat, k: nat, st: Logged<W>, outputs: seq<T>)
    requires k <= j < |steps| && NeverFail(steps, j) && |st.log| == 1 + 3 * k
    ensures Newest(LoggedRunFrom(Until(2 + 3 * j), steps, k, st, outputs).0.log, Record(steps[j].name, Running, ""))
    decreases j - k
  {
    if k == j {
      StopsHere(steps, j, st, outputs);
    } else {
      var next, more := ForwardOne(2 + 3 * j, steps, k, st, outputs);
      StopsAtAction(steps, j, k + 1, next, more);
    }
  }

  /** If the first `f` steps succeed, the run fails exactly if there is a step at position `f` that fails. */
  lemma {:induction false} FailsAfter<W(!new), T>(
    m: nat, steps: seq<Step<W, T>>, f: nat, k: nat, st: Logged<W>, outputs: seq<T>)
    requires k <= f <= |steps| && NeverFail(steps, f)
    requires f < |steps| ==> forall w: W, n: nat :: steps[f].action(w, n).1.Err?
    ensures LoggedRunFrom(Until(m), steps, k, st, outputs).1.failed.None? <==> f == |steps|
    decreases f - k
  {
    if k < f {
      var next, more := ForwardOne(m, steps, k, st, outputs);
      FailsAfter(m, steps, f, k + 1, next, more);
    }
  }

  lemma FailsAt(m: nat, names: seq<string>, f: nat)
    requires f <= |names|
    ensures Succeeds(Until(m), StepsNamed(names, f), 0) <==> f == |names|
  {
    FailsAfter(m, StepsNamed(names, f), f, 0, Begin(Until(m), 0), []);
  }

  lemma LoadsRunning(names: seq<string>, f: nat, j: nat)
    requires j <= f && j < |names|
    ensures Loads(Until(2 + 3 * j), StepsNamed(names, f), 0, Record(names[j], Running, ""))
  {
    BeginStores(2 + 3 * j, names);
    StopsAtAction(StepsNamed(names, f), j, 0, Begin(Until(2 + 3 * j), 0), []);
  }

  lemma LoadsCompleted(names: seq<string>, f: nat, k: nat)
    requires k <= f && k <= |names|
    ensures Loads(Until(1 + 3 * k), StepsNamed(names, f), 0, Reached(names, k))
  {
    BeginStores(1 + 3 * k, names);
    StopsBefore(StepsNamed(names, f), k, 0, Begin(Until(1 + 3 * k), 0), []);
  }

  lemma LoadsSomeRunning(names: seq<string>, f: nat, name: string) returns (m: nat)
    requires |names| - 1 <= f && name in names
    ensures Loads(Until(m), StepsNamed(names, f), 0, Record(name, Running, ""))
  {
    var j :| 0 <= j < |names| && names[j] == name;
    LoadsRunning(names, f, j);
    m := 2 + 3 * j;
  }

  lemma LoadsSomeCompleted(names: seq<string>, f: nat, name: string) returns (m: nat)
    requires |names| - 1 <= f && InFront(names, name)
    ensures Loads(Until(m), StepsNamed(names, f), 0, Record(name, Completed, ""))
  {
    var j :| 0 <= j < |names| - 1 && names[j] == name;
    LoadsCompleted(names, f, j + 1);
    m := 1 + 3 * (j + 1);
  }

  /** A Running record, or the Completed one of a step that another follows, whether or not the last step fails. */
  lemma LoadsUnsettled(names: seq<string>, f: nat, row: Record) returns (m: nat)
    requires |names| - 1 <= f && names != [] && row.error == ""
    requires if row.state.Running? then row.step == "__start__" || row.step in names
             else row.state.Completed? && InFront(names, row.step)
    ensures Loads(Until(m), StepsNamed(names, f), 0, row)
  {
    if row.state.Completed? {
      m := LoadsSomeCompleted(names, f, row.step);
    } else if row.step in names {
      m := LoadsSomeRunning(names, f, row.step);
    } else {
      LoadsCompleted(names, f, 0);
      m := 1;
    }
  }

  /** A record that does not settle the outcome is loaded after a run that succeeds and after one that fails. */
  lemma EitherOutcome(names: seq<string>, row: Record, succeeds: bool)
    returns (works: Persister, steps: seq<Step<int, int>>)
    requires Possible(names, row, succeeds) && !Settles(names, row)
    ensures Names(steps) == names && Loads(works, steps, 0, row) && (Succeeds(works, steps, 0) <==> succeeds)
  {
    var f := if succeeds then |names| else |names| - 1;
    var m := LoadsUnsettled(names, f, row);
    FailsAt(m, names, f);
    works, steps := Until(m), StepsNamed(names, f);
  }

  /**
   Of the records that can be loaded, those that settle the outcome are exactly those after which
   all runs of sagas with these steps have ended alike.
   */
  lemma SettlesIff(names: seq<string>, row: Record, works: Persister, steps: seq<Step<int, int>>)
    requires Names(steps) == names && Loads(works, steps, 0, row)
    ensures Settles(names, row) <==>
            forall w: Persister, ss: seq<Step<int, int>> :: Names(ss) == names && Loads(w, ss, 0, row) ==>
              (Succeeds(w, ss, 0) <==> Succeeds(works, steps, 0))
  {
    LoadedIsPossible(works, steps, 0, row);
    if Settles(names, row) {
      forall w: Persister, ss: seq<Step<int, int>> | Names(ss) == names && Loads(w, ss, 0, row)
        ensures Succeeds(w, ss, 0) <==> Succeeds(works, steps, 0)
      {
        LoadedIsPossible(w, ss, 0, row);
      }
    } else {
      var w, ss := EitherOutcome(names, row, !Succeeds(works, steps, 0));
    }
  }

  /** For example, of two steps the second fails, and nothing is stored after the first one. */
  lemma LostEndMisleads(table: seq<(string, Record)>, id: string)
    requires var works := Until(4);
             RowsOf(table, id)
             == Rows(LoggedRunFrom(works, StepsNamed(["first", "second"], 1), 0, Begin(works, 0), []).0.log)
    ensures !Succeeds(Until(4), StepsNamed(["first", "second"], 1), 0)
    ensures LoadSaga(table, id) == Some(Record("first", Completed, ""))
  {
    FailsAt(4, ["first", "second"], 1);
    LoadsCompleted(["first", "second"], 1, 1);
    LoadsLast(table, id);
  }
}
