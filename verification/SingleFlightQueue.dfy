/**
 The single-flight group with the lock as it is: first come, first served. A task that needs the
 lock asks for it and waits in a queue. A writer goes when it is first in the queue and the lock
 is free; readers go when only readers stand before them.

 The steps are those of `SingleFlight`, each taking the lock only in its turn, so that every run
 here is a run there and all that is proved about those runs holds. What the queue changes is who
 can return: a task can be lost long before the group is blocked.
 */
module SingleFlightQueue {
  import opened Wrappers
  import opened SingleFlight

  datatype Queued<V> = Queued(s: State<V>, queue: seq<Task>)

  /** A task asks for the lock, or takes a step. */
  datatype Move<V> = Ask(t: Task) | Take(step: Step<V>)

  /** The steps that take the lock. */
  predicate Locks<V>(step: Step<V>) {
    step.Look? || step.Enter? || step.Remove?
  }

  predicate Reads<V>(s: State<V>, t: Task) {
    t in s.tasks && s.tasks[t].phase.Start?
  }

  /** Only readers stand before `t`. */
  predicate ReadersTo<V>(s: State<V>, queue: seq<Task>, t: Task) {
    queue != [] && (queue[0] == t || (Reads(s, queue[0]) && ReadersTo(s, queue[1..], t)))
  }

  predicate Turn<V>(q: Queued<V>, step: Step<V>) {
    if step.Look? then ReadersTo(q.s, q.queue, step.t) else q.queue != [] && q.queue[0] == step.t
  }

  predicate Allowed<V>(q: Queued<V>, move: Move<V>) {
    match move
    case Ask(t) => t in q.s.tasks && NeedsLock(q.s.tasks[t].phase) && t !in q.queue
    case Take(step) => Enabled(q.s, step) && (Locks(step) ==> Turn(q, step))
  }

  /** The queue without the first `t` in it. */
  function Without(queue: seq<Task>, t: Task): seq<Task> {
    if queue == [] then [] else if queue[0] == t then queue[1..] else [queue[0]] + Without(queue[1..], t)
  }

  function Do<V>(q: Queued<V>, move: Move<V>): Queued<V>
    requires Allowed(q, move)
  {
    match move
    case Ask(t) => q.(queue := q.queue + [t])
    case Take(step) => Queued(Apply(q.s, step), if Locks(step) then Without(q.queue, step.t) else q.queue)
  }

  ghost predicate QPath<V>(run: seq<Queued<V>>, moves: seq<Move<V>>) {
    && |run| == |moves| + 1
    && forall i :: 0 <= i < |moves| ==> Allowed(run[i], moves[i]) && run[i + 1] == Do(run[i], moves[i])
  }

  ghost predicate QRun<V>(run: seq<Queued<V>>, moves: seq<Move<V>>) {
    QPath(run, moves) && run[0] == Queued(Init(), [])
  }

  lemma PathMore<V>(run: seq<State<V>>, steps: seq<Step<V>>, step: Step<V>)
    requires Path(run, steps) && Enabled(run[|steps|], step)
    ensures Path(run + [Apply(run[|steps|], step)], steps + [step])
  {
  }

  /** Without the queue, the first `k` moves are an interleaving of steps between the same states. */
  lemma {:induction false} Projects<V>(run: seq<Queued<V>>, moves: seq<Move<V>>, k: nat)
    returns (states: seq<State<V>>, steps: seq<Step<V>>)
    requires QPath(run, moves) && k <= |moves|
    ensures Path(states, steps) && states[0] == run[0].s && states[|steps|] == run[k].s
  {
    if k == 0 {
      states, steps := [run[0].s], [];
    } else {
      states, steps := Projects(run, moves, k - 1);
      assert Allowed(run[k - 1], moves[k - 1]) && run[k] == Do(run[k - 1], moves[k - 1]);
      if moves[k - 1].Take? {
        PathMore(states, steps, moves[k - 1].step);
        states, steps := states + [Apply(run[k - 1].s, moves[k - 1].step)], steps + [moves[k - 1].step];
      }
    }
  }

  // ---------------------------------------------------------------- invariant

  /** Those in the queue need the lock, and each stands there once. */
  predicate Waits<V>(s: State<V>, queue: seq<Task>) {
    queue == []
    || (queue[0] in s.tasks && NeedsLock(s.tasks[queue[0]].phase) && queue[0] !in queue[1..] && Waits(s, queue[1..]))
  }

  ghost predicate QOk<V>(q: Queued<V>) {
    Sound(q.s) && Waits(q.s, q.queue)
  }

  lemma {:induction false} WaitsMean<V>(s: State<V>, queue: seq<Task>, t: Task)
    requires Waits(s, queue) && t in queue
    ensures t in s.tasks && NeedsLock(s.tasks[t].phase)
  {
    if queue[0] != t {
      WaitsMean(s, queue[1..], t);
    }
  }

  /** Nobody in the queue has moved. */
  ghost predicate Still<V>(s: State<V>, s': State<V>, queue: seq<Task>) {
    forall t :: t in queue && t in s.tasks ==> t in s'.tasks && s'.tasks[t] == s.tasks[t]
  }

  lemma {:induction false} WaitsStill<V>(s: State<V>, s': State<V>, queue: seq<Task>)
    requires Waits(s, queue) && Still(s, s', queue)
    ensures Waits(s', queue)
  {
    if queue != [] {
      WaitsStill(s, s', queue[1..]);
    }
  }

  lemma {:induction false} WaitsAppend<V>(s: State<V>, queue: seq<Task>, t: Task)
    requires Waits(s, queue) && t in s.tasks && NeedsLock(s.tasks[t].phase) && t !in queue
    ensures Waits(s, queue + [t])
  {
    if queue != [] {
      WaitsAppend(s, queue[1..], t);
      assert (queue + [t])[1..] == queue[1..] + [t];
    }
  }

  lemma {:induction false} WaitsWithout<V>(s: State<V>, queue: seq<Task>, t: Task)
    requires Waits(s, queue)
    ensures Waits(s, Without(queue, t)) && t !in Without(queue, t)
    ensures forall u :: u in Without(queue, t) ==> u in queue
  {
    if queue != [] && queue[0] != t {
      WaitsWithout(s, queue[1..], t);
      assert Without(queue, t)[1..] == Without(queue[1..], t);
    }
  }

  /** A step moves its own task only. */
  lemma OthersStay<V>(s: State<V>, step: Step<V>, t: Task)
    requires Enabled(s, step) && t in s.tasks && t != step.t
    ensures t in Apply(s, step).tasks && Apply(s, step).tasks[t] == s.tasks[t]
  {
  }

  /** So those who stay in the queue do not move. */
  lemma QueueIsStill<V>(q: Queued<V>, step: Step<V>)
    requires QOk(q) && Allowed(q, Take(step))
    ensures Still(q.s, Apply(q.s, step), Do(q, Take(step)).queue)
    ensures Waits(q.s, Do(q, Take(step)).queue)
  {
    var rest := Do(q, Take(step)).queue;
    WaitsWithout(q.s, q.queue, step.t);
    forall t | t in rest && t in q.s.tasks
      ensures t in Apply(q.s, step).tasks && Apply(q.s, step).tasks[t] == q.s.tasks[t]
    {
      if t == step.t {
        WaitsMean(q.s, q.queue, t);
      } else {
        OthersStay(q.s, step, t);
      }
    }
  }

  lemma MoveKeepsOk<V>(q: Queued<V>, move: Move<V>)
    requires QOk(q) && Allowed(q, move)
    ensures QOk(Do(q, move))
  {
    match move
    case Ask(t) => WaitsAppend(q.s, q.queue, t);
    case Take(step) =>
      SoundStep(q.s, step);
      QueueIsStill(q, step);
      WaitsStill(q.s, Apply(q.s, step), Do(q, move).queue);
  }

  lemma {:induction false} QRunOk<V>(run: seq<Queued<V>>, moves: seq<Move<V>>, k: nat)
    requires QRun(run, moves) && k <= |moves|
    ensures QOk(run[k])
  {
    if k > 0 {
      QRunOk(run, moves, k - 1);
      assert Allowed(run[k - 1], moves[k - 1]) && run[k] == Do(run[k - 1], moves[k - 1]);
      MoveKeepsOk(run[k - 1], moves[k - 1]);
    }
  }

  // ------------------------------------------------------------ who is doomed

  /**
   The entry of a key: not there; there with nothing broadcast; or there with the result broadcast,
   or sure to be broadcast before the lock is free.
   */
  datatype Entry = Absent | Fresh | Stale

  function Rank(e: Entry): nat {
    match e
    case Absent => 0
    case Fresh => 1
    case Stale => 2
  }

  function EntryOf<V>(s: State<V>, key: Key): Entry {
    if key !in s.inflight then Absent
    else if s.inflight[key] < |s.chans| && s.chans[s.inflight[key]].log != [] then Stale
    else if s.writer.Some? && s.writer.value in s.tasks && s.tasks[s.writer.value].key == key then Stale
    else Fresh
  }

  /**
   What the next in the queue makes of the entry: an owner removes it; a caller inserts it, or waits
   for the result with the lock held; None if the caller comes after the broadcast and so waits for ever.
   */
  function NextEntry<V>(c: Caller<V>, key: Key, e: Entry): Option<Entry> {
    if c.key != key || c.phase.Start? then Some(e)
    else if c.phase.Sent? then Some(Absent)
    else if e.Stale? then None
    else Some(if e.Absent? then Fresh else Stale)
  }

  /** Somebody in the queue will find the entry of the key with the result broadcast already. */
  predicate Dooms<V>(s: State<V>, queue: seq<Task>, key: Key, e: Entry) {
    queue != [] &&
    if queue[0] !in s.tasks then Dooms(s, queue[1..], key, e)
    else
      match NextEntry(s.tasks[queue[0]], key, e)
      case None => true
      case Some(next) => Dooms(s, queue[1..], key, next)
  }

  /** A caller waits for a message that it has missed, or one in the queue is going to. */
  ghost predicate Doomed<V>(q: Queued<V>) {
    Blocked(q.s) || exists key :: Dooms(q.s, q.queue, key, EntryOf(q.s, key))
  }

  lemma {:induction false} DoomsMore<V>(s: State<V>, queue: seq<Task>, key: Key, e: Entry, f: Entry)
    requires Dooms(s, queue, key, e) && Rank(e) <= Rank(f)
    ensures Dooms(s, queue, key, f)
  {
    if queue[0] !in s.tasks {
      DoomsMore(s, queue[1..], key, e, f);
    } else {
      var c := s.tasks[queue[0]];
      if NextEntry(c, key, e).Some? && NextEntry(c, key, f).Some? {
        DoomsMore(s, queue[1..], key, NextEntry(c, key, e).value, NextEntry(c, key, f).value);
      }
    }
  }

  lemma {:induction false} DoomsStill<V>(s: State<V>, s': State<V>, queue: seq<Task>, key: Key, e: Entry)
    requires Waits(s, queue) && Still(s, s', queue)
    ensures Dooms(s, queue, key, e) == Dooms(s', queue, key, e)
  {
    if queue != [] {
      var next := NextEntry(s.tasks[queue[0]], key, e);
      if next.Some? {
        DoomsStill(s, s', queue[1..], key, next.value);
      }
    }
  }

  // -------------------------------------------------- steps that take the lock

  /** What the first in the queue makes of an entry is what its step does to it; without one it blocks the group. */
  lemma FirstTakes<V>(s: State<V>, step: Step<V>, key: Key)
    requires Sound(s) && Enabled(s, step) && Locks(step) && !Blocked(s)
    ensures match NextEntry(s.tasks[step.t], key, EntryOf(s, key))
            case None => step.Enter? && Blocked(Apply(s, step))
            case Some(e) => EntryOf(Apply(s, step), key) == e
  {
    TaskFact(s, step.t);
    if key in s.inflight {
      EntryFact(s, key);
    }
  }

  /** It blocks the group only so. */
  lemma BlocksOnlySo<V>(s: State<V>, step: Step<V>)
    requires Sound(s) && Enabled(s, step) && !Blocked(s) && Blocked(Apply(s, step))
    ensures step.Enter? && NextEntry(s.tasks[step.t], s.tasks[step.t].key, EntryOf(s, s.tasks[step.t].key)).None?
  {
    SlowClosedNever(s, step.t);
    if step.t in s.tasks {
      TaskFact(s, step.t);
    }
  }

  /** The other steps never take an entry back. */
  lemma OthersOnlyAdd<V>(s: State<V>, step: Step<V>, key: Key)
    requires Sound(s) && Enabled(s, step) && !Locks(step)
    ensures Rank(EntryOf(s, key)) <= Rank(EntryOf(Apply(s, step), key))
  {
    SlowClosedNever(s, step.t);
    if step.t in s.tasks {
      TaskFact(s, step.t);
    }
    if s.writer.Some? {
      TaskFact(s, s.writer.value);
    }
  }

  // ---------------------------------------------------- the doomed stay doomed

  /** The first `n` in the queue doom its `n`th, or it is lost already. */
  ghost predicate Lost<V>(q: Queued<V>, key: Key, n: nat, t: Task) {
    && t in q.s.tasks && !Served(q.s.tasks[t].phase)
    && (Blocked(q.s)
        || (0 < n <= |q.queue| && q.queue[n - 1] == t && Dooms(q.s, q.queue[..n], key, EntryOf(q.s, key))))
  }

  /** A reader that goes first takes nothing from the doom of those behind it. */
  lemma {:induction false} ReaderLeaves<V>(s: State<V>, queue: seq<Task>, n: nat, t: Task, key: Key, e: Entry)
    requires Waits(s, queue) && ReadersTo(s, queue, t) && Reads(s, t)
    requires n <= |queue| && Dooms(s, queue[..n], key, e)
    ensures 2 <= n && n - 1 <= |Without(queue, t)| && Without(queue, t)[n - 2] == queue[n - 1]
    ensures Dooms(s, Without(queue, t)[..n - 1], key, e)
    decreases |queue|
  {
    assert queue[..n][1..] == queue[1..][..n - 1];
    if queue[0] == t {
      assert Dooms(s, queue[1..][..n - 1], key, e);
    } else {
      ReaderLeaves(s, queue[1..], n - 1, t, key, e);
      var rest := Without(queue[1..], t);
      assert Without(queue, t)[..n - 1][1..] == rest[..n - 2];
    }
  }

  lemma {:induction false} WaitsFirst<V>(s: State<V>, queue: seq<Task>, n: nat)
    requires Waits(s, queue) && n <= |queue|
    ensures Waits(s, queue[..n])
    decreases n
  {
    if n > 0 {
      WaitsFirst(s, queue[1..], n - 1);
      assert queue[..n][1..] == queue[1..][..n - 1];
    }
  }

  /** A step that does not take the lock leaves the queue. */
  lemma LostBeside<V>(q: Queued<V>, step: Step<V>, key: Key, n: nat, t: Task)
    requires QOk(q) && Allowed(q, Take(step)) && !Locks(step) && Lost(q, key, n, t) && !Blocked(q.s)
    ensures Lost(Do(q, Take(step)), key, n, t)
  {
    var s', first := Apply(q.s, step), q.queue[..n];
    QueueIsStill(q, step);
    WaitsFirst(q.s, q.queue, n);
    DoomsStill(q.s, s', first, key, EntryOf(q.s, key));
    OthersOnlyAdd(q.s, step, key);
    DoomsMore(s', first, key, EntryOf(q.s, key), EntryOf(s', key));
    WaitsMean(q.s, q.queue, t);
    assert t in s'.tasks && s'.tasks[t] == q.s.tasks[t];
  }

  lemma LostBehindReader<V>(q: Queued<V>, step: Step<V>, key: Key, n: nat, t: Task)
    requires QOk(q) && Allowed(q, Take(step)) && step.Look? && Lost(q, key, n, t) && !Blocked(q.s)
    ensures n >= 1 && Lost(Do(q, Take(step)), key, n - 1, t)
  {
    var s', rest := Apply(q.s, step), Without(q.queue, step.t);
    ReaderLeaves(q.s, q.queue, n, step.t, key, EntryOf(q.s, key));
    FirstTakes(q.s, step, key);
    QueueIsStill(q, step);
    WaitsFirst(q.s, rest, n - 1);
    DoomsStill(q.s, s', rest[..n - 1], key, EntryOf(q.s, key));
    assert t in rest;
    WaitsMean(q.s, rest, t);
    assert t in s'.tasks && s'.tasks[t] == q.s.tasks[t];
  }

  lemma LostBehindWriter<V>(q: Queued<V>, step: Step<V>, key: Key, n: nat, t: Task)
    requires QOk(q) && Allowed(q, Take(step)) && (step.Enter? || step.Remove?) && Lost(q, key, n, t) && !Blocked(q.s)
    ensures n >= 1 && Lost(Do(q, Take(step)), key, n - 1, t)
  {
    var s', rest, e := Apply(q.s, step), q.queue[1..], EntryOf(q.s, key);
    assert q.queue[..n][1..] == rest[..n - 1];
    FirstTakes(q.s, step, key);
    QueueIsStill(q, step);
    if t != step.t {
      OthersStay(q.s, step, t);
    }
    var next := NextEntry(q.s.tasks[step.t], key, e);
    if next.Some? {
      WaitsFirst(q.s, rest, n - 1);
      DoomsStill(q.s, s', rest[..n - 1], key, next.value);
    }
  }

  lemma LostStays<V>(q: Queued<V>, move: Move<V>, key: Key, n: nat, t: Task) returns (m: nat)
    requires QOk(q) && Allowed(q, move) && Lost(q, key, n, t)
    ensures Lost(Do(q, move), key, m, t)
  {
    m := n;
    match move
    case Ask(u) =>
      if !Blocked(q.s) {
        assert (q.queue + [u])[..n] == q.queue[..n];
      }
    case Take(step) =>
      if Blocked(q.s) {
        BlockedStays(q.s, step);
        UnservedStays(q.s, step, t);
      } else if !Locks(step) {
        LostBeside(q, step, key, n, t);
      } else if step.Look? {
        LostBehindReader(q, step, key, n, t);
        m := n - 1;
      } else {
        LostBehindWriter(q, step, key, n, t);
        m := n - 1;
      }
  }

  /** A lost task never returns, whatever happens. */
  lemma {:induction false} LostForever<V>(
    run: seq<Queued<V>>, moves: seq<Move<V>>, k: nat, key: Key, n: nat, t: Task) returns (m: nat)
    requires QPath(run, moves) && k <= |moves| && QOk(run[0]) && Lost(run[0], key, n, t)
    ensures QOk(run[k]) && Lost(run[k], key, m, t) && !Returned(run[k].s, t)
  {
    m := n;
    if k > 0 {
      var before := LostForever(run, moves, k - 1, key, n, t);
      assert Allowed(run[k - 1], moves[k - 1]) && run[k] == Do(run[k - 1], moves[k - 1]);
      MoveKeepsOk(run[k - 1], moves[k - 1]);
      m := LostStays(run[k - 1], moves[k - 1], key, before, t);
    }
  }

  /** When the group is doomed, the last in the queue or the holder of the lock is lost. */
  lemma DoomedLoses<V>(q: Queued<V>) returns (key: Key, n: nat, t: Task)
    requires QOk(q) && Doomed(q)
    ensures Lost(q, key, n, t)
  {
    key, n := "", 0;
    if Blocked(q.s) {
      t := q.s.writer.value;
    } else {
      key :| Dooms(q.s, q.queue, key, EntryOf(q.s, key));
      n, t := |q.queue|, q.queue[|q.queue| - 1];
      assert q.queue[..n] == q.queue;
      WaitsMean(q.s, q.queue, t);
    }
  }

  // --------------------------------------------------- without doom all return

  ghost predicate QCanReturn<V(!new)>(q: Queued<V>, t: Task) {
    exists run: seq<Queued<V>>, moves: seq<Move<V>> ::
      QPath(run, moves) && run[0] == q && Returned(run[|moves|].s, t)
  }

  lemma QPathFrom<V>(q: Queued<V>, move: Move<V>, run: seq<Queued<V>>, moves: seq<Move<V>>)
    requires QPath(run, moves) && Allowed(q, move) && run[0] == Do(q, move)
    ensures QPath([q] + run, [move] + moves)
  {
    var longer, all := [q] + run, [move] + moves;
    forall i | 0 <= i < |all| ensures Allowed(longer[i], all[i]) && longer[i + 1] == Do(longer[i], all[i]) {
      if i > 0 {
        assert longer[i] == run[i - 1] && longer[i + 1] == run[i] && all[i] == moves[i - 1];
      }
    }
  }

  lemma QCanReturnAfter<V(!new)>(q: Queued<V>, move: Move<V>, t: Task)
    requires Allowed(q, move) && QCanReturn(Do(q, move), t)
    ensures QCanReturn(q, t)
  {
    var run: seq<Queued<V>>, moves: seq<Move<V>> :|
      QPath(run, moves) && run[0] == Do(q, move) && Returned(run[|moves|].s, t);
    QPathFrom(q, move, run, moves);
    assert ([q] + run)[|[move] + moves|] == run[|moves|];
  }

  /** With nobody in the queue, a step that takes the lock is asked for just before. */
  lemma LiftStep<V(!new)>(s: State<V>, step: Step<V>, t: Task)
    requires Enabled(s, step) && QCanReturn(Queued(Apply(s, step), []), t)
    ensures QCanReturn(Queued(s, []), t)
  {
    if Locks(step) {
      var asked := Queued(s, [step.t]);
      assert Do(asked, Take(step)) == Queued(Apply(s, step), []);
      QCanReturnAfter(asked, Take(step), t);
      assert Do(Queued(s, []), Ask(step.t)) == asked;
      QCanReturnAfter(Queued(s, []), Ask(step.t), t);
    } else {
      QCanReturnAfter(Queued(s, []), Take(step), t);
    }
  }

  lemma {:induction false} Lifts<V(!new)>(run: seq<State<V>>, steps: seq<Step<V>>, k: nat, t: Task)
    requires Path(run, steps) && k <= |steps| && Returned(run[|steps|], t)
    ensures QCanReturn(Queued(run[k], []), t)
    decreases |steps| - k
  {
    if k == |steps| {
      var here: seq<Queued<V>>, moves: seq<Move<V>> := [Queued(run[k], [])], [];
      assert QPath(here, moves) && here[|moves|].s == run[k];
    } else {
      Lifts(run, steps, k + 1, t);
      LiftStep(run[k], steps[k], t);
    }
  }

  /** With nobody in the queue and the lock free, every task can return. */
  lemma EmptyCan<V(!new)>(s: State<V>, t: Task, v: V)
    requires Sound(s) && s.writer.None? && t in s.tasks
    ensures QCanReturn(Queued(s, []), t)
  {
    FreeCan(s, t, v);
    var run: seq<State<V>>, steps: seq<Step<V>> :| Path(run, steps) && run[0] == s && Returned(run[|steps|], t);
    Lifts(run, steps, 0, t);
  }

  /** The step of the first in the queue. */
  function FirstStep<V>(q: Queued<V>): Step<V>
    requires q.queue != [] && Waits(q.s, q.queue)
  {
    var t := q.queue[0];
    match q.s.tasks[t].phase
    case Start => Look(t)
    case Slow => Enter(t)
    case _ => Remove(t)
  }

  lemma FirstMay<V>(q: Queued<V>)
    requires QOk(q) && q.queue != [] && q.s.writer.None?
    ensures Allowed(q, Take(FirstStep(q))) && Locks(FirstStep(q)) && FirstStep(q).t == q.queue[0]
    ensures Do(q, Take(FirstStep(q))).queue == q.queue[1..]
  {
    var t := q.queue[0];
    if q.s.tasks[t].key in q.s.inflight {
      EntryFact(q.s, q.s.tasks[t].key);
    }
  }

  /** It does not doom the group. */
  lemma FirstIsSafe<V>(q: Queued<V>)
    requires QOk(q) && q.queue != [] && q.s.writer.None? && !Doomed(q)
    ensures Allowed(q, Take(FirstStep(q))) && !Doomed(Do(q, Take(FirstStep(q))))
  {
    FirstMay(q);
    var step, rest := FirstStep(q), q.queue[1..];
    var s', c := Apply(q.s, step), q.s.tasks[q.queue[0]];
    QueueIsStill(q, step);
    forall key ensures !Dooms(s', rest, key, EntryOf(s', key)) {
      assert !Dooms(q.s, q.queue, key, EntryOf(q.s, key));
      FirstTakes(q.s, step, key);
      DoomsStill(q.s, s', rest, key, EntryOf(s', key));
    }
    assert !Dooms(q.s, q.queue, c.key, EntryOf(q.s, c.key));
    if Blocked(s') {
      BlocksOnlySo(q.s, step);
    }
  }

  /** The next step towards the release of the lock: of the owner of the channel, and then of the holder. */
  function Releases<V>(s: State<V>, v: V): Step<V>
    requires Inv(s) && s.writer.Some?
  {
    var u := WriterOwner(s);
    if s.tasks[u].phase.Sent? then SlowRecv(s.writer.value) else Forward(s, u, v)
  }

  /** It changes no entry but for the holder's own key, which counts as broadcast already. */
  lemma ReleaseIsSafe<V>(q: Queued<V>, v: V)
    requires QOk(q) && q.s.writer.Some? && !Doomed(q)
    ensures var step := Releases(q.s, v);
            Allowed(q, Take(step)) && !Locks(step) && !Doomed(Do(q, Take(step)))
  {
    var step := ReleaseMay(q.s, v);
    var s' := Apply(q.s, step);
    QueueIsStill(q, step);
    forall key ensures !Dooms(s', q.queue, key, EntryOf(s', key)) {
      assert !Dooms(q.s, q.queue, key, EntryOf(q.s, key));
      ReleaseKeepsEntries(q.s, v, key);
      DoomsStill(q.s, s', q.queue, key, EntryOf(s', key));
    }
    if Blocked(s') {
      BlocksOnlySo(q.s, step);
    }
  }

  lemma ReleaseMay<V>(s: State<V>, v: V) returns (step: Step<V>)
    requires Sound(s) && s.writer.Some? && !Blocked(s)
    ensures step == Releases(s, v) && Enabled(s, step) && !Locks(step)
  {
    var w, u := s.writer.value, WriterOwner(s);
    TaskFact(s, w);
    TaskFact(s, u);
    step := Releases(s, v);
  }

  lemma ReleaseKeepsEntries<V>(s: State<V>, v: V, key: Key)
    requires Sound(s) && s.writer.Some? && !Blocked(s) && Enabled(s, Releases(s, v))
    ensures EntryOf(Apply(s, Releases(s, v)), key) == EntryOf(s, key)
  {
    var w, u := s.writer.value, WriterOwner(s);
    TaskFact(s, w);
    TaskFact(s, u);
    if key in s.inflight {
      EntryFact(s, key);
    }
  }

  /** How far the lock is from being free. */
  function Distance<V>(s: State<V>): nat
    requires Inv(s)
  {
    if s.writer.Some? then Left(s.tasks[WriterOwner(s)].phase) else 0
  }

  lemma ReleaseIsNearer<V>(s: State<V>, v: V)
    requires Sound(s) && s.writer.Some? && !Blocked(s) && Enabled(s, Releases(s, v)) && Inv(Apply(s, Releases(s, v)))
    ensures Distance(Apply(s, Releases(s, v))) < Distance(s)
  {
    var w, u := s.writer.value, WriterOwner(s);
    TaskFact(s, w);
    TaskFact(s, u);
    if !s.tasks[u].phase.Sent? {
      ForwardEffect(s, u, v);
    }
  }

  /** The queue is served in its order, and then everybody returns. */
  lemma {:induction false} SafeCan<V(!new)>(q: Queued<V>, t: Task, v: V)
    requires QOk(q) && !Doomed(q) && t in q.s.tasks
    ensures QCanReturn(q, t)
    decreases |q.queue|, Distance(q.s)
  {
    if q.s.writer.Some? {
      ReleaseIsSafe(q, v);
      SafeStep(q, Releases(q.s, v), t);
      ReleaseIsNearer(q.s, v);
      SafeCan(Do(q, Take(Releases(q.s, v))), t, v);
      QCanReturnAfter(q, Take(Releases(q.s, v)), t);
    } else if q.queue == [] {
      EmptyCan(q.s, t, v);
    } else {
      FirstMay(q);
      FirstIsSafe(q);
      SafeStep(q, FirstStep(q), t);
      SafeCan(Do(q, Take(FirstStep(q))), t, v);
      QCanReturnAfter(q, Take(FirstStep(q)), t);
    }
  }

  lemma SafeStep<V>(q: Queued<V>, step: Step<V>, t: Task)
    requires QOk(q) && Allowed(q, Take(step)) && t in q.s.tasks
    ensures QOk(Do(q, Take(step))) && t in Do(q, Take(step)).s.tasks
  {
    MoveKeepsOk(q, Take(step));
    if t != step.t {
      OthersStay(q.s, step, t);
    }
  }

  // -------------------------------------------------------------- the theorem

  /**
   In every state of every run, every caller has a continuation in which it returns if and only if
   the group is not doomed: the lock is not held by a caller that has missed its message, and for no
   key the queue, served in its order, brings a caller to the lock after the result was broadcast
   and before the owner removes the entry.
   */
  lemma EveryoneCanReturnIff<V(!new)>(run: seq<Queued<V>>, moves: seq<Move<V>>, k: nat, v: V)
    requires QRun(run, moves) && k <= |moves|
    ensures (forall t :: t in run[k].s.tasks ==> QCanReturn(run[k], t)) <==> !Doomed(run[k])
  {
    var q := run[k];
    QRunOk(run, moves, k);
    if Doomed(q) {
      var key, n, t := DoomedLoses(q);
      if QCanReturn(q, t) {
        var more: seq<Queued<V>>, next: seq<Move<V>> :|
          QPath(more, next) && more[0] == q && Returned(more[|next|].s, t);
        var m := LostForever(more, next, |next|, key, n, t);
      }
    } else {
      forall t | t in q.s.tasks ensures QCanReturn(q, t) {
        SafeCan(q, t, v);
      }
    }
  }

  lemma QRunExtends<V>(run: seq<Queued<V>>, moves: seq<Move<V>>, move: Move<V>)
    returns (run': seq<Queued<V>>, moves': seq<Move<V>>)
    requires QRun(run, moves) && Allowed(run[|moves|], move)
    ensures QRun(run', moves') && |moves'| == |moves| + 1 && run'[|moves'|] == Do(run[|moves|], move)
  {
    run', moves' := run + [Do(run[|moves|], move)], moves + [move];
  }

  /** A caller looks the key up, finds nothing, and asks for the lock to insert it. */
  lemma Misses<V>(run: seq<Queued<V>>, moves: seq<Move<V>>, t: Task)
    returns (run': seq<Queued<V>>, moves': seq<Move<V>>)
    requires QRun(run, moves) && run[|moves|].queue == [] && t !in run[|moves|].s.tasks
    requires run[|moves|].s.writer.None? && run[|moves|].s.inflight == map[]
    ensures QRun(run', moves') && run'[|moves'|].queue == []
    ensures run'[|moves'|].s == run[|moves|].s.(tasks := run[|moves|].s.tasks[t := Caller("key", Slow)])
  {
    run', moves' := QRunExtends(run, moves, Take(Call(t, "key")));
    run', moves' := QRunExtends(run', moves', Ask(t));
    run', moves' := QRunExtends(run', moves', Take(Look(t)));
  }

  /**
   Three callers are enough, whatever the schedule from there: all miss the key and ask for the lock.
   The first inserts and begins to execute. Nothing has been broadcast, no lock is held, and the third
   is lost: it comes to the lock after the second, which waits for the broadcast, and before the owner.
   */
  lemma ThreeCallersAreDoomed<V>() returns (run: seq<Queued<V>>, moves: seq<Move<V>>)
    ensures QRun(run, moves) && Doomed(run[|moves|]) && run[|moves|].s.writer.None?
    ensures run[|moves|].s.tasks
            == map[0 := Caller("key", Running(0)), 1 := Caller("key", Slow), 2 := Caller("key", Slow)]
  {
    run, moves := [Queued(Init(), [])], [];
    run, moves := Misses(run, moves, 0);
    run, moves := Misses(run, moves, 1);
    run, moves := Misses(run, moves, 2);
    run, moves := QRunExtends(run, moves, Ask(0));
    run, moves := QRunExtends(run, moves, Ask(1));
    run, moves := QRunExtends(run, moves, Ask(2));
    assert run[|moves|].queue == [0, 1, 2];
    run, moves := QRunExtends(run, moves, Take(Enter(0)));
    var q := run[|moves|];
    assert q.queue == [1, 2] && EntryOf(q.s, "key") == Fresh;
    assert Dooms(q.s, [2], "key", Stale) && [1, 2][1..] == [2];
    assert Dooms(q.s, q.queue, "key", EntryOf(q.s, "key"));
  }
}
