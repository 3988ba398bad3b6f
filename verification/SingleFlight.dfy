/**
 The single-flight group (rszero/src/concurrent/singleflight.rs) as a step system: any
 number of tasks run `work`, and each step is what one task does between two points
 where another task can be scheduled.

 A broadcast channel is the list of the messages sent so far and the set of its live
 sender handles; a receiver remembers how many messages had been sent when it subscribed.
 */
module SingleFlight {
  import opened Wrappers

  type Task = nat
  type Key = string

  /** The two places that hold a channel's sender: the shared map and the frame of the task that made it. */
  datatype Sender = InMap | InFrame

  datatype Channel<V> = Channel(key: Key, owner: Task, log: seq<V>, senders: set<Sender>)

  /** Where a result comes from: the caller's own execution, or a channel subscribed to after `next` messages. */
  datatype Origin = Own(chan: nat) | Subscribed(chan: nat, next: nat)

  /** A task's program counter in `work`. */
  datatype Phase<V> =
    | Start                              // about to look the key up under the read lock
    | FastWait(chan: nat, next: nat)     // waiting on a channel, no lock held
    | Slow                               // about to take the write lock
    | SlowWait(chan: nat, next: nat)     // waiting on a channel with the write lock held
    | Running(chan: nat)                 // executing `f`
    | Computed(chan: nat, result: V)     // `f` is done, nothing sent yet
    | Sent(chan: nat, result: V)         // result broadcast, entry still in the map
    | Removed(chan: nat, result: V)      // entry removed, about to drop the sender and return
    | Done(result: V, origin: Origin)

  datatype Caller<V> = Caller(key: Key, phase: Phase<V>)

  datatype State<V> = State(
    inflight: map<Key, nat>,
    chans: seq<Channel<V>>,
    tasks: map<Task, Caller<V>>,
    writer: Option<Task>)

  datatype Step<V> =
    | Call(t: Task, key: Key)
    | Look(t: Task)
    | FastRecv(t: Task)
    | FastClosed(t: Task)
    | Enter(t: Task)
    | SlowRecv(t: Task)
    | SlowClosed(t: Task)
    | Finish(t: Task, result: V)
    | Broadcast(t: Task)
    | Remove(t: Task)
    | Return(t: Task)

  function Init<V>(): State<V> {
    State(map[], [], map[], None)
  }

  // --------------------------------------------------------------------- steps

  /** A receiver of an existing channel has an unread message. */
  predicate Unread<V>(s: State<V>, c: nat, next: nat) {
    c < |s.chans| && next < |s.chans[c].log|
  }

  /** A receiver of an existing channel has read everything, and every sender is gone. */
  predicate Closed<V>(s: State<V>, c: nat, next: nat) {
    c < |s.chans| && next >= |s.chans[c].log| && s.chans[c].senders == {}
  }

  predicate Enabled<V>(s: State<V>, step: Step<V>) {
    match step
    case Call(t, _) => t !in s.tasks
    case Look(t) => t in s.tasks && s.tasks[t].phase.Start? && s.writer.None? && EntryExists(s, t)
    case FastRecv(t) =>
      t in s.tasks && s.tasks[t].phase.FastWait? && Unread(s, s.tasks[t].phase.chan, s.tasks[t].phase.next)
    case FastClosed(t) =>
      t in s.tasks && s.tasks[t].phase.FastWait? && Closed(s, s.tasks[t].phase.chan, s.tasks[t].phase.next)
    case Enter(t) => t in s.tasks && s.tasks[t].phase.Slow? && s.writer.None? && EntryExists(s, t)
    case SlowRecv(t) =>
      t in s.tasks && s.tasks[t].phase.SlowWait? && Unread(s, s.tasks[t].phase.chan, s.tasks[t].phase.next)
    case SlowClosed(t) =>
      t in s.tasks && s.tasks[t].phase.SlowWait? && Closed(s, s.tasks[t].phase.chan, s.tasks[t].phase.next)
    case Finish(t, _) => t in s.tasks && s.tasks[t].phase.Running?
    case Broadcast(t) => t in s.tasks && s.tasks[t].phase.Computed? && s.tasks[t].phase.chan < |s.chans|
    case Remove(t) => t in s.tasks && s.tasks[t].phase.Sent? && s.writer.None? && EntryExists(s, t)
    case Return(t) => t in s.tasks && s.tasks[t].phase.Removed? && s.tasks[t].phase.chan < |s.chans|
  }

  /** Channel ids stand for references: an entry of the map always denotes a channel. */
  predicate EntryExists<V>(s: State<V>, t: Task)
    requires t in s.tasks
  {
    s.tasks[t].key in s.inflight ==> s.inflight[s.tasks[t].key] < |s.chans|
  }

  function SetPhase<V>(s: State<V>, t: Task, phase: Phase<V>): State<V>
    requires t in s.tasks
  {
    s.(tasks := s.tasks[t := Caller(s.tasks[t].key, phase)])
  }

  /** Insert a fresh channel for the task's key and start executing. */
  function Insert<V>(s: State<V>, t: Task): State<V>
    requires t in s.tasks
  {
    var key := s.tasks[t].key;
    var c := |s.chans|;
    State(s.inflight[key := c], s.chans + [Channel(key, t, [], {InMap, InFrame})],
          s.tasks[t := Caller(key, Running(c))], None)
  }

  function DropSender<V>(s: State<V>, c: nat, sender: Sender): State<V>
    requires c < |s.chans|
  {
    s.(chans := s.chans[c := s.chans[c].(senders := s.chans[c].senders - {sender})])
  }

  function Apply<V>(s: State<V>, step: Step<V>): State<V>
    requires Enabled(s, step)
  {
    var t := step.t;
    match step
    case Call(_, key) => s.(tasks := s.tasks[t := Caller(key, Start)])
    case Look(_) =>
      var key := s.tasks[t].key;
      if key in s.inflight then SetPhase(s, t, FastWait(s.inflight[key], |s.chans[s.inflight[key]].log|))
      else SetPhase(s, t, Slow)
    case FastRecv(_) =>
      var FastWait(c, n) := s.tasks[t].phase;
      SetPhase(s, t, Done(s.chans[c].log[n], Subscribed(c, n)))
    case FastClosed(_) => SetPhase(s, t, Slow)
    case Enter(_) =>
      var key := s.tasks[t].key;
      if key in s.inflight then
        SetPhase(s, t, SlowWait(s.inflight[key], |s.chans[s.inflight[key]].log|)).(writer := Some(t))
      else Insert(s, t)
    case SlowRecv(_) =>
      var SlowWait(c, n) := s.tasks[t].phase;
      SetPhase(s, t, Done(s.chans[c].log[n], Subscribed(c, n))).(writer := None)
    case SlowClosed(_) => Insert(s, t)
    case Finish(_, result) => SetPhase(s, t, Computed(s.tasks[t].phase.chan, result))
    case Broadcast(_) =>
      var Computed(c, v) := s.tasks[t].phase;
      SetPhase(s, t, Sent(c, v)).(chans := s.chans[c := s.chans[c].(log := s.chans[c].log + [v])])
    case Remove(_) =>
      var key, Sent(c, v) := s.tasks[t].key, s.tasks[t].phase;
      var s1 := if key in s.inflight then DropSender(s, s.inflight[key], InMap) else s;
      SetPhase(s1, t, Removed(c, v)).(inflight := s.inflight - {key})
    case Return(_) =>
      var Removed(c, v) := s.tasks[t].phase;
      SetPhase(DropSender(s, c, InFrame), t, Done(v, Own(c)))
  }

  // ---------------------------------------------------------------- invariant

  /** The task executes the work of channel `c`: it is between its insert and its remove. */
  predicate Executes<V>(phase: Phase<V>, c: nat) {
    (phase.Running? || phase.Computed? || phase.Sent?) && phase.chan == c
  }

  /** The messages of a task's channel, as far as the task has got. */
  ghost predicate LogFits<V>(phase: Phase<V>, log: seq<V>) {
    match phase
    case Running(_) => log == []
    case Computed(_, _) => log == []
    case Sent(_, v) => log == [v]
    case Removed(_, v) => log == [v]
    case Done(v, _) => log == [v]
    case _ => true
  }

  /** `c` is the channel that `t` made, and holds what `t` has sent. */
  ghost predicate Owns<V>(s: State<V>, t: Task, c: nat)
    requires t in s.tasks
  {
    && c < |s.chans| && s.chans[c].owner == t && s.chans[c].key == s.tasks[t].key
    && LogFits(s.tasks[t].phase, s.chans[c].log)
  }

  ghost predicate TaskOk<V>(s: State<V>, t: Task)
    requires t in s.tasks
  {
    var key := s.tasks[t].key;
    match s.tasks[t].phase
    case Start => true
    case Slow => true
    case FastWait(c, n) => c < |s.chans| && s.chans[c].key == key && n <= |s.chans[c].log|
    case SlowWait(c, n) =>
      && c < |s.chans| && n <= |s.chans[c].log|
      && s.writer == Some(t) && key in s.inflight && s.inflight[key] == c
    case Running(c) => Owns(s, t, c) && key in s.inflight && s.inflight[key] == c
    case Computed(c, _) => Owns(s, t, c) && key in s.inflight && s.inflight[key] == c
    case Sent(c, _) => Owns(s, t, c) && key in s.inflight && s.inflight[key] == c
    case Removed(c, _) => Owns(s, t, c)
    case Done(v, Own(c)) => Owns(s, t, c)
    case Done(v, Subscribed(c, n)) =>
      c < |s.chans| && s.chans[c].key == key && n == 0 && s.chans[c].log == [v]
  }

  ghost predicate EntryOk<V>(s: State<V>, key: Key)
    requires key in s.inflight
  {
    var c := s.inflight[key];
    && c < |s.chans| && s.chans[c].key == key && InMap in s.chans[c].senders
    && s.chans[c].owner in s.tasks && s.tasks[s.chans[c].owner].key == key
    && Executes(s.tasks[s.chans[c].owner].phase, c)
  }

  ghost predicate Inv<V>(s: State<V>) {
    && (forall t :: t in s.tasks ==> TaskOk(s, t))
    && (forall key :: key in s.inflight ==> EntryOk(s, key))
    && (forall c :: 0 <= c < |s.chans| ==> |s.chans[c].log| <= 1)
    && (s.writer.Some? ==> s.writer.value in s.tasks && s.tasks[s.writer.value].phase.SlowWait?)
  }

  /** The invariant, for one task and for one key. */
  lemma TaskFact<V>(s: State<V>, t: Task)
    requires Inv(s) && t in s.tasks
    ensures TaskOk(s, t)
  {
  }

  lemma EntryFact<V>(s: State<V>, key: Key)
    requires Inv(s) && key in s.inflight
    ensures EntryOk(s, key)
  {
  }

  // ------------------------------------------- every step keeps the invariant

  /** A step that only moves one task, in and out of the write lock as its phase says. */
  lemma MoveKeeps<V>(s: State<V>, t: Task, phase: Phase<V>, writer: Option<Task>)
    requires Inv(s) && t in s.tasks
    requires forall c :: Executes(s.tasks[t].phase, c) ==> Executes(phase, c)
    requires phase.SlowWait? ==> s.writer.None?
    requires writer == if phase.SlowWait? then Some(t) else if s.tasks[t].phase.SlowWait? then None else s.writer
    requires TaskOk(SetPhase(s, t, phase).(writer := writer), t)
    ensures Inv(SetPhase(s, t, phase).(writer := writer))
  {
    var s' := SetPhase(s, t, phase).(writer := writer);
    forall u | u in s'.tasks
      ensures TaskOk(s', u)
    {
      TaskFact(s, u);
    }
    forall key | key in s'.inflight
      ensures EntryOk(s', key)
    {
      EntryFact(s, key);
    }
  }

  lemma CallKeeps<V>(s: State<V>, t: Task, key: Key)
    requires Inv(s) && t !in s.tasks
    ensures Inv(Apply(s, Call(t, key)))
  {
    var s' := Apply(s, Call(t, key));
    forall u | u in s'.tasks
      ensures TaskOk(s', u)
    {
      assert u != t ==> TaskOk(s, u);
    }
    forall k | k in s'.inflight
      ensures EntryOk(s', k)
    {
      EntryFact(s, k);
    }
  }

  lemma MovesKeep<V>(s: State<V>, step: Step<V>)
    requires Inv(s) && Enabled(s, step)
    requires step.Look? || step.FastRecv? || step.FastClosed? || step.SlowRecv? || step.Finish?
             || (step.Enter? && s.tasks[step.t].key in s.inflight)
    ensures Inv(Apply(s, step))
  {
    var t, s' := step.t, Apply(s, step);
    TaskFact(s, t);
    assert s.tasks[t].key in s.inflight ==> EntryOk(s, s.tasks[t].key);
    MoveKeeps(s, t, s'.tasks[t].phase, s'.writer);
    assert s' == SetPhase(s, t, s'.tasks[t].phase).(writer := s'.writer);
  }

  /** Inserting under the write lock, where the key has no entry. */
  lemma InsertKeeps<V>(s: State<V>, t: Task)
    requires Inv(s) && t in s.tasks && s.tasks[t].phase.Slow? && s.writer.None? && s.tasks[t].key !in s.inflight
    ensures Inv(Insert(s, t))
  {
    var s' := Insert(s, t);
    forall u | u in s'.tasks
      ensures TaskOk(s', u)
    {
      TaskFact(s, u);
    }
    forall key | key in s'.inflight
      ensures EntryOk(s', key)
    {
      if key in s.inflight {
        EntryFact(s, key);
      }
    }
  }

  /** Two tasks never own the same channel, and a subscriber's channel has been broadcast on. */
  lemma BroadcastKeeps<V>(s: State<V>, t: Task)
    requires Inv(s) && Enabled(s, Broadcast(t))
    ensures Inv(Apply(s, Broadcast(t)))
  {
    var s' := Apply(s, Broadcast(t));
    var c := s.tasks[t].phase.chan;
    TaskFact(s, t);
    assert s'.chans[c].log == [s.tasks[t].phase.result];
    forall u | u in s'.tasks
      ensures TaskOk(s', u)
    {
      TaskFact(s, u);
    }
    forall key | key in s'.inflight
      ensures EntryOk(s', key)
    {
      EntryFact(s, key);
    }
  }

  lemma RemoveKeeps<V>(s: State<V>, t: Task)
    requires Inv(s) && Enabled(s, Remove(t))
    ensures Inv(Apply(s, Remove(t)))
  {
    var s' := Apply(s, Remove(t));
    TaskFact(s, t);
    forall u | u in s'.tasks
      ensures TaskOk(s', u)
    {
      TaskFact(s, u);
      EntryFact(s, s.tasks[t].key);
    }
    forall key | key in s'.inflight
      ensures EntryOk(s', key)
    {
      EntryFact(s, key);
    }
  }

  lemma ReturnKeeps<V>(s: State<V>, t: Task)
    requires Inv(s) && Enabled(s, Return(t))
    ensures Inv(Apply(s, Return(t)))
  {
    var s' := Apply(s, Return(t));
    TaskFact(s, t);
    forall u | u in s'.tasks
      ensures TaskOk(s', u)
    {
      TaskFact(s, u);
    }
    forall key | key in s'.inflight
      ensures EntryOk(s', key)
    {
      EntryFact(s, key);
    }
  }

  /** A waiter that holds the write lock keeps its channel in the map, so the channel cannot close under it. */
  lemma SlowClosedNever<V>(s: State<V>, t: Task)
    requires Inv(s)
    ensures !Enabled(s, SlowClosed(t))
  {
    if t in s.tasks && s.tasks[t].phase.SlowWait? {
      TaskFact(s, t);
      EntryFact(s, s.tasks[t].key);
    }
  }

  lemma StepKeeps<V>(s: State<V>, step: Step<V>)
    requires Inv(s) && Enabled(s, step)
    ensures Inv(Apply(s, step))
  {
    match step
    case Call(t, key) => CallKeeps(s, t, key);
    case Enter(t) => if s.tasks[t].key in s.inflight { MovesKeep(s, step); } else { InsertKeeps(s, t); }
    case SlowClosed(t) => SlowClosedNever(s, t);
    case Broadcast(t) => BroadcastKeeps(s, t);
    case Remove(t) => RemoveKeeps(s, t);
    case Return(t) => ReturnKeeps(s, t);
    case _ => MovesKeep(s, step);
  }

  // ---------------------------------------------------------------------- runs

  /** The states of an interleaving and the steps between them. */
  ghost predicate Path<V>(run: seq<State<V>>, steps: seq<Step<V>>) {
    && |run| == |steps| + 1
    && forall i :: 0 <= i < |steps| ==> Enabled(run[i], steps[i]) && run[i + 1] == Apply(run[i], steps[i])
  }

  /** An interleaving from the empty group. */
  ghost predicate Run<V>(run: seq<State<V>>, steps: seq<Step<V>>) {
    Path(run, steps) && run[0] == Init()
  }

  lemma {:induction false} RunKeeps<V>(run: seq<State<V>>, steps: seq<Step<V>>, k: nat)
    requires Run(run, steps) && k <= |steps|
    ensures Inv(run[k])
  {
    if k > 0 {
      RunKeeps(run, steps, k - 1);
      StepKeeps(run[k - 1], steps[k - 1]);
    }
  }

  predicate Executing<V>(s: State<V>, t: Task) {
    t in s.tasks && (s.tasks[t].phase.Running? || s.tasks[t].phase.Computed? || s.tasks[t].phase.Sent?)
  }

  /**
   In every state of every run, no two tasks execute the work of one key at a time, and the
   keys in the map are exactly those whose work is being executed.
   */
  lemma OneExecutionPerKey<V>(run: seq<State<V>>, steps: seq<Step<V>>, k: nat)
    requires Run(run, steps) && k <= |steps|
    ensures forall t, u ::
              (Executing(run[k], t) && Executing(run[k], u) && run[k].tasks[t].key == run[k].tasks[u].key ==> t == u)
    ensures forall key :: key in run[k].inflight <==>
                          exists t :: Executing(run[k], t) && run[k].tasks[t].key == key
  {
    RunKeeps(run, steps, k);
    var s := run[k];
    forall t, u | Executing(s, t) && Executing(s, u) && s.tasks[t].key == s.tasks[u].key
      ensures t == u
    {
      assert TaskOk(s, t) && TaskOk(s, u);
    }
    forall key
      ensures key in s.inflight <==> exists t :: Executing(s, t) && s.tasks[t].key == key
    {
      if key in s.inflight {
        EntryFact(s, key);
        assert Executing(s, s.chans[s.inflight[key]].owner);
      }
      if t :| Executing(s, t) && s.tasks[t].key == key {
        TaskFact(s, t);
      }
    }
  }

  /** The remove at the end of `work` deletes the entry that the same task inserted, and nothing else. */
  lemma RemovesOwnEntry<V>(run: seq<State<V>>, steps: seq<Step<V>>, k: nat)
    requires Run(run, steps) && k < |steps| && steps[k].Remove?
    ensures var t, s := steps[k].t, run[k];
            var key := s.tasks[t].key;
            && key in s.inflight && s.inflight[key] == s.tasks[t].phase.chan
            && s.chans[s.inflight[key]].owner == t
            && run[k + 1].inflight == s.inflight - {key}
  {
    RunKeeps(run, steps, k);
    TaskFact(run[k], steps[k].t);
  }

  predicate WaitsOn<V>(s: State<V>, t: Task, c: nat) {
    && t in s.tasks && c < |s.chans|
    && (s.tasks[t].phase == FastWait(c, 0) || s.tasks[t].phase == SlowWait(c, 0))
  }

  /** The task computed `v` itself. */
  ghost predicate HasResult<V>(phase: Phase<V>, v: V) {
    match phase
    case Computed(_, w) => w == v
    case Sent(_, w) => w == v
    case Removed(_, w) => w == v
    case Done(w, Own(_)) => w == v
    case _ => false
  }

  lemma FinishStep<V>(run: seq<State<V>>, steps: seq<Step<V>>, k: nat, t: Task, v: V)
    requires Path(run, steps) && k < |steps| && t in run[k + 1].tasks && HasResult(run[k + 1].tasks[t].phase, v)
    ensures steps[k] == Finish(t, v) || (t in run[k].tasks && HasResult(run[k].tasks[t].phase, v))
  {
    assert run[k + 1] == Apply(run[k], steps[k]);
  }

  lemma {:induction false} FinishedBy<V>(run: seq<State<V>>, steps: seq<Step<V>>, k: nat, t: Task, v: V)
    returns (i: nat)
    requires Run(run, steps) && k <= |steps| && t in run[k].tasks && HasResult(run[k].tasks[t].phase, v)
    ensures i < k && steps[i] == Finish(t, v)
    decreases k
  {
    FinishStep(run, steps, k - 1, t, v);
    if steps[k - 1] == Finish(t, v) {
      i := k - 1;
    } else {
      i := FinishedBy(run, steps, k - 1, t, v);
    }
  }

  /** A task starts to wait at the end of the messages sent so far. */
  lemma WaitsStep<V>(s: State<V>, step: Step<V>, t: Task, c: nat)
    requires Inv(s) && Enabled(s, step) && WaitsOn(Apply(s, step), t, c) && Apply(s, step).chans[c].log != []
    ensures WaitsOn(s, t, c)
  {
    if t in s.tasks {
      TaskFact(s, t);
    }
  }

  /** A receiver that had missed no message was there before the broadcast. */
  lemma {:induction false} WaitedBefore<V>(run: seq<State<V>>, steps: seq<Step<V>>, k: nat, t: Task, c: nat)
    returns (i: nat)
    requires Run(run, steps) && k <= |steps| && WaitsOn(run[k], t, c)
    ensures i <= k && WaitsOn(run[i], t, c) && run[i].chans[c].log == []
  {
    if run[k].chans[c].log == [] {
      i := k;
    } else {
      RunKeeps(run, steps, k - 1);
      WaitsStep(run[k - 1], steps[k - 1], t, c);
      i := WaitedBefore(run, steps, k - 1, t, c);
    }
  }

  /** Only the task that computed a result sends it. */
  lemma LogStep<V>(s: State<V>, step: Step<V>, c: nat, v: V)
    requires Enabled(s, step) && c < |Apply(s, step).chans| && Apply(s, step).chans[c].log == [v]
    requires c < |s.chans| ==> s.chans[c].log != [v]
    ensures step.Broadcast? && s.tasks[step.t].phase == Computed(c, v)
  {
    if step.Broadcast? {
      var Computed(d, w) := s.tasks[step.t].phase;
      assert d == c;
      assert (s.chans[c].log + [w])[|s.chans[c].log|] == w;
    }
  }

  /** A message is broadcast by the owner of its channel, after it has computed it. */
  lemma {:induction false} BroadcastBetween<V>(
    run: seq<State<V>>, steps: seq<Step<V>>, i: nat, k: nat, c: nat, v: V) returns (j: nat)
    requires Run(run, steps) && i <= k <= |steps| && c < |run[i].chans| && run[i].chans[c].log == []
    requires c < |run[k].chans| && run[k].chans[c].log == [v]
    ensures i <= j < k && steps[j].Broadcast? && run[j].tasks[steps[j].t].phase == Computed(c, v)
    decreases k
  {
    if c < |run[k - 1].chans| && run[k - 1].chans[c].log == [v] {
      j := BroadcastBetween(run, steps, i, k - 1, c, v);
    } else {
      LogStep(run[k - 1], steps[k - 1], c, v);
      j := k - 1;
    }
  }

  lemma RunTaskOk<V>(run: seq<State<V>>, steps: seq<Step<V>>, k: nat, t: Task)
    requires Run(run, steps) && k <= |steps| && t in run[k].tasks
    ensures TaskOk(run[k], t)
  {
    RunKeeps(run, steps, k);
  }

  /** A caller that got its result by waiting. */
  lemma ReceivedFrom<V>(run: seq<State<V>>, steps: seq<Step<V>>, d: nat, t: Task, c: nat, n: nat, v: V)
    returns (i: nat, j: nat)
    requires Run(run, steps) && d < |steps| && steps[d].t == t && t in run[d].tasks
    requires !run[d].tasks[t].phase.Done? && run[d + 1].tasks[t].phase == Done(v, Subscribed(c, n))
    ensures i <= j <= d && WaitsOn(run[i], t, c) && run[i].chans[c].log == []
    ensures steps[j].Broadcast? && run[j].tasks[steps[j].t] == Caller(run[d].tasks[t].key, Computed(c, v))
  {
    RunTaskOk(run, steps, d, t);
    RunTaskOk(run, steps, d + 1, t);
    i := WaitedBefore(run, steps, d, t, c);
    j := BroadcastBetween(run, steps, i, d + 1, c, v);
    RunTaskOk(run, steps, j, steps[j].t);
    KeysStay(run, steps, j, d + 1, c);
  }

  /**
   What a caller returns. Either it executed `f` itself and returns that result; or it returns
   the result of another execution for the same key, on whose channel it was already waiting
   at a moment when nothing had been broadcast there.
   */
  lemma ResultOrigin<V>(run: seq<State<V>>, steps: seq<Step<V>>, k: nat, t: Task)
    requires Run(run, steps) && k <= |steps| && t in run[k].tasks && run[k].tasks[t].phase.Done?
    ensures var v := run[k].tasks[t].phase.result;
            match run[k].tasks[t].phase.origin
            case Own(_) => exists i :: 0 <= i < k && steps[i] == Finish(t, v)
            case Subscribed(c, _) =>
              exists i, j :: 0 <= i <= j < k && WaitsOn(run[i], t, c) && run[i].chans[c].log == []
                && steps[j].Broadcast? && run[j].tasks[steps[j].t] == Caller(run[k].tasks[t].key, Computed(c, v))
  {
    var Done(v, origin) := run[k].tasks[t].phase;
    match origin
    case Own(_) =>
      var i := FinishedBy(run, steps, k, t, v);
    case Subscribed(c, n) =>
      var d := DoneSince(run, steps, k, t);
      var i, j := ReceivedFrom(run, steps, d, t, c, n, v);
  }

  lemma DoneStep<V>(run: seq<State<V>>, steps: seq<Step<V>>, k: nat, t: Task)
    requires Path(run, steps) && k < |steps| && t in run[k + 1].tasks && run[k + 1].tasks[t].phase.Done?
    ensures t in run[k].tasks && run[k].tasks[t].key == run[k + 1].tasks[t].key
    ensures if run[k].tasks[t].phase.Done? then run[k].tasks[t] == run[k + 1].tasks[t] else steps[k].t == t
  {
    assert run[k + 1] == Apply(run[k], steps[k]);
  }

  /** The step in which a caller got the result it is done with. */
  lemma {:induction false} DoneSince<V>(run: seq<State<V>>, steps: seq<Step<V>>, k: nat, t: Task) returns (d: nat)
    requires Run(run, steps) && k <= |steps| && t in run[k].tasks && run[k].tasks[t].phase.Done?
    ensures d < k && steps[d].t == t && t in run[d].tasks && !run[d].tasks[t].phase.Done?
    ensures run[d + 1].tasks[t] == run[k].tasks[t] && run[d].tasks[t].key == run[k].tasks[t].key
    decreases k
  {
    DoneStep(run, steps, k - 1, t);
    if run[k - 1].tasks[t].phase.Done? {
      d := DoneSince(run, steps, k - 1, t);
    } else {
      d := k - 1;
    }
  }

  /** A channel keeps its key. */
  lemma {:induction false} KeysStay<V>(run: seq<State<V>>, steps: seq<Step<V>>, i: nat, k: nat, c: nat)
    requires Run(run, steps) && i <= k <= |steps| && c < |run[i].chans|
    ensures c < |run[k].chans| && run[k].chans[c].key == run[i].chans[c].key
    decreases k
  {
    if i < k {
      KeysStay(run, steps, i, k - 1, c);
      assert run[k] == Apply(run[k - 1], steps[k - 1]);
    }
  }

  // ------------------------------------------------- waiting with the lock held

  /**
   The holder of the write lock waits for a message that was broadcast before it subscribed. It
   holds the lock that the owner of the channel needs to remove its entry.
   */
  ghost predicate Blocked<V>(s: State<V>) {
    s.writer.Some? && s.writer.value in s.tasks
    && s.tasks[s.writer.value].phase.SlowWait? && s.tasks[s.writer.value].phase.next > 0
  }

  /** No step of any task ends such a wait. */
  lemma BlockedStays<V>(s: State<V>, step: Step<V>)
    requires Inv(s) && Blocked(s) && Enabled(s, step)
    ensures Blocked(Apply(s, step)) && Apply(s, step).writer == s.writer
  {
    var w := s.writer.value;
    SlowClosedNever(s, w);
    TaskFact(s, w);
    assert |s.chans[s.tasks[w].phase.chan].log| <= 1;
    if step.t != w && step.t in s.tasks {
      TaskFact(s, step.t);
    }
  }

  /** These phases end with a step that takes the lock. */
  predicate NeedsLock<V>(phase: Phase<V>) {
    phase.Start? || phase.Slow? || phase.Sent?
  }

  lemma NeedsLockStays<V>(s: State<V>, step: Step<V>, t: Task)
    requires Inv(s) && Blocked(s) && Enabled(s, step) && t in s.tasks && NeedsLock(s.tasks[t].phase)
    ensures t in Apply(s, step).tasks && Apply(s, step).tasks[t] == s.tasks[t]
  {
    if step.t != t && step.t in s.tasks {
      TaskFact(s, step.t);
    }
  }

  lemma BlockedNext<V>(run: seq<State<V>>, steps: seq<Step<V>>, k: nat)
    requires Path(run, steps) && k < |steps| && Inv(run[k]) && Blocked(run[k])
    ensures Inv(run[k + 1]) && Blocked(run[k + 1]) && run[k + 1].writer == run[k].writer
  {
    StepKeeps(run[k], steps[k]);
    BlockedStays(run[k], steps[k]);
  }

  lemma NeedsLockNext<V>(run: seq<State<V>>, steps: seq<Step<V>>, k: nat, t: Task)
    requires Path(run, steps) && k < |steps| && Inv(run[k]) && Blocked(run[k])
    requires t in run[k].tasks && NeedsLock(run[k].tasks[t].phase)
    ensures t in run[k + 1].tasks && run[k + 1].tasks[t] == run[k].tasks[t]
  {
    NeedsLockStays(run[k], steps[k], t);
  }

  lemma {:induction false} StaysBlocked<V>(run: seq<State<V>>, steps: seq<Step<V>>, k: nat)
    requires Path(run, steps) && k <= |steps| && Inv(run[0]) && Blocked(run[0])
    ensures Inv(run[k]) && Blocked(run[k]) && run[k].writer == run[0].writer
  {
    if k > 0 {
      StaysBlocked(run, steps, k - 1);
      BlockedNext(run, steps, k - 1);
    }
  }

  /**
   From then on nothing that needs the lock ever happens again, for any key: the group stays
   blocked, and a task that is about to look a key up, to insert or to remove never moves.
   */
  lemma {:induction false} BlockedForever<V>(run: seq<State<V>>, steps: seq<Step<V>>, k: nat)
    requires Path(run, steps) && k <= |steps| && Inv(run[0]) && Blocked(run[0])
    ensures Inv(run[k]) && Blocked(run[k]) && run[k].writer == run[0].writer
    ensures forall t :: t in run[0].tasks && NeedsLock(run[0].tasks[t].phase) ==>
                          t in run[k].tasks && run[k].tasks[t] == run[0].tasks[t]
  {
    StaysBlocked(run, steps, k);
    if k > 0 {
      BlockedForever(run, steps, k - 1);
      forall t | t in run[0].tasks && NeedsLock(run[0].tasks[t].phase)
        ensures t in run[k].tasks && run[k].tasks[t] == run[0].tasks[t]
      {
        NeedsLockNext(run, steps, k - 1, t);
      }
    }
  }

  // ------------------------------------------------------------ who can return

  predicate Returned<V>(s: State<V>, t: Task) {
    t in s.tasks && s.tasks[t].phase.Done?
  }

  /** Some continuation lets the task return. */
  ghost predicate CanReturn<V(!new)>(s: State<V>, t: Task) {
    exists run: seq<State<V>>, steps: seq<Step<V>> :: Path(run, steps) && run[0] == s && Returned(run[|steps|], t)
  }

  lemma ReturnedCan<V(!new)>(s: State<V>, t: Task)
    requires Returned(s, t)
    ensures CanReturn(s, t)
  {
    var run: seq<State<V>>, steps: seq<Step<V>> := [s], [];
    assert Path(run, steps) && run[|steps|] == s;
  }

  /** A step in front of an interleaving. */
  lemma PathFrom<V>(s: State<V>, step: Step<V>, run: seq<State<V>>, steps: seq<Step<V>>)
    requires Path(run, steps) && Enabled(s, step) && run[0] == Apply(s, step)
    ensures Path([s] + run, [step] + steps)
  {
    var longer, all := [s] + run, [step] + steps;
    forall i | 0 <= i < |all| ensures Enabled(longer[i], all[i]) && longer[i + 1] == Apply(longer[i], all[i]) {
      if i > 0 {
        assert longer[i] == run[i - 1] && longer[i + 1] == run[i] && all[i] == steps[i - 1];
      }
    }
  }

  lemma CanReturnAfter<V(!new)>(s: State<V>, step: Step<V>, t: Task)
    requires Enabled(s, step) && CanReturn(Apply(s, step), t)
    ensures CanReturn(s, t)
  {
    var run: seq<State<V>>, steps: seq<Step<V>> :|
      Path(run, steps) && run[0] == Apply(s, step) && Returned(run[|steps|], t);
    PathFrom(s, step, run, steps);
    assert ([s] + run)[|[step] + steps|] == run[|steps|];
  }

  /** Every channel belongs to a task that made it, and has lost its senders as far as that task has got. */
  ghost predicate ChanOk<V>(s: State<V>, c: nat)
    requires c < |s.chans|
  {
    var chan := s.chans[c];
    && chan.owner in s.tasks && s.tasks[chan.owner].key == chan.key
    && match s.tasks[chan.owner].phase
       case Running(d) => d == c
       case Computed(d, _) => d == c
       case Sent(d, _) => d == c
       case Removed(d, _) => d == c && InMap !in chan.senders
       case Done(_, Own(d)) => d == c && chan.senders == {}
       case _ => false
  }

  /** The invariant, and what it takes to see that channels close. */
  ghost predicate Sound<V>(s: State<V>) {
    Inv(s) && forall c :: 0 <= c < |s.chans| ==> ChanOk(s, c)
  }

  lemma ChanFact<V>(s: State<V>, c: nat)
    requires Sound(s) && c < |s.chans|
    ensures ChanOk(s, c)
  {
  }

  lemma LastSender(senders: set<Sender>)
    ensures InMap !in senders ==> senders - {InFrame} == {}
  {
    if InMap !in senders {
      forall x | x in senders ensures x == InFrame {
        assert x.InMap? || x.InFrame?;
      }
    }
  }

  lemma ChanStaysOk<V>(s: State<V>, step: Step<V>, c: nat)
    requires Sound(s) && Enabled(s, step) && c < |Apply(s, step).chans|
    ensures ChanOk(Apply(s, step), c)
  {
    if step.t in s.tasks {
      TaskFact(s, step.t);
    }
    SlowClosedNever(s, step.t);
    if c < |s.chans| {
      ChanFact(s, c);
      TaskFact(s, s.chans[c].owner);
      LastSender(s.chans[c].senders);
    }
  }

  lemma SoundStep<V>(s: State<V>, step: Step<V>)
    requires Sound(s) && Enabled(s, step)
    ensures Sound(Apply(s, step))
  {
    StepKeeps(s, step);
    forall c | 0 <= c < |Apply(s, step).chans| ensures ChanOk(Apply(s, step), c) {
      ChanStaysOk(s, step, c);
    }
  }

  lemma {:induction false} RunSound<V>(run: seq<State<V>>, steps: seq<Step<V>>, k: nat)
    requires Run(run, steps) && k <= |steps|
    ensures Sound(run[k])
  {
    if k > 0 {
      RunSound(run, steps, k - 1);
      SoundStep(run[k - 1], steps[k - 1]);
    }
  }

  /** How many steps a task is from returning, once it executes. */
  function Left<V>(phase: Phase<V>): nat {
    match phase
    case Running(_) => 4
    case Computed(_, _) => 3
    case Sent(_, _) => 2
    case Removed(_, _) => 1
    case _ => 0
  }

  /** The next step of a task that executes. */
  function Forward<V>(s: State<V>, u: Task, v: V): Step<V>
    requires u in s.tasks
  {
    match s.tasks[u].phase
    case Running(_) => Finish(u, v)
    case Computed(_, _) => Broadcast(u)
    case Sent(_, _) => Remove(u)
    case _ => Return(u)
  }

  /** It needs the lock only to remove its entry. */
  predicate CanForward<V>(s: State<V>, u: Task) {
    u in s.tasks && Left(s.tasks[u].phase) > 0 && (s.tasks[u].phase.Sent? ==> s.writer.None?)
  }

  lemma ForwardEnabled<V>(s: State<V>, u: Task, v: V)
    requires Inv(s) && CanForward(s, u)
    ensures Enabled(s, Forward(s, u, v))
  {
    TaskFact(s, u);
  }

  /** It moves nobody else, comes one step nearer to its end, and takes its own entry out of the map. */
  lemma ForwardEffect<V>(s: State<V>, u: Task, v: V)
    requires Inv(s) && CanForward(s, u) && Enabled(s, Forward(s, u, v))
    ensures var s', phase := Apply(s, Forward(s, u, v)), s.tasks[u].phase;
            && s'.writer == s.writer && s'.tasks == s.tasks[u := s'.tasks[u]] && Left(s'.tasks[u].phase) < Left(phase)
            && s'.inflight == (if phase.Sent? then s.inflight - {s.tasks[u].key} else s.inflight)
            && |s'.chans| == |s.chans| && (forall d :: 0 <= d < |s.chans| ==> s'.chans[d].owner == s.chans[d].owner)
  {
    TaskFact(s, u);
  }

  lemma ForwardMoves<V>(s: State<V>, u: Task, v: V) returns (s': State<V>)
    requires Sound(s) && CanForward(s, u)
    ensures Enabled(s, Forward(s, u, v)) && s' == Apply(s, Forward(s, u, v)) && Sound(s')
    ensures s'.writer == s.writer && s'.tasks == s.tasks[u := s'.tasks[u]]
    ensures Left(s'.tasks[u].phase) < Left(s.tasks[u].phase)
    ensures s'.inflight == if s.tasks[u].phase.Sent? then s.inflight - {s.tasks[u].key} else s.inflight
    ensures |s'.chans| == |s.chans| && forall d :: 0 <= d < |s.chans| ==> s'.chans[d].owner == s.chans[d].owner
  {
    ForwardEnabled(s, u, v);
    ForwardEffect(s, u, v);
    SoundStep(s, Forward(s, u, v));
    s' := Apply(s, Forward(s, u, v));
  }

  /** A task that executes can return once the lock is free. */
  lemma {:induction false} ExecutingCan<V(!new)>(s: State<V>, t: Task, v: V)
    requires Sound(s) && s.writer.None? && t in s.tasks && (Left(s.tasks[t].phase) > 0 || s.tasks[t].phase.Done?)
    ensures CanReturn(s, t)
    decreases Left(s.tasks[t].phase)
  {
    if s.tasks[t].phase.Done? {
      ReturnedCan(s, t);
    } else {
      var s' := ForwardMoves(s, t, v);
      ExecutingCan(s', t, v);
      CanReturnAfter(s, Forward(s, t, v), t);
    }
  }

  /** The task that executes the work of a key, if there is one. */
  function OwnerLeft<V>(s: State<V>, key: Key): nat
    requires Inv(s)
  {
    if key in s.inflight then
      assert EntryOk(s, key);
      Left(s.tasks[s.chans[s.inflight[key]].owner].phase)
    else 0
  }

  /** A task about to insert can return: whoever executes its key is let finish first. */
  lemma {:induction false} SlowCan<V(!new)>(s: State<V>, t: Task, v: V)
    requires Sound(s) && s.writer.None? && t in s.tasks && s.tasks[t].phase.Slow?
    ensures CanReturn(s, t)
    decreases OwnerLeft(s, s.tasks[t].key)
  {
    var key := s.tasks[t].key;
    if key in s.inflight {
      EntryFact(s, key);
      var u := s.chans[s.inflight[key]].owner;
      var s' := ForwardMoves(s, u, v);
      SlowCan(s', t, v);
      CanReturnAfter(s, Forward(s, u, v), t);
    } else {
      SoundStep(s, Enter(t));
      ExecutingCan(Apply(s, Enter(t)), t, v);
      CanReturnAfter(s, Enter(t), t);
    }
  }

  /** A receiver that has missed nothing gets the result, lock or no lock. */
  lemma {:induction false} InTimeCan<V(!new)>(s: State<V>, t: Task, v: V)
    requires Sound(s) && t in s.tasks && s.tasks[t].phase.FastWait? && s.tasks[t].phase.next == 0
    ensures CanReturn(s, t)
    decreases Left(s.tasks[ChanOwner(s, t)].phase)
  {
    TaskFact(s, t);
    var c := s.tasks[t].phase.chan;
    ChanFact(s, c);
    var u := s.chans[c].owner;
    TaskFact(s, u);
    if s.chans[c].log != [] {
      ReturnedCan(Apply(s, FastRecv(t)), t);
      CanReturnAfter(s, FastRecv(t), t);
    } else {
      var s' := ForwardMoves(s, u, v);
      InTimeCan(s', t, v);
      CanReturnAfter(s, Forward(s, u, v), t);
    }
  }

  /** The task that made the channel on which `t` waits. */
  function ChanOwner<V>(s: State<V>, t: Task): (u: Task)
    requires Sound(s) && t in s.tasks && s.tasks[t].phase.FastWait?
    ensures u in s.tasks
  {
    assert TaskOk(s, t);
    assert ChanOk(s, s.tasks[t].phase.chan);
    s.chans[s.tasks[t].phase.chan].owner
  }

  /** A receiver that has missed the result sees its channel close and inserts itself. */
  lemma {:induction false} MissedCan<V(!new)>(s: State<V>, t: Task, v: V)
    requires Sound(s) && s.writer.None? && t in s.tasks && s.tasks[t].phase.FastWait? && s.tasks[t].phase.next > 0
    ensures CanReturn(s, t)
    decreases Left(s.tasks[ChanOwner(s, t)].phase)
  {
    TaskFact(s, t);
    var c := s.tasks[t].phase.chan;
    ChanFact(s, c);
    var u := s.chans[c].owner;
    TaskFact(s, u);
    assert |s.chans[c].log| <= 1;
    if s.tasks[u].phase.Done? {
      SoundStep(s, FastClosed(t));
      SlowCan(Apply(s, FastClosed(t)), t, v);
      CanReturnAfter(s, FastClosed(t), t);
    } else {
      var s' := ForwardMoves(s, u, v);
      MissedCan(s', t, v);
      CanReturnAfter(s, Forward(s, u, v), t);
    }
  }

  lemma WaitingCan<V(!new)>(s: State<V>, t: Task, v: V)
    requires Sound(s) && s.writer.None? && t in s.tasks && (s.tasks[t].phase.FastWait? || s.tasks[t].phase.Slow?)
    ensures CanReturn(s, t)
  {
    if s.tasks[t].phase.Slow? {
      SlowCan(s, t, v);
    } else if s.tasks[t].phase.next == 0 {
      InTimeCan(s, t, v);
    } else {
      MissedCan(s, t, v);
    }
  }

  /** With the lock free, every task can return. */
  lemma FreeCan<V(!new)>(s: State<V>, t: Task, v: V)
    requires Sound(s) && s.writer.None? && t in s.tasks
    ensures CanReturn(s, t)
  {
    TaskFact(s, t);
    if s.tasks[t].phase.Start? {
      assert s.tasks[t].key in s.inflight ==> EntryOk(s, s.tasks[t].key);
      SoundStep(s, Look(t));
      WaitingCan(Apply(s, Look(t)), t, v);
      CanReturnAfter(s, Look(t), t);
    } else if s.tasks[t].phase.FastWait? || s.tasks[t].phase.Slow? {
      WaitingCan(s, t, v);
    } else {
      ExecutingCan(s, t, v);
    }
  }

  /** The task that made the channel on which the holder of the lock waits. */
  function WriterOwner<V>(s: State<V>): (u: Task)
    requires Inv(s) && s.writer.Some?
    ensures u in s.tasks && u != s.writer.value && Left(s.tasks[u].phase) >= 2
    ensures s.tasks[s.writer.value].phase.chan < |s.chans| && s.chans[s.tasks[s.writer.value].phase.chan].owner == u
  {
    var w := s.writer.value;
    assert TaskOk(s, w);
    assert EntryOk(s, s.tasks[w].key);
    s.chans[s.tasks[w].phase.chan].owner
  }

  /** A holder of the lock that subscribed in time receives its result and lets go. */
  lemma {:induction false} UnblockedCan<V(!new)>(s: State<V>, t: Task, v: V)
    requires Sound(s) && s.writer.Some? && !Blocked(s) && t in s.tasks
    ensures CanReturn(s, t)
    decreases Left(s.tasks[WriterOwner(s)].phase)
  {
    var w, u := s.writer.value, WriterOwner(s);
    TaskFact(s, w);
    TaskFact(s, u);
    if s.tasks[u].phase.Sent? {
      SoundStep(s, SlowRecv(w));
      FreeCan(Apply(s, SlowRecv(w)), t, v);
      CanReturnAfter(s, SlowRecv(w), t);
    } else {
      var s' := ForwardMoves(s, u, v);
      UnblockedCan(s', t, v);
      CanReturnAfter(s, Forward(s, u, v), t);
    }
  }

  /** What a task can still return from when the group is blocked. */
  predicate Served<V>(phase: Phase<V>) {
    phase.Done? || phase.Removed? || (phase.FastWait? && phase.next == 0)
  }

  lemma ServedCan<V(!new)>(s: State<V>, t: Task, v: V)
    requires Sound(s) && t in s.tasks && Served(s.tasks[t].phase)
    ensures CanReturn(s, t)
  {
    if s.tasks[t].phase.Done? {
      ReturnedCan(s, t);
    } else if s.tasks[t].phase.Removed? {
      var s' := ForwardMoves(s, t, v);
      ReturnedCan(s', t);
      CanReturnAfter(s, Return(t), t);
    } else {
      InTimeCan(s, t, v);
    }
  }

  /** No step brings another task there. */
  lemma UnservedStays<V>(s: State<V>, step: Step<V>, t: Task)
    requires Inv(s) && Blocked(s) && Enabled(s, step) && t in s.tasks && !Served(s.tasks[t].phase)
    ensures t in Apply(s, step).tasks && !Served(Apply(s, step).tasks[t].phase)
  {
    TaskFact(s, t);
    BlockedStays(s, step);
    if s.tasks[t].phase.FastWait? {
      assert |s.chans[s.tasks[t].phase.chan].log| <= 1;
    }
  }

  lemma UnservedNext<V>(run: seq<State<V>>, steps: seq<Step<V>>, k: nat, t: Task)
    requires Path(run, steps) && k < |steps| && Inv(run[k]) && Blocked(run[k])
    requires t in run[k].tasks && !Served(run[k].tasks[t].phase)
    ensures t in run[k + 1].tasks && !Served(run[k + 1].tasks[t].phase)
  {
    UnservedStays(run[k], steps[k], t);
  }

  lemma {:induction false} UnservedForever<V>(run: seq<State<V>>, steps: seq<Step<V>>, k: nat, t: Task)
    requires Path(run, steps) && k <= |steps| && Inv(run[0]) && Blocked(run[0])
    requires t in run[0].tasks && !Served(run[0].tasks[t].phase)
    ensures t in run[k].tasks && !Served(run[k].tasks[t].phase)
  {
    if k > 0 {
      StaysBlocked(run, steps, k - 1);
      UnservedForever(run, steps, k - 1, t);
      UnservedNext(run, steps, k - 1, t);
    }
  }

  /**
   Who can still return, in every state of every run, when the lock may be taken in any order. While
   nobody waits for a missed message with the lock held, every caller can. Once somebody does, only
   those can that have removed their entry already, or wait without the lock for a message that they
   have not missed.
   */
  lemma CanReturnIff<V(!new)>(run: seq<State<V>>, steps: seq<Step<V>>, k: nat, t: Task, v: V)
    requires Run(run, steps) && k <= |steps| && t in run[k].tasks
    ensures CanReturn(run[k], t) <==> !Blocked(run[k]) || Served(run[k].tasks[t].phase)
  {
    var s := run[k];
    RunSound(run, steps, k);
    if Served(s.tasks[t].phase) {
      ServedCan(s, t, v);
    } else if !Blocked(s) {
      if s.writer.None? {
        FreeCan(s, t, v);
      } else {
        UnblockedCan(s, t, v);
      }
    } else if CanReturn(s, t) {
      var more: seq<State<V>>, next: seq<Step<V>> :| Path(more, next) && more[0] == s && Returned(more[|next|], t);
      UnservedForever(more, next, |next|, t);
    }
  }

  // -------------------------------------------------------------- order of steps

  /** How far a task has got in `work`. */
  function Progress<V>(s: State<V>, t: Task): nat {
    if t !in s.tasks then 0
    else
      match s.tasks[t].phase
      case Start => 1
      case FastWait(_, _) => 2
      case Slow => 3
      case SlowWait(_, _) => 4
      case Running(_) => 5
      case Computed(_, _) => 6
      case Sent(_, _) => 7
      case Removed(_, _) => 8
      case Done(_, _) => 9
  }

  /** What a step finds and leaves: the place in `work` before and after it. */
  predicate Advances<V>(step: Step<V>, before: nat, after: nat) {
    match step
    case Call(_, _) => before == 0 && after == 1
    case Look(_) => before == 1 && (after == 2 || after == 3)
    case FastRecv(_) => before == 2 && after == 9
    case FastClosed(_) => before == 2 && after == 3
    case Enter(_) => before == 3 && (after == 4 || after == 5)
    case SlowRecv(_) => before == 4 && after == 9
    case SlowClosed(_) => before == 4 && after == 5
    case Finish(_, _) => before == 5 && after == 6
    case Broadcast(_) => before == 6 && after == 7
    case Remove(_) => before == 7 && after == 8
    case Return(_) => before == 8 && after == 9
  }

  /** Every step takes its own task further in `work`, to its next place, and no other task. */
  lemma StepAdvances<V>(run: seq<State<V>>, steps: seq<Step<V>>, k: nat, t: Task)
    requires Path(run, steps) && k < |steps|
    ensures if steps[k].t == t then Advances(steps[k], Progress(run[k], t), Progress(run[k + 1], t))
            else Progress(run[k + 1], t) == Progress(run[k], t)
  {
    assert run[k + 1] == Apply(run[k], steps[k]);
  }

  /** Step `k` does not take the task back. */
  predicate Forwards<V>(run: seq<State<V>>, k: nat, t: Task)
    requires k + 1 < |run|
  {
    Progress(run[k], t) <= Progress(run[k + 1], t)
  }

  lemma StepForward<V>(run: seq<State<V>>, steps: seq<Step<V>>, k: nat, t: Task)
    requires Path(run, steps) && k < |steps|
    ensures Forwards(run, k, t)
  {
    StepAdvances(run, steps, k, t);
  }

  lemma {:induction false} NeverBack<V>(run: seq<State<V>>, i: nat, j: nat, t: Task)
    requires i <= j < |run| && forall k :: 0 <= k < |run| - 1 ==> Forwards(run, k, t)
    ensures Progress(run[i], t) <= Progress(run[j], t)
    decreases j
  {
    if i < j {
      NeverBack(run, i, j - 1, t);
      assert Forwards(run, j - 1, t);
    }
  }

  /** So a task never comes to the same place twice: it looks up, inserts, executes, sends and removes once at most. */
  lemma OncePerPlace<V>(run: seq<State<V>>, steps: seq<Step<V>>, i: nat, j: nat)
    requires Path(run, steps) && i < j < |steps| && steps[i].t == steps[j].t
    ensures Progress(run[i], steps[i].t) < Progress(run[j], steps[i].t)
  {
    StepAdvances(run, steps, i, steps[i].t);
    forall k | 0 <= k < |run| - 1 ensures Forwards(run, k, steps[i].t) {
      StepForward(run, steps, k, steps[i].t);
    }
    NeverBack(run, i + 1, j, steps[i].t);
  }

  // ------------------------------------------------------- sharing what is in flight

  /** Waiting on the channel with nothing missed, or done with the one result that was broadcast there. */
  ghost predicate Shares<V>(s: State<V>, t: Task, c: nat) {
    && t in s.tasks && c < |s.chans|
    && match s.tasks[t].phase
       case FastWait(d, n) => d == c && n == 0
       case SlowWait(d, n) => d == c && n == 0
       case Done(v, Subscribed(d, n)) => d == c && n == 0 && s.chans[c].log == [v]
       case _ => false
  }

  /** The work of the key of `t` is being executed by `u`, on channel `c`, and nothing has been broadcast. */
  ghost predicate InFlight<V>(s: State<V>, t: Task, u: Task, c: nat) {
    && t in s.tasks && Executing(s, u) && s.tasks[u].key == s.tasks[t].key
    && s.tasks[u].phase.chan == c && c < |s.chans| && s.chans[c].log == []
  }

  /** A caller that looks the key up then, or comes to the lock to insert it, subscribes. */
  lemma LookupSubscribes<V>(s: State<V>, step: Step<V>, u: Task, c: nat)
    requires Sound(s) && Enabled(s, step) && (step.Look? || step.Enter?) && InFlight(s, step.t, u, c)
    ensures Shares(Apply(s, step), step.t, c) && Apply(s, step).chans == s.chans
    ensures step.Look? ==> Apply(s, step).tasks[step.t].phase.FastWait? && Apply(s, step).writer == s.writer
  {
    TaskFact(s, u);
  }

  /** From then on it only waits and receives. */
  lemma SharesStays<V>(s: State<V>, step: Step<V>, t: Task, c: nat)
    requires Sound(s) && Enabled(s, step) && Shares(s, t, c)
    ensures Shares(Apply(s, step), t, c) && Apply(s, step).chans[c].owner == s.chans[c].owner
    ensures s.tasks[t].phase.SlowWait? || s.writer != Some(t)
    ensures !s.tasks[t].phase.SlowWait? ==> !Apply(s, step).tasks[t].phase.SlowWait?
    ensures !step.Finish? || step.t != t
  {
    TaskFact(s, t);
    ChanFact(s, c);
    TaskFact(s, s.chans[c].owner);
    SlowClosedNever(s, step.t);
    if s.chans[c].log == [] {
      EntryFact(s, s.chans[c].key);
    }
  }

  lemma SharesNext<V>(run: seq<State<V>>, steps: seq<Step<V>>, k: nat, t: Task, c: nat)
    requires Path(run, steps) && k < |steps| && Sound(run[k]) && Shares(run[k], t, c)
    ensures Sound(run[k + 1]) && Shares(run[k + 1], t, c) && run[k + 1].chans[c].owner == run[k].chans[c].owner
    ensures run[k].tasks[t].phase.SlowWait? || run[k].writer != Some(t)
    ensures !run[k].tasks[t].phase.SlowWait? ==> !run[k + 1].tasks[t].phase.SlowWait?
    ensures !steps[k].Finish? || steps[k].t != t
  {
    SoundStep(run[k], steps[k]);
    SharesStays(run[k], steps[k], t, c);
  }

  lemma {:induction false} SharesOn<V>(run: seq<State<V>>, steps: seq<Step<V>>, i: nat, j: nat, t: Task, c: nat)
    requires Path(run, steps) && i <= j <= |steps| && Sound(run[i]) && Shares(run[i], t, c)
    ensures Sound(run[j]) && Shares(run[j], t, c) && run[j].chans[c].owner == run[i].chans[c].owner
    ensures !run[i].tasks[t].phase.SlowWait? ==> !run[j].tasks[t].phase.SlowWait?
    decreases j
  {
    if i < j {
      SharesOn(run, steps, i, j - 1, t, c);
      SharesNext(run, steps, j - 1, t, c);
    }
  }

  /**
   A caller that finds the work of its key in flight shares it. Whether it looks the key up or comes
   to the lock: at every later time it waits on the channel of the task that executes the work, or it
   is done with the result that this task broadcast. It never executes `f`; one that has looked the
   key up never holds the lock.
   */
  lemma SharesResult<V>(run: seq<State<V>>, steps: seq<Step<V>>, k: nat, j: nat, u: Task, c: nat)
    requires Run(run, steps) && k < j <= |steps| && (steps[k].Look? || steps[k].Enter?)
    requires InFlight(run[k], steps[k].t, u, c)
    ensures Shares(run[j], steps[k].t, c) && run[j].chans[c].owner == u
    ensures steps[k].Look? ==> run[j].writer != Some(steps[k].t)
    ensures j < |steps| ==> !steps[j].Finish? || steps[j].t != steps[k].t
  {
    RunSound(run, steps, k);
    RunSound(run, steps, k + 1);
    RunSound(run, steps, j);
    TaskFact(run[k], u);
    LookupSubscribes(run[k], steps[k], u, c);
    SharesOn(run, steps, k + 1, j, steps[k].t, c);
    TaskFact(run[j], steps[k].t);
    if j < |steps| {
      SharesNext(run, steps, j, steps[k].t, c);
    }
  }

  /** A caller that comes to the lock when nobody executes the work of its key executes it. */
  lemma MissExecutes<V>(run: seq<State<V>>, steps: seq<Step<V>>, k: nat)
    requires Run(run, steps) && k < |steps| && steps[k].Enter?
    requires forall u :: Executing(run[k], u) ==> run[k].tasks[u].key != run[k].tasks[steps[k].t].key
    ensures run[k + 1].tasks[steps[k].t].phase.Running?
  {
    RunKeeps(run, steps, k);
    var key := run[k].tasks[steps[k].t].key;
    if key in run[k].inflight {
      EntryFact(run[k], key);
      assert Executing(run[k], run[k].chans[run[k].inflight[key]].owner);
    }
  }

  /** Appending one step to a run. */
  lemma RunExtends<V>(run: seq<State<V>>, steps: seq<Step<V>>, step: Step<V>)
    returns (run': seq<State<V>>, steps': seq<Step<V>>)
    requires Run(run, steps) && Enabled(run[|steps|], step)
    ensures Run(run', steps') && |steps'| == |steps| + 1 && run'[|steps'|] == Apply(run[|steps|], step)
  {
    run', steps' := run + [Apply(run[|steps|], step)], steps + [step];
  }

  /** Two callers are enough: both miss the key, one executes and broadcasts, the other then takes the write lock. */
  lemma BlockedIsReachable<V>(v: V) returns (run: seq<State<V>>, steps: seq<Step<V>>)
    ensures Run(run, steps) && Blocked(run[|steps|])
  {
    run, steps := [Init()], [];
    run, steps := RunExtends(run, steps, Call(0, "key"));
    run, steps := RunExtends(run, steps, Call(1, "key"));
    run, steps := RunExtends(run, steps, Look(0));
    run, steps := RunExtends(run, steps, Look(1));
    run, steps := RunExtends(run, steps, Enter(0));
    run, steps := RunExtends(run, steps, Finish(0, v));
    run, steps := RunExtends(run, steps, Broadcast(0));
    run, steps := RunExtends(run, steps, Enter(1));
  }
}
