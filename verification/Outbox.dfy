/**
 The transactional outbox (rszero/src/queue/transactional.rs): a message table, a queue that
 receives pushes, immediate publishing after an insert, and sweeps that retry.

 A message id is the position of its row: ids are unique and rows are never deleted. Rows are
 in the order of their creation. Each push and each status update can fail on its own.
 */
module Outbox {
  import opened Wrappers

  const LIMIT: nat := 100

  datatype Status = Pending | Published | Failed

  datatype Row = Row(topic: string, payload: string, status: Status, retries: int)

  datatype Push = Push(id: nat, topic: string, payload: string)

  /** The table and the pushes that the queue has accepted. */
  datatype Table = Table(rows: seq<Row>, queue: seq<Push>)

  /** What the environment does to one attempt: does the push work, and do the two status updates? */
  datatype Attempt = Attempt(push: bool, mark: bool, retry: bool)

  /** `max_retries as i32`: the upper half of the unsigned range wraps to negative numbers. */
  function AsI32(n: U32): int {
    if n < 0x8000_0000 then n else n - 0x1_0000_0000
  }

  // ------------------------------------------------------------- specification

  predicate Eligible(row: Row, max: U32) {
    (row.status.Pending? || row.status.Failed?) && row.retries < max
  }

  /** The oldest eligible rows from position `i` on, at most `limit` of them, with their retry counts. */
  function Select(rows: seq<Row>, i: nat, limit: nat, max: U32): (ids: seq<(nat, int)>)
    requires i <= |rows|
    ensures |ids| <= limit
    ensures forall k :: 0 <= k < |ids| ==> i <= ids[k].0 < |rows|
    ensures forall k :: 0 <= k < |ids| ==> Eligible(rows[ids[k].0], max) && ids[k].1 == rows[ids[k].0].retries
    ensures forall j, k :: 0 <= j < k < |ids| ==> ids[j].0 < ids[k].0
    decreases |rows| - i
  {
    if i == |rows| || limit == 0 then []
    else if Eligible(rows[i], max) then [(i, rows[i].retries)] + Select(rows, i + 1, limit - 1, max)
    else Select(rows, i + 1, limit, max)
  }

  function Insert(t: Table, topic: string, payload: string): Table {
    t.(rows := t.rows + [Row(topic, payload, Pending, 0)])
  }

  function Pushed(t: Table, id: nat): Table
    requires id < |t.rows|
  {
    t.(queue := t.queue + [Push(id, t.rows[id].topic, t.rows[id].payload)])
  }

  function MarkPublished(t: Table, id: nat): Table
    requires id < |t.rows|
  {
    t.(rows := t.rows[id := t.rows[id].(status := Published)])
  }

  /** The update after a failed attempt, from the retry count that the sweep had read. */
  function MarkRetry(t: Table, id: nat, read: int, max: U32): Table
    requires id < |t.rows|
  {
    var next := read + 1;
    t.(rows := t.rows[id := t.rows[id].(retries := next, status := if next >= AsI32(max) then Failed else Pending)])
  }

  /** `try_publish`: push, then mark; an error of either is an error of the whole. */
  function TryPublish(t: Table, id: nat, a: Attempt): (r: (Table, bool))
    requires id < |t.rows|
    ensures |r.0.rows| == |t.rows|
  {
    if !a.push then (t, false)
    else if !a.mark then (Pushed(t, id), false)
    else (MarkPublished(Pushed(t, id), id), true)
  }

  /** One turn of the loop of `sweep`. */
  function SweepRow(t: Table, row: (nat, int), a: Attempt, max: U32): (r: Table)
    requires row.0 < |t.rows|
    ensures |r.rows| == |t.rows|
  {
    var (next, ok) := TryPublish(t, row.0, a);
    if ok || !a.retry then next else MarkRetry(next, row.0, row.1, max)
  }

  /** The loop of `sweep` over the selected rows, the attempt on each given by its number. */
  function SweepRows(t: Table, todo: seq<(nat, int)>, n: nat, attempt: nat -> Attempt, max: U32): (r: Table)
    requires n <= |todo| && forall k :: 0 <= k < |todo| ==> todo[k].0 < |t.rows|
    ensures |r.rows| == |t.rows|
  {
    if n == 0 then t
    else SweepRow(SweepRows(t, todo, n - 1, attempt, max), todo[n - 1], attempt(n - 1), max)
  }

  function SweepSpec(t: Table, attempt: nat -> Attempt, max: U32): Table {
    var todo := Select(t.rows, 0, LIMIT, max);
    SweepRows(t, todo, |todo|, attempt, max)
  }

  /** How many of the first `n` attempts both push and mark. */
  function Successes(attempt: nat -> Attempt, n: nat): nat {
    if n == 0 then 0 else Successes(attempt, n - 1) + if attempt(n - 1).push && attempt(n - 1).mark then 1 else 0
  }

  function CountStatus(rows: seq<Row>, status: Status): nat {
    if rows == [] then 0
    else CountStatus(rows[..|rows| - 1], status) + if rows[|rows| - 1].status == status then 1 else 0
  }

  /** The rows with that status. */
  function WithStatus(rows: seq<Row>, status: Status): set<int> {
    set i | 0 <= i < |rows| && rows[i].status == status
  }

  lemma {:induction false} CountStatusIs(rows: seq<Row>, status: Status)
    ensures CountStatus(rows, status) == |WithStatus(rows, status)|
  {
    if rows != [] {
      var n := |rows| - 1;
      var before := WithStatus(rows[..n], status);
      CountStatusIs(rows[..n], status);
      assert WithStatus(rows, status) == if rows[n].status == status then before + {n} else before;
    }
  }

  // --------------------------------------------------------------------- class

  class TransactionalQueue {
    const max: U32
    var table: Table

    /** The table may hold rows already. */
    constructor (max: U32, table: Table)
      ensures this.max == max && this.table == table
    {
      this.max := max;
      this.table := table;
    }

    /**
     `publish_reliable_in_txn`, at the commit of its transaction: the row and nothing more, or an
     error and no row.
     */
    method PublishInTxn(topic: string, payload: string, inserted: bool) returns (id: Option<nat>)
      modifies this
      ensures id == if inserted then Some(|old(table).rows|) else None
      ensures table == if inserted then Insert(old(table), topic, payload) else old(table)
    {
      if !inserted {
        return None;
      }
      id := Some(|table.rows|);
      table := Insert(table, topic, payload);
    }

    method Try(id: nat, a: Attempt) returns (ok: bool)
      requires id < |table.rows|
      modifies this
      ensures (table, ok) == TryPublish(old(table), id, a)
    {
      ok := false;
      if a.push {
        table := Pushed(table, id);
        if a.mark {
          table := MarkPublished(table, id);
          ok := true;
        }
      }
    }

    /** `publish_reliable`: a failed insert is an error, a failed immediate attempt is left to the sweeps. */
    method PublishReliable(topic: string, payload: string, inserted: bool, a: Attempt) returns (id: Option<nat>)
      modifies this
      ensures id == if inserted then Some(|old(table).rows|) else None
      ensures table == if inserted then TryPublish(Insert(old(table), topic, payload), |old(table).rows|, a).0
                       else old(table)
    {
      id := PublishInTxn(topic, payload, inserted);
      if id.Some? {
        var _ := Try(id.value, a);
      }
    }

    /** `sweep`: None if the query fails, otherwise the number of rows that were pushed and marked. */
    method Sweep(answered: bool, attempt: nat -> Attempt) returns (r: Option<nat>)
      modifies this
      ensures table == if answered then SweepSpec(old(table), attempt, max) else old(table)
      ensures r == if answered then Some(Successes(attempt, |Select(old(table).rows, 0, LIMIT, max)|)) else None
    {
      if !answered {
        return None;
      }
      var todo := Select(table.rows, 0, LIMIT, max);
      var processed := 0;
      var n := 0;
      while n < |todo|
        invariant n <= |todo| && processed == Successes(attempt, n) && |table.rows| == |old(table).rows|
        invariant table == SweepRows(old(table), todo, n, attempt, max)
      {
        var ok := Try(todo[n].0, attempt(n));
        if ok {
          processed := processed + 1;
        } else if attempt(n).retry {
          table := MarkRetry(table, todo[n].0, todo[n].1, max);
        }
        n := n + 1;
      }
      r := Some(processed);
    }

    /** `stats`. */
    method Stats() returns (pending: nat, published: nat, failed: nat)
      ensures pending == CountStatus(table.rows, Pending) && published == CountStatus(table.rows, Published)
      ensures failed == CountStatus(table.rows, Failed)
      ensures pending + published + failed == |table.rows|
    {
      pending, published, failed := 0, 0, 0;
      var rows := table.rows;
      for i := 0 to |rows|
        invariant pending == CountStatus(rows[..i], Pending) && published == CountStatus(rows[..i], Published)
        invariant failed == CountStatus(rows[..i], Failed) && pending + published + failed == i
      {
        assert rows[..i + 1][..i] == rows[..i];
        match rows[i].status
        case Pending => pending := pending + 1;
        case Published => published := published + 1;
        case Failed => failed := failed + 1;
      }
      assert rows[..|rows|] == rows;
    }
  }

  // -------------------------------------------------------- interleaved workers

  /**
   A task in the middle of its work: an immediate publish, or a sweep with the rows it has
   still to handle and the retry counts that it read for them.
   */
  datatype Worker =
    | ToPush(id: nat)
    | ToMark(id: nat)
    | SweepPush(todo: seq<(nat, int)>)
    | SweepMark(todo: seq<(nat, int)>)
    | SweepRetry(todo: seq<(nat, int)>)

  datatype State = State(table: Table, workers: map<nat, Worker>)

  /**
   One atomic step of one task. `took` says that a push or an update took effect and `ok` that
   its caller was told so: an effect whose answer is lost is reported as an error.
   */
  datatype Step =
    | InsertInTxn(topic: string, payload: string)
    | InsertAndPublish(w: nat, topic: string, payload: string)
    | Query(w: nat)
    | DoPush(w: nat, took: bool, ok: bool)
    | DoMark(w: nat, took: bool, ok: bool)
    | DoRetry(w: nat, took: bool)

  function Current(w: Worker): (id: nat)
    requires w.ToPush? || w.ToMark? || w.todo != []
  {
    if w.ToPush? || w.ToMark? then w.id else w.todo[0].0
  }

  predicate Busy(s: State, w: nat) {
    w in s.workers && (s.workers[w].ToPush? || s.workers[w].ToMark? || s.workers[w].todo != [])
    && Current(s.workers[w]) < |s.table.rows|
  }

  predicate Enabled(s: State, step: Step) {
    match step
    case InsertInTxn(_, _) => true
    case InsertAndPublish(w, _, _) => w !in s.workers
    case Query(w) => w !in s.workers
    case DoPush(w, took, ok) => Busy(s, w) && (s.workers[w].ToPush? || s.workers[w].SweepPush?) && (ok ==> took)
    case DoMark(w, took, ok) => Busy(s, w) && (s.workers[w].ToMark? || s.workers[w].SweepMark?) && (ok ==> took)
    case DoRetry(w, _) => Busy(s, w) && s.workers[w].SweepRetry?
  }

  /** Where a task goes after its push, or after its update to `published`. */
  function Continue(w: Worker, ok: bool): Worker
    requires w.ToPush? || w.ToMark? || w.todo != []
  {
    match w
    case ToPush(id) => if ok then ToMark(id) else SweepPush([])
    case ToMark(_) => SweepPush([])
    case SweepPush(todo) => if ok then SweepMark(todo) else SweepRetry(todo)
    case SweepMark(todo) => if ok then SweepPush(todo[1..]) else SweepRetry(todo)
    case SweepRetry(todo) => SweepPush(todo[1..])
  }

  function TableAfter(s: State, step: Step, max: U32): Table
    requires Enabled(s, step)
  {
    match step
    case InsertInTxn(topic, payload) => Insert(s.table, topic, payload)
    case InsertAndPublish(_, topic, payload) => Insert(s.table, topic, payload)
    case Query(_) => s.table
    case DoPush(w, took, _) => if took then Pushed(s.table, Current(s.workers[w])) else s.table
    case DoMark(w, took, _) => if took then MarkPublished(s.table, Current(s.workers[w])) else s.table
    case DoRetry(w, took) =>
      if took then MarkRetry(s.table, Current(s.workers[w]), s.workers[w].todo[0].1, max) else s.table
  }

  function WorkersAfter(s: State, step: Step, max: U32): map<nat, Worker>
    requires Enabled(s, step)
  {
    match step
    case InsertInTxn(_, _) => s.workers
    case InsertAndPublish(w, _, _) => s.workers[w := ToPush(|s.table.rows|)]
    case Query(w) => s.workers[w := SweepPush(Select(s.table.rows, 0, LIMIT, max))]
    case DoPush(w, _, ok) => s.workers[w := Continue(s.workers[w], ok)]
    case DoMark(w, _, ok) => s.workers[w := Continue(s.workers[w], ok)]
    case DoRetry(w, _) => s.workers[w := Continue(s.workers[w], true)]
  }

  function Next(s: State, step: Step, max: U32): State
    requires Enabled(s, step)
  {
    State(TableAfter(s, step, max), WorkersAfter(s, step, max))
  }

  const EMPTY: State := State(Table([], []), map[])

  predicate Executable(steps: seq<Step>, max: U32)
    decreases |steps|, 0
  {
    steps == [] ||
    (Executable(steps[..|steps| - 1], max) && Enabled(After(steps[..|steps| - 1], max), steps[|steps| - 1]))
  }

  function After(steps: seq<Step>, max: U32): State
    requires Executable(steps, max)
    decreases |steps|, 1
  {
    if steps == [] then EMPTY else Next(After(steps[..|steps| - 1], max), steps[|steps| - 1], max)
  }

  /** The messages that a run has asked to send, in order. */
  function Requested(steps: seq<Step>): seq<(string, string)> {
    if steps == [] then []
    else Requested(steps[..|steps| - 1]) + Request(steps[|steps| - 1])
  }

  function Request(step: Step): seq<(string, string)> {
    if step.InsertInTxn? || step.InsertAndPublish? then [(step.topic, step.payload)] else []
  }

  lemma Extend(steps: seq<Step>, step: Step, max: U32)
    requires Executable(steps, max) && Enabled(After(steps, max), step)
    ensures Executable(steps + [step], max) && After(steps + [step], max) == Next(After(steps, max), step, max)
    ensures Requested(steps + [step]) == Requested(steps) + Request(step)
  {
    assert (steps + [step])[..|steps|] == steps;
  }

  /** A step of task `w` after a run, which changes the table and moves the task on. */
  predicate Moves(steps: seq<Step>, more: seq<Step>, w: nat, table: Table, next: Worker, max: U32)
    requires Executable(steps, max)
  {
    Executable(more, max) && After(more, max) == State(table, After(steps, max).workers[w := next])
  }

  lemma MovesTwice(a: seq<Step>, b: seq<Step>, c: seq<Step>, w: nat, t: Table, x: Worker, u: Table, y: Worker, max: U32)
    requires Executable(a, max) && Moves(a, b, w, t, x, max) && Moves(b, c, w, u, y, max)
    ensures Moves(a, c, w, u, y, max)
  {
  }

  lemma PushMoves(steps: seq<Step>, w: nat, todo: seq<(nat, int)>, ok: bool, max: U32) returns (more: seq<Step>)
    requires Executable(steps, max) && Busy(After(steps, max), w) && After(steps, max).workers[w] == SweepPush(todo)
    ensures var t := After(steps, max).table;
            Moves(steps, more, w, if ok then Pushed(t, todo[0].0) else t,
                  if ok then SweepMark(todo) else SweepRetry(todo), max)
  {
    Extend(steps, DoPush(w, ok, ok), max);
    more := steps + [DoPush(w, ok, ok)];
  }

  lemma MarkMoves(steps: seq<Step>, w: nat, todo: seq<(nat, int)>, ok: bool, max: U32) returns (more: seq<Step>)
    requires Executable(steps, max) && Busy(After(steps, max), w) && After(steps, max).workers[w] == SweepMark(todo)
    ensures var t := After(steps, max).table;
            Moves(steps, more, w, if ok then MarkPublished(t, todo[0].0) else t,
                  if ok then SweepPush(todo[1..]) else SweepRetry(todo), max)
  {
    Extend(steps, DoMark(w, ok, ok), max);
    more := steps + [DoMark(w, ok, ok)];
  }

  lemma RetryMoves(steps: seq<Step>, w: nat, todo: seq<(nat, int)>, ok: bool, max: U32) returns (more: seq<Step>)
    requires Executable(steps, max) && Busy(After(steps, max), w) && After(steps, max).workers[w] == SweepRetry(todo)
    ensures var t := After(steps, max).table;
            Moves(steps, more, w, if ok then MarkRetry(t, todo[0].0, todo[0].1, max) else t, SweepPush(todo[1..]), max)
  {
    Extend(steps, DoRetry(w, ok), max);
    more := steps + [DoRetry(w, ok)];
  }

  /** One turn of the loop of `sweep`, as steps. */
  lemma TurnRuns(steps: seq<Step>, w: nat, todo: seq<(nat, int)>, a: Attempt, max: U32) returns (more: seq<Step>)
    requires Executable(steps, max) && Busy(After(steps, max), w) && After(steps, max).workers[w] == SweepPush(todo)
    ensures Moves(steps, more, w, SweepRow(After(steps, max).table, todo[0], a, max), SweepPush(todo[1..]), max)
  {
    var t := After(steps, max).table;
    more := PushMoves(steps, w, todo, a.push, max);
    if a.push {
      t := Pushed(t, todo[0].0);
      var marked := MarkMoves(more, w, todo, a.mark, max);
      var u := if a.mark then MarkPublished(t, todo[0].0) else t;
      MovesTwice(steps, more, marked, w, t, SweepMark(todo), u,
                 if a.mark then SweepPush(todo[1..]) else SweepRetry(todo), max);
      more, t := marked, u;
    }
    if !a.push || !a.mark {
      var retried := RetryMoves(more, w, todo, a.retry, max);
      var u := if a.retry then MarkRetry(t, todo[0].0, todo[0].1, max) else t;
      MovesTwice(steps, more, retried, w, t, SweepRetry(todo), u, SweepPush(todo[1..]), max);
      more := retried;
    }
  }

  lemma QueryMoves(steps: seq<Step>, w: nat, max: U32) returns (more: seq<Step>)
    requires Executable(steps, max) && w !in After(steps, max).workers
    ensures var t := After(steps, max).table;
            Moves(steps, more, w, t, SweepPush(Select(t.rows, 0, LIMIT, max)), max)
  {
    Extend(steps, Query(w), max);
    more := steps + [Query(w)];
  }

  lemma RowMoves(
    steps: seq<Step>, before: seq<Step>, w: nat, t: Table, todo: seq<(nat, int)>, n: nat, a: Attempt, max: U32)
      returns (more: seq<Step>)
    requires Executable(steps, max) && n < |todo| && Moves(steps, before, w, t, SweepPush(todo[n..]), max)
    requires forall k :: 0 <= k < |todo| ==> todo[k].0 < |t.rows|
    ensures Moves(steps, more, w, SweepRow(t, todo[n], a, max), SweepPush(todo[n + 1..]), max)
  {
    var left := todo[n..];
    assert left[0] == todo[n] && left[1..] == todo[n + 1..];
    more := TurnRuns(before, w, left, a, max);
    MovesTwice(steps, before, more, w, t, SweepPush(left), SweepRow(t, todo[n], a, max), SweepPush(todo[n + 1..]), max);
  }

  lemma {:induction false} RowsMove(steps: seq<Step>, first: seq<Step>, w: nat, t: Table, todo: seq<(nat, int)>, n: nat,
                                   attempt: nat -> Attempt, max: U32)
      returns (more: seq<Step>)
    requires Executable(steps, max) && n <= |todo| && Moves(steps, first, w, t, SweepPush(todo), max)
    requires forall k :: 0 <= k < |todo| ==> todo[k].0 < |t.rows|
    ensures Moves(steps, more, w, SweepRows(t, todo, n, attempt, max), SweepPush(todo[n..]), max)
  {
    if n == 0 {
      more := first;
      assert todo[0..] == todo;
    } else {
      var before := RowsMove(steps, first, w, t, todo, n - 1, attempt, max);
      more := RowMoves(steps, before, w, SweepRows(t, todo, n - 1, attempt, max), todo, n - 1, attempt(n - 1), max);
    }
  }

  /** A whole sweep is one way of interleaving the steps: the one in which nobody else moves. */
  lemma SweepRuns(steps: seq<Step>, w: nat, n: nat, attempt: nat -> Attempt, max: U32) returns (more: seq<Step>)
    requires Executable(steps, max) && w !in After(steps, max).workers
    requires n <= |Select(After(steps, max).table.rows, 0, LIMIT, max)|
    ensures var t := After(steps, max).table;
            var todo := Select(t.rows, 0, LIMIT, max);
            Moves(steps, more, w, SweepRows(t, todo, n, attempt, max), SweepPush(todo[n..]), max)
  {
    var t := After(steps, max).table;
    var todo := Select(t.rows, 0, LIMIT, max);
    var first := QueryMoves(steps, w, max);
    more := RowsMove(steps, first, w, t, todo, n, attempt, max);
  }

  lemma ImmediateRuns(steps: seq<Step>, w: nat, a: Attempt, max: U32) returns (more: seq<Step>)
    requires Executable(steps, max) && Busy(After(steps, max), w) && After(steps, max).workers[w].ToPush?
    ensures Executable(more, max) && Requested(more) == Requested(steps)
    ensures var s := After(steps, max); After(more, max).table == TryPublish(s.table, s.workers[w].id, a).0
  {
    more := steps + [DoPush(w, a.push, a.push)];
    Extend(steps, DoPush(w, a.push, a.push), max);
    if a.push {
      Extend(more, DoMark(w, a.mark, a.mark), max);
      more := more + [DoMark(w, a.mark, a.mark)];
    }
  }

  /** So is a whole `publish_reliable`. */
  lemma PublishRuns(steps: seq<Step>, w: nat, topic: string, payload: string, a: Attempt, max: U32)
    returns (more: seq<Step>)
    requires Executable(steps, max) && w !in After(steps, max).workers
    ensures Executable(more, max) && Requested(more) == Requested(steps) + [(topic, payload)]
    ensures var t := After(steps, max).table;
            After(more, max).table == TryPublish(Insert(t, topic, payload), |t.rows|, a).0
  {
    Extend(steps, InsertAndPublish(w, topic, payload), max);
    more := ImmediateRuns(steps + [InsertAndPublish(w, topic, payload)], w, a, max);
  }

  // ------------------------------------------------------------ safety of runs

  /** What every row is promised, whatever the tasks are doing. */
  predicate RowOk(row: Row, id: nat, queue: seq<Push>, max: U32) {
    match row.status
    case Published => Push(id, row.topic, row.payload) in queue && 0 <= row.retries <= max
    case Failed => row.retries == max
    case Pending => 0 <= row.retries < max
  }

  predicate RowsOk(t: Table, max: U32) {
    forall i :: 0 <= i < |t.rows| ==> RowOk(t.rows[i], i, t.queue, max)
  }

  /** The queue holds nothing but copies of rows. */
  predicate QueueOk(t: Table) {
    forall p :: p in t.queue ==> p.id < |t.rows| && p.topic == t.rows[p.id].topic && p.payload == t.rows[p.id].payload
  }

  predicate ReadOk(read: (nat, int), t: Table, max: U32) {
    read.0 < |t.rows| && 0 <= read.1 < max
  }

  predicate TodoOk(todo: seq<(nat, int)>, t: Table, max: U32) {
    forall k :: 0 <= k < |todo| ==> ReadOk(todo[k], t, max)
  }

  predicate HasPush(t: Table, id: nat) {
    id < |t.rows| && Push(id, t.rows[id].topic, t.rows[id].payload) in t.queue
  }

  predicate WorkerOk(w: Worker, t: Table, max: U32) {
    match w
    case ToPush(id) => id < |t.rows|
    case ToMark(id) => HasPush(t, id)
    case SweepPush(todo) => TodoOk(todo, t, max)
    case SweepMark(todo) => todo != [] && TodoOk(todo, t, max) && HasPush(t, todo[0].0)
    case SweepRetry(todo) => todo != [] && TodoOk(todo, t, max)
  }

  predicate WorkersOk(workers: map<nat, Worker>, t: Table, max: U32) {
    forall w :: w in workers ==> WorkerOk(workers[w], t, max)
  }

  predicate Safe(s: State, max: U32) {
    RowsOk(s.table, max) && QueueOk(s.table) && WorkersOk(s.workers, s.table, max)
  }

  predicate LimitOk(max: U32) {
    1 <= max < 0x8000_0000
  }

  /** `u` has every row and push of `t`, with the same topics and payloads. */
  predicate Extends(t: Table, u: Table) {
    |t.rows| <= |u.rows| && t.queue <= u.queue
    && forall i :: 0 <= i < |t.rows| ==> u.rows[i].topic == t.rows[i].topic && u.rows[i].payload == t.rows[i].payload
  }

  lemma WorkerStaysOk(w: Worker, t: Table, u: Table, max: U32)
    requires WorkerOk(w, t, max) && Extends(t, u)
    ensures WorkerOk(w, u, max)
  {
    if w.SweepPush? || w.SweepMark? || w.SweepRetry? {
      forall k | 0 <= k < |w.todo| ensures ReadOk(w.todo[k], u, max) {
        assert ReadOk(w.todo[k], t, max);
      }
    }
  }

  lemma WorkersStayOk(workers: map<nat, Worker>, t: Table, u: Table, max: U32)
    requires WorkersOk(workers, t, max) && Extends(t, u)
    ensures WorkersOk(workers, u, max)
  {
    forall w | w in workers ensures WorkerOk(workers[w], u, max) {
      WorkerStaysOk(workers[w], t, u, max);
    }
  }

  lemma RowStaysOk(t: Table, id: nat, row: Row, max: U32)
    requires RowsOk(t, max) && id < |t.rows| && RowOk(row, id, t.queue, max)
    ensures RowsOk(t.(rows := t.rows[id := row]), max)
  {
  }

  lemma InsertKeeps(t: Table, topic: string, payload: string, max: U32)
    requires RowsOk(t, max) && QueueOk(t) && LimitOk(max)
    ensures RowsOk(Insert(t, topic, payload), max) && QueueOk(Insert(t, topic, payload))
    ensures Extends(t, Insert(t, topic, payload))
  {
  }

  lemma PushKeeps(t: Table, id: nat, max: U32)
    requires RowsOk(t, max) && QueueOk(t) && id < |t.rows|
    ensures RowsOk(Pushed(t, id), max) && QueueOk(Pushed(t, id))
    ensures Extends(t, Pushed(t, id)) && HasPush(Pushed(t, id), id)
  {
    var u := Pushed(t, id);
    assert u.queue[|t.queue|] == Push(id, t.rows[id].topic, t.rows[id].payload);
    forall i | 0 <= i < |u.rows| ensures RowOk(u.rows[i], i, u.queue, max) {
      assert RowOk(t.rows[i], i, t.queue, max);
    }
  }

  lemma MarkKeeps(t: Table, id: nat, max: U32)
    requires RowsOk(t, max) && QueueOk(t) && HasPush(t, id)
    ensures RowsOk(MarkPublished(t, id), max) && QueueOk(MarkPublished(t, id)) && Extends(t, MarkPublished(t, id))
  {
    assert RowOk(t.rows[id], id, t.queue, max);
    RowStaysOk(t, id, t.rows[id].(status := Published), max);
  }

  lemma RetryKeeps(t: Table, id: nat, read: int, max: U32)
    requires RowsOk(t, max) && QueueOk(t) && ReadOk((id, read), t, max) && LimitOk(max)
    ensures RowsOk(MarkRetry(t, id, read, max), max) && QueueOk(MarkRetry(t, id, read, max))
    ensures Extends(t, MarkRetry(t, id, read, max))
  {
    RowStaysOk(t, id, MarkRetry(t, id, read, max).rows[id], max);
  }

  lemma TableKeeps(s: State, step: Step, max: U32)
    requires Safe(s, max) && Enabled(s, step) && LimitOk(max)
    ensures RowsOk(TableAfter(s, step, max), max) && QueueOk(TableAfter(s, step, max))
    ensures Extends(s.table, TableAfter(s, step, max))
  {
    match step
    case InsertInTxn(topic, payload) => InsertKeeps(s.table, topic, payload, max);
    case InsertAndPublish(_, topic, payload) => InsertKeeps(s.table, topic, payload, max);
    case Query(_) =>
    case DoPush(w, _, _) => PushKeeps(s.table, Current(s.workers[w]), max);
    case DoMark(w, took, _) =>
      assert WorkerOk(s.workers[w], s.table, max);
      MarkKeeps(s.table, Current(s.workers[w]), max);
    case DoRetry(w, took) =>
      assert WorkerOk(s.workers[w], s.table, max);
      var read := s.workers[w].todo[0];
      assert ReadOk(read, s.table, max);
      RetryKeeps(s.table, read.0, read.1, max);
  }

  lemma QueryOk(t: Table, max: U32)
    requires RowsOk(t, max)
    ensures TodoOk(Select(t.rows, 0, LIMIT, max), t, max)
  {
    var todo := Select(t.rows, 0, LIMIT, max);
    forall k | 0 <= k < |todo| ensures ReadOk(todo[k], t, max) {
      assert RowOk(t.rows[todo[k].0], todo[k].0, t.queue, max);
    }
  }

  lemma ContinueOk(w: Worker, ok: bool, t: Table, max: U32)
    requires WorkerOk(w, t, max) && (w.ToPush? || w.ToMark? || w.todo != [])
    requires (w.ToPush? || w.SweepPush?) && ok ==> HasPush(t, Current(w))
    ensures WorkerOk(Continue(w, ok), t, max)
  {
  }

  /** Every step of every task keeps the invariant. */
  lemma StepKeeps(s: State, step: Step, max: U32)
    requires Safe(s, max) && Enabled(s, step) && LimitOk(max)
    ensures Safe(Next(s, step, max), max)
  {
    TableKeeps(s, step, max);
    var t := TableAfter(s, step, max);
    WorkersStayOk(s.workers, s.table, t, max);
    match step
    case InsertInTxn(_, _) =>
    case InsertAndPublish(_, _, _) =>
    case Query(_) => QueryOk(t, max);
    case DoPush(w, _, ok) =>
      PushKeeps(s.table, Current(s.workers[w]), max);
      ContinueOk(s.workers[w], ok, t, max);
    case DoMark(w, _, ok) => ContinueOk(s.workers[w], ok, t, max);
    case DoRetry(w, _) => ContinueOk(s.workers[w], true, t, max);
  }

  /** Every run, of any number of publishers and sweepers with any failures, is safe. */
  lemma {:induction false} RunKeeps(steps: seq<Step>, max: U32)
    requires Executable(steps, max) && LimitOk(max)
    ensures Safe(After(steps, max), max)
  {
    if steps != [] {
      RunKeeps(steps[..|steps| - 1], max);
      StepKeeps(After(steps[..|steps| - 1], max), steps[|steps| - 1], max);
    }
  }

  predicate HoldsMessages(rows: seq<Row>, messages: seq<(string, string)>) {
    |rows| == |messages| && forall i :: 0 <= i < |rows| ==> (rows[i].topic, rows[i].payload) == messages[i]
  }

  /** No message is lost, changed or invented: the rows are exactly what was asked for, in order. */
  lemma {:induction false} Durability(steps: seq<Step>, max: U32)
    requires Executable(steps, max)
    ensures HoldsMessages(After(steps, max).table.rows, Requested(steps))
  {
    if steps != [] {
      Durability(steps[..|steps| - 1], max);
    }
  }

  lemma {:induction false} StatusesPartition(rows: seq<Row>)
    ensures CountStatus(rows, Pending) + CountStatus(rows, Published) + CountStatus(rows, Failed) == |rows|
  {
    if rows != [] {
      StatusesPartition(rows[..|rows| - 1]);
    }
  }

  /** Pending, published and failed rows together are the messages asked for, in every run. */
  lemma Conservation(steps: seq<Step>, max: U32)
    requires Executable(steps, max)
    ensures var rows := After(steps, max).table.rows;
            CountStatus(rows, Pending) + CountStatus(rows, Published) + CountStatus(rows, Failed) == |Requested(steps)|
  {
    Durability(steps, max);
    StatusesPartition(After(steps, max).table.rows);
  }

  /** The promise about rows, for every run of a queue with the given `max_retries`. */
  ghost predicate AlwaysOk(max: U32) {
    forall steps: seq<Step> :: Executable(steps, max) ==> RowsOk(After(steps, max).table, max)
  }

  const FIRST_INSERT: seq<Step> := [InsertInTxn("t", "p")]

  const FIRST_FAILURE: seq<Step> := [InsertInTxn("t", "p"), Query(0), DoPush(0, false, false), DoRetry(0, true)]

  lemma FirstInsertRuns(max: U32)
    ensures Executable(FIRST_INSERT, max)
    ensures After(FIRST_INSERT, max) == State(Table([Row("t", "p", Pending, 0)], []), map[])
  {
    assert FIRST_INSERT[..0] == [];
  }

  lemma QueriedRuns(max: U32)
    requires 1 <= max
    ensures Executable(FIRST_FAILURE[..2], max)
    ensures After(FIRST_FAILURE[..2], max) ==
            State(Table([Row("t", "p", Pending, 0)], []), map[0 := SweepPush([(0, 0)])])
  {
    FirstInsertRuns(max);
    assert FIRST_FAILURE[..2][..1] == FIRST_INSERT;
    var rows := [Row("t", "p", Pending, 0)];
    assert Select(rows, 1, LIMIT - 1, max) == [];
    assert Select(rows, 0, LIMIT, max) == [(0, 0)];
  }

  lemma FirstFailureRuns(max: U32)
    requires 1 <= max
    ensures Executable(FIRST_FAILURE, max)
    ensures After(FIRST_FAILURE, max).table == MarkRetry(Table([Row("t", "p", Pending, 0)], []), 0, 0, max)
  {
    QueriedRuns(max);
    assert FIRST_FAILURE[..3][..2] == FIRST_FAILURE[..2];
    assert FIRST_FAILURE[..4][..3] == FIRST_FAILURE[..3] && FIRST_FAILURE[..4] == FIRST_FAILURE;
  }

  /**
   The promise is kept exactly for retry limits from 1 to 2^31 - 1. With a limit of 0 a new row
   is already at the limit, and from 2^31 on the cast to a signed number labels a row failed at
   its first failed retry.
   */
  lemma AlwaysOkIff(max: U32)
    ensures AlwaysOk(max) <==> LimitOk(max)
  {
    if LimitOk(max) {
      forall steps: seq<Step> | Executable(steps, max) ensures RowsOk(After(steps, max).table, max) {
        RunKeeps(steps, max);
      }
    } else if max == 0 {
      FirstInsertRuns(max);
      assert !RowOk(After(FIRST_INSERT, max).table.rows[0], 0, [], max);
    } else {
      FirstFailureRuns(max);
      var t := After(FIRST_FAILURE, max).table;
      assert t.rows[0] == Row("t", "p", Failed, 1);
      assert !RowOk(t.rows[0], 0, t.queue, max);
    }
  }

  /** No retry count is negative, neither in the table nor where a sweep has read it. */
  predicate CountsOk(s: State) {
    && (forall i :: 0 <= i < |s.table.rows| ==> s.table.rows[i].retries >= 0)
    && (forall w :: w in s.workers ==> ReadsOk(s.workers[w]))
  }

  predicate ReadsOk(w: Worker) {
    w.SweepPush? || w.SweepMark? || w.SweepRetry? ==> forall k :: 0 <= k < |w.todo| ==> w.todo[k].1 >= 0
  }

  lemma CountsStep(s: State, step: Step, max: U32)
    requires CountsOk(s) && Enabled(s, step)
    ensures CountsOk(Next(s, step, max))
  {
    if !step.InsertInTxn? && step.w in s.workers {
      assert ReadsOk(s.workers[step.w]);
    }
  }

  lemma {:induction false} CountsRun(steps: seq<Step>, max: U32)
    requires Executable(steps, max)
    ensures CountsOk(After(steps, max))
  {
    if steps != [] {
      CountsRun(steps[..|steps| - 1], max);
      CountsStep(After(steps[..|steps| - 1], max), steps[|steps| - 1], max);
    }
  }

  /** From 2^31 on every failed retry labels its row failed, and sweeps go on selecting it below the limit. */
  lemma FailedAndRetried(t: Table, id: nat, read: nat, max: U32)
    requires max >= 0x8000_0000 && id < |t.rows|
    ensures var row := MarkRetry(t, id, read, max).rows[id];
            row.status.Failed? && row.retries == read + 1 && (Eligible(row, max) <==> read + 1 < max)
  {
  }

  predicate FailedAreDone(rows: seq<Row>, max: U32) {
    forall i :: 0 <= i < |rows| && rows[i].status.Failed? ==> !Eligible(rows[i], max)
  }

  ghost predicate FailedIsFinal(max: U32) {
    forall steps: seq<Step> :: Executable(steps, max) ==> FailedAreDone(After(steps, max).table.rows, max)
  }

  /** That a failed row is never tried again holds in all runs exactly for limits below 2^31. */
  lemma FailedIsFinalIff(max: U32)
    ensures FailedIsFinal(max) <==> max < 0x8000_0000
  {
    if max < 0x8000_0000 {
      forall steps: seq<Step> | Executable(steps, max)
        ensures FailedAreDone(After(steps, max).table.rows, max)
      {
        CountsRun(steps, max);
        if max > 0 {
          RunKeeps(steps, max);
          var t := After(steps, max).table;
          assert forall i :: 0 <= i < |t.rows| ==> RowOk(t.rows[i], i, t.queue, max);
        }
      }
    } else {
      FirstFailureRuns(max);
      FailedAndRetried(Table([Row("t", "p", Pending, 0)], []), 0, 0, max);
      assert !FailedAreDone(After(FIRST_FAILURE, max).table.rows, max);
    }
  }

  // ------------------------------------------------------------------ progress

  function Weight(row: Row, max: U32): nat {
    if Eligible(row, max) then max - row.retries else 0
  }

  /** The retries left over all eligible rows. */
  function Budget(rows: seq<Row>, max: U32): nat {
    if rows == [] then 0 else Budget(rows[..|rows| - 1], max) + Weight(rows[|rows| - 1], max)
  }

  function EligibleFrom(rows: seq<Row>, i: nat, max: U32): nat
    requires i <= |rows|
    decreases |rows| - i
  {
    if i == |rows| then 0 else EligibleFrom(rows, i + 1, max) + if Eligible(rows[i], max) then 1 else 0
  }

  /** Pushes may fail as they like, but the table takes every update. */
  ghost predicate UpdatesWork(attempt: nat -> Attempt) {
    forall k :: attempt(k).mark && attempt(k).retry
  }

  lemma {:induction false} BudgetUpdate(rows: seq<Row>, i: nat, row: Row, max: U32)
    requires i < |rows|
    ensures Budget(rows[i := row], max) + Weight(rows[i], max) == Budget(rows, max) + Weight(row, max)
  {
    var n := |rows| - 1;
    if i < n {
      assert rows[i := row][..n] == rows[..n][i := row];
      BudgetUpdate(rows[..n], i, row, max);
    } else {
      assert rows[i := row][..n] == rows[..n];
    }
  }

  lemma {:induction false} SelectCount(rows: seq<Row>, i: nat, limit: nat, max: U32)
    requires i <= |rows|
    ensures |Select(rows, i, limit, max)|
            == if EligibleFrom(rows, i, max) < limit then EligibleFrom(rows, i, max) else limit
    decreases |rows| - i
  {
    if i < |rows| && limit > 0 {
      SelectCount(rows, i + 1, if Eligible(rows[i], max) then limit - 1 else limit, max);
    }
  }

  predicate Selected(todo: seq<(nat, int)>, id: nat) {
    exists k :: 0 <= k < |todo| && todo[k].0 == id
  }

  /** A query that does not reach its limit leaves no eligible row behind. */
  lemma {:induction false} SelectAll(rows: seq<Row>, i: nat, limit: nat, max: U32, id: nat)
    requires i <= id < |rows| && Eligible(rows[id], max) && |Select(rows, i, limit, max)| < limit
    ensures Selected(Select(rows, i, limit, max), id)
    decreases |rows| - i
  {
    var todo := Select(rows, i, limit, max);
    if i == id {
      assert todo[0].0 == id;
    } else if Eligible(rows[i], max) {
      SelectAll(rows, i + 1, limit - 1, max, id);
      var rest := Select(rows, i + 1, limit - 1, max);
      var k :| 0 <= k < |rest| && rest[k].0 == id;
      assert todo[k + 1].0 == id;
    } else {
      SelectAll(rows, i + 1, limit, max, id);
    }
  }

  lemma SelectedCons(first: (nat, int), rest: seq<(nat, int)>, id: nat)
    ensures Selected([first] + rest, id) <==> first.0 == id || Selected(rest, id)
  {
    if Selected(rest, id) {
      var k :| 0 <= k < |rest| && rest[k].0 == id;
      assert ([first] + rest)[k + 1].0 == id;
    }
    if first.0 == id {
      assert ([first] + rest)[0].0 == id;
    }
  }

  /** The limit cuts off the newest: no eligible row that is older than a selected one is left out. */
  lemma {:induction false} SelectsOldest(rows: seq<Row>, i: nat, limit: nat, max: U32, j: nat, k: nat)
    requires i <= j < k < |rows| && Eligible(rows[j], max) && Selected(Select(rows, i, limit, max), k)
    ensures Selected(Select(rows, i, limit, max), j)
    decreases |rows| - i
  {
    if Eligible(rows[i], max) {
      var rest := Select(rows, i + 1, limit - 1, max);
      SelectedCons((i, rows[i].retries), rest, k);
      SelectedCons((i, rows[i].retries), rest, j);
      if i < j {
        SelectsOldest(rows, i + 1, limit - 1, max, j, k);
      }
    } else {
      SelectsOldest(rows, i + 1, limit, max, j, k);
    }
  }

  /** So every sweep attempts the oldest eligible row, and first. */
  lemma {:induction false} OldestIsFirst(rows: seq<Row>, i: nat, limit: nat, max: U32, j: nat)
    requires i <= j < |rows| && Eligible(rows[j], max) && limit > 0
    requires forall k :: i <= k < j ==> !Eligible(rows[k], max)
    ensures Select(rows, i, limit, max) != [] && Select(rows, i, limit, max)[0].0 == j
    decreases |rows| - i
  {
    if i < j {
      OldestIsFirst(rows, i + 1, limit, max, j);
    }
  }

  /** What one attempt makes of a row. */
  function Attempted(row: Row, a: Attempt, max: U32): Row {
    if a.push && a.mark then row.(status := Published)
    else if !a.retry then row
    else row.(retries := row.retries + 1, status := if row.retries + 1 >= AsI32(max) then Failed else Pending)
  }

  /** One push for each of the first `n` attempts that reaches the queue. */
  function PushesIn(rows: seq<Row>, todo: seq<(nat, int)>, attempt: nat -> Attempt, n: nat): seq<Push>
    requires n <= |todo| && forall k :: 0 <= k < |todo| ==> todo[k].0 < |rows|
  {
    if n == 0 then []
    else
      var id := todo[n - 1].0;
      PushesIn(rows, todo, attempt, n - 1)
      + if attempt(n - 1).push then [Push(id, rows[id].topic, rows[id].payload)] else []
  }

  /** The table after `n` attempts: the rows of these attempts, all others as they were, and the pushes. */
  ghost predicate Swept(t: Table, u: Table, todo: seq<(nat, int)>, attempt: nat -> Attempt, n: nat, max: U32)
    requires n <= |todo| && forall k :: 0 <= k < |todo| ==> todo[k].0 < |t.rows|
  {
    && |u.rows| == |t.rows| && u.queue == t.queue + PushesIn(t.rows, todo, attempt, n)
    && (forall i :: 0 <= i < |t.rows| && !Selected(todo[..n], i) ==> u.rows[i] == t.rows[i])
    && (forall k :: 0 <= k < n ==> u.rows[todo[k].0] == Attempted(t.rows[todo[k].0], attempt(k), max))
  }

  lemma SweepRowIs(u: Table, row: (nat, int), a: Attempt, max: U32)
    requires row.0 < |u.rows| && row.1 == u.rows[row.0].retries
    ensures var w := SweepRow(u, row, a, max);
            && w.rows == u.rows[row.0 := Attempted(u.rows[row.0], a, max)]
            && w.queue == u.queue + if a.push then [Push(row.0, u.rows[row.0].topic, u.rows[row.0].payload)] else []
  {
  }

  /** Different rows in their order, as they were read. */
  predicate IsRead(rows: seq<Row>, todo: seq<(nat, int)>) {
    && (forall k :: 0 <= k < |todo| ==> todo[k].0 < |rows| && todo[k].1 == rows[todo[k].0].retries)
    && (forall j, k :: 0 <= j < k < |todo| ==> todo[j].0 < todo[k].0)
  }

  lemma SweptMore(t: Table, u: Table, todo: seq<(nat, int)>, attempt: nat -> Attempt, n: nat, max: U32)
    requires n < |todo| && IsRead(t.rows, todo) && Swept(t, u, todo, attempt, n, max)
    ensures Swept(t, SweepRow(u, todo[n], attempt(n), max), todo, attempt, n + 1, max)
  {
    assert !Selected(todo[..n], todo[n].0);
    SweepRowIs(u, todo[n], attempt(n), max);
    forall i | Selected(todo[..n], i) ensures Selected(todo[..n + 1], i) {
      SelectedStep(todo, n, i);
    }
    SelectedStep(todo, n, todo[n].0);
  }

  lemma SweptNone(t: Table, todo: seq<(nat, int)>, attempt: nat -> Attempt, max: U32)
    requires IsRead(t.rows, todo)
    ensures Swept(t, t, todo, attempt, 0, max)
  {
    assert t.queue + [] == t.queue;
  }

  lemma {:induction false} SweepRowsAre(
    t: Table, todo: seq<(nat, int)>, attempt: nat -> Attempt, n: nat, max: U32) returns (u: Table)
    requires n <= |todo| && IsRead(t.rows, todo)
    ensures u == SweepRows(t, todo, n, attempt, max) && Swept(t, u, todo, attempt, n, max)
  {
    if n > 0 {
      var before := SweepRowsAre(t, todo, attempt, n - 1, max);
      SweptMore(t, before, todo, attempt, n - 1, max);
      u := SweepRow(before, todo[n - 1], attempt(n - 1), max);
    } else {
      SweptNone(t, todo, attempt, max);
      u := t;
    }
  }

  /**
   What a sweep does to every row, and what it pushes, one push an attempt at most. It attempts as
   many eligible rows as there are, up to a hundred, and none that is younger than one it leaves out.
   */
  lemma SweepOutcome(t: Table, attempt: nat -> Attempt, max: U32) returns (todo: seq<(nat, int)>)
    ensures IsRead(t.rows, todo) && Swept(t, SweepSpec(t, attempt, max), todo, attempt, |todo|, max)
    ensures |todo| == if EligibleFrom(t.rows, 0, max) < 100 then EligibleFrom(t.rows, 0, max) else 100
    ensures forall k :: 0 <= k < |todo| ==> Eligible(t.rows[todo[k].0], max)
    ensures forall j, k :: 0 <= j < k < |t.rows| && Eligible(t.rows[j], max) && Selected(todo, k) ==> Selected(todo, j)
  {
    todo := Select(t.rows, 0, LIMIT, max);
    var u := SweepRowsAre(t, todo, attempt, |todo|, max);
    SelectCount(t.rows, 0, LIMIT, max);
    forall j, k | 0 <= j < k < |t.rows| && Eligible(t.rows[j], max) && Selected(todo, k) ensures Selected(todo, j) {
      SelectsOldest(t.rows, 0, LIMIT, max, j, k);
    }
  }

  /** How many pushes reached the queue. */
  function Arrivals(steps: seq<Step>): nat {
    if steps == [] then 0
    else
      var last := steps[|steps| - 1];
      Arrivals(steps[..|steps| - 1]) + if last.DoPush? && last.took then 1 else 0
  }

  /** In every run the queue holds each push that reached it, once. */
  lemma {:induction false} PushesCounted(steps: seq<Step>, max: U32)
    requires Executable(steps, max)
    ensures |After(steps, max).table.queue| == Arrivals(steps)
    decreases |steps|
  {
    if steps != [] {
      PushesCounted(steps[..|steps| - 1], max);
    }
  }

  /** An attempt on a row that has not changed since the query uses up some of its retries. */
  lemma SweepRowWeight(t: Table, row: (nat, int), a: Attempt, max: U32)
    requires row.0 < |t.rows| && Eligible(t.rows[row.0], max) && row.1 == t.rows[row.0].retries && a.mark && a.retry
    ensures var u := SweepRow(t, row, a, max);
            u.rows == t.rows[row.0 := u.rows[row.0]] && Weight(u.rows[row.0], max) < Weight(t.rows[row.0], max)
  {
  }

  /** After `n` turns: the rows of these turns have lost weight and no other row has changed. */
  predicate SweptTo(before: seq<Row>, rows: seq<Row>, todo: seq<(nat, int)>, n: nat, max: U32)
    requires n <= |todo|
  {
    && |rows| == |before|
    && (forall i :: 0 <= i < |rows| && !Selected(todo[..n], i) ==> rows[i] == before[i])
    && (forall i :: 0 <= i < |rows| && Selected(todo[..n], i) ==> Weight(rows[i], max) < Weight(before[i], max))
    && Budget(rows, max) + n <= Budget(before, max)
  }

  lemma SelectedStep(todo: seq<(nat, int)>, n: nat, i: nat)
    requires n < |todo|
    ensures Selected(todo[..n + 1], i) <==> Selected(todo[..n], i) || todo[n].0 == i
  {
    if todo[n].0 == i {
      assert todo[..n + 1][n].0 == i;
    }
    if Selected(todo[..n], i) {
      var k :| 0 <= k < n && todo[..n][k].0 == i;
      assert todo[..n + 1][k].0 == i;
    }
  }

  lemma SweptStep(before: seq<Row>, rows: seq<Row>, todo: seq<(nat, int)>, n: nat, row: Row, max: U32)
    requires n < |todo| && SweptTo(before, rows, todo, n, max) && todo[n].0 < |rows|
    requires rows[todo[n].0] == before[todo[n].0] && Weight(row, max) < Weight(rows[todo[n].0], max)
    ensures SweptTo(before, rows[todo[n].0 := row], todo, n + 1, max)
  {
    BudgetUpdate(rows, todo[n].0, row, max);
    forall i ensures Selected(todo[..n + 1], i) <==> Selected(todo[..n], i) || todo[n].0 == i {
      SelectedStep(todo, n, i);
    }
  }

  /** One turn, for a row that the turns before it left alone. */
  lemma SweptNext(t: Table, u: Table, todo: seq<(nat, int)>, n: nat, a: Attempt, max: U32)
    requires n < |todo| && SweptTo(t.rows, u.rows, todo, n, max) && IsRead(t.rows, todo)
    requires Eligible(t.rows[todo[n].0], max) && a.mark && a.retry
    ensures SweptTo(t.rows, SweepRow(u, todo[n], a, max).rows, todo, n + 1, max)
  {
    assert !Selected(todo[..n], todo[n].0);
    SweepRowWeight(u, todo[n], a, max);
    SweptStep(t.rows, u.rows, todo, n, SweepRow(u, todo[n], a, max).rows[todo[n].0], max);
  }

  lemma SweptToNone(rows: seq<Row>, todo: seq<(nat, int)>, max: U32)
    ensures SweptTo(rows, rows, todo, 0, max)
  {
  }

  /** Different rows, all eligible, in their order and as they were read. */
  predicate IsEligibleRead(rows: seq<Row>, todo: seq<(nat, int)>, max: U32) {
    IsRead(rows, todo) && forall k :: 0 <= k < |todo| ==> Eligible(rows[todo[k].0], max)
  }

  /** The turns before, and one more. */
  lemma OneMoreTurn(t: Table, u: Table, todo: seq<(nat, int)>, n: nat, attempt: nat -> Attempt, max: U32)
    requires n < |todo| && IsEligibleRead(t.rows, todo, max) && UpdatesWork(attempt)
    requires u == SweepRows(t, todo, n, attempt, max) && SweptTo(t.rows, u.rows, todo, n, max)
    ensures var v := SweepRow(u, todo[n], attempt(n), max);
            v == SweepRows(t, todo, n + 1, attempt, max) && SweptTo(t.rows, v.rows, todo, n + 1, max)
  {
    SweptNext(t, u, todo, n, attempt(n), max);
  }

  lemma {:induction false} SweepRowsShape(t: Table, todo: seq<(nat, int)>, n: nat, attempt: nat -> Attempt, max: U32)
    returns (u: Table)
    requires UpdatesWork(attempt) && n <= |todo| && IsEligibleRead(t.rows, todo, max)
    ensures u == SweepRows(t, todo, n, attempt, max) && SweptTo(t.rows, u.rows, todo, n, max)
  {
    if n == 0 {
      SweptToNone(t.rows, todo, max);
      u := t;
    } else {
      var before := SweepRowsShape(t, todo, n - 1, attempt, max);
      OneMoreTurn(t, before, todo, n - 1, attempt, max);
      u := SweepRow(before, todo[n - 1], attempt(n - 1), max);
    }
  }

  /** One sweep lowers the budget by at least the smaller of 100 and the number of eligible rows. */
  lemma SweepProgress(t: Table, attempt: nat -> Attempt, max: U32)
    requires UpdatesWork(attempt)
    ensures var eligible := EligibleFrom(t.rows, 0, max);
            Budget(SweepSpec(t, attempt, max).rows, max) + (if eligible < 100 then eligible else 100)
            <= Budget(t.rows, max)
  {
    SelectCount(t.rows, 0, LIMIT, max);
    var todo := Select(t.rows, 0, LIMIT, max);
    var u := SweepRowsShape(t, todo, |todo|, attempt, max);
  }

  /** Consecutive sweeps, one environment each. */
  function Sweeps(t: Table, attempts: seq<nat -> Attempt>, max: U32): Table
    decreases |attempts|
  {
    if attempts == [] then t else Sweeps(SweepSpec(t, attempts[0], max), attempts[1..], max)
  }

  predicate AtMost(rows: seq<Row>, peak: nat, max: U32) {
    forall i :: 0 <= i < |rows| ==> Weight(rows[i], max) <= peak
  }

  /** A sweep that reaches every eligible row lowers the largest weight. */
  lemma SweepPeak(t: Table, attempt: nat -> Attempt, peak: nat, max: U32)
    requires UpdatesWork(attempt) && AtMost(t.rows, peak, max) && EligibleFrom(t.rows, 0, max) < LIMIT
    ensures AtMost(SweepSpec(t, attempt, max).rows, if peak == 0 then 0 else peak - 1, max)
  {
    var todo := Select(t.rows, 0, LIMIT, max);
    var rows := SweepSpec(t, attempt, max).rows;
    SelectCount(t.rows, 0, LIMIT, max);
    var u := SweepRowsShape(t, todo, |todo|, attempt, max);
    assert todo[..|todo|] == todo;
    forall i | 0 <= i < |rows| ensures Weight(rows[i], max) <= if peak == 0 then 0 else peak - 1 {
      assert Weight(t.rows[i], max) <= peak;
      if Eligible(t.rows[i], max) {
        SelectAll(t.rows, 0, LIMIT, max, i);
      }
    }
  }

  /** No row becomes eligible again. */
  lemma {:induction false} EligibleShrinks(rows: seq<Row>, before: seq<Row>, i: nat, max: U32)
    requires |rows| == |before| && i <= |rows|
    requires forall j :: 0 <= j < |rows| ==> Weight(rows[j], max) <= Weight(before[j], max)
    ensures EligibleFrom(rows, i, max) <= EligibleFrom(before, i, max)
    decreases |rows| - i
  {
    if i < |rows| {
      EligibleShrinks(rows, before, i + 1, max);
      assert Weight(rows[i], max) <= Weight(before[i], max);
    }
  }

  lemma SweepEligible(t: Table, attempt: nat -> Attempt, max: U32)
    requires UpdatesWork(attempt)
    ensures EligibleFrom(SweepSpec(t, attempt, max).rows, 0, max) <= EligibleFrom(t.rows, 0, max)
  {
    var todo := Select(t.rows, 0, LIMIT, max);
    var u := SweepRowsShape(t, todo, |todo|, attempt, max);
    EligibleShrinks(SweepSpec(t, attempt, max).rows, t.rows, 0, max);
  }

  lemma {:induction false} SmallDrains(t: Table, attempts: seq<nat -> Attempt>, peak: nat, max: U32)
    requires forall k :: 0 <= k < |attempts| ==> UpdatesWork(attempts[k])
    requires AtMost(t.rows, peak, max) && EligibleFrom(t.rows, 0, max) < LIMIT && peak <= |attempts|
    ensures AtMost(Sweeps(t, attempts, max).rows, 0, max)
    decreases |attempts|
  {
    if attempts != [] {
      SweepPeak(t, attempts[0], peak, max);
      SweepEligible(t, attempts[0], max);
      SmallDrains(SweepSpec(t, attempts[0], max), attempts[1..], if peak == 0 then 0 else peak - 1, max);
    }
  }

  /** Sweeps only use retries up, so what bounds every weight keeps bounding it. */
  lemma SweepKeepsPeak(t: Table, attempt: nat -> Attempt, peak: nat, max: U32)
    requires UpdatesWork(attempt) && AtMost(t.rows, peak, max)
    ensures AtMost(SweepSpec(t, attempt, max).rows, peak, max)
  {
    var todo := Select(t.rows, 0, LIMIT, max);
    var rows := SweepSpec(t, attempt, max).rows;
    var u := SweepRowsShape(t, todo, |todo|, attempt, max);
    forall i | 0 <= i < |rows| ensures Weight(rows[i], max) <= peak {
      assert Weight(t.rows[i], max) <= peak;
    }
  }

  /** A hundredth of the budget, and one sweep for each retry, are enough sweeps for every table. */
  lemma {:induction false} Drains(t: Table, attempts: seq<nat -> Attempt>, peak: nat, max: U32)
    requires forall k :: 0 <= k < |attempts| ==> UpdatesWork(attempts[k])
    requires AtMost(t.rows, peak, max) && Budget(t.rows, max) / LIMIT + peak <= |attempts|
    ensures AtMost(Sweeps(t, attempts, max).rows, 0, max)
    decreases |attempts|
  {
    if EligibleFrom(t.rows, 0, max) < LIMIT {
      SmallDrains(t, attempts, peak, max);
    } else {
      SweepProgress(t, if attempts != [] then attempts[0] else _ => Attempt(true, true, true), max);
      if attempts != [] {
        SweepKeepsPeak(t, attempts[0], peak, max);
        Drains(SweepSpec(t, attempts[0], max), attempts[1..], peak, max);
      }
    }
  }

  lemma SweepSafe(t: Table, n: nat, attempt: nat -> Attempt, max: U32)
    requires LimitOk(max) && RowsOk(t, max) && QueueOk(t) && n <= |Select(t.rows, 0, LIMIT, max)|
    ensures var u := SweepRows(t, Select(t.rows, 0, LIMIT, max), n, attempt, max);
            RowsOk(u, max) && QueueOk(u) && Extends(t, u)
  {
    if n > 0 {
      SweepSafe(t, n - 1, attempt, max);
      var todo := Select(t.rows, 0, LIMIT, max);
      QueryOk(t, max);
      assert ReadOk(todo[n - 1], t, max);
      SweepRowSafe(SweepRows(t, todo, n - 1, attempt, max), todo[n - 1], attempt(n - 1), max);
    }
  }

  lemma SweepRowSafe(t: Table, row: (nat, int), a: Attempt, max: U32)
    requires LimitOk(max) && RowsOk(t, max) && QueueOk(t) && ReadOk(row, t, max)
    ensures var u := SweepRow(t, row, a, max); RowsOk(u, max) && QueueOk(u) && Extends(t, u)
  {
    PushKeeps(t, row.0, max);
    var u := Pushed(t, row.0);
    MarkKeeps(u, row.0, max);
    RetryKeeps(t, row.0, row.1, max);
    RetryKeeps(u, row.0, row.1, max);
  }

  lemma {:induction false} SweepsSafe(t: Table, attempts: seq<nat -> Attempt>, max: U32)
    requires LimitOk(max) && RowsOk(t, max) && QueueOk(t)
    ensures RowsOk(Sweeps(t, attempts, max), max) && QueueOk(Sweeps(t, attempts, max))
    ensures Extends(t, Sweeps(t, attempts, max))
    decreases |attempts|
  {
    if attempts != [] {
      SweepSafe(t, |Select(t.rows, 0, LIMIT, max)|, attempts[0], max);
      SweepsSafe(SweepSpec(t, attempts[0], max), attempts[1..], max);
    }
  }

  /**
   From whatever table any run has left behind, that many sweeps settle every row: it is
   published and has been pushed, or it is failed and has used up its retries.
   */
  lemma EverythingSettles(steps: seq<Step>, attempts: seq<nat -> Attempt>, max: U32)
    requires LimitOk(max) && Executable(steps, max)
    requires forall k :: 0 <= k < |attempts| ==> UpdatesWork(attempts[k])
    requires Budget(After(steps, max).table.rows, max) / 100 + max <= |attempts|
    ensures var t := Sweeps(After(steps, max).table, attempts, max);
            HoldsMessages(t.rows, Requested(steps)) && RowsOk(t, max)
            && forall i :: 0 <= i < |t.rows| ==> !t.rows[i].status.Pending?
  {
    RunKeeps(steps, max);
    Durability(steps, max);
    var t := After(steps, max).table;
    forall i | 0 <= i < |t.rows| ensures Weight(t.rows[i], max) <= max {
      assert RowOk(t.rows[i], i, t.queue, max);
    }
    Drains(t, attempts, max, max);
    SweepsSafe(t, attempts, max);
    var u := Sweeps(t, attempts, max);
    SweepsLength(t, attempts, max);
    forall i | 0 <= i < |u.rows| ensures !u.rows[i].status.Pending? {
      assert RowOk(u.rows[i], i, u.queue, max) && Weight(u.rows[i], max) <= 0;
    }
  }

  lemma {:induction false} SweepsLength(t: Table, attempts: seq<nat -> Attempt>, max: U32)
    ensures |Sweeps(t, attempts, max).rows| == |t.rows|
    decreases |attempts|
  {
    if attempts != [] {
      SweepsLength(SweepSpec(t, attempts[0], max), attempts[1..], max);
    }
  }

  /** The budget is at most `max` for each row, so the number of sweeps is bounded in advance. */
  lemma {:induction false} BudgetBound(rows: seq<Row>, max: U32)
    requires AtMost(rows, max, max)
    ensures Budget(rows, max) <= |rows| * max
  {
    if rows != [] {
      var n := |rows| - 1;
      assert AtMost(rows[..n], max, max);
      BudgetBound(rows[..n], max);
      assert Weight(rows[n], max) <= max;
    }
  }
}
