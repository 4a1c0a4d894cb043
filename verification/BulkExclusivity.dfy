/**
 Starting bulk operations: `create_operation` (apps/api/app/services/bulk_queue.py:53-87) with the
 endpoint around it (apps/api/app/api/jobs.py:327-350), the executor (bulk_queue.py:435-459) and the
 cancel request (packages/db/encodr_db/repositories/bulk_queue_operations.py:78-84), interleaved.

 Requests read committed rows and their own; the unique index admits one active row, committed or not.
 */
module BulkExclusivity {
  import opened Wrappers
  import opened BulkQueue
  import opened Transactions

  type OperationId = nat
  type RequestId = nat

  datatype Row = Row(hash: string, status: Status, fate: Fate, maker: Option<RequestId>)

  datatype Phase =
    | FindSame | FindAny | Insert | FallBackSame | FallBackAny
    | Holds(id: OperationId, created: bool)
    | Answered(id: OperationId, created: bool, started: bool)
    | Refused | Errored

  datatype Request = Request(hash: string, phase: Phase)

  /** A live thread has yet to mark its operation running, has done so, or has written its end. */
  datatype Work = Fresh | Marked | Closed

  datatype ThreadPhase = Starting | Alive(work: Work) | Leaving | Dead

  datatype Thread = Thread(id: OperationId, phase: ThreadPhase)

  /** The executor: the ids it counts as running, and every thread it ever launched. */
  datatype Pool = Pool(running: set<OperationId>, threads: seq<Thread>)

  /** `cancels` holds the rows a cancel request has read as active and not yet written. */
  datatype State = State(rows: seq<Row>, requests: seq<Request>, cancels: set<OperationId>, pool: Pool)

  datatype Action =
    | Arrive(hash: string)
    | Advance(r: RequestId)
    | Commit(r: RequestId)
    | Abort(r: RequestId)
    | Start(r: RequestId)
    | Run(step: PoolStep)
    | Mark(t: nat)
    | Finish(t: nat, status: Status)
    | CancelRead(id: OperationId)
    | CancelWrite(id: OperationId)

  predicate Live(r: Row) { !r.fate.RolledBack? && Active(r.status) }

  predicate Seen(row: Row, r: RequestId) { SeenBy(row.fate, r) }

  predicate AnyLive(rows: seq<Row>) { exists i :: 0 <= i < |rows| && Live(rows[i]) }

  /** The newest active row a request sees, of its own selection or of any. */
  function Find(rows: seq<Row>, r: RequestId, hash: Option<string>): (found: Option<OperationId>)
    ensures found.Some? ==> found.value < |rows| && Live(rows[found.value]) && Seen(rows[found.value], r)
    ensures found.Some? && hash.Some? ==> rows[found.value].hash == hash.value
    ensures found.None? ==> forall i :: 0 <= i < |rows| && Live(rows[i]) && Seen(rows[i], r) ==> hash.Some? && rows[i].hash != hash.value
  {
    if rows == [] then None
    else
      var last := rows[|rows| - 1];
      if Live(last) && Seen(last, r) && (hash.Some? ==> last.hash == hash.value) then Some(|rows| - 1)
      else Find(rows[..|rows| - 1], r, hash)
  }

  // -------------------------------------------------------- The executor

  datatype PoolStep = Launch(id: OperationId) | Spawn(t: nat, ok: bool) | Labour(t: nat, work: Work) | Return(t: nat) | Clear(t: nat)

  predicate PoolEnabled(pool: Pool, step: PoolStep) {
    match step
    case Launch(_) => true
    case Spawn(t, _) => t < |pool.threads| && pool.threads[t].phase.Starting?
    case Labour(t, _) => t < |pool.threads| && pool.threads[t].phase.Alive?
    case Return(t) => t < |pool.threads| && pool.threads[t].phase.Alive?
    case Clear(t) => t < |pool.threads| && pool.threads[t].phase.Leaving?
  }

  function WithThread(pool: Pool, t: nat, phase: ThreadPhase): Pool
    requires t < |pool.threads|
  {
    pool.(threads := pool.threads[t := pool.threads[t].(phase := phase)])
  }

  /** `start` under the lock, the thread it launches or fails to, and `_run_and_clear`. */
  function ApplyPool(pool: Pool, step: PoolStep): Pool
    requires PoolEnabled(pool, step)
  {
    match step
    case Launch(id) =>
      if id in pool.running then pool
      else Pool(pool.running + {id}, pool.threads + [Thread(id, Starting)])
    case Spawn(t, ok) => WithThread(pool, t, if ok then Alive(Fresh) else Dead)
    case Labour(t, work) => WithThread(pool, t, Alive(work))
    case Return(t) => WithThread(pool, t, Leaving)
    case Clear(t) => WithThread(pool, t, Dead).(running := pool.running - {pool.threads[t].id})
  }

  predicate PoolRuns(pool: Pool, steps: seq<PoolStep>, end: Pool)
    decreases |steps|
  {
    if steps == [] then end == pool
    else PoolEnabled(pool, steps[0]) && PoolRuns(ApplyPool(pool, steps[0]), steps[1..], end)
  }

  predicate OneThreadEach(pool: Pool) {
    && (forall t :: 0 <= t < |pool.threads| && !pool.threads[t].phase.Dead? ==> pool.threads[t].id in pool.running)
    && (forall t, u :: 0 <= t < u < |pool.threads| && !pool.threads[t].phase.Dead? && !pool.threads[u].phase.Dead? ==>
          pool.threads[t].id != pool.threads[u].id)
  }

  lemma PoolStepKeepsOneThread(pool: Pool, step: PoolStep)
    requires OneThreadEach(pool) && PoolEnabled(pool, step)
    ensures OneThreadEach(ApplyPool(pool, step))
  {
  }

  /** Whoever starts what how often, no operation has two threads at once. */
  lemma {:induction false} OneThreadPerOperation(pool: Pool, steps: seq<PoolStep>, end: Pool)
    requires OneThreadEach(pool) && PoolRuns(pool, steps, end)
    ensures OneThreadEach(end)
    decreases |steps|
  {
    if steps != [] {
      PoolStepKeepsOneThread(pool, steps[0]);
      OneThreadPerOperation(ApplyPool(pool, steps[0]), steps[1..], end);
    }
  }

  // -------------------------------------------------------- Requests and operations

  /** The unique index admits an active status for this row. */
  predicate Admits(rows: seq<Row>, id: OperationId)
    requires id < |rows|
  {
    AnyLive(rows) ==> Live(rows[id])
  }

  predicate ThreadAt(st: State, t: nat, works: set<Work>) {
    && t < |st.pool.threads| && st.pool.threads[t].phase.Alive? && st.pool.threads[t].phase.work in works
    && st.pool.threads[t].id < |st.rows| && st.rows[st.pool.threads[t].id].fate == Committed
  }

  /**
   An insert waits for another request's uncommitted active row. Only the request that made an
   operation starts it, once; a thread may fail before it has marked its operation running.
   */
  predicate Enabled(st: State, a: Action) {
    match a
    case Arrive(_) => true
    case Advance(r) =>
      && r < |st.requests|
      && st.requests[r].phase in {FindSame, FindAny, Insert, FallBackSame, FallBackAny}
      && (st.requests[r].phase.Insert? ==> AnyLive(st.rows) ==> Find(st.rows, r, None).Some?)
    case Commit(r) => r < |st.requests| && st.requests[r].phase.Holds?
    case Abort(r) => r < |st.requests| && !st.requests[r].phase.Answered?
    case Start(r) =>
      r < |st.requests| && st.requests[r].phase.Answered? && st.requests[r].phase.created && !st.requests[r].phase.started
    case Run(step) => PoolEnabled(st.pool, step) && !step.Launch? && !step.Labour?
    case Mark(t) => ThreadAt(st, t, {Fresh}) && Admits(st.rows, st.pool.threads[t].id)
    case Finish(t, status) =>
      && ThreadAt(st, t, {Fresh, Marked}) && status in {Completed, Cancelled, Crashed}
      && (st.pool.threads[t].phase.work == Fresh ==> status == Crashed)
    case CancelRead(id) => id < |st.rows| && st.rows[id].fate == Committed && Active(st.rows[id].status)
    case CancelWrite(id) =>
      id in st.cancels && id < |st.rows| && st.rows[id].fate == Committed && Admits(st.rows, id)
  }

  function WithPhase(st: State, r: RequestId, phase: Phase): State
    requires r < |st.requests|
  {
    st.(requests := st.requests[r := st.requests[r].(phase := phase)])
  }

  function AdvanceRequest(st: State, r: RequestId): State
    requires Enabled(st, Advance(r))
  {
    var x := st.requests[r];
    var same, any := Find(st.rows, r, Some(x.hash)), Find(st.rows, r, None);
    match x.phase
    case FindSame => if same.Some? then WithPhase(st, r, Holds(same.value, false)) else WithPhase(st, r, FindAny)
    case FindAny =>
      if any.None? then WithPhase(st, r, Insert)
      else if st.rows[any.value].hash == x.hash then WithPhase(st, r, Holds(any.value, false))
      else WithPhase(st, r, Refused)
    case Insert =>
      if any.Some? then WithPhase(st, r, FallBackSame)
      else
        WithPhase(st, r, Holds(|st.rows|, true)).(rows := st.rows + [Row(x.hash, Waiting, Uncommitted(r), Some(r))])
    case FallBackSame => if same.Some? then WithPhase(st, r, Holds(same.value, false)) else WithPhase(st, r, FallBackAny)
    case FallBackAny => if any.Some? then WithPhase(st, r, Refused) else WithPhase(st, r, Errored)
    case _ => st
  }

  function Settle(rows: seq<Row>, r: RequestId, fate: Fate): (settled: seq<Row>)
    ensures |settled| == |rows|
    ensures forall i :: 0 <= i < |rows| ==>
      settled[i] == rows[i].(fate := Settled(rows[i].fate, r, fate))
  {
    if rows == [] then []
    else
      var last := rows[|rows| - 1];
      Settle(rows[..|rows| - 1], r, fate) + [last.(fate := Settled(last.fate, r, fate))]
  }

  function WithStatus(st: State, id: OperationId, status: Status): State
    requires id < |st.rows|
  {
    st.(rows := st.rows[id := st.rows[id].(status := status)])
  }

  function Apply(st: State, a: Action): State
    requires Enabled(st, a)
  {
    match a
    case Arrive(hash) => st.(requests := st.requests + [Request(hash, FindSame)])
    case Advance(r) => AdvanceRequest(st, r)
    case Commit(r) =>
      var x := st.requests[r].phase;
      WithPhase(st, r, Answered(x.id, x.created, false)).(rows := Settle(st.rows, r, Committed))
    case Abort(r) => WithPhase(st, r, Errored).(rows := Settle(st.rows, r, RolledBack))
    case Start(r) =>
      var x := st.requests[r].phase;
      WithPhase(st, r, x.(started := true)).(pool := ApplyPool(st.pool, Launch(x.id)))
    case Run(step) => st.(pool := ApplyPool(st.pool, step))
    case Mark(t) => WithStatus(st, st.pool.threads[t].id, Running).(pool := ApplyPool(st.pool, Labour(t, Marked)))
    case Finish(t, status) => WithStatus(st, st.pool.threads[t].id, status).(pool := ApplyPool(st.pool, Labour(t, Closed)))
    case CancelRead(id) => st.(cancels := st.cancels + {id})
    case CancelWrite(id) =>
      WithStatus(st, id, Cancelling).(cancels := st.cancels - {id})
  }

  predicate Runs(st: State, acts: seq<Action>, end: State)
    decreases |acts|
  {
    if acts == [] then end == st else Enabled(st, acts[0]) && Runs(Apply(st, acts[0]), acts[1..], end)
  }

  predicate Initial(st: State) {
    && st.requests == [] && st.cancels == {} && st.pool == Pool({}, [])
    && (forall i :: 0 <= i < |st.rows| ==> st.rows[i].fate == Committed && st.rows[i].maker.None?)
    && AtMostOneActive(st.rows)
  }

  // -------------------------------------------------------- What holds throughout

  predicate AtMostOneActive(rows: seq<Row>) {
    forall i, j :: 0 <= i < j < |rows| && Live(rows[i]) ==> !Live(rows[j])
  }

  predicate Owns(p: Phase, id: OperationId) {
    (p.Holds? || p.Answered?) && p.id == id && p.created
  }

  /** Exactly its maker was told that it made the row, and a row without a maker was there before. */
  predicate RowSound(st: State, i: OperationId)
    requires i < |st.rows|
  {
    var row := st.rows[i];
    && (row.maker.Some? ==> row.maker.value < |st.requests| && st.requests[row.maker.value].hash == row.hash)
    && (row.maker.Some? && !row.fate.RolledBack? ==> Owns(st.requests[row.maker.value].phase, i))
    && (row.fate.Uncommitted? ==> row.maker == Some(row.fate.owner) && st.requests[row.fate.owner].phase.Holds?)
  }

  /** A request holds, or was told of, a row of its own selection; the row is its own when it made it. */
  predicate RequestSound(st: State, r: RequestId)
    requires r < |st.requests|
  {
    var x := st.requests[r];
    x.phase.Holds? || x.phase.Answered? ==>
      && x.phase.id < |st.rows| && st.rows[x.phase.id].hash == x.hash
      && (x.phase.created ==> st.rows[x.phase.id].maker == Some(r))
      && (x.phase.Holds? && x.phase.created ==> st.rows[x.phase.id].fate == Uncommitted(r))
      && (x.phase.Answered? || !x.phase.created ==> st.rows[x.phase.id].fate == Committed)
  }

  predicate Sound(st: State) {
    && AtMostOneActive(st.rows)
    && (forall i :: 0 <= i < |st.rows| ==> RowSound(st, i))
    && (forall r :: 0 <= r < |st.requests| ==> RequestSound(st, r))
  }

  /** The row a request made and has not yet had started. */
  predicate Unstarted(x: Request) {
    (x.phase.Holds? && x.phase.created) || (x.phase.Answered? && x.phase.created && !x.phase.started)
  }

  predicate NoThread(pool: Pool, id: OperationId) {
    forall t :: 0 <= t < |pool.threads| ==> pool.threads[t].id != id
  }

  predicate IsActive(st: State, id: OperationId) { id < |st.rows| && Active(st.rows[id].status) }

  /** A thread still to mark its operation running. */
  predicate Unmarked(thread: Thread) { thread.phase.Starting? || thread.phase == Alive(Fresh) }

  /** No operation ends before the only thread it ever gets has begun, and none is marked after its end. */
  predicate StartsSound(st: State) {
    && OneThreadEach(st.pool)
    && (forall t :: 0 <= t < |st.pool.threads| ==> st.pool.threads[t].id < |st.rows|)
    && (forall t :: 0 <= t < |st.pool.threads| && Unmarked(st.pool.threads[t]) ==> IsActive(st, st.pool.threads[t].id))
    && (forall r :: 0 <= r < |st.requests| && Unstarted(st.requests[r]) ==>
          IsActive(st, st.requests[r].phase.id) && NoThread(st.pool, st.requests[r].phase.id))
  }

  lemma AdvanceKeepsSound(st: State, r: RequestId)
    requires Sound(st) && Enabled(st, Advance(r))
    ensures Sound(AdvanceRequest(st, r))
  {
    if st.requests[r].phase.Insert? && Find(st.rows, r, None).None? {
      InsertKeepsSound(st, r);
    } else {
      QuietAdvance(st, r);
      PhaseKeepsSound(st, r, AdvanceRequest(st, r).requests[r].phase);
    }
  }

  /** A step that makes no row: the request goes on, or holds a committed row of its own selection. */
  lemma QuietAdvance(st: State, r: RequestId)
    requires Sound(st) && Enabled(st, Advance(r))
    requires !(st.requests[r].phase.Insert? && Find(st.rows, r, None).None?)
    ensures var phase := AdvanceRequest(st, r).requests[r].phase;
      && AdvanceRequest(st, r) == WithPhase(st, r, phase) && !phase.Answered?
      && (phase.Holds? ==>
            !phase.created && phase.id < |st.rows| && st.rows[phase.id].fate == Committed
            && st.rows[phase.id].hash == st.requests[r].hash)
  {
    var phase := AdvanceRequest(st, r).requests[r].phase;
    if phase.Holds? {
      assert RowSound(st, phase.id) && RequestSound(st, r);
    }
  }

  lemma PhaseKeepsSound(st: State, r: RequestId, phase: Phase)
    requires Sound(st) && r < |st.requests| && !st.requests[r].phase.Holds? && !st.requests[r].phase.Answered? && !phase.Answered?
    requires phase.Holds? ==>
      !phase.created && phase.id < |st.rows| && st.rows[phase.id].fate == Committed && st.rows[phase.id].hash == st.requests[r].hash
    ensures Sound(WithPhase(st, r, phase))
  {
    var st' := WithPhase(st, r, phase);
    forall i | 0 <= i < |st'.rows| ensures RowSound(st', i) {
      assert RowSound(st, i);
    }
    forall q | 0 <= q < |st'.requests| ensures RequestSound(st', q) {
      assert RequestSound(st, q);
    }
  }

  lemma InsertKeepsSound(st: State, r: RequestId)
    requires Sound(st) && Enabled(st, Advance(r)) && st.requests[r].phase.Insert? && Find(st.rows, r, None).None?
    ensures Sound(AdvanceRequest(st, r))
  {
    var st' := AdvanceRequest(st, r);
    forall i | 0 <= i < |st'.rows| ensures RowSound(st', i) {
      if i < |st.rows| {
        assert RowSound(st, i);
      }
    }
    forall q | 0 <= q < |st'.requests| ensures RequestSound(st', q) {
      assert RequestSound(st, q);
    }
  }

  lemma SettleKeepsSound(st: State, r: RequestId)
    requires Sound(st)
    ensures Enabled(st, Commit(r)) ==> Sound(Apply(st, Commit(r)))
    ensures Enabled(st, Abort(r)) ==> Sound(Apply(st, Abort(r)))
  {
    if Enabled(st, Commit(r)) {
      SettledRowsAreSound(st, Apply(st, Commit(r)), r);
    }
    if Enabled(st, Abort(r)) {
      SettledRowsAreSound(st, Apply(st, Abort(r)), r);
    }
  }

  lemma SettledRowsAreSound(st: State, st': State, r: RequestId)
    requires Sound(st)
    requires (Enabled(st, Commit(r)) && st' == Apply(st, Commit(r))) || (Enabled(st, Abort(r)) && st' == Apply(st, Abort(r)))
    ensures Sound(st')
  {
    assert RequestSound(st, r);
    forall i | 0 <= i < |st'.rows| ensures RowSound(st', i) {
      assert RowSound(st, i);
    }
    forall q | 0 <= q < |st'.requests| ensures RequestSound(st', q) {
      assert RequestSound(st, q);
    }
    forall i, j | 0 <= i < j < |st'.rows| && Live(st'.rows[i]) ensures !Live(st'.rows[j]) {
      assert Live(st.rows[i]);
    }
  }

  lemma StatusKeepsSound(st: State, st': State, id: OperationId)
    requires Sound(st) && id < |st.rows| == |st'.rows| && st'.requests == st.requests
    requires st'.rows == st.rows[id := st.rows[id].(status := st'.rows[id].status)]
    requires Live(st'.rows[id]) && AnyLive(st.rows) ==> Live(st.rows[id])
    ensures Sound(st')
  {
    forall i | 0 <= i < |st'.rows| ensures RowSound(st', i) {
      assert RowSound(st, i);
    }
    forall q | 0 <= q < |st'.requests| ensures RequestSound(st', q) {
      assert RequestSound(st, q);
    }
  }

  lemma StartKeepsSound(st: State, r: RequestId)
    requires Sound(st) && Enabled(st, Start(r))
    ensures Sound(Apply(st, Start(r)))
  {
    var st' := Apply(st, Start(r));
    forall i | 0 <= i < |st'.rows| ensures RowSound(st', i) {
      assert RowSound(st, i);
    }
    forall q | 0 <= q < |st'.requests| ensures RequestSound(st', q) {
      assert RequestSound(st, q);
    }
  }

  lemma StepKeepsSound(st: State, a: Action)
    requires Sound(st) && Enabled(st, a)
    ensures Sound(Apply(st, a))
  {
    var st' := Apply(st, a);
    match a
    case Advance(r) => AdvanceKeepsSound(st, r);
    case Commit(r) => SettleKeepsSound(st, r);
    case Abort(r) => SettleKeepsSound(st, r);
    case Mark(t) => StatusKeepsSound(st, st', st.pool.threads[t].id);
    case Finish(t, _) => StatusKeepsSound(st, st', st.pool.threads[t].id);
    case Start(r) => StartKeepsSound(st, r);
    case CancelWrite(id) => StatusKeepsSound(st, st', id);
    case _ =>
      assert forall i :: 0 <= i < |st.rows| ==> RowSound(st, i) ==> RowSound(st', i);
      forall q | 0 <= q < |st'.requests| ensures RequestSound(st', q) {
        if q < |st.requests| {
          assert RequestSound(st, q);
        }
      }
  }

  lemma {:induction false} ReachableIsSound(st: State, acts: seq<Action>, end: State)
    requires Sound(st) && StartsSound(st) && Runs(st, acts, end)
    ensures Sound(end) && StartsSound(end)
    decreases |acts|
  {
    if acts != [] {
      StepKeepsSound(st, acts[0]);
      StepKeepsStarts(st, acts[0]);
      ReachableIsSound(Apply(st, acts[0]), acts[1..], end);
    }
  }

  lemma StepKeepsStarts(st: State, a: Action)
    requires Sound(st) && StartsSound(st) && Enabled(st, a)
    ensures StartsSound(Apply(st, a))
  {
    match a
    case Advance(r) => AdvanceKeepsStarts(st, r);
    case Start(r) => StartKeepsStarts(st, r);
    case Run(step) => PoolKeepsStarts(st, step);
    case Mark(t) => MarkKeepsStarts(st, t);
    case Finish(t, status) => FinishKeepsStarts(st, t, status);
    case _ =>
  }

  lemma PoolKeepsStarts(st: State, step: PoolStep)
    requires StartsSound(st) && Enabled(st, Run(step))
    ensures StartsSound(Apply(st, Run(step)))
  {
    PoolStepKeepsOneThread(st.pool, step);
  }

  lemma MarkKeepsStarts(st: State, t: nat)
    requires StartsSound(st) && Enabled(st, Mark(t))
    ensures StartsSound(Apply(st, Mark(t)))
  {
    PoolStepKeepsOneThread(st.pool, Labour(t, Marked));
  }

  lemma AdvanceKeepsStarts(st: State, r: RequestId)
    requires Sound(st) && StartsSound(st) && Enabled(st, Advance(r))
    ensures StartsSound(AdvanceRequest(st, r))
  {
    if st.requests[r].phase.Insert? && Find(st.rows, r, None).None? {
      assert forall t :: 0 <= t < |st.pool.threads| ==> st.pool.threads[t].id != |st.rows|;
    } else {
      QuietAdvance(st, r);
    }
  }

  lemma StartKeepsStarts(st: State, r: RequestId)
    requires Sound(st) && StartsSound(st) && Enabled(st, Start(r))
    ensures StartsSound(Apply(st, Start(r)))
  {
    var id := st.requests[r].phase.id;
    PoolStepKeepsOneThread(st.pool, Launch(id));
    forall q | 0 <= q < |st.requests| && q != r && Unstarted(st.requests[q]) ensures st.requests[q].phase.id != id {
      assert RequestSound(st, q) && RequestSound(st, r);
    }
  }

  lemma FinishKeepsStarts(st: State, t: nat, status: Status)
    requires Sound(st) && StartsSound(st) && Enabled(st, Finish(t, status))
    ensures StartsSound(Apply(st, Finish(t, status)))
  {
    PoolStepKeepsOneThread(st.pool, Labour(t, Closed));
    var threads := Apply(st, Finish(t, status)).pool.threads;
    assert forall u :: 0 <= u < |threads| && u != t ==> threads[u] == st.pool.threads[u];
  }

  /** Under any interleaving at most one operation is active. */
  lemma OneActiveOperation(st: State, acts: seq<Action>, end: State)
    requires Initial(st) && Runs(st, acts, end)
    ensures AtMostOneActive(end.rows)
  {
    ReachableIsSound(st, acts, end);
  }

  /**
   Two requests told of operations that are still active were told of the same one, which has the
   selection of both; not both were told they made it, and an operation that was not there from the
   start was reported as made to exactly one request.
   */
  lemma IdenticalRequestsShare(st: State, acts: seq<Action>, end: State, q: RequestId, r: RequestId)
    requires Initial(st) && Runs(st, acts, end)
    requires q < r < |end.requests| && end.requests[q].phase.Answered? && end.requests[r].phase.Answered?
    requires var a, b := end.requests[q].phase.id, end.requests[r].phase.id;
      a < |end.rows| && b < |end.rows| ==> Active(end.rows[a].status) && Active(end.rows[b].status)
    ensures var id := end.requests[q].phase.id;
      && end.requests[r].phase.id == id && id < |end.rows|
      && end.requests[q].hash == end.requests[r].hash == end.rows[id].hash
      && !(end.requests[q].phase.created && end.requests[r].phase.created)
  {
    ReachableIsSound(st, acts, end);
    assert RequestSound(end, q) && RequestSound(end, r);
  }

  /** Every committed operation made during the run has one maker, and only it was told so. */
  lemma MadeExactlyOnce(st: State, acts: seq<Action>, end: State, id: OperationId)
    requires Initial(st) && Runs(st, acts, end)
    requires id < |end.rows| && end.rows[id].fate == Committed && end.rows[id].maker.Some?
    ensures var maker := end.rows[id].maker.value;
      forall r :: 0 <= r < |end.requests| ==> (Owns(end.requests[r].phase, id) <==> r == maker)
  {
    ReachableIsSound(st, acts, end);
    assert RowSound(end, id);
    forall r | 0 <= r < |end.requests| && Owns(end.requests[r].phase, id) ensures r == end.rows[id].maker.value {
      assert RequestSound(end, r);
    }
  }

  /** The request sees this row, and it is active. */
  predicate Shows(st: State, r: RequestId, id: OperationId) {
    id < |st.rows| && Live(st.rows[id]) && Seen(st.rows[id], r)
  }

  /**
   What a request is told, step by step: the one active operation it sees if that has its own selection, a
   refusal if it has another, and without one a new operation, or after a lost race the index error.
   */
  lemma RequestsAreAnsweredExactly(first: State, before: seq<Action>, st: State, r: RequestId)
    requires Initial(first) && Runs(first, before, st) && Enabled(st, Advance(r))
    ensures var x, next := st.requests[r], Apply(st, Advance(r));
      && (forall id: OperationId :: Shows(st, r, id) ==>
            && next.rows == st.rows
            && var mine := st.rows[id].hash == x.hash;
               next.requests[r].phase ==
                 match x.phase
                 case FindSame => if mine then Holds(id, false) else FindAny
                 case FindAny => if mine then Holds(id, false) else Refused
                 case Insert => FallBackSame
                 case FallBackSame => if mine then Holds(id, false) else FallBackAny
                 case _ => Refused)
      && ((forall id: OperationId :: !Shows(st, r, id)) ==>
            && next.rows == (if x.phase.Insert? then st.rows + [Row(x.hash, Waiting, Uncommitted(r), Some(r))] else st.rows)
            && next.requests[r].phase ==
                 match x.phase
                 case FindSame => FindAny
                 case FindAny => Insert
                 case Insert => Holds(|st.rows|, true)
                 case FallBackSame => FallBackAny
                 case _ => Errored)
  {
    ReachableIsSound(first, before, st);
    var x := st.requests[r];
    var same, any := Find(st.rows, r, Some(x.hash)), Find(st.rows, r, None);
    forall id: OperationId | Shows(st, r, id) ensures any == Some(id) && (same == if st.rows[id].hash == x.hash then Some(id) else None) {
    }
    if any.Some? {
      assert Shows(st, r, any.value);
    }
    if same.Some? {
      assert Shows(st, r, same.value);
    }
  }

  /** Threads have different operations, whatever counts as running has one, and so has whatever was started. */
  predicate ThreadsSound(st: State) {
    && (forall t, u :: 0 <= t < u < |st.pool.threads| ==> st.pool.threads[t].id != st.pool.threads[u].id)
    && (forall id :: id in st.pool.running ==> !NoThread(st.pool, id))
    && (forall t :: 0 <= t < |st.pool.threads| ==>
          st.pool.threads[t].id < |st.rows| && st.rows[st.pool.threads[t].id].fate == Committed)
    && (forall r :: 0 <= r < |st.requests| && WasStarted(st.requests[r]) ==> !NoThread(st.pool, st.requests[r].phase.id))
  }

  predicate WasStarted(x: Request) { x.phase.Answered? && x.phase.created && x.phase.started }

  /** A step that leaves every thread its operation, and adds none. */
  lemma SameThreads(st: State, st': State)
    requires ThreadsSound(st) && st'.pool.running <= st.pool.running && |st'.pool.threads| == |st.pool.threads|
    requires forall t :: 0 <= t < |st.pool.threads| ==> st'.pool.threads[t].id == st.pool.threads[t].id
    requires forall i :: 0 <= i < |st.rows| && st.rows[i].fate == Committed ==>
      i < |st'.rows| && st'.rows[i].fate == Committed
    requires forall r :: 0 <= r < |st'.requests| && WasStarted(st'.requests[r]) ==>
      r < |st.requests| && st'.requests[r] == st.requests[r]
    ensures ThreadsSound(st')
  {
    assert forall id :: NoThread(st'.pool, id) ==> NoThread(st.pool, id);
  }

  lemma StepKeepsThreads(st: State, a: Action)
    requires Sound(st) && StartsSound(st) && ThreadsSound(st) && Enabled(st, a)
    ensures ThreadsSound(Apply(st, a))
  {
    if a.Start? {
      StartKeepsThreads(st, a.r);
    } else {
      if a.Advance? {
        AdvanceAnswersNobody(st, a.r);
        AdvanceKeepsRows(st, a.r);
      }
      SameThreads(st, Apply(st, a));
    }
  }

  lemma AdvanceAnswersNobody(st: State, r: RequestId)
    requires Enabled(st, Advance(r))
    ensures var next := AdvanceRequest(st, r);
      next.pool == st.pool && |next.requests| == |st.requests| && !next.requests[r].phase.Answered?
      && forall q :: 0 <= q < |st.requests| && q != r ==> next.requests[q] == st.requests[q]
  {
  }

  lemma StartKeepsThreads(st: State, r: RequestId)
    requires Sound(st) && StartsSound(st) && ThreadsSound(st) && Enabled(st, Start(r))
    ensures ThreadsSound(Apply(st, Start(r)))
  {
    assert RequestSound(st, r);
    var st', id := Apply(st, Start(r)), st.requests[r].phase.id;
    assert Unstarted(st.requests[r]) && NoThread(st.pool, id) && id !in st.pool.running;
    assert st'.pool.threads == st.pool.threads + [Thread(id, Starting)];
    assert st'.pool.threads[|st.pool.threads|].id == id;
    forall other | NoThread(st'.pool, other) ensures NoThread(st.pool, other) && other != id {
      assert forall t :: 0 <= t < |st.pool.threads| ==> st'.pool.threads[t] == st.pool.threads[t];
    }
  }

  lemma {:induction false} RunKeepsThreads(st: State, acts: seq<Action>, end: State)
    requires Sound(st) && StartsSound(st) && ThreadsSound(st) && Runs(st, acts, end)
    ensures ThreadsSound(end)
    decreases |acts|
  {
    if acts != [] {
      StepKeepsSound(st, acts[0]);
      StepKeepsStarts(st, acts[0]);
      StepKeepsThreads(st, acts[0]);
      RunKeepsThreads(Apply(st, acts[0]), acts[1..], end);
    }
  }

  /** An operation has no thread before its maker starts it, and exactly one ever after. */
  lemma EachOperationGetsOneThread(st: State, acts: seq<Action>, end: State, r: RequestId)
    requires Initial(st) && Runs(st, acts, end)
    requires r < |end.requests| && end.requests[r].phase.Answered? && end.requests[r].phase.created
    ensures |set t: nat | t < |end.pool.threads| && end.pool.threads[t].id == end.requests[r].phase.id|
         == if end.requests[r].phase.started then 1 else 0
  {
    ReachableIsSound(st, acts, end);
    RunKeepsThreads(st, acts, end);
    var x := end.requests[r].phase;
    var mine := set t: nat | t < |end.pool.threads| && end.pool.threads[t].id == x.id;
    if x.started {
      var t: nat :| t < |end.pool.threads| && end.pool.threads[t].id == x.id;
      assert mine == {t};
    } else {
      assert Unstarted(end.requests[r]);
      assert mine == {};
    }
  }

  lemma {:induction false} RunsOn(st: State, acts: seq<Action>, mid: State, a: Action)
    requires Runs(st, acts, mid) && Enabled(mid, a)
    ensures Runs(st, acts + [a], Apply(mid, a))
    decreases |acts|
  {
    if acts == [] {
      var end := Apply(mid, a);
      assert Runs(end, [], end);
      assert ([a])[1..] == [];
    } else {
      RunsOn(Apply(st, acts[0]), acts[1..], mid, a);
      assert (acts + [a])[1..] == acts[1..] + [a];
    }
  }

  /** A thread's last steps: the operation completes, and the executor forgets it. */
  lemma ThreadEnds(st: State, acts: seq<Action>, mid: State, t: nat) returns (acts': seq<Action>, end: State)
    requires Runs(st, acts, mid) && AtMostOneActive(mid.rows)
    requires ThreadAt(mid, t, {Marked}) && Active(mid.rows[mid.pool.threads[t].id].status)
    ensures Runs(st, acts', end) && end.cancels == mid.cancels && |end.rows| == |mid.rows|
    ensures !AnyLive(end.rows) && end.rows[mid.pool.threads[t].id].fate == Committed
    ensures end.rows[mid.pool.threads[t].id].status == Completed && mid.pool.threads[t].id !in end.pool.running
    ensures end.pool.threads == mid.pool.threads[t := Thread(mid.pool.threads[t].id, Dead)]
  {
    var id := mid.pool.threads[t].id;
    var st2 := Apply(mid, Finish(t, Completed));
    var st3 := Apply(st2, Run(Return(t)));
    end := Apply(st3, Run(Clear(t)));
    RunsOn(st, acts, mid, Finish(t, Completed));
    RunsOn(st, acts + [Finish(t, Completed)], st2, Run(Return(t)));
    RunsOn(st, acts + [Finish(t, Completed)] + [Run(Return(t))], st3, Run(Clear(t)));
    acts' := acts + [Finish(t, Completed)] + [Run(Return(t))] + [Run(Clear(t))];
    assert forall i :: 0 <= i < |mid.rows| && i != id ==> !Live(mid.rows[i]);
  }

  /** From every reachable state, an operation that was made and not started can be started and complete. */
  lemma FreshOperationCompletes(first: State, before: seq<Action>, st: State, r: RequestId)
    returns (acts: seq<Action>, end: State)
    requires Initial(first) && Runs(first, before, st) && Enabled(st, Start(r))
    ensures Runs(st, acts, end)
    ensures var id := st.requests[r].phase.id;
      id < |end.rows| && end.rows[id].fate == Committed && end.rows[id].status == Completed && id !in end.pool.running
  {
    ReachableIsSound(first, before, st);
    RunKeepsThreads(first, before, st);
    var id, t := st.requests[r].phase.id, |st.pool.threads|;
    assert RequestSound(st, r) && Unstarted(st.requests[r]) && NoThread(st.pool, id);
    var st1 := Apply(st, Start(r));
    var st2 := Apply(st1, Run(Spawn(t, true)));
    var st3 := Apply(st2, Mark(t));
    assert Runs(st, [], st);
    RunsOn(st, [], st, Start(r));
    RunsOn(st, [] + [Start(r)], st1, Run(Spawn(t, true)));
    RunsOn(st, [] + [Start(r)] + [Run(Spawn(t, true))], st2, Mark(t));
    var acts3 := [] + [Start(r)] + [Run(Spawn(t, true))] + [Mark(t)];
    StepKeepsSound(st, Start(r));
    StepKeepsSound(st1, Run(Spawn(t, true)));
    StepKeepsSound(st2, Mark(t));
    acts, end := ThreadEnds(st, acts3, st3, t);
  }

  /** The operation is active, and every thread it will ever have is dead. */
  predicate Stranded(st: State, id: OperationId) {
    && id < |st.rows| && st.rows[id].fate == Committed && Active(st.rows[id].status) && !NoThread(st.pool, id)
    && (forall t :: 0 <= t < |st.pool.threads| && st.pool.threads[t].id == id ==> st.pool.threads[t].phase.Dead?)
  }

  lemma StepKeepsStranded(st: State, a: Action, id: OperationId)
    requires Sound(st) && StartsSound(st) && Enabled(st, a) && Stranded(st, id)
    ensures Stranded(Apply(st, a), id)
  {
    var st' := Apply(st, a);
    var t :| 0 <= t < |st.pool.threads| && st.pool.threads[t].id == id;
    assert t < |st'.pool.threads| && st'.pool.threads[t].id == id;
    if a.Start? {
      assert Unstarted(st.requests[a.r]);
    } else if a.Advance? {
      AdvanceAnswersNobody(st, a.r);
      AdvanceKeepsRows(st, a.r);
    }
  }

  lemma AdvanceKeepsRows(st: State, r: RequestId)
    requires Enabled(st, Advance(r))
    ensures st.rows <= AdvanceRequest(st, r).rows
  {
  }

  lemma {:induction false} StrandedStays(st: State, acts: seq<Action>, end: State, id: OperationId)
    requires Sound(st) && StartsSound(st) && Runs(st, acts, end) && Stranded(st, id)
    ensures Stranded(end, id)
    decreases |acts|
  {
    if acts != [] {
      StepKeepsStranded(st, acts[0], id);
      StepKeepsSound(st, acts[0]);
      StepKeepsStarts(st, acts[0]);
      StrandedStays(Apply(st, acts[0]), acts[1..], end, id);
    }
  }

  /**
   A thread that cannot be started strands its operation: in no run that follows does it end, and so no
   other operation ever becomes active.
   */
  lemma FailedStartStrands(first: State, before: seq<Action>, st: State, t: nat, acts: seq<Action>, end: State)
    requires Initial(first) && Runs(first, before, st) && Enabled(st, Run(Spawn(t, false)))
    requires Runs(Apply(st, Run(Spawn(t, false))), acts, end)
    ensures Stranded(end, st.pool.threads[t].id)
    ensures forall i :: 0 <= i < |end.rows| && Live(end.rows[i]) ==> i == st.pool.threads[t].id
  {
    var id, failed := st.pool.threads[t].id, Apply(st, Run(Spawn(t, false)));
    ReachableIsSound(first, before, st);
    RunKeepsThreads(first, before, st);
    StepKeepsSound(st, Run(Spawn(t, false)));
    StepKeepsStarts(st, Run(Spawn(t, false)));
    assert failed.pool.threads[t].id == id;
    assert Stranded(failed, id);
    StrandedStays(failed, acts, end, id);
    ReachableIsSound(failed, acts, end);
  }

  // -------------------------------------------------------- The executor, step by step

  /** `start` on the executor's own state: the set under the lock, and the threads it launched. */
  class Executor {
    var running: set<OperationId>
    var threads: seq<Thread>

    ghost predicate Valid()
      reads this
    {
      OneThreadEach(Pool(running, threads))
    }

    constructor ()
      ensures Valid() && running == {} && threads == []
    {
      running, threads := {}, [];
    }

    method Start(id: OperationId)
      requires Valid()
      modifies this
      ensures Valid()
      ensures running == old(running) + {id}
      ensures threads == if id in old(running) then old(threads) else old(threads) + [Thread(id, Starting)]
    {
      if id in running {
        return;
      }
      running := running + {id};
      threads := threads + [Thread(id, Starting)];
    }

    /** The `finally` of `_run_and_clear`. */
    method Clear(t: nat)
      requires Valid() && t < |threads| && threads[t].phase.Leaving?
      modifies this
      ensures Valid()
      ensures running == old(running) - {old(threads)[t].id}
      ensures threads == old(threads)[t := Thread(old(threads)[t].id, Dead)]
      ensures forall u :: 0 <= u < |threads| && threads[u].id == threads[t].id ==> threads[u].phase.Dead?
    {
      running := running - {threads[t].id};
      threads := threads[t := threads[t].(phase := Dead)];
    }
  }

  // -------------------------------------------------------- A cancel request that comes too late

  predicate Ended(st: State, id: OperationId) {
    id < |st.rows| && st.rows[id].fate == Committed && !Active(st.rows[id].status)
  }

  /** Some run makes the operation active. */
  ghost predicate CanRevive(st: State, id: OperationId) {
    exists acts: seq<Action>, end: State :: Runs(st, acts, end) && IsActive(end, id)
  }

  lemma StepKeepsEnded(st: State, a: Action, id: OperationId)
    requires Sound(st) && StartsSound(st) && Enabled(st, a) && Ended(st, id) && id !in st.cancels
    ensures Ended(Apply(st, a), id) && id !in Apply(st, a).cancels
  {
  }

  /** Without a pending cancel request an ended operation stays ended, whatever happens next. */
  lemma {:induction false} EndedStaysEnded(st: State, acts: seq<Action>, end: State, id: OperationId)
    requires Sound(st) && StartsSound(st) && Runs(st, acts, end) && Ended(st, id) && id !in st.cancels
    ensures Ended(end, id)
    decreases |acts|
  {
    if acts != [] {
      StepKeepsEnded(st, acts[0], id);
      StepKeepsSound(st, acts[0]);
      StepKeepsStarts(st, acts[0]);
      EndedStaysEnded(Apply(st, acts[0]), acts[1..], end, id);
    }
  }

  /**
   In every reachable state without an active operation, an ended one can become active again if
   and only if a cancel request that read it as active is still to be written.
   */
  lemma RevivableExactly(first: State, before: seq<Action>, st: State, id: OperationId)
    requires Initial(first) && Runs(first, before, st) && Ended(st, id) && !AnyLive(st.rows)
    ensures CanRevive(st, id) <==> id in st.cancels
  {
    ReachableIsSound(first, before, st);
    if id in st.cancels {
      var end := Apply(st, CancelWrite(id));
      assert Runs(end, [], end) && [CancelWrite(id)][1..] == [];
      assert Runs(st, [CancelWrite(id)], end);
    } else {
      forall acts: seq<Action>, end: State | Runs(st, acts, end) ensures !IsActive(end, id) {
        EndedStaysEnded(st, acts, end, id);
      }
    }
  }

  /**
   From every reachable state, an operation that is running can be left `cancelling` with no thread
   to end it: a cancel request reads it, its thread ends it, and then the request is written.
   */
  lemma LateCancelRevives(first: State, before: seq<Action>, st: State, t: nat) returns (acts: seq<Action>, end: State)
    requires Initial(first) && Runs(first, before, st)
    requires ThreadAt(st, t, {Marked}) && Active(st.rows[st.pool.threads[t].id].status)
    ensures Runs(st, acts, end)
    ensures var id := st.pool.threads[t].id;
      && id < |end.rows| && end.rows[id].status == Cancelling
      && forall u :: 0 <= u < |end.pool.threads| && end.pool.threads[u].id == id ==> end.pool.threads[u].phase.Dead?
  {
    ReachableIsSound(first, before, st);
    var id := st.pool.threads[t].id;
    assert Runs(st, [], st);
    RunsOn(st, [], st, CancelRead(id));
    var acts1, ended := ThreadEnds(st, [] + [CancelRead(id)], Apply(st, CancelRead(id)), t);
    RunsOn(st, acts1, ended, CancelWrite(id));
    acts, end := acts1 + [CancelWrite(id)], Apply(ended, CancelWrite(id));
  }
}
