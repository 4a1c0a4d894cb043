/**
 The entry points that create jobs, as interleaved steps of database sessions over one job table:
 `create_job`, `retry_job`, `recover_with_strip_only`, `create_watched_job_if_needed` and
 `_create_job_from_plan` (apps/api/app/services/jobs.py:127-332, 683-726, 1066-1080),
 `_queue_review_job` (apps/api/app/services/review.py:564-603) and the automatic retry
 (packages/db/encodr_db/repositories/jobs.py:425-466), whose callers first record the failure of the
 job it retries and of its file in the same transaction (apps/api/app/services/worker.py:959-971,
 1148-1160, packages/db/encodr_db/runtime/worker.py:750-751, 1343).

 Sessions read committed rows and their own. The lock is a write to the tracked file's row and lasts
 until the session ends; the unique index admits one active, uncleared row per file
 (packages/db/encodr_db/models/job.py:27-33), committed or not, and makes an insert wait for another
 session that has yet to commit such a row or the end of one.
 */
module JobCreation {
  import opened Wrappers
  import opened JobStatuses
  import opened ReviewGate
  import opened Transactions

  type SessionId = nat
  type FileId = nat
  type JobId = nat
  type EntryId = nat

  /** How a row came to be: there from the start, or made by an entry whose gate saw `gate`. */
  datatype Origin = Existing | By(entry: Entry, id: EntryId, gate: Option<View>)

  /** `failing` is the session that has recorded the job's failure but not committed it. */
  datatype Row = Row(
    file: FileId, plan: PlanSnapshot, status: JobStatus, cleared: bool,
    category: string, updatedAt: int, fate: Fate, failing: Option<SessionId>, origin: Origin)

  datatype Kind = Create | Retry | StripOnly | Watched | Review | AutomaticRetry

  datatype Op = Fail | Lock | Target | NoActive | Gate | Insert

  /** `jobPlan` is the plan the new job will carry, which options or a recovery may rewrite; it may start scheduled. */
  datatype Entry = Entry(
    kind: Kind, file: FileId, plan: PlanSnapshot, jobPlan: PlanSnapshot, allowApproved: bool, original: Option<JobId>,
    scheduled: bool)

  /** Where a session is in its current entry; `FallingBack` follows a violated index. */
  datatype Phase = At(pc: nat) | FallingBack | Finished

  /** How an entry ends that makes no job: `Raised` is the index error itself. */
  datatype Loss = Conflict | Declined | Raised

  datatype Session = Session(entry: Entry, id: EntryId, phase: Phase, gate: Option<View>)

  /** A waiting job as a scheduler pass read it that is about to move it, by an update of its id alone. */
  datatype Reading = Reading(job: JobId, status: JobStatus)

  datatype State = State(
    rows: seq<Row>, tracked: map<FileId, Tracked>, decisions: map<FileId, Decision>, locks: map<FileId, SessionId>,
    sessions: map<SessionId, Session>, lost: map<EntryId, Loss>, nextEntry: nat, readings: multiset<Reading>)

  datatype Action =
    | Begin(s: SessionId, entry: Entry)
    | Advance(s: SessionId)
    | Commit(s: SessionId)
    | Abort(s: SessionId)
    | Update(j: JobId, status: JobStatus, cleared: bool, category: string, at: int)
    | PassRead(j: JobId)
    | PassWrite(reading: Reading)
    | Protect(f: FileId, tracked: Tracked)
    | Decide(f: FileId, decision: Decision)

  /** The order in which each entry point works. */
  function Program(k: Kind): seq<Op> {
    match k
    case Create | Watched => [Lock, Target, NoActive, Gate, Insert]
    case Retry | StripOnly => [Lock, Target, Gate, NoActive, Insert]
    case Review => [Lock, NoActive, Insert]
    case AutomaticRetry => [Fail, Lock, NoActive, Insert]
  }

  predicate Gated(k: Kind) { !k.AutomaticRetry? && !k.Review? }

  function NoActiveAt(k: Kind): nat {
    match k
    case Create | Watched => 2
    case Retry | StripOnly => 3
    case Review => 1
    case AutomaticRetry => 2
  }

  function LockAt(k: Kind): nat { if k.AutomaticRetry? then 1 else 0 }

  const TARGET_AT: nat := 1

  function GateAt(k: Kind): nat { if k.Create? || k.Watched? then 3 else 2 }

  /** The row takes up the unique index. */
  predicate Live(r: Row) { !r.fate.RolledBack? && Active(r.status) && !r.cleared }

  predicate Visible(r: Row, s: SessionId) { SeenBy(r.fate, s) }

  /** A session sees the failure it has recorded itself. */
  function StatusFor(r: Row, s: SessionId): JobStatus { if r.failing == Some(s) then Failed else r.status }

  predicate SeenActive(r: Row, s: SessionId) { Visible(r, s) && Active(StatusFor(r, s)) && !r.cleared }

  predicate SeesActive(rows: seq<Row>, s: SessionId, f: FileId) {
    exists i :: 0 <= i < |rows| && rows[i].file == f && SeenActive(rows[i], s)
  }

  /** What another session has done to the row is not committed. */
  predicate Unsettled(r: Row, s: SessionId) {
    (r.fate.Uncommitted? && r.fate.owner != s) || (r.failing.Some? && r.failing.value != s)
  }

  /** The index makes an insert wait. */
  predicate MustWait(rows: seq<Row>, s: SessionId, f: FileId) {
    exists i :: 0 <= i < |rows| && rows[i].file == f && Live(rows[i]) && Unsettled(rows[i], s)
  }

  predicate AnyLive(rows: seq<Row>, f: FileId) {
    exists i :: 0 <= i < |rows| && rows[i].file == f && Live(rows[i])
  }

  /** `get_latest_for_tracked_file`, with rows in the order they were created. */
  function Latest(rows: seq<Row>, s: SessionId, f: FileId): (r: Option<JobView>)
    ensures r.Some? ==> r.value.id < |rows|
    ensures r.Some? ==> rows[r.value.id].file == f && Visible(rows[r.value.id], s)
    ensures r.Some? ==> r.value == ViewOf(rows, s, r.value.id)
    ensures forall i :: (if r.Some? then r.value.id + 1 else 0) <= i < |rows| ==>
      rows[i].file != f || !Visible(rows[i], s)
  {
    if rows == [] then None
    else if rows[|rows| - 1].file == f && Visible(rows[|rows| - 1], s) then Some(ViewOf(rows, s, |rows| - 1))
    else Latest(rows[..|rows| - 1], s, f)
  }

  function ViewOf(rows: seq<Row>, s: SessionId, i: nat): JobView
    requires i < |rows|
  {
    JobView(i, StatusFor(rows[i], s), rows[i].category, rows[i].updatedAt)
  }

  /** What the gate is asked by each entry point. */
  function GateView(st: State, s: SessionId, e: Entry): View
    requires e.file in st.tracked
  {
    var operational :=
      if e.kind.Retry? && e.original.Some? && e.original.value < |st.rows|
         && StatusFor(st.rows[e.original.value], s) == ManualReview
         && st.rows[e.original.value].category == "replacement_failed"
      then e.original else None;
    View(st.tracked[e.file], e.plan, Latest(st.rows, s, e.file),
         if e.file in st.decisions then Some(st.decisions[e.file]) else None,
         match e.kind case Create => e.allowApproved case StripOnly => true case _ => false,
         operational)
  }

  // -------------------------------------------------------- Steps

  /** The checks a retry or recovery makes before it takes the lock; only a running job is retried automatically. */
  predicate MayBegin(st: State, s: SessionId, e: Entry) {
    && e.file in st.tracked
    && (e.kind.Retry? || e.kind.StripOnly? || e.kind.AutomaticRetry? ==>
          && e.original.Some? && e.original.value < |st.rows|
          && var row := st.rows[e.original.value];
             && row.file == e.file && row.plan == e.plan && Visible(row, s)
             && (e.kind.Retry? ==> Retryable(StatusFor(row, s)))
             && (e.kind.StripOnly? ==> StatusFor(row, s) in {Failed, Cancelled, ManualReview})
             && (e.kind.AutomaticRetry? ==> StatusFor(row, s).Running?))
    && (e.kind.Create? || e.kind.Watched? || e.kind.Review? ==> e.original.None?)
  }

  /** A committed row that no session is writing. */
  predicate Writable(rows: seq<Row>, j: JobId) { j < |rows| && rows[j].fate == Committed && rows[j].failing.None? }

  predicate CanFail(rows: seq<Row>, e: Entry) { e.original.Some? && Writable(rows, e.original.value) }

  /** A pass moves a job it read as scheduled to pending, and one it read as pending to scheduled. */
  function Turned(status: JobStatus): JobStatus { if status.Pending? then Scheduled else Pending }

  /**
   A step is possible: a held lock, a row another session writes, or such a row under the index, makes
   a session wait. Nothing but a scheduler pass makes an inactive job active, and nothing uncovers a
   cleared one.
   */
  predicate Enabled(st: State, a: Action) {
    match a
    case Begin(s, e) => (s in st.sessions ==> st.sessions[s].phase.Finished?) && MayBegin(st, s, e)
    case Advance(s) =>
      && s in st.sessions && !st.sessions[s].phase.Finished?
      && var x := st.sessions[s];
         var f := x.entry.file;
         && f in st.tracked
         && (x.phase.At? ==>
               && x.phase.pc < |Program(x.entry.kind)|
               && match Program(x.entry.kind)[x.phase.pc]
                  case Fail => CanFail(st.rows, x.entry)
                  case Lock => f !in st.locks || st.locks[f] == s
                  case Insert => !MustWait(st.rows, s, f)
                  case _ => true)
    case Commit(s) => s in st.sessions && st.sessions[s].phase.Finished?
    case Abort(s) => s in st.sessions
    case Update(j, status, cleared, _, _) =>
      && Writable(st.rows, j) && (st.rows[j].cleared ==> cleared)
      && (Active(status) && !cleared ==> Live(st.rows[j]))
    case PassRead(j) =>
      j < |st.rows| && st.rows[j].fate == Committed && st.rows[j].status in {Pending, Scheduled} && !st.rows[j].cleared
    case PassWrite(r) =>
      && r in st.readings && Writable(st.rows, r.job)
      && (!st.rows[r.job].cleared && !Live(st.rows[r.job]) ==> !AnyLive(st.rows, st.rows[r.job].file))
    case Protect(f, _) => f !in st.locks
    case Decide(_, _) => true
  }

  function WithPhase(st: State, s: SessionId, phase: Phase): State
    requires s in st.sessions
  {
    st.(sessions := st.sessions[s := st.sessions[s].(phase := phase)])
  }

  /** Watched creation and the automatic retry answer a conflict with `None`. */
  function Refusal(k: Kind): Loss { if k.Watched? || k.AutomaticRetry? then Declined else Conflict }

  /** The entry ends without a job. */
  function Lose(st: State, s: SessionId, loss: Loss): State
    requires s in st.sessions
  {
    WithPhase(st, s, Finished).(lost := st.lost[st.sessions[s].id := loss])
  }

  function AdvanceSession(st: State, s: SessionId): (next: State)
    requires Enabled(st, Advance(s))
    ensures MovesOnly(st, next, s)
  {
    var x := st.sessions[s];
    var e := x.entry;
    var no := Refusal(e.kind);
    if x.phase.FallingBack? then Lose(st, s, if SeesActive(st.rows, s, e.file) then no else Raised)
    else StepOp(st, s, Program(e.kind)[x.phase.pc])
  }

  /** No session but this one has moved. */
  predicate MovesOnly(st: State, next: State, s: SessionId) {
    s in next.sessions && next.sessions == st.sessions[s := next.sessions[s]]
  }

  function StepOp(st: State, s: SessionId, op: Op): (next: State)
    requires s in st.sessions && st.sessions[s].phase.At? && st.sessions[s].entry.file in st.tracked
    requires op == Fail ==> CanFail(st.rows, st.sessions[s].entry)
    ensures MovesOnly(st, next, s)
  {
    var x := st.sessions[s];
    var e := x.entry;
    var no := Refusal(e.kind);
    var onward := WithPhase(st, s, At(x.phase.pc + 1));
    match op
    case Fail =>
      var j := e.original.value;
      onward.(rows := st.rows[j := st.rows[j].(failing := Some(s))])
    case Lock => onward.(locks := st.locks[e.file := s])
    case Target => if st.tracked[e.file].excluded then Lose(st, s, no) else onward
    case NoActive => if SeesActive(st.rows, s, e.file) then Lose(st, s, no) else onward
    case Gate =>
      var view := GateView(st, s, e);
      if Passes(view) then st.(sessions := st.sessions[s := x.(phase := At(x.phase.pc + 1), gate := Some(view))])
      else Lose(st, s, no)
    case Insert =>
      if SeesActive(st.rows, s, e.file) then WithPhase(st, s, FallingBack)
      else
        var row := Row(e.file, e.jobPlan, if e.scheduled then Scheduled else Pending, false, "", 0,
                       Uncommitted(s), None, By(e, x.id, x.gate));
        WithPhase(st, s, Finished).(rows := st.rows + [row])
  }

  /** What the end of a session makes of a row. */
  function SettledRow(r: Row, s: SessionId, fate: Fate): Row {
    var row := r.(fate := Settled(r.fate, s, fate));
    if r.failing != Some(s) then row
    else if fate.Committed? then row.(status := Failed, failing := None)
    else row.(failing := None)
  }

  function Settle(rows: seq<Row>, s: SessionId, fate: Fate): (settled: seq<Row>)
    ensures |settled| == |rows|
    ensures forall i :: 0 <= i < |rows| ==> settled[i] == SettledRow(rows[i], s, fate)
  {
    if rows == [] then []
    else Settle(rows[..|rows| - 1], s, fate) + [SettledRow(rows[|rows| - 1], s, fate)]
  }

  function EndSession(st: State, s: SessionId, fate: Fate): State {
    st.(rows := Settle(st.rows, s, fate),
        sessions := st.sessions - {s},
        locks := map f | f in st.locks && st.locks[f] != s :: st.locks[f])
  }

  function Apply(st: State, a: Action): State
    requires Enabled(st, a)
  {
    match a
    case Begin(s, e) =>
      st.(sessions := st.sessions[s := Session(e, st.nextEntry, At(0), None)], nextEntry := st.nextEntry + 1)
    case Advance(s) => AdvanceSession(st, s)
    case Commit(s) => EndSession(st, s, Committed)
    case Abort(s) => EndSession(st, s, RolledBack)
    case Update(j, status, cleared, category, at) =>
      st.(rows := st.rows[j := st.rows[j].(status := status, cleared := cleared, category := category, updatedAt := at)])
    case PassRead(j) => st.(readings := st.readings + multiset{Reading(j, st.rows[j].status)})
    case PassWrite(r) =>
      st.(rows := st.rows[r.job := st.rows[r.job].(status := Turned(r.status))], readings := st.readings - multiset{r})
    case Protect(f, tracked) => st.(tracked := st.tracked[f := tracked])
    case Decide(f, decision) => st.(decisions := st.decisions[f := decision])
  }

  predicate Runs(st: State, acts: seq<Action>, end: State)
    decreases |acts|
  {
    if acts == [] then end == st else Enabled(st, acts[0]) && Runs(Apply(st, acts[0]), acts[1..], end)
  }

  /** A quiet table: committed rows that satisfy the index, no session and no pass under way. */
  predicate Initial(st: State) {
    && st.locks == map[] && st.sessions == map[] && st.lost == map[] && st.readings == multiset{}
    && (forall i :: 0 <= i < |st.rows| ==> Writable(st.rows, i) && st.rows[i].origin == Existing)
    && Exclusive(st.rows)
  }

  // -------------------------------------------------------- What holds throughout

  /** The session that made `next` has recorded the failure of `row`: either both take effect or neither. */
  predicate Replaces(row: Row, next: Row) { row.failing.Some? && next.fate == Uncommitted(row.failing.value) }

  /** At most one active job per file, uncommitted ones included, but for a job and its automatic retry. */
  predicate Exclusive(rows: seq<Row>) {
    forall i, j :: 0 <= i < j < |rows| && Live(rows[i]) && Live(rows[j]) && rows[i].file == rows[j].file ==>
      Replaces(rows[i], rows[j]) || Replaces(rows[j], rows[i])
  }

  /** The gate's view was one it passes, of this entry's own plan, file rules and retried job. */
  predicate GateHeld(e: Entry, gate: Option<View>) {
    && gate.Some? && Passes(gate.value) && gate.value.plan == e.plan && !gate.value.tracked.excluded
    && (gate.value.allowApproved ==> (e.kind.Create? && e.allowApproved) || e.kind.StripOnly?)
    && (gate.value.operationalRetry.Some? ==> e.kind.Retry? && gate.value.operationalRetry == e.original)
    && (LatestNeedsReview(gate.value) && gate.value.operationalRetry == Some(gate.value.latest.value.id) ==>
          gate.value.latest.value.category == "replacement_failed")
  }

  predicate RowSound(st: State, i: nat)
    requires i < |st.rows|
  {
    var r := st.rows[i];
    && (r.failing.Some? ==> r.fate == Committed && r.failing.value in st.sessions)
    && (r.fate.Uncommitted? ==> r.origin.By? && r.fate.owner in st.sessions && Holder(st, r.file, r.fate.owner))
    && (r.origin.By? ==> MadeSound(st, r, r.origin.entry, r.origin.id, r.origin.gate))
  }

  /** What is known of a row that an entry made. */
  predicate MadeSound(st: State, r: Row, e: Entry, id: EntryId, gate: Option<View>) {
    && id < st.nextEntry && id !in st.lost && e.file == r.file
    && (Gated(e.kind) ==> GateHeld(e, gate) && (r.fate.Uncommitted? ==> Unprotected(st, r.file, gate.value)))
  }

  predicate Holder(st: State, f: FileId, s: SessionId) { f in st.locks && st.locks[f] == s }

  /** The tracked file is still as the gate saw it. */
  predicate Unprotected(st: State, f: FileId, view: View) { f in st.tracked && st.tracked[f] == view.tracked }

  /** The file is not one of Encodr's own. */
  predicate Processable(st: State, f: FileId) { f in st.tracked && !st.tracked[f].excluded }

  predicate Past(x: Session, pc: nat) { x.phase.FallingBack? || (x.phase.At? && x.phase.pc > pc) }

  predicate SessionSound(st: State, s: SessionId)
    requires s in st.sessions
  {
    var x := st.sessions[s];
    && x.id < st.nextEntry
    && (!x.phase.Finished? ==> x.id !in st.lost && Unmade(st.rows, x.id))
    && (Past(x, LockAt(x.entry.kind)) ==> Holder(st, x.entry.file, s))
    && (Gated(x.entry.kind) && Past(x, TARGET_AT) ==> Processable(st, x.entry.file))
    && (Gated(x.entry.kind) && Past(x, GateAt(x.entry.kind)) ==>
          GateHeld(x.entry, x.gate) && Unprotected(st, x.entry.file, x.gate.value))
  }

  predicate Unmade(rows: seq<Row>, id: EntryId) {
    forall i :: 0 <= i < |rows| && rows[i].origin.By? ==> rows[i].origin.id != id
  }

  predicate Sound(st: State) {
    && Exclusive(st.rows)
    && (forall i :: 0 <= i < |st.rows| ==> RowSound(st, i))
    && (forall s :: s in st.sessions ==> SessionSound(st, s))
    && (forall s, t :: s in st.sessions && t in st.sessions && s != t ==> st.sessions[s].id != st.sessions[t].id)
    && (forall i, j :: 0 <= i < j < |st.rows| && st.rows[i].origin.By? && st.rows[j].origin.By? ==>
          st.rows[i].origin.id != st.rows[j].origin.id)
    && (forall id :: id in st.lost ==> id < st.nextEntry)
  }

  lemma InitialIsSound(st: State)
    requires Initial(st)
    ensures Sound(st)
  {
  }

  lemma BeginKeepsSound(st: State, s: SessionId, e: Entry)
    requires Sound(st) && Enabled(st, Begin(s, e))
    ensures Sound(Apply(st, Begin(s, e)))
  {
    var st' := Apply(st, Begin(s, e));
    forall i | 0 <= i < |st'.rows| ensures RowSound(st', i) {
      assert RowSound(st, i);
    }
    forall t | t in st'.sessions ensures SessionSound(st', t) {
      if t == s {
        forall i | 0 <= i < |st.rows| && st.rows[i].origin.By? ensures st.rows[i].origin.id != st.nextEntry {
          assert RowSound(st, i);
        }
      } else {
        assert SessionSound(st, t);
      }
    }
    forall t | t in st.sessions ensures st.sessions[t].id != st.nextEntry {
      assert SessionSound(st, t);
    }
  }

  /** A session's own move that makes no row: everything else about the state is kept. */
  predicate OwnMove(st: State, st': State, s: SessionId) {
    && s in st.sessions && s in st'.sessions
    && st'.rows == st.rows && st'.tracked == st.tracked && st'.nextEntry == st.nextEntry
    && st'.sessions == st.sessions[s := st'.sessions[s]] && st'.sessions[s].id == st.sessions[s].id
    && (forall f :: f in st.locks ==> f in st'.locks && st'.locks[f] == st.locks[f])
    && (st'.lost == st.lost || (st'.lost.Keys == st.lost.Keys + {st.sessions[s].id} && !st.sessions[s].phase.Finished?))
  }

  lemma SessionChangeIsOwnMove(st: State, s: SessionId, x: Session)
    requires s in st.sessions && x.id == st.sessions[s].id
    ensures OwnMove(st, st.(sessions := st.sessions[s := x]), s)
  {
  }

  lemma LosingIsOwnMove(st: State, s: SessionId, loss: Loss)
    requires s in st.sessions && !st.sessions[s].phase.Finished?
    ensures OwnMove(st, Lose(st, s, loss), s)
  {
  }

  /** The session's next step records the failure of the job it retries. */
  predicate Fails(st: State, s: SessionId)
    requires Enabled(st, Advance(s))
  {
    var x := st.sessions[s];
    x.phase.At? && Program(x.entry.kind)[x.phase.pc] == Fail
  }

  lemma QuietAdvanceIsOwnMove(st: State, s: SessionId)
    requires Enabled(st, Advance(s)) && !Fails(st, s) && AdvanceSession(st, s).rows == st.rows
    ensures OwnMove(st, AdvanceSession(st, s), s)
  {
    var x := st.sessions[s];
    if x.phase.FallingBack? {
      LosingIsOwnMove(st, s, if SeesActive(st.rows, s, x.entry.file) then Refusal(x.entry.kind) else Raised);
    } else {
      QuietOpIsOwnMove(st, s, Program(x.entry.kind)[x.phase.pc]);
    }
  }

  lemma QuietOpIsOwnMove(st: State, s: SessionId, op: Op)
    requires s in st.sessions && st.sessions[s].phase.At? && st.sessions[s].entry.file in st.tracked
    requires op != Fail && StepOp(st, s, op).rows == st.rows
    requires var f := st.sessions[s].entry.file; op == Lock && f in st.locks ==> Holder(st, f, s)
    ensures OwnMove(st, StepOp(st, s, op), s)
  {
    LosingIsOwnMove(st, s, Refusal(st.sessions[s].entry.kind));
    SessionChangeIsOwnMove(st, s, StepOp(st, s, op).sessions[s]);
  }

  lemma MoveKeepsSound(st: State, st': State, s: SessionId)
    requires Sound(st) && OwnMove(st, st', s) && SessionSound(st', s)
    ensures Sound(st')
  {
    assert SessionSound(st, s);
    forall i | 0 <= i < |st'.rows| ensures RowSound(st', i) {
      assert RowSound(st, i);
    }
    forall t | t in st'.sessions ensures SessionSound(st', t) {
      if t != s {
        assert SessionSound(st, t);
      }
    }
  }

  lemma AdvanceKeepsSound(st: State, s: SessionId)
    requires Sound(st) && Enabled(st, Advance(s))
    ensures Sound(AdvanceSession(st, s))
  {
    var x := st.sessions[s];
    if x.phase.At? && Program(x.entry.kind)[x.phase.pc] == Insert && !SeesActive(st.rows, s, x.entry.file) {
      InsertKeepsSound(st, s);
    } else if Fails(st, s) {
      FailKeepsSound(st, s);
    } else {
      QuietAdvanceIsOwnMove(st, s);
      OwnStepKeepsSound(st, s);
      MoveKeepsSound(st, AdvanceSession(st, s), s);
    }
  }

  /** A step without an insert leaves its own session sound. */
  lemma OwnStepKeepsSound(st: State, s: SessionId)
    requires Sound(st) && Enabled(st, Advance(s)) && !Fails(st, s) && AdvanceSession(st, s).rows == st.rows
    ensures SessionSound(AdvanceSession(st, s), s)
  {
    var x := st.sessions[s];
    assert SessionSound(st, s);
    if x.phase.At? {
      var op := Program(x.entry.kind)[x.phase.pc];
      if op == Gate {
        GateStepKeepsSound(st, s);
      } else {
        PlainStepKeepsSound(st, s, op);
      }
    }
  }

  lemma ProgramShape(k: Kind)
    ensures Gated(k) ==> TARGET_AT < GateAt(k) < |Program(k)| - 1 && Program(k)[TARGET_AT] == Target && Program(k)[GateAt(k)] == Gate
    ensures Gated(k) ==> LockAt(k) < TARGET_AT
    ensures LockAt(k) < NoActiveAt(k) < |Program(k)| - 1
    ensures Program(k)[LockAt(k)] == Lock && Program(k)[NoActiveAt(k)] == NoActive
    ensures forall pc :: 0 <= pc < |Program(k)| && Program(k)[pc] == Gate ==> Gated(k) && pc == GateAt(k)
    ensures forall pc :: 0 <= pc < |Program(k)| && Program(k)[pc] == Lock ==> pc == LockAt(k)
    ensures forall pc :: 0 <= pc < |Program(k)| && Program(k)[pc] == Insert ==> pc == |Program(k)| - 1
    ensures forall pc :: 0 <= pc < |Program(k)| && Program(k)[pc] == Fail ==> pc < LockAt(k) && !Gated(k)
  {
  }

  lemma PlainStepKeepsSound(st: State, s: SessionId, op: Op)
    requires s in st.sessions && SessionSound(st, s) && Enabled(st, Advance(s)) && AdvanceSession(st, s).rows == st.rows
    requires st.sessions[s].phase.At? && op == Program(st.sessions[s].entry.kind)[st.sessions[s].phase.pc]
    requires op != Gate && op != Fail
    ensures SessionSound(AdvanceSession(st, s), s)
  {
    ProgramShape(st.sessions[s].entry.kind);
    PlainOpKeepsSound(st, s, op);
  }

  lemma PlainOpKeepsSound(st: State, s: SessionId, op: Op)
    requires s in st.sessions && SessionSound(st, s) && st.sessions[s].phase.At?
    requires op != Gate && op != Fail && st.sessions[s].entry.file in st.tracked && StepOp(st, s, op).rows == st.rows
    requires var k, pc := st.sessions[s].entry.kind, st.sessions[s].phase.pc;
      && (pc == LockAt(k) ==> op == Lock) && (Gated(k) ==> pc != GateAt(k) && (pc == TARGET_AT ==> op == Target))
      && (op == Insert ==> pc > LockAt(k)) && (op == Insert && Gated(k) ==> pc > GateAt(k) > TARGET_AT)
    ensures SessionSound(StepOp(st, s, op), s)
  {
    var next := StepOp(st, s, op);
    if !next.sessions[s].phase.Finished? {
      PhaseKeepsSound(st, next, s);
    }
  }

  /** A session that goes on without passing a gate stays sound if it has the lock and the check it needs by then. */
  lemma PhaseKeepsSound(st: State, next: State, s: SessionId)
    requires s in st.sessions && SessionSound(st, s) && !st.sessions[s].phase.Finished?
    requires s in next.sessions && next.sessions[s] == st.sessions[s].(phase := next.sessions[s].phase)
    requires next.rows == st.rows && next.tracked == st.tracked && next.nextEntry == st.nextEntry && next.lost == st.lost
    requires !next.sessions[s].phase.Finished?
    requires var x, x' := st.sessions[s], next.sessions[s];
      && (Past(x', LockAt(x.entry.kind)) ==> Holder(next, x.entry.file, s))
      && (Gated(x.entry.kind) && Past(x', TARGET_AT) ==> Processable(st, x.entry.file))
      && (Gated(x.entry.kind) && Past(x', GateAt(x.entry.kind)) ==> Past(x, GateAt(x.entry.kind)))
    ensures SessionSound(next, s)
  {
  }

  lemma GateStepKeepsSound(st: State, s: SessionId)
    requires s in st.sessions && SessionSound(st, s) && Enabled(st, Advance(s))
    requires var x := st.sessions[s]; x.phase.At? && Program(x.entry.kind)[x.phase.pc] == Gate
    ensures SessionSound(AdvanceSession(st, s), s)
  {
    ProgramShape(st.sessions[s].entry.kind);
    var e := st.sessions[s].entry;
    assert Processable(st, e.file);
    if Passes(GateView(st, s, e)) {
      PassedGateIsHeld(st, s, e);
    }
  }

  lemma PassedGateIsHeld(st: State, s: SessionId, e: Entry)
    requires Processable(st, e.file) && Passes(GateView(st, s, e))
    ensures GateHeld(e, Some(GateView(st, s, e)))
  {
  }

  lemma InsertKeepsSound(st: State, s: SessionId)
    requires Sound(st) && Enabled(st, Advance(s))
    requires var x := st.sessions[s]; x.phase.At? && Program(x.entry.kind)[x.phase.pc] == Insert
    requires !SeesActive(st.rows, s, st.sessions[s].entry.file)
    ensures Sound(AdvanceSession(st, s))
  {
    var x := st.sessions[s];
    assert SessionSound(st, s);
    ProgramShape(x.entry.kind);
    FreeExactly(st, s, x.entry.file);
    InsertKeepsRows(st, s);
    InsertKeepsSessions(st, s);
    InsertKeepsIndexes(st, s);
  }

  /** The only active job of the file, if any, is one whose failure the session has recorded. */
  predicate Free(rows: seq<Row>, s: SessionId, f: FileId) {
    forall i :: 0 <= i < |rows| && rows[i].file == f && Live(rows[i]) ==> rows[i].failing == Some(s)
  }

  /** It is what an insert that neither waits nor fails has found. */
  lemma FreeExactly(st: State, s: SessionId, f: FileId)
    requires Sound(st)
    ensures Free(st.rows, s, f) <==> !MustWait(st.rows, s, f) && !SeesActive(st.rows, s, f)
  {
    forall i | 0 <= i < |st.rows| && Live(st.rows[i])
      ensures st.rows[i].failing == Some(s) <==> !Unsettled(st.rows[i], s) && !SeenActive(st.rows[i], s)
    {
      assert RowSound(st, i);
    }
  }

  /** A session about to insert for a free file. */
  predicate Inserts(st: State, s: SessionId) {
    && s in st.sessions && SessionSound(st, s)
    && var x := st.sessions[s];
       && x.phase.At? && x.entry.file in st.tracked && Free(st.rows, s, x.entry.file)
       && x.phase.pc > LockAt(x.entry.kind) && (Gated(x.entry.kind) ==> x.phase.pc > GateAt(x.entry.kind))
  }

  lemma InsertKeepsRows(st: State, s: SessionId)
    requires Sound(st) && Inserts(st, s)
    ensures var st' := StepOp(st, s, Insert); forall i :: 0 <= i < |st'.rows| ==> RowSound(st', i)
  {
    var st' := StepOp(st, s, Insert);
    forall i | 0 <= i < |st'.rows| ensures RowSound(st', i) {
      if i < |st.rows| {
        assert RowSound(st, i);
      }
    }
  }

  lemma InsertKeepsSessions(st: State, s: SessionId)
    requires Sound(st) && Inserts(st, s)
    ensures var st' := StepOp(st, s, Insert); forall t :: t in st'.sessions ==> SessionSound(st', t)
  {
    var st' := StepOp(st, s, Insert);
    forall t | t in st'.sessions ensures SessionSound(st', t) {
      if t != s {
        InsertKeepsSession(st, s, t);
      } else {
        assert SessionSound(st, s);
      }
    }
  }

  lemma InsertKeepsSession(st: State, s: SessionId, t: SessionId)
    requires Sound(st) && Inserts(st, s) && t in st.sessions && t != s
    ensures SessionSound(StepOp(st, s, Insert), t)
  {
    assert SessionSound(st, t);
  }

  lemma InsertKeepsIndexes(st: State, s: SessionId)
    requires Sound(st) && Inserts(st, s)
    ensures var st' := StepOp(st, s, Insert);
      && Exclusive(st'.rows)
      && (forall i, j :: 0 <= i < j < |st'.rows| && st'.rows[i].origin.By? && st'.rows[j].origin.By? ==>
            st'.rows[i].origin.id != st'.rows[j].origin.id)
  {
    var st' := StepOp(st, s, Insert);
    assert forall i :: 0 <= i < |st.rows| ==> st'.rows[i] == st.rows[i];
  }

  /** Recording a failure that no other session is recording. */
  lemma FailKeepsSound(st: State, s: SessionId)
    requires Sound(st) && Enabled(st, Advance(s)) && Fails(st, s)
    ensures Sound(AdvanceSession(st, s))
  {
    var st' := AdvanceSession(st, s);
    ProgramShape(st.sessions[s].entry.kind);
    forall i | 0 <= i < |st'.rows| ensures RowSound(st', i) {
      assert RowSound(st, i);
    }
    forall t | t in st'.sessions ensures SessionSound(st', t) {
      assert SessionSound(st, t);
      assert Unmade(st.rows, st.sessions[t].id) ==> Unmade(st'.rows, st.sessions[t].id);
    }
    WriteKeepsExclusive(st.rows, st.sessions[s].entry.original.value, st'.rows);
  }

  /** A write to one row that makes it active only if it was or has the index to itself. */
  lemma WriteKeepsExclusive(rows: seq<Row>, j: JobId, rows': seq<Row>)
    requires Exclusive(rows) && Writable(rows, j) && |rows'| == |rows| && rows' == rows[j := rows'[j]]
    requires rows'[j].file == rows[j].file && rows'[j].fate == rows[j].fate
    requires Live(rows'[j]) && !Live(rows[j]) ==> !AnyLive(rows, rows[j].file)
    ensures Exclusive(rows')
  {
    forall i, k | 0 <= i < k < |rows'| && Live(rows'[i]) && Live(rows'[k]) && rows'[i].file == rows'[k].file
      ensures Replaces(rows'[i], rows'[k]) || Replaces(rows'[k], rows'[i])
    {
      var other := if i == j then k else i;
      if i == j || k == j {
        assert Live(rows[other]) && rows[other].file == rows[j].file;
        assert Live(rows[j]);
      }
    }
  }

  lemma EndKeepsSound(st: State, s: SessionId, fate: Fate)
    requires Sound(st) && s in st.sessions && !fate.Uncommitted?
    ensures Sound(EndSession(st, s, fate))
  {
    EndKeepsRows(st, s, fate);
    EndKeepsSessions(st, s, fate);
    SettlingKeepsExclusive(st.rows, s, fate);
  }

  lemma EndKeepsSessions(st: State, s: SessionId, fate: Fate)
    requires Sound(st) && s in st.sessions
    ensures var st' := EndSession(st, s, fate); forall t :: t in st'.sessions ==> SessionSound(st', t)
  {
    var st' := EndSession(st, s, fate);
    forall t | t in st'.sessions ensures SessionSound(st', t) {
      assert SessionSound(st, t);
    }
  }

  lemma EndKeepsRows(st: State, s: SessionId, fate: Fate)
    requires Sound(st) && s in st.sessions && !fate.Uncommitted?
    ensures var st' := EndSession(st, s, fate); forall i :: 0 <= i < |st'.rows| ==> RowSound(st', i)
  {
    var st' := EndSession(st, s, fate);
    forall i | 0 <= i < |st'.rows| ensures RowSound(st', i) {
      assert RowSound(st, i);
    }
  }

  lemma SettlingKeepsExclusive(rows: seq<Row>, s: SessionId, fate: Fate)
    requires Exclusive(rows) && !fate.Uncommitted?
    ensures Exclusive(Settle(rows, s, fate))
  {
    var settled := Settle(rows, s, fate);
    forall i, j | 0 <= i < j < |settled| && Live(settled[i]) && Live(settled[j]) && settled[i].file == settled[j].file
      ensures Replaces(settled[i], settled[j]) || Replaces(settled[j], settled[i])
    {
      SettlingKeepsPair(rows[i], rows[j], s, fate);
      SettlingKeepsPair(rows[j], rows[i], s, fate);
    }
  }

  lemma SettlingKeepsPair(row: Row, next: Row, s: SessionId, fate: Fate)
    requires !fate.Uncommitted? && Live(SettledRow(row, s, fate)) && Live(SettledRow(next, s, fate))
    ensures Live(row) && Live(next)
    ensures Replaces(row, next) ==> Replaces(SettledRow(row, s, fate), SettledRow(next, s, fate))
  {
  }

  /** A write by another party to what a row says of its job's progress. */
  lemma WriteKeepsSound(st: State, st': State, j: JobId)
    requires Sound(st) && Writable(st.rows, j) && st' == st.(rows := st'.rows, readings := st'.readings)
    requires |st'.rows| == |st.rows| && st'.rows == st.rows[j := st'.rows[j]]
    requires var r, r' := st.rows[j], st'.rows[j];
      r' == r.(status := r'.status, cleared := r'.cleared, category := r'.category, updatedAt := r'.updatedAt)
    requires Live(st'.rows[j]) && !Live(st.rows[j]) ==> !AnyLive(st.rows, st.rows[j].file)
    ensures Sound(st')
  {
    forall i | 0 <= i < |st'.rows| ensures RowSound(st', i) {
      assert RowSound(st, i);
    }
    forall t | t in st'.sessions ensures SessionSound(st', t) {
      assert SessionSound(st, t);
    }
    WriteKeepsExclusive(st.rows, j, st'.rows);
  }

  lemma ProtectKeepsSound(st: State, f: FileId, tracked: Tracked)
    requires Sound(st) && Enabled(st, Protect(f, tracked))
    ensures Sound(Apply(st, Protect(f, tracked)))
  {
    var st' := Apply(st, Protect(f, tracked));
    forall i | 0 <= i < |st'.rows| ensures RowSound(st', i) {
      assert RowSound(st, i);
    }
    forall t | t in st'.sessions ensures SessionSound(st', t) {
      assert SessionSound(st, t);
    }
  }

  lemma StepKeepsSound(st: State, a: Action)
    requires Sound(st) && Enabled(st, a)
    ensures Sound(Apply(st, a))
  {
    match a
    case Begin(s, e) => BeginKeepsSound(st, s, e);
    case Advance(s) => AdvanceKeepsSound(st, s);
    case Commit(s) => EndKeepsSound(st, s, Committed);
    case Abort(s) => EndKeepsSound(st, s, RolledBack);
    case Update(j, _, _, _, _) => WriteKeepsSound(st, Apply(st, a), j);
    case PassRead(_) =>
      var st' := Apply(st, a);
      assert forall i :: 0 <= i < |st.rows| ==> RowSound(st, i) ==> RowSound(st', i);
      assert forall t :: t in st.sessions ==> SessionSound(st, t) ==> SessionSound(st', t);
    case PassWrite(r) => WriteKeepsSound(st, Apply(st, a), r.job);
    case Protect(f, tracked) => ProtectKeepsSound(st, f, tracked);
    case Decide(f, decision) =>
      var st' := Apply(st, a);
      assert forall i :: 0 <= i < |st.rows| ==> RowSound(st, i) ==> RowSound(st', i);
      assert forall t :: t in st.sessions ==> SessionSound(st, t) ==> SessionSound(st', t);
  }

  /** Every reachable state is sound, whatever the sessions do and in whatever order. */
  lemma {:induction false} ReachableIsSound(st: State, acts: seq<Action>, end: State)
    requires Sound(st) && Runs(st, acts, end)
    ensures Sound(end)
    decreases |acts|
  {
    if acts != [] {
      StepKeepsSound(st, acts[0]);
      ReachableIsSound(Apply(st, acts[0]), acts[1..], end);
    }
  }

  /**
   No interleaving shows anyone two active jobs of a file, keeps two whose fates are not tied to each
   other, or leaves a job made by an entry that lost.
   */
  lemma OneActiveJobPerFile(st: State, acts: seq<Action>, end: State)
    requires Initial(st) && Runs(st, acts, end)
    ensures Exclusive(end.rows)
    ensures forall s: SessionId, i, j ::
      0 <= i < j < |end.rows| && SeenActive(end.rows[i], s) && SeenActive(end.rows[j], s) ==>
        end.rows[i].file != end.rows[j].file
    ensures forall i :: 0 <= i < |end.rows| && end.rows[i].origin.By? ==> end.rows[i].origin.id !in end.lost
    ensures forall i, j :: 0 <= i < j < |end.rows| && end.rows[i].origin.By? && end.rows[j].origin.By? ==>
      end.rows[i].origin.id != end.rows[j].origin.id
  {
    InitialIsSound(st);
    ReachableIsSound(st, acts, end);
    forall i | 0 <= i < |end.rows| && end.rows[i].origin.By? ensures end.rows[i].origin.id !in end.lost {
      assert RowSound(end, i);
    }
    forall s: SessionId, i, j | 0 <= i < j < |end.rows| && SeenActive(end.rows[i], s) && SeenActive(end.rows[j], s)
      ensures end.rows[i].file != end.rows[j].file
    {
      assert Live(end.rows[i]) && Live(end.rows[j]);
    }
  }

  predicate LocksAreOpen(st: State) { forall f :: f in st.locks ==> st.locks[f] in st.sessions }

  lemma {:induction false} RunKeepsLocksOpen(st: State, acts: seq<Action>, end: State)
    requires Runs(st, acts, end) && LocksAreOpen(st)
    ensures LocksAreOpen(end)
    decreases |acts|
  {
    if acts != [] {
      if acts[0].Advance? {
        AdvanceKeepsLocksOpen(st, acts[0].s);
      }
      RunKeepsLocksOpen(Apply(st, acts[0]), acts[1..], end);
    }
  }

  lemma AdvanceKeepsLocksOpen(st: State, s: SessionId)
    requires Enabled(st, Advance(s)) && LocksAreOpen(st)
    ensures LocksAreOpen(AdvanceSession(st, s))
  {
    if st.sessions[s].phase.At? {
      OpKeepsLocksOpen(st, s, Program(st.sessions[s].entry.kind)[st.sessions[s].phase.pc]);
    }
  }

  lemma OpKeepsLocksOpen(st: State, s: SessionId, op: Op)
    requires s in st.sessions && st.sessions[s].phase.At? && st.sessions[s].entry.file in st.tracked
    requires (op == Fail ==> CanFail(st.rows, st.sessions[s].entry)) && LocksAreOpen(st)
    ensures LocksAreOpen(StepOp(st, s, op))
  {
  }

  /** In every reachable state no lock, uncommitted row or uncommitted failure has outlived its session. */
  lemma NothingOutlivesItsSession(st: State, acts: seq<Action>, end: State)
    requires Initial(st) && Runs(st, acts, end)
    ensures forall f :: f in end.locks ==> end.locks[f] in end.sessions
    ensures forall i :: 0 <= i < |end.rows| && end.rows[i].fate.Uncommitted? ==> end.rows[i].fate.owner in end.sessions
    ensures forall i :: 0 <= i < |end.rows| && end.rows[i].failing.Some? ==> end.rows[i].failing.value in end.sessions
  {
    RunKeepsLocksOpen(st, acts, end);
    InitialIsSound(st);
    ReachableIsSound(st, acts, end);
    forall i | 0 <= i < |end.rows|
      ensures end.rows[i].fate.Uncommitted? ==> end.rows[i].fate.owner in end.sessions
      ensures end.rows[i].failing.Some? ==> end.rows[i].failing.value in end.sessions
    {
      assert RowSound(end, i);
    }
  }

  // -------------------------------------------------------- What a lost race comes to

  /** The session neither moves nor ends. */
  predicate StandsStill(a: Action, s: SessionId) {
    match a
    case Begin(t, _) => t != s
    case Advance(t) => t != s
    case Commit(t) => t != s
    case Abort(t) => t != s
    case _ => true
  }

  /** The step does not end the job; whatever happens to any other is free. */
  predicate Spares(st: State, a: Action, w: JobId) {
    match a
    case Update(j, status, cleared, _, _) => j == w ==> Active(status) && !cleared
    case Commit(t) => w < |st.rows| ==> st.rows[w].failing != Some(t)
    case _ => true
  }

  ghost predicate Waits(acts: seq<Action>, s: SessionId) {
    forall i :: 0 <= i < |acts| ==> StandsStill(acts[i], s)
  }

  predicate AllSpare(st: State, acts: seq<Action>, w: JobId)
    decreases |acts|
  {
    acts == [] || (Enabled(st, acts[0]) && Spares(st, acts[0], w) && AllSpare(Apply(st, acts[0]), acts[1..], w))
  }

  /** The session's insert violates the index, and `w` is the active job it then sees. */
  predicate LosesTo(st: State, s: SessionId, w: JobId) {
    && Enabled(st, Advance(s)) && st.sessions[s].phase.At?
    && Program(st.sessions[s].entry.kind)[st.sessions[s].phase.pc] == Insert
    && w < |st.rows| && st.rows[w].file == st.sessions[s].entry.file && SeenActive(st.rows[w], s)
  }

  /** There is such a job whenever the insert fails. */
  lemma ViolationHasWinner(st: State, s: SessionId) returns (w: JobId)
    requires Enabled(st, Advance(s)) && st.sessions[s].phase.At? && AdvanceSession(st, s).sessions[s].phase.FallingBack?
    ensures LosesTo(st, s, w)
  {
    OnlyInsertFallsBack(st, s, Program(st.sessions[s].entry.kind)[st.sessions[s].phase.pc]);
    w :| 0 <= w < |st.rows| && st.rows[w].file == st.sessions[s].entry.file && SeenActive(st.rows[w], s);
  }

  lemma OnlyInsertFallsBack(st: State, s: SessionId, op: Op)
    requires s in st.sessions && st.sessions[s].phase.At? && st.sessions[s].entry.file in st.tracked
    requires op == Fail ==> CanFail(st.rows, st.sessions[s].entry)
    requires StepOp(st, s, op).sessions[s].phase.FallingBack?
    ensures op == Insert && SeesActive(st.rows, s, st.sessions[s].entry.file)
  {
  }

  lemma ViolationFallsBack(st: State, s: SessionId, w: JobId)
    requires LosesTo(st, s, w)
    ensures AdvanceSession(st, s) == WithPhase(st, s, FallingBack)
  {
  }

  /** The session sees the row, and has not failed it itself. */
  predicate InView(rows: seq<Row>, w: JobId, s: SessionId) {
    w < |rows| && Visible(rows[w], s) && rows[w].failing != Some(s)
  }

  /** Nothing is taken from a waiting session, or from a job it sees, but that the job may be ended. */
  predicate Undisturbed(st: State, next: State, s: SessionId, w: JobId) {
    && s in st.sessions && s in next.sessions && next.sessions[s] == st.sessions[s]
    && st.tracked.Keys <= next.tracked.Keys
    && w < |st.rows| && InView(next.rows, w, s) && next.rows[w].file == st.rows[w].file
  }

  /** What a row says of its job. */
  predicate SameJob(r: Row, r': Row) { r'.status == r.status && r'.cleared == r.cleared && r'.fate == r.fate }

  lemma OpUndisturbing(st: State, t: SessionId, op: Op, s: SessionId, w: JobId)
    requires t in st.sessions && st.sessions[t].phase.At? && st.sessions[t].entry.file in st.tracked
    requires op == Fail ==> CanFail(st.rows, st.sessions[t].entry)
    requires s in st.sessions && s != t && InView(st.rows, w, s)
    ensures Undisturbed(st, StepOp(st, t, op), s, w) && SameJob(st.rows[w], StepOp(st, t, op).rows[w])
  {
  }

  lemma AdvanceUndisturbing(st: State, t: SessionId, s: SessionId, w: JobId)
    requires Enabled(st, Advance(t)) && s in st.sessions && s != t && InView(st.rows, w, s)
    ensures Undisturbed(st, AdvanceSession(st, t), s, w) && SameJob(st.rows[w], AdvanceSession(st, t).rows[w])
  {
    if st.sessions[t].phase.At? {
      OpUndisturbing(st, t, Program(st.sessions[t].entry.kind)[st.sessions[t].phase.pc], s, w);
    }
  }

  lemma EndUndisturbing(st: State, t: SessionId, fate: Fate, s: SessionId, w: JobId)
    requires t in st.sessions && s in st.sessions && s != t && InView(st.rows, w, s)
    ensures Undisturbed(st, EndSession(st, t, fate), s, w)
    ensures (fate.Committed? && st.rows[w].failing == Some(t)) || SameJob(st.rows[w], EndSession(st, t, fate).rows[w])
  {
  }

  /** What a step by others leaves of a waiting session and of a job it sees. */
  lemma WaitingStep(st: State, a: Action, s: SessionId, w: JobId)
    requires Enabled(st, a) && StandsStill(a, s) && s in st.sessions && InView(st.rows, w, s)
    ensures Undisturbed(st, Apply(st, a), s, w)
    ensures Spares(st, a, w) && Live(st.rows[w]) ==> Live(Apply(st, a).rows[w])
  {
    match a
    case Advance(t) => AdvanceUndisturbing(st, t, s, w);
    case Commit(t) => EndUndisturbing(st, t, Committed, s, w);
    case Abort(t) => EndUndisturbing(st, t, RolledBack, s, w);
    case _ =>
  }

  lemma {:induction false} WaitingRun(st: State, acts: seq<Action>, end: State, s: SessionId, w: JobId)
    requires Runs(st, acts, end) && Waits(acts, s) && s in st.sessions && InView(st.rows, w, s)
    ensures s in end.sessions && end.sessions[s] == st.sessions[s] && st.tracked.Keys <= end.tracked.Keys
    ensures InView(end.rows, w, s) && end.rows[w].file == st.rows[w].file
    ensures AllSpare(st, acts, w) && Live(st.rows[w]) ==> Live(end.rows[w])
    decreases |acts|
  {
    if acts != [] {
      WaitingStep(st, acts[0], s, w);
      WaitingRun(Apply(st, acts[0]), acts[1..], end, s, w);
    }
  }

  /** The session sees no other active job of the file. */
  predicate AloneIn(rows: seq<Row>, w: JobId, s: SessionId)
    requires w < |rows|
  {
    forall i :: 0 <= i < |rows| && i != w && SeenActive(rows[i], s) ==> rows[i].file != rows[w].file
  }

  /** How an entry that fell back on the index has ended: in a conflict, or declined, or in the index error. */
  predicate EndsLost(end: State, s: SessionId, w: JobId)
    requires Enabled(end, Advance(s)) && w < |end.rows|
  {
    var x, after := end.sessions[s], AdvanceSession(end, s);
    && after.rows == end.rows
    && (Live(end.rows[w]) ==>
          after.lost == end.lost[x.id := if x.entry.kind.Watched? || x.entry.kind.AutomaticRetry? then Declined else Conflict])
    && (!Live(end.rows[w]) && AloneIn(end.rows, w, s) ==> after.lost == end.lost[x.id := Raised])
  }

  /**
   How a lost race ends, exactly: after any run in which the loser waits, it ends in a conflict (or
   declines) if the winner is still active when it looks, and raises the index error if the winner
   has ended and it sees no other job in its place.
   */
  lemma LoserEndsExactly(st: State, acts: seq<Action>, end: State, s: SessionId, w: JobId)
    requires LosesTo(st, s, w) && Runs(AdvanceSession(st, s), acts, end) && Waits(acts, s)
    ensures s in end.sessions && end.sessions[s] == st.sessions[s].(phase := FallingBack)
    ensures w < |end.rows| && Enabled(end, Advance(s)) && EndsLost(end, s, w)
  {
    ViolationFallsBack(st, s, w);
    WaitingRun(AdvanceSession(st, s), acts, end, s, w);
    assert Live(end.rows[w]) ==> SeesActive(end.rows, s, st.sessions[s].entry.file);
  }

  /** So does every insert that the index refuses: some job won the race. */
  lemma RefusedInsertEndsExactly(st: State, acts: seq<Action>, end: State, s: SessionId) returns (w: JobId)
    requires Enabled(st, Advance(s)) && st.sessions[s].phase.At? && AdvanceSession(st, s).sessions[s].phase.FallingBack?
    requires Runs(AdvanceSession(st, s), acts, end) && Waits(acts, s)
    ensures w < |st.rows| && st.rows[w].file == st.sessions[s].entry.file && SeenActive(st.rows[w], s)
    ensures s in end.sessions && end.sessions[s] == st.sessions[s].(phase := FallingBack)
    ensures w < |end.rows| && Enabled(end, Advance(s)) && EndsLost(end, s, w)
  {
    w := ViolationHasWinner(st, s);
    LoserEndsExactly(st, acts, end, s, w);
  }

  /** So every run that only spares the winner ends in a conflict, whatever becomes of other jobs. */
  lemma LoserGetsConflict(st: State, acts: seq<Action>, end: State, s: SessionId, w: JobId)
    requires LosesTo(st, s, w) && Runs(AdvanceSession(st, s), acts, end) && Waits(acts, s)
    requires AllSpare(AdvanceSession(st, s), acts, w)
    ensures s in end.sessions && Enabled(end, Advance(s))
    ensures var x, after := st.sessions[s], AdvanceSession(end, s);
      && after.rows == end.rows
      && after.lost == end.lost[x.id := if x.entry.kind.Watched? || x.entry.kind.AutomaticRetry? then Declined else Conflict]
  {
    LoserEndsExactly(st, acts, end, s, w);
    ViolationFallsBack(st, s, w);
    WaitingRun(AdvanceSession(st, s), acts, end, s, w);
  }

  /** The only job in review that a caller without approval may step over. */
  predicate RetriesReplacementFailure(e: Entry, view: View) {
    && e.kind.Retry? && view.latest.Some? && e.original == Some(view.latest.value.id)
    && view.latest.value.status == ManualReview && view.latest.value.category == "replacement_failed"
  }

  predicate UsesApproval(e: Entry) { (e.kind.Create? && e.allowApproved) || e.kind.StripOnly? }

  /** What every gated job owes to the gate it passed. */
  predicate Warranted(e: Entry, view: View) {
    && view.plan == e.plan && !view.tracked.excluded
    && (NeedsProtection(view) ==> UsesApproval(e) && view.decision.Some? && Settles(view.decision.value, view))
    && (LatestNeedsReview(view) ==>
          || RetriesReplacementFailure(e, view)
          || (UsesApproval(e) && view.decision.Some? && Settles(view.decision.value, view)))
  }

  /**
   Every job that a gated entry made, in any run, was warranted when its gate was passed, and until
   its session ends nobody has changed the protection of its file.
   */
  lemma GatedJobsAreWarranted(st: State, acts: seq<Action>, end: State, i: nat)
    requires Initial(st) && Runs(st, acts, end)
    requires i < |end.rows| && end.rows[i].origin.By? && Gated(end.rows[i].origin.entry.kind)
    ensures var r := end.rows[i];
      && r.origin.gate.Some? && Warranted(r.origin.entry, r.origin.gate.value)
      && (r.fate.Uncommitted? ==>
            r.file in end.tracked && end.tracked[r.file] == r.origin.gate.value.tracked && !end.tracked[r.file].excluded)
  {
    InitialIsSound(st);
    ReachableIsSound(st, acts, end);
    assert RowSound(end, i);
    GateMeaning(end.rows[i].origin.gate.value);
  }

  // -------------------------------------------------------- What an entry comes to

  /** What the gate is shown of the file: its tracked row, latest job and decision, as the session sees them. */
  ghost predicate ShownTruly(st: State, s: SessionId, e: Entry, v: View)
    requires e.file in st.tracked
  {
    && v.tracked == st.tracked[e.file] && v.plan == e.plan
    && (v.decision.Some? <==> e.file in st.decisions) && (v.decision.Some? ==> v.decision.value == st.decisions[e.file])
    && (v.latest.Some? ==>
          && v.latest.value.id < |st.rows| && st.rows[v.latest.value.id].file == e.file
          && var row := st.rows[v.latest.value.id];
             Visible(row, s) && v.latest.value == JobView(v.latest.value.id, StatusFor(row, s), row.category, row.updatedAt))
    && (forall i :: (if v.latest.Some? then v.latest.value.id + 1 else 0) <= i < |st.rows| && st.rows[i].file == e.file ==>
          !Visible(st.rows[i], s))
    && (v.allowApproved <==> (e.kind.Create? && e.allowApproved) || e.kind.StripOnly?)
    && (v.operationalRetry.Some? <==>
          && e.kind.Retry? && e.original.Some? && e.original.value < |st.rows|
          && StatusFor(st.rows[e.original.value], s) == ManualReview
          && st.rows[e.original.value].category == "replacement_failed")
    && (v.operationalRetry.Some? ==> v.operationalRetry == e.original)
  }

  /** The gate decides on what there is: an entry goes on exactly if what it is shown is cleared, and else has lost. */
  lemma GateDecides(st: State, s: SessionId) returns (view: View)
    requires Enabled(st, Advance(s)) && st.sessions[s].phase.At?
    requires Program(st.sessions[s].entry.kind)[st.sessions[s].phase.pc] == Gate
    ensures ShownTruly(st, s, st.sessions[s].entry, view)
    ensures var x, next := st.sessions[s], AdvanceSession(st, s);
      if Cleared(view) then next.sessions[s] == x.(phase := At(x.phase.pc + 1), gate := Some(view)) && next.lost == st.lost
      else next.sessions[s].phase.Finished? && next.lost == st.lost[x.id := if x.entry.kind.Watched? then Declined else Conflict]
  {
    view := GateView(st, s, st.sessions[s].entry);
    GateMeaning(view);
    ProgramShape(st.sessions[s].entry.kind);
  }

  /** Nobody begins to retry or recover a job it sees active, or to retry automatically one that is not running. */
  lemma RetriesAreOfEndedJobs(st: State, s: SessionId, e: Entry)
    requires Enabled(st, Begin(s, e)) && (e.kind.Retry? || e.kind.StripOnly? || e.kind.AutomaticRetry?)
    ensures e.original.Some? && e.original.value < |st.rows|
    ensures var row := st.rows[e.original.value];
      && row.file == e.file && row.plan == e.plan && Visible(row, s)
      && (e.kind.AutomaticRetry? <==> StatusFor(row, s).Running?)
      && (!e.kind.AutomaticRetry? ==> !SeenActive(row, s) && !StatusFor(row, s).Completed?)
  {
  }

  /** The entry has made no job, and can only wait for its file's check or have lost. */
  predicate Refused(st: State, s: SessionId, e: Entry, id: EntryId) {
    && Unmade(st.rows, id) && id < st.nextEntry
    && (id in st.lost ==> st.lost[id] == if e.kind.Watched? then Declined else Conflict)
    && (forall t :: t in st.sessions && st.sessions[t].id == id ==> t == s && StaysOut(st, st.sessions[t], s, e))
  }

  predicate StaysOut(st: State, x: Session, s: SessionId, e: Entry) {
    && x.entry == e
    && if x.phase.Finished? then x.id in st.lost
       else x.phase.At? && x.phase.pc <= TARGET_AT && Holder(st, e.file, s) && e.file in st.tracked && st.tracked[e.file].excluded
  }

  lemma OpKeepsRefused(st: State, t: SessionId, op: Op, s: SessionId, e: Entry, id: EntryId)
    requires t in st.sessions && st.sessions[t].phase.At? && st.sessions[t].entry.file in st.tracked
    requires op == Fail ==> CanFail(st.rows, st.sessions[t].entry)
    requires op == Lock && st.sessions[t].entry.file in st.locks ==> Holder(st, st.sessions[t].entry.file, t)
    requires Refused(st, s, e, id) && Gated(e.kind)
    requires st.sessions[t].id == id ==> op == if st.sessions[t].phase.pc == TARGET_AT then Target else Lock
    ensures Refused(StepOp(st, t, op), s, e, id)
  {
    if st.sessions[t].id == id {
      OwnOpKeepsRefused(st, op, s, e, id);
    } else {
      OtherOpKeepsRefused(st, t, op, s, e, id);
    }
  }

  lemma OwnOpKeepsRefused(st: State, op: Op, s: SessionId, e: Entry, id: EntryId)
    requires s in st.sessions && st.sessions[s].id == id && st.sessions[s].phase.At?
    requires Refused(st, s, e, id) && Gated(e.kind) && op == if st.sessions[s].phase.pc == TARGET_AT then Target else Lock
    ensures Refused(StepOp(st, s, op), s, e, id)
  {
    assert StaysOut(st, st.sessions[s], s, e);
  }

  lemma OtherOpKeepsRefused(st: State, t: SessionId, op: Op, s: SessionId, e: Entry, id: EntryId)
    requires t in st.sessions && st.sessions[t].phase.At? && st.sessions[t].entry.file in st.tracked
    requires op == Fail ==> CanFail(st.rows, st.sessions[t].entry)
    requires op == Lock && st.sessions[t].entry.file in st.locks ==> Holder(st, st.sessions[t].entry.file, t)
    requires Refused(st, s, e, id) && st.sessions[t].id != id
    ensures Refused(StepOp(st, t, op), s, e, id)
  {
    var next := StepOp(st, t, op);
    OtherOpLeavesEntry(st, t, op, id);
    forall u | u in next.sessions && next.sessions[u].id == id ensures u == s && StaysOut(next, next.sessions[u], s, e) {
      assert u != t;
    }
  }

  /** What a session's step leaves of an entry that is not its own. */
  lemma OtherOpLeavesEntry(st: State, t: SessionId, op: Op, id: EntryId)
    requires t in st.sessions && st.sessions[t].phase.At? && st.sessions[t].entry.file in st.tracked
    requires op == Fail ==> CanFail(st.rows, st.sessions[t].entry)
    requires st.sessions[t].id != id && Unmade(st.rows, id)
    ensures var next := StepOp(st, t, op);
      && Unmade(next.rows, id) && next.nextEntry == st.nextEntry && next.tracked == st.tracked
      && (id in next.lost <==> id in st.lost) && (id in next.lost ==> next.lost[id] == st.lost[id])
      && next.sessions[t].id == st.sessions[t].id
      && (next.locks == st.locks || (op == Lock && next.locks == st.locks[st.sessions[t].entry.file := t]))
  {
    match op
    case Fail | Lock =>
    case Target | NoActive =>
    case Gate =>
    case Insert =>
  }

  lemma AdvanceKeepsRefused(st: State, t: SessionId, s: SessionId, e: Entry, id: EntryId)
    requires Enabled(st, Advance(t)) && Refused(st, s, e, id) && Gated(e.kind)
    ensures Refused(AdvanceSession(st, t), s, e, id)
  {
    var x := st.sessions[t];
    ProgramShape(x.entry.kind);
    if x.phase.At? {
      OpKeepsRefused(st, t, Program(x.entry.kind)[x.phase.pc], s, e, id);
    } else {
      var next := AdvanceSession(st, t);
      forall u | u in next.sessions && next.sessions[u].id == id ensures u == s && StaysOut(next, next.sessions[u], s, e) {
        assert u in st.sessions && st.sessions[u].id == id;
      }
    }
  }

  lemma StepKeepsRefused(st: State, a: Action, s: SessionId, e: Entry, id: EntryId)
    requires Enabled(st, a) && Refused(st, s, e, id) && Gated(e.kind)
    ensures Refused(Apply(st, a), s, e, id)
  {
    if a.Advance? {
      AdvanceKeepsRefused(st, a.s, s, e, id);
    } else {
      var next := Apply(st, a);
      forall u | u in next.sessions && next.sessions[u].id == id ensures u == s && StaysOut(next, next.sessions[u], s, e) {
        assert u in st.sessions && st.sessions[u].id == id;
      }
    }
  }

  lemma {:induction false} RefusedRun(st: State, acts: seq<Action>, end: State, s: SessionId, e: Entry, id: EntryId)
    requires Runs(st, acts, end) && Refused(st, s, e, id) && Gated(e.kind)
    ensures Refused(end, s, e, id)
    decreases |acts|
  {
    if acts != [] {
      StepKeepsRefused(st, acts[0], s, e, id);
      RefusedRun(Apply(st, acts[0]), acts[1..], end, s, e, id);
    }
  }

  /**
   A gated entry whose file is excluded, once it holds the lock, never makes a job: in no run does it
   end but with a conflict, or declined when it was watched.
   */
  lemma ExcludedFileIsRefused(first: State, before: seq<Action>, st: State, acts: seq<Action>, end: State, s: SessionId)
    requires Initial(first) && Runs(first, before, st) && Runs(st, acts, end)
    requires s in st.sessions && !st.sessions[s].phase.Finished? && Gated(st.sessions[s].entry.kind)
    requires var f := st.sessions[s].entry.file; Holder(st, f, s) && f in st.tracked && st.tracked[f].excluded
    ensures var x := st.sessions[s];
      && (forall i :: 0 <= i < |end.rows| && end.rows[i].origin.By? ==> end.rows[i].origin.id != x.id)
      && (x.id in end.lost ==> end.lost[x.id] == if x.entry.kind.Watched? then Declined else Conflict)
      && (s in end.sessions && end.sessions[s].id == x.id && end.sessions[s].phase.Finished? ==> x.id in end.lost)
  {
    InitialIsSound(first);
    ReachableIsSound(first, before, st);
    assert SessionSound(st, s);
    RefusedRun(st, acts, end, s, st.sessions[s].entry, st.sessions[s].id);
  }

  /** The uncommitted row is the job the session's entry asks for. */
  predicate Makes(st: State, s: SessionId, i: nat) {
    && s in st.sessions && i < |st.rows|
    && var e, r := st.sessions[s].entry, st.rows[i];
       && r.file == e.file && r.plan == e.jobPlan && r.status == (if e.scheduled then Scheduled else Pending) && !r.cleared
       && r.fate == Uncommitted(s) && r.failing.None? && r.origin == By(e, st.sessions[s].id, st.sessions[s].gate)
  }

  /** A finished entry has lost or made its job. */
  predicate Accounted(st: State, s: SessionId)
    requires s in st.sessions
  {
    var x := st.sessions[s];
    x.phase.Finished? ==> x.id in st.lost || exists i :: 0 <= i < |st.rows| && Makes(st, s, i)
  }

  lemma OpKeepsAccounts(st: State, s: SessionId, op: Op, t: SessionId)
    requires s in st.sessions && st.sessions[s].phase.At? && st.sessions[s].entry.file in st.tracked
    requires op == Fail ==> CanFail(st.rows, st.sessions[s].entry)
    requires t in st.sessions && Accounted(st, t)
    ensures Accounted(StepOp(st, s, op), t)
  {
    var next := StepOp(st, s, op);
    if t == s {
      if op == Insert && next.sessions[s].phase.Finished? {
        assert Makes(next, s, |st.rows|);
      }
    } else if i :| 0 <= i < |st.rows| && Makes(st, t, i) {
      OpKeepsOthersJob(st, s, op, t, i);
    }
  }

  lemma OpKeepsOthersJob(st: State, s: SessionId, op: Op, t: SessionId, i: nat)
    requires s in st.sessions && st.sessions[s].phase.At? && st.sessions[s].entry.file in st.tracked
    requires op == Fail ==> CanFail(st.rows, st.sessions[s].entry)
    requires t != s && Makes(st, t, i)
    ensures Makes(StepOp(st, s, op), t, i)
  {
  }

  lemma StepKeepsAccounts(st: State, a: Action, t: SessionId)
    requires Enabled(st, a) && t in Apply(st, a).sessions && (t in st.sessions ==> Accounted(st, t))
    ensures Accounted(Apply(st, a), t)
  {
    var next := Apply(st, a);
    if a.Advance? {
      if st.sessions[a.s].phase.At? {
        OpKeepsAccounts(st, a.s, Program(st.sessions[a.s].entry.kind)[st.sessions[a.s].phase.pc], t);
      } else if i :| 0 <= i < |st.rows| && Makes(st, t, i) {
        assert Makes(next, t, i);
      }
    } else if t in st.sessions && !(a.Begin? && a.s == t) {
      if i :| 0 <= i < |st.rows| && Makes(st, t, i) {
        assert Makes(next, t, i);
      }
    }
  }

  lemma {:induction false} RunKeepsAccounts(st: State, acts: seq<Action>, end: State)
    requires Runs(st, acts, end) && forall s :: s in st.sessions ==> Accounted(st, s)
    ensures forall s :: s in end.sessions ==> Accounted(end, s)
    decreases |acts|
  {
    if acts != [] {
      forall t | t in Apply(st, acts[0]).sessions ensures Accounted(Apply(st, acts[0]), t) {
        StepKeepsAccounts(st, acts[0], t);
      }
      RunKeepsAccounts(Apply(st, acts[0]), acts[1..], end);
    }
  }

  /**
   In every reachable state, a finished entry of an open session has lost and made nothing, or has made
   exactly the job it asks for, which the session's commit publishes as it is.
   */
  lemma FinishedEntriesAreAccounted(st: State, acts: seq<Action>, end: State, s: SessionId) returns (i: nat)
    requires Initial(st) && Runs(st, acts, end) && s in end.sessions && end.sessions[s].phase.Finished?
    ensures var x := end.sessions[s];
      if x.id in end.lost then Unmade(end.rows, x.id)
      else
        && Makes(end, s, i)
        && (forall k :: 0 <= k < |end.rows| && k != i && end.rows[k].origin.By? ==> end.rows[k].origin.id != x.id)
        && Apply(end, Commit(s)).rows[i] == end.rows[i].(fate := Committed)
  {
    RunKeepsAccounts(st, acts, end);
    OneActiveJobPerFile(st, acts, end);
    assert Accounted(end, s);
    i := 0;
    if end.sessions[s].id !in end.lost {
      i :| 0 <= i < |end.rows| && Makes(end, s, i);
    }
  }

  // -------------------------------------------------------- The lock alone

  /** No scheduler pass makes an inactive job active. */
  predicate WritesFresh(st: State, a: Action) {
    match a
    case PassWrite(r) => r.job < |st.rows| && !st.rows[r.job].cleared ==> Live(st.rows[r.job])
    case _ => true
  }

  predicate FreshRuns(st: State, acts: seq<Action>, end: State)
    decreases |acts|
  {
    if acts == [] then end == st
    else Enabled(st, acts[0]) && WritesFresh(st, acts[0]) && FreshRuns(Apply(st, acts[0]), acts[1..], end)
  }

  predicate SessionChecked(st: State, s: SessionId)
    requires s in st.sessions
  {
    var x := st.sessions[s];
    !x.phase.FallingBack? && (Past(x, NoActiveAt(x.entry.kind)) ==> Free(st.rows, s, x.entry.file))
  }

  predicate Checked(st: State) {
    Sound(st) && forall s :: s in st.sessions ==> SessionChecked(st, s)
  }

  /** Under the lock, a session that sees no active job of its file knows that there is none but one it has failed. */
  lemma LockShowsAll(st: State, s: SessionId, f: FileId)
    requires Sound(st) && Holder(st, f, s)
    ensures !SeesActive(st.rows, s, f) <==> Free(st.rows, s, f)
  {
    if !SeesActive(st.rows, s, f) {
      forall i | 0 <= i < |st.rows| && st.rows[i].file == f && Live(st.rows[i]) ensures st.rows[i].failing == Some(s) {
        assert RowSound(st, i) && !SeenActive(st.rows[i], s);
      }
    }
  }

  lemma AdvanceKeepsChecked(st: State, s: SessionId)
    requires Checked(st) && Enabled(st, Advance(s))
    ensures Checked(AdvanceSession(st, s))
  {
    var st' := AdvanceSession(st, s);
    AdvanceKeepsSound(st, s);
    OwnStepKeepsChecked(st, s);
    forall t | t in st'.sessions ensures SessionChecked(st', t) {
      if t != s {
        OthersStayChecked(st, s, t);
      }
    }
  }

  lemma OwnStepKeepsChecked(st: State, s: SessionId)
    requires Checked(st) && Enabled(st, Advance(s))
    ensures SessionChecked(AdvanceSession(st, s), s)
  {
    var x := st.sessions[s];
    assert SessionSound(st, s) && SessionChecked(st, s);
    ProgramShape(x.entry.kind);
    OwnOpKeepsChecked(st, s, Program(x.entry.kind)[x.phase.pc]);
  }

  lemma OwnOpKeepsChecked(st: State, s: SessionId, op: Op)
    requires Checked(st) && s in st.sessions && st.sessions[s].phase.At? && st.sessions[s].entry.file in st.tracked
    requires var k, pc := st.sessions[s].entry.kind, st.sessions[s].phase.pc;
      && LockAt(k) < NoActiveAt(k) && (pc == NoActiveAt(k) ==> op == NoActive) && (op == Insert ==> pc > NoActiveAt(k))
      && (op == Fail ==> pc < LockAt(k) && CanFail(st.rows, st.sessions[s].entry))
    ensures SessionChecked(StepOp(st, s, op), s)
  {
    var x := st.sessions[s];
    assert SessionSound(st, s) && SessionChecked(st, s);
    if x.phase.pc >= NoActiveAt(x.entry.kind) {
      LockShowsAll(st, s, x.entry.file);
    }
  }

  lemma OthersStayChecked(st: State, s: SessionId, t: SessionId)
    requires Checked(st) && Enabled(st, Advance(s)) && t in st.sessions && t != s
    ensures t in AdvanceSession(st, s).sessions && SessionChecked(AdvanceSession(st, s), t)
  {
    assert SessionChecked(st, t) && SessionSound(st, t);
    ProgramShape(st.sessions[t].entry.kind);
    if Past(st.sessions[t], NoActiveAt(st.sessions[t].entry.kind)) {
      OthersLeaveFree(st, s, t, st.sessions[t].entry.file);
    }
  }

  /** A file that is free to the holder of its lock stays so while others move. */
  lemma OthersLeaveFree(st: State, s: SessionId, t: SessionId, f: FileId)
    requires Sound(st) && Enabled(st, Advance(s)) && t != s && Holder(st, f, t) && Free(st.rows, t, f)
    ensures Free(AdvanceSession(st, s).rows, t, f)
  {
    var x := st.sessions[s];
    assert SessionSound(st, s);
    ProgramShape(x.entry.kind);
    if x.phase.At? {
      OpLeavesFree(st, s, Program(x.entry.kind)[x.phase.pc], t, f);
    }
  }

  lemma OpLeavesFree(st: State, s: SessionId, op: Op, t: SessionId, f: FileId)
    requires s in st.sessions && st.sessions[s].phase.At? && st.sessions[s].entry.file in st.tracked && t != s
    requires op == Fail ==> CanFail(st.rows, st.sessions[s].entry)
    requires (op == Insert ==> st.sessions[s].entry.file != f) && Free(st.rows, t, f)
    ensures Free(StepOp(st, s, op).rows, t, f)
  {
  }

  lemma StepKeepsChecked(st: State, a: Action)
    requires Checked(st) && Enabled(st, a) && WritesFresh(st, a)
    ensures Checked(Apply(st, a))
  {
    StepKeepsSound(st, a);
    if a.Advance? {
      AdvanceKeepsChecked(st, a.s);
    } else {
      var st' := Apply(st, a);
      forall t | t in st'.sessions ensures SessionChecked(st', t) {
        if !(a.Begin? && t == a.s) {
          assert SessionChecked(st, t) && st'.sessions[t] == st.sessions[t];
          if Past(st.sessions[t], NoActiveAt(st.sessions[t].entry.kind)) {
            OtherStepLeavesFree(st, a, t, st.sessions[t].entry.file);
          }
        }
      }
    }
  }

  /** No other step makes a job active, or writes one whose failure a session has recorded. */
  lemma OtherStepLeavesFree(st: State, a: Action, t: SessionId, f: FileId)
    requires Enabled(st, a) && WritesFresh(st, a) && !a.Advance? && t in Apply(st, a).sessions && Free(st.rows, t, f)
    ensures Free(Apply(st, a).rows, t, f)
  {
    var rows := Apply(st, a).rows;
    forall i | 0 <= i < |rows| && rows[i].file == f && Live(rows[i]) ensures rows[i].failing == Some(t) {
      assert Live(st.rows[i]) && st.rows[i].file == f;
    }
  }

  lemma {:induction false} FreshRunsStayChecked(st: State, acts: seq<Action>, end: State)
    requires Checked(st) && FreshRuns(st, acts, end)
    ensures Checked(end)
    decreases |acts|
  {
    if acts != [] {
      StepKeepsChecked(st, acts[0]);
      FreshRunsStayChecked(Apply(st, acts[0]), acts[1..], end);
    }
  }

  /**
   Every entry point holds the lock when it checks and inserts, so as long as no scheduler pass makes
   an inactive job active the index never has to do anything: no insert ever waits or fails, in any
   reachable state.
   */
  lemma LockMakesIndexRedundant(st: State, acts: seq<Action>, end: State)
    requires Initial(st) && FreshRuns(st, acts, end)
    ensures forall s :: s in end.sessions ==> InsertSucceeds(end, s)
  {
    InitialIsSound(st);
    FreshRunsStayChecked(st, acts, end);
    forall s | s in end.sessions ensures InsertSucceeds(end, s) {
      assert SessionChecked(end, s);
      ProgramShape(end.sessions[s].entry.kind);
      FreeExactly(end, s, end.sessions[s].entry.file);
    }
  }

  predicate InsertSucceeds(st: State, s: SessionId)
    requires s in st.sessions
  {
    var x := st.sessions[s];
    && !x.phase.FallingBack?
    && (x.phase.At? && x.phase.pc < |Program(x.entry.kind)| && Program(x.entry.kind)[x.phase.pc] == Insert ==>
          !MustWait(st.rows, s, x.entry.file) && !SeesActive(st.rows, s, x.entry.file))
  }

  lemma {:induction false} RunsOn(st: State, acts: seq<Action>, mid: State, a: Action)
    requires Runs(st, acts, mid) && Enabled(mid, a)
    ensures Runs(st, acts + [a], Apply(mid, a))
    decreases |acts|
  {
    if acts == [] {
      var end := Apply(mid, a);
      assert Runs(end, [], end);
      assert ([a])[1..] == [];
    } else {
      RunsOn(Apply(st, acts[0]), acts[1..], mid, a);
      assert (acts + [a])[1..] == acts[1..] + [a];
    }
  }

  // -------------------------------------------------------- A scheduler pass that writes too late

  predicate Ended(st: State, j: JobId) { j < |st.rows| && st.rows[j].fate == Committed && !Live(st.rows[j]) }

  /** A pass has read the job as waiting and not written it yet. */
  predicate HasReading(st: State, j: JobId) { exists r :: r in st.readings && r.job == j }

  /** Some run makes the job active. */
  ghost predicate CanRevive(st: State, j: JobId) {
    exists acts: seq<Action>, end: State :: Runs(st, acts, end) && j < |end.rows| && Live(end.rows[j])
  }

  lemma StepKeepsEnded(st: State, a: Action, j: JobId)
    requires Enabled(st, a) && Ended(st, j) && (st.rows[j].cleared || !HasReading(st, j))
    ensures var st' := Apply(st, a); Ended(st', j) && (st'.rows[j].cleared || !HasReading(st', j))
  {
    match a
    case Advance(s) =>
      if st.sessions[s].phase.At? {
        OpKeepsEnded(st, s, Program(st.sessions[s].entry.kind)[st.sessions[s].phase.pc], j);
      }
    case Commit(s) =>
    case Abort(s) =>
    case Update(_, _, _, _, _) =>
    case PassWrite(_) =>
    case _ =>
  }

  lemma OpKeepsEnded(st: State, s: SessionId, op: Op, j: JobId)
    requires s in st.sessions && st.sessions[s].phase.At? && st.sessions[s].entry.file in st.tracked
    requires op == Fail ==> CanFail(st.rows, st.sessions[s].entry)
    requires Ended(st, j)
    ensures var st' := StepOp(st, s, op);
      Ended(st', j) && st'.rows[j].cleared == st.rows[j].cleared && st'.readings == st.readings
  {
  }

  /** Without such a reading an ended job stays ended, and a cleared one always does. */
  lemma {:induction false} EndedStaysEnded(st: State, acts: seq<Action>, end: State, j: JobId)
    requires Runs(st, acts, end) && Ended(st, j) && (st.rows[j].cleared || !HasReading(st, j))
    ensures Ended(end, j)
    decreases |acts|
  {
    if acts != [] {
      StepKeepsEnded(st, acts[0], j);
      EndedStaysEnded(Apply(st, acts[0]), acts[1..], end, j);
    }
  }

  /** Every session aborts, which ends no job and revives none. */
  lemma {:induction false} AllAbort(first: State, before: seq<Action>, st: State, j: JobId)
    returns (acts: seq<Action>, end: State)
    requires Sound(st) && Runs(first, before, st) && Ended(st, j)
    ensures Sound(end) && Runs(first, acts, end) && end.sessions == map[] && end.readings == st.readings
    ensures Ended(end, j) && end.rows[j].cleared == st.rows[j].cleared
    decreases st.sessions.Keys
  {
    acts, end := before, st;
    if s :| s in st.sessions {
      var next := Apply(st, Abort(s));
      RunsOn(first, before, st, Abort(s));
      StepKeepsSound(st, Abort(s));
      assert s !in next.sessions;
      acts, end := AllAbort(first, before + [Abort(s)], next, j);
    } else {
      assert st.sessions == map[];
    }
  }

  /** A job that no session is writing is ended, and its file has no active one left. */
  lemma JobEnds(st: State, w: JobId) returns (end: State, a: Action)
    requires Exclusive(st.rows) && Writable(st.rows, w) && Live(st.rows[w])
    ensures a == Update(w, Cancelled, false, "", 0) && Enabled(st, a) && end == Apply(st, a)
    ensures |end.rows| == |st.rows| && !AnyLive(end.rows, st.rows[w].file)
    ensures forall i :: 0 <= i < |st.rows| && i != w ==> end.rows[i] == st.rows[i]
  {
    a := Update(w, Cancelled, false, "", 0);
    end := Apply(st, a);
    forall i | 0 <= i < |st.rows| && i != w && Live(st.rows[i]) ensures st.rows[i].file != st.rows[w].file {
      assert !Replaces(st.rows[w], st.rows[i]) && !Replaces(st.rows[i], st.rows[w]);
    }
  }

  /** With no session left, one update frees a file. */
  lemma FileIsFreed(first: State, before: seq<Action>, st: State, j: JobId) returns (acts: seq<Action>, end: State)
    requires Sound(st) && Runs(first, before, st) && st.sessions == map[] && Ended(st, j)
    ensures Runs(first, acts, end) && Writable(end.rows, j) && end.readings == st.readings
    ensures !Live(end.rows[j]) && end.rows[j].cleared == st.rows[j].cleared && !AnyLive(end.rows, end.rows[j].file)
  {
    forall i | 0 <= i < |st.rows| && Live(st.rows[i]) ensures Writable(st.rows, i) {
      assert RowSound(st, i);
    }
    assert RowSound(st, j);
    acts, end := before, st;
    if i :| 0 <= i < |st.rows| && Live(st.rows[i]) && st.rows[i].file == st.rows[j].file {
      var a: Action;
      end, a := JobEnds(st, i);
      RunsOn(first, before, st, a);
      acts := before + [a];
    }
  }

  /**
   In every reachable state, an ended job can become active again if and only if a scheduler pass
   has read it as waiting, its write is still to come, and the job is not cleared.
   */
  lemma RevivableExactly(first: State, before: seq<Action>, st: State, j: JobId)
    requires Initial(first) && Runs(first, before, st) && Ended(st, j)
    ensures CanRevive(st, j) <==> HasReading(st, j) && !st.rows[j].cleared
  {
    if HasReading(st, j) && !st.rows[j].cleared {
      InitialIsSound(first);
      ReachableIsSound(first, before, st);
      assert Runs(st, [], st);
      var acts1, quiet := AllAbort(st, [], st, j);
      var acts2, freed := FileIsFreed(st, acts1, quiet, j);
      var r :| r in freed.readings && r.job == j;
      RunsOn(st, acts2, freed, PassWrite(r));
      assert Live(Apply(freed, PassWrite(r)).rows[j]);
    } else {
      forall acts: seq<Action>, end: State | Runs(st, acts, end) ensures j < |end.rows| && !Live(end.rows[j]) {
        EndedStaysEnded(st, acts, end, j);
      }
    }
  }

  /** A creation for a file that neither its operator, its rules nor the plan asks to review. */
  predicate NoIssue(st: State, create: Entry) {
    && create.kind == Create && create.original.None? && create.file in st.tracked
    && var t := st.tracked[create.file];
       && !t.excluded && !t.operatorProtected && !t.isProtected
       && !create.plan.manualReview && !create.plan.asProtected
  }

  predicate Untroubled(st: State, create: Entry) { NoIssue(st, create) && !AnyLive(st.rows, create.file) }

  /** One step of a creation towards its gate. */
  lemma CreationSteps(first: State, before: seq<Action>, st: State, create: Entry, id: EntryId, pc: nat)
    returns (acts: seq<Action>, end: State)
    requires Runs(first, before, st) && Untroubled(st, create) && pc < 3
    requires st.sessions == map[0 := Session(create, id, At(pc), None)] && (pc == 0 ==> create.file !in st.locks)
    ensures Runs(first, acts, end) && Untroubled(end, create)
    ensures end.rows == st.rows && end.tracked == st.tracked && end.readings == st.readings
    ensures end.sessions == map[0 := Session(create, id, At(pc + 1), None)]
  {
    var op := Program(Create)[pc];
    assert op in {Lock, Target, NoActive} && (op == Lock ==> pc == 0);
    CreationOp(st, create, id, pc, op);
    RunsOn(first, before, st, Advance(0));
    acts, end := before + [Advance(0)], StepOp(st, 0, op);
  }

  lemma CreationOp(st: State, create: Entry, id: EntryId, pc: nat, op: Op)
    requires Untroubled(st, create) && op in {Lock, Target, NoActive}
    requires st.sessions == map[0 := Session(create, id, At(pc), None)]
    ensures var end := StepOp(st, 0, op);
      && end.rows == st.rows && end.tracked == st.tracked && end.readings == st.readings && Untroubled(end, create)
      && end.sessions == map[0 := Session(create, id, At(pc + 1), None)]
  {
    assert !SeesActive(st.rows, 0, create.file);
  }

  /** A creation that has found no active job, and stands before its gate. */
  lemma CreationBeforeGate(first: State, before: seq<Action>, st: State, create: Entry)
    returns (acts: seq<Action>, end: State)
    requires Runs(first, before, st) && Untroubled(st, create) && st.sessions == map[] && st.locks == map[]
    ensures Runs(first, acts, end) && end.rows == st.rows && end.tracked == st.tracked && end.readings == st.readings
    ensures end.sessions == map[0 := Session(create, st.nextEntry, At(3), None)]
  {
    var st1 := Apply(st, Begin(0, create));
    RunsOn(first, before, st, Begin(0, create));
    var acts2, st2 := CreationSteps(first, before + [Begin(0, create)], st1, create, st.nextEntry, 0);
    var acts3, st3 := CreationSteps(first, acts2, st2, create, st.nextEntry, 1);
    acts, end := CreationSteps(first, acts3, st3, create, st.nextEntry, 2);
  }

  /** No job of the file made after this one is in review. */
  predicate NoLaterReview(rows: seq<Row>, j: JobId) {
    j < |rows| && forall i :: j < i < |rows| && rows[i].file == rows[j].file ==> !rows[i].status.ManualReview?
  }

  lemma LatestNotInReview(st: State, create: Entry, w: JobId)
    requires NoIssue(st, create) && NoLaterReview(st.rows, w) && st.rows[w].file == create.file && Live(st.rows[w])
    requires forall i :: 0 <= i < |st.rows| ==> Writable(st.rows, i)
    ensures !LatestNeedsReview(GateView(st, 0, create))
  {
    var latest := Latest(st.rows, 0, create.file);
    assert Writable(st.rows, w) && Visible(st.rows[w], 0);
    assert Writable(st.rows, latest.value.id);
  }

  /** A creation before its gate, with nothing to review, comes to insert beside a committed active row. */
  lemma CreationLoses(first: State, before: seq<Action>, st: State, create: Entry, id: EntryId, w: JobId)
    returns (acts: seq<Action>, end: State)
    requires Runs(first, before, st) && NoIssue(st, create) && NoLaterReview(st.rows, w)
    requires st.sessions == map[0 := Session(create, id, At(3), None)]
    requires w < |st.rows| && st.rows[w].file == create.file && Live(st.rows[w])
    requires forall i :: 0 <= i < |st.rows| ==> Writable(st.rows, i)
    ensures Runs(first, acts, end) && end.rows == st.rows && LosesTo(end, 0, w)
    ensures end.sessions[0].entry == create && end.sessions[0].id == id
  {
    LatestNotInReview(st, create, w);
    GateMeaning(GateView(st, 0, create));
    assert forall i :: 0 <= i < |st.rows| && Writable(st.rows, i) ==> !Unsettled(st.rows[i], 0);
    assert Writable(st.rows, w);
    RunsOn(first, before, st, Advance(0));
    acts, end := before + [Advance(0)], Apply(st, Advance(0));
  }

  /** A scheduled job that a pass has read and an operator has cancelled since. */
  lemma PassFallsBehind(st: State, j: JobId) returns (acts: seq<Action>, end: State)
    requires Initial(st) && j < |st.rows| && st.rows[j].status.Scheduled? && !st.rows[j].cleared
    ensures Runs(st, acts, end) && end == st.(rows := end.rows, readings := multiset{Reading(j, Scheduled)})
    ensures |end.rows| == |st.rows| && end.rows == st.rows[j := end.rows[j]]
    ensures Ended(end, j) && !AnyLive(end.rows, st.rows[j].file)
    ensures Writable(end.rows, j) && end.rows[j].file == st.rows[j].file && !end.rows[j].cleared
  {
    var st1 := Apply(st, PassRead(j));
    var cancel := Update(j, Cancelled, false, st.rows[j].category, st.rows[j].updatedAt);
    assert Runs(st, [], st);
    RunsOn(st, [], st, PassRead(j));
    RunsOn(st, [] + [PassRead(j)], st1, cancel);
    acts, end := [] + [PassRead(j)] + [cancel], Apply(st1, cancel);
  }

  /** A late write makes a locked creation lose to the job it revives. */
  lemma StaleWriteWins(st: State, create: Entry, j: JobId) returns (acts: seq<Action>, end: State)
    requires Initial(st) && NoIssue(st, create) && j < |st.rows| && st.rows[j].file == create.file
    requires st.rows[j].status.Scheduled? && !st.rows[j].cleared && NoLaterReview(st.rows, j)
    ensures Runs(st, acts, end) && LosesTo(end, 0, j) && end.sessions[0].entry == create
    ensures Writable(end.rows, j) && end.rows[j].status.Pending?
  {
    var acts1, cancelled := PassFallsBehind(st, j);
    var acts2, checked := CreationBeforeGate(st, acts1, cancelled, create);
    var write := PassWrite(Reading(j, Scheduled));
    RunsOn(st, acts2, checked, write);
    acts, end := CreationLoses(st, acts2 + [write], Apply(checked, write), create, cancelled.nextEntry, j);
  }

  /**
   One such write is enough to make a locked creation hit the index: on any quiet table, for any
   scheduled job of a file without an issue, some run does it.
   */
  lemma StaleWriteNeedsIndex(st: State, create: Entry, j: JobId) returns (acts: seq<Action>, end: State)
    requires Initial(st) && NoIssue(st, create) && j < |st.rows| && st.rows[j].file == create.file
    requires st.rows[j].status.Scheduled? && !st.rows[j].cleared && NoLaterReview(st.rows, j)
    ensures Runs(st, acts, end)
    ensures 0 in end.sessions && end.sessions[0].entry == create && end.sessions[0].phase.FallingBack?
  {
    var acts1, st1 := StaleWriteWins(st, create, j);
    ViolationFallsBack(st1, 0, j);
    RunsOn(st, acts1, st1, Advance(0));
    acts, end := acts1 + [Advance(0)], Apply(st1, Advance(0));
  }

  /** A session whose insert the index has refused ends in the index error if the winner ends first. */
  lemma WinnerEndsFirst(st: State, s: SessionId, w: JobId) returns (ended: State, a: Action)
    requires Exclusive(st.rows) && LosesTo(st, s, w) && Writable(st.rows, w)
    ensures Enabled(AdvanceSession(st, s), a) && ended == Apply(AdvanceSession(st, s), a)
    ensures Enabled(ended, Advance(s)) && ended.sessions[s] == st.sessions[s].(phase := FallingBack)
    ensures AdvanceSession(ended, s).lost == ended.lost[st.sessions[s].id := Raised]
  {
    ViolationFallsBack(st, s, w);
    ended, a := JobEnds(AdvanceSession(st, s), w);
    assert Runs(ended, [], ended) && [a][1..] == [];
    LoserEndsExactly(st, [a], ended, s, w);
  }

  /**
   The other end of a lost race is reached: on any quiet table, for any scheduled job of a file
   without an issue, some run makes a creation raise the index error instead of a conflict.
   */
  lemma EndedWinnerRaises(st: State, create: Entry, j: JobId) returns (acts: seq<Action>, end: State)
    requires Initial(st) && NoIssue(st, create) && j < |st.rows| && st.rows[j].file == create.file
    requires st.rows[j].status.Scheduled? && !st.rows[j].cleared && NoLaterReview(st.rows, j)
    ensures Runs(st, acts, end)
    ensures 0 in end.sessions && end.sessions[0].entry == create && end.sessions[0].id in end.lost
    ensures end.lost[end.sessions[0].id] == Raised
  {
    var acts1, st1 := StaleWriteWins(st, create, j);
    InitialIsSound(st);
    ReachableIsSound(st, acts1, st1);
    RunsOn(st, acts1, st1, Advance(0));
    var ended, a := WinnerEndsFirst(st1, 0, j);
    RunsOn(st, acts1 + [Advance(0)], AdvanceSession(st1, 0), a);
    RunsOn(st, acts1 + [Advance(0)] + [a], ended, Advance(0));
    acts, end := acts1 + [Advance(0)] + [a] + [Advance(0)], AdvanceSession(ended, 0);
  }
}
