/**
 `_handle_worker_interruptions` (apps/api/app/services/orchestration.py:298-331) and its
 interplay with the worker's throttled progress reports.
 */
module WorkerInterruption {
  import opened Wrappers
  import opened JobStatuses
  import R = ProgressReporter

  const GRACE: int := 45 * R.SECOND
  const LIMIT: nat := 200

  /** What the pass asks of a job's worker; `dispatchable` is `worker_is_dispatchable`. */
  datatype Worker = Unassigned | Remote(dispatchable: bool) | Local(enabled: bool)

  datatype Row = Row(
    status: JobStatus, progressUpdatedAt: Option<int>, startedAt: Option<int>, updatedAt: int, worker: Worker)

  function LastContact(r: Row): int {
    if r.progressUpdatedAt.Some? then r.progressUpdatedAt.value
    else if r.startedAt.Some? then r.startedAt.value
    else r.updatedAt
  }

  predicate Reachable(w: Worker) {
    match w
    case Unassigned => false
    case Remote(dispatchable) => dispatchable
    case Local(enabled) => enabled
  }

  predicate Interrupts(r: Row, now: int) {
    r.status.Running? && LastContact(r) < now - GRACE && !Reachable(r.worker)
  }

  class Job {
    var status: JobStatus
    var progressUpdatedAt: Option<int>
    var worker: Worker
    const startedAt: Option<int>
    const updatedAt: int

    constructor (r: Row)
      ensures View() == r
    {
      status, progressUpdatedAt, worker := r.status, r.progressUpdatedAt, r.worker;
      startedAt, updatedAt := r.startedAt, r.updatedAt;
    }

    function View(): Row
      reads this
    {
      Row(status, progressUpdatedAt, startedAt, updatedAt, worker)
    }
  }

  function Interrupted(r: Row, now: int): Row {
    r.(status := JobStatus.Interrupted, progressUpdatedAt := Some(now), worker := Unassigned)
  }

  /** How many of the first rows a pass interrupts. */
  function InterruptedCount(rows: seq<Row>, now: int): nat {
    if rows == [] then 0
    else InterruptedCount(rows[..|rows| - 1], now) + if Interrupts(rows[|rows| - 1], now) then 1 else 0
  }

  ghost function Views(jobs: seq<Job>): (rows: seq<Row>)
    reads jobs
    ensures |rows| == |jobs| && forall i :: 0 <= i < |jobs| ==> rows[i] == jobs[i].View()
  {
    if jobs == [] then [] else Views(jobs[..|jobs| - 1]) + [jobs[|jobs| - 1].View()]
  }

  function AfterPass(r: Row, now: int): Row {
    if Interrupts(r, now) then Interrupted(r, now) else r
  }

  /** Nothing was heard of the job for 45 seconds: no progress, or no start, or no change. */
  predicate Quiet(r: Row, now: int) {
    match (r.progressUpdatedAt, r.startedAt)
    case (Some(t), _) => t + 45_000_000 < now
    case (None, Some(t)) => t + 45_000_000 < now
    case (None, None) => r.updatedAt + 45_000_000 < now
  }

  /** A quiet running job without a worker, or of one that is not dispatchable or not enabled, is interrupted; no other job changes. */
  lemma QuietJobsAreInterrupted(r: Row, now: int)
    ensures if r.status.Running? && Quiet(r, now) && r.worker in {Unassigned, Remote(false), Local(false)}
            then AfterPass(r, now) == r.(status := JobStatus.Interrupted, progressUpdatedAt := Some(now), worker := Unassigned)
            else AfterPass(r, now) == r
  {
  }

  lemma {:induction false} CountIsOfInterrupted(before: seq<Row>, now: int)
    requires forall i :: 0 <= i < |before| ==> before[i].status.Running?
    ensures InterruptedCount(before, now) == |set i: nat | i < |before| && AfterPass(before[i], now).status.Interrupted?|
  {
    if before != [] {
      var n := |before| - 1;
      var front := before[..n];
      CountIsOfInterrupted(front, now);
      var earlier := set i: nat | i < n && AfterPass(front[i], now).status.Interrupted?;
      var all := set i: nat | i < |before| && AfterPass(before[i], now).status.Interrupted?;
      assert all == earlier + if Interrupts(before[n], now) then {n} else {};
    }
  }

  /** What a pass makes of the rows, and how many it counts. */
  lemma PassMeaning(before: seq<Row>, now: int, after: seq<Row>)
    requires forall i :: 0 <= i < |before| ==> before[i].status.Running?
    requires |after| == |before| && forall i :: 0 <= i < |before| ==> after[i] == AfterPass(before[i], now)
    ensures forall i :: 0 <= i < |before| ==>
      (after[i].status.Interrupted? <==> Quiet(before[i], now) && before[i].worker in {Unassigned, Remote(false), Local(false)})
    ensures InterruptedCount(before, now) == |set i: nat | i < |after| && after[i].status.Interrupted?|
  {
    CountIsOfInterrupted(before, now);
    forall i | 0 <= i < |before|
      ensures after[i].status.Interrupted? <==>
        Quiet(before[i], now) && before[i].worker in {Unassigned, Remote(false), Local(false)}
    {
      QuietJobsAreInterrupted(before[i], now);
    }
    assert (set i: nat | i < |after| && after[i].status.Interrupted?)
        == set i: nat | i < |before| && AfterPass(before[i], now).status.Interrupted?;
  }

  /** One pass over the running jobs the query returned. */
  method HandleWorkerInterruptions(running: seq<Job>, now: int) returns (interrupted: nat)
    requires |running| <= LIMIT
    requires forall i, j :: 0 <= i < j < |running| ==> running[i] != running[j]
    requires forall i :: 0 <= i < |running| ==> running[i].status.Running?
    modifies running
    ensures forall i :: 0 <= i < |running| ==> Views(running)[i] == AfterPass(old(Views(running))[i], now)
    ensures forall i :: 0 <= i < |running| ==>
      (Views(running)[i].status.Interrupted? <==>
        && Quiet(old(Views(running))[i], now)
        && old(Views(running))[i].worker in {Unassigned, Remote(false), Local(false)})
    ensures interrupted == |set i: nat | i < |running| && Views(running)[i].status.Interrupted?|
  {
    ghost var before := Views(running);
    interrupted := VisitRunning(running, now, before);
    PassMeaning(before, now, Views(running));
  }

  /** The loop over the jobs, against their rows before the pass. */
  method VisitRunning(running: seq<Job>, now: int, ghost before: seq<Row>) returns (interrupted: nat)
    requires forall i, j :: 0 <= i < j < |running| ==> running[i] != running[j]
    requires |before| == |running| && forall i :: 0 <= i < |running| ==> running[i].View() == before[i] && before[i].status.Running?
    modifies running
    ensures forall i :: 0 <= i < |running| ==> running[i].View() == AfterPass(before[i], now)
    ensures interrupted == InterruptedCount(before, now)
  {
    interrupted := 0;
    for n := 0 to |running|
      invariant forall i :: 0 <= i < n ==> running[i].View() == AfterPass(before[i], now)
      invariant forall i :: n <= i < |running| ==> running[i].View() == before[i]
      invariant interrupted == InterruptedCount(before[..n], now)
    {
      assert before[..n + 1][..n] == before[..n];
      assert running[n].View() == before[n];
      var lost := InterruptJob(running[n], now);
      interrupted := interrupted + if lost then 1 else 0;
    }
    assert before[..|running|] == before;
  }

  /** The body of the loop for one running job. */
  method InterruptJob(job: Job, now: int) returns (lost: bool)
    requires job.status.Running?
    modifies job
    ensures lost == old(Interrupts(job.View(), now))
    ensures job.View() == AfterPass(old(job.View()), now)
  {
    var lastContact :=
      if job.progressUpdatedAt.Some? then job.progressUpdatedAt.value
      else if job.startedAt.Some? then job.startedAt.value
      else job.updatedAt;
    if lastContact >= now - GRACE {
      return false;
    }
    if job.worker.Remote? && job.worker.dispatchable {
      return false;
    }
    if job.worker.Local? && job.worker.enabled {
      return false;
    }
    job.status, job.progressUpdatedAt, job.worker := JobStatus.Interrupted, Some(now), Unassigned;
    lost := true;
  }

  // --------------------------------------- The running job and its reports

  /** One job: the worker's reporter, and the server's row. */
  datatype System = System(reporter: R.State, row: Row)

  datatype Event =
    | Progress(update: R.Update, now: int, answer: R.Reply)
    | WorkerChanges(worker: Worker, now: int)
    | Pass(now: int)

  /** A delivered report reaches the server at once and sets `progress_updated_at`. */
  function Next(s: System, e: Event): System {
    match e
    case Progress(u, now, answer) =>
      var outcome := R.OutcomeOf(s.reporter, u, now, answer);
      System(
        R.After(s.reporter, u, now, answer),
        if outcome.Delivered? && s.row.status.Running? then s.row.(progressUpdatedAt := Some(now)) else s.row)
    case WorkerChanges(w, _) => s.(row := s.row.(worker := w))
    case Pass(now) => if Interrupts(s.row, now) then s.(row := Interrupted(s.row, now)) else s
  }

  function Run(s: System, events: seq<Event>): System
    decreases |events|
  {
    if events == [] then s else Run(Next(s, events[0]), events[1..])
  }

  /**
   The clock never goes back, every update is an encoding update with a percent whose
   report is not lost, and at every event the latest update is at most `gap` old.
   */
  ghost predicate Timely(lastUpdate: int, clock: int, gap: int, events: seq<Event>)
    decreases |events|
  {
    events == [] ||
    var e := events[0];
    && clock <= e.now <= lastUpdate + gap
    && (e.Progress? ==> e.update.stage == "encoding" && e.update.percent.Some? && e.answer.Answer?)
    && Timely(if e.Progress? then e.now else lastUpdate, e.now, gap, events[1..])
  }

  /** The first report of a claimed job has just been delivered. */
  ghost predicate Started(s: System, now: int) {
    s.row.status.Running? && s.row.progressUpdatedAt == Some(now) && s.reporter.lastSentAt == Some(now)
  }

  ghost predicate Survives(gap: int, s: System, now: int, events: seq<Event>) {
    Started(s, now) && Timely(now, now, gap, events) ==> Run(s, events).row.status.Running?
  }

  lemma {:induction false} TimelyRunIsNotInterrupted(s: System, lastUpdate: int, clock: int, gap: int, events: seq<Event>)
    requires gap <= 43 * R.SECOND + 1 && Timely(lastUpdate, clock, gap, events)
    requires s.row.status.Running? && s.reporter.lastSentAt.Some? && lastUpdate <= clock
    requires s.row.progressUpdatedAt == s.reporter.lastSentAt
    requires s.reporter.lastSentAt.value <= lastUpdate < s.reporter.lastSentAt.value + R.PERIOD
    ensures Run(s, events).row.status.Running?
    decreases |events|
  {
    if events != [] {
      var e := events[0];
      var next := Next(s, e);
      assert !Interrupts(s.row, e.now);
      TimelyRunIsNotInterrupted(next, if e.Progress? then e.now else lastUpdate, e.now, gap, events[1..]);
    }
  }

  /**
   Throttling never starves the 45 s timeout, and 43 s is where that stops: a job whose
   worker emits an update at least every `gap` stays running through every pass of every
   run exactly when `gap` is at most 43 s and one microsecond.
   */
  lemma ReportsOutpaceTheTimeout(gap: int)
    ensures (forall s: System, now: int, events: seq<Event> :: Survives(gap, s, now, events)) <==> gap <= 43 * R.SECOND + 1
  {
    if gap <= 43 * R.SECOND + 1 {
      forall s: System, now: int, events: seq<Event> | Started(s, now) && Timely(now, now, gap, events)
        ensures Survives(gap, s, now, events)
      {
        TimelyRunIsNotInterrupted(s, now, now, gap, events);
      }
    } else {
      var s, now, events := LateUpdateIsInterrupted(gap);
      assert !Survives(gap, s, now, events);
    }
  }

  /** One throttled update just short of two seconds, then silence until the pass. */
  lemma LateUpdateIsInterrupted(gap: int) returns (s: System, now: int, events: seq<Event>)
    requires gap > 43 * R.SECOND + 1
    ensures Started(s, now) && Timely(now, now, gap, events)
    ensures Run(s, events).row.status.Interrupted?
  {
    now := 0;
    var update := R.Update("encoding", Some(0.0));
    assert R.Truncate(0.0) == 0;
    s := System(R.State(Some(0), Some(0), None, false, None), Row(Running, Some(0), None, 0, Unassigned));
    var first := Progress(update, R.PERIOD - 1, R.Answer(false, None));
    var pass := Pass(GRACE + 1);
    events := [first, pass];
    assert events[1..] == [pass] && [pass][1..] == [];
    assert Timely(R.PERIOD - 1, R.PERIOD - 1, gap, [pass]);
    var s1 := Next(s, first);
    assert s1.row == s.row;
    assert Run(s, events) == Run(s1, [pass]) == Next(s1, pass);
  }
}
