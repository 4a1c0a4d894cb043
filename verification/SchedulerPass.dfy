/** `_refresh_scheduled_jobs` (apps/api/app/services/orchestration.py:220-241) over the job table. */
module SchedulerPass {
  import opened Wrappers
  import opened JobStatuses
  import opened ScheduleWindows

  /** `list_jobs_for_scheduling` returns at most this many rows, oldest first. */
  const LIMIT: nat := 200

  datatype Row = Row(
    status: JobStatus, scheduledForAt: Option<int>, windows: seq<Window>, hasWorker: bool, cleared: bool)

  predicate Listed(r: Row) {
    (r.status.Pending? || r.status.Scheduled?) && !r.cleared
  }

  ghost predicate AllRowsNormal(rows: seq<Row>) {
    forall i :: 0 <= i < |rows| ==> AllNormal(rows[i].windows)
  }

  /** What one pass leaves of a row it looks at. */
  ghost function Refreshed(r: Row, now: int): Row
    requires AllNormal(r.windows)
  {
    if r.status.Scheduled? && r.scheduledForAt.Some? && r.scheduledForAt.value > now then r
    else if Allows(r.windows, now) then
      if r.status.Scheduled? then r.(status := Pending, scheduledForAt := None) else r
    else if r.status.Scheduled? || (r.status.Pending? && !r.hasWorker) then
      r.(status := Scheduled, scheduledForAt := Some(LeastAllowed(r.windows, now)))
    else r
  }

  function ListedCount(rows: seq<Row>): nat {
    if rows == [] then 0
    else ListedCount(rows[..|rows| - 1]) + if Listed(rows[|rows| - 1]) then 1 else 0
  }

  /** Row `i` is among those the limited query returns. */
  predicate LookedAt(rows: seq<Row>, i: nat)
    requires i < |rows|
  {
    Listed(rows[i]) && ListedCount(rows[..i]) < LIMIT
  }

  ghost function AfterPass(rows: seq<Row>, now: int): (r: seq<Row>)
    requires AllRowsNormal(rows)
    ensures |r| == |rows|
  {
    seq(|rows|, i requires 0 <= i < |rows| => if LookedAt(rows, i) then Refreshed(rows[i], now) else rows[i])
  }

  // ------------------------------------------------------------ The pass

  class Job {
    var status: JobStatus
    var scheduledForAt: Option<int>
    const windows: seq<Window>
    const hasWorker: bool
    const cleared: bool

    constructor (row: Row)
      ensures View() == row
    {
      status, scheduledForAt := row.status, row.scheduledForAt;
      windows, hasWorker, cleared := row.windows, row.hasWorker, row.cleared;
    }

    function View(): Row
      reads this
    {
      Row(status, scheduledForAt, windows, hasWorker, cleared)
    }
  }

  ghost predicate Distinct(table: seq<Job>) {
    forall i, j :: 0 <= i < j < |table| ==> table[i] != table[j]
  }

  ghost function Views(table: seq<Job>): (r: seq<Row>)
    reads table
    ensures |r| == |table| && forall i :: 0 <= i < |table| ==> r[i] == table[i].View()
  {
    if table == [] then [] else Views(table[..|table| - 1]) + [table[|table| - 1].View()]
  }

  ghost function ChangedCount(before: seq<Row>, after: seq<Row>): nat
    requires |before| == |after|
  {
    if before == [] then 0
    else
      var n := |before| - 1;
      ChangedCount(before[..n], after[..n]) + if before[n] != after[n] then 1 else 0
  }

  /** The pass itself: it rewrites exactly the rows the query returns and counts those it changed. */
  method RefreshScheduledJobs(table: seq<Job>, now: int) returns (changed: nat)
    requires Distinct(table) && AllRowsNormal(Views(table))
    modifies table
    ensures Views(table) == AfterPass(old(Views(table)), now)
    ensures changed == ChangedCount(old(Views(table)), Views(table))
  {
    ghost var before := Views(table);
    ghost var after := AfterPass(before, now);
    changed := VisitRows(table, now, before, after);
    assert Views(table) == after;
  }

  /** The loop over the rows, against the rows before and after the pass. */
  method VisitRows(table: seq<Job>, now: int, ghost before: seq<Row>, ghost after: seq<Row>) returns (changed: nat)
    requires Distinct(table) && |before| == |after| == |table| && AllRowsNormal(before)
    requires forall i :: 0 <= i < |table| ==> table[i].View() == before[i]
    requires forall i :: 0 <= i < |table| ==> after[i] == if LookedAt(before, i) then Refreshed(before[i], now) else before[i]
    modifies table
    ensures forall i :: 0 <= i < |table| ==> table[i].View() == after[i]
    ensures changed == ChangedCount(before, after)
  {
    changed := 0;
    var taken := 0;
    for n := 0 to |table|
      invariant taken == ListedCount(before[..n])
      invariant forall i :: 0 <= i < n ==> table[i].View() == after[i]
      invariant forall i :: n <= i < |table| ==> table[i].View() == before[i]
      invariant changed == ChangedCount(before[..n], after[..n])
    {
      CountOneMore(before, after, n);
      assert table[n].View() == before[n];
      var touched;
      touched, taken := VisitRow(table[n], now, taken);
      changed := changed + if touched then 1 else 0;
    }
    assert before[..|table|] == before && after[..|table|] == after;
  }

  lemma CountOneMore(before: seq<Row>, after: seq<Row>, n: nat)
    requires n < |before| == |after|
    ensures ListedCount(before[..n + 1]) == ListedCount(before[..n]) + if Listed(before[n]) then 1 else 0
    ensures ChangedCount(before[..n + 1], after[..n + 1]) ==
      ChangedCount(before[..n], after[..n]) + if before[n] != after[n] then 1 else 0
  {
    assert before[..n + 1][..n] == before[..n] && after[..n + 1][..n] == after[..n];
  }

  /** One row under the limited query: `taken` counts the rows it has returned so far. */
  method VisitRow(job: Job, now: int, taken: nat) returns (touched: bool, taken': nat)
    requires AllNormal(job.windows)
    modifies job
    ensures job.View() == if Listed(old(job.View())) && taken < LIMIT then Refreshed(old(job.View()), now) else old(job.View())
    ensures touched <==> job.View() != old(job.View())
    ensures taken' == taken + if Listed(old(job.View())) then 1 else 0
  {
    touched, taken' := false, taken;
    if (job.status.Pending? || job.status.Scheduled?) && !job.cleared {
      if taken < LIMIT {
        touched := RefreshJob(job, now);
      }
      taken' := taken + 1;
    }
  }

  /** The body of the loop for one job the query returned. */
  method RefreshJob(job: Job, now: int) returns (touched: bool)
    requires AllNormal(job.windows) && Listed(job.View())
    modifies job
    ensures job.View() == Refreshed(old(job.View()), now)
    ensures if IsDue(old(job.View()), now) then MovedRightly(old(job.View()), job.View(), now) else job.View() == old(job.View())
    ensures touched <==> job.View() != old(job.View())
  {
    touched := false;
    if job.status.Scheduled? && job.scheduledForAt.Some? && job.scheduledForAt.value > now {
      return;
    }
    var allowed := ScheduleWindowsAllowNow(job.windows, now);
    if allowed {
      if job.status.Scheduled? {
        job.status, job.scheduledForAt := Pending, None;
        touched := true;
      }
      return;
    }
    if job.windows == [] {
      return;
    }
    if (job.status.Pending? && !job.hasWorker) || job.status.Scheduled? {
      var opening := NextScheduleOpening(job.windows, now);
      LeastAllowedUnique(job.windows, now, opening.value, LeastAllowed(job.windows, now));
      job.status, job.scheduledForAt := Scheduled, opening;
      touched := true;
    }
  }

  // ----------------------------------------------- What a pass guarantees

  /** The pass has something to decide: the job is waiting and not scheduled for later. */
  predicate IsDue(r: Row, now: int) {
    !r.cleared && (r.status.Pending? || (r.status.Scheduled? && (r.scheduledForAt.None? || r.scheduledForAt.value <= now)))
  }

  /** A row it moves goes to pending inside its windows, and otherwise waits for the least allowed instant. */
  ghost predicate MovedRightly(r: Row, after: Row, now: int)
    requires AllNormal(r.windows)
  {
    && after == r.(status := after.status, scheduledForAt := after.scheduledForAt)
    && (Allows(r.windows, now) && r.status.Scheduled? ==> after.status.Pending? && after.scheduledForAt.None?)
    && (Allows(r.windows, now) && r.status.Pending? ==> after == r)
    && (!Allows(r.windows, now) && r.status.Pending? && r.hasWorker ==> after == r)
    && (!Allows(r.windows, now) && (r.status.Scheduled? || !r.hasWorker) ==>
          after.status.Scheduled? && after.scheduledForAt.Some? && IsLeastAllowed(r.windows, now, after.scheduledForAt.value))
  }

  /** What a pass does to each row: it leaves all alone but the due ones among those the query returns. */
  lemma PassMovesDueRows(rows: seq<Row>, now: int, i: nat)
    requires AllRowsNormal(rows) && i < |rows|
    ensures if LookedAt(rows, i) && IsDue(rows[i], now) then MovedRightly(rows[i], AfterPass(rows, now)[i], now)
            else AfterPass(rows, now)[i] == rows[i]
  {
  }

  /** A scheduled job waits for a later instant; an unassigned pending job is inside its windows. */
  ghost predicate Settled(r: Row, now: int)
    requires AllNormal(r.windows)
  {
    && (r.status.Scheduled? ==> r.scheduledForAt.Some? && r.scheduledForAt.value > now)
    && (r.status.Pending? && !r.hasWorker ==> Allows(r.windows, now))
  }

  lemma RefreshedIsSettled(r: Row, now: int)
    requires AllNormal(r.windows) && Listed(r)
    ensures Settled(Refreshed(r, now), now) && Listed(Refreshed(r, now))
    ensures Refreshed(r, now).windows == r.windows
  {
    if !Allows(r.windows, now) {
      assert LeastAllowed(r.windows, now) != now;
    }
  }

  lemma SettledIsFixed(r: Row, now: int)
    requires AllNormal(r.windows) && Listed(r) && Settled(r, now)
    ensures Refreshed(r, now) == r
  {
  }

  /** The query limit decides: the whole table is settled exactly when the rows beyond it already were. */
  lemma PassSettlesTableUpToLimit(rows: seq<Row>, now: int)
    requires AllRowsNormal(rows)
    ensures AllRowsNormal(AfterPass(rows, now))
    ensures (forall i :: 0 <= i < |rows| && Listed(rows[i]) ==> Settled(AfterPass(rows, now)[i], now))
        <==> (forall i :: 0 <= i < |rows| && Listed(rows[i]) && !LookedAt(rows, i) ==> Settled(rows[i], now))
    ensures ListedCount(rows) <= LIMIT ==>
      forall i :: 0 <= i < |rows| && Listed(rows[i]) ==> Settled(AfterPass(rows, now)[i], now)
  {
    var after := AfterPass(rows, now);
    forall i | 0 <= i < |rows|
      ensures AllNormal(after[i].windows)
      ensures LookedAt(rows, i) ==> Settled(after[i], now)
      ensures Listed(rows[i]) ==> ListedCount(rows[..i]) < ListedCount(rows)
    {
      if LookedAt(rows, i) {
        RefreshedIsSettled(rows[i], now);
      }
      if Listed(rows[i]) {
        ListedCountGrows(rows, i);
      }
    }
  }

  lemma {:induction false} ListedCountGrows(rows: seq<Row>, i: nat)
    requires i < |rows| && Listed(rows[i])
    ensures ListedCount(rows[..i]) < ListedCount(rows)
    decreases |rows|
  {
    var n := |rows| - 1;
    if i < n {
      ListedCountGrows(rows[..n], i);
      assert rows[..n][..i] == rows[..i];
    }
  }

  lemma {:induction false} ListedCountKept(a: seq<Row>, b: seq<Row>)
    requires |a| == |b| && forall i :: 0 <= i < |a| ==> Listed(a[i]) == Listed(b[i])
    ensures ListedCount(a) == ListedCount(b)
  {
    if a != [] {
      var n := |a| - 1;
      ListedCountKept(a[..n], b[..n]);
    }
  }

  /** A second pass at the same instant changes nothing, whatever the table. */
  lemma SecondPassChangesNothing(rows: seq<Row>, now: int)
    requires AllRowsNormal(rows)
    ensures AllRowsNormal(AfterPass(rows, now))
    ensures AfterPass(AfterPass(rows, now), now) == AfterPass(rows, now)
  {
    PassSettlesTableUpToLimit(rows, now);
    var after := AfterPass(rows, now);
    forall i | 0 <= i < |rows| ensures Listed(after[i]) == Listed(rows[i]) {
      if LookedAt(rows, i) {
        RefreshedIsSettled(rows[i], now);
      }
    }
    forall i | 0 <= i < |rows|
      ensures (if LookedAt(after, i) then Refreshed(after[i], now) else after[i]) == after[i]
    {
      ListedCountKept(after[..i], rows[..i]);
      if LookedAt(after, i) {
        RefreshedIsSettled(rows[i], now);
        SettledIsFixed(after[i], now);
      }
    }
  }

  /** A pass promotes a job only at an instant its windows accept, and not before the recorded time. */
  lemma PromotionIsAllowed(rows: seq<Row>, now: int, i: nat)
    requires AllRowsNormal(rows) && i < |rows|
    requires rows[i].status.Scheduled? && AfterPass(rows, now)[i].status.Pending?
    ensures Allows(rows[i].windows, now)
    ensures rows[i].scheduledForAt.Some? ==> rows[i].scheduledForAt.value <= now
  {
    assert Refreshed(rows[i], now).status.Pending?;
  }

  // ------------------------------------------------------------ Long runs

  ghost function AfterPasses(rows: seq<Row>, times: seq<int>): (r: seq<Row>)
    requires AllRowsNormal(rows)
    ensures |r| == |rows| && AllRowsNormal(r)
    decreases |times|
  {
    if times == [] then rows
    else
      PassSettlesTableUpToLimit(rows, times[0]);
      AfterPasses(AfterPass(rows, times[0]), times[1..])
  }

  /** The rows a job's own refreshes go through when it is looked at by every pass. */
  ghost function RefreshedThrough(r: Row, times: seq<int>): (r': Row)
    requires AllNormal(r.windows)
    ensures r'.windows == r.windows
    decreases |times|
  {
    if times == [] then r else RefreshedThrough(Refreshed(r, times[0]), times[1..])
  }

  /**
   The row `create_job_from_plan` makes (packages/db/encodr_db/repositories/jobs.py:63-89): it reads
   the clock for the opening and again for the check, and a retry may bring a delay.
   */
  ghost function NewRow(windows: seq<Window>, looked: int, checked: int, due: Option<int>): Row
    requires AllNormal(windows) && looked <= checked
  {
    if due.Some? then Row(Scheduled, due, windows, false, false)
    else if windows != [] && !Allows(windows, checked) then
      Row(Scheduled, Some(LeastAllowed(windows, looked)), windows, false, false)
    else Row(Pending, None, windows, false, false)
  }

  /** No accepted instant lies before the recorded time. */
  ghost predicate OnTime(r: Row, now: int)
    requires AllNormal(r.windows)
  {
    && Listed(r) && !r.hasWorker
    && (r.status.Scheduled? ==>
          r.scheduledForAt.Some? && forall u :: now <= u < r.scheduledForAt.value ==> !Allows(r.windows, u))
  }

  ghost predicate Nondecreasing(from: int, times: seq<int>) {
    forall i :: 0 <= i < |times| ==> from <= times[i] && forall j :: i < j < |times| ==> times[i] <= times[j]
  }

  /**
   After any run of passes over a waiting job, it is pending exactly when its windows
   accept the instant of the last pass: the recorded time neither hides an opening nor
   lets a job out early.
   */
  lemma {:induction false} PendingExactlyInsideWindows(r: Row, from: int, times: seq<int>)
    requires AllNormal(r.windows) && OnTime(r, from) && Nondecreasing(from, times) && times != []
    ensures RefreshedThrough(r, times).status.Pending? <==> Allows(r.windows, times[|times| - 1])
    decreases |times|
  {
    var now := times[0];
    var next := Refreshed(r, now);
    assert OnTime(next, now) && (next.status.Pending? <==> Allows(r.windows, now));
    if |times| == 1 {
      assert times[1..] == [];
    } else {
      PendingExactlyInsideWindows(next, now, times[1..]);
    }
  }

  /** A scheduled job whose time is one its windows allow, or has come. */
  ghost predicate WaitsRightly(r: Row, now: int)
    requires AllNormal(r.windows)
  {
    r.status.Scheduled? && r.scheduledForAt.Some? && r.scheduledForAt.value > now ==> Allows(r.windows, r.scheduledForAt.value)
  }

  /** And when it is scheduled, it is for the first instant from the last pass that its windows accept. */
  lemma {:induction false} ScheduledForTheOpening(r: Row, from: int, times: seq<int>)
    requires AllNormal(r.windows) && OnTime(r, from) && WaitsRightly(r, from) && Nondecreasing(from, times) && times != []
    ensures var r' := RefreshedThrough(r, times);
      r'.status.Scheduled? ==>
        r'.scheduledForAt.Some? && IsLeastAllowed(r.windows, times[|times| - 1], r'.scheduledForAt.value)
    decreases |times|
  {
    var now := times[0];
    var next := Refreshed(r, now);
    assert OnTime(next, now) && WaitsRightly(next, now);
    if |times| == 1 {
      assert times[1..] == [];
    } else {
      ScheduledForTheOpening(next, now, times[1..]);
    }
  }

  /** While the query limit is not exceeded, each waiting job goes through its own refreshes. */
  lemma {:induction false} PassesActRowByRow(rows: seq<Row>, times: seq<int>, i: nat)
    requires AllRowsNormal(rows) && ListedCount(rows) <= LIMIT && i < |rows| && Listed(rows[i])
    ensures AfterPasses(rows, times)[i] == RefreshedThrough(rows[i], times)
    decreases |times|
  {
    if times != [] {
      var after := AfterPass(rows, times[0]);
      PassSettlesTableUpToLimit(rows, times[0]);
      forall k | 0 <= k < |rows| ensures Listed(after[k]) == Listed(rows[k]) {
        if LookedAt(rows, k) {
          RefreshedIsSettled(rows[k], times[0]);
        }
      }
      ListedCountKept(after, rows);
      ListedCountGrows(rows, i);
      PassesActRowByRow(after, times[1..], i);
    }
  }

  /** The same over the whole table, for every run of passes over at most 200 waiting jobs. */
  lemma WaitingJobsFollowTheirWindows(rows: seq<Row>, from: int, times: seq<int>, i: nat)
    requires AllRowsNormal(rows) && ListedCount(rows) <= LIMIT && i < |rows|
    requires OnTime(rows[i], from) && Nondecreasing(from, times) && times != []
    ensures AfterPasses(rows, times)[i].status.Pending? <==> Allows(rows[i].windows, times[|times| - 1])
    ensures var r := AfterPasses(rows, times)[i];
      WaitsRightly(rows[i], from) && r.status.Scheduled? ==>
        r.scheduledForAt.Some? && IsLeastAllowed(rows[i].windows, times[|times| - 1], r.scheduledForAt.value)
  {
    PassesActRowByRow(rows, times, i);
    PendingExactlyInsideWindows(rows[i], from, times);
    if WaitsRightly(rows[i], from) {
      ScheduledForTheOpening(rows[i], from, times);
    }
  }

  /** A new job is on time from its creation, or from the end of its delay. */
  lemma NewRowIsOnTime(windows: seq<Window>, looked: int, checked: int, due: Option<int>)
    requires AllNormal(windows) && looked <= checked
    ensures OnTime(NewRow(windows, looked, checked, due), if due.Some? then due.value else checked)
    ensures WaitsRightly(NewRow(windows, looked, checked, due), if due.Some? then due.value else checked)
    ensures NewRow(windows, looked, checked, due).status.Pending? <==> due.None? && Allows(windows, checked)
    ensures !NewRow(windows, looked, checked, due).status.Pending? ==> NewRow(windows, looked, checked, due).status.Scheduled?
  {
  }

  /** 200 open pending jobs and, behind them, one scheduled job whose time has come. */
  ghost function CrowdedTable(): (rows: seq<Row>)
    ensures |rows| == LIMIT + 1 && AllRowsNormal(rows)
  {
    seq(LIMIT, i => Row(Pending, None, [], false, false)) + [Row(Scheduled, Some(0), [], false, false)]
  }

  /** The limit matters: no number of passes ever promotes the last job of the crowded table. */
  lemma {:induction false} LimitStarvesLaterJobs(times: seq<int>)
    ensures AfterPasses(CrowdedTable(), times) == CrowdedTable()
    ensures forall now :: now >= 0 ==> !Settled(CrowdedTable()[LIMIT], now)
    decreases |times|
  {
    if times != [] {
      var rows := CrowdedTable();
      CrowdFillsTheQuery(rows[..LIMIT]);
      assert forall i :: 0 <= i < LIMIT ==> Refreshed(rows[i], times[0]) == rows[i];
      assert AfterPass(rows, times[0]) == rows;
      LimitStarvesLaterJobs(times[1..]);
    }
  }

  lemma {:induction false} CrowdFillsTheQuery(rows: seq<Row>)
    requires forall i :: 0 <= i < |rows| ==> Listed(rows[i])
    ensures ListedCount(rows) == |rows|
  {
    if rows != [] {
      CrowdFillsTheQuery(rows[..|rows| - 1]);
    }
  }
}
