/**
 A remote job from claim to result: `process_once` (apps/worker-agent/app/service.py:307-418),
 `execute` and `_verify_and_place` (apps/worker-agent/app/execution.py:52-225, 437-675) and the
 server's reading of the result (apps/api/app/services/worker.py:933-958, 1103-1107).

 The runner, verifier, safety check, replacement service and server replies are oracles: a
 World fixes what each of them does, and the results hold for every World.
 */
module RemoteExecution {
  import opened Wrappers
  import R = ProgressReporter

  type Path = string

  datatype Status = Staged | Completed | Failed | Skipped | ManualReview | Cancelled

  datatype Result = Result(status: Status, output: Option<Path>, replaced: bool, finalOutput: Option<Path>)

  /** When a report is made and what the server would reply. */
  datatype Tick = Tick(now: int, reply: R.Reply)

  datatype RunnerEnd =
    | Returns(status: Status, output: Option<Path>)
    | CancelledError(output: Option<Path>)
    | OtherError

  datatype Verification = VerifierRaises | Passed | NotPassed
  datatype Safety = SafetyRaises | Clear | Tripped
  datatype Placement = PlacementRaises | Succeeded(finalOutput: Option<Path>) | PlacementFailed
  datatype Analysis = ProbeFails | PlanFails | Analysed

  datatype World = World(
    payloadValid: bool, dryRun: bool, excluded: bool,
    starting: Tick,
    runnerCalls: seq<R.Call>, runner: RunnerEnd,
    verifying: Tick, verification: Verification, safety: Safety,
    replacing: Tick, placement: Placement,
    probing: Tick, planning: Tick, summarising: Tick, analysis: Analysis)

  /** What an observer of the worker sees, in order. */
  datatype Event =
    | Reported(stage: string, outcome: R.Outcome, cancel: bool)
    | Polled(answer: bool)
    | RunnerInvoked
    | Verified(passed: bool)
    | SafetyChecked(clear: bool)
    | PlacedOutput(ok: bool)
    | Unlinked(path: Path)

  type Trace = seq<Event>

  /** The server's reply to a report that reached it asks for cancellation. */
  predicate Cancels(e: Event) {
    e.Reported? && e.outcome.Delivered? && e.cancel
  }

  predicate CancelSeen(t: Trace) {
    exists i :: 0 <= i < |t| && Cancels(t[i])
  }

  /** Every poll of the flag answers whether some earlier reply asked for cancellation. */
  ghost predicate PollsAreHonest(t: Trace) {
    forall i :: 0 <= i < |t| && t[i].Polled? ==> t[i].answer == CancelSeen(t[..i])
  }

  /** A placement is the last event, and this is what must come directly before it. */
  ghost predicate PlacementIsEarned(t: Trace, j: nat)
    requires j < |t|
  {
    && 6 <= j
    && t[j - 1].Reported? && t[j - 1].stage == "replacing" && t[j - 1].outcome.Delivered?
    && t[j - 2] == Polled(false)
    && t[j - 3] == SafetyChecked(true)
    && t[j - 4] == Verified(true)
    && t[j - 5] == Polled(false)
    && RunnerInvoked in t[..j - 5]
    && j == |t| - 1
  }

  ghost predicate PlacementsAreEarned(t: Trace) {
    forall j :: 0 <= j < |t| && t[j].PlacedOutput? ==> PlacementIsEarned(t, j)
  }

  ghost predicate NothingPlaced(t: Trace) {
    forall i :: 0 <= i < |t| ==> !t[i].PlacedOutput?
  }

  /** The flag the worker shares with the executor mirrors the replies in the trace. */
  ghost predicate Consistent(reporter: R.Reporter, t: Trace)
    reads reporter, reporter.cancellation
  {
    (reporter.cancellation.requested <==> CancelSeen(t)) && PollsAreHonest(t)
  }

  lemma Extend(t: Trace, e: Event)
    requires PollsAreHonest(t) && (e.Polled? ==> e.answer == CancelSeen(t))
    ensures PollsAreHonest(t + [e])
    ensures CancelSeen(t + [e]) <==> CancelSeen(t) || Cancels(e)
  {
    var t' := t + [e];
    assert forall i :: 0 <= i < |t| ==> t'[i] == t[i] && t'[..i] == t[..i];
    assert t'[..|t|] == t;
    assert t'[|t|] == e;
  }

  // -------------------------------------------------------- Worker steps

  method Report(reporter: R.Reporter, u: R.Update, tick: Tick, before: Trace) returns (trace: Trace, raised: bool)
    requires Consistent(reporter, before)
    modifies reporter, reporter.cancellation
    ensures Consistent(reporter, trace)
    ensures |trace| == |before| + 1 && trace[..|before|] == before
    ensures trace[|before|].Reported? && trace[|before|].stage == u.stage
    ensures trace[|before|].cancel == (tick.reply.Answer? && tick.reply.cancel)
    ensures trace[|before|].outcome.Raised? <==> raised
    ensures reporter.View() == R.After(old(reporter.View()), u, tick.now, tick.reply)
    ensures u.stage != "encoding" ==> trace[|before|].outcome == if tick.reply.Lost? then R.Raised else R.Delivered
  {
    var outcome := reporter.Report(u, tick.now, tick.reply);
    var event := Reported(u.stage, outcome, tick.reply.Answer? && tick.reply.cancel);
    Extend(before, event);
    trace, raised := before + [event], outcome.Raised?;
  }

  /** `_cancel_requested` over the flag `process_once` wires in. */
  method PollCancellation(reporter: R.Reporter, before: Trace) returns (trace: Trace, requested: bool)
    requires Consistent(reporter, before)
    ensures Consistent(reporter, trace)
    ensures trace == before + [Polled(requested)] && (requested <==> CancelSeen(before))
  {
    requested := reporter.cancellation.requested;
    Extend(before, Polled(requested));
    trace := before + [Polled(requested)];
  }

  method Log(reporter: R.Reporter, e: Event, before: Trace) returns (trace: Trace)
    requires Consistent(reporter, before) && !e.Polled? && !e.Reported?
    ensures Consistent(reporter, trace) && trace == before + [e]
  {
    Extend(before, e);
    trace := before + [e];
  }

  /** `_cancelled_result_from_staged`: try to remove the staged output, then end cancelled. */
  method CancelStaged(reporter: R.Reporter, output: Option<Path>, before: Trace) returns (trace: Trace, result: Result)
    requires Consistent(reporter, before)
    ensures Consistent(reporter, trace)
    ensures result == Result(Cancelled, output, false, None)
    ensures trace == if output.Some? then before + [Unlinked(output.value)] else before
  {
    trace := before;
    if output.Some? {
      trace := Log(reporter, Unlinked(output.value), trace);
    }
    result := Result(Cancelled, output, false, None);
  }

  ghost predicate Extends(before: Trace, after: Trace) {
    before <= after
  }

  /** What the end of a staged run says about its trace; no result means an exception escaped. */
  ghost predicate StagedRunEndsWell(output: Option<Path>, t: Trace, result: Option<Result>) {
    && (result.None? ==> NothingPlaced(t))
    && (result.Some? ==>
          && result.value.status != Staged
          && (result.value.status == Completed <==> PlacedOutput(true) in t)
          && (result.value.replaced <==> PlacedOutput(true) in t)
          && (result.value.status == Cancelled ==> NothingPlaced(t))
          && (result.value.status == Cancelled && output.Some? ==> Unlinked(output.value) in t)
          && (PlacedOutput(false) in t ==> result.value.status == Failed))
  }

  /** How a result ends the job, if there is one. */
  function StatusOf(result: Option<Result>): Option<Status> {
    match result
    case Some(r) => Some(r.status)
    case None => None
  }

  /** An oracle raises between the verification and the placement. */
  predicate ChecksRaise(w: World) {
    || w.verification.VerifierRaises?
    || (w.verification.Passed? && w.safety.SafetyRaises?)
    || (w.verification.Passed? && w.safety.Clear? && w.replacing.reply.Lost?)
  }

  /** How `_verify_and_place` ends for a staged output; `requested` is what its first poll answers. */
  ghost predicate OutputEndsWell(w: World, requested: bool, result: Option<Result>) {
    && (result.None? <==> !requested && ChecksRaise(w))
    && (requested ==> StatusOf(result) == Some(Cancelled))
    && (!requested && w.verification.NotPassed? ==> StatusOf(result) == Some(Failed))
    && (!requested && w.verification.Passed? && w.safety.Tripped? ==> StatusOf(result) == Some(ManualReview))
    && (!requested && w.verification.Passed? && w.safety.Clear? && w.replacing.reply.Answer? ==>
          && result.Some? && result.value.status == (if w.placement.Succeeded? then Completed else Failed)
          && (w.placement.Succeeded? ==> result.value.replaced && result.value.finalOutput == w.placement.finalOutput))
  }

  datatype Verdict = Proceed | End(result: Result) | Escape

  /** `_verify_and_place` up to its second poll of the flag. */
  method VerifyStaged(w: World, reporter: R.Reporter, path: Path, before: Trace) returns (trace: Trace, verdict: Verdict)
    requires Consistent(reporter, before) && NothingPlaced(before)
    ensures Consistent(reporter, trace) && Extends(before, trace) && NothingPlaced(trace)
    ensures verdict.Proceed? <==> !CancelSeen(before) && w.verification.Passed? && w.safety.Clear?
    ensures verdict.Proceed? ==> trace == before + [Polled(false), Verified(true), SafetyChecked(true), Polled(false)]
    ensures verdict.Escape? <==>
      !CancelSeen(before) && (w.verification.VerifierRaises? || (w.verification.Passed? && w.safety.SafetyRaises?))
    ensures verdict.End? ==>
      verdict.result.status == if CancelSeen(before) then Cancelled else if w.verification.NotPassed? then Failed else ManualReview
    ensures verdict.End? ==>
      && verdict.result.status in {Cancelled, Failed, ManualReview} && !verdict.result.replaced
      && (verdict.result.status == Cancelled ==> Unlinked(path) in trace)
  {
    var requested: bool;
    trace, requested := PollCancellation(reporter, before);
    if requested {
      var cancelled: Result;
      trace, cancelled := CancelStaged(reporter, Some(path), trace);
      return trace, End(cancelled);
    }
    if w.verification.VerifierRaises? {
      return trace, Escape;
    }
    trace := Log(reporter, Verified(w.verification.Passed?), trace);
    if !w.verification.Passed? {
      return trace, End(Result(Failed, Some(path), false, None));
    }
    if w.safety.SafetyRaises? {
      return trace, Escape;
    }
    trace := Log(reporter, SafetyChecked(w.safety.Clear?), trace);
    if !w.safety.Clear? {
      return trace, End(Result(ManualReview, Some(path), false, None));
    }
    trace, requested := PollCancellation(reporter, trace);
    if requested {
      var cancelled: Result;
      trace, cancelled := CancelStaged(reporter, Some(path), trace);
      return trace, End(cancelled);
    }
    return trace, Proceed;
  }

  /** `_verify_and_place` */
  method VerifyAndPlace(w: World, reporter: R.Reporter, output: Option<Path>, before: Trace)
    returns (trace: Trace, result: Option<Result>)
    requires Consistent(reporter, before) && NothingPlaced(before) && RunnerInvoked in before
    modifies reporter, reporter.cancellation
    ensures Consistent(reporter, trace) && Extends(before, trace)
    ensures PlacementsAreEarned(trace) && StagedRunEndsWell(output, trace, result)
    ensures if output.Some? then OutputEndsWell(w, CancelSeen(before), result) else StatusOf(result) == Some(Failed)
    ensures !NothingPlaced(trace) <==>
      && output.Some? && !CancelSeen(before)
      && w.verification.Passed? && w.safety.Clear? && w.replacing.reply.Answer?
  {
    if output.None? {
      return before, Some(Result(Failed, None, false, None));
    }
    var verdict: Verdict;
    trace, verdict := VerifyStaged(w, reporter, output.value, before);
    match verdict {
      case End(r) => return trace, Some(r);
      case Escape => return trace, None;
      case Proceed =>
    }
    ghost var cleared := trace;
    var raised: bool;
    trace, raised := Report(reporter, R.Update("replacing", Some(98.0)), w.replacing, trace);
    if raised {
      return trace, None;
    }
    ghost var reported := trace;
    trace := Log(reporter, PlacedOutput(w.placement.Succeeded?), trace);
    PlacementEarned(before, cleared, trace);
    OnePlacement(reported, w.placement.Succeeded?);
    if !w.placement.Succeeded? {
      return trace, Some(Result(Failed, output, false, None));
    }
    return trace, Some(Result(Completed, output, true, w.placement.finalOutput));
  }

  lemma OnePlacement(t: Trace, ok: bool)
    requires NothingPlaced(t)
    ensures !NothingPlaced(t + [PlacedOutput(ok)])
    ensures forall b :: PlacedOutput(b) in t + [PlacedOutput(ok)] <==> b == ok
  {
    assert (t + [PlacedOutput(ok)])[|t|] == PlacedOutput(ok);
  }

  lemma PlacementEarned(before: Trace, cleared: Trace, t: Trace)
    requires RunnerInvoked in before && NothingPlaced(before)
    requires cleared == before + [Polled(false), Verified(true), SafetyChecked(true), Polled(false)]
    requires |t| == |cleared| + 2 && cleared <= t
    requires t[|cleared|].Reported? && t[|cleared|].stage == "replacing" && t[|cleared|].outcome.Delivered?
    ensures PlacementsAreEarned(t)
  {
    var k :| 0 <= k < |before| && before[k] == RunnerInvoked;
    assert t[..|before|][k] == RunnerInvoked;
  }

  /** How a dry run ends. */
  function AnalysisEnd(w: World): Option<Status> {
    if w.excluded then Some(Skipped)
    else if w.probing.reply.Lost? then None
    else if w.analysis.Analysed? && w.planning.reply.Answer? && w.summarising.reply.Answer? then Some(Completed)
    else Some(Failed)
  }

  /** `_execute_analysis`: a dry run reports and plans, and never places anything. */
  method ExecuteAnalysis(w: World, reporter: R.Reporter, before: Trace) returns (trace: Trace, result: Option<Result>)
    requires Consistent(reporter, before) && NothingPlaced(before)
    modifies reporter, reporter.cancellation
    ensures Consistent(reporter, trace) && Extends(before, trace)
    ensures NothingPlaced(trace) && (RunnerInvoked in trace <==> RunnerInvoked in before)
    ensures result.Some? ==> result.value.status in {Skipped, Failed, Completed} && !result.value.replaced
    ensures StatusOf(result) == AnalysisEnd(w)
  {
    trace := before;
    if w.excluded {
      return trace, Some(Result(Skipped, None, false, None));
    }
    var raised: bool;
    trace, raised := Report(reporter, R.Update("probing", Some(10.0)), w.probing, trace);
    if raised {
      return trace, None;
    }
    if w.analysis.ProbeFails? {
      return trace, Some(Result(Failed, None, false, None));
    }
    trace, raised := Report(reporter, R.Update("planning", Some(55.0)), w.planning, trace);
    if raised || w.analysis.PlanFails? {
      return trace, Some(Result(Failed, None, false, None));
    }
    trace, raised := Report(reporter, R.Update("summarising", Some(90.0)), w.summarising, trace);
    if raised {
      return trace, Some(Result(Failed, None, false, None));
    }
    return trace, Some(Result(Completed, None, false, None));
  }

  /** The runner calls back any number of times, with any updates, before it ends. */
  method RunPlan(w: World, reporter: R.Reporter, before: Trace) returns (trace: Trace)
    requires Consistent(reporter, before) && NothingPlaced(before)
    modifies reporter, reporter.cancellation
    ensures Consistent(reporter, trace) && Extends(before + [RunnerInvoked], trace) && NothingPlaced(trace)
    ensures reporter.View() == R.AfterCalls(old(reporter.View()), w.runnerCalls)
  {
    trace := Log(reporter, RunnerInvoked, before);
    assert w.runnerCalls[0..] == w.runnerCalls;
    for n := 0 to |w.runnerCalls|
      invariant Consistent(reporter, trace) && Extends(before + [RunnerInvoked], trace) && NothingPlaced(trace)
      invariant R.AfterCalls(reporter.View(), w.runnerCalls[n..]) == R.AfterCalls(old(reporter.View()), w.runnerCalls)
    {
      assert w.runnerCalls[n..][1..] == w.runnerCalls[n + 1..];
      var call := w.runnerCalls[n];
      var raised: bool;
      trace, raised := Report(reporter, call.update, Tick(call.now, call.reply), trace);
    }
  }

  /** An executor whose reporter is in state `s` gets as far as the runner. */
  predicate ReachesRunner(w: World, s: R.State) {
    w.payloadValid && !s.requested && !w.dryRun && !w.excluded
  }

  /** After the runner: a staged output, no cancellation learned by any report, and every check passed. */
  predicate PassesChecks(w: World, requested: bool) {
    && w.runner.Returns? && w.runner.status == Staged && w.runner.output.Some?
    && !requested && w.verifying.reply.Answer? && !w.verifying.reply.cancel
    && w.verification.Passed? && w.safety.Clear? && w.replacing.reply.Answer?
  }

  predicate Places(w: World, s: R.State) {
    ReachesRunner(w, s) && PassesChecks(w, R.AfterCalls(s, w.runnerCalls).requested)
  }

  /** How a run that reached the runner ends. */
  ghost predicate RunEndsWell(w: World, t: Trace, result: Option<Result>) {
    match w.runner
    case CancelledError(output) =>
      && NothingPlaced(t) && result == Some(Result(Cancelled, output, false, None))
      && (output.Some? ==> Unlinked(output.value) in t)
    case OtherError =>
      NothingPlaced(t) && result == Some(Result(Failed, None, false, None))
    case Returns(status, output) =>
      if status == Staged then StagedRunEndsWell(output, t, result)
      else NothingPlaced(t) && result == Some(Result(status, output, false, None))
  }

  /** How a run ends once the runner has, when `requested` says whether a cancellation was learned by then. */
  ghost predicate RunSettlesWell(w: World, requested: bool, result: Option<Result>) {
    match w.runner
    case CancelledError(_) => StatusOf(result) == Some(Cancelled)
    case OtherError => StatusOf(result) == Some(Failed)
    case Returns(status, output) =>
      if status != Staged then StatusOf(result) == Some(status)
      else if requested then StatusOf(result) == Some(Cancelled)
      else if w.verifying.reply.Lost? then result.None?
      else if output.None? then StatusOf(result) == Some(Failed)
      else OutputEndsWell(w, w.verifying.reply.cancel, result)
  }

  /** `execute` once the runner has returned or raised. */
  method SettleRun(w: World, reporter: R.Reporter, before: Trace) returns (trace: Trace, result: Option<Result>)
    requires Consistent(reporter, before) && NothingPlaced(before) && RunnerInvoked in before
    modifies reporter, reporter.cancellation
    ensures Consistent(reporter, trace) && Extends(before, trace) && PlacementsAreEarned(trace)
    ensures RunEndsWell(w, trace, result) && RunSettlesWell(w, CancelSeen(before), result)
    ensures !NothingPlaced(trace) <==> PassesChecks(w, CancelSeen(before))
  {
    trace := before;
    match w.runner {
      case CancelledError(output) =>
        var cancelled: Result;
        trace, cancelled := CancelStaged(reporter, output, trace);
        return trace, Some(cancelled);
      case OtherError =>
        return trace, Some(Result(Failed, None, false, None));
      case Returns(status, output) =>
        if status != Staged {
          return trace, Some(Result(status, output, false, None));
        }
        var requested: bool;
        trace, requested := PollCancellation(reporter, trace);
        if requested {
          var cancelled: Result;
          trace, cancelled := CancelStaged(reporter, output, trace);
          return trace, Some(cancelled);
        }
        var raised: bool;
        ghost var i :| 0 <= i < |before| && before[i] == RunnerInvoked;
        trace, raised := Report(reporter, R.Update("verifying", Some(95.0)), w.verifying, trace);
        if raised {
          return trace, None;
        }
        assert trace[i] == RunnerInvoked;
        trace, result := VerifyAndPlace(w, reporter, output, trace);
    }
  }

  /** How `execute` ends from a reporter in state `s`. */
  ghost predicate ExecutionEndsWell(w: World, s: R.State, result: Option<Result>) {
    && (!w.payloadValid ==> result.None?)
    && (w.payloadValid && s.requested ==> StatusOf(result) == Some(Cancelled))
    && (w.payloadValid && !s.requested && w.dryRun ==> StatusOf(result) == AnalysisEnd(w))
    && (w.payloadValid && !s.requested && !w.dryRun && w.excluded ==> StatusOf(result) == Some(Skipped))
    && (ReachesRunner(w, s) ==> RunSettlesWell(w, R.AfterCalls(s, w.runnerCalls).requested, result))
  }

  /** `execute` */
  method Execute(w: World, reporter: R.Reporter, before: Trace) returns (trace: Trace, result: Option<Result>)
    requires Consistent(reporter, before) && NothingPlaced(before) && RunnerInvoked !in before
    modifies reporter, reporter.cancellation
    ensures Consistent(reporter, trace) && Extends(before, trace) && PlacementsAreEarned(trace)
    ensures CancelSeen(before) ==> RunnerInvoked !in trace && (result.Some? ==> result.value.status == Cancelled)
    ensures RunnerInvoked !in trace ==> NothingPlaced(trace) && (result.Some? ==> !result.value.replaced)
    ensures RunnerInvoked in trace ==> RunEndsWell(w, trace, result)
    ensures RunnerInvoked in trace <==> ReachesRunner(w, old(reporter.View()))
    ensures !NothingPlaced(trace) <==> Places(w, old(reporter.View()))
    ensures ExecutionEndsWell(w, old(reporter.View()), result)
  {
    trace := before;
    if !w.payloadValid {
      return trace, None;
    }
    var requested: bool;
    trace, requested := PollCancellation(reporter, trace);
    if requested {
      return trace, Some(Result(Cancelled, None, false, None));
    }
    if w.dryRun {
      trace, result := ExecuteAnalysis(w, reporter, trace);
      return;
    }
    if w.excluded {
      return trace, Some(Result(Skipped, None, false, None));
    }
    trace := RunPlan(w, reporter, trace);
    assert trace[|before| + 1] == RunnerInvoked;
    ghost var run := trace;
    trace, result := SettleRun(w, reporter, trace);
    assert trace[|before| + 1] == run[|before| + 1];
  }

  /** A new reporter once it has reported "starting". */
  function Claimed(w: World): R.State {
    R.After(R.FRESH, R.Update("starting", Some(0.0)), w.starting.now, w.starting.reply)
  }

  /**
   From the claim to the result. Without a result an exception reached `process_once`, which
   reports the failure. Whatever the oracles do, the trace is honest, placements are earned,
   a cancellation the server asked for in reply to the first report keeps the runner from
   starting, and a staged run ends as its placement did.
   */
  method ProcessClaimedJob(w: World) returns (trace: Trace, result: Option<Result>)
    ensures PollsAreHonest(trace) && PlacementsAreEarned(trace)
    ensures |trace| > 0 && trace[0] ==
      Reported("starting", if w.starting.reply.Lost? then R.Raised else R.Delivered, w.starting.reply.Answer? && w.starting.reply.cancel)
    ensures w.starting.reply.Lost? || w.starting.reply.cancel ==> RunnerInvoked !in trace
    ensures w.starting.reply.Answer? && w.starting.reply.cancel && result.Some? ==> result.value.status == Cancelled
    ensures RunnerInvoked in trace ==> RunEndsWell(w, trace, result)
    ensures result.Some? && result.value.replaced ==> PlacedOutput(true) in trace
    ensures RunnerInvoked in trace <==> w.starting.reply.Answer? && ReachesRunner(w, Claimed(w))
    ensures !NothingPlaced(trace) <==> w.starting.reply.Answer? && Places(w, Claimed(w))
    ensures if w.starting.reply.Lost? then result.None? else ExecutionEndsWell(w, Claimed(w), result)
  {
    var cancellation := new R.CancellationState();
    var reporter := new R.Reporter(cancellation);
    var raised: bool;
    trace, raised := Report(reporter, R.Update("starting", Some(0.0)), w.starting, []);
    if raised {
      return trace, None;
    }
    trace, result := Execute(w, reporter, trace);
  }

  // ------------------------------------- What every such trace guarantees

  /**
   Cancellation is honoured: if any reply asks for it, nothing is placed, except when that
   reply came to the very last report, "replacing", sent after the last poll.
   */
  lemma CancellationPreventsPlacement(t: Trace, i: nat, j: nat)
    requires PollsAreHonest(t) && PlacementsAreEarned(t)
    requires i < |t| && j < |t| && Cancels(t[i]) && t[j].PlacedOutput?
    ensures i == j - 1 && t[i].stage == "replacing"
  {
    assert PlacementIsEarned(t, j);
    if i < j - 2 {
      SeenOnceCancelled(t, i, j - 2);
    }
  }

  lemma SeenOnceCancelled(t: Trace, i: nat, k: nat)
    requires i < k <= |t| && Cancels(t[i])
    ensures CancelSeen(t[..k])
  {
    assert Cancels(t[..k][i]);
  }

  /** The flag is never reset: a poll that answered true stays true. */
  lemma PollsNeverGoBack(t: Trace, i: nat, j: nat)
    requires PollsAreHonest(t) && i < j < |t| && t[i] == Polled(true) && t[j].Polled?
    ensures t[j] == Polled(true)
  {
    var k :| 0 <= k < i && Cancels(t[..i][k]);
    assert t[..j][k] == t[..i][k];
  }

  // ------------------------------------------------------ The server's end

  /** `submit_job_result`: what is recorded when cancellation was requested meanwhile. */
  function RecordedStatus(cancelRequested: bool, r: Result): Status {
    if cancelRequested && r.status != Cancelled && r.status != Failed
       && !(r.status == Completed && r.replaced && r.finalOutput.Some?)
    then Cancelled
    else r.status
  }

  /** The staged output of a real run gets to the verifier. */
  predicate ReachesVerifier(w: World) {
    && w.starting.reply.Answer? && ReachesRunner(w, Claimed(w))
    && w.runner.Returns? && w.runner.status == Staged && w.runner.output.Some?
    && !R.AfterCalls(Claimed(w), w.runnerCalls).requested && w.verifying.reply.Answer? && !w.verifying.reply.cancel
  }

  /** The payload is valid, and the first report is answered without a request to cancel. */
  predicate StartsClean(w: World) { w.starting.reply.Answer? && !w.starting.reply.cancel && w.payloadValid }

  /** An exception ends the run: a report before any result is lost, the payload is invalid, or an oracle raises. */
  predicate Escapes(w: World) {
    || w.starting.reply.Lost?
    || !w.payloadValid
    || (StartsClean(w) && w.dryRun && !w.excluded && w.probing.reply.Lost?)
    || (StartsClean(w) && !w.dryRun && !w.excluded && w.runner.Returns? && w.runner.status == Staged
        && !R.AfterCalls(Claimed(w), w.runnerCalls).requested && w.verifying.reply.Lost?)
    || (ReachesVerifier(w) && ChecksRaise(w))
  }

  /**
   End to end: what the server records, for every behaviour of the world. A placed output with a final
   path is recorded as completed even when cancellation was requested; without a request the record is
   what the run came to; with one, anything else is recorded as cancelled or failed.
   */
  method FinishClaimedJob(w: World, cancelRequested: bool) returns (trace: Trace, recorded: Option<Status>)
    ensures recorded.None? <==> Escapes(w)
    ensures PlacedOutput(true) in trace && w.placement.Succeeded? && w.placement.finalOutput.Some? ==>
      recorded == Some(Completed)
    ensures ReachesVerifier(w) && w.verification.Passed? && w.safety.Clear? && w.replacing.reply.Answer? ==>
      match w.placement
      case Succeeded(finalOutput) => recorded == Some(if cancelRequested && finalOutput.None? then Cancelled else Completed)
      case _ => recorded == Some(Failed)
    ensures ReachesVerifier(w) && w.verification.NotPassed? ==> recorded == Some(Failed)
    ensures ReachesVerifier(w) && w.verification.Passed? && w.safety.Tripped? ==>
      recorded == Some(if cancelRequested then Cancelled else ManualReview)
    ensures RunnerInvoked in trace && w.runner.Returns? && w.runner.status == Staged && !cancelRequested ==>
      (recorded == Some(Completed) <==> PlacedOutput(true) in trace)
    ensures RunnerInvoked in trace && w.runner.Returns? && w.runner.status != Staged && !cancelRequested ==>
      recorded == Some(w.runner.status)
    ensures RunnerInvoked in trace && !w.runner.Returns? ==>
      recorded == Some(if w.runner.CancelledError? then Cancelled else Failed)
    ensures StartsClean(w) && w.excluded ==> recorded == Some(if cancelRequested then Cancelled else Skipped)
    ensures StartsClean(w) && w.dryRun && !w.excluded && w.probing.reply.Answer? ==>
      if w.analysis.Analysed? && w.planning.reply.Answer? && w.summarising.reply.Answer?
      then recorded == Some(if cancelRequested then Cancelled else Completed)
      else recorded == Some(Failed)
    ensures w.starting.reply.Answer? && w.starting.reply.cancel && w.payloadValid ==> recorded == Some(Cancelled)
    ensures cancelRequested && recorded.Some? ==>
      recorded.value in {Cancelled, Failed} || (recorded.value == Completed && PlacedOutput(true) in trace)
    ensures (exists i :: 0 <= i < |trace| && Cancels(trace[i]) && trace[i].stage != "replacing") && cancelRequested && recorded.Some? ==>
      recorded.value in {Cancelled, Failed}
  {
    var result: Option<Result>;
    trace, result := ProcessClaimedJob(w);
    if result.None? {
      return trace, None;
    }
    if i :| 0 <= i < |trace| && Cancels(trace[i]) && trace[i].stage != "replacing" {
      forall j | 0 <= j < |trace| && trace[j].PlacedOutput? ensures false {
        CancellationPreventsPlacement(trace, i, j);
      }
    }
    return trace, Some(RecordedStatus(cancelRequested, result.value));
  }
}
