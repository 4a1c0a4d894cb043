/**
 The review gate of `_validate_review_gate` (apps/api/app/services/jobs.py:758-817): who may create a
 job for a protected file, a plan that asks for review, or a file whose latest job does.
 */
module ReviewGate {
  import opened Wrappers
  import opened JobStatuses

  datatype Tracked = Tracked(excluded: bool, operatorProtected: bool, isProtected: bool, operatorProtectedAt: Option<int>)

  datatype PlanSnapshot = PlanSnapshot(id: nat, manualReview: bool, asProtected: bool, createdAt: int)

  datatype JobView = JobView(id: nat, status: JobStatus, category: string, updatedAt: int)

  datatype DecisionType = Approved | Rejected | Held | MarkProtected | ClearProtected | JobCreated

  datatype Decision = Decision(kind: DecisionType, plan: Option<nat>, createdAt: int)

  /** Everything the gate reads. */
  datatype View = View(
    tracked: Tracked, plan: PlanSnapshot, latest: Option<JobView>, decision: Option<Decision>,
    allowApproved: bool, operationalRetry: Option<nat>)

  predicate NeedsProtection(v: View) {
    v.tracked.operatorProtected || v.tracked.isProtected || v.plan.manualReview || v.plan.asProtected
  }

  predicate LatestNeedsReview(v: View) {
    v.latest.Some? && v.latest.value.status == ManualReview
  }

  function IssueTimes(v: View): (times: seq<int>)
    ensures |times| >= 1
  {
    [v.plan.createdAt]
    + (if v.tracked.operatorProtectedAt.Some? then [v.tracked.operatorProtectedAt.value] else [])
    + (if LatestNeedsReview(v) then [v.latest.value.updatedAt] else [])
  }

  function Maximum(s: seq<int>): (m: int)
    requires |s| >= 1
    ensures m in s && forall x :: x in s ==> x <= m
  {
    if |s| == 1 then s[0]
    else
      var m := Maximum(s[1..]);
      assert s == [s[0]] + s[1..];
      if s[0] > m then s[0] else m
  }

  /** `_validate_review_gate` returns instead of raising a conflict. */
  predicate Passes(v: View) {
    if v.operationalRetry.Some? && v.latest.Some? && v.latest.value.id == v.operationalRetry.value
       && LatestNeedsReview(v) && !NeedsProtection(v) then true
    else if !(NeedsProtection(v) || LatestNeedsReview(v)) then true
    else
      var current :=
        && v.decision.Some?
        && v.decision.value.kind == Approved
        && v.decision.value.createdAt >= Maximum(IssueTimes(v))
        && v.decision.value.plan == Some(v.plan.id);
      v.allowApproved && current
  }

  /** An approval of this very plan, given after every issue it has to settle. */
  predicate Settles(d: Decision, v: View) {
    && d.kind == Approved && d.plan == Some(v.plan.id)
    && v.plan.createdAt <= d.createdAt
    && (v.tracked.operatorProtectedAt.Some? ==> v.tracked.operatorProtectedAt.value <= d.createdAt)
    && (v.latest.Some? && v.latest.value.status == ManualReview ==> v.latest.value.updatedAt <= d.createdAt)
  }

  /**
   The three ways past the gate: no issue, the retry of the job in review for a file without another, or
   an approval the caller may use that settles every issue.
   */
  predicate Cleared(v: View) {
    var t, p := v.tracked, v.plan;
    var protection := t.operatorProtected || t.isProtected || p.manualReview || p.asProtected;
    var review := v.latest.Some? && v.latest.value.status == ManualReview;
    || (!protection && !review)
    || (!protection && review && v.operationalRetry == Some(v.latest.value.id))
    || (v.allowApproved && v.decision.Some? && Settles(v.decision.value, v))
  }

  lemma GateMeaning(v: View)
    ensures Passes(v) <==> Cleared(v)
  {
    if v.decision.Some? {
      LatestIssue(v, v.decision.value.createdAt);
    }
  }

  lemma LatestIssue(v: View, t: int)
    ensures Maximum(IssueTimes(v)) <= t <==>
      && v.plan.createdAt <= t
      && (v.tracked.operatorProtectedAt.Some? ==> v.tracked.operatorProtectedAt.value <= t)
      && (LatestNeedsReview(v) ==> v.latest.value.updatedAt <= t)
  {
    var times := IssueTimes(v);
    assert times[0] == v.plan.createdAt;
    assert v.tracked.operatorProtectedAt.Some? ==> times[1] == v.tracked.operatorProtectedAt.value;
    assert LatestNeedsReview(v) ==> times[|times| - 1] == v.latest.value.updatedAt;
    assert forall x :: x in times ==> x <= Maximum(times);
  }

  /** Any issue raised after the approval closes the gate again, for every caller but an operational retry. */
  lemma ApprovalExpires(v: View, t: int)
    requires NeedsProtection(v) && t in IssueTimes(v)
    requires v.decision.Some? ==> v.decision.value.createdAt < t
    ensures !Passes(v)
  {
    GateMeaning(v);
  }
}
