/** Job statuses and the sets the services test them against (packages/db/encodr_db/models/enums.py). */
module JobStatuses {

  datatype JobStatus =
    | Pending | Scheduled | Running
    | Completed | Failed | Interrupted | Cancelled | Skipped | ManualReview

  predicate Active(s: JobStatus) { s.Pending? || s.Scheduled? || s.Running? }

  predicate Retryable(s: JobStatus) {
    s.Failed? || s.ManualReview? || s.Skipped? || s.Interrupted? || s.Cancelled?
  }
}
