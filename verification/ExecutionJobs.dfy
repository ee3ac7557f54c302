/** The job record and the updates the application applies to it
    (backend/app/domain/execution_job.py and the closures handed to `mutate`). */
module ExecutionJobs {
  import opened Wrappers

  type JobId = string
  type Owner = string

  datatype State =
    | Uploaded | AwaitingVariables | Queued | Validating | RunningBaseline
    | RunningComparison | Analyzing | Ready | Failed | Cancelled | Expired

  predicate IsTerminal(s: State) {
    s == Ready || s == Failed || s == Cancelled || s == Expired
  }

  datatype Job = Job(
    id: JobId, ownerKey: Owner, createdAt: real, expiresAt: real, idempotencyKey: Option<string>,
    state: State, analysisId: Option<string>, errorCode: Option<string>, errorDetail: Option<string>,
    stageHistory: seq<State>, warnings: seq<string>, cancelRequested: bool, workerActive: bool,
    reportsReady: bool, finalizingSince: Option<real>)
  {
    predicate IsActive() {
      !IsTerminal(state)
    }

    /** A job holds one of its owner's slots while it is active or still has a worker. */
    predicate Counts() {
      IsActive() || workerActive
    }

    predicate Evictable(now: real) {
      expiresAt < now && !workerActive
    }

    /** An absent and an empty idempotency key are both "no key". */
    predicate HasKey() {
      idempotencyKey.Some? && idempotencyKey.value != ""
    }
  }

  /** The fields no update may touch: table keys and expiry are computed from them. */
  predicate SameIdentity(a: Job, b: Job) {
    && a.id == b.id
    && a.ownerKey == b.ownerKey
    && a.createdAt == b.createdAt
    && a.expiresAt == b.expiresAt
    && a.idempotencyKey == b.idempotencyKey
  }

  /** What both stores need of a function handed to `mutate`: it keeps the identity fields and
      never makes a finished job count against the cap again. */
  ghost predicate Lawful(fn: Job -> Job) {
    forall j: Job :: SameIdentity(j, fn(j)) && (fn(j).Counts() ==> j.Counts())
  }

  // --- the updates themselves ---

  function Claim(j: Job): Job {
    if j.state == Queued && !j.workerActive then j.(workerActive := true) else j
  }

  function Release(j: Job): Job {
    j.(workerActive := false)
  }

  function Cancel(j: Job): Job {
    if j.IsActive() then
      j.(cancelRequested := true, state := Cancelled, stageHistory := j.stageHistory + [Cancelled])
    else j
  }

  function MarkReports(j: Job): Job {
    j.(reportsReady := true)
  }

  const STALE_CLAIM_SECONDS := 300.0

  predicate NeedsFinalizing(j: Job) {
    j.state == Analyzing && j.reportsReady && j.analysisId.None?
  }

  predicate MayFinalize(j: Job, now: real) {
    && NeedsFinalizing(j)
    && (j.finalizingSince.None? || now - j.finalizingSince.value > STALE_CLAIM_SECONDS)
  }

  function ClaimFinalizing(j: Job, now: real): Job {
    if MayFinalize(j, now) then j.(finalizingSince := Some(now)) else j
  }

  /** What one `_write_state` call wants to record. */
  datatype Report = Report(
    state: State, errorCode: Option<string>, errorDetail: Option<string>,
    extraWarnings: seq<string>, analysisId: Option<string>)

  function Stage(s: State): Report {
    Report(s, None, None, [], None)
  }

  function Advance(j: Job, r: Report): Job {
    if !j.IsActive() then j
    else if j.cancelRequested then
      j.(state := Cancelled, stageHistory := j.stageHistory + [Cancelled])
    else
      j.(state := r.state,
         stageHistory := j.stageHistory + [r.state],
         errorCode := if r.errorCode.Some? then r.errorCode else j.errorCode,
         errorDetail := if r.errorDetail.Some? then r.errorDetail else j.errorDetail,
         warnings := j.warnings + r.extraWarnings,
         analysisId := if r.analysisId.Some? then r.analysisId else j.analysisId)
  }

  /** The boolean `_write_state` returns, decided on the record the update saw. */
  predicate Writes(j: Job) {
    j.IsActive() && !j.cancelRequested
  }

  /** Every function the application hands to `mutate` is lawful. */
  lemma ApplicationUpdatesAreLawful(r: Report, now: real)
    ensures Lawful(Claim)
    ensures Lawful(Release)
    ensures Lawful(Cancel)
    ensures Lawful(MarkReports)
    ensures Lawful((j: Job) => ClaimFinalizing(j, now))
    ensures Lawful((j: Job) => Advance(j, r))
  {
    var finalize := (j: Job) => ClaimFinalizing(j, now);
    var advance := (j: Job) => Advance(j, r);
    assert forall j: Job :: finalize(j) == ClaimFinalizing(j, now);
    assert forall j: Job :: advance(j) == Advance(j, r);
  }
}
