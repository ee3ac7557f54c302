/** One job driven by any number of concurrent processes over a store whose `mutate` is atomic:
    `run_job` calls, worker redeliveries, finalizers, cancel/delete requests and `fail_job`
    (backend/app/services/execution_job_service.py, job_finalizer.py, worker.py and
    api/v1/execution_jobs.py). What the runner, the resolver, the object store and the analysis do
    is an arbitrary choice of each step. */
module JobLifecycle {
  import opened Wrappers
  import opened ExecutionJobs

  /** Where a claimed `run_job` call stands. */
  datatype Point =
    | WriteValidating | CheckTargets
    | WriteBaseline | RunBaseline
    | WriteComparison | RunComparison
    | WriteAnalyzing
    | PutReports | SetReportsReady
    | BuildAnalysis | StoreAnalysis | WriteReady(analysisId: string)
    | WriteFailed(report: Report)
    | WriteUnexpected
    | ReleaseClaim

  datatype Process =
    | Idle
    | Claiming(handOff: bool)
    | Driving(at: Point, handOff: bool)
    | ClaimingReports(clock: real) | BuildingReports | WritingResult(report: Report)
    | Cancelling | Deleting
    | Receiving(handOff: bool) | FailingLost | ReleasingLost
    | Failing(report: Report)
    | Returned(claimed: bool)

  /** What the outside world answers to a step. */
  datatype Answer = Fine(text: string) | Rejected(report: Report) | Raised

  function Failure(code: string): Report {
    Report(Failed, Some(code), None, [], None)
  }

  function ReadyReport(analysisId: string): Report {
    Report(Ready, None, None, [], Some(analysisId))
  }

  datatype Outcome = Outcome(job: Option<Job>, process: Process)

  function Mutated(job: Option<Job>, fn: Job -> Job): Option<Job> {
    if job.None? then None else Some(fn(job.value))
  }

  /** `_write_state`: the record afterwards, and whether the state was written. */
  function Written(job: Option<Job>, r: Report): (Option<Job>, bool) {
    if job.None? then (None, false) else (Some(Advance(job.value, r)), Writes(job.value))
  }

  function AfterWrite(job: Option<Job>, r: Report, next: Point, handOff: bool): Outcome {
    var (job', ok) := Written(job, r);
    Outcome(job', Driving(if ok then next else ReleaseClaim, handOff))
  }

  function AfterRun(job: Option<Job>, a: Answer, next: Point, handOff: bool): Outcome {
    Outcome(job, Driving(
      match a case Fine(_) => next case Rejected(r) => WriteFailed(r) case Raised => WriteUnexpected, handOff))
  }

  /** One step of a claimed `run_job` call. */
  function Drive(at: Point, handOff: bool, job: Option<Job>, a: Answer): Outcome {
    match at
    case WriteValidating => AfterWrite(job, Stage(Validating), CheckTargets, handOff)
    case CheckTargets => AfterRun(job, a, WriteBaseline, handOff)
    case WriteBaseline => AfterWrite(job, Stage(RunningBaseline), RunBaseline, handOff)
    case RunBaseline => AfterRun(job, a, WriteComparison, handOff)
    case WriteComparison => AfterWrite(job, Stage(RunningComparison), RunComparison, handOff)
    case RunComparison => AfterRun(job, a, WriteAnalyzing, handOff)
    case WriteAnalyzing =>
      AfterWrite(job, Stage(Analyzing), if handOff then PutReports else BuildAnalysis, handOff)
    case PutReports => AfterRun(job, a, SetReportsReady, handOff)
    case SetReportsReady => Outcome(Mutated(job, MarkReports), Driving(ReleaseClaim, handOff))
    case BuildAnalysis => AfterRun(job, a, StoreAnalysis, handOff)
    case StoreAnalysis =>
      if job.None? then Outcome(job, Driving(ReleaseClaim, handOff))
      else AfterRun(job, a, WriteReady(if a.Fine? then a.text else ""), handOff)
    case WriteReady(id) => AfterWrite(job, ReadyReport(id), ReleaseClaim, handOff)
    case WriteFailed(r) => AfterWrite(job, r, ReleaseClaim, handOff)
    case WriteUnexpected => AfterWrite(job, Failure("unexpected_error"), ReleaseClaim, handOff)
    case ReleaseClaim => Outcome(Mutated(job, Release), Returned(true))
  }

  /** One step of any process. */
  function Next(p: Process, job: Option<Job>, a: Answer): Outcome {
    match p
    case Idle => Outcome(job, p)
    case Returned(_) => Outcome(job, p)
    case Claiming(handOff) =>
      if job.Some? && job.value.state == Queued && !job.value.workerActive
      then Outcome(Mutated(job, Claim), Driving(WriteValidating, handOff))
      else Outcome(job, Returned(false))
    case Driving(at, handOff) => Drive(at, handOff, job, a)

    case ClaimingReports(clock) =>
      if job.Some? && MayFinalize(job.value, clock)
      then Outcome(Some(ClaimFinalizing(job.value, clock)), BuildingReports)
      else Outcome(job, Returned(false))
    case BuildingReports =>
      Outcome(job, WritingResult(
        match a
        case Fine(id) => ReadyReport(id)
        case Rejected(r) => r
        case Raised => Failure("analysis_error")))
    case WritingResult(r) => Outcome(Written(job, r).0, Returned(false))

    case Cancelling =>
      var job' := Mutated(job, Cancel);
      if job.Some? && !job.value.IsActive() && !job'.value.workerActive then Outcome(job', Deleting)
      else Outcome(job', Returned(false))
    case Deleting => Outcome(None, Returned(false))

    case Receiving(handOff) =>
      if job.None? then Outcome(job, Returned(false))
      else if job.value.state != Queued then
        Outcome(job, if job.value.IsActive() && !job.value.reportsReady then FailingLost else Returned(false))
      else if a.Fine? then Outcome(job, Claiming(handOff))
      else Outcome(job, Failing(Failure("runner_unavailable")))
    case FailingLost => Outcome(Written(job, Failure("worker_lost")).0, ReleasingLost)
    case ReleasingLost => Outcome(Mutated(job, Release), Returned(false))
    case Failing(r) => Outcome(Written(job, r).0, Returned(false))
  }

  // --- the world and its runs ---

  /** History: which process claimed the job and how often, the clocks of the finalizing claims,
      and the stages whose run produced a usable report. */
  datatype World = World(
    job: Option<Job>, processes: map<nat, Process>, now: real,
    claimant: Option<nat>, claims: nat, finalClaims: seq<real>, usable: seq<State>)

  datatype Move = Tick(to: real) | Begin(who: nat, process: Process) | Proceed(who: nat, answer: Answer) | Expire

  /** Calls start at their first step; every failure the application reports is FAILED. */
  predicate CanBegin(w: World, p: Process) {
    || p.Claiming? || p.Cancelling? || p.Receiving?
    || (p.ClaimingReports? && p.clock == w.now)
    || (p.Failing? && p.report.state == Failed)
  }

  predicate Allowed(w: World, m: Move) {
    match m
    case Tick(to) => w.now <= to
    case Begin(who, p) => who !in w.processes && CanBegin(w, p)
    case Proceed(who, a) =>
      who in w.processes && (a.Rejected? ==> a.report.state == Failed && a.report.analysisId.None?)
    case Expire => w.job.Some? && w.job.value.Evictable(w.now)
  }

  function After(w: World, m: Move): World {
    match m
    case Tick(to) => w.(now := to)
    case Begin(who, p) => w.(processes := w.processes[who := p])
    case Expire => w.(job := None)
    case Proceed(who, a) =>
      if who !in w.processes then w else
      AfterOutcome(w, who, a, Next(w.processes[who], w.job, a))
  }

  function AfterOutcome(w: World, who: nat, a: Answer, o: Outcome): World
    requires who in w.processes
  {
    var p := w.processes[who];
    var claims := p.Claiming? && o.process.Driving?;
    World(o.job, w.processes[who := o.process], w.now,
          if claims then Some(who) else w.claimant,
          if claims then w.claims + 1 else w.claims,
          ClaimsAfter(p, o, w.finalClaims), UsableAfter(p, a, w.usable))
  }

  function ClaimsAfter(p: Process, o: Outcome, finalClaims: seq<real>): seq<real> {
    if p.ClaimingReports? && o.process.BuildingReports? then finalClaims + [p.clock] else finalClaims
  }

  function UsableAfter(p: Process, a: Answer, usable: seq<State>): seq<State> {
    if p.Driving? && p.at == RunBaseline && a.Fine? then usable + [RunningBaseline]
    else if p.Driving? && p.at == RunComparison && a.Fine? then usable + [RunningComparison]
    else usable
  }

  /** A job is stored as `create_job` makes it. */
  predicate JustCreated(j: Job) {
    && j.state == Queued && j.stageHistory == [] && !j.workerActive && !j.cancelRequested
    && !j.reportsReady && j.finalizingSince.None? && j.analysisId.None?
  }

  predicate Initial(w: World) {
    && w.job.Some? && JustCreated(w.job.value)
    && w.processes == map[] && w.claimant.None? && w.claims == 0 && w.finalClaims == [] && w.usable == []
  }

  predicate Run(ws: seq<World>, ms: seq<Move>) {
    && |ws| == |ms| + 1
    && Initial(ws[0])
    && forall i | 0 <= i < |ms| :: Allowed(ws[i], ms[i]) && ws[i + 1] == After(ws[i], ms[i])
  }

  // --- the invariant ---

  const STAGES := [Validating, RunningBaseline, RunningComparison, Analyzing, Ready]

  /** How many stages a job in an active state (or READY) has been through. */
  function Depth(s: State): nat {
    match s
    case Validating => 1
    case RunningBaseline => 2
    case RunningComparison => 3
    case Analyzing => 4
    case Ready => 5
    case _ => 0
  }

  /** The stage history that goes with a state. */
  predicate Staged(s: State, history: seq<State>) {
    match s
    case Failed => 1 <= |history| <= 5 && history == STAGES[..|history| - 1] + [Failed]
    case Cancelled => 1 <= |history| <= 5 && history == STAGES[..|history| - 1] + [Cancelled]
    case Uploaded => false
    case AwaitingVariables => false
    case Expired => false
    case _ => history == STAGES[..Depth(s)]
  }

  predicate WellStaged(j: Job) {
    Staged(j.state, j.stageHistory)
  }

  /** The state an active job is in while its claimant stands at a point. */
  function Expected(at: Point): State {
    match at
    case WriteValidating => Queued
    case CheckTargets => Validating
    case WriteBaseline => Validating
    case RunBaseline => RunningBaseline
    case WriteComparison => RunningBaseline
    case RunComparison => RunningComparison
    case WriteAnalyzing => RunningComparison
    case _ => Analyzing
  }

  predicate IsFailing(at: Point) {
    at.WriteFailed? || at.WriteUnexpected?
  }

  predicate HandedOver(j: Job) {
    j.IsActive() ==> j.state == Analyzing && j.reportsReady
  }

  /** What holds of the job while its claimant stands at `at`. */
  predicate ClaimantOk(at: Point, j: Job) {
    if at == ReleaseClaim then HandedOver(j)
    else if IsFailing(at) then j.state != Queued && !j.reportsReady
    else (j.IsActive() ==> j.state == Expected(at)) && j.state != Ready && !j.reportsReady
  }

  /** The record, given the claims so far and where the claimant stands (if it still runs). */
  predicate JobOk(claims: nat, holder: Option<Point>, finalClaims: seq<real>, usable: seq<State>, j: Job) {
    && WellStaged(j)
    && (j.cancelRequested ==> j.state == Cancelled)
    && j.finalizingSince == (if finalClaims == [] then None else Some(finalClaims[|finalClaims| - 1]))
    && (j.finalizingSince.Some? ==> j.reportsReady)
    && (j.reportsReady && j.IsActive() ==> j.state == Analyzing)
    && (j.state == RunningComparison ==> RunningBaseline in usable)
    && (j.state == Analyzing || j.state == Ready ==> usable == [RunningBaseline, RunningComparison])
    && (claims == 0 ==> !j.workerActive && !j.reportsReady && (j.IsActive() ==> j.state == Queued) && j.state != Ready)
    && (holder.Some? ==> ClaimantOk(holder.value, j) && (j.IsActive() ==> j.workerActive))
    && (claims == 1 && holder.None? ==> HandedOver(j))
    && (j.workerActive ==> holder.Some?)
  }

  /** The usable runs so far, as far as the claimant's position fixes them. */
  function UsableAt(at: Point, otherwise: seq<State>): seq<State> {
    match at
    case WriteValidating => []
    case CheckTargets => []
    case WriteBaseline => []
    case RunBaseline => []
    case WriteComparison => [RunningBaseline]
    case RunComparison => [RunningBaseline]
    case WriteFailed(_) => otherwise
    case WriteUnexpected => otherwise
    case ReleaseClaim => otherwise
    case _ => [RunningBaseline, RunningComparison]
  }

  predicate ProcessOk(
      who: nat, p: Process, claimant: Option<nat>, finalClaims: seq<real>, usable: seq<State>, job: Option<Job>)
  {
    match p
    case Driving(at, _) =>
      claimant == Some(who) && (at.WriteFailed? ==> at.report.state == Failed) && usable == UsableAt(at, usable)
    case BuildingReports => finalClaims != []
    case WritingResult(r) => finalClaims != [] && (r.state == Failed || r.state == Ready)
    case Failing(r) => r.state == Failed
    case Returned(claimed) => claimed ==> claimant == Some(who)
    case Deleting => job.Some? ==> !job.value.IsActive() && !job.value.workerActive
    case FailingLost => job.Some? ==> job.value.state != Queued
    case ReleasingLost => job.Some? ==> !job.value.IsActive()
    case _ => true
  }

  function Holder(w: World): Option<Point> {
    if w.claimant.Some? && w.claimant.value in w.processes && w.processes[w.claimant.value].Driving?
    then Some(w.processes[w.claimant.value].at)
    else None
  }

  predicate Spaced(claims: seq<real>) {
    forall a, b | 0 <= a < b < |claims| :: claims[b] - claims[a] > STALE_CLAIM_SECONDS
  }

  predicate Inv(w: World) {
    && w.claims == (if w.claimant.Some? then 1 else 0)
    && (w.claimant.None? ==> w.usable == [])
    && (w.claimant.Some? ==>
          && w.claimant.value in w.processes
          && (w.processes[w.claimant.value].Driving? || w.processes[w.claimant.value] == Returned(true)))
    && Spaced(w.finalClaims)
    && (w.job.Some? ==> JobOk(w.claims, Holder(w), w.finalClaims, w.usable, w.job.value))
    && (forall who | who in w.processes ::
          ProcessOk(who, w.processes[who], w.claimant, w.finalClaims, w.usable, w.job))
  }

  // --- single steps, on values ---

  function PointOf(p: Process): Option<Point> {
    if p.Driving? then Some(p.at) else None
  }

  predicate AnswerOk(a: Answer) {
    a.Rejected? ==> a.report.state == Failed && a.report.analysisId.None?
  }

  lemma NextStage(s: State, history: seq<State>, next: State)
    requires Staged(s, history) && !IsTerminal(s)
    requires next == Failed || next == Cancelled || Depth(next) == Depth(s) + 1
    ensures Staged(next, history + [next])
  {
    assert history == STAGES[..Depth(s)];
    if next != Failed && next != Cancelled {
      assert STAGES[..Depth(s) + 1] == STAGES[..Depth(s)] + [STAGES[Depth(s)]];
    }
  }

  lemma AdvanceKeepsStaging(j: Job, r: Report)
    requires WellStaged(j) && (j.cancelRequested ==> j.state == Cancelled)
    requires r.state == Failed || (j.IsActive() ==> Depth(r.state) == Depth(j.state) + 1)
    ensures WellStaged(Advance(j, r))
    ensures j.IsActive() ==> Advance(j, r).state == r.state
    ensures !j.IsActive() ==> Advance(j, r) == j
  {
    if j.IsActive() {
      NextStage(j.state, j.stageHistory, r.state);
    }
  }

  lemma CancelKeepsStaging(j: Job)
    requires WellStaged(j)
    ensures WellStaged(Cancel(j))
  {
    if j.IsActive() {
      NextStage(j.state, j.stageHistory, Cancelled);
    }
  }

  /** What a claimant's step leaves behind. */
  predicate DriveOk(p: Process, j: Job, a: Answer, o: Outcome, finalClaims: seq<real>, usable: seq<State>) {
    var usable' := UsableAfter(p, a, usable);
    && o.job.Some?
    && JobOk(1, PointOf(o.process), finalClaims, usable', o.job.value)
    && (o.process.Driving? ==>
          && usable' == UsableAt(o.process.at, usable')
          && (o.process.at.WriteFailed? ==> o.process.at.report.state == Failed))
    && (o.process.Driving? || o.process == Returned(true))
    && Follows(j, o.job.value)
  }

  /** No step revives a finished job, re-queues one or gives a job a worker it lost. */
  predicate Follows(j: Job, j': Job) {
    && (!j.IsActive() ==> j'.state == j.state && j'.stageHistory == j.stageHistory)
    && (j'.workerActive ==> j.workerActive)
    && (j.state != Queued ==> j'.state != Queued)
  }

  predicate CanDrive(at: Point, j: Job, finalClaims: seq<real>, usable: seq<State>) {
    && JobOk(1, Some(at), finalClaims, usable, j)
    && (at.WriteFailed? ==> at.report.state == Failed)
    && usable == UsableAt(at, usable)
  }

  /** The four stage writes, as one: from the state before `s` to `s` itself. */
  lemma StageWriteKeepsJob(at: Point, s: State, next: Point, handOff: bool, j: Job, a: Answer,
                           finalClaims: seq<real>, usable: seq<State>)
    requires CanDrive(at, j, finalClaims, usable)
    requires at == WriteValidating || at == WriteBaseline || at == WriteComparison || at == WriteAnalyzing
    requires Depth(s) == Depth(Expected(at)) + 1 <= 4
    requires !IsFailing(next) && next != ReleaseClaim && Expected(next) == s && UsableAt(next, usable) == usable
    ensures DriveOk(Driving(at, handOff), j, a, AfterWrite(Some(j), Stage(s), next, handOff), finalClaims, usable)
  {
    AdvanceKeepsStaging(j, Stage(s));
  }

  /** A write of READY from ANALYZING, or of FAILED from anywhere, ends the call. */
  lemma LastWriteKeepsJob(at: Point, r: Report, handOff: bool, j: Job, a: Answer,
                          finalClaims: seq<real>, usable: seq<State>)
    requires CanDrive(at, j, finalClaims, usable)
    requires (at.WriteReady? && r.state == Ready) || (IsFailing(at) && r.state == Failed)
    ensures DriveOk(Driving(at, handOff), j, a, AfterWrite(Some(j), r, ReleaseClaim, handOff), finalClaims, usable)
  {
    AdvanceKeepsStaging(j, r);
  }

  /** Runs, checks and uploads leave the record alone. */
  lemma WorkKeepsJob(at: Point, next: Point, handOff: bool, j: Job, a: Answer,
                     finalClaims: seq<real>, usable: seq<State>)
    requires CanDrive(at, j, finalClaims, usable) && AnswerOk(a)
    requires at == CheckTargets || at == RunBaseline || at == RunComparison || at == PutReports
             || at == BuildAnalysis || at == StoreAnalysis
    requires !IsFailing(next) && next != ReleaseClaim && Expected(next) == Expected(at)
    requires
      var usable' := UsableAfter(Driving(at, handOff), Fine(""), usable);
      usable' == UsableAt(next, usable') && (at != RunBaseline && at != RunComparison ==> usable' == usable)
    ensures DriveOk(Driving(at, handOff), j, a, AfterRun(Some(j), a, next, handOff), finalClaims, usable)
  {
  }

  lemma DriveKeepsJob(at: Point, handOff: bool, j: Job, a: Answer, finalClaims: seq<real>, usable: seq<State>)
    requires CanDrive(at, j, finalClaims, usable) && AnswerOk(a)
    ensures DriveOk(Driving(at, handOff), j, a, Drive(at, handOff, Some(j), a), finalClaims, usable)
  {
    match at
    case WriteValidating => StageWriteKeepsJob(at, Validating, CheckTargets, handOff, j, a, finalClaims, usable);
    case CheckTargets => WorkKeepsJob(at, WriteBaseline, handOff, j, a, finalClaims, usable);
    case WriteBaseline => StageWriteKeepsJob(at, RunningBaseline, RunBaseline, handOff, j, a, finalClaims, usable);
    case RunBaseline => WorkKeepsJob(at, WriteComparison, handOff, j, a, finalClaims, usable);
    case WriteComparison =>
      StageWriteKeepsJob(at, RunningComparison, RunComparison, handOff, j, a, finalClaims, usable);
    case RunComparison => WorkKeepsJob(at, WriteAnalyzing, handOff, j, a, finalClaims, usable);
    case WriteAnalyzing =>
      var next := if handOff then PutReports else BuildAnalysis;
      StageWriteKeepsJob(at, Analyzing, next, handOff, j, a, finalClaims, usable);
    case PutReports => WorkKeepsJob(at, SetReportsReady, handOff, j, a, finalClaims, usable);
    case SetReportsReady => HandOverKeepsJob(handOff, j, a, finalClaims, usable);
    case BuildAnalysis => WorkKeepsJob(at, StoreAnalysis, handOff, j, a, finalClaims, usable);
    case StoreAnalysis =>
      WorkKeepsJob(at, WriteReady(if a.Fine? then a.text else ""), handOff, j, a, finalClaims, usable);
    case WriteReady(id) => LastWriteKeepsJob(at, ReadyReport(id), handOff, j, a, finalClaims, usable);
    case WriteFailed(r) => LastWriteKeepsJob(at, r, handOff, j, a, finalClaims, usable);
    case WriteUnexpected => LastWriteKeepsJob(at, Failure("unexpected_error"), handOff, j, a, finalClaims, usable);
    case ReleaseClaim => ReleaseKeepsJob(handOff, j, a, finalClaims, usable);
  }

  lemma HandOverKeepsJob(handOff: bool, j: Job, a: Answer, finalClaims: seq<real>, usable: seq<State>)
    requires CanDrive(SetReportsReady, j, finalClaims, usable)
    ensures
      DriveOk(Driving(SetReportsReady, handOff), j, a, Drive(SetReportsReady, handOff, Some(j), a), finalClaims, usable)
  {
  }

  lemma ReleaseKeepsJob(handOff: bool, j: Job, a: Answer, finalClaims: seq<real>, usable: seq<State>)
    requires CanDrive(ReleaseClaim, j, finalClaims, usable)
    ensures DriveOk(Driving(ReleaseClaim, handOff), j, a, Drive(ReleaseClaim, handOff, Some(j), a), finalClaims, usable)
  {
  }

  /** What a step of a process other than the claimant leaves behind. */
  predicate OtherOk(who: nat, p: Process, j: Job, o: Outcome, claims: nat, holder: Option<Point>,
                    claimant: Option<nat>, finalClaims: seq<real>, usable: seq<State>)
  {
    var finalClaims' := ClaimsAfter(p, o, finalClaims);
    && Spaced(finalClaims')
    && ProcessOk(who, o.process, claimant, finalClaims', usable, o.job)
    && (o.job.Some? ==> JobOk(claims, holder, finalClaims', usable, o.job.value) && Follows(j, o.job.value))
  }

  predicate CanStep(who: nat, p: Process, j: Job, claims: nat, holder: Option<Point>,
                    claimant: Option<nat>, finalClaims: seq<real>, usable: seq<State>)
  {
    && claims <= 1 && (claims == 0 ==> holder.None?)
    && JobOk(claims, holder, finalClaims, usable, j)
    && ProcessOk(who, p, claimant, finalClaims, usable, Some(j))
    && Spaced(finalClaims)
    && !p.Driving? && !p.Claiming?
  }

  /** A failure, or the finalizer's READY, written by a process other than the claimant. */
  lemma WriterKeepsJob(who: nat, p: Process, r: Report, next: Process, j: Job, claims: nat, holder: Option<Point>,
                       claimant: Option<nat>, finalClaims: seq<real>, usable: seq<State>)
    requires CanStep(who, p, j, claims, holder, claimant, finalClaims, usable)
    requires p.WritingResult? || p.Failing? || p.FailingLost?
    requires r.state == Failed || (r.state == Ready && finalClaims != [])
    requires next == Returned(false) || (next == ReleasingLost && r.state == Failed)
    requires p.FailingLost? ==> j.state != Queued
    ensures OtherOk(who, p, j, Outcome(Written(Some(j), r).0, next), claims, holder, claimant, finalClaims, usable)
  {
    AdvanceKeepsStaging(j, r);
    if j.IsActive() {
      FinishKeepsJob(j, Advance(j, r), claims, holder, finalClaims, usable);
    }
  }

  /** Finishing a job keeps what is known of it. */
  lemma FinishKeepsJob(j: Job, j': Job, claims: nat, holder: Option<Point>, finalClaims: seq<real>, usable: seq<State>)
    requires JobOk(claims, holder, finalClaims, usable, j) && j.IsActive()
    requires WellStaged(j') && !j'.IsActive() && (j'.cancelRequested ==> j'.state == Cancelled)
    requires j'.workerActive == j.workerActive && j'.reportsReady == j.reportsReady
    requires j'.finalizingSince == j.finalizingSince
    requires j'.state == Ready ==> finalClaims != []
    ensures JobOk(claims, holder, finalClaims, usable, j')
  {
  }

  lemma RequestKeepsJob(who: nat, p: Process, j: Job, a: Answer, claims: nat, holder: Option<Point>,
                        claimant: Option<nat>, finalClaims: seq<real>, usable: seq<State>)
    requires CanStep(who, p, j, claims, holder, claimant, finalClaims, usable)
    requires p.Cancelling? || p.ReleasingLost? || p.ClaimingReports?
    ensures OtherOk(who, p, j, Next(p, Some(j), a), claims, holder, claimant, finalClaims, usable)
  {
    if p.Cancelling? && j.IsActive() {
      CancelKeepsStaging(j);
      FinishKeepsJob(j, Cancel(j), claims, holder, finalClaims, usable);
    }
  }

  lemma OtherKeepsJob(who: nat, p: Process, j: Job, a: Answer, claims: nat, holder: Option<Point>,
                      claimant: Option<nat>, finalClaims: seq<real>, usable: seq<State>)
    requires CanStep(who, p, j, claims, holder, claimant, finalClaims, usable) && AnswerOk(a)
    ensures OtherOk(who, p, j, Next(p, Some(j), a), claims, holder, claimant, finalClaims, usable)
  {
    if p.WritingResult? || p.Failing? {
      WriterKeepsJob(who, p, p.report, Returned(false), j, claims, holder, claimant, finalClaims, usable);
    } else if p.FailingLost? {
      WriterKeepsJob(who, p, Failure("worker_lost"), ReleasingLost, j, claims, holder, claimant, finalClaims, usable);
    } else if p.Cancelling? || p.ReleasingLost? || p.ClaimingReports? {
      RequestKeepsJob(who, p, j, a, claims, holder, claimant, finalClaims, usable);
    }
  }

  /** What the other processes rely on survives a step. */
  lemma BystanderStaysOk(who: nat, p: Process, w: World, w': World)
    requires ProcessOk(who, p, w.claimant, w.finalClaims, w.usable, w.job)
    requires w'.claimant == w.claimant || w.claimant.None?
    requires w.finalClaims <= w'.finalClaims
    requires w'.usable == w.usable || w.claimant != Some(who)
    requires w'.job.Some? ==> w.job.Some? && (Follows(w.job.value, w'.job.value) || w'.job.value == Claim(w.job.value))
    requires w'.job.Some? && w'.job.value == Claim(w.job.value) ==> w'.job.value.state == Queued || w'.job == w.job
    ensures ProcessOk(who, p, w'.claimant, w'.finalClaims, w'.usable, w'.job)
  {
  }

  lemma ClaimHappensOnce(w: World, who: nat, a: Answer)
    requires Inv(w) && who in w.processes && w.processes[who].Claiming?
    requires Next(w.processes[who], w.job, a).process.Driving?
    ensures w.claims == 0
    ensures JobOk(1, Some(WriteValidating), w.finalClaims, w.usable, Claim(w.job.value))
  {
  }

  predicate DriverDone(w: World, who: nat, w': World) {
    && w'.claimant == Some(who) && w'.claims == 1 && w'.finalClaims == w.finalClaims
    && who in w'.processes
    && ProcessOk(who, w'.processes[who], w'.claimant, w'.finalClaims, w'.usable, w'.job)
    && (w'.processes[who].Driving? || w'.processes[who] == Returned(true))
    && (w'.job.Some? <==> w.job.Some?)
    && (w'.job.Some? ==>
          && JobOk(w'.claims, Holder(w'), w'.finalClaims, w'.usable, w'.job.value)
          && Follows(w.job.value, w'.job.value))
  }

  /** The claimant itself and the record after its step. */
  lemma DriverKeepsInv(w: World, who: nat, a: Answer)
    requires Inv(w) && Allowed(w, Proceed(who, a)) && w.processes[who].Driving?
    ensures DriverDone(w, who, After(w, Proceed(who, a)))
  {
    var p := w.processes[who];
    assert ProcessOk(who, p, w.claimant, w.finalClaims, w.usable, w.job);
    if w.job.Some? {
      DriveKeepsJob(p.at, p.handOff, w.job.value, a, w.finalClaims, w.usable);
      DriveOutcome(w, who, a, Drive(p.at, p.handOff, w.job, a));
    } else {
      DriveNothing(w, who, a);
    }
  }

  lemma DriveOutcome(w: World, who: nat, a: Answer, o: Outcome)
    requires Inv(w) && who in w.processes && w.processes[who].Driving? && w.job.Some?
    requires DriveOk(w.processes[who], w.job.value, a, o, w.finalClaims, w.usable)
    ensures DriverDone(w, who, AfterOutcome(w, who, a, o))
  {
    assert ProcessOk(who, w.processes[who], w.claimant, w.finalClaims, w.usable, w.job);
  }

  lemma DriveNothing(w: World, who: nat, a: Answer)
    requires Inv(w) && Allowed(w, Proceed(who, a)) && w.processes[who].Driving? && w.job.None?
    ensures DriverDone(w, who, After(w, Proceed(who, a)))
  {
    assert ProcessOk(who, w.processes[who], w.claimant, w.finalClaims, w.usable, w.job);
  }

  lemma OtherKeepsInv(w: World, who: nat, a: Answer)
    requires Inv(w) && Allowed(w, Proceed(who, a)) && !w.processes[who].Driving? && !w.processes[who].Claiming?
    ensures OtherDone(w, who, After(w, Proceed(who, a)))
  {
    var p := w.processes[who];
    assert ProcessOk(who, p, w.claimant, w.finalClaims, w.usable, w.job);
    if w.job.Some? {
      OtherKeepsJob(who, p, w.job.value, a, w.claims, Holder(w), w.claimant, w.finalClaims, w.usable);
      OtherOutcome(w, who, a, Next(p, w.job, a));
    }
  }

  predicate OtherDone(w: World, who: nat, w': World) {
    && w'.claimant == w.claimant && w'.claims == w.claims && w'.usable == w.usable
    && w.finalClaims <= w'.finalClaims && Spaced(w'.finalClaims)
    && who in w'.processes && who in w.processes
    && ProcessOk(who, w'.processes[who], w'.claimant, w'.finalClaims, w'.usable, w'.job)
    && (w.processes[who] == Returned(true) ==> w'.processes[who] == Returned(true))
    && Holder(w') == Holder(w)
    && (w'.job.Some? ==>
          && w.job.Some?
          && JobOk(w'.claims, Holder(w'), w'.finalClaims, w'.usable, w'.job.value)
          && Follows(w.job.value, w'.job.value))
  }

  lemma OtherOutcome(w: World, who: nat, a: Answer, o: Outcome)
    requires Inv(w) && who in w.processes && !w.processes[who].Driving? && !w.processes[who].Claiming? && w.job.Some?
    requires OtherOk(who, w.processes[who], w.job.value, o, w.claims, Holder(w), w.claimant, w.finalClaims, w.usable)
    requires !o.process.Driving? && (w.processes[who] == Returned(true) ==> o.process == Returned(true))
    ensures OtherDone(w, who, AfterOutcome(w, who, a, o))
  {
  }

  lemma ClaimerKeepsInv(w: World, who: nat, a: Answer)
    requires Inv(w) && Allowed(w, Proceed(who, a)) && w.processes[who].Claiming?
    ensures
      var w' := After(w, Proceed(who, a));
      && (if w'.processes[who].Driving? then w.claimant.None? && w'.claimant == Some(who) && w'.claims == 1
          else w' == w.(processes := w'.processes))
      && w'.finalClaims == w.finalClaims && w'.usable == w.usable
      && ProcessOk(who, w'.processes[who], w'.claimant, w'.finalClaims, w'.usable, w'.job)
      && (w'.job.Some? <==> w.job.Some?)
      && (w'.job.Some? ==>
            && JobOk(w'.claims, Holder(w'), w'.finalClaims, w'.usable, w'.job.value)
            && (w'.job == w.job || (w'.job.value == Claim(w.job.value) && w'.job.value.state == Queued)))
  {
    var p := w.processes[who];
    if Next(p, w.job, a).process.Driving? {
      ClaimHappensOnce(w, who, a);
    }
  }

  lemma ProceedKeepsInv(w: World, who: nat, a: Answer)
    requires Inv(w) && Allowed(w, Proceed(who, a))
    ensures Inv(After(w, Proceed(who, a)))
  {
    var w' := After(w, Proceed(who, a));
    if w.processes[who].Driving? {
      DriverKeepsInv(w, who, a);
    } else if w.processes[who].Claiming? {
      ClaimerKeepsInv(w, who, a);
    } else {
      OtherKeepsInv(w, who, a);
    }
    forall other | other in w'.processes
      ensures ProcessOk(other, w'.processes[other], w'.claimant, w'.finalClaims, w'.usable, w'.job)
    {
      assert ProcessOk(other, w.processes[other], w.claimant, w.finalClaims, w.usable, w.job);
      if other != who {
        BystanderStaysOk(other, w.processes[other], w, w');
      }
    }
  }

  lemma StepKeepsInv(w: World, m: Move)
    requires Inv(w) && Allowed(w, m)
    ensures Inv(After(w, m))
  {
    match m
    case Proceed(who, a) => ProceedKeepsInv(w, who, a);
    case Tick(_) =>
    case Begin(who, p) =>
      var w' := After(w, m);
      forall other | other in w'.processes
        ensures ProcessOk(other, w'.processes[other], w'.claimant, w'.finalClaims, w'.usable, w'.job)
      {
        if other != who {
          assert ProcessOk(other, w.processes[other], w.claimant, w.finalClaims, w.usable, w.job);
        }
      }
    case Expire =>
      var w' := After(w, m);
      forall other | other in w'.processes
        ensures ProcessOk(other, w'.processes[other], w'.claimant, w'.finalClaims, w'.usable, w'.job)
      {
        assert ProcessOk(other, w.processes[other], w.claimant, w.finalClaims, w.usable, w.job);
      }
  }

  lemma {:induction false} RunInvariant(ws: seq<World>, ms: seq<Move>, i: nat)
    requires Run(ws, ms) && i < |ws|
    ensures Inv(ws[i])
  {
    if i > 0 {
      RunInvariant(ws, ms, i - 1);
      assert Allowed(ws[i - 1], ms[i - 1]) && ws[i] == After(ws[i - 1], ms[i - 1]);
      StepKeepsInv(ws[i - 1], ms[i - 1]);
    }
  }

  // --- what holds on every run ---

  /** At most one `run_job` call ever claims the job. */
  lemma ClaimedAtMostOnce(ws: seq<World>, ms: seq<Move>, i: nat)
    requires Run(ws, ms) && i < |ws|
    ensures ws[i].claims <= 1
    ensures forall a, b | a in ws[i].processes && b in ws[i].processes
      && (ws[i].processes[a].Driving? || ws[i].processes[a] == Returned(true))
      && (ws[i].processes[b].Driving? || ws[i].processes[b] == Returned(true)) :: a == b
  {
    RunInvariant(ws, ms, i);
    forall a | a in ws[i].processes && (ws[i].processes[a].Driving? || ws[i].processes[a] == Returned(true))
      ensures ws[i].claimant == Some(a)
    {
      assert ProcessOk(a, ws[i].processes[a], ws[i].claimant, ws[i].finalClaims, ws[i].usable, ws[i].job);
    }
  }

  /** Some stages in order, and at most one failure or cancellation after them. */
  predicate IsStagePath(history: seq<State>) {
    exists k | 0 <= k <= 5 ::
      || history == STAGES[..k]
      || (k <= 4 && history == STAGES[..k] + [Failed])
      || (k <= 4 && history == STAGES[..k] + [Cancelled])
  }

  /** The recorded history is a path through the stages, ended by at most one failure or
      cancellation, and it agrees with the state; a cancellation request is never ignored. */
  lemma HistoryIsAStagePath(ws: seq<World>, ms: seq<Move>, i: nat)
    requires Run(ws, ms) && i < |ws| && ws[i].job.Some?
    ensures
      var j := ws[i].job.value;
      && IsStagePath(j.stageHistory)
      && (j.stageHistory == [] <==> j.state == Queued)
      && (j.stageHistory != [] ==> j.stageHistory[|j.stageHistory| - 1] == j.state)
      && (j.cancelRequested ==> j.state == Cancelled)
  {
    RunInvariant(ws, ms, i);
    var j := ws[i].job.value;
    if j.state == Failed || j.state == Cancelled {
      assert j.stageHistory == STAGES[..|j.stageHistory| - 1] + [j.state];
    } else {
      assert j.stageHistory == STAGES[..Depth(j.state)];
    }
  }

  /** Results need evidence: a job reaches ANALYZING or READY only after a usable baseline run and
      then a usable comparison run. */
  lemma ResultsNeedBothRuns(ws: seq<World>, ms: seq<Move>, i: nat)
    requires Run(ws, ms) && i < |ws| && ws[i].job.Some?
    ensures ws[i].job.value.state == RunningComparison ==> RunningBaseline in ws[i].usable
    ensures ws[i].job.value.state == Analyzing || ws[i].job.value.state == Ready ==>
      ws[i].usable == [RunningBaseline, RunningComparison]
  {
    RunInvariant(ws, ms, i);
  }

  /** Once a claimed `run_job` call has returned, its worker flag is down and the job is finished
      or waits, handed over, for the finalizer. */
  lemma ReturnedWorkerLeavesNothingBehind(ws: seq<World>, ms: seq<Move>, i: nat, who: nat)
    requires Run(ws, ms) && i < |ws| && ws[i].job.Some?
    requires who in ws[i].processes && ws[i].processes[who] == Returned(true)
    ensures
      var j := ws[i].job.value;
      !j.workerActive && (!j.IsActive() || (j.state == Analyzing && j.reportsReady))
  {
    RunInvariant(ws, ms, i);
    assert ProcessOk(who, ws[i].processes[who], ws[i].claimant, ws[i].finalClaims, ws[i].usable, ws[i].job);
  }

  /** Own steps a claimed call still needs, whatever its environment does. */
  function Remaining(at: Point): nat {
    match at
    case WriteValidating => 12
    case CheckTargets => 11
    case WriteBaseline => 10
    case RunBaseline => 9
    case WriteComparison => 8
    case RunComparison => 7
    case WriteAnalyzing => 6
    case PutReports => 5
    case BuildAnalysis => 5
    case SetReportsReady => 4
    case StoreAnalysis => 4
    case WriteReady(_) => 3
    case WriteFailed(_) => 3
    case WriteUnexpected => 3
    case ReleaseClaim => 2
  }

  /** A claimed call returns after at most eleven steps of its own, for any job, any answers and
      any interference. */
  lemma EveryDriveEnds(at: Point, handOff: bool, job: Option<Job>, a: Answer)
    ensures
      var p := Drive(at, handOff, job, a).process;
      if at == ReleaseClaim then p == Returned(true)
      else p.Driving? && Remaining(p.at) < Remaining(at)
  {
  }

  /** A finished job stays as it finished until it is removed. */
  lemma {:induction false} TerminalStatesAbsorb(ws: seq<World>, ms: seq<Move>, i: nat, k: nat)
    requires Run(ws, ms) && i <= k < |ws|
    requires ws[i].job.Some? && !ws[i].job.value.IsActive() && ws[k].job.Some?
    ensures ws[k].job.value.state == ws[i].job.value.state
    ensures ws[k].job.value.stageHistory == ws[i].job.value.stageHistory
    decreases k
  {
    if i < k {
      StepFollows(ws, ms, k - 1);
      TerminalStatesAbsorb(ws, ms, i, k - 1);
    }
  }

  lemma StepFollows(ws: seq<World>, ms: seq<Move>, i: nat)
    requires Run(ws, ms) && i < |ms|
    ensures ws[i + 1].job.Some? ==>
      && ws[i].job.Some?
      && (Follows(ws[i].job.value, ws[i + 1].job.value)
          || (ws[i].job.value.state == Queued && ws[i + 1].job.value == Claim(ws[i].job.value)))
    ensures ws[i].job.Some? && ws[i + 1].job.None? ==> !ws[i].job.value.workerActive
  {
    RunInvariant(ws, ms, i);
    assert Allowed(ws[i], ms[i]) && ws[i + 1] == After(ws[i], ms[i]);
    if ms[i].Proceed? {
      var p := ws[i].processes[ms[i].who];
      assert ProcessOk(ms[i].who, p, ws[i].claimant, ws[i].finalClaims, ws[i].usable, ws[i].job);
      if p.Driving? {
        DriverKeepsInv(ws[i], ms[i].who, ms[i].answer);
      } else if p.Claiming? {
        ClaimerKeepsInv(ws[i], ms[i].who, ms[i].answer);
      } else {
        OtherKeepsInv(ws[i], ms[i].who, ms[i].answer);
      }
    }
  }

  /** No step removes a job whose worker flag is up, by deletion or expiry. */
  lemma LiveWorkerIsNeverRemoved(ws: seq<World>, ms: seq<Move>, i: nat)
    requires Run(ws, ms) && i < |ms| && ws[i].job.Some? && ws[i].job.value.workerActive
    ensures ws[i + 1].job.Some?
  {
    StepFollows(ws, ms, i);
  }

  /** A redelivery can lower the flag while the claimed call still drives: then the job is already finished,
      and only then can the call lose it. */
  lemma DrivenJobIsRemovedFinished(ws: seq<World>, ms: seq<Move>, i: nat)
    requires Run(ws, ms) && i < |ms| && ws[i].job.Some? && Holder(ws[i]).Some?
    ensures ws[i].job.value.workerActive || !ws[i].job.value.IsActive()
    ensures ws[i + 1].job.None? ==> !ws[i].job.value.workerActive && !ws[i].job.value.IsActive()
  {
    RunInvariant(ws, ms, i);
    StepFollows(ws, ms, i);
  }

  lemma ExtendRun(ws: seq<World>, ms: seq<Move>, m: Move) returns (ws': seq<World>, ms': seq<Move>)
    requires Run(ws, ms) && Allowed(ws[|ms|], m)
    ensures Run(ws', ms') && ws'[|ms'|] == After(ws[|ms|], m)
  {
    ws', ms' := ws + [After(ws[|ms|], m)], ms + [m];
  }

  /** A call has claimed the job and begun. */
  lemma BeginDriving(job: Job) returns (ws: seq<World>, ms: seq<Move>)
    requires JustCreated(job)
    ensures Run(ws, ms)
    ensures
      var w, j := ws[|ms|], Advance(Claim(job), Stage(Validating));
      w.job == Some(j) && w.processes == map[0 := Driving(CheckTargets, false)] && w.claimant == Some(0)
  {
    var w := World(Some(job), map[], 0.0, None, 0, [], []);
    ws, ms := [w], [];
    ws, ms := ExtendRun(ws, ms, Begin(0, Claiming(false)));
    ws, ms := ExtendRun(ws, ms, Proceed(0, Raised));
    ws, ms := ExtendRun(ws, ms, Proceed(0, Raised));
  }

  /** The message is delivered again meanwhile. */
  lemma RedeliverWhileDriving(job: Job) returns (ws: seq<World>, ms: seq<Move>)
    requires JustCreated(job)
    ensures Run(ws, ms)
    ensures
      var w := ws[|ms|];
      && w.job.Some? && w.job.value.state == Failed && !w.job.value.workerActive
      && w.processes == map[0 := Driving(CheckTargets, false), 1 := Returned(false)] && w.claimant == Some(0)
  {
    ws, ms := BeginDriving(job);
    ws, ms := ExtendRun(ws, ms, Begin(1, Receiving(false)));
    ws, ms := ExtendRun(ws, ms, Proceed(1, Raised));
    ws, ms := ExtendRun(ws, ms, Proceed(1, Raised));
    ws, ms := ExtendRun(ws, ms, Proceed(1, Raised));
  }

  /** And the job is deleted: the call still drives, without a job. */
  lemma DrivenJobCanBeRemoved(job: Job) returns (ws: seq<World>, ms: seq<Move>)
    requires JustCreated(job)
    ensures Run(ws, ms) && ws[|ms|].job.None? && Holder(ws[|ms|]) == Some(CheckTargets)
  {
    ws, ms := RedeliverWhileDriving(job);
    ws, ms := ExtendRun(ws, ms, Begin(2, Cancelling));
    ws, ms := ExtendRun(ws, ms, Proceed(2, Raised));
    ws, ms := ExtendRun(ws, ms, Proceed(2, Raised));
  }

  /** Two claims of the finalizing step are always more than the stale time apart. */
  lemma FinalizingClaimsAreSpaced(ws: seq<World>, ms: seq<Move>, i: nat, a: nat, b: nat)
    requires Run(ws, ms) && i < |ws| && a < b < |ws[i].finalClaims|
    ensures ws[i].finalClaims[b] - ws[i].finalClaims[a] > STALE_CLAIM_SECONDS
  {
    RunInvariant(ws, ms, i);
  }
}
