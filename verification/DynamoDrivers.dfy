/** What can become of a job that two workers drive, each through its own updates on the table store
    (backend/app/services/execution_job_service.py:377-502). */
module DynamoDrivers {
  import opened ExecutionJobs
  import opened AtomicJobStore
  import opened DynamoTable
  import opened DynamoProtocol
  import opened DynamoTheorems
  import opened DynamoSolo
  import opened DynamoFlags
  import JobLifecycle

  type Update = Job -> Job

  function Apply(updates: seq<Update>, j: Job): Job
    decreases |updates|
  {
    if updates == [] then j else Apply(updates[1..], updates[0](j))
  }

  /** A client that can begin a call, and a stored record that has not expired. */
  predicate CanUpdate(w: World, id: JobId, who: nat) {
    && who in w.clients && (w.clients[who].Idle? || w.clients[who].Done?)
    && id in w.table.jobs && w.now <= w.table.jobs[id].job.expiresAt
  }

  lemma SoloUpdate(cfg: Config, id: JobId, fn: Update, t: Table, now: real)
    requires Lawful(fn) && id in t.jobs && t.jobs[id].job.id == id && !t.jobs[id].job.Evictable(now)
    ensures Solo(cfg, Read(id, fn, []), t, now, 3)
         == (Done(JobUpdated(fn(t.jobs[id].job), [t.jobs[id].job])), Effect(Updated(id, fn, now), t))
  {
    var item := t.jobs[id];
    assert SameIdentity(item.job, fn(item.job)) && [] + [item.job] == [item.job];
    SoloRead(cfg, id, fn, [], t, now);
    SoloSplits(cfg, Read(id, fn, []), t, now, 2, 1);
    SoloCommit(cfg, fn, item, [], now, t, now);
  }

  /** Any run goes on with one update. */
  lemma UpdateGoesOn(cfg: Config, ws: seq<World>, ms: seq<Move>, id: JobId, who: nat, fn: Update)
    returns (ws': seq<World>, ms': seq<Move>)
    requires Run(cfg, ws, ms) && CanUpdate(ws[|ms|], id, who) && Lawful(fn)
    ensures Run(cfg, ws', ms') && ws <= ws' && ms <= ms'
    ensures
      var w, w' := ws[|ms|], ws'[|ms'|];
      && w'.now == w.now && CanUpdate(w', id, who) && w'.clients.Keys == w.clients.Keys
      && (forall c | c in w.clients && c != who :: w'.clients[c] == w.clients[c])
      && w'.table.jobs[id].job == fn(w.table.jobs[id].job)
  {
    var w := ws[|ms|];
    RunKeyed(cfg, ws, ms, |ms|);
    assert SameIdentity(w.table.jobs[id].job, fn(w.table.jobs[id].job));
    SoloUpdate(cfg, id, fn, w.table, w.now);
    ws', ms' := CallGoesOn(cfg, ws, ms, who, Change(id, fn), 3);
  }

  /** Any run goes on with updates of one client, one after the other. */
  lemma {:induction false} UpdatesGoOn(cfg: Config, ws: seq<World>, ms: seq<Move>, id: JobId, who: nat,
                                       updates: seq<Update>)
    returns (ws': seq<World>, ms': seq<Move>)
    requires Run(cfg, ws, ms) && CanUpdate(ws[|ms|], id, who) && forall f | f in updates :: Lawful(f)
    ensures Run(cfg, ws', ms') && ws <= ws' && ms <= ms'
    ensures
      var w, w' := ws[|ms|], ws'[|ms'|];
      && w'.now == w.now && CanUpdate(w', id, who) && w'.clients.Keys == w.clients.Keys
      && (forall c | c in w.clients && c != who :: w'.clients[c] == w.clients[c])
      && w'.table.jobs[id].job == Apply(updates, w.table.jobs[id].job)
    decreases |updates|
  {
    if updates == [] {
      ws', ms' := ws, ms;
    } else {
      var ws1, ms1 := UpdateGoesOn(cfg, ws, ms, id, who, updates[0]);
      ws', ms' := UpdatesGoOn(cfg, ws1, ms1, id, who, updates[1..]);
    }
  }

  function StageUpdate(s: State): Update {
    (j: Job) => Advance(j, Stage(s))
  }

  /** The updates of a call that hands its reports over, after its claim. */
  function HandOver(): seq<Update> {
    [StageUpdate(Validating), StageUpdate(RunningBaseline), StageUpdate(RunningComparison), StageUpdate(Analyzing),
     MarkReports, Release]
  }

  lemma UpdatesAreLawful()
    ensures forall f | f in HandOver() :: Lawful(f)
    ensures Lawful(StageUpdate(Validating))
  {
    forall s: State
      ensures Lawful(StageUpdate(s))
    {
      ApplicationUpdatesAreLawful(Stage(s), 0.0);
      assert forall j: Job :: StageUpdate(s)(j) == Advance(j, Stage(s));
    }
    ApplicationUpdatesAreLawful(Stage(Queued), 0.0);
  }

  lemma StageIsAdded(j: Job, s: State)
    requires j.IsActive() && !j.cancelRequested
    ensures StageUpdate(s)(j) == j.(state := s, stageHistory := j.stageHistory + [s])
  {
    assert j.warnings + [] == j.warnings;
  }

  lemma HandedOver(job: Job)
    requires JobLifecycle.JustCreated(job)
    ensures
      var j := Apply(HandOver(), Claim(job));
      && j.state == Analyzing && !j.workerActive && j.reportsReady && !j.cancelRequested
      && j.stageHistory == [Validating, RunningBaseline, RunningComparison, Analyzing]
  {
  }

  /** Two `run_job` calls have both started a new job. The first one hands its reports over and releases
      the job; then the second one writes its first stage. The history is no path through the stages any
      more, and although the first call has returned, the job is neither finished nor handed over and
      has no worker flag. */
  lemma HandedOverJobGoesBack(cfg: Config, ws: seq<World>, ms: seq<Move>, id: JobId, a: nat, b: nat)
    returns (ws': seq<World>, ms': seq<Move>, started: nat)
    requires Run(cfg, ws, ms) && CanRace(ws[|ms|], id, a, b)
    requires JobLifecycle.JustCreated(ws[|ms|].table.jobs[id].job)
    ensures Run(cfg, ws', ms') && started <= |ms'| && BothStart(ws'[started], a, b)
    ensures id in ws'[|ms'|].table.jobs
    ensures
      var j := ws'[|ms'|].table.jobs[id].job;
      && j.stageHistory == [Validating, RunningBaseline, RunningComparison, Analyzing, Validating]
      && !JobLifecycle.IsStagePath(j.stageHistory)
      && !j.workerActive && j.state == Validating
  {
    var job := ws[|ms|].table.jobs[id].job;
    var ws1, ms1 := TwoRunJobsCanStart(cfg, ws, ms, id, a, b);
    started := |ms1|;
    UpdatesAreLawful();
    var ws2, ms2 := UpdatesGoOn(cfg, ws1, ms1, id, a, HandOver());
    HandedOver(job);
    ws', ms' := UpdateGoesOn(cfg, ws2, ms2, id, b, StageUpdate(Validating));
    StageIsAdded(ws2[|ms2|].table.jobs[id].job, Validating);
    BackIsNoPath();
  }

  lemma BackIsNoPath()
    ensures !JobLifecycle.IsStagePath([Validating, RunningBaseline, RunningComparison, Analyzing, Validating])
  {
    var history := [Validating, RunningBaseline, RunningComparison, Analyzing, Validating];
    assert history[4] == Validating;
    assert JobLifecycle.STAGES[4] == Ready;
  }
}
