/** When the table store and the in-memory store answer a submission alike, and when not: the marker
    of an idempotency key outlives its job (backend/app/repositories/dynamodb_job_store.py:225-259,
    backend/app/repositories/execution_job_store.py:118-130). */
module DynamoKeyRepeats {
  import opened Wrappers
  import opened ExecutionJobs
  import opened AtomicJobStore
  import opened DynamoTable
  import opened DynamoProtocol
  import opened DynamoTheorems
  import opened DynamoSolo

  type Key = (Owner, string)

  function KeyFor(job: Job): Key {
    (job.ownerKey, if job.idempotencyKey.Some? then job.idempotencyKey.value else "")
  }

  // --- markers and jobs ---

  /** A marker names a job that was stored once, and if that job is still stored, it has the key. */
  predicate MarkersOk(w: World) {
    forall k | k in w.table.keys ::
      var m := w.table.keys[k];
      && m.jobId in w.born
      && (m.jobId in w.table.jobs ==>
            KeyOf(w.table.jobs[m.jobId].job, k) && w.table.jobs[m.jobId].job.createdAt == m.createdAt)
  }

  lemma ChangeKeepsMarkers(cfg: Config, w: World, w': World, e: Event)
    requires WellKeyed(w.table) && w.table.jobs.Keys <= w.born && MarkersOk(w) && Commits(cfg, w, w', e)
    ensures MarkersOk(w')
  {
    if e.Updated? {
      assert SameIdentity(w.table.jobs[e.id].job, e.fn(w.table.jobs[e.id].job));
    }
  }

  lemma {:induction false} MarkersStayOk(cfg: Config, ws: seq<World>, ms: seq<Move>, i: nat)
    requires Run(cfg, ws, ms) && i < |ws|
    ensures MarkersOk(ws[i])
  {
    if i > 0 {
      MarkersStayOk(cfg, ws, ms, i - 1);
      RunKeyed(cfg, ws, ms, i - 1);
      StepChange(cfg, ws, ms, i - 1);
      if !Quiet(ws[i - 1], ws[i]) {
        var e :| Commits(cfg, ws[i - 1], ws[i], e);
        ChangeKeepsMarkers(cfg, ws[i - 1], ws[i], e);
      }
    }
  }

  /** The key's marker lies inside the window. */
  predicate Marked(t: Table, k: Key, cutoff: real) {
    k in t.keys && t.keys[k].createdAt >= cutoff
  }

  function AnswersTo(cfg: Config, t: Table, job: Job, now: real): set<JobId> {
    if job.HasKey()
    then Answering(Forget(t.jobs), job.ownerKey, job.idempotencyKey.value, now - cfg.window, now) else {}
  }

  /** A job answers a key exactly when the key's marker lies in the window and names it, and it is
      stored and has not expired; so at most one job does. */
  lemma AnsweringIsMarked(cfg: Config, ws: seq<World>, ms: seq<Move>, i: nat, job: Job, id: JobId)
    requires Run(cfg, ws, ms) && i < |ws| && job.HasKey()
    ensures
      var t, now, k := ws[i].table, ws[i].now, KeyFor(job);
      id in AnswersTo(cfg, t, job, now) <==>
        && Marked(t, k, now - cfg.window) && t.keys[k].jobId == id
        && id in t.jobs && !t.jobs[id].job.Evictable(now)
  {
    RunInvariant(cfg, ws, ms, i);
    MarkersStayOk(cfg, ws, ms, i);
    var t, k := ws[i].table, KeyFor(job);
    if id in t.jobs && KeyOf(t.jobs[id].job, k) {
      assert t.jobs[id].job.HasKey();
    }
    if k in t.keys && t.keys[k].jobId == id && id in t.jobs {
      assert KeyOf(t.jobs[id].job, k);
    }
  }

  // --- a submission without interference ---

  /** What the lookup of the key leads to. */
  function AfterLookup(cfg: Config, job: Job, again: bool, t: Table, now: real): (Client, Table) {
    var k := KeyFor(job);
    if !Marked(t, k, now - cfg.window) || t.keys[k].jobId !in t.jobs then (NoKeyedJob(job, again), t)
    else
      var item := t.jobs[t.keys[k].jobId];
      if item.job.Evictable(now) then (NoKeyedJob(job, again), Transact(EvictWrites(item), t).0)
      else (Done(JobExisting(item.job)), t)
  }

  lemma SoloLookup(cfg: Config, job: Job, again: bool, t: Table, now: real, n: nat) returns (m: nat)
    requires n >= 5
    ensures n - 5 <= m < n
    ensures
      var (c, t') := AfterLookup(cfg, job, again, t, now);
      Solo(cfg, LookUp(job, again), t, now, n) == Solo(cfg, c, t', now, m)
  {
    var k := KeyFor(job);
    OneStep(cfg, LookUp(job, again), t, now, n);
    if k !in t.keys {
      m := n - 1;
      return;
    }
    OneStep(cfg, CheckMarker(job, t.keys[k], again), t, now, n - 1);
    if !Marked(t, k, now - cfg.window) {
      m := n - 2;
      return;
    }
    m := SoloFetch(cfg, job, t.keys[k].jobId, again, t, now, n - 2);
  }

  lemma SoloFetch(cfg: Config, job: Job, id: JobId, again: bool, t: Table, now: real, n: nat) returns (m: nat)
    requires n >= 3
    ensures n - 3 <= m < n
    ensures
      Solo(cfg, Fetch(job, id, again), t, now, n) ==
      if id !in t.jobs then Solo(cfg, NoKeyedJob(job, again), t, now, m)
      else if t.jobs[id].job.Evictable(now)
      then Solo(cfg, NoKeyedJob(job, again), Transact(EvictWrites(t.jobs[id]), t).0, now, m)
      else Solo(cfg, Done(JobExisting(t.jobs[id].job)), t, now, m)
  {
    OneStep(cfg, Fetch(job, id, again), t, now, n);
    if id in t.jobs {
      m := SoloJudge(cfg, job, t.jobs[id], again, t, now, n - 1);
    } else {
      m := n - 1;
    }
  }

  lemma SoloJudge(cfg: Config, job: Job, item: Item, again: bool, t: Table, now: real, n: nat) returns (m: nat)
    requires n >= 2
    ensures n - 2 <= m < n
    ensures
      Solo(cfg, JudgeFetched(job, item, again), t, now, n) ==
      if item.job.Evictable(now) then Solo(cfg, NoKeyedJob(job, again), Transact(EvictWrites(item), t).0, now, m)
      else Solo(cfg, Done(JobExisting(item.job)), t, now, m)
  {
    OneStep(cfg, JudgeFetched(job, item, again), t, now, n);
    if item.job.Evictable(now) {
      OneStep(cfg, EvictFetched(job, item, again), t, now, n - 1);
      m := n - 2;
    } else {
      m := n - 1;
    }
  }

  /** The owner has a slot left, or no counter yet. */
  predicate Room(t: Table, owner: Owner, cap: int) {
    owner !in t.slots || t.slots[owner] < cap
  }

  /** Inserting without a marker in the way. */
  function Inserting(cfg: Config, job: Job, t: Table, now: real): (Client, Table) {
    if Room(t, job.ownerKey, cfg.cap) then (Done(JobCreated(job)), Effect(Inserted(job, now - cfg.window), t))
    else (Done(CapReached), t)
  }

  lemma SoloInsert(cfg: Config, job: Job, t: Table, now: real, n: nat)
    requires n >= 2 && job.id !in t.jobs
    ensures
      var start := now - cfg.window;
      Solo(cfg, ReadWindow(job), t, now, n) ==
      if job.HasKey() && Marked(t, KeyFor(job), start) then Solo(cfg, LookUp(job, true), t, now, n - 2)
      else Inserting(cfg, job, t, now)
  {
    var start := now - cfg.window;
    OneStep(cfg, ReadWindow(job), t, now, n);
    OneStep(cfg, Insert(job, start), t, now, n - 1);
    InsertTransaction(t, job, cfg.cap, start);
  }

  /** Where a submission ends, and the table after it. */
  function Submitted(cfg: Config, job: Job, t: Table, now: real): (Client, Table) {
    if !job.HasKey() || !Marked(t, KeyFor(job), now - cfg.window) then Inserting(cfg, job, t, now)
    else
      var (c, t') := AfterLookup(cfg, job, false, t, now);
      (if c.Done? then c else Done(CapReached), t')
  }

  /** Evicting the marker's job leaves the marker. */
  lemma AfterEviction(cfg: Config, job: Job, t: Table, now: real)
    requires WellKeyed(t) && job.id !in t.jobs && job.HasKey()
    ensures
      var (c, t') := AfterLookup(cfg, job, false, t, now);
      && (c.Done? || c == ReadWindow(job)) && t'.keys == t.keys && job.id !in t'.jobs
      && (!c.Done? ==> AfterLookup(cfg, job, true, t', now) == (Done(CapReached), t')
                       || !Marked(t', KeyFor(job), now - cfg.window))
  {
    var k := KeyFor(job);
    if Marked(t, k, now - cfg.window) && t.keys[k].jobId in t.jobs {
      EvictTransaction(t, t.jobs[t.keys[k].jobId]);
    }
  }

  lemma SoloSubmit(cfg: Config, job: Job, t: Table, now: real, n: nat)
    requires n >= 12 && WellKeyed(t) && job.id !in t.jobs
    ensures Solo(cfg, Start(Submit(job)), t, now, n) == Submitted(cfg, job, t, now)
  {
    if !job.HasKey() {
      SoloInsert(cfg, job, t, now, n);
      return;
    }
    AfterEviction(cfg, job, t, now);
    var m := SoloLookup(cfg, job, false, t, now, n);
    var (c, t') := AfterLookup(cfg, job, false, t, now);
    if c == ReadWindow(job) {
      SoloInsert(cfg, job, t', now, m);
      if Marked(t', KeyFor(job), now - cfg.window) {
        var rest := SoloLookup(cfg, job, true, t', now, m - 2);
      }
    }
  }

  // --- against the in-memory store ---

  /** What the in-memory store answers at that time. */
  ghost predicate AtomicReply(cfg: Config, t: Table, job: Job, now: real, r: Reply) {
    var jobs, answers := Forget(t.jobs), AnswersTo(cfg, t, job, now);
    if answers != {} then r.JobExisting? && exists id :: id in answers && jobs[id] == r.job
    else if |Counting(Cleaned(jobs, now), job.ownerKey)| >= cfg.cap then r == CapReached
    else r == JobCreated(job)
  }

  /** The jobs of the owner that the in-memory store counts. */
  function Live(t: Table, owner: Owner, now: real): set<JobId> {
    Counting(Cleaned(Forget(t.jobs), now), owner)
  }

  predicate MarkerIsThere(cfg: Config, t: Table, job: Job, now: real) {
    job.HasKey() && Marked(t, KeyFor(job), now - cfg.window)
  }

  /** At every moment of every run, and for any new job: when no stored job answers its key, the table
      store creates the job exactly when the owner has room and the key has no marker in the window, and
      reports the cap otherwise. */
  lemma SubmissionsEnd(cfg: Config, ws: seq<World>, ms: seq<Move>, i: nat, job: Job, n: nat)
    requires Run(cfg, ws, ms) && i < |ws| && n >= 12 && CanCall(ws[i], Submit(job))
    ensures
      var t, now := ws[i].table, ws[i].now;
      var c := Solo(cfg, Start(Submit(job)), t, now, n).0;
      && c.Done?
      && (AnswersTo(cfg, t, job, now) != {} ==> AtomicReply(cfg, t, job, now, c.reply))
      && (AnswersTo(cfg, t, job, now) == {} ==>
            c.reply == if Room(t, job.ownerKey, cfg.cap) && !MarkerIsThere(cfg, t, job, now)
                       then JobCreated(job) else CapReached)
  {
    var t, now := ws[i].table, ws[i].now;
    RunInvariant(cfg, ws, ms, i);
    SoloSubmit(cfg, job, t, now, n);
    if job.HasKey() {
      var k := KeyFor(job);
      forall id
        ensures id in AnswersTo(cfg, t, job, now) <==>
          && Marked(t, k, now - cfg.window) && t.keys[k].jobId == id
          && id in t.jobs && !t.jobs[id].job.Evictable(now)
      {
        AnsweringIsMarked(cfg, ws, ms, i, job, id);
      }
    }
  }

  /** At every moment of every run, and for any new job: the table store's reply is one that the in-memory
      store gives, except exactly when no stored job answers the key and
      - the owner is below the cap without its expired jobs, but either the key's marker lies in the window
        or the expired jobs still hold slots (the table store then reports the cap), or
      - the cap is not positive, the owner has no counter and the key no marker in the window (the table
        store then creates the job). */
  lemma StoresAgreeExactly(cfg: Config, ws: seq<World>, ms: seq<Move>, i: nat, job: Job, n: nat)
    requires Run(cfg, ws, ms) && i < |ws| && n >= 12 && CanCall(ws[i], Submit(job))
    ensures
      var t, now, owner := ws[i].table, ws[i].now, job.ownerKey;
      var c := Solo(cfg, Start(Submit(job)), t, now, n).0;
      c.Done? && (!AtomicReply(cfg, t, job, now, c.reply) <==>
                    && AnswersTo(cfg, t, job, now) == {}
                    && if MarkerIsThere(cfg, t, job, now) then |Live(t, owner, now)| < cfg.cap
                       else |Live(t, owner, now)| < cfg.cap <= Slots(t, owner) || (cfg.cap <= 0 && owner !in t.slots))
  {
    var t, now, owner := ws[i].table, ws[i].now, job.ownerKey;
    SubmissionsEnd(cfg, ws, ms, i, job, n);
    RunInvariant(cfg, ws, ms, i);
    FewerAfterCleaning(Forget(t.jobs), now, owner);
    assert Slots(t, owner) == |Counting(Forget(t.jobs), owner)|;
  }

  lemma FewerAfterCleaning(jobs: Jobs, now: real, owner: Owner)
    ensures |Counting(Cleaned(jobs, now), owner)| <= |Counting(jobs, owner)|
  {
    SubsetIsSmaller(Counting(Cleaned(jobs, now), owner), Counting(jobs, owner));
  }

  lemma {:induction false} SubsetIsSmaller(a: set<JobId>, b: set<JobId>)
    requires a <= b
    ensures |a| <= |b|
  {
    if a != {} {
      var x :| x in a;
      SubsetIsSmaller(a - {x}, b - {x});
    }
  }

  /** At the inserting step itself, in the middle of any interleaving: the insertion is refused exactly
      when the owner has no room or the key's marker lies in the window. */
  lemma InsertIsRefused(cfg: Config, ws: seq<World>, ms: seq<Move>, i: nat)
    requires Run(cfg, ws, ms) && i < |ms| && ms[i].Proceed? && ws[i].clients[ms[i].who].Insert?
    ensures
      var c, t := ws[i].clients[ms[i].who], ws[i].table;
      ws[i + 1].clients[ms[i].who] != Done(JobCreated(c.job)) <==>
        || !Room(t, c.job.ownerKey, cfg.cap)
        || (c.job.HasKey() && Marked(t, KeyFor(c.job), c.windowStart))
  {
    RunInvariant(cfg, ws, ms, i);
    assert Allowed(ws[i], ms[i]) && ws[i + 1] == After(cfg, ws[i], ms[i]);
    var c := ws[i].clients[ms[i].who];
    assert ClientOk(cfg, ws[i], c);
    InsertTransaction(ws[i].table, c.job, cfg.cap, c.windowStart);
  }

  // --- runs in which the stores differ ---

  predicate NewJob(job: Job, now: real) {
    job.state == Queued && !job.workerActive && job.createdAt <= now
  }

  lemma SoloDelete(cfg: Config, id: JobId, t: Table, now: real, n: nat)
    requires n >= 2 && WellKeyed(t) && id in t.jobs
    ensures Solo(cfg, Start(Discard(id)), t, now, n) == (Done(Deleted(true)), Effect(Removed(id), t))
  {
    OneStep(cfg, Find(id), t, now, n);
    OneStep(cfg, Drop(t.jobs[id]), t, now, n - 1);
    EvictTransaction(t, t.jobs[id]);
  }

  /** One client with an empty table, at any time. */
  lemma FirstWorld(cfg: Config, now: real) returns (ws: seq<World>, ms: seq<Move>)
    ensures Run(cfg, ws, ms) && ms == []
    ensures ws[0].table == EMPTY && ws[0].now == now && ws[0].issued == {} && ws[0].clients == map[0 := Idle]
  {
    ws, ms := [World(EMPTY, now, map[0 := Idle], {}, {}, [])], [];
  }

  lemma SubmitFirst(cfg: Config, now: real, job: Job) returns (ws: seq<World>, ms: seq<Move>)
    requires Room(EMPTY, job.ownerKey, cfg.cap) && NewJob(job, now)
    ensures Run(cfg, ws, ms)
    ensures
      var w := ws[|ms|];
      && w.clients == map[0 := Done(JobCreated(job))] && w.now == now && w.issued == {job.id}
      && w.table == Effect(Inserted(job, now - cfg.window), EMPTY)
  {
    var ws0, ms0 := FirstWorld(cfg, now);
    RunInvariant(cfg, ws0, ms0, 0);
    SoloSubmit(cfg, job, EMPTY, now, 12);
    ws, ms := CallGoesOn(cfg, ws0, ms0, 0, Submit(job), 12);
  }

  /** A job is submitted and deleted; its marker stays. */
  lemma SubmitThenDelete(cfg: Config, now: real, job: Job) returns (ws: seq<World>, ms: seq<Move>)
    requires cfg.cap >= 1 && NewJob(job, now) && job.HasKey()
    ensures Run(cfg, ws, ms)
    ensures
      var w := ws[|ms|];
      && w.clients == map[0 := Done(Deleted(true))] && w.now == now && w.issued == {job.id}
      && w.table.jobs == map[] && w.table.keys == map[KeyFor(job) := Marker(job.id, job.createdAt)]
  {
    var ws1, ms1 := SubmitFirst(cfg, now, job);
    var t := Effect(Inserted(job, now - cfg.window), EMPTY);
    assert t.jobs == map[job.id := Item(job, 1)];
    SoloDelete(cfg, job.id, t, now, 2);
    ws, ms := CallGoesOn(cfg, ws1, ms1, 0, Discard(job.id), 2);
    assert ws[|ms|].table == Effect(Removed(job.id), t);
  }

  lemma RefusedWithoutJobs(cfg: Config, job: Job, t: Table, now: real)
    requires job.HasKey() && Marked(t, KeyFor(job), now - cfg.window) && t.jobs == map[]
    ensures Submitted(cfg, job, t, now) == (Done(CapReached), t) && AnswersTo(cfg, t, job, now) == {}
  {
  }

  /** A job is submitted and deleted, and its key is used again inside the window: the submission ends
      with the cap error, although nothing answers the key and the owner has no job at all. */
  lemma MarkerOutlivesJob(cfg: Config, now: real, first: Job, second: Job)
    returns (ws: seq<World>, ms: seq<Move>)
    requires cfg.cap >= 1 && NewJob(first, now) && NewJob(second, now) && first.id != second.id
    requires first.HasKey() && second.HasKey() && KeyFor(first) == KeyFor(second)
    requires first.createdAt >= now - cfg.window
    ensures Run(cfg, ws, ms)
    ensures
      var w := ws[|ms|];
      && w.clients == map[0 := Done(CapReached)] && w.now == now && w.table.jobs == map[]
      && AnswersTo(cfg, w.table, second, now) == {} && Slots(w.table, second.ownerKey) == 0
  {
    var ws0, ms0 := SubmitThenDelete(cfg, now, first);
    var w := ws0[|ms0|];
    SlotCounterIsExact(cfg, ws0, ms0, |ms0|, second.ownerKey);
    assert Counting(Forget(w.table.jobs), second.ownerKey) == {};
    RunInvariant(cfg, ws0, ms0, |ms0|);
    SoloSubmit(cfg, second, w.table, now, 12);
    RefusedWithoutJobs(cfg, second, w.table, now);
    ws, ms := CallGoesOn(cfg, ws0, ms0, 0, Submit(second), 12);
  }

  /** Time passes. */
  lemma TimeGoesOn(cfg: Config, ws: seq<World>, ms: seq<Move>, later: real) returns (ws': seq<World>, ms': seq<Move>)
    requires Run(cfg, ws, ms) && ws[|ms|].now <= later
    ensures Run(cfg, ws', ms') && ws'[|ms'|] == ws[|ms|].(now := later)
  {
    ws', ms' := ws + [ws[|ms|].(now := later)], ms + [Tick(later)];
  }

  /** A job that has expired without being read still holds its slot: with a cap of one the owner's next
      submission ends with the cap error, although the in-memory store would count none of its jobs. */
  lemma ExpiredJobHoldsTheSlot(cfg: Config, now: real, later: real, first: Job, second: Job)
    returns (ws: seq<World>, ms: seq<Move>)
    requires cfg.cap == 1 && NewJob(first, now) && NewJob(second, later) && first.id != second.id
    requires now <= later && first.expiresAt < later && first.ownerKey == second.ownerKey && !second.HasKey()
    ensures Run(cfg, ws, ms)
    ensures
      var w := ws[|ms|];
      && w.clients == map[0 := Done(CapReached)] && w.now == later
      && AnswersTo(cfg, w.table, second, later) == {} && Live(w.table, second.ownerKey, later) == {}
  {
    var ws1, ms1 := SubmitFirst(cfg, now, first);
    var t := Effect(Inserted(first, now - cfg.window), EMPTY);
    assert t.jobs == map[first.id := Item(first, 1)];
    var ws2, ms2 := TimeGoesOn(cfg, ws1, ms1, later);
    RunInvariant(cfg, ws2, ms2, |ms2|);
    SoloSubmit(cfg, second, t, later, 12);
    ws, ms := CallGoesOn(cfg, ws2, ms2, 0, Submit(second), 12);
  }

  /** With a cap that is not positive the first job of an owner is still let in. */
  lemma FirstJobBeatsTheCap(cfg: Config, now: real, job: Job) returns (ws: seq<World>, ms: seq<Move>)
    requires cfg.cap <= 0 && NewJob(job, now)
    ensures Run(cfg, ws, ms) && ws[|ms|].clients == map[0 := Done(JobCreated(job))]
    ensures |Counting(Forget(ws[|ms|].table.jobs), job.ownerKey)| == 1 > cfg.cap
  {
    ws, ms := SubmitFirst(cfg, now, job);
    SlotCounterIsExact(cfg, ws, ms, |ms|, job.ownerKey);
  }
}
