/** What every interleaving of clients of the shared table guarantees. */
module DynamoTheorems {
  import opened Wrappers
  import opened ExecutionJobs
  import opened AtomicJobStore
  import opened DynamoTable
  import opened DynamoProtocol

  /** A step that commits `e`, and a step that leaves the table alone. */
  ghost predicate Commits(cfg: Config, w: World, w': World, e: Event) {
    && w'.log == w.log + [e]
    && Committable(e, w.table, cfg.cap)
    && w'.table == Effect(e, w.table)
    && w'.born == (if e.Inserted? then w.born + {e.job.id} else w.born)
    && (e.Inserted? ==> e.job.id !in w.born)
  }

  ghost predicate CommitsOne(cfg: Config, w: World, w': World) {
    exists e :: Commits(cfg, w, w', e)
  }

  ghost predicate Quiet(w: World, w': World) {
    w'.table == w.table && w'.born == w.born && w'.log == w.log
  }

  /** On every run an owner's slot counter is exactly the number of that owner's stored jobs that
      are active or have a live worker, and never exceeds the cap. */
  lemma SlotCounterIsExact(cfg: Config, ws: seq<World>, ms: seq<Move>, i: nat, owner: Owner)
    requires Run(cfg, ws, ms) && i < |ws|
    ensures Slots(ws[i].table, owner) == |Counting(Forget(ws[i].table.jobs), owner)|
    ensures |Counting(Forget(ws[i].table.jobs), owner)| <= Limit(cfg.cap)
  {
    RunInvariant(cfg, ws, ms, i);
    assert Slots(ws[i].table, owner) <= Limit(cfg.cap);
  }

  /** The stored jobs are, on every run, what the atomic store would hold after the logged
      changes, each of which the atomic store could have made when it was logged. */
  lemma RunRefinesAtomicStore(cfg: Config, ws: seq<World>, ms: seq<Move>, i: nat)
    requires Run(cfg, ws, ms) && i < |ws|
    ensures Legal(ws[i].log) && Forget(ws[i].table.jobs) == Replay(ws[i].log)
    ensures i + 1 < |ws| ==>
      || Quiet(ws[i], ws[i + 1])
      || CommitsOne(cfg, ws[i], ws[i + 1])
  {
    RunInvariant(cfg, ws, ms, i);
    if i + 1 < |ws| {
      StepChange(cfg, ws, ms, i);
    }
  }

  /** The reply of a successful `mutate` is the update applied to the record current at commit,
      and that record is the one stored afterwards: no concurrent write is overwritten. */
  lemma CommittedUpdateIsOfCurrentRecord(cfg: Config, ws: seq<World>, ms: seq<Move>, i: nat)
    requires Run(cfg, ws, ms) && i < |ms| && ms[i].Proceed?
    requires ws[i].clients[ms[i].who].Commit?
    ensures
      var c := ws[i].clients[ms[i].who];
      var id := c.item.job.id;
      var c' := ws[i + 1].clients[ms[i].who];
      if id in ws[i].table.jobs && ws[i].table.jobs[id].version == c.item.version then
        && c' == Done(JobUpdated(c.fn(ws[i].table.jobs[id].job), c.applied + [c.item.job]))
        && ws[i + 1].table.jobs ==
           ws[i].table.jobs[id := Item(c.fn(ws[i].table.jobs[id].job), ws[i].table.jobs[id].version + 1)]
      else
        && ws[i + 1].table == ws[i].table
        && (c'.Read? || c' == Done(Contended(c.applied + [c.item.job])))
  {
    RunInvariant(cfg, ws, ms, i);
    assert Allowed(ws[i], ms[i]) && ws[i + 1] == After(cfg, ws[i], ms[i]);
    var c := ws[i].clients[ms[i].who];
    assert ClientOk(cfg, ws[i], c);
    assert SameIdentity(c.item.job, c.fn(c.item.job));
    CommitIsUpdate(ws[i].table, c.fn, c.item, c.clock);
    UpdateTransaction(ws[i].table, c.fn(c.item.job), c.item);
  }

  /** Along a run a stored record's version never falls, and a version names one content. */
  lemma {:induction false} VersionsIncrease(cfg: Config, ws: seq<World>, ms: seq<Move>, i: nat, j: nat, id: JobId)
    requires Run(cfg, ws, ms) && i <= j < |ws|
    requires id in ws[i].table.jobs
    ensures id in ws[j].born
    ensures id in ws[j].table.jobs ==>
      && ws[i].table.jobs[id].version <= ws[j].table.jobs[id].version
      && (ws[i].table.jobs[id].version == ws[j].table.jobs[id].version ==>
            ws[i].table.jobs[id] == ws[j].table.jobs[id])
  {
    RunInvariant(cfg, ws, ms, i);
    StaysFresh(cfg, ws, ms, i, j, ws[i].table.jobs[id]);
  }

  lemma {:induction false} StaysFresh(cfg: Config, ws: seq<World>, ms: seq<Move>, i: nat, j: nat, item: Item)
    requires Run(cfg, ws, ms) && i <= j < |ws| && Fresh(ws[i], item)
    ensures Fresh(ws[j], item)
    decreases j
  {
    if i < j {
      StaysFresh(cfg, ws, ms, i, j - 1, item);
      StepKeepsFresh(cfg, ws, ms, j - 1, item);
    }
  }

  lemma StepKeepsFresh(cfg: Config, ws: seq<World>, ms: seq<Move>, i: nat, item: Item)
    requires Run(cfg, ws, ms) && i < |ms| && Fresh(ws[i], item)
    ensures Fresh(ws[i + 1], item)
  {
    RunKeyed(cfg, ws, ms, i);
    StepChange(cfg, ws, ms, i);
    if !Quiet(ws[i], ws[i + 1]) {
      var e :| Commits(cfg, ws[i], ws[i + 1], e);
      ChangeKeepsFresh(ws[i], ws[i + 1], e, cfg.cap, item);
    }
  }

  lemma RunKeyed(cfg: Config, ws: seq<World>, ms: seq<Move>, i: nat)
    requires Run(cfg, ws, ms) && i < |ws|
    ensures WellKeyed(ws[i].table) && ws[i].table.jobs.Keys <= ws[i].born
  {
    RunInvariant(cfg, ws, ms, i);
  }

  lemma StepChange(cfg: Config, ws: seq<World>, ms: seq<Move>, i: nat)
    requires Run(cfg, ws, ms) && i < |ms|
    ensures
      || Quiet(ws[i], ws[i + 1])
      || CommitsOne(cfg, ws[i], ws[i + 1])
  {
    RunInvariant(cfg, ws, ms, i);
    assert Allowed(ws[i], ms[i]) && ws[i + 1] == After(cfg, ws[i], ms[i]);
    if ms[i].Proceed? {
      assert ClientOk(cfg, ws[i], ws[i].clients[ms[i].who]);
      StepCommitsOneChange(cfg, ws[i], ms[i].who);
      OnlyPendingIsInserted(cfg, ws[i].clients[ms[i].who], ws[i].table, ws[i].now);
      var o := Next(cfg, ws[i].clients[ms[i].who], ws[i].table, ws[i].now);
      if o.change.Some? {
        assert Commits(cfg, ws[i], ws[i + 1], o.change.value);
      }
    }
  }

  /** A job that was stored once and is gone is never stored again: no late write of a client
      that still holds the old record resurrects it. */
  lemma {:induction false} DeletedStaysDeleted(cfg: Config, ws: seq<World>, ms: seq<Move>, i: nat, j: nat, id: JobId)
    requires Run(cfg, ws, ms) && i <= j < |ws|
    requires id in ws[i].born && id !in ws[i].table.jobs
    ensures id in ws[j].born && id !in ws[j].table.jobs
    decreases j
  {
    if i < j {
      DeletedStaysDeleted(cfg, ws, ms, i, j - 1, id);
      StepKeepsGone(cfg, ws, ms, j - 1, id);
    }
  }

  lemma StepKeepsGone(cfg: Config, ws: seq<World>, ms: seq<Move>, i: nat, id: JobId)
    requires Run(cfg, ws, ms) && i < |ms|
    requires id in ws[i].born && id !in ws[i].table.jobs
    ensures id in ws[i + 1].born && id !in ws[i + 1].table.jobs
  {
    RunKeyed(cfg, ws, ms, i);
    StepChange(cfg, ws, ms, i);
    if !Quiet(ws[i], ws[i + 1]) {
      var e :| Commits(cfg, ws[i], ws[i + 1], e);
      ChangeKeepsGone(e, ws[i].table, cfg.cap, id);
    }
  }

  lemma ChangeKeepsGone(e: Event, t: Table, cap: int, id: JobId)
    requires WellKeyed(t) && Committable(e, t, cap) && id !in t.jobs && (e.Inserted? ==> e.job.id != id)
    ensures id !in Effect(e, t).jobs
  {
    if e.Updated? {
      assert SameIdentity(t.jobs[e.id].job, e.fn(t.jobs[e.id].job));
    }
  }

  /** Committed updates of one job in a log. */
  function Updates(log: seq<Event>, id: JobId): nat {
    if log == [] then 0
    else Updates(log[..|log| - 1], id) + (if log[|log| - 1].Updated? && log[|log| - 1].id == id then 1 else 0)
  }

  lemma UpdatesExtend(log: seq<Event>, e: Event, id: JobId)
    ensures Updates(log + [e], id) == Updates(log, id) + (if e.Updated? && e.id == id then 1 else 0)
  {
    assert (log + [e])[..|log|] == log;
  }

  predicate VersionCounted(w: World, id: JobId) {
    && (id !in w.born ==> Updates(w.log, id) == 0)
    && (id in w.table.jobs ==> w.table.jobs[id].version == 1 + Updates(w.log, id))
  }

  /** No update is lost: a stored job's version counts its committed updates one by one. */
  lemma {:induction false} VersionCountsUpdates(cfg: Config, ws: seq<World>, ms: seq<Move>, i: nat, id: JobId)
    requires Run(cfg, ws, ms) && i < |ws|
    ensures VersionCounted(ws[i], id)
  {
    if i > 0 {
      VersionCountsUpdates(cfg, ws, ms, i - 1, id);
      StepKeepsVersionCount(cfg, ws, ms, i - 1, id);
    }
  }

  lemma StepKeepsVersionCount(cfg: Config, ws: seq<World>, ms: seq<Move>, i: nat, id: JobId)
    requires Run(cfg, ws, ms) && i < |ms| && VersionCounted(ws[i], id)
    ensures VersionCounted(ws[i + 1], id)
  {
    RunKeyed(cfg, ws, ms, i);
    StepChange(cfg, ws, ms, i);
    if !Quiet(ws[i], ws[i + 1]) {
      var e :| Commits(cfg, ws[i], ws[i + 1], e);
      ChangeCounts(cfg, ws[i], ws[i + 1], e, id);
    }
  }

  lemma ChangeCounts(cfg: Config, w: World, w': World, e: Event, id: JobId)
    requires WellKeyed(w.table) && w.table.jobs.Keys <= w.born
    requires Commits(cfg, w, w', e) && VersionCounted(w, id)
    ensures VersionCounted(w', id)
  {
    UpdatesExtend(w.log, e, id);
    if e.Updated? {
      assert SameIdentity(w.table.jobs[e.id].job, e.fn(w.table.jobs[e.id].job));
    }
  }

  /** While a job created under an owner's key is stored and inside the window, no interleaving
      of submissions inserts another job for that key. */
  lemma KeyIsInsertedOncePerWindow(cfg: Config, ws: seq<World>, ms: seq<Move>, i: nat, e: Event, k: (Owner, string))
    requires Run(cfg, ws, ms) && i < |ms|
    requires ws[i + 1].log == ws[i].log + [e] && e.Inserted? && KeyOf(e.job, k)
    ensures forall id | id in ws[i].table.jobs && KeyOf(ws[i].table.jobs[id].job, k) ::
      ws[i].table.jobs[id].job.createdAt < ws[i].now - cfg.window
  {
    RunInvariant(cfg, ws, ms, i);
    assert Allowed(ws[i], ms[i]) && ws[i + 1] == After(cfg, ws[i], ms[i]);
    assert ms[i].Proceed?;
    var c := ws[i].clients[ms[i].who];
    assert ClientOk(cfg, ws[i], c);
    StepCommitsOneChange(cfg, ws[i], ms[i].who);
    OnlyPendingIsInserted(cfg, c, ws[i].table, ws[i].now);
    var o := Next(cfg, c, ws[i].table, ws[i].now);
    assert ws[i + 1].log[|ws[i].log|] == e;
    assert o.change == Some(e);
  }

  /** `delete` always answers True once it has read the record, but the record is gone only when
      nobody wrote it in between. */
  lemma DeleteRemovesExactlyUnchangedRecords(cfg: Config, ws: seq<World>, ms: seq<Move>, i: nat)
    requires Run(cfg, ws, ms) && i < |ms| && ms[i].Proceed?
    requires ws[i].clients[ms[i].who].Drop?
    ensures ws[i + 1].clients[ms[i].who] == Done(Deleted(true))
    ensures
      var item := ws[i].clients[ms[i].who].item;
      item.job.id !in ws[i + 1].table.jobs <==>
      (item.job.id in ws[i].table.jobs ==> ws[i].table.jobs[item.job.id].version == item.version)
  {
    assert Allowed(ws[i], ms[i]) && ws[i + 1] == After(cfg, ws[i], ms[i]);
    EvictTransaction(ws[i].table, ws[i].clients[ms[i].who].item);
  }

  // --- a schedule in which `delete` answers True and the job is still stored ---

  function OneJob(job: Job, version: int): Table {
    Table(map[job.id := Item(job, version)], map[], map[job.ownerKey := 1])
  }

  function TwoClients(job: Job, t: Table, first: Client, second: Client, log: seq<Event>): World {
    World(t, 0.0, map[0 := first, 1 := second], {job.id}, if log == [] then {} else {job.id}, log)
  }

  lemma SubmitSchedule(cfg: Config, job: Job) returns (ws: seq<World>, ms: seq<Move>, log: seq<Event>)
    requires cfg == Config(60.0, 3)
    requires job.state == Queued && !job.workerActive && job.createdAt <= 0.0 && !job.HasKey()
    ensures Run(cfg, ws, ms) && log != []
    ensures ws[|ms|] == TwoClients(job, OneJob(job, 1), Done(JobCreated(job)), Idle, log)
  {
    log := [Inserted(job, -60.0)];
    var w0 := World(EMPTY, 0.0, map[0 := Idle, 1 := Idle], {}, {}, []);
    var w1 := TwoClients(job, EMPTY, ReadWindow(job), Idle, []);
    var w2 := TwoClients(job, EMPTY, Insert(job, -60.0), Idle, []);
    var w3 := TwoClients(job, OneJob(job, 1), Done(JobCreated(job)), Idle, log);
    assert After(cfg, w0, Begin(0, Submit(job))) == w1;
    assert After(cfg, w1, Proceed(0)) == w2;
    InsertTransaction(w2.table, job, cfg.cap, -60.0);
    assert Effect(Inserted(job, -60.0), EMPTY) == OneJob(job, 1);
    assert After(cfg, w2, Proceed(0)) == w3;
    ws, ms := [w0, w1, w2, w3], [Begin(0, Submit(job)), Proceed(0), Proceed(0)];
  }

  lemma ExtendRun(cfg: Config, ws: seq<World>, ms: seq<Move>, m: Move, w: World)
    returns (ws': seq<World>, ms': seq<Move>)
    requires Run(cfg, ws, ms) && Allowed(ws[|ms|], m) && After(cfg, ws[|ms|], m) == w
    ensures Run(cfg, ws', ms') && ws'[|ms'|] == w
  {
    ws', ms' := ws + [w], ms + [m];
  }

  lemma ClaimSchedule(cfg: Config, job: Job) returns (ws: seq<World>, ms: seq<Move>, log: seq<Event>)
    requires cfg == Config(60.0, 3)
    requires job.state == Queued && !job.workerActive && job.createdAt <= 0.0 && !job.HasKey() && job.expiresAt > 0.0
    ensures Run(cfg, ws, ms) && log != []
    ensures ws[|ms|] ==
            TwoClients(job, OneJob(job, 1), Drop(Item(job, 1)), Commit(Claim, Item(job, 1), [], 0.0), log)
  {
    ApplicationUpdatesAreLawful(Stage(Queued), 0.0);
    var read := Item(job, 1);
    ws, ms, log := SubmitSchedule(cfg, job);
    var t := OneJob(job, 1);
    ws, ms := ExtendRun(cfg, ws, ms, Begin(0, Discard(job.id)), TwoClients(job, t, Find(job.id), Idle, log));
    ws, ms := ExtendRun(cfg, ws, ms, Proceed(0), TwoClients(job, t, Drop(read), Idle, log));
    ws, ms := ExtendRun(cfg, ws, ms, Begin(1, Change(job.id, Claim)),
                        TwoClients(job, t, Drop(read), Read(job.id, Claim, []), log));
    ws, ms := ExtendRun(cfg, ws, ms, Proceed(1), TwoClients(job, t, Drop(read), Judge(Claim, read, []), log));
    ws, ms := ExtendRun(cfg, ws, ms, Proceed(1), TwoClients(job, t, Drop(read), Commit(Claim, read, [], 0.0), log));
  }

  lemma ClaimThenDrop(cfg: Config, job: Job, log: seq<Event>) returns (w1: World, w2: World)
    requires log != [] && job.state == Queued && !job.workerActive
    ensures
      var w0 := TwoClients(job, OneJob(job, 1), Drop(Item(job, 1)), Commit(Claim, Item(job, 1), [], 0.0), log);
      w1 == After(cfg, w0, Proceed(1)) && w2 == After(cfg, w1, Proceed(0))
    ensures w1.clients.Keys == {0, 1}
    ensures w2.clients == map[0 := Done(Deleted(true)), 1 := Done(JobUpdated(Claim(job), [job]))]
    ensures job.id in w2.table.jobs
  {
    var w0 := TwoClients(job, OneJob(job, 1), Drop(Item(job, 1)), Commit(Claim, Item(job, 1), [], 0.0), log);
    UpdateTransaction(w0.table, Claim(job), Item(job, 1));
    assert [] + [job] == [job];
    w1 := After(cfg, w0, Proceed(1));
    assert w1.table.jobs == map[job.id := Item(Claim(job), 2)];
    EvictTransaction(w1.table, Item(job, 1));
    w2 := After(cfg, w1, Proceed(0));
  }

  lemma DeleteCanLeaveTheJob(job: Job)
    requires job.state == Queued && !job.workerActive && job.createdAt <= 0.0 && !job.HasKey() && job.expiresAt > 0.0
    ensures exists cfg: Config, ws: seq<World>, ms: seq<Move> ::
      && Run(cfg, ws, ms)
      && ws[|ms|].clients == map[0 := Done(Deleted(true)), 1 := Done(JobUpdated(Claim(job), [job]))]
      && job.id in ws[|ms|].table.jobs
  {
    var cfg := Config(60.0, 3);
    var ws, ms, log := ClaimSchedule(cfg, job);
    var w1, w2 := ClaimThenDrop(cfg, job, log);
    ws, ms := ExtendRun(cfg, ws, ms, Proceed(1), w1);
    ws, ms := ExtendRun(cfg, ws, ms, Proceed(0), w2);
  }
}
