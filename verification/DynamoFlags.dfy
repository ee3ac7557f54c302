/** What a caller of `mutate` learns from its closure when the table store applies it again: the
    flags that `run_job` and `finalize_job` keep (backend/app/services/execution_job_service.py:381-391,
    backend/app/services/job_finalizer.py:45-57) and the one that `_write_state` keeps
    (execution_job_service.py:199-227). */
module DynamoFlags {
  import opened Wrappers
  import opened ExecutionJobs
  import opened AtomicJobStore
  import opened DynamoTable
  import opened DynamoProtocol
  import opened DynamoTheorems
  import opened DynamoSolo

  /** A closure's flag after it was applied to these records: raised at each record that qualifies,
      and lowered first at every application when the closure resets it. */
  function Flag(resets: bool, marks: Job -> bool, applied: seq<Job>): bool
    decreases |applied|
  {
    if applied == [] then false
    else
      var before := Flag(resets, marks, applied[..|applied| - 1]);
      (if resets then false else before) || marks(applied[|applied| - 1])
  }

  predicate AnyOf(marks: Job -> bool, applied: seq<Job>) {
    exists i :: 0 <= i < |applied| && marks(applied[i])
  }

  /** A flag that is reset tells of the last record, one that is not of any record. */
  lemma {:induction false} FlagTells(marks: Job -> bool, applied: seq<Job>)
    ensures Flag(true, marks, applied) <==> applied != [] && marks(applied[|applied| - 1])
    ensures Flag(false, marks, applied) <==> AnyOf(marks, applied)
    decreases |applied|
  {
    if applied != [] {
      FlagTells(marks, applied[..|applied| - 1]);
    }
  }

  predicate Ends(r: Reply) {
    r.JobUpdated? || r.NothingToUpdate? || r.Contended?
  }

  /** The attempts of a call whose write was lost. */
  function Lost(r: Reply): seq<Job>
    requires Ends(r)
  {
    if r.JobUpdated? && r.applied != [] then r.applied[..|r.applied| - 1] else r.applied
  }

  /** The write that went through made the claim: the record it replaced qualified. */
  predicate Claims(r: Reply, marks: Job -> bool) {
    r.JobUpdated? && r.applied != [] && marks(r.applied[|r.applied| - 1])
  }

  /** A flag that is not reset is up without a claim exactly when no claim was made and one of the lost
      attempts read a record that still qualified; a flag that is reset is up after a successful
      update exactly when that update made the claim. */
  lemma FlagWithoutClaim(r: Reply, marks: Job -> bool)
    requires Ends(r)
    ensures Flag(false, marks, r.applied) && !Claims(r, marks) <==> !Claims(r, marks) && AnyOf(marks, Lost(r))
    ensures r.JobUpdated? ==> (Flag(true, marks, r.applied) <==> Claims(r, marks))
  {
    FlagTells(marks, r.applied);
    if r.JobUpdated? && r.applied != [] {
      var lost := Lost(r);
      assert forall i | 0 <= i < |lost| :: lost[i] == r.applied[i];
      if AnyOf(marks, r.applied) && !marks(r.applied[|r.applied| - 1]) {
        var i :| 0 <= i < |r.applied| && marks(r.applied[i]);
        assert marks(lost[i]);
      }
    }
  }

  // --- the records of lost attempts were stored ---

  /** The records a client has read for its update. */
  function ReadBy(c: Client): seq<Job> {
    match c
    case Read(_, _, applied) => applied
    case Judge(_, item, applied) => applied + [item.job]
    case Commit(_, item, applied, _) => applied + [item.job]
    case EvictUpdated(_, applied) => applied
    case Done(r) => if Ends(r) then r.applied else []
    case _ => []
  }

  predicate WasStored(ws: seq<World>, i: nat, j: Job) {
    exists k, id :: 0 <= k <= i < |ws| && id in ws[k].table.jobs && ws[k].table.jobs[id].job == j
  }

  /** A step adds at most the record it reads. */
  lemma NextReads(cfg: Config, c: Client, t: Table, now: real, j: Job)
    requires j in ReadBy(Next(cfg, c, t, now).client)
    ensures j in ReadBy(c) || exists id :: id in t.jobs && t.jobs[id].job == j
  {
  }

  /** What a call has read, in lost attempts too, was stored at the time. */
  lemma {:induction false} ReadsWereStored(cfg: Config, ws: seq<World>, ms: seq<Move>, i: nat, who: nat, j: Job)
    requires Run(cfg, ws, ms) && i < |ws| && who in ws[i].clients && j in ReadBy(ws[i].clients[who])
    ensures WasStored(ws, i, j)
  {
    if i > 0 {
      var w, m := ws[i - 1], ms[i - 1];
      assert Allowed(w, m) && ws[i] == After(cfg, w, m);
      if m.Proceed? && m.who == who {
        NextReads(cfg, w.clients[who], w.table, w.now, j);
      }
      if j in ReadBy(w.clients[who]) {
        ReadsWereStored(cfg, ws, ms, i - 1, who, j);
        var k, id :| 0 <= k <= i - 1 && id in ws[k].table.jobs && ws[k].table.jobs[id].job == j;
        assert id in ws[k].table.jobs;
      }
    }
  }

  /** At the end of any call of any run: its flag is up without a claim exactly when one of its lost
      attempts read a record that qualified, which was then a stored one, and the write that went
      through, if any, replaced one that did not. */
  lemma CallersFlag(cfg: Config, ws: seq<World>, ms: seq<Move>, i: nat, who: nat, marks: Job -> bool)
    requires Run(cfg, ws, ms) && i < |ws| && who in ws[i].clients
    requires ws[i].clients[who].Done? && Ends(ws[i].clients[who].reply)
    ensures
      var r := ws[i].clients[who].reply;
      && (Flag(false, marks, r.applied) && !Claims(r, marks) <==>
            !Claims(r, marks) && exists x :: 0 <= x < |Lost(r)| && marks(Lost(r)[x]))
      && forall x | 0 <= x < |Lost(r)| :: WasStored(ws, i, Lost(r)[x])
  {
    var r := ws[i].clients[who].reply;
    FlagWithoutClaim(r, marks);
    forall x | 0 <= x < |Lost(r)|
      ensures WasStored(ws, i, Lost(r)[x])
    {
      assert Lost(r)[x] in ReadBy(ws[i].clients[who]);
      ReadsWereStored(cfg, ws, ms, i, who, Lost(r)[x]);
    }
  }

  // --- two callers whose flags are both up ---

  predicate CanRace(w: World, id: JobId, a: nat, b: nat) {
    && a != b && a in w.clients && b in w.clients
    && (w.clients[a].Idle? || w.clients[a].Done?) && (w.clients[b].Idle? || w.clients[b].Done?)
    && id in w.table.jobs && w.now <= w.table.jobs[id].job.expiresAt
  }

  /** From every reachable moment at which a record is stored and two clients are free, both can apply
      one update, the second after losing a write: it has read the record before and after the
      first one's update. */
  lemma BothCanUpdate(cfg: Config, ws: seq<World>, ms: seq<Move>, id: JobId, fn: Job -> Job, a: nat, b: nat)
    returns (ws': seq<World>, ms': seq<Move>)
    requires Run(cfg, ws, ms) && Lawful(fn) && CanRace(ws[|ms|], id, a, b)
    ensures Run(cfg, ws', ms')
    ensures
      var j, w' := ws[|ms|].table.jobs[id].job, ws'[|ms'|];
      && w'.now == ws[|ms|].now && id in w'.table.jobs && w'.table.jobs[id].job == fn(fn(j))
      && a in w'.clients && w'.clients[a] == Done(JobUpdated(fn(j), [j]))
      && b in w'.clients && w'.clients[b] == Done(JobUpdated(fn(fn(j)), [j, fn(j)]))
  {
    var w := ws[|ms|];
    var t, now, item := w.table, w.now, w.table.jobs[id];
    var j := item.job;
    RunKeyed(cfg, ws, ms, |ms|);
    assert SameIdentity(j, fn(j)) && SameIdentity(fn(j), fn(fn(j)));
    SoloRead(cfg, id, fn, [], t, now);
    var ws1, ms1 := CallGoesOn(cfg, ws, ms, a, Change(id, fn), 2);
    var ws2, ms2 := CallGoesOn(cfg, ws1, ms1, b, Change(id, fn), 2);
    SoloCommit(cfg, fn, item, [], now, t, now);
    var ws3, ms3 := SoloGoesOn(cfg, ws2, ms2, a, 1);
    var t' := Effect(Updated(id, fn, now), t);
    assert [] + [j] == [j] && ws3[|ms3|].table == t' && t'.jobs[id] == Item(fn(j), item.version + 1);
    SoloSecond(cfg, id, fn, item, t', now);
    ws', ms' := SoloGoesOn(cfg, ws3, ms3, b, 4);
  }

  /** The second caller loses once and then goes through. */
  lemma SoloSecond(cfg: Config, id: JobId, fn: Job -> Job, item: Item, t: Table, now: real)
    requires Lawful(fn) && item.job.id == id && id in t.jobs && t.jobs[id] == Item(fn(item.job), item.version + 1)
    requires now <= item.job.expiresAt
    ensures
      var (c, t') := Solo(cfg, Commit(fn, item, [], now), t, now, 4);
      && c == Done(JobUpdated(fn(fn(item.job)), [item.job, fn(item.job)]))
      && id in t'.jobs && t'.jobs[id].job == fn(fn(item.job))
  {
    var j := item.job;
    assert SameIdentity(j, fn(j)) && SameIdentity(fn(j), fn(fn(j)));
    assert [] + [j] == [j] && [j] + [fn(j)] == [j, fn(j)];
    SoloCommit(cfg, fn, item, [], now, t, now);
    SoloSplits(cfg, Commit(fn, item, [], now), t, now, 1, 3);
    SoloRead(cfg, id, fn, [j], t, now);
    SoloSplits(cfg, Read(id, fn, [j]), t, now, 2, 1);
    SoloCommit(cfg, fn, t.jobs[id], [j], now, t, now);
  }

  /** Both flags are then up, when they are not reset and the record qualified at first, although at
      most the first caller made a claim. */
  lemma BothFlagsCanBeUp(cfg: Config, ws: seq<World>, ms: seq<Move>, id: JobId, fn: Job -> Job, marks: Job -> bool,
                         a: nat, b: nat)
    returns (ws': seq<World>, ms': seq<Move>)
    requires Run(cfg, ws, ms) && Lawful(fn) && CanRace(ws[|ms|], id, a, b)
    requires var j := ws[|ms|].table.jobs[id].job; marks(j) && !marks(fn(j))
    ensures Run(cfg, ws', ms')
    ensures
      var j, w' := ws[|ms|].table.jobs[id].job, ws'[|ms'|];
      && w'.now == ws[|ms|].now && id in w'.table.jobs && w'.table.jobs[id].job == fn(fn(j))
      && a in w'.clients && b in w'.clients && w'.clients[a].Done? && w'.clients[b].Done?
      && Ends(w'.clients[a].reply) && Ends(w'.clients[b].reply)
      && Flag(false, marks, w'.clients[a].reply.applied) && Flag(false, marks, w'.clients[b].reply.applied)
      && Claims(w'.clients[a].reply, marks) && !Claims(w'.clients[b].reply, marks)
  {
    ws', ms' := BothCanUpdate(cfg, ws, ms, id, fn, a, b);
    var j := ws[|ms|].table.jobs[id].job;
    FlagTells(marks, [j]);
    FlagTells(marks, [j, fn(j)]);
    assert marks([j][0]) && marks([j, fn(j)][0]);
  }

  predicate Claimable(j: Job) {
    j.state == Queued && !j.workerActive
  }

  /** Both callers have finished `mutate` with their flags up. */
  predicate BothStart(w: World, a: nat, b: nat) {
    && a in w.clients && b in w.clients && w.clients[a].Done? && w.clients[b].Done?
    && Ends(w.clients[a].reply) && Ends(w.clients[b].reply)
    && Flag(false, Claimable, w.clients[a].reply.applied) && Flag(false, Claimable, w.clients[b].reply.applied)
  }

  /** Two `run_job` calls on a queued job. */
  lemma TwoRunJobsCanStart(cfg: Config, ws: seq<World>, ms: seq<Move>, id: JobId, a: nat, b: nat)
    returns (ws': seq<World>, ms': seq<Move>)
    requires Run(cfg, ws, ms) && CanRace(ws[|ms|], id, a, b) && Claimable(ws[|ms|].table.jobs[id].job)
    ensures Run(cfg, ws', ms') && BothStart(ws'[|ms'|], a, b)
    ensures
      var j, w' := ws[|ms|].table.jobs[id].job, ws'[|ms'|];
      w'.now == ws[|ms|].now && id in w'.table.jobs && w'.table.jobs[id].job == Claim(j)
  {
    ApplicationUpdatesAreLawful(Stage(Queued), 0.0);
    ws', ms' := BothFlagsCanBeUp(cfg, ws, ms, id, Claim, Claimable, a, b);
  }

  // --- exclusivity on the stored record ---

  /** The step takes a stored record from one that qualifies to one that does not. */
  predicate ClaimStep(ws: seq<World>, i: nat, id: JobId, marks: Job -> bool)
    requires i + 1 < |ws|
  {
    && id in ws[i].table.jobs && id in ws[i + 1].table.jobs
    && marks(ws[i].table.jobs[id].job) && !marks(ws[i + 1].table.jobs[id].job)
  }

  predicate ReopenStep(ws: seq<World>, i: nat, id: JobId, marks: Job -> bool)
    requires i + 1 < |ws|
  {
    && id in ws[i].table.jobs && id in ws[i + 1].table.jobs
    && !marks(ws[i].table.jobs[id].job) && marks(ws[i + 1].table.jobs[id].job)
  }

  /** Between two claims on the stored record there is an update that made it claimable again. */
  lemma ClaimsAreReopened(cfg: Config, ws: seq<World>, ms: seq<Move>, id: JobId, marks: Job -> bool, a: nat, b: nat)
    returns (c: nat)
    requires Run(cfg, ws, ms) && a < b < |ms| && ClaimStep(ws, a, id, marks) && ClaimStep(ws, b, id, marks)
    ensures a < c < b && ReopenStep(ws, c, id, marks)
  {
    if forall c | a < c < b :: !ReopenStep(ws, c, id, marks) {
      StaysClaimed(cfg, ws, ms, id, marks, a, b);
    }
    c :| a < c < b && ReopenStep(ws, c, id, marks);
  }

  lemma {:induction false} StaysClaimed(cfg: Config, ws: seq<World>, ms: seq<Move>, id: JobId, marks: Job -> bool,
                                        a: nat, b: nat)
    requires Run(cfg, ws, ms) && a < b < |ws| && ClaimStep(ws, a, id, marks)
    requires forall c | a < c < b :: !ReopenStep(ws, c, id, marks)
    ensures id in ws[b].born && (id in ws[b].table.jobs ==> !marks(ws[b].table.jobs[id].job))
    decreases b
  {
    RunKeyed(cfg, ws, ms, b);
    if a + 1 < b {
      StaysClaimed(cfg, ws, ms, id, marks, a, b - 1);
      if id in ws[b - 1].table.jobs {
        assert !ReopenStep(ws, b - 1, id, marks);
        VersionsIncrease(cfg, ws, ms, b - 1, b, id);
      } else {
        StepKeepsGone(cfg, ws, ms, b - 1, id);
      }
    }
  }

  /** A claim on the record is the committed write of one caller, whose reply tells it. */
  lemma ClaimIsReplied(cfg: Config, ws: seq<World>, ms: seq<Move>, id: JobId, marks: Job -> bool, i: nat)
    requires Run(cfg, ws, ms) && i < |ms| && ClaimStep(ws, i, id, marks)
    ensures ms[i].Proceed? && ws[i + 1].clients[ms[i].who].Done?
    ensures
      var r := ws[i + 1].clients[ms[i].who].reply;
      && r.JobUpdated? && r.job == ws[i + 1].table.jobs[id].job && Claims(r, marks)
  {
    RunInvariant(cfg, ws, ms, i);
    assert Allowed(ws[i], ms[i]) && ws[i + 1] == After(cfg, ws[i], ms[i]);
    assert ms[i].Proceed?;
    var who := ms[i].who;
    var c := ws[i].clients[who];
    assert ClientOk(cfg, ws[i], c);
    StepCommitsOneChange(cfg, ws[i], who);
    OnlyPendingIsInserted(cfg, c, ws[i].table, ws[i].now);
    if c.Commit? {
      CommittedUpdateIsOfCurrentRecord(cfg, ws, ms, i);
      assert SameIdentity(c.item.job, c.fn(c.item.job));
    }
  }

  // --- the claims of the finalizer, on the stored record ---

  /** The step writes the finalizer's claim of time `now`. */
  predicate FinalizeStep(ws: seq<World>, i: nat, id: JobId, now: real)
    requires i + 1 < |ws|
  {
    && id in ws[i].table.jobs && id in ws[i + 1].table.jobs
    && MayFinalize(ws[i].table.jobs[id].job, now)
    && ws[i + 1].table.jobs[id].job == ClaimFinalizing(ws[i].table.jobs[id].job, now)
  }

  /** The step leaves the claim on the record alone or writes a new one. */
  ghost predicate KeepsClaim(ws: seq<World>, i: nat, id: JobId)
    requires i + 1 < |ws|
  {
    id in ws[i].table.jobs && id in ws[i + 1].table.jobs ==>
      || ws[i + 1].table.jobs[id].job.finalizingSince == ws[i].table.jobs[id].job.finalizingSince
      || exists now :: FinalizeStep(ws, i, id, now)
  }

  predicate ClaimedSince(w: World, id: JobId, first: real) {
    && id in w.born
    && (id in w.table.jobs ==>
          w.table.jobs[id].job.finalizingSince.Some? && w.table.jobs[id].job.finalizingSince.value >= first)
  }

  lemma ClaimStays(cfg: Config, ws: seq<World>, ms: seq<Move>, id: JobId, i: nat, first: real)
    requires Run(cfg, ws, ms) && i < |ms| && KeepsClaim(ws, i, id) && ClaimedSince(ws[i], id, first)
    ensures ClaimedSince(ws[i + 1], id, first)
  {
    if id in ws[i].table.jobs {
      VersionsIncrease(cfg, ws, ms, i, i + 1, id);
    } else {
      StepKeepsGone(cfg, ws, ms, i, id);
    }
  }

  lemma {:induction false} ClaimTimesGrow(cfg: Config, ws: seq<World>, ms: seq<Move>, id: JobId, a: nat, b: nat,
                                          first: real)
    requires Run(cfg, ws, ms) && a < b < |ws| && FinalizeStep(ws, a, id, first)
    requires forall c | a < c < b :: KeepsClaim(ws, c, id)
    ensures ClaimedSince(ws[b], id, first)
    decreases b
  {
    if a + 1 == b {
      RunKeyed(cfg, ws, ms, b);
    } else {
      ClaimTimesGrow(cfg, ws, ms, id, a, b - 1, first);
      ClaimStays(cfg, ws, ms, id, b - 1, first);
    }
  }

  /** Two finalizing claims on the stored record are more than the stale time apart. */
  lemma RecordedClaimsAreSpaced(cfg: Config, ws: seq<World>, ms: seq<Move>, id: JobId, a: nat, b: nat, first: real,
                                second: real)
    requires Run(cfg, ws, ms) && a < b < |ms| && FinalizeStep(ws, a, id, first) && FinalizeStep(ws, b, id, second)
    requires forall c | a < c < b :: KeepsClaim(ws, c, id)
    ensures second - first > STALE_CLAIM_SECONDS
  {
    ClaimTimesGrow(cfg, ws, ms, id, a, b, first);
  }
}
