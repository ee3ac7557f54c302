/** The store's own methods, run against an environment: whatever other clients commit between two
    accesses to the shared table (backend/app/repositories/dynamodb_job_store.py). By DynamoProtocol
    every such commit is one atomic change, so the environment of one access is a sequence of
    committable changes. */
module DynamoJobStore {
  import opened Wrappers
  import opened ExecutionJobs
  import opened AtomicJobStore
  import opened DynamoTable
  import opened DynamoProtocol
  import opened DynamoSchedules

  function Flat(groups: seq<seq<Event>>): seq<Event> {
    if groups == [] then [] else Flat(groups[..|groups| - 1]) + groups[|groups| - 1]
  }

  predicate Touches(es: seq<Event>, id: JobId) {
    exists i :: 0 <= i < |es| && !es[i].Inserted? && es[i].id == id
  }

  ghost predicate TableValid(t: Table, cap: int) {
    WellKeyed(t) && CountsExactly(t) && WithinCap(t, cap)
  }

  lemma {:induction false} EffectAllKeepsValid(es: seq<Event>, t: Table, cap: int)
    requires CommittableAll(es, t, cap) && TableValid(t, cap)
    ensures TableValid(EffectAll(es, t), cap)
    decreases |es|
  {
    if es != [] {
      EffectForgets(es[0], t, cap);
      EffectKeepsCounts(es[0], t, cap);
      EffectKeepsCap(es[0], t, cap);
      EffectAllKeepsValid(es[1..], Effect(es[0], t), cap);
    }
  }

  /** Only an update or a removal of the very job can make its version go stale. */
  lemma {:induction false} UntouchedRecordIsCurrent(es: seq<Event>, t: Table, cap: int, id: JobId)
    requires CommittableAll(es, t, cap) && WellKeyed(t) && id in t.jobs && !Touches(es, id)
    ensures id in EffectAll(es, t).jobs && EffectAll(es, t).jobs[id] == t.jobs[id]
    decreases |es|
  {
    if es != [] {
      var e := es[0];
      assert !(!e.Inserted? && e.id == id);
      if e.Updated? {
        assert SameIdentity(t.jobs[e.id].job, e.fn(t.jobs[e.id].job));
      }
      EffectForgets(e, t, cap);
      forall i | 0 <= i < |es[1..]| && !es[1..][i].Inserted?
        ensures es[1..][i].id != id
      {
        assert es[1..][i] == es[i + 1];
      }
      UntouchedRecordIsCurrent(es[1..], Effect(e, t), cap, id);
    }
  }

  /** A record never regains an earlier version, whatever the others commit. */
  lemma {:induction false} RecordOnlyMovesForward(es: seq<Event>, t: Table, cap: int, id: JobId)
    requires CommittableAll(es, t, cap) && WellKeyed(t) && id in t.jobs
    requires forall i | 0 <= i < |es| && es[i].Inserted? :: es[i].job.id != id
    ensures
      var t' := EffectAll(es, t);
      id in t'.jobs ==>
        && t.jobs[id].version <= t'.jobs[id].version
        && (t.jobs[id].version == t'.jobs[id].version ==> t'.jobs[id] == t.jobs[id])
    decreases |es|
  {
    if es != [] {
      var e := es[0];
      EffectForgets(e, t, cap);
      if e.Updated? {
        assert SameIdentity(t.jobs[e.id].job, e.fn(t.jobs[e.id].job));
      }
      if id in Effect(e, t).jobs {
        RecordOnlyMovesForward(es[1..], Effect(e, t), cap, id);
      } else {
        StaysAbsent(es[1..], Effect(e, t), cap, id);
      }
    }
  }

  lemma {:induction false} StaysAbsent(es: seq<Event>, t: Table, cap: int, id: JobId)
    requires CommittableAll(es, t, cap) && WellKeyed(t) && id !in t.jobs
    requires forall i | 0 <= i < |es| && es[i].Inserted? :: es[i].job.id != id
    ensures id !in EffectAll(es, t).jobs
    decreases |es|
  {
    if es != [] {
      EffectForgets(es[0], t, cap);
      if es[0].Updated? {
        assert SameIdentity(t.jobs[es[0].id].job, es[0].fn(t.jobs[es[0].id].job));
      }
      StaysAbsent(es[1..], Effect(es[0], t), cap, id);
    }
  }

  /** The table after the first `n` attempts, all of them lost. */
  function Seen(t: Table, others: seq<seq<Event>>, n: nat): Table
    requires n <= |others|
  {
    EffectAll(Flat(others[..n]), t)
  }

  lemma SeenGrows(t: Table, others: seq<seq<Event>>, n: nat, cap: int)
    requires n < |others| && CommittableAll(Flat(others), t, cap)
    ensures CommittableAll(others[n], Seen(t, others, n), cap)
    ensures Seen(t, others, n + 1) == EffectAll(others[n], Seen(t, others, n))
    ensures CommittableAll(Flat(others[..n]), t, cap)
  {
    FlatSplits(others, n + 1);
    EffectAllSplits(Flat(others[..n + 1]), Flat(others[n + 1..]), t, cap);
    assert others[..n + 1][..n] == others[..n];
    EffectAllSplits(Flat(others[..n]), others[n], t, cap);
  }

  lemma {:induction false} FlatSplits(groups: seq<seq<Event>>, n: nat)
    requires n <= |groups|
    ensures Flat(groups) == Flat(groups[..n]) + Flat(groups[n..])
    decreases |groups|
  {
    if n == |groups| {
      assert groups[..n] == groups && groups[n..] == [];
    } else {
      var init := groups[..|groups| - 1];
      FlatSplits(init, n);
      assert init[..n] == groups[..n];
      assert groups[n..][..|groups[n..]| - 1] == init[n..];
    }
  }

  predicate NeverInserts(others: seq<seq<Event>>, id: JobId) {
    forall a, i | 0 <= a < |others| && 0 <= i < |others[a]| && others[a][i].Inserted? :: others[a][i].job.id != id
  }

  /** Each of the first `n` attempts lost to another client's write of this very job. */
  predicate LosesBefore(others: seq<seq<Event>>, id: JobId, n: nat)
    requires n <= |others|
  {
    forall b: nat | b < n :: Touches(others[b], id)
  }

  lemma LosesAgain(others: seq<seq<Event>>, id: JobId, n: nat)
    requires n < |others| && LosesBefore(others, id, n) && Touches(others[n], id)
    ensures LosesBefore(others, id, n + 1)
  {
  }

  /** The records that the first `n` attempts read. */
  function Saw(t: Table, others: seq<seq<Event>>, id: JobId, n: nat): seq<Job>
    requires n <= |others|
  {
    if n == 0 then []
    else
      var read := Seen(t, others, n - 1);
      Saw(t, others, id, n - 1) + (if id in read.jobs then [read.jobs[id].job] else [])
  }

  /** Attempt `a` commits `fn` applied to the record stored at that moment. */
  ghost predicate Wins(
    start: Table, others: seq<seq<Event>>, clocks: seq<real>, id: JobId, fn: Job -> Job, a: nat, end: Table, r: Reply)
    requires |clocks| == |others|
  {
    && a < |others|
    && LosesBefore(others, id, a)
    && var current := Seen(start, others, a + 1);
    && id in current.jobs
    && !current.jobs[id].job.Evictable(clocks[a])
    && r == JobUpdated(fn(current.jobs[id].job), Saw(start, others, id, a + 1))
    && end == Effect(Updated(id, fn, clocks[a]), current)
  }

  /** Attempt `a` reads no job, or an expired one that nobody drives; that one it removes unless
      somebody wrote it since. Nothing is ever inserted. */
  ghost predicate FindsNothing(
    start: Table, others: seq<seq<Event>>, clocks: seq<real>, id: JobId, a: nat, end: Table, r: Reply)
    requires |clocks| == |others|
  {
    && a < |others|
    && LosesBefore(others, id, a)
    && r == NothingToUpdate(Saw(start, others, id, a))
    && var read := Seen(start, others, a);
    if id !in read.jobs then end == read
    else
      && read.jobs[id].job.Evictable(clocks[a])
      && var current := Seen(start, others, a + 1);
      end == if id in current.jobs && current.jobs[id].version == read.jobs[id].version
             then Effect(Removed(id), current)
             else current
  }

  /** Attempt `a` ends the call. */
  ghost predicate Ended(
    start: Table, others: seq<seq<Event>>, clocks: seq<real>, id: JobId, fn: Job -> Job, a: nat, end: Table, r: Reply)
    requires |clocks| == |others|
  {
    Wins(start, others, clocks, id, fn, a, end, r) || FindsNothing(start, others, clocks, id, a, end, r)
  }

  /** Every attempt so far read the record and lost. */
  ghost predicate LostSoFar(start: Table, others: seq<seq<Event>>, id: JobId, applied: seq<Job>, t: Table) {
    && |applied| <= |others|
    && t == Seen(start, others, |applied|)
    && LosesBefore(others, id, |applied|)
    && applied == Saw(start, others, id, |applied|)
  }

  lemma RemovalKeepsValid(t: Table, id: JobId, cap: int)
    requires TableValid(t, cap)
    ensures TableValid(Effect(Removed(id), t), cap)
  {
    if id in t.jobs {
      EffectForgets(Removed(id), t, cap);
      EffectKeepsCounts(Removed(id), t, cap);
      EffectKeepsCap(Removed(id), t, cap);
    }
  }

  lemma UpdateKeepsValid(t: Table, id: JobId, fn: Job -> Job, item: Item, clock: real, cap: int)
    requires TableValid(t, cap) && Lawful(fn) && item.job.id == id && !item.job.Evictable(clock)
    requires id in t.jobs && item.version == t.jobs[id].version ==> item == t.jobs[id]
    ensures TableValid(Transact(UpdateWrites(fn(item.job), item), t).0, cap)
  {
    var e := Updated(id, fn, clock);
    CommitIsUpdate(t, fn, item, clock);
    if Transact(UpdateWrites(fn(item.job), item), t).1 {
      EffectForgets(e, t, cap);
      EffectKeepsCounts(e, t, cap);
      EffectKeepsCap(e, t, cap);
    }
  }

  /** What the conditional delete and the conditional write of attempt `n` do. */
  ghost predicate AttemptOutcomes(
    start: Table, others: seq<seq<Event>>, clocks: seq<real>, id: JobId, fn: Job -> Job, n: nat, cap: int, item: Item)
    requires n < |others| == |clocks|
  {
    var current := Seen(start, others, n + 1);
    var same := id in current.jobs && current.jobs[id].version == item.version;
    && (!same ==> Touches(others[n], id))
    && (same ==> item == current.jobs[id])
    && Transact(EvictWrites(item), current) ==
       (if same then (Effect(Removed(id), current), true) else (current, false))
    && TableValid(Transact(EvictWrites(item), current).0, cap)
    && (!item.job.Evictable(clocks[n]) ==>
          && Transact(UpdateWrites(fn(item.job), item), current) ==
             (if same then (Effect(Updated(id, fn, clocks[n]), current), true) else (current, false))
          && TableValid(Transact(UpdateWrites(fn(item.job), item), current).0, cap))
  }

  lemma SeenIsValid(start: Table, others: seq<seq<Event>>, n: nat, cap: int)
    requires n <= |others| && CommittableAll(Flat(others), start, cap) && TableValid(start, cap)
    ensures TableValid(Seen(start, others, n), cap)
  {
    FlatSplits(others, n);
    EffectAllSplits(Flat(others[..n]), Flat(others[n..]), start, cap);
    EffectAllKeepsValid(Flat(others[..n]), start, cap);
  }

  lemma AttemptIsDecided(
    start: Table, others: seq<seq<Event>>, clocks: seq<real>, id: JobId, fn: Job -> Job, n: nat, cap: int)
    requires n < |others| == |clocks| && Lawful(fn) && NeverInserts(others, id)
    requires CommittableAll(Flat(others), start, cap) && TableValid(start, cap)
    requires id in Seen(start, others, n).jobs
    ensures AttemptOutcomes(start, others, clocks, id, fn, n, cap, Seen(start, others, n).jobs[id])
  {
    var read := Seen(start, others, n);
    var item := read.jobs[id];
    SeenGrows(start, others, n, cap);
    SeenIsValid(start, others, n, cap);
    SeenIsValid(start, others, n + 1, cap);
    RecordOnlyMovesForward(others[n], read, cap, id);
    if !Touches(others[n], id) {
      UntouchedRecordIsCurrent(others[n], read, cap, id);
    }
    var current := Seen(start, others, n + 1);
    EvictTransaction(current, item);
    EvictIsRemoval(current, item);
    RemovalKeepsValid(current, id, cap);
    if !item.job.Evictable(clocks[n]) {
      assert SameIdentity(item.job, fn(item.job));
      CommitIsUpdate(current, fn, item, clocks[n]);
      UpdateTransaction(current, fn(item.job), item);
      UpdateKeepsValid(current, id, fn, item, clocks[n], cap);
    }
  }

  lemma RemovalEnds(
    start: Table, others: seq<seq<Event>>, clocks: seq<real>, id: JobId, fn: Job -> Job, n: nat, cap: int, end: Table)
    requires n < |others| == |clocks| && Lawful(fn) && NeverInserts(others, id) && LosesBefore(others, id, n)
    requires CommittableAll(Flat(others), start, cap) && TableValid(start, cap)
    requires id in Seen(start, others, n).jobs && Seen(start, others, n).jobs[id].job.Evictable(clocks[n])
    requires end == Transact(EvictWrites(Seen(start, others, n).jobs[id]), Seen(start, others, n + 1)).0
    ensures FindsNothing(start, others, clocks, id, n, end, NothingToUpdate(Saw(start, others, id, n)))
    ensures TableValid(end, cap)
  {
    AttemptIsDecided(start, others, clocks, id, fn, n, cap);
  }

  lemma WriteEnds(
    start: Table, others: seq<seq<Event>>, clocks: seq<real>, id: JobId, fn: Job -> Job, n: nat, cap: int, end: Table,
    ok: bool)
    requires n < |others| == |clocks| && Lawful(fn) && NeverInserts(others, id) && LosesBefore(others, id, n)
    requires CommittableAll(Flat(others), start, cap) && TableValid(start, cap)
    requires id in Seen(start, others, n).jobs && !Seen(start, others, n).jobs[id].job.Evictable(clocks[n])
    requires
      var item := Seen(start, others, n).jobs[id];
      (end, ok) == Transact(UpdateWrites(fn(item.job), item), Seen(start, others, n + 1))
    ensures
      if ok then
        && Wins(start, others, clocks, id, fn, n, end,
                JobUpdated(fn(Seen(start, others, n).jobs[id].job), Saw(start, others, id, n + 1)))
        && TableValid(end, cap)
      else end == Seen(start, others, n + 1) && LosesBefore(others, id, n + 1)
  {
    AttemptIsDecided(start, others, clocks, id, fn, n, cap);
    if !ok {
      LosesAgain(others, id, n);
    }
  }

  /** A job that was created was admitted on the very table it was inserted into. */
  ghost predicate Created(job: Job, cfg: Config, r: Reply, end: Table) {
    r.JobCreated? ==>
      r.job == job
      && exists t: Table, start: real :: Admits(t, job, cfg.cap, start) && end == Effect(Inserted(job, start), t)
  }

  class DynamoDbExecutionJobStore {
    var table: Table
    const cap: int

    constructor (cap: int)
      ensures table == EMPTY && this.cap == cap
    {
      table := EMPTY;
      this.cap := cap;
    }

    /** Other clients commit between two of our requests. */
    method Interfere(es: seq<Event>)
      modifies this`table
      ensures table == EffectAll(es, old(table))
    {
      var i := 0;
      assert es[0..] == es;
      while i < |es|
        invariant 0 <= i <= |es|
        invariant EffectAll(es[i..], table) == EffectAll(es, old(table))
      {
        assert es[i..][1..] == es[i + 1..];
        table := Effect(es[i], table);
        i := i + 1;
      }
    }

    method TransactWrite(ws: seq<Write>) returns (ok: bool)
      modifies this`table
      ensures (table, ok) == Transact(ws, old(table))
    {
      var (t, committed) := Transact(ws, table);
      table := t;
      ok := committed;
    }

    method Evict(item: Item)
      modifies this`table
      ensures table == Transact(EvictWrites(item), old(table)).0
    {
      var _ := TransactWrite(EvictWrites(item));
    }

    /** Attempt `a` reads the record, reads the clock as `clocks[a]`, and tries to write after the
        others committed `others[a]`. It succeeds exactly when nobody else wrote the job in
        between; it gives up only after every attempt lost to a write of this very job. */
    method Mutate(id: JobId, fn: Job -> Job, clocks: seq<real>, others: seq<seq<Event>>) returns (r: Reply)
      requires |clocks| == |others| == MAX_MUTATE_ATTEMPTS
      requires TableValid(table, cap) && Lawful(fn)
      requires CommittableAll(Flat(others), table, cap)
      requires NeverInserts(others, id)
      modifies this`table
      ensures TableValid(table, cap)
      ensures
        || (exists a: nat :: Ended(old(table), others, clocks, id, fn, a, table, r))
        || (r == Contended(Saw(old(table), others, id, MAX_MUTATE_ATTEMPTS))
            && LosesBefore(others, id, MAX_MUTATE_ATTEMPTS)
            && table == Seen(old(table), others, MAX_MUTATE_ATTEMPTS))
    {
      ghost var start := table;
      var applied: seq<Job> := [];
      while |applied| < MAX_MUTATE_ATTEMPTS
        invariant |applied| <= MAX_MUTATE_ATTEMPTS
        invariant LostSoFar(start, others, id, applied, table)
        decreases MAX_MUTATE_ATTEMPTS - |applied|
      {
        var ended;
        ended, applied := Attempt(id, fn, clocks, others, applied, start);
        if ended.Some? {
          return ended.value;
        }
      }
      SeenIsValid(start, others, |applied|, cap);
      return Contended(applied);
    }

    /** One attempt, the one after those that `applied` holds the records of. */
    method Attempt(id: JobId, fn: Job -> Job, clocks: seq<real>, others: seq<seq<Event>>, applied: seq<Job>,
                   ghost start: Table)
      returns (ended: Option<Reply>, applied': seq<Job>)
      requires |applied| < |clocks| == |others|
      requires TableValid(start, cap) && Lawful(fn) && CommittableAll(Flat(others), start, cap)
      requires NeverInserts(others, id) && LostSoFar(start, others, id, applied, table)
      modifies this`table
      ensures ended.Some? ==>
        TableValid(table, cap) && Ended(start, others, clocks, id, fn, |applied|, table, ended.value)
      ensures ended.None? ==>
        |applied'| == |applied| + 1 && LostSoFar(start, others, id, applied', table)
    {
      ghost var n := |applied|;
      applied' := applied;
      if id !in table.jobs {
        SeenIsValid(start, others, n, cap);
        assert FindsNothing(start, others, clocks, id, n, table, NothingToUpdate(applied));
        return Some(NothingToUpdate(applied)), applied;
      }
      var item, clock := table.jobs[id], clocks[|applied|];
      SeenGrows(start, others, n, cap);
      Interfere(others[|applied|]);
      if item.job.Evictable(clock) {
        Evict(item);
        RemovalEnds(start, others, clocks, id, fn, n, cap, table);
        return Some(NothingToUpdate(applied)), applied;
      }
      var job := fn(item.job);
      applied' := applied + [item.job];
      var ok := TransactWrite(UpdateWrites(job, item));
      WriteEnds(start, others, clocks, id, fn, n, cap, table, ok);
      ended := if ok then Some(JobUpdated(job, applied')) else None;
    }

    /** Reads the record, then removes it unless somebody wrote it since. */
    method Delete(id: JobId, cfg: Config, env: seq<Chance>) returns (found: bool)
      requires |env| >= 2
      modifies this`table
      ensures Course(cfg, Start(Discard(id)), old(table), env) == (Done(Deleted(found)), table)
    {
      NextTurn(cfg, Find(id), table, env, 0);
      Interfere(env[0].others);
      if id !in table.jobs {
        return false;
      }
      var item := table.jobs[id];
      NextTurn(cfg, Drop(item), table, env, 1);
      Interfere(env[1].others);
      Evict(item);
      return true;
    }

    /** An expired record that nobody drives is removed and not returned. */
    method Get(id: JobId, cfg: Config, env: seq<Chance>) returns (r: Option<Job>)
      requires |env| >= 3
      modifies this`table
      ensures Course(cfg, Start(Lookup(id)), old(table), env)
           == (Done(if r.Some? then JobFound(r.value) else NoJob), table)
    {
      NextTurn(cfg, Load(id), table, env, 0);
      Interfere(env[0].others);
      if id !in table.jobs {
        return None;
      }
      var item := table.jobs[id];
      WeighTurns(cfg, item, table, env, 1);
      Interfere(env[1].others);
      if item.job.Evictable(env[1].now) {
        Interfere(env[2].others);
        Evict(item);
        return None;
      }
      return Some(item.job);
    }

    /** The record that the key's marker names, if the marker is recent and the record still counts.
        `again` marks the lookup after a lost race. */
    method FindByIdempotencyKey(job: Job, again: bool, cfg: Config, env: seq<Chance>, n: nat)
      returns (existing: Option<Job>, next: nat)
      requires n + 5 <= |env| && job.HasKey()
      modifies this`table
      ensures n < next <= n + 5
      ensures
        var after := if existing.Some? then Done(JobExisting(existing.value)) else NoKeyedJob(job, again);
        Course(cfg, LookUp(job, again), old(table), env[n..]) == Course(cfg, after, table, env[next..])
    {
      NextTurn(cfg, LookUp(job, again), table, env, n);
      Interfere(env[n].others);
      var k := (job.ownerKey, job.idempotencyKey.value);
      if k !in table.keys {
        return None, n + 1;
      }
      var marker := table.keys[k];
      NextTurn(cfg, CheckMarker(job, marker, again), table, env, n + 1);
      Interfere(env[n + 1].others);
      if marker.createdAt < env[n + 1].now - cfg.window {
        return None, n + 2;
      }
      existing, next := FetchExisting(job, marker.jobId, again, cfg, env, n + 2);
    }

    /** The embedded `get` of that lookup. */
    method FetchExisting(job: Job, id: JobId, again: bool, cfg: Config, env: seq<Chance>, n: nat)
      returns (existing: Option<Job>, next: nat)
      requires n + 3 <= |env|
      modifies this`table
      ensures n < next <= n + 3
      ensures
        var after := if existing.Some? then Done(JobExisting(existing.value)) else NoKeyedJob(job, again);
        Course(cfg, Fetch(job, id, again), old(table), env[n..]) == Course(cfg, after, table, env[next..])
    {
      FetchTurns(cfg, job, id, again, table, env, n);
      Interfere(env[n].others);
      if id !in table.jobs {
        return None, n + 1;
      }
      var item := table.jobs[id];
      JudgeTurns(cfg, job, item, again, table, env, n + 1);
      Interfere(env[n + 1].others);
      if item.job.Evictable(env[n + 1].now) {
        Interfere(env[n + 2].others);
        Evict(item);
        return None, n + 3;
      }
      return Some(item.job), n + 2;
    }

    /** Answers with the job of the key, or inserts in one transaction; when that fails because the
        key was taken meanwhile, looks once more. */
    method CreateIfAllowed(job: Job, cfg: Config, env: seq<Chance>) returns (r: Reply)
      requires |env| >= 12
      modifies this`table
      ensures Course(cfg, Start(Submit(job)), old(table), env) == (Done(r), table)
      ensures Created(job, cfg, r, table)
    {
      assert env[0..] == env;
      var n: nat := 0;
      if job.HasKey() {
        var existing;
        existing, n := FindByIdempotencyKey(job, false, cfg, env, 0);
        if existing.Some? {
          return JobExisting(existing.value);
        }
      }
      r := InsertOrJoin(job, cfg, env, n);
    }

    method InsertOrJoin(job: Job, cfg: Config, env: seq<Chance>, n: nat) returns (r: Reply)
      requires n + 7 <= |env|
      modifies this`table
      ensures Course(cfg, ReadWindow(job), old(table), env[n..]) == (Done(r), table)
      ensures Created(job, cfg, r, table)
    {
      NextTurn(cfg, ReadWindow(job), table, env, n);
      Interfere(env[n].others);
      var windowStart := env[n].now - cfg.window;
      InsertTurns(cfg, job, windowStart, table, env, n + 1);
      Interfere(env[n + 1].others);
      ghost var before := table;
      var ok := TransactWrite(InsertWrites(job, cfg.cap, windowStart));
      InsertTransaction(before, job, cfg.cap, windowStart);
      if ok {
        return JobCreated(job);
      }
      if LosesKey(job, windowStart, table) {
        var existing, _ := FindByIdempotencyKey(job, true, cfg, env, n + 2);
        if existing.Some? {
          return JobExisting(existing.value);
        }
      }
      return CapReached;
    }
  }
}
