/** The job store as a plain map with atomic operations: the meaning both stores refine. */
module AtomicJobStore {
  import opened Wrappers
  import opened ExecutionJobs

  type Jobs = map<JobId, Job>

  predicate KeyedById(jobs: Jobs) {
    forall id | id in jobs :: jobs[id].id == id
  }

  /** The ids of an owner's jobs that hold a slot. */
  function Counting(jobs: Jobs, owner: Owner): set<JobId> {
    set id | id in jobs && jobs[id].ownerKey == owner && jobs[id].Counts()
  }

  function Cleaned(jobs: Jobs, now: real): Jobs {
    map id | id in jobs && !jobs[id].Evictable(now) :: jobs[id]
  }

  /** A job that answers a repeat of an idempotency key. */
  predicate Answers(j: Job, owner: Owner, key: string, cutoff: real, now: real) {
    && j.ownerKey == owner
    && j.idempotencyKey == Some(key)
    && !j.Evictable(now)
    && j.createdAt >= cutoff
  }

  function Answering(jobs: Jobs, owner: Owner, key: string, cutoff: real, now: real): set<JobId> {
    set id | id in jobs && Answers(jobs[id], owner, key, cutoff, now)
  }

  /** One atomic change to the map of jobs. */
  datatype Event =
    | Inserted(job: Job, windowStart: real)
    | Updated(id: JobId, fn: Job -> Job, clock: real)
    | Removed(id: JobId)

  /** When the atomic store could have made the change. */
  predicate Enabled(e: Event, jobs: Jobs) {
    match e
    case Inserted(job, _) => job.id !in jobs
    case Updated(id, _, clock) => id in jobs && !jobs[id].Evictable(clock)
    case Removed(id) => id in jobs
  }

  function Do(e: Event, jobs: Jobs): Jobs {
    match e
    case Inserted(job, _) => jobs[job.id := job]
    case Updated(id, fn, _) => if id in jobs then jobs[id := fn(jobs[id])] else jobs
    case Removed(id) => jobs - {id}
  }

  /** The map that results from a log of atomic changes. */
  function Replay(log: seq<Event>): Jobs {
    if log == [] then map[] else Do(log[|log| - 1], Replay(log[..|log| - 1]))
  }

  /** Every change in the log was possible when it was made. */
  predicate Legal(log: seq<Event>) {
    log == [] || (Legal(log[..|log| - 1]) && Enabled(log[|log| - 1], Replay(log[..|log| - 1])))
  }

  lemma LogExtends(log: seq<Event>, e: Event)
    ensures Replay(log + [e]) == Do(e, Replay(log))
    ensures Legal(log + [e]) <==> Legal(log) && Enabled(e, Replay(log))
  {
    assert (log + [e])[..|log|] == log;
  }

  /** Replacing one job changes its owner's slot set at that job only. */
  lemma CountingAfterPut(jobs: Jobs, j: Job, owner: Owner)
    requires j.id in jobs ==> jobs[j.id].ownerKey == j.ownerKey
    ensures Counting(jobs[j.id := j], owner) ==
            if owner == j.ownerKey && j.Counts() then Counting(jobs, owner) + {j.id}
            else if owner == j.ownerKey then Counting(jobs, owner) - {j.id}
            else Counting(jobs, owner)
  {
  }

  lemma CountingAfterRemove(jobs: Jobs, id: JobId, owner: Owner)
    ensures Counting(jobs - {id}, owner) == Counting(jobs, owner) - {id}
  {
  }
}
