/** The locked in-memory store (backend/app/repositories/execution_job_store.py). Each method
    runs under one lock acquisition. `time.time()` is read once by the cleanup and once more
    afterwards; the two readings are the parameters `now` and `later`. */
module MemoryJobStore {
  import opened Wrappers
  import opened ExecutionJobs
  import opened AtomicJobStore

  datatype Submission = Created(job: Job) | Existing(job: Job) | TooManyActive

  lemma SplitOff(all: set<JobId>, seen: set<JobId>, id: JobId)
    requires id !in seen
    ensures |all * (seen + {id})| == |all * seen| + (if id in all then 1 else 0)
  {
    assert all * (seen + {id}) == all * seen + (if id in all then {id} else {});
  }

  class InMemoryExecutionJobStore {
    var data: map<JobId, Job>

    constructor ()
      ensures data == map[]
    {
      data := map[];
    }

    method Cleanup(now: real)
      modifies this
      ensures data == Cleaned(old(data), now)
    {
      var expired := set id | id in data && data[id].Evictable(now);
      ghost var all := expired;
      while expired != {}
        invariant expired <= all
        invariant data == old(data) - (all - expired)
        decreases expired
      {
        var id :| id in expired;
        data := data - {id};
        expired := expired - {id};
      }
    }

    method Get(id: JobId, now: real, later: real) returns (r: Option<Job>)
      requires now <= later
      modifies this
      ensures data == Cleaned(old(data), now) - (if r.None? then {id} else {})
      ensures r == if id in old(data) && !old(data)[id].Evictable(later) then Some(old(data)[id]) else None
    {
      Cleanup(now);
      if id !in data {
        return None;
      }
      if data[id].Evictable(later) {
        data := data - {id};
        return None;
      }
      return Some(data[id]);
    }

    method Delete(id: JobId) returns (removed: bool)
      modifies this
      ensures data == old(data) - {id}
      ensures removed <==> id in old(data)
    {
      removed := id in data;
      data := data - {id};
    }

    method CountActive(owner: Owner, now: real) returns (n: nat)
      modifies this
      ensures data == Cleaned(old(data), now)
      ensures n == |Counting(data, owner)|
    {
      Cleanup(now);
      n := CountActiveLocked(owner);
    }

    method CountActiveLocked(owner: Owner) returns (n: nat)
      ensures n == |Counting(data, owner)|
    {
      n := 0;
      var rest := data.Keys;
      ghost var counting := Counting(data, owner);
      ghost var seen: set<JobId> := {};
      while rest != {}
        invariant seen !! rest && seen + rest == data.Keys
        invariant n == |counting * seen|
        decreases rest
      {
        var id :| id in rest;
        SplitOff(counting, seen, id);
        if data[id].ownerKey == owner && data[id].Counts() {
          n := n + 1;
        }
        rest := rest - {id};
        seen := seen + {id};
      }
      assert counting * seen == counting;
    }

    /** The most recent job that answers the key; which one of several equally recent jobs is
        returned is left open. */
    method FindByKeyLocked(owner: Owner, key: string, window: real, now: real) returns (r: Option<Job>)
      ensures r.None? <==> Answering(data, owner, key, now - window, now) == {}
      ensures r.Some? ==>
        exists id :: id in Answering(data, owner, key, now - window, now) && r.value == data[id]
      ensures r.Some? ==>
        forall id | id in Answering(data, owner, key, now - window, now) ::
          data[id].createdAt <= r.value.createdAt
    {
      r := None;
      var cutoff := now - window;
      var rest := data.Keys;
      ghost var seen: set<JobId> := {};
      while rest != {}
        invariant seen + rest == data.Keys
        invariant r.None? <==> Answering(data, owner, key, cutoff, now) * seen == {}
        invariant r.Some? ==>
          exists id :: id in Answering(data, owner, key, cutoff, now) * seen && r.value == data[id]
        invariant r.Some? ==>
          forall id | id in Answering(data, owner, key, cutoff, now) * seen ::
            data[id].createdAt <= r.value.createdAt
        decreases rest
      {
        var id :| id in rest;
        if Answers(data[id], owner, key, cutoff, now) {
          assert id in Answering(data, owner, key, cutoff, now) * (seen + {id});
          if r.None? || r.value.createdAt < data[id].createdAt {
            r := Some(data[id]);
          }
        } else {
          assert Answering(data, owner, key, cutoff, now) * (seen + {id}) ==
                 Answering(data, owner, key, cutoff, now) * seen;
        }
        rest := rest - {id};
        seen := seen + {id};
      }
      assert Answering(data, owner, key, cutoff, now) * seen == Answering(data, owner, key, cutoff, now);
    }

    /** Insert unless a stored, unexpired job inside the window already answers the key or the
        owner is at the cap: an insertion never repeats a key and never exceeds the cap. */
    method CreateIfAllowed(job: Job, window: real, maxActive: int, now: real, later: real)
      returns (r: Submission)
      requires now <= later
      modifies this
      ensures r.Created? ==> r.job == job && data == Cleaned(old(data), now)[job.id := job]
      ensures !r.Created? ==> data == Cleaned(old(data), now)
      ensures r.Existing? <==>
        job.HasKey() &&
        Answering(old(data), job.ownerKey, job.idempotencyKey.value, later - window, later) != {}
      ensures r.Existing? ==>
        r.job in data.Values && Answers(r.job, job.ownerKey, job.idempotencyKey.value, later - window, later)
      ensures r.TooManyActive? ==> |Counting(data, job.ownerKey)| >= maxActive
      ensures r.Created? ==> |Counting(Cleaned(old(data), now), job.ownerKey)| < maxActive
      ensures
        r.Created? && KeyedById(old(data))
        && (job.id in old(data) ==> old(data)[job.id].ownerKey == job.ownerKey) ==>
        |Counting(data, job.ownerKey)| <= maxActive
    {
      Cleanup(now);
      assert job.HasKey() ==>
        Answering(data, job.ownerKey, job.idempotencyKey.value, later - window, later) ==
        Answering(old(data), job.ownerKey, job.idempotencyKey.value, later - window, later);
      if job.HasKey() {
        var existing := FindByKeyLocked(job.ownerKey, job.idempotencyKey.value, window, later);
        if existing.Some? {
          return Existing(existing.value);
        }
      }
      var active := CountActiveLocked(job.ownerKey);
      if active >= maxActive {
        return TooManyActive;
      }
      ghost var before := data;
      data := data[job.id := job];
      if job.id in before ==> before[job.id].ownerKey == job.ownerKey {
        CountingAfterPut(before, job, job.ownerKey);
      }
      return Created(job);
    }

    /** `fn` is applied to the record stored now, and nothing is inserted for a missing job. */
    method Mutate(id: JobId, fn: Job -> Job, now: real, later: real) returns (r: Option<Job>)
      requires now <= later
      requires KeyedById(data) && Lawful(fn)
      modifies this
      ensures KeyedById(data)
      ensures r.None? <==> id !in old(data) || old(data)[id].Evictable(later)
      ensures r.None? ==> data == Cleaned(old(data), now) - {id}
      ensures r.Some? ==>
        r.value == fn(old(data)[id]) && data == Do(Updated(id, fn, later), Cleaned(old(data), now))
    {
      Cleanup(now);
      if id !in data {
        return None;
      }
      if data[id].Evictable(later) {
        data := data - {id};
        return None;
      }
      var job := fn(data[id]);
      data := data[job.id := job];
      return Some(job);
    }
  }
}
