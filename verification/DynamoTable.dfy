/** The single DynamoDB table, its conditional transactions, and the item lists the store writes
    (backend/app/repositories/dynamodb_job_store.py). The three kinds of item are three maps;
    module DynamoKeys shows that their partition keys never collide. */
module DynamoTable {
  import opened Wrappers
  import opened ExecutionJobs
  import opened AtomicJobStore

  datatype Item = Item(job: Job, version: int)

  datatype Marker = Marker(jobId: JobId, createdAt: real)

  datatype Table = Table(
    jobs: map<JobId, Item>,
    keys: map<(Owner, string), Marker>,
    slots: map<Owner, int>)

  const EMPTY := Table(map[], map[], map[])

  /** One element of a transaction with its condition expression. */
  datatype Write =
    | PutJob(job: Job, version: int, expected: Option<int>)  // None: the item must not exist
    | DropJob(id: JobId, version: int)
    | AddSlots(owner: Owner, delta: int, cap: Option<int>)
    | PutKey(owner: Owner, key: string, marker: Marker, windowStart: real)

  predicate Holds(w: Write, t: Table) {
    match w
    case PutJob(job, _, None) => job.id !in t.jobs
    case PutJob(job, _, Some(v)) => job.id in t.jobs && t.jobs[job.id].version == v
    case DropJob(id, v) => id in t.jobs && t.jobs[id].version == v
    case AddSlots(_, _, None) => true
    case AddSlots(owner, _, Some(cap)) => owner !in t.slots || t.slots[owner] < cap
    case PutKey(owner, key, _, start) =>
      (owner, key) !in t.keys || t.keys[(owner, key)].createdAt < start
  }

  function Perform(w: Write, t: Table): Table {
    match w
    case PutJob(job, version, _) => t.(jobs := t.jobs[job.id := Item(job, version)])
    case DropJob(id, _) => t.(jobs := t.jobs - {id})
    case AddSlots(owner, delta, _) => t.(slots := t.slots[owner := Slots(t, owner) + delta])
    case PutKey(owner, key, marker, _) => t.(keys := t.keys[(owner, key) := marker])
  }

  function PerformAll(ws: seq<Write>, t: Table): Table {
    if ws == [] then t else PerformAll(ws[1..], Perform(ws[0], t))
  }

  /** All conditions are judged on the table before the transaction; all writes land or none. */
  function Transact(ws: seq<Write>, t: Table): (Table, bool) {
    if forall i | 0 <= i < |ws| :: Holds(ws[i], t) then (PerformAll(ws, t), true) else (t, false)
  }

  lemma PerformTwo(a: Write, b: Write, t: Table)
    ensures PerformAll([a, b], t) == Perform(b, Perform(a, t))
  {
    assert [a, b][1..] == [b] && [b][1..] == [];
    assert PerformAll([b], Perform(a, t)) == Perform(b, Perform(a, t));
  }

  function Slots(t: Table, owner: Owner): int {
    if owner in t.slots then t.slots[owner] else 0
  }

  function Forget(items: map<JobId, Item>): Jobs {
    map id | id in items :: items[id].job
  }

  function Weight(j: Job): int {
    if j.Counts() then 1 else 0
  }

  // --- the item lists ---

  function SlotChange(owner: Owner, delta: int): seq<Write> {
    if delta == 0 then [] else [AddSlots(owner, delta, None)]
  }

  function UpdateWrites(job: Job, previous: Item): seq<Write> {
    [PutJob(job, previous.version + 1, Some(previous.version))]
    + SlotChange(job.ownerKey, Weight(job) - Weight(previous.job))
  }

  function EvictWrites(item: Item): seq<Write> {
    [DropJob(item.job.id, item.version)] + SlotChange(item.job.ownerKey, -Weight(item.job))
  }

  function InsertWrites(job: Job, cap: int, windowStart: real): seq<Write> {
    [PutJob(job, 1, None), AddSlots(job.ownerKey, 1, Some(cap))]
    + (if job.HasKey()
       then [PutKey(job.ownerKey, job.idempotencyKey.value, Marker(job.id, job.createdAt), windowStart)]
       else [])
  }

  // --- what a committed transaction does to the table, as an atomic change ---

  /** The table change that corresponds to one atomic change of the job map. */
  function Effect(e: Event, t: Table): Table {
    match e
    case Inserted(job, _) =>
      Table(t.jobs[job.id := Item(job, 1)],
            if job.HasKey()
            then t.keys[(job.ownerKey, job.idempotencyKey.value) := Marker(job.id, job.createdAt)]
            else t.keys,
            t.slots[job.ownerKey := Slots(t, job.ownerKey) + 1])
    case Updated(id, fn, _) =>
      if id in t.jobs then
        var new_ := fn(t.jobs[id].job);
        Table(t.jobs[new_.id := Item(new_, t.jobs[id].version + 1)], t.keys,
              Shifted(t, new_.ownerKey, Weight(new_) - Weight(t.jobs[id].job)))
      else t
    case Removed(id) =>
      if id in t.jobs then
        Table(t.jobs - {id}, t.keys, Shifted(t, t.jobs[id].job.ownerKey, -Weight(t.jobs[id].job)))
      else t
  }

  function Shifted(t: Table, owner: Owner, delta: int): map<Owner, int> {
    if delta == 0 then t.slots else t.slots[owner := Slots(t, owner) + delta]
  }

  /** The insertion conditions, read on one table. */
  predicate Admits(t: Table, job: Job, cap: int, windowStart: real) {
    && job.id !in t.jobs
    && (job.ownerKey !in t.slots || t.slots[job.ownerKey] < cap)
    && (job.HasKey() ==>
          var k := (job.ownerKey, job.idempotencyKey.value);
          k !in t.keys || t.keys[k].createdAt < windowStart)
  }

  lemma InsertTransaction(t: Table, job: Job, cap: int, windowStart: real)
    ensures Transact(InsertWrites(job, cap, windowStart), t) ==
            if Admits(t, job, cap, windowStart) then (Effect(Inserted(job, windowStart), t), true)
            else (t, false)
  {
    var ws := InsertWrites(job, cap, windowStart);
    assert ws[0] == PutJob(job, 1, None) && ws[1] == AddSlots(job.ownerKey, 1, Some(cap));
    if Transact(ws, t).1 {
      assert Holds(ws[0], t) && Holds(ws[1], t);
      if job.HasKey() {
        assert Holds(ws[2], t);
        assert ws[1..] == [ws[1], ws[2]];
        PerformTwo(ws[1], ws[2], Perform(ws[0], t));
      } else {
        assert ws == [ws[0], ws[1]];
        PerformTwo(ws[0], ws[1], t);
      }
    } else if job.HasKey() {
      assert !Holds(ws[0], t) || !Holds(ws[1], t) || !Holds(ws[2], t);
    }
  }

  /** A conditional write goes through exactly when the version read is still current. */
  lemma UpdateTransaction(t: Table, job: Job, previous: Item)
    requires job.id == previous.job.id && job.ownerKey == previous.job.ownerKey
    ensures
      var id := job.id;
      var current := id in t.jobs && t.jobs[id].version == previous.version;
      Transact(UpdateWrites(job, previous), t) ==
      if current
      then (Table(t.jobs[id := Item(job, previous.version + 1)], t.keys,
                  Shifted(t, job.ownerKey, Weight(job) - Weight(previous.job))), true)
      else (t, false)
  {
    SingleOrPair(UpdateWrites(job, previous)[0], job.ownerKey, Weight(job) - Weight(previous.job), t);
  }

  lemma EvictTransaction(t: Table, item: Item)
    ensures
      var id := item.job.id;
      var current := id in t.jobs && t.jobs[id].version == item.version;
      Transact(EvictWrites(item), t) ==
      if current then (Table(t.jobs - {id}, t.keys, Shifted(t, item.job.ownerKey, -Weight(item.job))), true)
      else (t, false)
  {
    SingleOrPair(EvictWrites(item)[0], item.job.ownerKey, -Weight(item.job), t);
  }

  lemma SingleOrPair(w: Write, owner: Owner, delta: int, t: Table)
    requires w.PutJob? || w.DropJob?
    ensures Transact([w] + SlotChange(owner, delta), t) ==
            if Holds(w, t) then (Perform(w, t).(slots := Shifted(t, owner, delta)), true) else (t, false)
  {
    var ws := [w] + SlotChange(owner, delta);
    assert ws[0] == w;
    if delta == 0 {
      assert ws == [w] && ws[1..] == [];
      assert PerformAll(ws, t) == PerformAll([], Perform(w, t));
    } else {
      assert ws == [w, ws[1]] && Holds(ws[1], t);
      PerformTwo(w, ws[1], t);
    }
  }

  // --- invariants of the table alone ---

  predicate WellKeyed(t: Table) {
    forall id | id in t.jobs :: t.jobs[id].job.id == id && t.jobs[id].version >= 1
  }

  ghost predicate CountsExactly(t: Table) {
    forall owner: Owner :: Slots(t, owner) == |Counting(Forget(t.jobs), owner)|
  }

  ghost predicate WithinCap(t: Table, cap: int) {
    forall owner: Owner :: Slots(t, owner) <= Limit(cap)
  }

  /** `attribute_not_exists(active) OR active < :max` lets an owner's very first job in even when
      the cap is not positive, so that is the bound the store enforces. */
  function Limit(cap: int): int {
    if cap < 1 then 1 else cap
  }

  /** When a change may be committed: the atomic store could have made it, the insertion
      conditions held, and the update is lawful. */
  ghost predicate Committable(e: Event, t: Table, cap: int) {
    && Enabled(e, Forget(t.jobs))
    && (e.Inserted? ==> e.job.Counts() && Admits(t, e.job, cap, e.windowStart))
    && (e.Updated? ==> Lawful(e.fn))
  }

  lemma EffectForgets(e: Event, t: Table, cap: int)
    requires WellKeyed(t) && Committable(e, t, cap)
    ensures WellKeyed(Effect(e, t))
    ensures Forget(Effect(e, t).jobs) == Do(e, Forget(t.jobs))
  {
  }

  lemma InsertKeepsCount(e: Event, t: Table, cap: int, owner: Owner)
    requires e.Inserted? && WellKeyed(t) && Committable(e, t, cap)
    requires Slots(t, owner) == |Counting(Forget(t.jobs), owner)|
    ensures Slots(Effect(e, t), owner) == |Counting(Do(e, Forget(t.jobs)), owner)|
  {
    CountingAfterPut(Forget(t.jobs), e.job, owner);
  }

  /** Writing over a stored job moves its owner's count by the difference of the two weights. */
  lemma ReplacedWeighs(jobs: Jobs, j: Job, owner: Owner)
    requires j.id in jobs && jobs[j.id].ownerKey == j.ownerKey
    ensures |Counting(jobs[j.id := j], owner)| ==
            |Counting(jobs, owner)| + if owner == j.ownerKey then Weight(j) - Weight(jobs[j.id]) else 0
  {
    CountingAfterPut(jobs, j, owner);
    var before := Counting(jobs, owner);
    assert j.id in before <==> owner == j.ownerKey && jobs[j.id].Counts();
    assert j.id in before ==> before + {j.id} == before;
    assert j.id !in before ==> before - {j.id} == before;
  }

  lemma UpdateKeepsCount(e: Event, t: Table, cap: int, owner: Owner)
    requires e.Updated? && WellKeyed(t) && Committable(e, t, cap)
    requires Slots(t, owner) == |Counting(Forget(t.jobs), owner)|
    ensures Slots(Effect(e, t), owner) == |Counting(Do(e, Forget(t.jobs)), owner)|
  {
    var j, j' := t.jobs[e.id].job, e.fn(t.jobs[e.id].job);
    assert SameIdentity(j, j') && j.id == e.id;
    var jobs := Forget(t.jobs);
    assert jobs[e.id] == j && Do(e, jobs) == jobs[j'.id := j'];
    ReplacedWeighs(jobs, j', owner);
    assert Slots(Effect(e, t), owner) ==
           Slots(t, owner) + if owner == j'.ownerKey then Weight(j') - Weight(j) else 0;
  }

  lemma RemoveKeepsCount(e: Event, t: Table, cap: int, owner: Owner)
    requires e.Removed? && WellKeyed(t) && Committable(e, t, cap)
    requires Slots(t, owner) == |Counting(Forget(t.jobs), owner)|
    ensures Slots(Effect(e, t), owner) == |Counting(Do(e, Forget(t.jobs)), owner)|
  {
    var jobs := Forget(t.jobs);
    CountingAfterRemove(jobs, e.id, owner);
    assert e.id in Counting(jobs, owner) <==> jobs[e.id].ownerKey == owner && jobs[e.id].Counts();
  }

  lemma EffectKeepsCounts(e: Event, t: Table, cap: int)
    requires WellKeyed(t) && Committable(e, t, cap) && CountsExactly(t)
    ensures CountsExactly(Effect(e, t))
  {
    EffectForgets(e, t, cap);
    forall owner: Owner
      ensures Slots(Effect(e, t), owner) == |Counting(Forget(Effect(e, t).jobs), owner)|
    {
      match e
      case Inserted(_, _) => InsertKeepsCount(e, t, cap, owner);
      case Updated(_, _, _) => UpdateKeepsCount(e, t, cap, owner);
      case Removed(_) => RemoveKeepsCount(e, t, cap, owner);
    }
  }

  lemma EffectKeepsCap(e: Event, t: Table, cap: int)
    requires WellKeyed(t) && Committable(e, t, cap) && WithinCap(t, cap)
    ensures WithinCap(Effect(e, t), cap)
  {
    forall owner: Owner
      ensures Slots(Effect(e, t), owner) <= Limit(cap)
    {
      assert Slots(t, owner) <= Limit(cap);
    }
  }
}
