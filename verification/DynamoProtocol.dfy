/** Any number of clients running `create_if_allowed`, `mutate`, `get` and `delete` against the
    shared table (backend/app/repositories/dynamodb_job_store.py). Each read, clock reading and
    transaction is one step of one client; steps of different clients interleave freely. */
module DynamoProtocol {
  import opened Wrappers
  import opened ExecutionJobs
  import opened AtomicJobStore
  import opened DynamoTable

  const MAX_MUTATE_ATTEMPTS := 20

  datatype Config = Config(window: real, cap: int)

  datatype Reply =
    | JobCreated(job: Job) | JobExisting(job: Job) | CapReached
    | JobUpdated(job: Job, applied: seq<Job>) | NothingToUpdate(applied: seq<Job>) | Contended(applied: seq<Job>)
    | JobFound(job: Job) | NoJob
    | Deleted(found: bool)

  /** What a client does next. */
  datatype Client =
    | Idle
    // create_if_allowed; `again` marks the second lookup, after a lost race for the key
    | LookUp(job: Job, again: bool)
    | CheckMarker(job: Job, marker: Marker, again: bool)
    | Fetch(job: Job, found: JobId, again: bool)
    | JudgeFetched(job: Job, item: Item, again: bool)
    | EvictFetched(job: Job, item: Item, again: bool)
    | ReadWindow(job: Job)
    | Insert(job: Job, windowStart: real)
    // mutate; `applied` holds the records that the update was applied to in earlier attempts, so
    // its length counts them and it fixes whatever a closure with a state of its own remembers
    | Read(id: JobId, fn: Job -> Job, applied: seq<Job>)
    | Judge(fn: Job -> Job, item: Item, applied: seq<Job>)
    | Commit(fn: Job -> Job, item: Item, applied: seq<Job>, clock: real)
    | EvictUpdated(item: Item, applied: seq<Job>)
    // get
    | Load(id: JobId)
    | Weigh(item: Item)
    | EvictThenNone(item: Item)
    // delete
    | Find(id: JobId)
    | Drop(item: Item)
    | Done(reply: Reply)

  /** The record a client read earlier and still relies on. */
  function Held(c: Client): Option<Item> {
    match c
    case JudgeFetched(_, item, _) => Some(item)
    case EvictFetched(_, item, _) => Some(item)
    case Judge(_, item, _) => Some(item)
    case Commit(_, item, _, _) => Some(item)
    case EvictUpdated(item, _) => Some(item)
    case EvictThenNone(item) => Some(item)
    case Weigh(item) => Some(item)
    case Drop(item) => Some(item)
    case _ => None
  }

  /** The job a client is still trying to insert. */
  function Pending(c: Client): Option<Job> {
    match c
    case LookUp(job, _) => Some(job)
    case CheckMarker(job, _, _) => Some(job)
    case Fetch(job, _, _) => Some(job)
    case JudgeFetched(job, _, _) => Some(job)
    case EvictFetched(job, _, _) => Some(job)
    case ReadWindow(job) => Some(job)
    case Insert(job, _) => Some(job)
    case _ => None
  }

  function Updater(c: Client): Option<Job -> Job> {
    match c
    case Read(_, fn, _) => Some(fn)
    case Judge(fn, _, _) => Some(fn)
    case Commit(fn, _, _, _) => Some(fn)
    case _ => None
  }

  function NoKeyedJob(job: Job, again: bool): Client {
    if again then Done(CapReached) else ReadWindow(job)
  }

  datatype Outcome = Outcome(client: Client, table: Table, change: Option<Event>)

  /** One step of one client: the code between two accesses to the shared table or the clock. */
  function Next(cfg: Config, c: Client, t: Table, now: real): Outcome {
    match c
    case Idle => Outcome(c, t, None)
    case Done(_) => Outcome(c, t, None)

    case LookUp(job, again) =>
      var k := (job.ownerKey, if job.idempotencyKey.Some? then job.idempotencyKey.value else "");
      Outcome(if k in t.keys then CheckMarker(job, t.keys[k], again) else NoKeyedJob(job, again), t, None)
    case CheckMarker(job, marker, again) =>
      Outcome(if marker.createdAt < now - cfg.window then NoKeyedJob(job, again)
              else Fetch(job, marker.jobId, again), t, None)
    case Fetch(job, id, again) =>
      Outcome(if id in t.jobs then JudgeFetched(job, t.jobs[id], again) else NoKeyedJob(job, again), t, None)
    case JudgeFetched(job, item, again) =>
      Outcome(if item.job.Evictable(now) then EvictFetched(job, item, again)
              else Done(JobExisting(item.job)), t, None)
    case EvictFetched(job, item, again) =>
      var (t', ok) := Transact(EvictWrites(item), t);
      Outcome(NoKeyedJob(job, again), t', if ok then Some(Removed(item.job.id)) else None)
    case ReadWindow(job) =>
      Outcome(Insert(job, now - cfg.window), t, None)
    case Insert(job, start) =>
      var (t', ok) := Transact(InsertWrites(job, cfg.cap, start), t);
      if ok then Outcome(Done(JobCreated(job)), t', Some(Inserted(job, start)))
      else if job.HasKey() &&
              !Holds(PutKey(job.ownerKey, job.idempotencyKey.value, Marker(job.id, job.createdAt), start), t)
      then Outcome(LookUp(job, true), t', None)
      else Outcome(Done(CapReached), t', None)

    case Read(id, fn, applied) =>
      Outcome(if id in t.jobs then Judge(fn, t.jobs[id], applied) else Done(NothingToUpdate(applied)), t, None)
    case Judge(fn, item, applied) =>
      Outcome(if item.job.Evictable(now) then EvictUpdated(item, applied)
              else Commit(fn, item, applied, now), t, None)
    case Commit(fn, item, applied, clock) =>
      var (t', ok) := Transact(UpdateWrites(fn(item.job), item), t);
      var applied' := applied + [item.job];
      if ok then Outcome(Done(JobUpdated(fn(item.job), applied')), t', Some(Updated(item.job.id, fn, clock)))
      else if |applied'| < MAX_MUTATE_ATTEMPTS then Outcome(Read(item.job.id, fn, applied'), t', None)
      else Outcome(Done(Contended(applied')), t', None)
    case EvictUpdated(item, applied) =>
      var (t', ok) := Transact(EvictWrites(item), t);
      Outcome(Done(NothingToUpdate(applied)), t', if ok then Some(Removed(item.job.id)) else None)

    case Load(id) =>
      Outcome(if id in t.jobs then Weigh(t.jobs[id]) else Done(NoJob), t, None)
    case Weigh(item) =>
      Outcome(if item.job.Evictable(now) then EvictThenNone(item) else Done(JobFound(item.job)), t, None)
    case EvictThenNone(item) =>
      var (t', ok) := Transact(EvictWrites(item), t);
      Outcome(Done(NoJob), t', if ok then Some(Removed(item.job.id)) else None)

    case Find(id) =>
      Outcome(if id in t.jobs then Drop(t.jobs[id]) else Done(Deleted(false)), t, None)
    case Drop(item) =>
      var (t', ok) := Transact(EvictWrites(item), t);
      Outcome(Done(Deleted(true)), t', if ok then Some(Removed(item.job.id)) else None)
  }

  // --- the world and its runs ---

  datatype Call = Submit(job: Job) | Change(id: JobId, fn: Job -> Job) | Lookup(id: JobId) | Discard(id: JobId)

  function Start(call: Call): Client {
    match call
    case Submit(job) => if job.HasKey() then LookUp(job, false) else ReadWindow(job)
    case Change(id, fn) => Read(id, fn, [])
    case Lookup(id) => Load(id)
    case Discard(id) => Find(id)
  }

  /** `issued` and `born` are history: the ids submitted so far, and those ever stored. */
  datatype World = World(
    table: Table, now: real, clients: map<nat, Client>,
    issued: set<JobId>, born: set<JobId>, log: seq<Event>)

  datatype Move = Tick(to: real) | Begin(who: nat, call: Call) | Proceed(who: nat)

  /** A submitted job is queued, has a fresh random id and was stamped with an earlier clock. */
  ghost predicate CanCall(w: World, call: Call) {
    match call
    case Submit(job) =>
      job.id !in w.issued && job.state == Queued && !job.workerActive && job.createdAt <= w.now
    case Change(_, fn) => Lawful(fn)
    case _ => true
  }

  ghost predicate Allowed(w: World, m: Move) {
    match m
    case Tick(to) => w.now <= to
    case Begin(who, call) => who in w.clients && (w.clients[who].Idle? || w.clients[who].Done?) && CanCall(w, call)
    case Proceed(who) => who in w.clients
  }

  function After(cfg: Config, w: World, m: Move): World {
    match m
    case Tick(to) => w.(now := to)
    case Begin(who, call) =>
      w.(clients := w.clients[who := Start(call)],
         issued := if call.Submit? then w.issued + {call.job.id} else w.issued)
    case Proceed(who) =>
      if who !in w.clients then w else
      var o := Next(cfg, w.clients[who], w.table, w.now);
      w.(table := o.table,
         clients := w.clients[who := o.client],
         born := if o.change.Some? && o.change.value.Inserted? then w.born + {o.change.value.job.id} else w.born,
         log := if o.change.Some? then w.log + [o.change.value] else w.log)
  }

  ghost predicate Initial(w: World) {
    w.table == EMPTY && w.issued == {} && w.born == {} && w.log == [] && forall c | c in w.clients :: w.clients[c].Idle?
  }

  ghost predicate Run(cfg: Config, ws: seq<World>, ms: seq<Move>) {
    && |ws| == |ms| + 1
    && Initial(ws[0])
    && forall i | 0 <= i < |ms| :: Allowed(ws[i], ms[i]) && ws[i + 1] == After(cfg, ws[i], ms[i])
  }

  // --- the invariant ---

  /** A held record with the current version is the current record. */
  predicate Fresh(w: World, item: Item) {
    && item.job.id in w.born
    && (item.job.id in w.table.jobs ==>
          && item.version <= w.table.jobs[item.job.id].version
          && (item.version == w.table.jobs[item.job.id].version ==> item == w.table.jobs[item.job.id]))
  }

  ghost predicate ClientOk(cfg: Config, w: World, c: Client) {
    && (Held(c).Some? ==> Fresh(w, Held(c).value))
    && (Pending(c).Some? ==>
          var job := Pending(c).value;
          job.id in w.issued && job.id !in w.born && job.state == Queued && !job.workerActive)
    && (Updater(c).Some? ==> Lawful(Updater(c).value))
    && (c.Insert? ==> c.windowStart <= w.now - cfg.window)
    && (c.Commit? ==> !c.item.job.Evictable(c.clock))
  }

  ghost predicate ClientsOk(cfg: Config, w: World) {
    && (forall c | c in w.clients :: ClientOk(cfg, w, w.clients[c]))
    && (forall a, b | a in w.clients && b in w.clients && a != b
                      && Pending(w.clients[a]).Some? && Pending(w.clients[b]).Some? ::
          Pending(w.clients[a]).value.id != Pending(w.clients[b]).value.id)
  }

  predicate KeyOf(j: Job, k: (Owner, string)) {
    j.HasKey() && k == (j.ownerKey, j.idempotencyKey.value)
  }

  /** A stored job owns the marker of its key until it has left the idempotency window. */
  predicate KeysOk(cfg: Config, w: World) {
    forall id | id in w.table.jobs && w.table.jobs[id].job.HasKey() ::
      var j := w.table.jobs[id].job;
      var k := (j.ownerKey, j.idempotencyKey.value);
      && k in w.table.keys
      && (w.table.keys[k] == Marker(id, j.createdAt) || j.createdAt < w.now - cfg.window)
  }

  ghost predicate TableOk(cfg: Config, w: World) {
    && WellKeyed(w.table)
    && CountsExactly(w.table)
    && WithinCap(w.table, cfg.cap)
    && w.table.jobs.Keys <= w.born <= w.issued
    && Replay(w.log) == Forget(w.table.jobs)
    && Legal(w.log)
  }

  ghost predicate Inv(cfg: Config, w: World) {
    TableOk(cfg, w) && ClientsOk(cfg, w) && KeysOk(cfg, w)
  }

  lemma EvictIsRemoval(t: Table, item: Item)
    requires item.job.id in t.jobs && item.version == t.jobs[item.job.id].version ==> item == t.jobs[item.job.id]
    ensures
      var (t', ok) := Transact(EvictWrites(item), t);
      if ok then t' == Effect(Removed(item.job.id), t) && item.job.id in t.jobs else t' == t
  {
    EvictTransaction(t, item);
  }

  lemma CommitIsUpdate(t: Table, fn: Job -> Job, item: Item, clock: real)
    requires item.job.id in t.jobs && item.version == t.jobs[item.job.id].version ==> item == t.jobs[item.job.id]
    requires SameIdentity(item.job, fn(item.job))
    ensures
      var (t', ok) := Transact(UpdateWrites(fn(item.job), item), t);
      if ok then
        t' == Effect(Updated(item.job.id, fn, clock), t) && item.job.id in t.jobs && item == t.jobs[item.job.id]
      else t' == t
  {
    UpdateTransaction(t, fn(item.job), item);
  }

  /** Every step either leaves the table alone or commits exactly one change that the atomic
      store could have made at that moment. */
  lemma StepCommitsOneChange(cfg: Config, w: World, who: nat)
    requires WellKeyed(w.table) && who in w.clients && ClientOk(cfg, w, w.clients[who])
    ensures
      var o := Next(cfg, w.clients[who], w.table, w.now);
      && (o.change.None? ==> o.table == w.table)
      && (o.change.Some? ==>
            Committable(o.change.value, w.table, cfg.cap) && o.table == Effect(o.change.value, w.table))
  {
    var c := w.clients[who];
    match c
    case EvictFetched(_, item, _) => EvictIsRemoval(w.table, item);
    case EvictThenNone(item) => EvictIsRemoval(w.table, item);
    case EvictUpdated(item, _) => EvictIsRemoval(w.table, item);
    case Drop(item) => EvictIsRemoval(w.table, item);
    case Insert(job, start) => InsertTransaction(w.table, job, cfg.cap, start);
    case Commit(fn, item, _, clock) => CommitIsUpdate(w.table, fn, item, clock);
    case _ =>
  }

  /** Which job a step inserts. */
  lemma OnlyPendingIsInserted(cfg: Config, c: Client, t: Table, now: real)
    ensures
      var o := Next(cfg, c, t, now);
      o.change.Some? && o.change.value.Inserted? ==>
        c.Insert? && o.change.value == Inserted(c.job, c.windowStart) && Pending(o.client).None?
  {
  }

  lemma ChangeKeepsTable(cfg: Config, w: World, w': World, e: Event)
    requires TableOk(cfg, w) && Committable(e, w.table, cfg.cap)
    requires e.Inserted? ==> e.job.id in w.issued
    requires w'.table == Effect(e, w.table) && w'.log == w.log + [e] && w'.issued == w.issued
    requires w'.born == if e.Inserted? then w.born + {e.job.id} else w.born
    ensures TableOk(cfg, w')
  {
    EffectForgets(e, w.table, cfg.cap);
    EffectKeepsCounts(e, w.table, cfg.cap);
    EffectKeepsCap(e, w.table, cfg.cap);
    LogExtends(w.log, e);
  }

  lemma StepKeepsTable(cfg: Config, w: World, m: Move)
    requires TableOk(cfg, w) && ClientsOk(cfg, w) && Allowed(w, m)
    ensures TableOk(cfg, After(cfg, w, m))
  {
    if m.Proceed? {
      var o := Next(cfg, w.clients[m.who], w.table, w.now);
      StepCommitsOneChange(cfg, w, m.who);
      OnlyPendingIsInserted(cfg, w.clients[m.who], w.table, w.now);
      if o.change.Some? {
        assert ClientOk(cfg, w, w.clients[m.who]);
        ChangeKeepsTable(cfg, w, After(cfg, w, m), o.change.value);
      }
    }
  }

  /** A change of the table keeps every held record fresh: versions only grow, and a removed job
      never comes back. */
  lemma ChangeKeepsFresh(w: World, w': World, e: Event, cap: int, item: Item)
    requires WellKeyed(w.table) && Committable(e, w.table, cap) && Fresh(w, item)
    requires e.Inserted? ==> e.job.id !in w.born
    requires w'.table == Effect(e, w.table)
    requires w'.born == if e.Inserted? then w.born + {e.job.id} else w.born
    ensures Fresh(w', item)
  {
  }

  /** What the clients other than the moving one rely on survives its step. */
  lemma OthersStayOk(cfg: Config, w: World, m: Move, c: nat)
    requires WellKeyed(w.table) && ClientsOk(cfg, w) && Allowed(w, m) && c in w.clients
    requires m.Tick? || m.who != c
    ensures ClientOk(cfg, After(cfg, w, m), w.clients[c])
  {
    assert ClientOk(cfg, w, w.clients[c]);
    if m.Proceed? {
      var o := Next(cfg, w.clients[m.who], w.table, w.now);
      StepCommitsOneChange(cfg, w, m.who);
      OnlyPendingIsInserted(cfg, w.clients[m.who], w.table, w.now);
      assert ClientOk(cfg, w, w.clients[m.who]);
      if o.change.Some? && Held(w.clients[c]).Some? {
        ChangeKeepsFresh(w, After(cfg, w, m), o.change.value, cfg.cap, Held(w.clients[c]).value);
      }
    }
  }

  /** What a step leaves a client relying on: a record it held before or has just read. */
  lemma NextHolds(cfg: Config, c: Client, t: Table, now: real)
    requires c.Commit? ==> SameIdentity(c.item.job, c.fn(c.item.job))
    ensures
      var o := Next(cfg, c, t, now);
      && (Held(o.client).Some? ==>
            || Held(o.client) == Held(c)
            || (o.change.None? && Held(o.client).value in t.jobs.Values))
      && (Held(o.client).Some? ==> o.change.None?)
      && (Pending(o.client).Some? ==>
            Pending(o.client) == Pending(c) && (o.change.Some? ==> !o.change.value.Inserted?))
      && (Updater(o.client).Some? ==> Updater(o.client) == Updater(c))
      && (o.client.Insert? ==> o.client.windowStart == now - cfg.window)
      && (o.client.Commit? ==> !o.client.item.job.Evictable(o.client.clock))
  {
  }

  lemma MoverStaysOk(cfg: Config, w: World, m: Move)
    requires TableOk(cfg, w) && ClientsOk(cfg, w) && Allowed(w, m) && !m.Tick?
    ensures ClientOk(cfg, After(cfg, w, m), After(cfg, w, m).clients[m.who])
  {
    assert ClientOk(cfg, w, w.clients[m.who]);
    if m.Proceed? {
      NextHolds(cfg, w.clients[m.who], w.table, w.now);
      StepCommitsOneChange(cfg, w, m.who);
    }
  }

  lemma StepKeepsClients(cfg: Config, w: World, m: Move)
    requires TableOk(cfg, w) && ClientsOk(cfg, w) && Allowed(w, m)
    ensures ClientsOk(cfg, After(cfg, w, m))
  {
    var w' := After(cfg, w, m);
    forall c | c in w'.clients
      ensures ClientOk(cfg, w', w'.clients[c])
    {
      if m.Tick? || m.who != c {
        OthersStayOk(cfg, w, m, c);
      } else {
        MoverStaysOk(cfg, w, m);
      }
    }
    forall a, b | a in w'.clients && b in w'.clients && a != b
                  && Pending(w'.clients[a]).Some? && Pending(w'.clients[b]).Some?
      ensures Pending(w'.clients[a]).value.id != Pending(w'.clients[b]).value.id
    {
      PendingComesFrom(cfg, w, m, a);
      PendingComesFrom(cfg, w, m, b);
      assert ClientOk(cfg, w, w.clients[a]) && ClientOk(cfg, w, w.clients[b]);
    }
  }

  lemma PendingComesFrom(cfg: Config, w: World, m: Move, c: nat)
    requires ClientsOk(cfg, w) && Allowed(w, m) && c in w.clients
    requires Pending(After(cfg, w, m).clients[c]).Some?
    ensures
      || Pending(After(cfg, w, m).clients[c]) == Pending(w.clients[c])
      || (m.Begin? && m.who == c && m.call.Submit? && Pending(After(cfg, w, m).clients[c]) == Some(m.call.job))
  {
    assert ClientOk(cfg, w, w.clients[c]);
    if m.Proceed? && m.who == c {
      NextHolds(cfg, w.clients[c], w.table, w.now);
    }
  }

  lemma ChangeKeepsKeys(cfg: Config, w: World, w': World, e: Event)
    requires WellKeyed(w.table) && KeysOk(cfg, w) && Committable(e, w.table, cfg.cap)
    requires e.Inserted? ==> e.windowStart <= w.now - cfg.window
    requires w'.table == Effect(e, w.table) && w'.now == w.now
    ensures KeysOk(cfg, w')
  {
    if e.Updated? {
      assert SameIdentity(w.table.jobs[e.id].job, e.fn(w.table.jobs[e.id].job));
    }
  }

  lemma StepKeepsKeys(cfg: Config, w: World, m: Move)
    requires Inv(cfg, w) && Allowed(w, m)
    ensures KeysOk(cfg, After(cfg, w, m))
  {
    if m.Proceed? {
      var o := Next(cfg, w.clients[m.who], w.table, w.now);
      StepCommitsOneChange(cfg, w, m.who);
      OnlyPendingIsInserted(cfg, w.clients[m.who], w.table, w.now);
      assert ClientOk(cfg, w, w.clients[m.who]);
      if o.change.Some? {
        ChangeKeepsKeys(cfg, w, After(cfg, w, m), o.change.value);
      }
    }
  }

  lemma {:induction false} RunInvariant(cfg: Config, ws: seq<World>, ms: seq<Move>, i: nat)
    requires Run(cfg, ws, ms) && i < |ws|
    ensures Inv(cfg, ws[i])
  {
    if i == 0 {
      var w := ws[0];
      forall owner: Owner
        ensures Slots(w.table, owner) == |Counting(Forget(w.table.jobs), owner)|
      {
        assert Counting(Forget(w.table.jobs), owner) == {};
      }
    } else {
      RunInvariant(cfg, ws, ms, i - 1);
      assert Allowed(ws[i - 1], ms[i - 1]) && ws[i] == After(cfg, ws[i - 1], ms[i - 1]);
      StepKeepsTable(cfg, ws[i - 1], ms[i - 1]);
      StepKeepsClients(cfg, ws[i - 1], ms[i - 1]);
      StepKeepsKeys(cfg, ws[i - 1], ms[i - 1]);
    }
  }
}
