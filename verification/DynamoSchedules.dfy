/** One call seen from its own client: what the others commit before each of its accesses to the
    shared table, and what it then does. Every run is such a schedule for each of its calls. */
module DynamoSchedules {
  import opened ExecutionJobs
  import opened AtomicJobStore
  import opened DynamoTable
  import opened DynamoProtocol
  import opened DynamoTheorems

  function EffectAll(es: seq<Event>, t: Table): Table {
    if es == [] then t else EffectAll(es[1..], Effect(es[0], t))
  }

  ghost predicate CommittableAll(es: seq<Event>, t: Table, cap: int) {
    es == [] || (Committable(es[0], t, cap) && CommittableAll(es[1..], Effect(es[0], t), cap))
  }

  lemma {:induction false} EffectAllSplits(a: seq<Event>, b: seq<Event>, t: Table, cap: int)
    ensures EffectAll(a + b, t) == EffectAll(b, EffectAll(a, t))
    ensures CommittableAll(a + b, t, cap) <==> CommittableAll(a, t, cap) && CommittableAll(b, EffectAll(a, t), cap)
    decreases |a|
  {
    if a == [] {
      assert a + b == b;
    } else {
      assert (a + b)[1..] == a[1..] + b;
      EffectAllSplits(a[1..], b, Effect(a[0], t), cap);
    }
  }

  /** What the others commit before the next access of a client, and the time of that access. */
  datatype Chance = Chance(others: seq<Event>, now: real)

  /** Where a call stands, and the table, after as many of its steps as there are chances. */
  function Course(cfg: Config, c: Client, t: Table, env: seq<Chance>): (Client, Table)
    decreases |env|
  {
    if env == [] || c.Done? then (c, t)
    else
      var o := Next(cfg, c, EffectAll(env[0].others, t), env[0].now);
      Course(cfg, o.client, o.table, env[1..])
  }

  lemma NextTurn(cfg: Config, c: Client, t: Table, env: seq<Chance>, n: nat)
    requires n < |env| && !c.Done?
    ensures
      var o := Next(cfg, c, EffectAll(env[n].others, t), env[n].now);
      Course(cfg, c, t, env[n..]) == Course(cfg, o.client, o.table, env[n + 1..])
  {
    assert env[n..][1..] == env[n + 1..];
  }

  /** A `get` weighs the record it read. */
  lemma WeighTurns(cfg: Config, item: Item, t: Table, env: seq<Chance>, n: nat)
    requires n + 2 <= |env|
    ensures
      var t1 := EffectAll(env[n].others, t);
      Course(cfg, Weigh(item), t, env[n..]) ==
      if item.job.Evictable(env[n].now)
      then (Done(NoJob), Transact(EvictWrites(item), EffectAll(env[n + 1].others, t1)).0)
      else (Done(JobFound(item.job)), t1)
  {
    NextTurn(cfg, Weigh(item), t, env, n);
    if item.job.Evictable(env[n].now) {
      NextTurn(cfg, EvictThenNone(item), EffectAll(env[n].others, t), env, n + 1);
    }
  }

  lemma FetchTurns(cfg: Config, job: Job, id: JobId, again: bool, t: Table, env: seq<Chance>, n: nat)
    requires n + 3 <= |env|
    ensures
      var t1 := EffectAll(env[n].others, t);
      Course(cfg, Fetch(job, id, again), t, env[n..]) ==
      if id !in t1.jobs then Course(cfg, NoKeyedJob(job, again), t1, env[n + 1..])
      else Course(cfg, JudgeFetched(job, t1.jobs[id], again), t1, env[n + 1..])
  {
    NextTurn(cfg, Fetch(job, id, again), t, env, n);
  }

  /** A fetched record either answers or is removed. */
  lemma JudgeTurns(cfg: Config, job: Job, item: Item, again: bool, t: Table, env: seq<Chance>, n: nat)
    requires n + 2 <= |env|
    ensures
      var t1 := EffectAll(env[n].others, t);
      Course(cfg, JudgeFetched(job, item, again), t, env[n..]) ==
      if item.job.Evictable(env[n].now) then
        var t2 := EffectAll(env[n + 1].others, t1);
        Course(cfg, NoKeyedJob(job, again), Transact(EvictWrites(item), t2).0, env[n + 2..])
      else Course(cfg, Done(JobExisting(item.job)), t1, env[n + 1..])
  {
    NextTurn(cfg, JudgeFetched(job, item, again), t, env, n);
    if item.job.Evictable(env[n].now) {
      NextTurn(cfg, EvictFetched(job, item, again), EffectAll(env[n].others, t), env, n + 1);
    }
  }

  /** The condition on the key's marker is what made the transaction fail. */
  predicate LosesKey(job: Job, start: real, t: Table) {
    job.HasKey() && !Holds(PutKey(job.ownerKey, job.idempotencyKey.value, Marker(job.id, job.createdAt), start), t)
  }

  /** The inserting step: inserted, lost the key to another call, or refused. */
  lemma InsertTurns(cfg: Config, job: Job, start: real, t: Table, env: seq<Chance>, n: nat)
    requires n < |env|
    ensures
      var t1 := EffectAll(env[n].others, t);
      var (t2, ok) := Transact(InsertWrites(job, cfg.cap, start), t1);
      Course(cfg, Insert(job, start), t, env[n..]) ==
      if ok then (Done(JobCreated(job)), t2)
      else if LosesKey(job, start, t1) then Course(cfg, LookUp(job, true), t1, env[n + 1..])
      else (Done(CapReached), t1)
  {
    NextTurn(cfg, Insert(job, start), t, env, n);
  }

  lemma {:induction false} CourseExtends(cfg: Config, c: Client, t: Table, env: seq<Chance>, x: Chance)
    ensures
      var (c', t') := Course(cfg, c, t, env);
      var o := Next(cfg, c', EffectAll(x.others, t'), x.now);
      Course(cfg, c, t, env + [x]) == if c'.Done? then (c', t') else (o.client, o.table)
    decreases |env|
  {
    if env == [] {
      assert (env + [x])[1..] == [] && (env + [x])[0] == x;
    } else if !c.Done? {
      assert (env + [x])[1..] == env[1..] + [x] && (env + [x])[0] == env[0];
      var o := Next(cfg, c, EffectAll(env[0].others, t), env[0].now);
      CourseExtends(cfg, o.client, o.table, env[1..], x);
    }
  }

  predicate SameCall(ms: seq<Move>, who: nat, i: nat, j: nat)
    requires i <= j <= |ms|
  {
    forall k | i <= k < j && ms[k].Begin? :: ms[k].who != who
  }

  /** Any stretch of any run, seen from one client that makes no new call in it, is a schedule of
      that client: its own steps, and atomic changes that the others commit in between. */
  lemma {:induction false} RunIsASchedule(cfg: Config, ws: seq<World>, ms: seq<Move>, who: nat, i: nat, j: nat)
    returns (env: seq<Chance>, late: seq<Event>)
    requires Run(cfg, ws, ms) && i <= j < |ws| && who in ws[i].clients && SameCall(ms, who, i, j)
    ensures who in ws[j].clients
    ensures
      var (c, t) := Course(cfg, ws[i].clients[who], ws[i].table, env);
      c == ws[j].clients[who] && EffectAll(late, t) == ws[j].table && CommittableAll(late, t, cfg.cap)
    decreases j
  {
    if i == j {
      env, late := [], [];
    } else {
      env, late := RunIsASchedule(cfg, ws, ms, who, i, j - 1);
      var w, w', m := ws[j - 1], ws[j], ms[j - 1];
      assert Allowed(w, m) && w' == After(cfg, w, m);
      var t := Course(cfg, ws[i].clients[who], ws[i].table, env).1;
      if m.Proceed? && m.who == who {
        CourseExtends(cfg, ws[i].clients[who], ws[i].table, env, Chance(late, w.now));
        if !w.clients[who].Done? {
          env, late := env + [Chance(late, w.now)], [];
        }
      } else if m.Proceed? {
        StepChange(cfg, ws, ms, j - 1);
        if !Quiet(w, w') {
          var e :| Commits(cfg, w, w', e);
          EffectAllSplits(late, [e], t, cfg.cap);
          assert [e][1..] == [] && EffectAll([e], w.table) == w'.table;
          late := late + [e];
        }
      }
    }
  }
}
