/** Calls that nobody interferes with, and the runs they make. */
module DynamoSolo {
  import opened ExecutionJobs
  import opened AtomicJobStore
  import opened DynamoTable
  import opened DynamoProtocol

  /** Where a call stands, and the table, after `n` of its steps at one time. */
  function Solo(cfg: Config, c: Client, t: Table, now: real, n: nat): (Client, Table)
    decreases n
  {
    if n == 0 || c.Done? then (c, t)
    else
      var o := Next(cfg, c, t, now);
      Solo(cfg, o.client, o.table, now, n - 1)
  }

  lemma OneStep(cfg: Config, c: Client, t: Table, now: real, n: nat)
    requires n > 0 && !c.Done?
    ensures
      var o := Next(cfg, c, t, now);
      Solo(cfg, c, t, now, n) == Solo(cfg, o.client, o.table, now, n - 1)
  {
  }

  /** A world that goes on from another one by steps of one client alone. */
  ghost predicate GoesOn(w: World, w': World, who: nat, c: Client, t: Table) {
    && w'.clients == w.clients[who := c] && w'.table == t
    && w'.now == w.now && w'.issued == w.issued
  }

  /** Any run goes on by the steps of one of its clients. */
  lemma {:induction false} SoloGoesOn(cfg: Config, ws: seq<World>, ms: seq<Move>, who: nat, n: nat)
    returns (ws': seq<World>, ms': seq<Move>)
    requires Run(cfg, ws, ms) && who in ws[|ms|].clients
    ensures Run(cfg, ws', ms') && ws <= ws' && ms <= ms'
    ensures
      var (c, t) := Solo(cfg, ws[|ms|].clients[who], ws[|ms|].table, ws[|ms|].now, n);
      GoesOn(ws[|ms|], ws'[|ms'|], who, c, t)
    decreases n
  {
    var w := ws[|ms|];
    if n == 0 || w.clients[who].Done? {
      ws', ms' := ws, ms;
      assert w.clients == w.clients[who := w.clients[who]];
    } else {
      var w1 := After(cfg, w, Proceed(who));
      var o := Next(cfg, w.clients[who], w.table, w.now);
      assert w1.clients == w.clients[who := o.client] && w1.table == o.table;
      ws', ms' := SoloGoesOn(cfg, ws + [w1], ms + [Proceed(who)], who, n - 1);
      OneStep(cfg, w.clients[who], w.table, w.now, n);
    }
  }

  /** A new call, and its first steps. */
  lemma CallGoesOn(cfg: Config, ws: seq<World>, ms: seq<Move>, who: nat, call: Call, n: nat)
    returns (ws': seq<World>, ms': seq<Move>)
    requires Run(cfg, ws, ms) && Allowed(ws[|ms|], Begin(who, call))
    ensures Run(cfg, ws', ms') && ws <= ws' && ms <= ms'
    ensures
      var w, w' := ws[|ms|], ws'[|ms'|];
      var (c, t) := Solo(cfg, Start(call), w.table, w.now, n);
      && w'.clients == w.clients[who := c] && w'.table == t && w'.now == w.now
      && w'.issued == if call.Submit? then w.issued + {call.job.id} else w.issued
  {
    var w := ws[|ms|];
    var w1 := After(cfg, w, Begin(who, call));
    ws', ms' := SoloGoesOn(cfg, ws + [w1], ms + [Begin(who, call)], who, n);
    var c := Solo(cfg, Start(call), w.table, w.now, n).0;
    assert w1.clients[who := c] == w.clients[who := c];
  }

  // --- the steps of `mutate` ---

  lemma SoloRead(cfg: Config, id: JobId, fn: Job -> Job, applied: seq<Job>, t: Table, now: real)
    requires id in t.jobs && !t.jobs[id].job.Evictable(now)
    ensures Solo(cfg, Read(id, fn, applied), t, now, 2) == (Commit(fn, t.jobs[id], applied, now), t)
  {
    OneStep(cfg, Read(id, fn, applied), t, now, 2);
    OneStep(cfg, Judge(fn, t.jobs[id], applied), t, now, 1);
  }

  lemma SoloCommit(cfg: Config, fn: Job -> Job, item: Item, applied: seq<Job>, clock: real, t: Table, now: real)
    requires SameIdentity(item.job, fn(item.job)) && item.job.id in t.jobs
    requires item.version == t.jobs[item.job.id].version ==> item == t.jobs[item.job.id]
    ensures
      var applied' := applied + [item.job];
      Solo(cfg, Commit(fn, item, applied, clock), t, now, 1) ==
      if item.version == t.jobs[item.job.id].version
      then (Done(JobUpdated(fn(item.job), applied')), Effect(Updated(item.job.id, fn, clock), t))
      else if |applied'| < MAX_MUTATE_ATTEMPTS then (Read(item.job.id, fn, applied'), t)
      else (Done(Contended(applied')), t)
  {
    OneStep(cfg, Commit(fn, item, applied, clock), t, now, 1);
    UpdateTransaction(t, fn(item.job), item);
    CommitIsUpdate(t, fn, item, clock);
  }

  /** Steps one after the other. */
  lemma {:induction false} SoloSplits(cfg: Config, c: Client, t: Table, now: real, m: nat, n: nat)
    ensures
      var (c', t') := Solo(cfg, c, t, now, m);
      Solo(cfg, c, t, now, m + n) == Solo(cfg, c', t', now, n)
    decreases m
  {
    if m > 0 && !c.Done? {
      var o := Next(cfg, c, t, now);
      OneStep(cfg, c, t, now, m + n);
      SoloSplits(cfg, o.client, o.table, now, m - 1, n);
    }
  }
}
