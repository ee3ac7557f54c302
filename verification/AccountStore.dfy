/** The store that holds bought plans and free-use counters, and the passes over it
    (backend/app/repositories/account_store.py:249-357, backend/app/services/billing.py:130-174,
    backend/app/services/maintenance.py:35-53). */
module AccountStore {
  import opened Wrappers
  import opened Calendar
  import opened Subscriptions

  class Store {
    var rows: seq<Subscription>
    var used: map<string, nat>
    var nextId: nat

    ghost predicate Valid()
      reads this
    {
      Orderly(rows, nextId)
    }

    constructor ()
      ensures Valid() && rows == [] && used == map[]
    {
      rows, used, nextId := [], map[], 0;
    }

    method LatestExpiryOf(user: string) returns (latest: Option<real>)
      ensures latest == LatestExpiry(rows, user)
    {
      latest := None;
      for i := 0 to |rows|
        invariant latest == LatestExpiry(rows[..i], user)
      {
        assert rows[..i + 1][..i] == rows[..i];
        if rows[i].user == user && (latest.None? || rows[i].expiresAt > latest.value) {
          latest := Some(rows[i].expiresAt);
        }
      }
      assert rows[..|rows|] == rows;
    }

    /** The plan that is active now; there is only one to choose from. */
    method ActiveSubscription(user: string, now: real) returns (active: Option<Subscription>)
      requires Valid()
      ensures active.Some? ==> active.value in rows && IsActive(active.value, user, now)
      ensures active.Some? ==> forall s | s in rows && IsActive(s, user, now) :: s == active.value
      ensures active.None? ==> forall s | s in rows :: !IsActive(s, user, now)
    {
      active := None;
      ghost var at := 0;
      for i := 0 to |rows|
        invariant active.None? ==> forall k | 0 <= k < i :: !IsActive(rows[k], user, now)
        invariant active.Some? ==> at < i && active.value == rows[at] && IsActive(rows[at], user, now)
      {
        if IsActive(rows[i], user, now) && (active.None? || rows[i].startsAt > active.value.startsAt) {
          active := Some(rows[i]);
          at := i;
        }
      }
      if active.Some? {
        forall s | s in rows && IsActive(s, user, now)
          ensures s == active.value
        {
          var k :| 0 <= k < |rows| && rows[k] == s;
          AtMostOneActive(rows, user, now, at, k);
        }
      }
    }

    /** Buying a plan. */
    method Purchase(user: string, plan: Plan, now: real) returns (s: Subscription)
      requires Valid() && now >= 0.0
      modifies this`rows, this`nextId
      ensures Valid()
      ensures s == Bought(old(rows), old(nextId), user, plan, now)
      ensures rows == old(rows) + [s] && nextId == old(nextId) + 1
    {
      var latest := LatestExpiryOf(user);
      var startsAt := if latest.Some? && latest.value > now then latest.value else now;
      PeriodsLast(startsAt, Months(plan));
      s := Subscription(nextId, user, plan, now, startsAt, AddMonths(startsAt, Months(plan)), None, None);
      PurchaseKeepsQueue(rows, nextId, user, plan, now);
      rows := rows + [s];
      nextId := nextId + 1;
    }

    method DueReminders(now: real, window: real) returns (due: seq<Subscription>)
      ensures due == RemindersDue(rows, |rows|, now, window)
    {
      due := [];
      for i := 0 to |rows|
        invariant due == RemindersDue(rows, i, now, window)
      {
        var followed := FollowedNow(rows[i]);
        if rows[i].reminderSentAt.None? && rows[i].startsAt <= now < rows[i].expiresAt <= now + window && !followed {
          due := due + [rows[i]];
        }
      }
    }

    method DueNotices(now: real) returns (due: seq<Subscription>)
      ensures due == NoticesDue(rows, |rows|, now)
    {
      due := [];
      for i := 0 to |rows|
        invariant due == NoticesDue(rows, i, now)
      {
        var followed := FollowedNow(rows[i]);
        if rows[i].noticeSentAt.None? && rows[i].expiresAt <= now && !followed {
          due := due + [rows[i]];
        }
      }
    }

    /** The subquery of both. */
    method FollowedNow(s: Subscription) returns (followed: bool)
      ensures followed == IsFollowed(rows, s)
    {
      for i := 0 to |rows|
        invariant forall k | 0 <= k < i :: !Follows(rows[k], s)
      {
        if Follows(rows[i], s) {
          return true;
        }
      }
      return false;
    }

    method MarkReminderSent(id: nat, now: real)
      requires Valid()
      modifies this`rows
      ensures Valid() && rows == WithReminder(old(rows), id, now)
    {
      MarksKeepQueue(rows, WithReminder(rows, id, now));
      rows := WithReminder(rows, id, now);
    }

    method MarkNoticeSent(id: nat, now: real)
      requires Valid()
      modifies this`rows
      ensures Valid() && rows == WithNotice(old(rows), id, now)
    {
      MarksKeepQueue(rows, WithNotice(rows, id, now));
      rows := WithNotice(rows, id, now);
    }

    // --- free uses ---

    /** The most uses recorded against any of the keys. */
    method FreeUsesUsed(keys: seq<string>) returns (most: nat)
      ensures most == MostUsed(used, keys)
    {
      most := 0;
      for i := 0 to |keys|
        invariant most == MostUsed(used, keys[..i])
      {
        assert keys[..i + 1][..i] == keys[..i];
        if UsedBy(used, keys[i]) > most {
          most := UsedBy(used, keys[i]);
        }
      }
      assert keys[..|keys|] == keys;
    }

    /** One use against every key, unless a key has reached the limit. */
    method ConsumeFreeUse(keys: seq<string>, limit: nat) returns (ok: bool)
      modifies this`used
      ensures ok == (MostUsed(old(used), keys) < limit)
      ensures used == if ok then Counted(old(used), keys) else old(used)
    {
      var most := FreeUsesUsed(keys);
      if most >= limit {
        return false;
      }
      ghost var before := used;
      for i := 0 to |keys|
        invariant used == Counted(before, keys[..i])
      {
        assert keys[..i + 1][..i] == keys[..i];
        used := used[keys[i] := UsedBy(used, keys[i]) + 1];
      }
      assert keys[..|keys|] == keys;
      return true;
    }

    method RefundFreeUse(keys: seq<string>)
      modifies this`used
      ensures used == Refunded(old(used), keys)
    {
      ghost var before := used;
      for i := 0 to |keys|
        invariant used == Refunded(before, keys[..i])
      {
        assert keys[..i + 1][..i] == keys[..i];
        if keys[i] in used {
          used := used[keys[i] := if used[keys[i]] > 0 then used[keys[i]] - 1 else 0];
        }
      }
      assert keys[..|keys|] == keys;
    }
  }

  // --- the pass ---

  class Mailer {
    var sent: seq<Mail>

    constructor ()
      ensures sent == []
    {
      sent := [];
    }

    method Send(m: Mail)
      modifies this
      ensures sent == old(sent) + [m]
    {
      sent := sent + [m];
    }
  }

  function StateOf(store: Store, mailer: Mailer): State
    reads store, mailer
  {
    State(store.rows, mailer.sent, store.nextId)
  }

  lemma RemindersStayOrderly(st: State, due: seq<Subscription>, n: nat, known: set<string>, now: real)
    requires Sound(st) && n <= |due| && DistinctIds(due) && Unreminded(st.rows, due, 0)
    ensures
      var after := AfterReminders(st, due, n, known, now);
      Orderly(after.rows, after.nextId)
  {
    RemindersAreSound(st, due, n, known, now);
  }

  lemma NoticesStayOrderly(st: State, due: seq<Subscription>, n: nat, known: set<string>, now: real)
    requires Sound(st) && n <= |due| && DistinctIds(due) && Unnoticed(st.rows, due, 0)
    ensures
      var after := AfterNotices(st, due, n, known, now);
      Orderly(after.rows, after.nextId)
  {
    NoticesAreSound(st, due, n, known, now);
  }

  /** Each plan is marked before its mail goes out. */
  method SendReminders(store: Store, mailer: Mailer, due: seq<Subscription>, known: set<string>, now: real)
    requires Sound(StateOf(store, mailer)) && DistinctIds(due) && Unreminded(store.rows, due, 0)
    modifies store`rows, mailer
    ensures StateOf(store, mailer) == AfterReminders(old(StateOf(store, mailer)), due, |due|, known, now)
  {
    ghost var st := StateOf(store, mailer);
    for i := 0 to |due|
      invariant StateOf(store, mailer) == AfterReminders(st, due, i, known, now)
    {
      RemindersStayOrderly(st, due, i, known, now);
      store.MarkReminderSent(due[i].id, now);
      if due[i].user in known {
        mailer.Send(Reminder(due[i].id));
      }
    }
  }

  method SendNotices(store: Store, mailer: Mailer, due: seq<Subscription>, known: set<string>, now: real)
    requires Sound(StateOf(store, mailer)) && DistinctIds(due) && Unnoticed(store.rows, due, 0)
    modifies store`rows, mailer
    ensures StateOf(store, mailer) == AfterNotices(old(StateOf(store, mailer)), due, |due|, known, now)
  {
    ghost var st := StateOf(store, mailer);
    for i := 0 to |due|
      invariant StateOf(store, mailer) == AfterNotices(st, due, i, known, now)
    {
      NoticesStayOrderly(st, due, i, known, now);
      store.MarkNoticeSent(due[i].id, now);
      if due[i].user in known && now - due[i].expiresAt < LATE {
        mailer.Send(Ended(due[i].id));
      }
    }
  }

  /** A maintenance pass: reminders for plans about to end, then notices for plans that have ended. */
  method RunMaintenance(store: Store, mailer: Mailer, known: set<string>, now: real, window: real)
    requires Sound(StateOf(store, mailer))
    modifies store`rows, mailer
    ensures StateOf(store, mailer) == AfterPass(old(StateOf(store, mailer)), known, now, window)
    ensures Sound(StateOf(store, mailer)) && SamePlans(old(store.rows), store.rows)
  {
    ghost var st := StateOf(store, mailer);
    ghost var more := PassIsSound(st, known, now, window);
    ghost var first := RemindersPart(st, known, now, window);
    var due := store.DueReminders(now, window);
    RemindersAreReady(store.rows, now, window);
    SendReminders(store, mailer, due, known, now);
    due := store.DueNotices(now);
    NoticesAreReady(store.rows, now);
    SendNotices(store, mailer, due, known, now);
  }

  // --- free-use counters ---

  function UsedBy(used: map<string, nat>, key: string): nat {
    if key in used then used[key] else 0
  }

  function MostUsed(used: map<string, nat>, keys: seq<string>): (r: nat)
    ensures forall i | 0 <= i < |keys| :: UsedBy(used, keys[i]) <= r
    ensures r > 0 ==> exists i :: 0 <= i < |keys| && UsedBy(used, keys[i]) == r
  {
    if keys == [] then 0
    else
      var before := MostUsed(used, keys[..|keys| - 1]);
      var last := UsedBy(used, keys[|keys| - 1]);
      if last > before then last else before
  }

  function Counted(used: map<string, nat>, keys: seq<string>): map<string, nat> {
    if keys == [] then used
    else
      var before := Counted(used, keys[..|keys| - 1]);
      before[keys[|keys| - 1] := UsedBy(before, keys[|keys| - 1]) + 1]
  }

  function Refunded(used: map<string, nat>, keys: seq<string>): map<string, nat> {
    if keys == [] then used
    else
      var before, key := Refunded(used, keys[..|keys| - 1]), keys[|keys| - 1];
      if key in before then before[key := if before[key] > 0 then before[key] - 1 else 0] else before
  }

  predicate DistinctKeys(keys: seq<string>) {
    forall i, k | 0 <= i < |keys| && 0 <= k < |keys| && keys[i] == keys[k] :: i == k
  }

  lemma {:induction false} CountedAt(used: map<string, nat>, keys: seq<string>, key: string)
    requires DistinctKeys(keys)
    ensures UsedBy(Counted(used, keys), key) == UsedBy(used, key) + (if key in keys then 1 else 0)
  {
    if keys != [] {
      var front, last := keys[..|keys| - 1], keys[|keys| - 1];
      CountedAt(used, front, key);
      assert keys == front + [last];
      assert last !in front;
    }
  }

  lemma {:induction false} RefundedAt(used: map<string, nat>, keys: seq<string>, key: string)
    requires DistinctKeys(keys)
    ensures UsedBy(Refunded(used, keys), key)
         == if key in keys && UsedBy(used, key) > 0 then UsedBy(used, key) - 1 else UsedBy(used, key)
  {
    if keys != [] {
      var front, last := keys[..|keys| - 1], keys[|keys| - 1];
      RefundedAt(used, front, key);
      assert keys == front + [last];
      assert last !in front;
    }
  }

  /** A refund takes back exactly what a use recorded. */
  lemma RefundUndoesUse(used: map<string, nat>, keys: seq<string>, key: string)
    requires DistinctKeys(keys)
    ensures UsedBy(Refunded(Counted(used, keys), keys), key) == UsedBy(used, key)
  {
    CountedAt(used, keys, key);
    RefundedAt(Counted(used, keys), keys, key);
  }

  datatype Charge = Consume(keys: seq<string>) | Refund(keys: seq<string>)

  function Charged(used: map<string, nat>, c: Charge, limit: nat): map<string, nat> {
    match c
    case Consume(keys) => if MostUsed(used, keys) < limit then Counted(used, keys) else used
    case Refund(keys) => Refunded(used, keys)
  }

  function ChargedAll(used: map<string, nat>, charges: seq<Charge>, limit: nat): map<string, nat> {
    if charges == [] then used
    else Charged(ChargedAll(used, charges[..|charges| - 1], limit), charges[|charges| - 1], limit)
  }

  lemma OneChargeKeepsLimit(used: map<string, nat>, c: Charge, limit: nat, key: string)
    requires DistinctKeys(c.keys) && UsedBy(used, key) <= limit
    ensures UsedBy(Charged(used, c, limit), key) <= limit
  {
    match c
    case Consume(keys) =>
      CountedAt(used, keys, key);
      assert key in keys ==> exists i :: 0 <= i < |keys| && keys[i] == key;
    case Refund(keys) =>
      RefundedAt(used, keys, key);
  }

  /** No sequence of uses and refunds takes a key beyond the limit. */
  lemma {:induction false} LimitIsKept(charges: seq<Charge>, limit: nat, key: string)
    requires forall i | 0 <= i < |charges| :: DistinctKeys(charges[i].keys)
    ensures UsedBy(ChargedAll(map[], charges, limit), key) <= limit
  {
    if charges != [] {
      LimitIsKept(charges[..|charges| - 1], limit, key);
      OneChargeKeepsLimit(ChargedAll(map[], charges[..|charges| - 1], limit), charges[|charges| - 1], limit, key);
    }
  }
}
