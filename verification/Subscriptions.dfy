/** Bought plans and the mails about them, as rows of one table
    (backend/app/repositories/account_store.py:249-319, backend/app/services/billing.py:150-174,
    backend/app/services/maintenance.py:35-53). */
module Subscriptions {
  import opened Wrappers
  import opened Calendar

  datatype Plan = Monthly | Semiannual | Yearly

  function Months(p: Plan): (m: nat)
    ensures m >= 1
  {
    match p
    case Monthly => 1
    case Semiannual => 6
    case Yearly => 12
  }

  datatype Subscription = Subscription(id: nat, user: string, plan: Plan, purchasedAt: real, startsAt: real,
                                       expiresAt: real, reminderSentAt: Option<real>, noticeSentAt: Option<real>)

  // --- queries ---

  /** `MAX(expires_at)` of a user. */
  function LatestExpiry(rows: seq<Subscription>, user: string): (r: Option<real>)
    ensures r.None? ==> forall i | 0 <= i < |rows| :: rows[i].user != user
    ensures r.Some? ==> exists i :: 0 <= i < |rows| && rows[i].user == user && rows[i].expiresAt == r.value
    ensures r.Some? ==> forall i | 0 <= i < |rows| && rows[i].user == user :: rows[i].expiresAt <= r.value
  {
    if rows == [] then None
    else
      var last := rows[|rows| - 1];
      var before := LatestExpiry(rows[..|rows| - 1], user);
      if last.user == user && (before.None? || last.expiresAt > before.value) then Some(last.expiresAt) else before
  }

  predicate IsActive(s: Subscription, user: string, now: real) {
    s.user == user && s.startsAt <= now < s.expiresAt
  }

  /** Another plan of the same user that starts no earlier and ends later. */
  predicate Follows(n: Subscription, s: Subscription) {
    n.user == s.user && n.id != s.id && n.startsAt >= s.startsAt && n.expiresAt > s.expiresAt
  }

  predicate IsFollowed(rows: seq<Subscription>, s: Subscription) {
    exists i :: 0 <= i < |rows| && Follows(rows[i], s)
  }

  predicate DueReminder(rows: seq<Subscription>, s: Subscription, now: real, window: real) {
    s.reminderSentAt.None? && s.startsAt <= now < s.expiresAt <= now + window && !IsFollowed(rows, s)
  }

  predicate DueNotice(rows: seq<Subscription>, s: Subscription, now: real) {
    s.noticeSentAt.None? && s.expiresAt <= now && !IsFollowed(rows, s)
  }

  // --- what every purchase keeps ---

  /** Identities are unique, periods are not empty, and a user's plans queue up in the order in which
      they were bought. */
  predicate Queued(rows: seq<Subscription>) {
    && (forall i | 0 <= i < |rows| :: 0.0 <= rows[i].startsAt < rows[i].expiresAt)
    && (forall i, k | 0 <= i < |rows| && 0 <= k < |rows| && rows[i].id == rows[k].id :: i == k)
    && (forall i, k | 0 <= i < k < |rows| && rows[i].user == rows[k].user :: rows[i].expiresAt <= rows[k].startsAt)
  }

  function StartOf(rows: seq<Subscription>, user: string, now: real): real {
    var latest := LatestExpiry(rows, user);
    if latest.Some? && latest.value > now then latest.value else now
  }

  function Bought(rows: seq<Subscription>, id: nat, user: string, plan: Plan, now: real): Subscription
    requires now >= 0.0
  {
    var starts := StartOf(rows, user, now);
    Subscription(id, user, plan, now, starts, AddMonths(starts, Months(plan)), None, None)
  }

  lemma PurchaseKeepsQueue(rows: seq<Subscription>, id: nat, user: string, plan: Plan, now: real)
    requires Queued(rows) && now >= 0.0 && forall i | 0 <= i < |rows| :: rows[i].id != id
    ensures Queued(rows + [Bought(rows, id, user, plan, now)])
  {
    var starts := StartOf(rows, user, now);
    PeriodsLast(starts, Months(plan));
    assert (28 * Months(plan)) as real * DAY > 0.0;
  }

  /** A plan bought while another one runs or waits starts exactly when the last of them ends, and
      every plan lasts at least 28 days for each of its months. */
  lemma NoPaidTimeIsLost(rows: seq<Subscription>, id: nat, user: string, plan: Plan, now: real)
    requires Queued(rows) && now >= 0.0
    ensures
      var s := Bought(rows, id, user, plan, now);
      && (forall i | 0 <= i < |rows| && rows[i].user == user :: rows[i].expiresAt <= s.startsAt)
      && (s.startsAt == now || exists i :: 0 <= i < |rows| && rows[i].user == user && rows[i].expiresAt == s.startsAt)
      && s.expiresAt >= s.startsAt + (28 * Months(plan)) as real * DAY
  {
    PeriodsLast(StartOf(rows, user, now), Months(plan));
  }

  /** Two plans of a user never overlap, at any time. */
  lemma PlansAreDisjoint(rows: seq<Subscription>, i: nat, k: nat, t: real)
    requires Queued(rows) && i < |rows| && k < |rows| && i != k && rows[i].user == rows[k].user
    ensures !(rows[i].startsAt <= t < rows[i].expiresAt && rows[k].startsAt <= t < rows[k].expiresAt)
  {
    if i < k {
      assert rows[i].expiresAt <= rows[k].startsAt;
    } else {
      assert rows[k].expiresAt <= rows[i].startsAt;
    }
  }

  /** At most one plan of a user is active at any time. */
  lemma AtMostOneActive(rows: seq<Subscription>, user: string, now: real, i: nat, k: nat)
    requires Queued(rows) && i < |rows| && k < |rows|
    ensures IsActive(rows[i], user, now) && IsActive(rows[k], user, now) ==> i == k
  {
    if i != k && rows[i].user == rows[k].user {
      PlansAreDisjoint(rows, i, k, now);
    }
  }

  lemma FollowersComeLater(rows: seq<Subscription>, i: nat, k: nat)
    requires Queued(rows) && i < |rows| && k < |rows|
    ensures Follows(rows[k], rows[i]) <==> i < k && rows[k].user == rows[i].user
  {
    if rows[k].user == rows[i].user {
      if k < i {
        assert rows[k].expiresAt <= rows[i].startsAt;
      } else if i < k {
        assert rows[i].expiresAt <= rows[k].startsAt;
      }
    }
  }

  /** A plan is followed exactly when the user has bought another one after it. */
  lemma FollowedByTheNext(rows: seq<Subscription>, i: nat)
    requires Queued(rows) && i < |rows|
    ensures IsFollowed(rows, rows[i]) <==> exists k :: i < k < |rows| && rows[k].user == rows[i].user
  {
    forall k | 0 <= k < |rows|
      ensures Follows(rows[k], rows[i]) <==> i < k && rows[k].user == rows[i].user
    {
      FollowersComeLater(rows, i, k);
    }
  }

  // --- marks ---

  function WithReminder(rows: seq<Subscription>, id: nat, now: real): (r: seq<Subscription>)
    ensures |r| == |rows|
  {
    seq(|rows|, i requires 0 <= i < |rows| =>
          if rows[i].id == id then rows[i].(reminderSentAt := Some(now)) else rows[i])
  }

  function WithNotice(rows: seq<Subscription>, id: nat, now: real): (r: seq<Subscription>)
    ensures |r| == |rows|
  {
    seq(|rows|, i requires 0 <= i < |rows| => if rows[i].id == id then rows[i].(noticeSentAt := Some(now)) else rows[i])
  }

  /** Rows that differ in their marks only. */
  predicate SamePlans(a: seq<Subscription>, b: seq<Subscription>) {
    |a| == |b| && forall i | 0 <= i < |a| :: SamePlan(a[i], b[i])
  }

  predicate SamePlan(s: Subscription, t: Subscription) {
    && s.id == t.id && s.user == t.user && s.plan == t.plan && s.purchasedAt == t.purchasedAt
    && s.startsAt == t.startsAt && s.expiresAt == t.expiresAt
  }

  lemma MarksKeepQueue(a: seq<Subscription>, b: seq<Subscription>)
    requires SamePlans(a, b) && Queued(a)
    ensures Queued(b)
  {
    assert forall i | 0 <= i < |a| :: SamePlan(a[i], b[i]);
  }

  lemma MarksKeepFollowing(a: seq<Subscription>, b: seq<Subscription>, i: nat)
    requires SamePlans(a, b) && i < |a|
    ensures IsFollowed(a, a[i]) <==> IsFollowed(b, b[i])
  {
    if IsFollowed(a, a[i]) {
      var k :| 0 <= k < |a| && Follows(a[k], a[i]);
      assert SamePlan(a[k], b[k]) && SamePlan(a[i], b[i]) && Follows(b[k], b[i]);
    }
    if IsFollowed(b, b[i]) {
      var k :| 0 <= k < |b| && Follows(b[k], b[i]);
      assert SamePlan(a[k], b[k]) && SamePlan(a[i], b[i]) && Follows(a[k], a[i]);
    }
  }

  // --- mails ---

  datatype Mail = Reminder(id: nat) | Ended(id: nat)

  /** Each mail about a plan is sent at most once, and its plan is marked. */
  predicate OnceOnly(rows: seq<Subscription>, sent: seq<Mail>) {
    && (forall i, k | 0 <= i < |sent| && 0 <= k < |sent| && sent[i] == sent[k] :: i == k)
    && (forall i | 0 <= i < |sent| :: IsMarked(rows, sent[i]))
  }

  predicate IsMarked(rows: seq<Subscription>, m: Mail) {
    exists i :: 0 <= i < |rows| && rows[i].id == m.id
      && if m.Reminder? then rows[i].reminderSentAt.Some? else rows[i].noticeSentAt.Some?
  }

  /** Marks are never taken back. */
  predicate Keeps(a: seq<Subscription>, b: seq<Subscription>) {
    && |a| <= |b|
    && forall i | 0 <= i < |a| ::
         && SamePlan(a[i], b[i])
         && (a[i].reminderSentAt.Some? ==> b[i].reminderSentAt.Some?)
         && (a[i].noticeSentAt.Some? ==> b[i].noticeSentAt.Some?)
  }

  lemma MarksStay(a: seq<Subscription>, b: seq<Subscription>, m: Mail)
    requires Keeps(a, b) && IsMarked(a, m)
    ensures IsMarked(b, m)
  {
    var i :| 0 <= i < |a| && a[i].id == m.id
      && if m.Reminder? then a[i].reminderSentAt.Some? else a[i].noticeSentAt.Some?;
    assert SamePlan(a[i], b[i]) && b[i].id == m.id;
  }

  lemma SentMailsStay(a: seq<Subscription>, b: seq<Subscription>, sent: seq<Mail>)
    requires Keeps(a, b) && OnceOnly(a, sent)
    ensures OnceOnly(b, sent)
  {
    forall i | 0 <= i < |sent|
      ensures IsMarked(b, sent[i])
    {
      MarksStay(a, b, sent[i]);
    }
  }

  /** A mail that was sent has left its mark on its plan. */
  lemma SentIsMarked(rows: seq<Subscription>, sent: seq<Mail>, i: nat, m: Mail)
    requires Queued(rows) && OnceOnly(rows, sent) && i < |rows| && m.id == rows[i].id
    ensures m in sent ==> if m.Reminder? then rows[i].reminderSentAt.Some? else rows[i].noticeSentAt.Some?
  {
    if m in sent {
      var k :| 0 <= k < |sent| && sent[k] == m;
      assert IsMarked(rows, sent[k]);
    }
  }

  // --- a maintenance pass ---

  /** The rows, the mails sent, and the next identity. */
  datatype State = State(rows: seq<Subscription>, sent: seq<Mail>, nextId: nat)

  /** The plans that a query selects, in the order of the rows. */
  function RemindersDue(rows: seq<Subscription>, n: nat, now: real, window: real): seq<Subscription>
    requires n <= |rows|
  {
    if n == 0 then []
    else
      RemindersDue(rows, n - 1, now, window)
      + (if DueReminder(rows, rows[n - 1], now, window) then [rows[n - 1]] else [])
  }

  function NoticesDue(rows: seq<Subscription>, n: nat, now: real): seq<Subscription>
    requires n <= |rows|
  {
    if n == 0 then []
    else NoticesDue(rows, n - 1, now) + (if DueNotice(rows, rows[n - 1], now) then [rows[n - 1]] else [])
  }

  /** Mark first, then mail when the account still exists. */
  function Reminded(st: State, s: Subscription, known: set<string>, now: real): State {
    st.(rows := WithReminder(st.rows, s.id, now),
        sent := if s.user in known then st.sent + [Reminder(s.id)] else st.sent)
  }

  const LATE: real := 7.0 * DAY

  /** A plan that ended long ago gets no mail. */
  function Noticed(st: State, s: Subscription, known: set<string>, now: real): State {
    st.(rows := WithNotice(st.rows, s.id, now),
        sent := if s.user in known && now - s.expiresAt < LATE then st.sent + [Ended(s.id)] else st.sent)
  }

  function AfterReminders(st: State, due: seq<Subscription>, n: nat, known: set<string>, now: real): State
    requires n <= |due|
  {
    if n == 0 then st else Reminded(AfterReminders(st, due, n - 1, known, now), due[n - 1], known, now)
  }

  function AfterNotices(st: State, due: seq<Subscription>, n: nat, known: set<string>, now: real): State
    requires n <= |due|
  {
    if n == 0 then st else Noticed(AfterNotices(st, due, n - 1, known, now), due[n - 1], known, now)
  }

  function RemindersEnd(st: State, known: set<string>, now: real, window: real): State {
    var due := RemindersDue(st.rows, |st.rows|, now, window);
    AfterReminders(st, due, |due|, known, now)
  }

  function NoticesEnd(st: State, known: set<string>, now: real): State {
    var due := NoticesDue(st.rows, |st.rows|, now);
    AfterNotices(st, due, |due|, known, now)
  }

  function AfterPass(st: State, known: set<string>, now: real, window: real): State {
    NoticesEnd(RemindersEnd(st, known, now, window), known, now)
  }

  /** What the rows keep, mails apart. */
  predicate Orderly(rows: seq<Subscription>, nextId: nat) {
    Queued(rows) && forall i | 0 <= i < |rows| :: rows[i].id < nextId
  }

  predicate Sound(st: State) {
    Orderly(st.rows, st.nextId) && OnceOnly(st.rows, st.sent)
  }

  predicate DistinctIds(due: seq<Subscription>) {
    forall i, k | 0 <= i < |due| && 0 <= k < |due| && due[i].id == due[k].id :: i == k
  }

  predicate IsDueReminder(rows: seq<Subscription>, s: Subscription, now: real, window: real) {
    exists i :: 0 <= i < |rows| && rows[i] == s && DueReminder(rows, rows[i], now, window)
  }

  predicate IsDueNotice(rows: seq<Subscription>, s: Subscription, now: real) {
    exists i :: 0 <= i < |rows| && rows[i] == s && DueNotice(rows, rows[i], now)
  }

  /** The selected plans are distinct rows of the first `n`. */
  predicate FromRows(rows: seq<Subscription>, n: nat, due: seq<Subscription>) {
    DistinctIds(due) && forall x | 0 <= x < |due| :: InRows(rows, n, due[x])
  }

  predicate InRows(rows: seq<Subscription>, n: nat, s: Subscription) {
    exists i :: 0 <= i < n && i < |rows| && rows[i] == s
  }

  lemma OneMoreRow(rows: seq<Subscription>, n: nat, due: seq<Subscription>, take: bool)
    requires Queued(rows) && n < |rows| && FromRows(rows, n, due)
    ensures FromRows(rows, n + 1, if take then due + [rows[n]] else due)
  {
    forall x | 0 <= x < |due|
      ensures InRows(rows, n + 1, due[x]) && due[x].id != rows[n].id
    {
      var i :| 0 <= i < n && rows[i] == due[x];
      assert rows[i].id == rows[n].id ==> i == n;
    }
  }

  predicate AllDueReminders(rows: seq<Subscription>, due: seq<Subscription>, now: real, window: real) {
    forall x | 0 <= x < |due| :: IsDueReminder(rows, due[x], now, window)
  }

  predicate AllDueNotices(rows: seq<Subscription>, due: seq<Subscription>, now: real) {
    forall x | 0 <= x < |due| :: IsDueNotice(rows, due[x], now)
  }

  lemma {:induction false} RemindersAreRows(rows: seq<Subscription>, n: nat, now: real, window: real)
    requires Queued(rows) && n <= |rows|
    ensures FromRows(rows, n, RemindersDue(rows, n, now, window))
  {
    if n > 0 {
      RemindersAreRows(rows, n - 1, now, window);
      OneMoreRow(rows, n - 1, RemindersDue(rows, n - 1, now, window), DueReminder(rows, rows[n - 1], now, window));
    }
  }

  lemma {:induction false} RemindersAreDue(rows: seq<Subscription>, n: nat, now: real, window: real)
    requires n <= |rows|
    ensures AllDueReminders(rows, RemindersDue(rows, n, now, window), now, window)
  {
    if n > 0 {
      RemindersAreDue(rows, n - 1, now, window);
      assert DueReminder(rows, rows[n - 1], now, window) ==> IsDueReminder(rows, rows[n - 1], now, window);
    }
  }

  lemma {:induction false} NoticesAreRows(rows: seq<Subscription>, n: nat, now: real)
    requires Queued(rows) && n <= |rows|
    ensures FromRows(rows, n, NoticesDue(rows, n, now))
  {
    if n > 0 {
      NoticesAreRows(rows, n - 1, now);
      OneMoreRow(rows, n - 1, NoticesDue(rows, n - 1, now), DueNotice(rows, rows[n - 1], now));
    }
  }

  lemma {:induction false} NoticesAreDue(rows: seq<Subscription>, n: nat, now: real)
    requires n <= |rows|
    ensures AllDueNotices(rows, NoticesDue(rows, n, now), now)
  {
    if n > 0 {
      NoticesAreDue(rows, n - 1, now);
      assert DueNotice(rows, rows[n - 1], now) ==> IsDueNotice(rows, rows[n - 1], now);
    }
  }

  lemma AddMail(rows: seq<Subscription>, rows': seq<Subscription>, sent: seq<Mail>, m: Mail)
    requires Keeps(rows, rows') && OnceOnly(rows, sent) && m !in sent && IsMarked(rows', m)
    ensures OnceOnly(rows', sent + [m])
  {
    SentMailsStay(rows, rows', sent);
  }

  /** One reminder: the plan had none, and has its mark now. */
  lemma RemindedIsSound(st: State, s: Subscription, known: set<string>, now: real, i: nat)
    requires Sound(st) && i < |st.rows| && st.rows[i].id == s.id && st.rows[i].reminderSentAt.None?
    ensures Sound(Reminded(st, s, known, now)) && SamePlans(st.rows, Reminded(st, s, known, now).rows)
  {
    var rows' := WithReminder(st.rows, s.id, now);
    MarksKeepQueue(st.rows, rows');
    SentIsMarked(st.rows, st.sent, i, Reminder(s.id));
    assert rows'[i].reminderSentAt.Some?;
    assert IsMarked(rows', Reminder(s.id));
    SentMailsStay(st.rows, rows', st.sent);
    AddMail(st.rows, rows', st.sent, Reminder(s.id));
  }

  lemma NoticedIsSound(st: State, s: Subscription, known: set<string>, now: real, i: nat)
    requires Sound(st) && i < |st.rows| && st.rows[i].id == s.id && st.rows[i].noticeSentAt.None?
    ensures Sound(Noticed(st, s, known, now)) && SamePlans(st.rows, Noticed(st, s, known, now).rows)
  {
    var rows' := WithNotice(st.rows, s.id, now);
    MarksKeepQueue(st.rows, rows');
    SentIsMarked(st.rows, st.sent, i, Ended(s.id));
    assert rows'[i].noticeSentAt.Some?;
    assert IsMarked(rows', Ended(s.id));
    SentMailsStay(st.rows, rows', st.sent);
    AddMail(st.rows, rows', st.sent, Ended(s.id));
  }

  /** A list of plans of the table that have no reminder yet. */
  predicate Unreminded(rows: seq<Subscription>, due: seq<Subscription>, from: nat) {
    forall x | from <= x < |due| :: HasUnreminded(rows, due[x].id)
  }

  predicate HasUnreminded(rows: seq<Subscription>, id: nat) {
    exists i :: 0 <= i < |rows| && rows[i].id == id && rows[i].reminderSentAt.None?
  }

  predicate Unnoticed(rows: seq<Subscription>, due: seq<Subscription>, from: nat) {
    forall x | from <= x < |due| :: HasUnnoticed(rows, due[x].id)
  }

  predicate HasUnnoticed(rows: seq<Subscription>, id: nat) {
    exists i :: 0 <= i < |rows| && rows[i].id == id && rows[i].noticeSentAt.None?
  }

  lemma UnremindedStays(rows: seq<Subscription>, due: seq<Subscription>, n: nat, now: real)
    requires n < |due| && DistinctIds(due) && Unreminded(rows, due, n)
    ensures Unreminded(WithReminder(rows, due[n].id, now), due, n + 1)
  {
    forall x | n + 1 <= x < |due|
      ensures HasUnreminded(WithReminder(rows, due[n].id, now), due[x].id)
    {
      assert HasUnreminded(rows, due[x].id);
      var k :| 0 <= k < |rows| && rows[k].id == due[x].id && rows[k].reminderSentAt.None?;
      assert due[x].id == due[n].id ==> x == n;
      assert WithReminder(rows, due[n].id, now)[k] == rows[k];
    }
  }

  /** Where a pass over a list of due plans stands after the first `n`. */
  predicate RemindersSent(st: State, after: State, due: seq<Subscription>, n: nat) {
    && Sound(after) && SamePlans(st.rows, after.rows) && after.nextId == st.nextId
    && Unreminded(after.rows, due, n)
  }

  lemma NextReminded(st: State, before: State, due: seq<Subscription>, n: nat, known: set<string>, now: real)
    requires n < |due| && DistinctIds(due) && RemindersSent(st, before, due, n)
    ensures RemindersSent(st, Reminded(before, due[n], known, now), due, n + 1)
  {
    assert HasUnreminded(before.rows, due[n].id);
    var i :| 0 <= i < |before.rows| && before.rows[i].id == due[n].id && before.rows[i].reminderSentAt.None?;
    RemindedIsSound(before, due[n], known, now, i);
    UnremindedStays(before.rows, due, n, now);
    SamePlansAgain(st.rows, before.rows, Reminded(before, due[n], known, now).rows);
  }

  lemma NoRemindersSent(st: State, due: seq<Subscription>)
    requires Sound(st) && Unreminded(st.rows, due, 0)
    ensures RemindersSent(st, st, due, 0)
  {
  }

  /** Whatever holds at the start and is kept by each step holds in the end. */
  lemma {:induction false} AfterRemindersKeep(p: (State, nat) -> bool, st: State, due: seq<Subscription>, n: nat,
                                           known: set<string>, now: real)
    requires n <= |due| && p(st, 0)
    requires forall s, k: nat {:trigger Reminded(s, due[k], known, now)} | k < |due| && p(s, k) ::
               p(Reminded(s, due[k], known, now), k + 1)
    ensures p(AfterReminders(st, due, n, known, now), n)
  {
    if n > 0 {
      AfterRemindersKeep(p, st, due, n - 1, known, now);
    }
  }

  lemma RemindersAreSound(st: State, due: seq<Subscription>, n: nat, known: set<string>, now: real)
    requires Sound(st) && n <= |due| && DistinctIds(due) && Unreminded(st.rows, due, 0)
    ensures RemindersSent(st, AfterReminders(st, due, n, known, now), due, n)
  {
    var p := (s: State, k: nat) => RemindersSent(st, s, due, k);
    NoRemindersSent(st, due);
    forall s, k: nat | k < |due| && p(s, k)
      ensures p(Reminded(s, due[k], known, now), k + 1)
    {
      NextReminded(st, s, due, k, known, now);
    }
    AfterRemindersKeep(p, st, due, n, known, now);
  }

  lemma UnnoticedStays(rows: seq<Subscription>, due: seq<Subscription>, n: nat, now: real)
    requires n < |due| && DistinctIds(due) && Unnoticed(rows, due, n)
    ensures Unnoticed(WithNotice(rows, due[n].id, now), due, n + 1)
  {
    forall x | n + 1 <= x < |due|
      ensures HasUnnoticed(WithNotice(rows, due[n].id, now), due[x].id)
    {
      assert HasUnnoticed(rows, due[x].id);
      var k :| 0 <= k < |rows| && rows[k].id == due[x].id && rows[k].noticeSentAt.None?;
      assert due[x].id == due[n].id ==> x == n;
      assert WithNotice(rows, due[n].id, now)[k] == rows[k];
    }
  }

  /** Where a pass over a list of due plans stands after the first `n`. */
  predicate NoticesSent(st: State, after: State, due: seq<Subscription>, n: nat) {
    && Sound(after) && SamePlans(st.rows, after.rows) && after.nextId == st.nextId
    && Unnoticed(after.rows, due, n)
  }

  lemma NextNoticed(st: State, before: State, due: seq<Subscription>, n: nat, known: set<string>, now: real)
    requires n < |due| && DistinctIds(due) && NoticesSent(st, before, due, n)
    ensures NoticesSent(st, Noticed(before, due[n], known, now), due, n + 1)
  {
    assert HasUnnoticed(before.rows, due[n].id);
    var i :| 0 <= i < |before.rows| && before.rows[i].id == due[n].id && before.rows[i].noticeSentAt.None?;
    NoticedIsSound(before, due[n], known, now, i);
    UnnoticedStays(before.rows, due, n, now);
    SamePlansAgain(st.rows, before.rows, Noticed(before, due[n], known, now).rows);
  }

  lemma NoNoticesSent(st: State, due: seq<Subscription>)
    requires Sound(st) && Unnoticed(st.rows, due, 0)
    ensures NoticesSent(st, st, due, 0)
  {
  }

  /** Whatever holds at the start and is kept by each step holds in the end. */
  lemma {:induction false} AfterNoticesKeep(p: (State, nat) -> bool, st: State, due: seq<Subscription>, n: nat,
                                           known: set<string>, now: real)
    requires n <= |due| && p(st, 0)
    requires forall s, k: nat {:trigger Noticed(s, due[k], known, now)} | k < |due| && p(s, k) ::
               p(Noticed(s, due[k], known, now), k + 1)
    ensures p(AfterNotices(st, due, n, known, now), n)
  {
    if n > 0 {
      AfterNoticesKeep(p, st, due, n - 1, known, now);
    }
  }

  lemma NoticesAreSound(st: State, due: seq<Subscription>, n: nat, known: set<string>, now: real)
    requires Sound(st) && n <= |due| && DistinctIds(due) && Unnoticed(st.rows, due, 0)
    ensures NoticesSent(st, AfterNotices(st, due, n, known, now), due, n)
  {
    var p := (s: State, k: nat) => NoticesSent(st, s, due, k);
    NoNoticesSent(st, due);
    forall s, k: nat | k < |due| && p(s, k)
      ensures p(Noticed(s, due[k], known, now), k + 1)
    {
      NextNoticed(st, s, due, k, known, now);
    }
    AfterNoticesKeep(p, st, due, n, known, now);
  }

  /** Mails about plans that no other plan follows. */
  predicate ToUnfollowed(rows: seq<Subscription>, mails: seq<Mail>) {
    forall x | 0 <= x < |mails| :: IsUnfollowed(rows, mails[x].id)
  }

  predicate IsUnfollowed(rows: seq<Subscription>, id: nat) {
    exists i :: 0 <= i < |rows| && rows[i].id == id && !IsFollowed(rows, rows[i])
  }

  /** The query's list before a pass over it. */
  lemma RemindersAreReady(rows: seq<Subscription>, now: real, window: real)
    requires Queued(rows)
    ensures
      var due := RemindersDue(rows, |rows|, now, window);
      && DistinctIds(due) && Unreminded(rows, due, 0)
      && forall x | 0 <= x < |due| :: IsUnfollowed(rows, due[x].id)
  {
    RemindersAreRows(rows, |rows|, now, window);
    RemindersAreDue(rows, |rows|, now, window);
    var due := RemindersDue(rows, |rows|, now, window);
    forall x | 0 <= x < |due|
      ensures HasUnreminded(rows, due[x].id) && IsUnfollowed(rows, due[x].id)
    {
      assert IsDueReminder(rows, due[x], now, window);
    }
  }

  lemma NoticesAreReady(rows: seq<Subscription>, now: real)
    requires Queued(rows)
    ensures
      var due := NoticesDue(rows, |rows|, now);
      && DistinctIds(due) && Unnoticed(rows, due, 0)
      && forall x | 0 <= x < |due| :: IsUnfollowed(rows, due[x].id)
  {
    NoticesAreRows(rows, |rows|, now);
    NoticesAreDue(rows, |rows|, now);
    var due := NoticesDue(rows, |rows|, now);
    forall x | 0 <= x < |due|
      ensures HasUnnoticed(rows, due[x].id) && IsUnfollowed(rows, due[x].id)
    {
      assert IsDueNotice(rows, due[x], now);
    }
  }

  lemma {:induction false} RemindersAdd(st: State, due: seq<Subscription>, n: nat, known: set<string>, now: real,
                                        rows: seq<Subscription>)
    returns (more: seq<Mail>)
    requires n <= |due| && forall x | 0 <= x < |due| :: IsUnfollowed(rows, due[x].id)
    ensures AfterReminders(st, due, n, known, now).sent == st.sent + more && ToUnfollowed(rows, more)
  {
    if n == 0 {
      more := [];
    } else {
      var before := RemindersAdd(st, due, n - 1, known, now, rows);
      more := if due[n - 1].user in known then before + [Reminder(due[n - 1].id)] else before;
    }
  }

  lemma {:induction false} NoticesAdd(st: State, due: seq<Subscription>, n: nat, known: set<string>, now: real,
                                      rows: seq<Subscription>)
    returns (more: seq<Mail>)
    requires n <= |due| && forall x | 0 <= x < |due| :: IsUnfollowed(rows, due[x].id)
    ensures AfterNotices(st, due, n, known, now).sent == st.sent + more && ToUnfollowed(rows, more)
  {
    if n == 0 {
      more := [];
    } else {
      var before := NoticesAdd(st, due, n - 1, known, now, rows);
      more := if due[n - 1].user in known && now - due[n - 1].expiresAt < LATE
              then before + [Ended(due[n - 1].id)] else before;
    }
  }

  lemma UnfollowedAgain(a: seq<Subscription>, b: seq<Subscription>, mails: seq<Mail>)
    requires SamePlans(a, b) && ToUnfollowed(b, mails)
    ensures ToUnfollowed(a, mails)
  {
    forall x | 0 <= x < |mails|
      ensures IsUnfollowed(a, mails[x].id)
    {
      assert IsUnfollowed(b, mails[x].id);
      var i :| 0 <= i < |b| && b[i].id == mails[x].id && !IsFollowed(b, b[i]);
      MarksKeepFollowing(a, b, i);
      assert SamePlan(a[i], b[i]);
    }
  }

  /** What one half of a pass does: it keeps everything in order, changes marks only, and mails about
      plans that are the last of their users. */
  predicate SoundStep(st: State, end: State, more: seq<Mail>) {
    && Sound(end) && SamePlans(st.rows, end.rows) && end.nextId == st.nextId
    && end.sent == st.sent + more && ToUnfollowed(st.rows, more)
  }

  lemma RemindersPart(st: State, known: set<string>, now: real, window: real) returns (more: seq<Mail>)
    requires Sound(st)
    ensures SoundStep(st, RemindersEnd(st, known, now, window), more)
  {
    var due := RemindersDue(st.rows, |st.rows|, now, window);
    RemindersAreReady(st.rows, now, window);
    RemindersAreSound(st, due, |due|, known, now);
    more := RemindersAdd(st, due, |due|, known, now, st.rows);
  }

  lemma NoticesPart(st: State, known: set<string>, now: real) returns (more: seq<Mail>)
    requires Sound(st)
    ensures SoundStep(st, NoticesEnd(st, known, now), more)
  {
    var due := NoticesDue(st.rows, |st.rows|, now);
    NoticesAreReady(st.rows, now);
    NoticesAreSound(st, due, |due|, known, now);
    more := NoticesAdd(st, due, |due|, known, now, st.rows);
  }

  lemma StepsTogether(a: State, b: State, c: State, first: seq<Mail>, second: seq<Mail>)
    requires SoundStep(a, b, first) && SoundStep(b, c, second)
    ensures SoundStep(a, c, first + second)
  {
    SamePlansAgain(a.rows, b.rows, c.rows);
    UnfollowedAgain(a.rows, b.rows, second);
  }

  /** A whole pass does the same. */
  lemma PassIsSound(st: State, known: set<string>, now: real, window: real) returns (more: seq<Mail>)
    requires Sound(st)
    ensures SoundStep(st, AfterPass(st, known, now, window), more)
  {
    var mid := RemindersEnd(st, known, now, window);
    var first := RemindersPart(st, known, now, window);
    var second := NoticesPart(mid, known, now);
    more := first + second;
    StepsTogether(st, mid, NoticesEnd(mid, known, now), first, second);
  }

  lemma SamePlansAgain(a: seq<Subscription>, b: seq<Subscription>, c: seq<Subscription>)
    requires SamePlans(a, b) && SamePlans(b, c)
    ensures SamePlans(a, c)
  {
    assert forall i | 0 <= i < |a| :: SamePlan(a[i], b[i]) && SamePlan(b[i], c[i]);
  }

  // --- runs ---

  datatype Event = Buy(user: string, plan: Plan, at: real) | Pass(known: set<string>, at: real, window: real)

  function After(st: State, e: Event): State {
    match e
    case Buy(user, plan, at) =>
      if at < 0.0 then st else State(st.rows + [Bought(st.rows, st.nextId, user, plan, at)], st.sent, st.nextId + 1)
    case Pass(known, at, window) => AfterPass(st, known, at, window)
  }

  function AfterAll(st: State, events: seq<Event>): State {
    if events == [] then st else After(AfterAll(st, events[..|events| - 1]), events[|events| - 1])
  }

  lemma BuyIsSound(st: State, user: string, plan: Plan, at: real)
    requires Sound(st)
    ensures Sound(After(st, Buy(user, plan, at)))
  {
    if at >= 0.0 {
      PurchaseKeepsQueue(st.rows, st.nextId, user, plan, at);
      SentMailsStay(st.rows, st.rows + [Bought(st.rows, st.nextId, user, plan, at)], st.sent);
    }
  }

  /** Over any run of purchases and passes, at any times: the plans of each user are disjoint and in
      order, and each plan is mailed about at most once when it is about to end and at most once
      when it has ended. */
  lemma {:induction false} RunsAreSound(events: seq<Event>)
    ensures Sound(AfterAll(State([], [], 0), events))
  {
    if events != [] {
      RunsAreSound(events[..|events| - 1]);
      var before, e := AfterAll(State([], [], 0), events[..|events| - 1]), events[|events| - 1];
      match e {
        case Buy(user, plan, at) => BuyIsSound(before, user, plan, at);
        case Pass(known, at, window) => var more := PassIsSound(before, known, at, window);
      }
    }
  }
}
