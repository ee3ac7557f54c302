/** A purchase reads the latest expiry and inserts the new plan in two separate calls of the store
    (backend/app/services/billing.py:150-174): what happens when another purchase of the same user
    commits in between. */
module StalePurchases {
  import opened Calendar
  import opened Subscriptions

  predicate Overlap(a: Subscription, b: Subscription) {
    a.user == b.user && a.startsAt < b.expiresAt && b.startsAt < a.expiresAt
  }

  predicate OverlapsOne(s: Subscription, rows: seq<Subscription>) {
    exists i :: 0 <= i < |rows| && Overlap(s, rows[i])
  }

  predicate IsFirstOf(more: seq<Subscription>, x: nat, user: string)
    requires x < |more|
  {
    more[x].user == user && forall y | 0 <= y < x :: more[y].user != user
  }

  const TWENTY_EIGHT_DAYS := 28.0 * DAY

  /** The first plan that the user buys meanwhile was bought as usual, less than 28 days apart. */
  predicate BoughtMeanwhile(rows: seq<Subscription>, more: seq<Subscription>, user: string, now: real) {
    forall x: nat | x < |more| && IsFirstOf(more, x, user) ::
      var at := more[x].purchasedAt;
      && at >= 0.0 && now - TWENTY_EIGHT_DAYS < at < now + TWENTY_EIGHT_DAYS
      && more[x].startsAt == StartOf(rows, user, at)
      && more[x].expiresAt == AddMonths(more[x].startsAt, Months(more[x].plan))
  }

  lemma {:induction false} FirstExists(more: seq<Subscription>, user: string, i: nat) returns (x: nat)
    requires i < |more| && more[i].user == user
    ensures x < |more| && IsFirstOf(more, x, user)
    decreases i
  {
    if y: nat :| y < i && more[y].user == user {
      x := FirstExists(more, user, y);
    } else {
      x := i;
    }
  }

  lemma LastsFourWeeks(t: real, plan: Plan)
    requires t >= 0.0
    ensures AddMonths(t, Months(plan)) >= t + TWENTY_EIGHT_DAYS
  {
    PeriodsLast(t, Months(plan));
    assert (28 * Months(plan)) as real >= 28.0;
  }

  /** The plan that is inserted after a stale read overlaps another plan of its user exactly when a plan of
      that user was inserted since the read. */
  lemma StaleReadOverlaps(rows: seq<Subscription>, more: seq<Subscription>, id: nat, user: string, plan: Plan,
                          now: real)
    requires Queued(rows + more) && now >= 0.0 && BoughtMeanwhile(rows, more, user, now)
    ensures OverlapsOne(Bought(rows, id, user, plan, now), rows + more) <==>
              exists x :: 0 <= x < |more| && more[x].user == user
  {
    var s, all := Bought(rows, id, user, plan, now), rows + more;
    assert forall i | 0 <= i < |rows| :: all[i] == rows[i];
    assert forall x | 0 <= x < |more| :: all[|rows| + x] == more[x];
    LastsFourWeeks(s.startsAt, plan);
    if i :| 0 <= i < |more| && more[i].user == user {
      var x := FirstExists(more, user, i);
      LastsFourWeeks(more[x].startsAt, more[x].plan);
      assert Overlap(s, all[|rows| + x]);
    } else {
      forall i | 0 <= i < |all| && all[i].user == user
        ensures !Overlap(s, all[i])
      {
        assert i < |rows| && rows[i].expiresAt <= s.startsAt;
      }
    }
  }

  /** Two purchases of a new user at one time, both read before either inserts. */
  lemma TwoPurchasesOverlap(user: string, plan: Plan, now: real)
    requires now >= 0.0
    ensures
      var first := Bought([], 0, user, plan, now);
      Queued([first]) && OverlapsOne(Bought([], 1, user, plan, now), [first])
  {
    var first := Bought([], 0, user, plan, now);
    PurchaseKeepsQueue([], 0, user, plan, now);
    assert [] + [first] == [first];
    assert TWENTY_EIGHT_DAYS > 0.0;
    StaleReadOverlaps([], [first], 1, user, plan, now);
    assert [first][0].user == user;
  }
}
