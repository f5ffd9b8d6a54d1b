/** The users and user_subscriptions tables, updated in place. */
module SubscriptionTable {
  import opened Sums
  import opened Subscriptions

  class SubscriptionTable {
    var accounts: seq<Subscriber>

    constructor (accounts: seq<Subscriber>)
      ensures this.accounts == accounts
    {
      this.accounts := accounts;
    }

    /** Puts the table back to how a transaction found it. */
    method Rollback(to: seq<Subscriber>)
      modifies this
      ensures accounts == to
    {
      accounts := to;
    }

    /** Records a purchase or an admin grant and makes the user Pro; answers the new row's index. */
    method GrantSubscription(u: nat, now: int, plan: Plan, origin: Option<nat>) returns (row: nat)
      requires u < |accounts|
      modifies this
      ensures accounts == old(accounts)[u := Grant(old(accounts)[u], now, plan, origin)]
      ensures row == |old(accounts)[u].rows| && row < |accounts[u].rows|
    {
      var user := accounts[u];
      var currentExpiry := user.proExpiry;
      if user.rows != [] {
        currentExpiry := user.rows[|user.rows| - 1].end;
      }
      var end := SubscriptionEnd(now, user.isPro, currentExpiry, plan);
      var graceEnd: Option<int> := None;
      if end.Some? {
        graceEnd := Some(end.value + GRACE_DAYS * DAY);
      }
      row := |user.rows|;
      user := user.(rows := user.rows + [Row(end, graceEnd, None, origin)]);
      user := user.(isPro := true, proExpiry := graceEnd);
      accounts := accounts[u := user];
    }

    /** Stores a row as given, apart from the grace of a dated one. */
    method CreateUserSubscription(u: nat, end: Option<int>, grace: Option<int>, refundedAt: Option<int>)
      requires u < |accounts|
      modifies this
      ensures accounts == old(accounts)[u := Create(old(accounts)[u], end, grace, refundedAt)]
    {
      var graceEnd := grace;
      if end.Some? {
        graceEnd := Some(end.value + GRACE_DAYS * DAY);
      }
      var user := accounts[u];
      user := user.(rows := user.rows + [Row(end, graceEnd, refundedAt, None)]);
      user := user.(isPro := true, proExpiry := graceEnd);
      accounts := accounts[u := user];
    }

    /** The hourly sweep with nothing between its two statements. */
    method ExpireSubscriptions(now: int) returns (count: nat)
      requires forall a | a in accounts :: !a.marked
      modifies this
      ensures |accounts| == |old(accounts)|
      ensures forall u | 0 <= u < |accounts| :: accounts[u] == SweepClear(SweepSelect(old(accounts)[u], now))
      ensures count == |set u | 0 <= u < |old(accounts)| && Overdue(old(accounts)[u], now)|
    {
      var expired := set u | 0 <= u < |accounts| && Overdue(accounts[u], now);
      count := |expired|;
      var before := accounts;
      for u := 0 to |accounts|
        invariant |accounts| == |before|
        invariant forall k | 0 <= k < u :: accounts[k] == SweepClear(SweepSelect(before[k], now))
        invariant forall k | u <= k < |accounts| :: accounts[k] == before[k]
      {
        assert before[u] in before;
        if u in expired {
          accounts := accounts[u := accounts[u].(isPro := false, proExpiry := None)];
        }
      }
    }

    /** Overwrites the newest row's end; false when the user has no row. */
    method AdminSetExpiry(u: nat, now: int, end: Option<int>) returns (found: bool)
      requires u < |accounts|
      modifies this
      ensures found == (old(accounts)[u].rows != [])
      ensures accounts == old(accounts)[u := SetExpiry(old(accounts)[u], now, end)]
    {
      var isPro := end.None? || end.value > now;
      var user := accounts[u];
      found := user.rows != [];
      if !found {
        return;
      }
      var last := |user.rows| - 1;
      user := user.(rows := user.rows[last := user.rows[last].(end := end, graceEnd := end)]);
      user := user.(isPro := isPro, proExpiry := end);
      accounts := accounts[u := user];
    }

    /** Derives the Pro fields from the rows that are not refunded and still run. */
    method RecomputePro(u: nat, now: int)
      requires u < |accounts|
      modifies this
      ensures accounts == old(accounts)[u := Recompute(old(accounts)[u], now)]
    {
      var subs := RunningRows(accounts[u].rows, now);
      var isPro, lifetime := subs != [], false;
      var latest: Option<int> := None;
      for i := 0 to |subs|
        invariant lifetime == AnyLifetime(subs[..i])
        invariant latest == LatestEnd(subs[..i])
      {
        assert subs[..i + 1] == subs[..i] + [subs[i]];
        assert subs[..i + 1][..|subs[..i + 1]| - 1] == subs[..i];
        if subs[i].end.None? {
          lifetime := true;
        } else if latest.None? || subs[i].end.value > latest.value {
          latest := subs[i].end;
        }
      }
      assert subs[..|subs|] == subs;
      var expiry: Option<int> := None;
      if isPro && !lifetime {
        expiry := latest;
      }
      accounts := accounts[u := accounts[u].(isPro := isPro, proExpiry := expiry)];
    }

    method MarkRowRefunded(u: nat, row: nat, now: int)
      requires u < |accounts|
      modifies this
      ensures accounts == old(accounts)[u := MarkRefunded(old(accounts)[u], row, now)]
    {
      var user := accounts[u];
      if row < |user.rows| {
        user := user.(rows := user.rows[row := user.rows[row].(refundedAt := Some(now))]);
      }
      accounts := accounts[u := user];
    }
  }
}
