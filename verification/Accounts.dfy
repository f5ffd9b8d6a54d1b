/** What the events of an account that are no purchases do to it. */
module Accounts {
  import opened Sums
  import opened Subscriptions

  /** The life of a row: active until its end, in grace for a week after, then expired; active for good
      without an end, and refunded from its refund on whatever its dates. */
  lemma StatusTimeline(r: Row, at: int)
    ensures r.refundedAt.Some? ==> ComputeStatus(r, at) == RowRefunded
    ensures r.refundedAt.None? && r.end.None? ==> ComputeStatus(r, at) == Active
    ensures r.refundedAt.None? && r.end.Some? && r.graceEnd == Some(r.end.value + 7 * 86400) ==>
              && (ComputeStatus(r, at) == Active <==> at < r.end.value)
              && (ComputeStatus(r, at) == InGrace <==> r.end.value <= at < r.end.value + 7 * 86400)
              && (ComputeStatus(r, at) == Expired <==> at >= r.end.value + 7 * 86400)
  {
  }

  /** A directly created row is stored with its dates, a week of grace if it is dated, and makes the user Pro
      until its grace ends. */
  lemma CreateWrites(acc: Subscriber, end: Option<int>, grace: Option<int>, refundedAt: Option<int>, at: int)
    ensures var after := Create(acc, end, grace, refundedAt);
            && |after.rows| == |acc.rows| + 1 && acc.rows <= after.rows
            && var row := Latest(after);
            && row.end == end && row.refundedAt == refundedAt && row.origin == None
            && row.graceEnd == (if end.Some? then Some(end.value + 7 * 86400) else grace)
            && (IsProAt(after, at) <==> row.graceEnd.None? || at < row.graceEnd.value)
  {
  }

  /** An undisturbed sweep takes the Pro flag of exactly the users whose Pro ran out, and changes neither
      anybody's rows nor what "pro" reads as from then on. */
  lemma SweepOnlyTidies(acc: Subscriber, now: int, at: int)
    requires at >= now
    ensures var after := SweepClear(SweepSelect(acc, now));
            && after.rows == acc.rows && !after.marked
            && (after.isPro <==> acc.isPro && (acc.proExpiry.None? || now <= acc.proExpiry.value))
            && (after.isPro ==> after.proExpiry == acc.proExpiry)
            && (acc.isPro && !after.isPro ==> after.proExpiry == None)
            && (IsProAt(after, at) <==> IsProAt(acc, at))
  {
  }

  /** An admin's override gives the newest row this end and no grace on top: the user is Pro until then and
      not a second longer, and no earlier row changes. Without a row nothing happens. */
  lemma OverrideIsExact(acc: Subscriber, now: int, end: Option<int>, at: int)
    requires at >= now
    ensures acc.rows == [] ==> SetExpiry(acc, now, end) == acc
    ensures acc.rows != [] ==>
              var after := SetExpiry(acc, now, end);
              && |after.rows| == |acc.rows| && after.rows[..|acc.rows| - 1] == acc.rows[..|acc.rows| - 1]
              && Latest(after) == Latest(acc).(end := end, graceEnd := end) && after.marked == acc.marked
              && (IsProAt(after, at) <==> end.None? || at < end.value)
              && ComputeStatus(Latest(after), at) != InGrace
  {
  }
}
