/** Subscription periods, the grace window, the user's Pro flag, and the expiry sweep. Time is in
    seconds; a calendar day is DAY of them. */
module Subscriptions {
  import opened Sums

  const DAY := 86400
  const GRACE_DAYS := 7
  const GRACE := GRACE_DAYS * DAY

  datatype Plan = Plan(price: int, durationDays: int, lifetime: bool)

  /** One user_subscriptions row; `origin` is the payment row that points at it, if any. */
  datatype Row = Row(end: Option<int>, graceEnd: Option<int>, refundedAt: Option<int>, origin: Option<nat>)

  /** A user's Pro fields and subscription rows, newest last. `marked`: a sweep in flight picked
      this user as expired and has not written yet. */
  datatype Subscriber = Subscriber(isPro: bool, proExpiry: Option<int>, rows: seq<Row>, marked: bool)

  datatype RowStatus = RowRefunded | Active | InGrace | Expired

  function ComputeStatus(r: Row, now: int): RowStatus {
    if r.refundedAt.Some? then RowRefunded
    else if r.end.None? then Active
    else if now < r.end.value then Active
    else if r.graceEnd.Some? && now < r.graceEnd.value then InGrace
    else Expired
  }

  /** The computed subscription status is "pro". */
  predicate IsProAt(acc: Subscriber, now: int) {
    acc.isPro && (acc.proExpiry.None? || acc.proExpiry.value > now)
  }

  /** When access bought now ends; None is never. */
  function SubscriptionEnd(now: int, isPro: bool, currentExpiry: Option<int>, plan: Plan): Option<int> {
    if plan.lifetime then None
    else if isPro && currentExpiry.None? then None
    else
      var base := if isPro && currentExpiry.Some? && currentExpiry.value > now then currentExpiry.value else now;
      Some(base + plan.durationDays * DAY)
  }

  function WithGrace(end: Option<int>): Option<int> {
    if end.Some? then Some(end.value + GRACE) else None
  }

  function Latest(acc: Subscriber): Row
    requires acc.rows != []
  {
    acc.rows[|acc.rows| - 1]
  }

  /** Every way a new row makes its user Pro until the row's grace ends. */
  function AddRow(acc: Subscriber, r: Row): Subscriber {
    acc.(isPro := true, proExpiry := r.graceEnd, rows := acc.rows + [r])
  }

  function Grant(acc: Subscriber, now: int, plan: Plan, origin: Option<nat>): Subscriber {
    var expiry := if acc.rows == [] then acc.proExpiry else Latest(acc).end;
    var end := SubscriptionEnd(now, acc.isPro, expiry, plan);
    AddRow(acc, Row(end, WithGrace(end), None, origin))
  }

  /** A row created directly; a grace date or refund date the caller brings is stored as it comes,
      except that a dated row gets the standard grace. */
  function Create(acc: Subscriber, end: Option<int>, grace: Option<int>, refundedAt: Option<int>): Subscriber {
    AddRow(acc, Row(end, if end.Some? then WithGrace(end) else grace, refundedAt, None))
  }

  predicate Overdue(acc: Subscriber, now: int) {
    acc.isPro && acc.proExpiry.Some? && acc.proExpiry.value < now
  }

  /** The sweep's first statement: pick the users whose Pro ran out. */
  function SweepSelect(acc: Subscriber, now: int): Subscriber {
    acc.(marked := Overdue(acc, now))
  }

  /** Its second statement: clear the picked users, whatever happened to them meanwhile. */
  function SweepClear(acc: Subscriber): Subscriber {
    if acc.marked then acc.(isPro := false, proExpiry := None, marked := false) else acc
  }

  /** An admin overwrites the newest row's end, with no grace on top. */
  function SetExpiry(acc: Subscriber, now: int, end: Option<int>): Subscriber {
    if acc.rows == [] then acc else
      acc.(isPro := end.None? || end.value > now,
           proExpiry := end,
           rows := acc.rows[|acc.rows| - 1 := Latest(acc).(end := end, graceEnd := end)])
  }

  // ---- runs ----

  datatype Event =
    | Granted(plan: Plan, origin: Option<nat>)
    | Created(end: Option<int>, grace: Option<int>, refundedAt: Option<int>)
    | Selected
    | Cleared
    | ExpirySet(newEnd: Option<int>)

  datatype Timed = Timed(now: int, event: Event)

  function Apply(acc: Subscriber, e: Timed): Subscriber {
    match e.event
    case Granted(plan, origin) => Grant(acc, e.now, plan, origin)
    case Created(end, grace, refundedAt) => Create(acc, end, grace, refundedAt)
    case Selected => SweepSelect(acc, e.now)
    case Cleared => SweepClear(acc)
    case ExpirySet(end) => SetExpiry(acc, e.now, end)
  }

  function Run(acc: Subscriber, run: seq<Timed>): Subscriber {
    if run == [] then acc else Apply(Run(acc, run[..|run| - 1]), run[|run| - 1])
  }

  predicate InOrder(run: seq<Timed>) {
    forall i, k | 0 <= i < k < |run| :: run[i].now <= run[k].now
  }

  /** A sweep that clears a user nobody made Pro again since it picked them. */
  predicate Timely(acc: Subscriber, e: Timed) {
    e.event.Cleared? && acc.marked ==> !IsProAt(acc, e.now)
  }

  /** A direct creation whose dates make sense together. */
  predicate Coherent(e: Timed) {
    e.event.Created? ==>
      if e.event.refundedAt.Some? then
        (e.event.end.Some? && e.event.end.value + GRACE <= e.now)
        || (e.event.end.None? && e.event.grace.Some? && e.event.grace.value <= e.now)
      else e.event.end.Some? || e.event.grace.None?
  }

  // ---- Pro flag and newest row agree ----

  predicate Agrees(acc: Subscriber, t: int) {
    acc.rows != [] ==> (IsProAt(acc, t) <==> ComputeStatus(Latest(acc), t) in {Active, InGrace})
  }

  ghost predicate AgreesFrom(acc: Subscriber, now: int) {
    forall t | t >= now :: Agrees(acc, t)
  }

  ghost predicate NotRefunded(acc: Subscriber) {
    acc.rows != [] ==> Latest(acc).refundedAt.None?
  }

  /** One event keeps the agreement from then on exactly when it is timely and coherent. */
  lemma EventKeepsAgreementIff(acc: Subscriber, since: int, e: Timed)
    requires AgreesFrom(acc, since) && NotRefunded(acc) && e.now >= since
    requires acc.rows != [] || !e.event.Cleared?
    ensures AgreesFrom(Apply(acc, e), e.now) <==> Timely(acc, e) && Coherent(e)
  {
    var after := Apply(acc, e);
    forall t | t >= e.now && Timely(acc, e) && Coherent(e) ensures Agrees(after, t) {
      assert Agrees(acc, t);
    }
    if !Timely(acc, e) {
      assert Agrees(acc, e.now);
      assert !Agrees(after, e.now);
    }
    if !Coherent(e) {
      var late := if e.event.end.None? && e.event.grace.Some? && e.event.grace.value > e.now && e.event.refundedAt.None?
                  then e.event.grace.value else e.now;
      assert !Agrees(after, late);
    }
  }

  ghost predicate GoodRun(acc: Subscriber, run: seq<Timed>) {
    InOrder(run) &&
    forall i | 0 <= i < |run| ::
      Timely(Run(acc, run[..i]), run[i]) && Coherent(run[i])
        && (run[i].event.Created? ==> run[i].event.refundedAt.None?)
  }

  lemma GoodPrefix(acc: Subscriber, run: seq<Timed>)
    requires GoodRun(acc, run) && run != []
    ensures GoodRun(acc, run[..|run| - 1])
  {
    var rest := run[..|run| - 1];
    forall i | 0 <= i < |rest| ensures Timely(Run(acc, rest[..i]), rest[i]) && Coherent(rest[i])
      ensures rest[i].event.Created? ==> rest[i].event.refundedAt.None?
    {
      assert rest[..i] == run[..i];
      assert Timely(Run(acc, run[..i]), run[i]);
    }
  }

  /** At every instant after every run of grants, creations, sweeps and admin overrides, "pro" means
      that the newest row is active or in grace. */
  lemma {:induction false} ProMeansRowRunning(acc: Subscriber, run: seq<Timed>, t: int)
    requires acc.rows == [] && !acc.marked
    requires GoodRun(acc, run)
    requires forall i | 0 <= i < |run| :: run[i].now <= t
    ensures Agrees(Run(acc, run), t)
  {
    AgreementAfter(acc, run);
    var after := Run(acc, run);
    if run != [] {
      assert run[|run| - 1].now <= t;
      assert AgreesFrom(after, run[|run| - 1].now);
    }
  }

  lemma {:induction false} AgreementAfter(acc: Subscriber, run: seq<Timed>)
    requires acc.rows == [] && !acc.marked
    requires GoodRun(acc, run)
    ensures NotRefunded(Run(acc, run))
    ensures run != [] ==> AgreesFrom(Run(acc, run), run[|run| - 1].now)
  {
    if run != [] {
      var rest, e := run[..|run| - 1], run[|run| - 1];
      GoodPrefix(acc, run);
      AgreementAfter(acc, rest);
      assert Timely(Run(acc, rest), e) && Coherent(e);
      StillAgrees(Run(acc, rest), if rest == [] then e.now else rest[|rest| - 1].now, e);
    }
  }

  lemma StillAgrees(acc: Subscriber, since: int, e: Timed)
    requires AgreesFrom(acc, since) && NotRefunded(acc) && since <= e.now && Timely(acc, e) && Coherent(e)
    requires e.event.Created? ==> e.event.refundedAt.None?
    ensures AgreesFrom(Apply(acc, e), e.now) && NotRefunded(Apply(acc, e))
  {
    if acc.rows != [] || !e.event.Cleared? {
      EventKeepsAgreementIff(acc, since, e);
    }
  }

  /** Why sweeps must be timely: a renewal that lands between the sweep's two statements leaves a
      paying user without Pro, and the next renewal starts over from now. */
  lemma LateSweepTakesProAway()
    ensures var plan := Plan(100, 30, false);
            var acc := Subscriber(false, None, [], false);
            var run := [Timed(0, Granted(plan, None)), Timed(40 * DAY, Selected), Timed(40 * DAY, Granted(plan, None)),
                        Timed(40 * DAY, Cleared)];
            var after := Run(acc, run);
            && after.rows != [] && !IsProAt(after, 41 * DAY) && ComputeStatus(Latest(after), 41 * DAY) == Active
            && Latest(after).end == Some(70 * DAY)
            && Latest(Grant(after, 41 * DAY, plan, None)).end == Some(71 * DAY)
  {
    var plan := Plan(100, 30, false);
    var acc := Subscriber(false, None, [], false);
    var a, b, c, d := Timed(0, Granted(plan, None)), Timed(40 * DAY, Selected), Timed(40 * DAY, Granted(plan, None)),
                      Timed(40 * DAY, Cleared);
    assert [a, b, c, d][..3] == [a, b, c] && [a, b, c][..2] == [a, b] && [a, b][..1] == [a] && [a][..0] == [];
    assert Run(acc, [a]) == Apply(acc, a);
    assert Run(acc, [a, b]) == Apply(Run(acc, [a]), b);
    assert Run(acc, [a, b, c]) == Apply(Run(acc, [a, b]), c);
    assert Run(acc, [a, b, c, d]) == Apply(Run(acc, [a, b, c]), d);
  }

  // ---- renewals stack ----

  /** How far a user is paid for. */
  datatype Cover = Nothing | Until(end: int) | Forever

  function CoverOf(end: Option<int>): Cover {
    if end.None? then Forever else Until(end.value)
  }

  /** What a purchase is meant to add: its days on top of the later of now and the paid-for end. */
  function Extended(c: Cover, now: int, plan: Plan): Cover {
    if plan.lifetime || c == Forever then Forever
    else if c.Until? && c.end > now then Until(c.end + plan.durationDays * DAY)
    else Until(now + plan.durationDays * DAY)
  }

  function InitialCover(acc: Subscriber): Cover {
    if acc.isPro then CoverOf(acc.proExpiry) else Nothing
  }

  /** The cover after the grants of a run, with no regard to sweeps or to the Pro flag. */
  function CoverAfter(c: Cover, run: seq<Timed>): Cover {
    if run == [] then c else
      var e := run[|run| - 1];
      var before := CoverAfter(c, run[..|run| - 1]);
      if e.event.Granted? then Extended(before, e.now, e.event.plan) else before
  }

  /** From `now` on the account stands for this cover. */
  predicate Matches(acc: Subscriber, now: int, c: Cover) {
    if acc.rows == [] then
      if acc.isPro then c == CoverOf(acc.proExpiry) else c == Nothing || (c.Until? && c.end <= now)
    else
      && c == CoverOf(Latest(acc).end)
      && Latest(acc).graceEnd == WithGrace(Latest(acc).end)
      && (acc.isPro ==> acc.proExpiry == Latest(acc).graceEnd)
      && (!acc.isPro ==> c.Until? && c.end <= now)
  }

  predicate GrantsAndSweeps(run: seq<Timed>) {
    forall e | e in run :: e.event.Granted? || e.event.Selected? || e.event.Cleared?
  }

  lemma GrantExtends(acc: Subscriber, now: int, c: Cover, plan: Plan, origin: Option<nat>)
    requires Matches(acc, now, c)
    ensures Matches(Grant(acc, now, plan, origin), now, Extended(c, now, plan))
    ensures CoverOf(Latest(Grant(acc, now, plan, origin)).end) == Extended(c, now, plan)
  {
  }

  /** What the account's newest row, or its Pro fields when it has none, say is paid for. */
  function CoverNow(acc: Subscriber): Cover {
    if acc.rows != [] then CoverOf(Latest(acc).end) else InitialCover(acc)
  }

  predicate InForce(c: Cover, now: int) {
    c.Forever? || (c.Until? && c.end > now)
  }

  /** A sweep that clears a user with paid days left; the grace days after them do not count. */
  predicate LosesDays(acc: Subscriber, e: Timed) {
    e.event.Cleared? && acc.marked && InForce(CoverNow(acc), e.now)
  }

  /** A sweep's second statement leaves the account standing for what was paid, unless and only unless
      paid days are left. Taking Pro away in the grace week loses none. */
  lemma ClearKeepsCoverIff(acc: Subscriber, e: Timed, c: Cover)
    requires Matches(acc, e.now, c) && e.event.Cleared?
    ensures Matches(Apply(acc, e), e.now, c) <==> !LosesDays(acc, e)
  {
  }

  /** What such a clear costs: a renewal before the paid days are over ends that much earlier than it
      should, or has an end at all. */
  lemma LostDays(acc: Subscriber, e: Timed, c: Cover, later: int, plan: Plan)
    requires Matches(acc, e.now, c) && LosesDays(acc, e) && e.now <= later && InForce(c, later) && !plan.lifetime
    ensures var end := Latest(Grant(Apply(acc, e), later, plan, None)).end;
            && end == Some(later + plan.durationDays * DAY)
            && (c.Until? ==> Extended(c, later, plan) == Until(end.value + (c.end - later)))
            && (c.Forever? ==> Extended(c, later, plan) == Forever)
  {
  }

  ghost predicate KeepsDays(acc: Subscriber, run: seq<Timed>) {
    InOrder(run) && forall i | 0 <= i < |run| :: !LosesDays(Run(acc, run[..i]), run[i])
  }

  lemma KeepsDaysPrefix(acc: Subscriber, run: seq<Timed>)
    requires KeepsDays(acc, run) && run != []
    ensures KeepsDays(acc, run[..|run| - 1]) && !LosesDays(Run(acc, run[..|run| - 1]), run[|run| - 1])
  {
    var rest := run[..|run| - 1];
    forall i | 0 <= i < |rest| ensures !LosesDays(Run(acc, rest[..i]), rest[i]) {
      assert rest[..i] == run[..i];
    }
  }

  lemma StepMatches(acc: Subscriber, since: int, e: Timed, c: Cover)
    requires Matches(acc, since, c) && since <= e.now && !LosesDays(acc, e)
    requires e.event.Granted? || e.event.Selected? || e.event.Cleared?
    ensures Matches(Apply(acc, e), e.now, if e.event.Granted? then Extended(c, e.now, e.event.plan) else c)
  {
    if e.event.Granted? {
      GrantExtends(acc, e.now, c, e.event.plan, e.event.origin);
    } else if e.event.Cleared? {
      ClearKeepsCoverIff(acc, e, c);
    }
  }

  /** The latest event, clears aside, is a sweep's pick (or there is none yet). */
  predicate PickedLast(run: seq<Timed>) {
    if run == [] then true
    else if run[|run| - 1].event.Cleared? then PickedLast(run[..|run| - 1])
    else run[|run| - 1].event.Selected?
  }

  /** Between the two statements of a sweep nothing else happens to the user. */
  ghost predicate Undisturbed(run: seq<Timed>) {
    forall i | 0 <= i < |run| && run[i].event.Cleared? :: PickedLast(run[..i])
  }

  lemma UndisturbedPrefix(run: seq<Timed>, n: nat)
    requires Undisturbed(run) && n <= |run|
    ensures Undisturbed(run[..n])
  {
    forall i | 0 <= i < n && run[i].event.Cleared? ensures PickedLast(run[..n][..i]) {
      assert run[..n][..i] == run[..i];
    }
  }

  /** Whoever a sweep has picked, and nothing has happened to since, is still overdue. */
  lemma {:induction false} PickedAreOverdue(acc: Subscriber, run: seq<Timed>, now: int)
    requires !acc.marked && PickedLast(run) && InOrder(run) && (run != [] ==> run[|run| - 1].now <= now)
    ensures Run(acc, run).marked ==> Overdue(Run(acc, run), now)
  {
    if run != [] && run[|run| - 1].event.Cleared? {
      PickedAreOverdue(acc, run[..|run| - 1], now);
    }
  }

  /** Sweeps that nothing disturbs are timely, in any run of any events. */
  lemma {:induction false} UndisturbedIsTimely(acc: Subscriber, run: seq<Timed>, i: nat)
    requires !acc.marked && InOrder(run) && Undisturbed(run) && i < |run|
    ensures Timely(Run(acc, run[..i]), run[i])
  {
    if run[i].event.Cleared? {
      PickedAreOverdue(acc, run[..i], run[i].now);
    }
  }

  /** And among grants they clear no paid days. */
  lemma {:induction false} UndisturbedKeepsDays(acc: Subscriber, run: seq<Timed>)
    requires acc.rows == [] && !acc.marked
    requires InOrder(run) && Undisturbed(run) && GrantsAndSweeps(run)
    ensures KeepsDays(acc, run)
  {
    if run != [] {
      var rest, e := run[..|run| - 1], run[|run| - 1];
      UndisturbedPrefix(run, |run| - 1);
      assert forall x | x in rest :: x in run;
      UndisturbedKeepsDays(acc, rest);
      RowsFollowPurchases(acc, rest);
      if e.event.Cleared? {
        PickedAreOverdue(acc, rest, e.now);
        var since := if rest == [] then e.now else rest[|rest| - 1].now;
        OverdueLosesNothing(Run(acc, rest), since, e, CoverAfter(InitialCover(acc), rest));
      }
      KeepsDaysPush(acc, run);
    }
  }

  /** Pro runs out after the paid days, never before. */
  lemma OverdueLosesNothing(acc: Subscriber, since: int, e: Timed, c: Cover)
    requires Matches(acc, since, c) && since <= e.now && (acc.marked ==> Overdue(acc, e.now))
    ensures !LosesDays(acc, e)
  {
  }

  lemma KeepsDaysPush(acc: Subscriber, run: seq<Timed>)
    requires run != [] && InOrder(run) && KeepsDays(acc, run[..|run| - 1])
    requires !LosesDays(Run(acc, run[..|run| - 1]), run[|run| - 1])
    ensures KeepsDays(acc, run)
  {
    var rest := run[..|run| - 1];
    forall i | 0 <= i < |run| ensures !LosesDays(Run(acc, run[..i]), run[i]) {
      if i < |rest| {
        assert run[..i] == rest[..i] && !LosesDays(Run(acc, rest[..i]), rest[i]);
      }
    }
  }

  /** After any run of grants and sweeps that clear no paid days the newest row ends exactly where
      stacking the purchases says: no grace day is counted as paid, no paid day is lost. */
  lemma {:induction false} RowsFollowPurchases(acc: Subscriber, run: seq<Timed>)
    requires acc.rows == []
    requires KeepsDays(acc, run) && GrantsAndSweeps(run)
    ensures var c := CoverAfter(InitialCover(acc), run);
            run != [] ==> Matches(Run(acc, run), run[|run| - 1].now, c)
    ensures Run(acc, run).rows != [] ==> CoverOf(Latest(Run(acc, run)).end) == CoverAfter(InitialCover(acc), run)
  {
    if run != [] {
      var rest, e := run[..|run| - 1], run[|run| - 1];
      KeepsDaysPrefix(acc, run);
      assert forall x | x in rest :: x in run;
      assert e in run;
      RowsFollowPurchases(acc, rest);
      var since := if rest == [] then e.now else rest[|rest| - 1].now;
      StepMatches(Run(acc, rest), since, e, CoverAfter(InitialCover(acc), rest));
    }
  }

  /** From the first lifetime grant on, every end is "never" and no such sweep removes Pro. */
  lemma {:induction false} LifetimeIsForever(acc: Subscriber, run: seq<Timed>, k: nat)
    requires acc.rows == []
    requires KeepsDays(acc, run) && GrantsAndSweeps(run)
    requires k < |run| && run[k].event.Granted? && run[k].event.plan.lifetime
    ensures var after := Run(acc, run);
            after.rows != [] && Latest(after).end == None && forall t :: IsProAt(after, t)
  {
    ForeverStays(InitialCover(acc), run, k);
    RowsFollowPurchases(acc, run);
    HasRow(acc, run, k);
  }

  lemma {:induction false} ForeverStays(c: Cover, run: seq<Timed>, k: nat)
    requires k < |run| && run[k].event.Granted? && run[k].event.plan.lifetime
    ensures CoverAfter(c, run) == Forever
  {
    if k < |run| - 1 {
      ForeverStays(c, run[..|run| - 1], k);
    }
  }

  lemma {:induction false} HasRow(acc: Subscriber, run: seq<Timed>, k: nat)
    requires k < |run| && run[k].event.Granted?
    ensures Run(acc, run).rows != []
  {
    if k < |run| - 1 {
      HasRow(acc, run[..|run| - 1], k);
    }
  }

  /** Purchases alone decide the newest row's end. */
  lemma {:induction false} PurchasesDecideEnd(acc: Subscriber, grants: seq<Timed>)
    requires !acc.isPro && acc.rows == [] && grants != [] && InOrder(grants)
    requires forall e | e in grants :: e.event.Granted?
    ensures Run(acc, grants).rows != [] && CoverOf(Latest(Run(acc, grants)).end) == CoverAfter(Nothing, grants)
  {
    GrantsLoseNothing(acc, grants);
    RowsFollowPurchases(acc, grants);
    assert grants[|grants| - 1] in grants;
    HasRow(acc, grants, |grants| - 1);
  }

  /** Renewing while still covered: the end is the first purchase's start plus all the days bought. */
  lemma {:induction false} EarlyRenewalsAddUp(grants: seq<Timed>)
    requires grants != [] && forall e | e in grants :: e.event.Granted? && !e.event.plan.lifetime
    requires forall k | 0 < k < |grants| ::
               CoverAfter(Nothing, grants[..k]).Until? && grants[k].now <= CoverAfter(Nothing, grants[..k]).end
    ensures CoverAfter(Nothing, grants) == Until(grants[0].now + SumBy(grants, TimeBought()))
  {
    CoverAddsUp(grants, |grants|);
    assert grants[..|grants|] == grants;
  }

  lemma GrantsLoseNothing(acc: Subscriber, grants: seq<Timed>)
    requires InOrder(grants) && forall e | e in grants :: e.event.Granted?
    ensures KeepsDays(acc, grants) && GrantsAndSweeps(grants)
  {
  }

  function TimeBought(): Timed -> int {
    (e: Timed) => if e.event.Granted? then e.event.plan.durationDays * DAY else 0
  }

  lemma {:induction false} CoverAddsUp(grants: seq<Timed>, n: nat)
    requires 0 < n <= |grants| && forall e | e in grants :: e.event.Granted? && !e.event.plan.lifetime
    requires forall k | 0 < k < |grants| ::
               CoverAfter(Nothing, grants[..k]).Until? && grants[k].now <= CoverAfter(Nothing, grants[..k]).end
    ensures CoverAfter(Nothing, grants[..n]) == Until(grants[0].now + SumBy(grants[..n], TimeBought()))
  {
    var e := grants[n - 1];
    assert e in grants;
    assert grants[..n][..n - 1] == grants[..n - 1];
    if n > 1 {
      CoverAddsUp(grants, n - 1);
    } else {
      assert CoverAfter(Nothing, grants[..0]) == Nothing && SumBy(grants[..0], TimeBought()) == 0;
    }
  }

  /** Grants and sweeps never rewrite a row, so what holds of the newest row at one instant holds of
      that row for good. */
  lemma {:induction false} RowsAreKept(acc: Subscriber, run: seq<Timed>, n: nat)
    requires n <= |run| && GrantsAndSweeps(run)
    ensures Run(acc, run[..n]).rows <= Run(acc, run).rows
  {
    if n == |run| {
      assert run[..n] == run;
    } else {
      var rest := run[..|run| - 1];
      assert forall x | x in rest :: x in run;
      assert run[|run| - 1] in run;
      RowsAreKept(acc, rest, n);
      assert rest[..n] == run[..n];
    }
  }

  // ---- refunds ----

  /** A row that counts towards Pro: not refunded and not past its end. */
  predicate Running(r: Row, now: int) {
    r.refundedAt.None? && (r.end.None? || r.end.value > now)
  }

  function RunningRows(rows: seq<Row>, now: int): seq<Row> {
    if rows == [] then [] else
      RunningRows(rows[..|rows| - 1], now) + if Running(rows[|rows| - 1], now) then [rows[|rows| - 1]] else []
  }

  predicate AnyLifetime(rows: seq<Row>) {
    exists r | r in rows :: r.end.None?
  }

  function LatestEnd(rows: seq<Row>): Option<int> {
    if rows == [] then None else
      var before, r := LatestEnd(rows[..|rows| - 1]), rows[|rows| - 1];
      if r.end.Some? && (before.None? || r.end.value > before.value) then r.end else before
  }

  /** The Pro fields derived again from the rows that still run. */
  function Recompute(acc: Subscriber, now: int): Subscriber {
    var subs := RunningRows(acc.rows, now);
    acc.(isPro := subs != [],
         proExpiry := if subs != [] && !AnyLifetime(subs) then LatestEnd(subs) else None)
  }

  function MarkRefunded(acc: Subscriber, row: nat, now: int): Subscriber {
    if row < |acc.rows| then acc.(rows := acc.rows[row := acc.rows[row].(refundedAt := Some(now))]) else acc
  }

  lemma {:induction false} RunningRowsFacts(rows: seq<Row>, now: int)
    ensures forall r :: r in RunningRows(rows, now) <==> r in rows && Running(r, now)
  {
    if rows != [] {
      RunningRowsFacts(rows[..|rows| - 1], now);
      assert rows == rows[..|rows| - 1] + [rows[|rows| - 1]];
    }
  }

  lemma {:induction false} LatestEndFacts(rows: seq<Row>)
    ensures LatestEnd(rows).None? <==> forall r | r in rows :: r.end.None?
    ensures LatestEnd(rows).Some? ==> (exists r | r in rows :: r.end == LatestEnd(rows))
    ensures LatestEnd(rows).Some? ==> (forall r | r in rows && r.end.Some? :: r.end.value <= LatestEnd(rows).value)
  {
    if rows != [] {
      var rest, last := rows[..|rows| - 1], rows[|rows| - 1];
      LatestEndFacts(rest);
      assert rows == rest + [last];
      assert last in rows;
      if LatestEnd(rest).Some? {
        var r :| r in rest && r.end == LatestEnd(rest);
        assert r in rows;
      }
    }
  }

  /** After a recompute a user is Pro at that instant exactly when some unrefunded row still runs,
      and stays Pro exactly as long as one of those rows does. */
  lemma RecomputeMeansRunning(acc: Subscriber, now: int, t: int)
    requires t >= now
    ensures IsProAt(Recompute(acc, now), t) <==>
            exists r | r in acc.rows :: Running(r, now) && (r.end.None? || r.end.value > t)
  {
    var subs := RunningRows(acc.rows, now);
    RunningRowsFacts(acc.rows, now);
    LatestEndFacts(subs);
    if IsProAt(Recompute(acc, now), t) {
      if AnyLifetime(subs) {
        var r :| r in subs && r.end.None?;
        assert r in acc.rows && Running(r, now);
      } else {
        assert subs[0] in subs;
        var r :| r in subs && r.end == LatestEnd(subs);
        assert r in acc.rows && Running(r, now);
      }
    }
    if exists r | r in acc.rows :: Running(r, now) && (r.end.None? || r.end.value > t) {
      var r :| r in acc.rows && Running(r, now) && (r.end.None? || r.end.value > t);
      assert r in subs;
    }
  }
}
