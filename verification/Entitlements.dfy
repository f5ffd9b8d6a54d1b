/** What a user's plan entitles them to, and the metering of capped features. */
module Entitlements {
  import opened Sums
  import opened Invoices
  import opened Subscriptions
  import opened AccessGrants

  const AD_FREE := "ad_free"
  const UNLIMITED_DOWNLOADS := "unlimited_downloads"
  const PREMIUM_CONTENT := "premium_content"
  const DEFAULT_PRO_FEATURES := [AD_FREE, UNLIMITED_DOWNLOADS, PREMIUM_CONTENT]
  const UNLIMITED := -1

  datatype Period = Always | Daily | Monthly

  /** A day of the calendar, UTC. */
  datatype Date = Date(year: nat, month: nat, day: nat)

  datatype Entitlement = Entitlement(feature: string, limit: int, period: Period)

  datatype Access = Access(allowed: bool, limit: int, period: Period, used: int, remaining: int)

  const DENIED := Access(false, 0, Always, 0, 0)

  datatype CounterKey = CounterKey(user: nat, feature: string, period: string)

  type Counters = map<CounterKey, int>

  datatype SpendReply = Spent | InvalidAmount | NotEntitled | LimitReached

  // ---- counter keys ----

  function PeriodKey(period: Period, now: Date): string {
    match period
    case Daily => Pad(Decimal(now.year), 4) + "-" + (Pad(Decimal(now.month), 2) + "-" + Pad(Decimal(now.day), 2))
    case Monthly => Pad(Decimal(now.year), 4) + "-" + Pad(Decimal(now.month), 2)
    case Always => "all"
  }

  lemma {:induction false} PadDigits(s: string, width: nat)
    requires forall c | c in s :: '0' <= c <= '9'
    ensures forall c | c in Pad(s, width) :: '0' <= c <= '9'
    decreases width - |s|
  {
    if |s| < width {
      PadDigits("0" + s, width);
    }
  }

  lemma PaddedNumber(n: nat, width: nat)
    ensures Value(Pad(Decimal(n), width)) == n && '-' !in Pad(Decimal(n), width)
  {
    DecimalFacts(n);
    PadFacts(Decimal(n), width);
    PadDigits(Decimal(n), width);
  }

  /** The start of the period that a date falls in; the same for every date when there is none. */
  function PeriodStart(period: Period, now: Date): Date {
    match period
    case Daily => now
    case Monthly => Date(now.year, now.month, 1)
    case Always => Date(0, 1, 1)
  }

  /** Two dates share a counter exactly when they fall in the same period, and counters of different
      kinds of period never collide. */
  lemma PeriodKeysApart(p: Period, now: Date, q: Period, later: Date)
    ensures PeriodKey(p, now) == PeriodKey(q, later) <==> p == q && PeriodStart(p, now) == PeriodStart(q, later)
  {
    KeyParts(p, now);
    KeyParts(q, later);
    if PeriodKey(p, now) == PeriodKey(q, later) && p != Always && q != Always {
      SplitAtDash(Pad(Decimal(now.year), 4), AfterYear(p, now), Pad(Decimal(later.year), 4), AfterYear(q, later));
      if p == q == Daily {
        SplitAtDash(Pad(Decimal(now.month), 2), Pad(Decimal(now.day), 2), Pad(Decimal(later.month), 2),
                    Pad(Decimal(later.day), 2));
      }
    }
  }

  function AfterYear(p: Period, now: Date): string {
    if p == Daily then Pad(Decimal(now.month), 2) + "-" + Pad(Decimal(now.day), 2) else Pad(Decimal(now.month), 2)
  }

  lemma KeyParts(p: Period, now: Date)
    ensures Value(Pad(Decimal(now.year), 4)) == now.year && '-' !in Pad(Decimal(now.year), 4)
    ensures Value(Pad(Decimal(now.month), 2)) == now.month && '-' !in Pad(Decimal(now.month), 2)
    ensures Value(Pad(Decimal(now.day), 2)) == now.day
    ensures p != Always ==>
            PeriodKey(p, now) == Pad(Decimal(now.year), 4) + "-" + AfterYear(p, now) && '-' in PeriodKey(p, now)
    ensures '-' in AfterYear(p, now) <==> p == Daily
    ensures '-' !in PeriodKey(Always, now)
  {
    PaddedNumber(now.year, 4);
    PaddedNumber(now.month, 2);
    PaddedNumber(now.day, 2);
    var y := Pad(Decimal(now.year), 4);
    assert p != Always ==> PeriodKey(p, now)[|y|] == '-';
    var m := Pad(Decimal(now.month), 2);
    assert p == Daily ==> AfterYear(p, now)[|m|] == '-';
  }

  // ---- grants ----

  function DefaultRows(n: nat): seq<Entitlement>
    requires n <= |DEFAULT_PRO_FEATURES|
  {
    if n == 0 then [] else DefaultRows(n - 1) + [Entitlement(DEFAULT_PRO_FEATURES[n - 1], UNLIMITED, Always)]
  }

  /** Rows by feature; a later row for the same feature wins. */
  function ByFeature(rows: seq<Entitlement>): map<string, Entitlement> {
    if rows == [] then map[] else ByFeature(rows[..|rows| - 1])[rows[|rows| - 1].feature := rows[|rows| - 1]]
  }

  /** A Pro user whose plan lists nothing gets every default feature without limit; perks switch single
      features on without limit, for anyone. */
  function GrantsFor(isPro: bool, planRows: seq<Entitlement>, adFree: bool, coinFree: bool): map<string, Entitlement> {
    var rows := if !isPro then [] else if planRows == [] then DefaultRows(|DEFAULT_PRO_FEATURES|) else planRows;
    var a := ByFeature(rows);
    var b := if adFree then a[AD_FREE := Entitlement(AD_FREE, UNLIMITED, Always)] else a;
    if coinFree then b[UNLIMITED_DOWNLOADS := Entitlement(UNLIMITED_DOWNLOADS, UNLIMITED, Always)] else b
  }

  /** What the tables hold of one user: Pro fields and subscription rows, the plan of each row, what each
      plan lists, and the access grants that may include them. */
  datatype Holdings = Holdings(acc: Subscriber, planOf: nat -> nat, listed: nat -> seq<Entitlement>, person: Person,
                               offers: seq<AccessGrant>)

  predicate Offered(h: Holdings, perk: Perk, now: int) {
    HasPerk(h.offers, ScopeFor(h.person), perk, now)
  }

  /** The newest row that is not refunded and still runs; grace does not count. */
  function NewestRunning(rows: seq<Row>, now: int): (k: Option<nat>)
    ensures k.Some? ==> k.value < |rows| && Running(rows[k.value], now)
                        && forall i | k.value < i < |rows| :: !Running(rows[i], now)
    ensures k.None? ==> forall r | r in rows :: !Running(r, now)
  {
    if rows == [] then None
    else if Running(rows[|rows| - 1], now) then Some(|rows| - 1)
    else NewestRunning(rows[..|rows| - 1], now)
  }

  /** What the active plan lists; nothing when a Pro user has no running row. */
  function ListedFor(h: Holdings, now: int): seq<Entitlement> {
    match NewestRunning(h.acc.rows, now)
    case Some(k) => h.listed(h.planOf(k))
    case None => []
  }

  function GrantsAt(h: Holdings, now: int): map<string, Entitlement> {
    GrantsFor(IsProAt(h.acc, now), ListedFor(h, now), Offered(h, AdFree, now), Offered(h, CoinFree, now))
  }

  lemma ByFeatureDefaults(f: string)
    ensures var grants := ByFeature(DefaultRows(|DEFAULT_PRO_FEATURES|));
            && (f in grants <==> f in DEFAULT_PRO_FEATURES)
            && (f in grants ==> grants[f] == Entitlement(f, UNLIMITED, Always))
  {
    assert DefaultRows(2)[..1] == DefaultRows(1) && DefaultRows(3)[..2] == DefaultRows(2) && DefaultRows(1)[..0] == [];
  }

  /** While a user is Pro with no running row, which is what the grace week is, the plan's own list is not
      looked at: every default feature is unlimited, a capped one included, and every other is denied. */
  lemma GraceLiftsLimits(h: Holdings, counters: Counters, user: nat, f: string, now: int, date: Date)
    requires IsProAt(h.acc, now) && NewestRunning(h.acc.rows, now).None?
    ensures AccessTo(GrantsAt(h, now), counters, user, f, date) ==
            if f in DEFAULT_PRO_FEATURES then Access(true, UNLIMITED, Always, 0, UNLIMITED) else DENIED
  {
    ByFeatureDefaults(f);
  }

  /** Every dated grant that outlasts the earlier rows brings such a week, right after its end. */
  lemma GraceIsWithoutPlan(acc: Subscriber, bought: int, plan: Plan, origin: Option<nat>, now: int)
    requires Latest(Grant(acc, bought, plan, origin)).end.Some?
    requires var end := Latest(Grant(acc, bought, plan, origin)).end.value;
             end <= now < end + GRACE && forall r | r in acc.rows :: !Running(r, end)
    ensures var after := Grant(acc, bought, plan, origin);
            IsProAt(after, now) && NewestRunning(after.rows, now).None?
  {
    var after := Grant(acc, bought, plan, origin);
    forall r | r in after.rows ensures !Running(r, now) {
      assert r in acc.rows || r == Latest(after);
    }
  }

  function UsedOf(counters: Counters, k: CounterKey): int {
    if k in counters then counters[k] else 0
  }

  function KeyFor(user: nat, g: Entitlement, feature: string, now: Date): CounterKey {
    CounterKey(user, feature, PeriodKey(g.period, now))
  }

  function AccessTo(grants: map<string, Entitlement>, counters: Counters, user: nat, feature: string,
                    now: Date): Access {
    if feature !in grants || grants[feature].limit == 0 then DENIED else
      var g := grants[feature];
      if g.limit == UNLIMITED then Access(true, g.limit, g.period, 0, UNLIMITED)
      else
        var used := UsedOf(counters, KeyFor(user, g, feature, now));
        Access(true, g.limit, g.period, used, if g.limit - used < 0 then 0 else g.limit - used)
  }

  // ---- what decides an access ----

  predicate LastFor(rows: seq<Entitlement>, f: string, k: nat) {
    k < |rows| && rows[k].feature == f && forall j | k < j < |rows| :: rows[j].feature != f
  }

  /** Of several rows for a feature the last counts. */
  lemma {:induction false} ByFeatureIsLast(rows: seq<Entitlement>, f: string)
    ensures f in ByFeature(rows) <==> exists r | r in rows :: r.feature == f
    ensures forall k: nat | LastFor(rows, f, k) :: f in ByFeature(rows) && ByFeature(rows)[f] == rows[k]
  {
    if rows != [] {
      var rest, last := rows[..|rows| - 1], rows[|rows| - 1];
      assert rows == rest + [last];
      ByFeatureIsLast(rest, f);
      forall k: nat | LastFor(rows, f, k) ensures f in ByFeature(rows) && ByFeature(rows)[f] == rows[k] {
        if k < |rest| {
          assert rows[|rows| - 1].feature != f && LastFor(rest, f, k);
        }
      }
    }
  }

  /** An offer switches its own feature on without limit, Pro or not. A user who is not Pro has nothing
      else. */
  lemma OffersSwitchOn(h: Holdings, counters: Counters, user: nat, f: string, now: int, date: Date)
    ensures var access := AccessTo(GrantsAt(h, now), counters, user, f, date);
            var offered := || (f == "ad_free" && Offered(h, AdFree, now))
                           || (f == "unlimited_downloads" && Offered(h, CoinFree, now));
            && (offered ==> access == Access(true, -1, Always, 0, -1))
            && (!offered && !IsProAt(h.acc, now) ==> access == Access(false, 0, Always, 0, 0))
  {
    assert AD_FREE[0] != UNLIMITED_DOWNLOADS[0];
  }

  /** What a running plan lists decides a Pro user's access to every feature no offer switches on: the last
      row for it, with what is left of its cap in its period; a cap of zero, or no row, is no access. */
  lemma PlanDecidesAccess(h: Holdings, counters: Counters, user: nat, f: string, now: int, date: Date)
    requires IsProAt(h.acc, now) && ListedFor(h, now) != []
    requires !(f == "ad_free" && Offered(h, AdFree, now)) && !(f == "unlimited_downloads" && Offered(h, CoinFree, now))
    ensures var rows, access := ListedFor(h, now), AccessTo(GrantsAt(h, now), counters, user, f, date);
            && ((forall r | r in rows :: r.feature != f) ==> access == Access(false, 0, Always, 0, 0))
            && forall k: nat | LastFor(rows, f, k) ::
                 access ==
                 if rows[k].limit == 0 then Access(false, 0, Always, 0, 0)
                 else if rows[k].limit == -1 then Access(true, -1, rows[k].period, 0, -1)
                 else
                   var used := UsedOf(counters, CounterKey(user, f, PeriodKey(rows[k].period, date)));
                   var left := if used >= rows[k].limit then 0 else rows[k].limit - used;
                   Access(true, rows[k].limit, rows[k].period, used, left)
  {
    ByFeatureIsLast(ListedFor(h, now), f);
  }

  // ---- spending ----

  /** The conditional update: all of n fits under the limit, or nothing is spent. */
  function Spend(counters: Counters, k: CounterKey, n: int, limit: int): (Counters, bool) {
    var used := UsedOf(counters, k);
    if used + n <= limit then (counters[k := used + n], true)
    else (if k in counters then counters else counters[k := 0], false)
  }

  /** A request to spend n units: an unlimited feature records nothing, and the counter row, made when it
      is missing, is the one of the second look at the clock. */
  function Consumed(counters: Counters, grants: map<string, Entitlement>, user: nat, feature: string, n: int,
                    date: Date, later: Date): (Counters, SpendReply)
  {
    var access := AccessTo(grants, counters, user, feature, date);
    if n <= 0 then (counters, InvalidAmount)
    else if !access.allowed then (counters, NotEntitled)
    else if access.limit == UNLIMITED then (counters, Spent)
    else
      var spent := Spend(counters, KeyFor(user, grants[feature], feature, later), n, access.limit);
      (spent.0, if spent.1 then Spent else LimitReached)
  }

  /** On one day a spending goes through exactly when a check would have shown it unlimited or enough
      left, and then a check shows that much less left; otherwise checks show what they did. */
  lemma CheckForetellsConsume(counters: Counters, grants: map<string, Entitlement>, user: nat, feature: string, n: int,
                              date: Date)
    requires n > 0
    ensures var before := AccessTo(grants, counters, user, feature, date);
            var (after, reply) := Consumed(counters, grants, user, feature, n, date, date);
            && (reply == Spent <==> before.allowed && (before.limit == UNLIMITED || n <= before.remaining))
            && AccessTo(grants, after, user, feature, date) ==
               if reply == Spent && before.limit != UNLIMITED
               then before.(used := before.used + n, remaining := before.remaining - n) else before
  {
  }

  class UsageTables {
    var counters: Counters

    constructor (counters: Counters)
      ensures this.counters == counters
    {
      this.counters := counters;
    }

    /** The rows of the active plan, or the defaults when there is none or it lists nothing. */
    method PlanRows(h: Holdings, now: int) returns (rows: seq<Entitlement>)
      ensures rows == if ListedFor(h, now) == [] then DefaultRows(|DEFAULT_PRO_FEATURES|) else ListedFor(h, now)
    {
      rows := [];
      var sub := NewestRunning(h.acc.rows, now);
      if sub.Some? {
        rows := h.listed(h.planOf(sub.value));
      }
      if |rows| == 0 {
        for i := 0 to |DEFAULT_PRO_FEATURES|
          invariant rows == DefaultRows(i)
        {
          rows := rows + [Entitlement(DEFAULT_PRO_FEATURES[i], UNLIMITED, Always)];
        }
      }
    }

    method Collect(rows: seq<Entitlement>) returns (grants: map<string, Entitlement>)
      ensures grants == ByFeature(rows)
    {
      grants := map[];
      for i := 0 to |rows|
        invariant grants == ByFeature(rows[..i])
      {
        assert rows[..i + 1][..|rows[..i + 1]| - 1] == rows[..i];
        grants := grants[rows[i].feature := rows[i]];
      }
      assert rows[..|rows|] == rows;
    }

    method Resolve(user: nat, h: Holdings, now: int, date: Date)
      returns (features: map<string, Access>, grants: map<string, Entitlement>)
      ensures grants == GrantsAt(h, now)
      ensures forall f :: f in features <==> f in DEFAULT_PRO_FEATURES || f in grants
      ensures forall f | f in features :: features[f] == AccessTo(grants, counters, user, f, date)
    {
      grants := map[];
      if h.acc.isPro && (h.acc.proExpiry.None? || h.acc.proExpiry.value > now) {
        var rows := PlanRows(h, now);
        grants := Collect(rows);
      }
      var perks := ResolvePerks(h.offers, ScopeFor(h.person), now);
      if perks.adFree {
        grants := grants[AD_FREE := Entitlement(AD_FREE, UNLIMITED, Always)];
      }
      if perks.coinFree {
        grants := grants[UNLIMITED_DOWNLOADS := Entitlement(UNLIMITED_DOWNLOADS, UNLIMITED, Always)];
      }
      features := Accesses(user, (set f | f in DEFAULT_PRO_FEATURES) + grants.Keys, grants, date);
    }

    /** Every known feature appears, denied unless granted. */
    method Accesses(user: nat, known: set<string>, grants: map<string, Entitlement>, now: Date)
      returns (features: map<string, Access>)
      ensures features.Keys == known
      ensures forall f | f in features :: features[f] == AccessTo(grants, counters, user, f, now)
    {
      var left := known;
      features := map[];
      while left != {}
        invariant left <= known && features.Keys == known - left
        invariant forall f | f in features :: features[f] == AccessTo(grants, counters, user, f, now)
        decreases left
      {
        var f :| f in left;
        left := left - {f};
        var access := DENIED;
        if f in grants && grants[f].limit != 0 {
          var g := grants[f];
          access := Access(true, g.limit, g.period, 0, UNLIMITED);
          if g.limit != UNLIMITED {
            var used := UsedOf(counters, CounterKey(user, f, PeriodKey(g.period, now)));
            access := access.(used := used, remaining := if g.limit - used < 0 then 0 else g.limit - used);
          }
        }
        features := features[f := access];
      }
    }

    /** Unknown features are denied. */
    method Check(user: nat, feature: string, h: Holdings, now: int, date: Date) returns (access: Access)
      ensures access == AccessTo(GrantsAt(h, now), counters, user, feature, date)
    {
      var features, grants := Resolve(user, h, now, date);
      access := if feature in features then features[feature] else DENIED;
    }

    /** Spends n units; the counter row is chosen by a second look at the clock. */
    method Consume(user: nat, feature: string, n: int, h: Holdings, now: int, date: Date, later: Date)
      returns (reply: SpendReply)
      modifies this
      ensures (counters, reply) == Consumed(old(counters), GrantsAt(h, now), user, feature, n, date, later)
    {
      if n <= 0 {
        return InvalidAmount;
      }
      var features, grants := Resolve(user, h, now, date);
      if feature !in features || !features[feature].allowed {
        return NotEntitled;
      }
      var g := grants[feature];
      if g.limit == UNLIMITED {
        return Spent;
      }
      var key := CounterKey(user, feature, PeriodKey(g.period, later));
      if key !in counters {
        counters := counters[key := 0];
      }
      if counters[key] + n <= g.limit {
        counters := counters[key := counters[key] + n];
        assert counters == old(counters)[key := UsedOf(old(counters), key) + n];
        return Spent;
      }
      reply := LimitReached;
    }
  }

  // ---- every interleaving ----

  /** One conditional update reaching the database, from whichever request. */
  datatype Attempt = Attempt(key: CounterKey, n: int, limit: int)

  function AfterAll(counters: Counters, run: seq<Attempt>): Counters {
    if run == [] then counters else
      var a := run[|run| - 1];
      Spend(AfterAll(counters, run[..|run| - 1]), a.key, a.n, a.limit).0
  }

  /** What the successful attempts on one counter spent. */
  function TotalSpent(counters: Counters, run: seq<Attempt>, k: CounterKey): int {
    if run == [] then 0 else
      var a, rest := run[|run| - 1], run[..|run| - 1];
      var spent := a.key == k && Spend(AfterAll(counters, rest), a.key, a.n, a.limit).1;
      TotalSpent(counters, rest, k) + if spent then a.n else 0
  }

  /** Under every interleaving of requests, of any users and features, a counter is exactly the sum of
      what succeeded on it, and no more than the limit they all respect. */
  lemma {:induction false} CounterIsWhatSucceeded(counters: Counters, run: seq<Attempt>, k: CounterKey, limit: int)
    requires UsedOf(counters, k) <= limit
    requires forall a | a in run && a.key == k :: a.limit <= limit
    ensures UsedOf(AfterAll(counters, run), k) == UsedOf(counters, k) + TotalSpent(counters, run, k)
    ensures UsedOf(AfterAll(counters, run), k) <= limit
  {
    if run != [] {
      assert run[|run| - 1] in run && forall a | a in run[..|run| - 1] :: a in run;
      CounterIsWhatSucceeded(counters, run[..|run| - 1], k, limit);
    }
  }
}
