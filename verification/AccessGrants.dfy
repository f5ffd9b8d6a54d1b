/** Launch offers: time-limited grants that switch perks on for everyone, or for some users. */
module AccessGrants {
  import opened Sums
  import opened Subscriptions

  datatype Scope = Everyone | OneUser(id: nat) | University(id: nat) | Department(id: nat) | Batch(id: nat)

  datatype AccessGrant = AccessGrant(badge: string, scope: Scope, adFree: bool, coinFree: bool, startsAt: int,
                                     endsAt: Option<int>, newUserDays: int)

  datatype UserScope = UserScope(user: nat, university: Option<nat>, department: Option<nat>, batch: Option<nat>,
                                 createdAt: int)

  datatype Student = Student(university: nat, department: nat, batch: nat)

  datatype Person = Person(user: nat, university: Option<nat>, department: Option<nat>, createdAt: int,
                           student: Option<Student>)

  /** The user's own university and department win; the student row fills gaps and alone knows the batch. */
  function ScopeFor(p: Person): UserScope {
    match p.student
    case None => UserScope(p.user, p.university, p.department, None, p.createdAt)
    case Some(s) =>
      UserScope(p.user, if p.university.None? then Some(s.university) else p.university,
                if p.department.None? then Some(s.department) else p.department, Some(s.batch), p.createdAt)
  }

  /** An end of None is never. */
  datatype Perks = Perks(adFree: bool, adFreeUntil: Option<int>, coinFree: bool, coinFreeUntil: Option<int>,
                         badge: string)

  predicate Includes(scope: Scope, u: UserScope) {
    match scope
    case Everyone => true
    case OneUser(id) => id == u.user
    case University(id) => u.university == Some(id)
    case Department(id) => u.department == Some(id)
    case Batch(id) => u.batch == Some(id)
  }

  /** The rows the query brings. */
  predicate Covers(g: AccessGrant, u: UserScope, now: int) {
    g.startsAt <= now && (g.endsAt.None? || g.endsAt.value > now) && Includes(g.scope, u)
  }

  function Covering(grants: seq<AccessGrant>, u: UserScope, now: int): (rows: seq<AccessGrant>)
    ensures forall g :: g in rows <==> g in grants && Covers(g, u, now)
  {
    if grants == [] then [] else
      var g := grants[|grants| - 1];
      Covering(grants[..|grants| - 1], u, now) + if Covers(g, u, now) then [g] else []
  }

  /** When a grant stops applying to a user created then; a new user's days may end before the grant. */
  function EndFor(g: AccessGrant, createdAt: int): Option<int> {
    if g.newUserDays > 0 && (g.endsAt.None? || createdAt + g.newUserDays * DAY < g.endsAt.value)
    then Some(createdAt + g.newUserDays * DAY) else g.endsAt
  }

  predicate Past(end: Option<int>, now: int) {
    end.Some? && end.value <= now
  }

  /** a ends after b, where None never ends. */
  predicate Later(a: Option<int>, b: Option<int>) {
    if a.None? then b.Some? else b.Some? && a.value > b.value
  }

  datatype Perk = AdFree | CoinFree

  predicate Has(g: AccessGrant, perk: Perk) {
    if perk == AdFree then g.adFree else g.coinFree
  }

  /** Whom a grant reaches: by university and department the user's own, or else those of the student row,
      which alone knows the batch. */
  lemma WhoIsReached(p: Person, id: nat)
    ensures Includes(Everyone, ScopeFor(p)) && (Includes(OneUser(id), ScopeFor(p)) <==> id == p.user)
    ensures Includes(University(id), ScopeFor(p)) <==>
            p.university == Some(id) || (p.university == None && p.student.Some? && p.student.value.university == id)
    ensures Includes(Department(id), ScopeFor(p)) <==>
            p.department == Some(id) || (p.department == None && p.student.Some? && p.student.value.department == id)
    ensures Includes(Batch(id), ScopeFor(p)) <==> p.student.Some? && p.student.value.batch == id
    ensures ScopeFor(p).createdAt == p.createdAt
  {
  }

  /** The grant gives the user the perk at this instant. */
  predicate Gives(g: AccessGrant, u: UserScope, perk: Perk, now: int) {
    Covers(g, u, now) && Has(g, perk) && !Past(EndFor(g, u.createdAt), now)
  }

  predicate HasPerk(grants: seq<AccessGrant>, u: UserScope, perk: Perk, now: int) {
    exists g | g in grants :: Gives(g, u, perk, now)
  }

  /** `until` is the end of a grant that gives the perk, and no other one's is later. */
  predicate LastEnd(grants: seq<AccessGrant>, u: UserScope, perk: Perk, now: int, until: Option<int>) {
    && (exists g | g in grants :: Gives(g, u, perk, now) && EndFor(g, u.createdAt) == until)
    && (forall g | g in grants && Gives(g, u, perk, now) :: !Later(EndFor(g, u.createdAt), until))
  }

  ghost predicate PerkRight(grants: seq<AccessGrant>, u: UserScope, perk: Perk, now: int, on: bool,
                            until: Option<int>)
  {
    on == HasPerk(grants, u, perk, now) && (on ==> LastEnd(grants, u, perk, now, until))
  }

  predicate GivesAny(g: AccessGrant, u: UserScope, now: int) {
    Gives(g, u, AdFree, now) || Gives(g, u, CoinFree, now)
  }

  /** The badge shown is that of a longest-running grant. */
  ghost predicate BadgeRight(grants: seq<AccessGrant>, u: UserScope, now: int, badge: string, until: Option<int>) {
    if forall g | g in grants :: !GivesAny(g, u, now) then badge == "" else
      && (exists g | g in grants :: GivesAny(g, u, now) && g.badge == badge && EndFor(g, u.createdAt) == until)
      && (forall g | g in grants && GivesAny(g, u, now) :: !Later(EndFor(g, u.createdAt), until))
  }

  lemma PerkPush(grants: seq<AccessGrant>, g: AccessGrant, u: UserScope, perk: Perk, now: int, on: bool,
                 until: Option<int>)
    requires PerkRight(grants, u, perk, now, on, until)
    ensures var end := EndFor(g, u.createdAt);
            if !Gives(g, u, perk, now) then PerkRight(grants + [g], u, perk, now, on, until)
            else if !on || Later(end, until) then PerkRight(grants + [g], u, perk, now, true, end)
            else PerkRight(grants + [g], u, perk, now, on, until)
  {
    assert forall x :: x in grants + [g] <==> x in grants || x == g;
  }

  lemma BadgePush(grants: seq<AccessGrant>, g: AccessGrant, u: UserScope, now: int, badge: string, until: Option<int>)
    requires BadgeRight(grants, u, now, badge, until) && forall x | x in grants + [g] :: x.badge != ""
    ensures var end := EndFor(g, u.createdAt);
            if !GivesAny(g, u, now) then BadgeRight(grants + [g], u, now, badge, until)
            else if badge == "" || Later(end, until) then BadgeRight(grants + [g], u, now, g.badge, end)
            else BadgeRight(grants + [g], u, now, badge, until)
  {
    assert forall x :: x in grants + [g] <==> x in grants || x == g;
  }

  ghost predicate PerksRight(grants: seq<AccessGrant>, u: UserScope, now: int, perks: Perks, badgeUntil: Option<int>) {
    && PerkRight(grants, u, AdFree, now, perks.adFree, perks.adFreeUntil)
    && PerkRight(grants, u, CoinFree, now, perks.coinFree, perks.coinFreeUntil)
    && ((forall g | g in grants :: g.badge != "") ==> BadgeRight(grants, u, now, perks.badge, badgeUntil))
  }

  /** Adds one covering grant to the perks. */
  method Merge(perks: Perks, badgeUntil: Option<int>, g: AccessGrant, u: UserScope, now: int,
               ghost seen: seq<AccessGrant>)
    returns (merged: Perks, mergedUntil: Option<int>)
    requires PerksRight(seen, u, now, perks, badgeUntil) && Covers(g, u, now)
    ensures PerksRight(seen + [g], u, now, merged, mergedUntil)
  {
    merged, mergedUntil := perks, badgeUntil;
    PerkPush(seen, g, u, AdFree, now, perks.adFree, perks.adFreeUntil);
    PerkPush(seen, g, u, CoinFree, now, perks.coinFree, perks.coinFreeUntil);
    if forall x | x in seen + [g] :: x.badge != "" {
      assert forall x | x in seen :: x in seen + [g];
      BadgePush(seen, g, u, now, perks.badge, badgeUntil);
    }
    var until := EndFor(g, u.createdAt);
    if !Past(until, now) && (g.adFree || g.coinFree) {
      if g.adFree && (!perks.adFree || Later(until, perks.adFreeUntil)) {
        merged := merged.(adFree := true, adFreeUntil := until);
      }
      if g.coinFree && (!perks.coinFree || Later(until, perks.coinFreeUntil)) {
        merged := merged.(coinFree := true, coinFreeUntil := until);
      }
      if perks.badge == "" || Later(until, badgeUntil) {
        merged, mergedUntil := merged.(badge := g.badge), until;
      }
    }
  }

  /** Merges the grants that cover the user: each perk takes the latest end among those that give it. */
  method ResolvePerks(grants: seq<AccessGrant>, u: UserScope, now: int) returns (perks: Perks)
    ensures PerkRight(grants, u, AdFree, now, perks.adFree, perks.adFreeUntil)
    ensures PerkRight(grants, u, CoinFree, now, perks.coinFree, perks.coinFreeUntil)
    ensures (forall g | g in grants :: g.badge != "") ==>
              exists until: Option<int> :: BadgeRight(grants, u, now, perks.badge, until)
  {
    var rows := Covering(grants, u, now);
    perks := Perks(false, None, false, None, "");
    var badgeUntil: Option<int> := None;
    for i := 0 to |rows|
      invariant PerksRight(rows[..i], u, now, perks, badgeUntil)
    {
      assert rows[i] in rows && rows[..i + 1] == rows[..i] + [rows[i]];
      perks, badgeUntil := Merge(perks, badgeUntil, rows[i], u, now, rows[..i]);
    }
    assert rows[..|rows|] == rows;
    SameForAll(grants, u, now, perks, badgeUntil);
  }

  lemma SameForAll(grants: seq<AccessGrant>, u: UserScope, now: int, perks: Perks, badgeUntil: Option<int>)
    ensures var rows := Covering(grants, u, now);
            && (PerkRight(rows, u, AdFree, now, perks.adFree, perks.adFreeUntil) ==>
                  PerkRight(grants, u, AdFree, now, perks.adFree, perks.adFreeUntil))
            && (PerkRight(rows, u, CoinFree, now, perks.coinFree, perks.coinFreeUntil) ==>
                  PerkRight(grants, u, CoinFree, now, perks.coinFree, perks.coinFreeUntil))
            && (BadgeRight(rows, u, now, perks.badge, badgeUntil) ==>
                  BadgeRight(grants, u, now, perks.badge, badgeUntil))
  {
  }

  /** What the end means: among the grants that have started, the perk lasts exactly until then. */
  lemma PerkLastsUntil(grants: seq<AccessGrant>, u: UserScope, perk: Perk, now: int, until: Option<int>, t: int)
    requires forall g | g in grants :: g.startsAt <= now
    requires LastEnd(grants, u, perk, now, until) && t >= now
    ensures HasPerk(grants, u, perk, t) <==> until.None? || t < until.value
  {
    if HasPerk(grants, u, perk, t) {
      var g :| g in grants && Gives(g, u, perk, t);
      assert Gives(g, u, perk, now);
    } else {
      var g :| g in grants && Gives(g, u, perk, now) && EndFor(g, u.createdAt) == until;
      assert !Gives(g, u, perk, t);
    }
  }
}
