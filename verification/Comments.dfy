/** The comment forest: replies are linked through pointers in place, roots are copied out, and a new
    comment is found again by recursive search. A pointer into the slice is a position in it. */
module Comments {
  import opened Sums

  datatype Comment = Comment(id: nat, parent: Option<nat>, replies: seq<nat>)

  /** Where a comment belongs: at the top, nowhere (its parent was not fetched), or under a position. */
  datatype Place = Root | Orphan | Under(parent: nat)

  /** The pointer map's entry for an id: the last comment that has it. */
  function Position(rows: seq<Comment>, id: nat): (r: Option<nat>)
    ensures r.Some? ==> r.value < |rows| && rows[r.value].id == id
  {
    if rows == [] then None
    else if rows[|rows| - 1].id == id then Some(|rows| - 1)
    else Position(rows[..|rows| - 1], id)
  }

  function PlaceOf(rows: seq<Comment>, c: Comment): (r: Place)
    ensures r.Under? ==> r.parent < |rows|
  {
    if c.parent.None? then Root
    else match Position(rows, c.parent.value)
         case Some(p) => Under(p)
         case None => Orphan
  }

  function Places(rows: seq<Comment>): (r: seq<Place>)
    ensures |r| == |rows| && forall i | 0 <= i < |r| :: r[i] == PlaceOf(rows, rows[i])
  {
    seq(|rows|, i requires 0 <= i < |rows| => PlaceOf(rows, rows[i]))
  }

  /** The positions of one place, in fetch order. */
  function Those(places: seq<Place>, at: Place): seq<nat> {
    if places == [] then [] else
      Those(places[..|places| - 1], at) + if places[|places| - 1] == at then [|places| - 1] else []
  }

  lemma {:induction false} ThoseMembers(places: seq<Place>, at: Place, x: nat)
    ensures multiset(Those(places, at))[x] == if x < |places| && places[x] == at then 1 else 0
  {
    if places != [] {
      ThoseMembers(places[..|places| - 1], at, x);
    }
  }

  lemma ThoseIn(places: seq<Place>, at: Place, x: nat)
    ensures x in Those(places, at) <==> x < |places| && places[x] == at
  {
  }

  // ---- building ----

  method IndexById(all: array<Comment>) returns (byId: map<nat, nat>)
    modifies all
    ensures forall i | 0 <= i < all.Length :: all[i] == old(all[i]).(replies := [])
    ensures forall id: nat :: (if id in byId then Some(byId[id]) else None) == Position(old(all[..]), id)
  {
    ghost var rows := all[..];
    byId := map[];
    for i := 0 to all.Length
      invariant forall k | 0 <= k < i :: all[k] == rows[k].(replies := [])
      invariant forall k | i <= k < all.Length :: all[k] == rows[k]
      invariant forall id: nat :: (if id in byId then Some(byId[id]) else None) == Position(rows[..i], id)
    {
      assert rows[..i + 1][..|rows[..i + 1]| - 1] == rows[..i];
      all[i] := all[i].(replies := []);
      byId := byId[all[i].id := i];
    }
    assert rows[..all.Length] == rows;
  }

  method LinkReplies(all: array<Comment>, byId: map<nat, nat>, ghost rows: seq<Comment>)
    requires |rows| == all.Length && forall i | 0 <= i < all.Length :: all[i] == rows[i].(replies := [])
    requires forall id: nat :: (if id in byId then Some(byId[id]) else None) == Position(rows, id)
    modifies all
    ensures forall i | 0 <= i < all.Length :: all[i] == rows[i].(replies := Those(Places(rows), Under(i)))
  {
    ghost var places := Places(rows);
    for i := 0 to all.Length
      invariant forall k | 0 <= k < all.Length :: all[k] == rows[k].(replies := Those(places[..i], Under(k)))
    {
      assert places[..i + 1][..|places[..i + 1]| - 1] == places[..i];
      var comment := all[i];
      if comment.parent.Some? && comment.parent.value in byId {
        var parent := byId[comment.parent.value];
        assert Position(rows, comment.parent.value) == Some(parent);
        all[parent] := all[parent].(replies := all[parent].replies + [i]);
      } else {
        assert comment.parent.Some? ==> Position(rows, comment.parent.value) == None;
      }
    }
    assert places[..all.Length] == places;
  }

  /** The roots are copies made once all replies are linked. */
  method GetCommentsByPostID(all: array<Comment>) returns (finalRoots: seq<Comment>)
    modifies all
    ensures var places := Places(old(all[..]));
            && (forall i | 0 <= i < all.Length :: all[i] == old(all[i]).(replies := Those(places, Under(i))))
            && |finalRoots| == |Those(places, Root)|
            && (forall r | 0 <= r < |finalRoots| ::
                  Those(places, Root)[r] < all.Length && finalRoots[r] == all[Those(places, Root)[r]])
  {
    ghost var rows := all[..];
    ghost var places := Places(rows);
    var byId := IndexById(all);
    LinkReplies(all, byId, rows);
    finalRoots := [];
    for i := 0 to all.Length
      invariant |finalRoots| == |Those(places[..i], Root)|
      invariant forall r | 0 <= r < |finalRoots| ::
                  Those(places[..i], Root)[r] < all.Length && finalRoots[r] == all[Those(places[..i], Root)[r]]
    {
      assert places[..i + 1][..|places[..i + 1]| - 1] == places[..i];
      if all[i].parent.None? {
        finalRoots := finalRoots + [all[i]];
      }
    }
    assert places[..all.Length] == places;
  }

  // ---- ancestor chains ----

  /** k steps up from x. */
  function Ancestor(places: seq<Place>, x: nat, k: nat): Option<nat> {
    if k == 0 then Some(x) else
      var below := Ancestor(places, x, k - 1);
      if below.Some? && below.value < |places| && places[below.value].Under?
      then Some(places[below.value].parent) else None
  }

  /** The whole ancestor chain of x, d steps long, was fetched. Cycles have no such chain. */
  predicate Rooted(places: seq<Place>, x: nat, d: nat) {
    var a := Ancestor(places, x, d);
    a.Some? && a.value < |places| && places[a.value] == Root
  }

  ghost predicate ChainFetched(places: seq<Place>, x: nat) {
    exists d: nat :: Rooted(places, x, d)
  }

  /** A chain that has reached the top is over. */
  lemma {:induction false} ChainEnds(places: seq<Place>, x: nat, d: nat, e: nat)
    requires Rooted(places, x, d) && d < e
    ensures Ancestor(places, x, e).None?
  {
    if e > d + 1 {
      ChainEnds(places, x, d, e - 1);
    }
  }

  lemma DepthIsUnique(places: seq<Place>, x: nat, d: nat, e: nat)
    requires Rooted(places, x, d) && Rooted(places, x, e)
    ensures d == e
  {
    if d < e {
      ChainEnds(places, x, d, e);
    } else if e < d {
      ChainEnds(places, x, e, d);
    }
  }

  /** Chains compose. */
  lemma {:induction false} AncestorOfAncestor(places: seq<Place>, x: nat, k: nat, a: nat, d: nat)
    requires Ancestor(places, x, k) == Some(a)
    ensures Ancestor(places, x, k + d) == Ancestor(places, a, d)
  {
    if d > 0 {
      AncestorOfAncestor(places, x, k, a, d - 1);
    }
  }

  lemma {:induction false} NoEarlyEnd(places: seq<Place>, x: nat, d: nat, n: nat)
    requires Rooted(places, x, d) && n <= d
    ensures Ancestor(places, x, n).Some? && Ancestor(places, x, n).value < |places|
    decreases d - n
  {
    if n < d {
      NoEarlyEnd(places, x, d, n + 1);
    }
  }

  /** A rooted chain never comes back to where it was. */
  lemma NoReturn(places: seq<Place>, x: nat, d: nat, k: nat, n: nat)
    requires Rooted(places, x, d) && k < n <= d
    ensures Ancestor(places, x, k) != Ancestor(places, x, n)
  {
    NoEarlyEnd(places, x, d, k);
    if Ancestor(places, x, k) == Ancestor(places, x, n) {
      var a := Ancestor(places, x, k).value;
      AncestorOfAncestor(places, x, k, a, d - n);
      AncestorOfAncestor(places, x, n, a, d - n);
      DepthIsUnique(places, x, k + (d - n), d);
    }
  }

  predicate OnChain(places: seq<Place>, x: nat, n: nat, v: nat) {
    exists k: nat | k <= n :: Ancestor(places, x, k) == Some(v)
  }

  lemma Newcomer(places: seq<Place>, x: nat, d: nat, n: nat, v: nat)
    requires Rooted(places, x, d) && n < d && Ancestor(places, x, n + 1) == Some(v)
    ensures !OnChain(places, x, n, v)
  {
    if OnChain(places, x, n, v) {
      var k: nat :| k <= n && Ancestor(places, x, k) == Some(v);
      NoReturn(places, x, d, k, n + 1);
    }
  }

  lemma OnLongerChain(places: seq<Place>, x: nat, n: nat, v: nat)
    requires OnChain(places, x, n, v)
    ensures OnChain(places, x, n + 1, v)
  {
  }

  /** The comments on the first n steps of x's chain. */
  lemma {:induction false} Chain(places: seq<Place>, x: nat, d: nat, n: nat) returns (chain: set<nat>)
    requires Rooted(places, x, d) && n <= d
    ensures |chain| == n + 1
    ensures forall v | v in chain :: v < |places| && OnChain(places, x, n, v)
  {
    NoEarlyEnd(places, x, d, n);
    var v := Ancestor(places, x, n).value;
    assert OnChain(places, x, n, v);
    if n == 0 {
      chain := {v};
    } else {
      var rest := Chain(places, x, d, n - 1);
      Newcomer(places, x, d, n - 1, v);
      forall w | w in rest ensures OnChain(places, x, n, w) {
        OnLongerChain(places, x, n - 1, w);
      }
      chain := rest + {v};
    }
  }

  lemma {:induction false} SetFits(s: set<nat>, n: nat)
    requires forall x | x in s :: x < n
    ensures |s| <= n
  {
    if n > 0 {
      SetFits(s - {n - 1}, n - 1);
      assert |s - {n - 1}| >= |s| - 1;
    } else {
      assert s == {};
    }
  }

  /** A chain visits each comment once, so it is shorter than the list. */
  lemma DepthBound(places: seq<Place>, x: nat, d: nat)
    requires Rooted(places, x, d)
    ensures d < |places|
  {
    var chain := Chain(places, x, d, d);
    SetFits(chain, |places|);
  }

  // ---- who is in the forest, and how often ----

  function KidsOf(places: seq<Place>): nat -> seq<nat> {
    (c: nat) => Those(places, Under(c))
  }

  /** All comments met by walking down a list of siblings, at most n levels, each followed by what
      hangs below it. */
  function Walk(kids: nat -> seq<nat>, list: seq<nat>, n: nat): seq<nat>
    decreases n, |list|
  {
    if list == [] || n == 0 then [] else
      var c := list[|list| - 1];
      Walk(kids, list[..|list| - 1], n) + [c] + Walk(kids, kids(c), n - 1)
  }

  /** The returned forest; n comments make at most n levels. */
  function Forest(places: seq<Place>): seq<nat> {
    Walk(KidsOf(places), Those(places, Root), |places|)
  }

  /** How often the list has the comment k steps above x. */
  function Hit(places: seq<Place>, list: seq<nat>, x: nat): nat -> int {
    (k: nat) => if Ancestor(places, x, k).Some? then multiset(list)[Ancestor(places, x, k).value] else 0
  }

  /** Leaving out the first summand. */
  lemma {:induction false} SumToShift(n: nat, f: nat -> int, g: nat -> int)
    requires n > 0 && forall k: nat | k < n - 1 :: g(k) == f(k + 1)
    ensures SumTo(n, f) == f(0) + SumTo(n - 1, g)
  {
    if n > 1 {
      SumToShift(n - 1, f, g);
    }
  }

  lemma {:induction false} SumToPlus(n: nat, f: nat -> int, g: nat -> int, h: nat -> int)
    requires forall k: nat | k < n :: h(k) == f(k) + g(k)
    ensures SumTo(n, h) == SumTo(n, f) + SumTo(n, g)
  {
    if n > 0 {
      SumToPlus(n - 1, f, g, h);
    }
  }

  /** The comments below c are those whose chain passes c on the next step. */
  lemma HitKids(places: seq<Place>, c: nat, x: nat, k: nat)
    requires x < |places|
    ensures Hit(places, Those(places, Under(c)), x)(k) == Hit(places, [c], x)(k + 1)
  {
    var below := Ancestor(places, x, k);
    if below.Some? {
      ThoseMembers(places, Under(c), below.value);
    }
  }

  lemma JoinedCount(a: seq<nat>, c: nat, b: seq<nat>, x: nat)
    ensures multiset(a + [c] + b)[x] == multiset(a)[x] + (if c == x then 1 else 0) + multiset(b)[x]
  {
  }

  /** How often a walk meets x. */
  function Met(kids: nat -> seq<nat>, list: seq<nat>, n: nat, x: nat): nat {
    multiset(Walk(kids, list, n))[x]
  }

  lemma MetStep(kids: nat -> seq<nat>, list: seq<nat>, n: nat, x: nat)
    requires list != [] && n > 0
    ensures var c := list[|list| - 1];
            Met(kids, list, n, x) ==
              Met(kids, list[..|list| - 1], n, x) + (if c == x then 1 else 0) + Met(kids, kids(c), n - 1, x)
  {
    var c := list[|list| - 1];
    JoinedCount(Walk(kids, list[..|list| - 1], n), c, Walk(kids, kids(c), n - 1), x);
  }

  lemma HitsPush(places: seq<Place>, list: seq<nat>, c: nat, n: nat, x: nat)
    ensures SumTo(n, Hit(places, list + [c], x)) == SumTo(n, Hit(places, list, x)) + SumTo(n, Hit(places, [c], x))
  {
    SumToPlus(n, Hit(places, list, x), Hit(places, [c], x), Hit(places, list + [c], x));
  }

  lemma {:induction false} CountsAdd(places: seq<Place>, kids: nat -> seq<nat>, rest: seq<nat>, c: nat, n: nat, x: nat)
    requires n > 0 && Met(kids, rest, n, x) == SumTo(n, Hit(places, rest, x))
    requires (if c == x then 1 else 0) + Met(kids, kids(c), n - 1, x) == SumTo(n, Hit(places, [c], x))
    ensures Met(kids, rest + [c], n, x) == SumTo(n, Hit(places, rest + [c], x))
  {
    assert (rest + [c])[..|rest + [c]| - 1] == rest;
    MetStep(kids, rest + [c], n, x);
    HitsPush(places, rest, c, n, x);
  }

  /** A walk meets a comment once for every step of its chain that is in the list. */
  lemma {:induction false} WalkCounts(places: seq<Place>, kids: nat -> seq<nat>, list: seq<nat>, n: nat, x: nat)
    requires x < |places| && kids == KidsOf(places)
    ensures Met(kids, list, n, x) == SumTo(n, Hit(places, list, x))
    decreases n, |list|
  {
    if list == [] {
      NothingHit(places, n, x);
    } else if n > 0 {
      var c, rest := list[|list| - 1], list[..|list| - 1];
      WalkCounts(places, kids, rest, n, x);
      WalkCounts(places, kids, kids(c), n - 1, x);
      OneCounts(places, c, n, x);
      assert list == rest + [c];
      CountsAdd(places, kids, rest, c, n, x);
    }
  }

  lemma OneCounts(places: seq<Place>, c: nat, n: nat, x: nat)
    requires x < |places| && n > 0
    ensures SumTo(n, Hit(places, [c], x)) ==
            (if c == x then 1 else 0) + SumTo(n - 1, Hit(places, Those(places, Under(c)), x))
  {
    forall k: nat | k < n - 1 ensures Hit(places, Those(places, Under(c)), x)(k) == Hit(places, [c], x)(k + 1) {
      HitKids(places, c, x, k);
    }
    SumToShift(n, Hit(places, [c], x), Hit(places, Those(places, Under(c)), x));
    assert Ancestor(places, x, 0) == Some(x);
  }

  lemma {:induction false} NothingHit(places: seq<Place>, n: nat, x: nat)
    ensures SumTo(n, Hit(places, [], x)) == 0
  {
    if n > 0 {
      NothingHit(places, n - 1, x);
    }
  }

  lemma RootHit(places: seq<Place>, x: nat, k: nat)
    ensures Hit(places, Those(places, Root), x)(k) == if Rooted(places, x, k) then 1 else 0
  {
    if Ancestor(places, x, k).Some? {
      ThoseMembers(places, Root, Ancestor(places, x, k).value);
    }
  }

  lemma {:induction false} RootsHit(places: seq<Place>, x: nat, n: nat)
    ensures (exists d: nat | d < n :: Rooted(places, x, d)) ==> SumTo(n, Hit(places, Those(places, Root), x)) == 1
    ensures !(exists d: nat | d < n :: Rooted(places, x, d)) ==> SumTo(n, Hit(places, Those(places, Root), x)) == 0
  {
    if n > 0 {
      RootsHit(places, x, n - 1);
      RootHit(places, x, n - 1);
      if Rooted(places, x, n - 1) && exists d: nat | d < n - 1 :: Rooted(places, x, d) {
        var d: nat :| d < n - 1 && Rooted(places, x, d);
        DepthIsUnique(places, x, d, n - 1);
      }
    }
  }

  /** The forest holds exactly the comments whose whole ancestor chain was fetched, each once. Parents
      may be missing or form cycles: such comments are left out, and so is all below them. */
  lemma ForestHasChainsOnce(places: seq<Place>, x: nat)
    requires x < |places|
    ensures multiset(Forest(places))[x] == if ChainFetched(places, x) then 1 else 0
  {
    WalkCounts(places, KidsOf(places), Those(places, Root), |places|, x);
    RootsHit(places, x, |places|);
    if ChainFetched(places, x) {
      var d: nat :| Rooted(places, x, d);
      DepthBound(places, x, d);
    }
  }

  // ---- searching ----

  ghost predicate Siblings(places: seq<Place>, list: seq<nat>, d: nat) {
    forall c | c in list :: c < |places| && Rooted(places, c, d)
  }

  lemma KidsAreSiblings(places: seq<Place>, c: nat, d: nat)
    requires Rooted(places, c, d)
    ensures Siblings(places, KidsOf(places)(c), d + 1)
  {
    forall k | k in Those(places, Under(c)) ensures k < |places| && Rooted(places, k, d + 1) {
      ThoseIn(places, Under(c), k);
      assert Ancestor(places, k, 0) == Some(k) && Ancestor(places, k, 1) == Some(c);
      AncestorOfAncestor(places, k, 1, c, d);
    }
  }

  lemma RootsAreSiblings(places: seq<Place>)
    ensures Siblings(places, Those(places, Root), 0)
  {
  }

  /** Replies as the build leaves them. */
  ghost predicate Linked(all: seq<Comment>, kids: nat -> seq<nat>) {
    forall i | 0 <= i < |all| :: all[i].replies == kids(i)
  }

  predicate Among(all: seq<Comment>, walk: seq<nat>, id: nat) {
    exists c | c in walk :: c < |all| && all[c].id == id
  }

  /** The walk meets a comment with this id. */
  predicate Reaches(all: seq<Comment>, kids: nat -> seq<nat>, list: seq<nat>, n: nat, id: nat)
    decreases n, |list|
  {
    list != [] && n > 0 &&
    var c := list[|list| - 1];
    || Reaches(all, kids, list[..|list| - 1], n, id)
    || (c < |all| && all[c].id == id)
    || Reaches(all, kids, kids(c), n - 1, id)
  }

  lemma AmongJoined(all: seq<Comment>, a: seq<nat>, c: nat, b: seq<nat>, id: nat)
    ensures Among(all, a + [c] + b, id) <==> Among(all, a, id) || (c < |all| && all[c].id == id) || Among(all, b, id)
  {
  }

  lemma {:induction false} ReachesIsAmong(all: seq<Comment>, kids: nat -> seq<nat>, list: seq<nat>, n: nat, id: nat)
    ensures Reaches(all, kids, list, n, id) <==> Among(all, Walk(kids, list, n), id)
    decreases n, |list|
  {
    if list != [] && n > 0 {
      var c, rest := list[|list| - 1], list[..|list| - 1];
      ReachesIsAmong(all, kids, rest, n, id);
      ReachesIsAmong(all, kids, kids(c), n - 1, id);
      AmongJoined(all, Walk(kids, rest, n), c, Walk(kids, kids(c), n - 1), id);
    }
  }

  lemma ReachesStep(all: seq<Comment>, kids: nat -> seq<nat>, list: seq<nat>, i: nat, n: nat, id: nat)
    requires i < |list| && n > 0
    ensures Reaches(all, kids, list[..i + 1], n, id) <==>
            Reaches(all, kids, list[..i], n, id) || (list[i] < |all| && all[list[i]].id == id)
            || Reaches(all, kids, kids(list[i]), n - 1, id)
  {
    assert list[..i + 1][..|list[..i + 1]| - 1] == list[..i];
  }

  lemma {:induction false} ReachesMore(all: seq<Comment>, kids: nat -> seq<nat>, list: seq<nat>, i: nat, n: nat,
                                       id: nat)
    requires i <= |list| && Reaches(all, kids, list[..i], n, id)
    ensures Reaches(all, kids, list, n, id)
  {
    if i == |list| {
      assert list[..i] == list;
    } else {
      assert list[..|list| - 1][..i] == list[..i];
      ReachesMore(all, kids, list[..|list| - 1], i, n, id);
    }
  }

  lemma ReachesNone(all: seq<Comment>, kids: nat -> seq<nat>, c: nat, n: nat, id: nat)
    requires kids(c) == []
    ensures !Reaches(all, kids, kids(c), n, id)
  {
  }

  /** Depth-first through the replies; it ends because every chain does. */
  method FindInPointers(all: seq<Comment>, list: seq<nat>, id: nat, ghost places: seq<Place>,
                        ghost kids: nat -> seq<nat>, ghost d: nat)
    returns (found: Option<nat>)
    requires kids == KidsOf(places) && Linked(all, kids) && |all| == |places| && d <= |all| && Siblings(places, list, d)
    ensures found.Some? <==> Reaches(all, kids, list, |all| - d, id)
    ensures found.Some? ==> found.value < |all| && all[found.value].id == id
    decreases |all| - d
  {
    ghost var n := |all| - d;
    for i := 0 to |list|
      invariant !Reaches(all, kids, list[..i], n, id)
    {
      var c := list[i];
      assert c in list;
      DepthBound(places, c, d);
      ReachesStep(all, kids, list, i, n, id);
      if all[c].id == id {
        ReachesMore(all, kids, list, i + 1, n, id);
        return Some(c);
      }
      if |all[c].replies| > 0 {
        KidsAreSiblings(places, c, d);
        found := FindInPointers(all, all[c].replies, id, places, kids, d + 1);
        if found.Some? {
          ReachesMore(all, kids, list, i + 1, n, id);
          return;
        }
      } else {
        ReachesNone(all, kids, c, n - 1, id);
      }
    }
    assert list[..|list|] == list;
    found := None;
  }

  /** The search over the returned copies answers the comment with this id, if the forest has it. */
  method FindInObjects(all: seq<Comment>, finalRoots: seq<Comment>, id: nat, ghost places: seq<Place>,
                       ghost kids: nat -> seq<nat>, ghost roots: seq<nat>)
    returns (found: Option<Comment>)
    requires kids == KidsOf(places) && Linked(all, kids) && |all| == |places|
    requires roots == Those(places, Root) && |finalRoots| == |roots|
    requires forall r | 0 <= r < |finalRoots| :: roots[r] < |all| && finalRoots[r] == all[roots[r]]
    ensures found.Some? <==> Reaches(all, kids, roots, |all|, id)
    ensures found.Some? ==> found.value.id == id && exists i | 0 <= i < |all| :: all[i] == found.value
  {
    RootsAreSiblings(places);
    ghost var n := |all|;
    for i := 0 to |finalRoots|
      invariant !Reaches(all, kids, roots[..i], n, id)
    {
      assert roots[i] in roots;
      ReachesStep(all, kids, roots, i, n, id);
      if finalRoots[i].id == id {
        ReachesMore(all, kids, roots, i + 1, n, id);
        return Some(finalRoots[i]);
      }
      if |finalRoots[i].replies| > 0 {
        KidsAreSiblings(places, roots[i], 0);
        var position := FindInPointers(all, finalRoots[i].replies, id, places, kids, 1);
        if position.Some? {
          ReachesMore(all, kids, roots, i + 1, n, id);
          return Some(all[position.value]);
        }
      } else {
        ReachesNone(all, kids, roots[i], n - 1, id);
      }
    }
    assert roots[..|roots|] == roots;
    found := None;
  }

  lemma ForestReaches(rows: seq<Comment>, built: seq<Comment>, places: seq<Place>, id: nat)
    requires |rows| == |built| == |places| && forall i | 0 <= i < |rows| :: built[i].id == rows[i].id
    ensures Reaches(built, KidsOf(places), Those(places, Root), |built|, id) <==> Among(rows, Forest(places), id)
  {
    ReachesIsAmong(built, KidsOf(places), Those(places, Root), |built|, id);
  }

  /** What adding a comment answers: the comment as the rebuilt forest has it, or the bare new one when
      the forest has none with its id. */
  method AddComment(all: array<Comment>, comment: Comment) returns (answer: Comment)
    modifies all
    ensures answer.id == comment.id
    ensures if Among(old(all[..]), Forest(Places(old(all[..]))), comment.id)
            then exists i | 0 <= i < all.Length :: all[i] == answer
            else answer == comment
  {
    ghost var rows := all[..];
    var finalRoots := GetCommentsByPostID(all);
    var built := all[..];
    ForestReaches(rows, built, Places(rows), comment.id);
    ghost var places := Places(rows);
    var found := FindInObjects(built, finalRoots, comment.id, places, KidsOf(places), Those(places, Root));
    if found.Some? {
      return found.value;
    }
    answer := comment;
  }
}
