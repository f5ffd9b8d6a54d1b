/** The admin's payments list: the newest rows of two tables, insertion-sorted together and cut to a page. */
module Paging {

  datatype Row = Row(id: nat, createdAt: int)

  // ---- stable order ----

  ghost predicate NewestFirst(s: seq<Row>) {
    forall i, k | 0 <= i < k < |s| :: s[i].createdAt >= s[k].createdAt
  }

  /** The rows of one instant, in order. */
  function At(s: seq<Row>, t: int): seq<Row> {
    if s == [] then [] else (if s[0].createdAt == t then [s[0]] else []) + At(s[1..], t)
  }

  /** r is s newest first, rows of the same instant in their old order. */
  ghost predicate StableSortOf(r: seq<Row>, s: seq<Row>) {
    NewestFirst(r) && forall t :: At(r, t) == At(s, t)
  }

  lemma {:induction false} AtConcat(a: seq<Row>, b: seq<Row>, t: int)
    ensures At(a + b, t) == At(a, t) + At(b, t)
  {
    if a == [] {
      assert a + b == b;
    } else {
      assert (a + b)[1..] == a[1..] + b;
      AtConcat(a[1..], b, t);
    }
  }

  lemma {:induction false} AtNone(s: seq<Row>, t: int)
    requires forall r | r in s :: r.createdAt != t
    ensures At(s, t) == []
  {
    if s != [] {
      assert s[0] in s;
      AtNone(s[1..], t);
    }
  }

  lemma {:induction false} AtMembers(s: seq<Row>, t: int, r: Row)
    ensures r in At(s, t) <==> r in s && r.createdAt == t
  {
    if s != [] {
      AtMembers(s[1..], t, r);
      assert s == [s[0]] + s[1..];
    }
  }

  lemma HeadIsNewest(r: seq<Row>, q: seq<Row>)
    requires NewestFirst(q) && r != [] && forall t :: At(r, t) == At(q, t)
    ensures q != [] && q[0].createdAt >= r[0].createdAt
  {
    AtMembers(r, r[0].createdAt, r[0]);
    AtMembers(q, r[0].createdAt, r[0]);
    assert r[0] in q;
  }

  /** There is only one stable sort. */
  lemma {:induction false} StableSortIsUnique(r: seq<Row>, q: seq<Row>)
    requires NewestFirst(r) && NewestFirst(q) && forall t :: At(r, t) == At(q, t)
    ensures r == q
  {
    if r == [] {
      if q != [] {
        HeadIsNewest(q, r);
      }
    } else {
      HeadIsNewest(r, q);
      HeadIsNewest(q, r);
      assert At(r, r[0].createdAt)[0] == r[0] && At(q, r[0].createdAt)[0] == q[0];
      forall t ensures At(r[1..], t) == At(q[1..], t) {
        var n := if t == r[0].createdAt then 1 else 0;
        assert At(r[1..], t) == At(r, t)[n..] && At(q[1..], t) == At(q, t)[n..];
      }
      StableSortIsUnique(r[1..], q[1..]);
    }
  }

  // ---- two sorted tables ----

  function Merge(a: seq<Row>, b: seq<Row>): seq<Row> {
    if a == [] then b
    else if b == [] then a
    else if a[0].createdAt >= b[0].createdAt then [a[0]] + Merge(a[1..], b)
    else [b[0]] + Merge(a, b[1..])
  }

  lemma {:induction false} MergeMembers(a: seq<Row>, b: seq<Row>, r: Row)
    ensures r in Merge(a, b) <==> r in a || r in b
    ensures |Merge(a, b)| == |a| + |b|
    decreases |a| + |b|
  {
    if a != [] && b != [] {
      if a[0].createdAt >= b[0].createdAt {
        MergeMembers(a[1..], b, r);
        assert a == [a[0]] + a[1..];
      } else {
        MergeMembers(a, b[1..], r);
        assert b == [b[0]] + b[1..];
      }
    }
  }

  lemma {:induction false} MergeIsSorted(a: seq<Row>, b: seq<Row>)
    requires NewestFirst(a) && NewestFirst(b)
    ensures NewestFirst(Merge(a, b))
    decreases |a| + |b|
  {
    if a != [] && b != [] {
      var fromA := a[0].createdAt >= b[0].createdAt;
      var a', b' := if fromA then a[1..] else a, if fromA then b else b[1..];
      MergeIsSorted(a', b');
      forall r | r in Merge(a', b') ensures r.createdAt <= (if fromA then a[0] else b[0]).createdAt {
        MergeMembers(a', b', r);
      }
    }
  }

  /** Rows of one instant come out with a's before b's. */
  lemma {:induction false} MergeAt(a: seq<Row>, b: seq<Row>, t: int)
    requires NewestFirst(a)
    ensures At(Merge(a, b), t) == At(a, t) + At(b, t)
    decreases |a| + |b|
  {
    if a != [] && b != [] {
      if a[0].createdAt >= b[0].createdAt {
        MergeAt(a[1..], b, t);
        assert Merge(a, b)[1..] == Merge(a[1..], b);
      } else {
        MergeAt(a, b[1..], t);
        assert Merge(a, b)[1..] == Merge(a, b[1..]);
        if t == b[0].createdAt {
          AtNone(a, t);
        }
      }
    }
  }

  lemma {:induction false} MergeIsStableSort(a: seq<Row>, b: seq<Row>)
    requires NewestFirst(a) && NewestFirst(b)
    ensures StableSortOf(Merge(a, b), a + b)
  {
    MergeIsSorted(a, b);
    forall t ensures At(Merge(a, b), t) == At(a + b, t) {
      MergeAt(a, b, t);
      AtConcat(a, b, t);
    }
  }

  function Top(s: seq<Row>, n: nat): seq<Row> {
    if |s| <= n then s else s[..n]
  }

  /** The first n of a merge need no more than the first n of either side. */
  lemma {:induction false} MergeTop(a: seq<Row>, b: seq<Row>, n: nat)
    ensures Top(Merge(Top(a, n), Top(b, n)), n) == Top(Merge(a, b), n)
    decreases n
  {
    MergeTopOf(a, b, Top(a, n), Top(b, n), n);
  }

  lemma {:induction false} MergeTopOf(a: seq<Row>, b: seq<Row>, a': seq<Row>, b': seq<Row>, n: nat)
    requires Top(a, n) == Top(a', n) && Top(b, n) == Top(b', n)
    ensures Top(Merge(a, b), n) == Top(Merge(a', b'), n)
    decreases n
  {
    if n > 0 && a != [] && b != [] {
      assert a'[0] == Top(a, n)[0] == a[0] && b'[0] == Top(b, n)[0] == b[0];
      if a[0].createdAt >= b[0].createdAt {
        TopTail(a, a', n);
        TopLess(b, b', n);
        MergeTopOf(a[1..], b, a'[1..], b', n - 1);
        TopPush(a[0], Merge(a[1..], b), Merge(a'[1..], b'), n);
      } else {
        TopLess(a, a', n);
        TopTail(b, b', n);
        MergeTopOf(a, b[1..], a', b'[1..], n - 1);
        TopPush(b[0], Merge(a, b[1..]), Merge(a', b'[1..]), n);
      }
    }
  }

  lemma TopTail(s: seq<Row>, s': seq<Row>, n: nat)
    requires n > 0 && s != [] && s' != [] && Top(s, n) == Top(s', n)
    ensures Top(s[1..], n - 1) == Top(s'[1..], n - 1)
  {
    assert Top(s[1..], n - 1) == Top(s, n)[1..];
    assert Top(s'[1..], n - 1) == Top(s', n)[1..];
  }

  lemma TopLess(s: seq<Row>, s': seq<Row>, n: nat)
    requires n > 0 && Top(s, n) == Top(s', n)
    ensures Top(s, n - 1) == Top(s', n - 1)
  {
  }

  lemma TopPush(x: Row, s: seq<Row>, s': seq<Row>, n: nat)
    requires n > 0 && Top(s, n - 1) == Top(s', n - 1)
    ensures Top([x] + s, n) == Top([x] + s', n)
  {
  }

  // ---- pages ----

  function Page(s: seq<Row>, limit: nat, offset: nat): seq<Row> {
    if offset >= |s| then [] else Top(s[offset..], limit)
  }

  lemma PageOfTop(s: seq<Row>, limit: nat, offset: nat)
    ensures Page(Top(s, limit + offset), limit, offset) == Page(s, limit, offset)
  {
  }

  lemma InsertedAt(sorted: seq<Row>, x: Row, k: nat, t: int)
    requires k <= |sorted| && forall j | k <= j < |sorted| :: sorted[j].createdAt < x.createdAt
    ensures At(sorted[..k] + [x] + sorted[k..], t) == At(sorted + [x], t)
  {
    AtConcat(sorted[..k] + [x], sorted[k..], t);
    AtConcat(sorted[..k], [x], t);
    AtConcat(sorted, [x], t);
    AtConcat(sorted[..k], sorted[k..], t);
    assert sorted[..k] + sorted[k..] == sorted;
    if t == x.createdAt {
      AtNone(sorted[k..], t);
    } else {
      AtNone([x], t);
    }
  }

  /** Putting the last of i + 1 rows where insertion stopped. */
  lemma Inserted(sorted: seq<Row>, x: Row, k: nat)
    requires NewestFirst(sorted) && k <= |sorted|
    requires k > 0 ==> sorted[k - 1].createdAt >= x.createdAt
    requires forall j | k <= j < |sorted| :: sorted[j].createdAt < x.createdAt
    ensures StableSortOf(sorted[..k] + [x] + sorted[k..], sorted + [x])
  {
    var r := sorted[..k] + [x] + sorted[k..];
    assert NewestFirst(r);
    forall t ensures At(r, t) == At(sorted + [x], t) {
      InsertedAt(sorted, x, k, t);
    }
  }

  /** Moves row i left past every strictly older row. */
  method InsertRow(a: array<Row>, i: nat)
    requires i < a.Length && NewestFirst(a[..i])
    modifies a
    ensures StableSortOf(a[..i + 1], old(a[..i + 1]))
    ensures a[i + 1..] == old(a[i + 1..])
  {
    ghost var sorted, x := a[..i], a[i];
    var k := i;
    while k > 0 && a[k].createdAt > a[k - 1].createdAt
      invariant k <= i && a[k] == x
      invariant forall j | 0 <= j < k :: a[j] == sorted[j]
      invariant forall j | k < j <= i :: a[j] == sorted[j - 1]
      invariant forall j | k <= j < i :: sorted[j].createdAt < x.createdAt
      invariant a[i + 1..] == old(a[i + 1..])
    {
      a[k], a[k - 1] := a[k - 1], a[k];
      k := k - 1;
    }
    Inserted(sorted, x, k);
    assert a[..i + 1] == sorted[..k] + [x] + sorted[k..];
    assert old(a[..i + 1]) == sorted + [x];
  }

  method InsertionSort(a: array<Row>)
    modifies a
    ensures StableSortOf(a[..], old(a[..]))
  {
    ghost var start := a[..];
    for i := 0 to a.Length
      invariant StableSortOf(a[..i], start[..i])
      invariant a[i..] == start[i..]
    {
      ghost var before := a[..i];
      assert a[..i + 1] == before + [start[i]] && start[..i + 1] == start[..i] + [start[i]];
      InsertRow(a, i);
      ghost var after, goal := a[..i + 1], start[..i + 1];
      forall t ensures At(after, t) == At(goal, t) {
        AtConcat(before, [start[i]], t);
        AtConcat(start[..i], [start[i]], t);
        assert At(before, t) == At(start[..i], t);
      }
    }
    assert a[..a.Length] == a[..] && start[..a.Length] == start;
  }

  /** Fetches only the newest limit + offset rows of each table, and still answers the page that stably
      sorting both whole tables together would give. */
  method ListPayments(subscriptions: seq<Row>, orders: seq<Row>, limit: nat, offset: nat) returns (page: seq<Row>)
    requires NewestFirst(subscriptions) && NewestFirst(orders)
    ensures forall full | StableSortOf(full, subscriptions + orders) :: page == Page(full, limit, offset)
  {
    var n := limit + offset;
    var fetched := Top(subscriptions, n) + Top(orders, n);
    var all := new Row[|fetched|](i requires 0 <= i < |fetched| => fetched[i]);
    assert all[..] == fetched;
    InsertionSort(all);
    var sorted := all[..];
    PageIsRight(subscriptions, orders, limit, offset, sorted);
    if offset >= |sorted| {
      page := [];
    } else {
      page := sorted[offset..];
      if |page| > limit {
        page := page[..limit];
      }
    }
  }

  lemma PageIsRight(subscriptions: seq<Row>, orders: seq<Row>, limit: nat, offset: nat, sorted: seq<Row>)
    requires NewestFirst(subscriptions) && NewestFirst(orders)
    requires StableSortOf(sorted, Top(subscriptions, limit + offset) + Top(orders, limit + offset))
    ensures forall full | StableSortOf(full, subscriptions + orders) ::
            Page(sorted, limit, offset) == Page(full, limit, offset)
  {
    var n := limit + offset;
    var a, b := Top(subscriptions, n), Top(orders, n);
    MergeIsStableSort(a, b);
    StableSortIsUnique(sorted, Merge(a, b));
    MergeIsStableSort(subscriptions, orders);
    MergeTop(subscriptions, orders, n);
    PageOfTop(Merge(a, b), limit, offset);
    PageOfTop(Merge(subscriptions, orders), limit, offset);
    forall full | StableSortOf(full, subscriptions + orders)
      ensures Page(sorted, limit, offset) == Page(full, limit, offset)
    {
      StableSortIsUnique(full, Merge(subscriptions, orders));
    }
  }
}
