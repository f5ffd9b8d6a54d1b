/** The double-entry ledger: journals, their lines, and what posting one does. */
module Ledger {

  datatype Account =
    | GatewayBkash
    | CashOut
    | OrdersEscrow
    | PayoutsPending
    | RevenueSubs
    | RevenueCommission
    | RevenuePlatform
    | MerchantAccount(id: nat)

  datatype Kind =
    | SubscriptionPayment
    | OrderPayment
    | OrderRelease
    | PayoutRequest
    | PayoutPaid
    | PayoutRejected
    | RefundOf(reversed: Kind)

  datatype Source = OfPayment(payment: nat) | OfOrder(order: nat) | OfPayout(payout: nat)

  /** The unique index (kind, source type, source id). */
  datatype Key = Key(kind: Kind, source: Source)

  datatype Line = Line(account: Account, debit: int, credit: int)

  datatype Journal = Journal(key: Key, entries: seq<Line>)

  datatype PostResult = Posted | AlreadyPosted | InvalidLine | Unbalanced

  predicate ValidLine(l: Line) {
    l.debit >= 0 && l.credit >= 0 && !(l.debit > 0 && l.credit > 0)
  }

  function Debits(lines: seq<Line>): int {
    if lines == [] then 0 else Debits(lines[..|lines| - 1]) + lines[|lines| - 1].debit
  }

  function Credits(lines: seq<Line>): int {
    if lines == [] then 0 else Credits(lines[..|lines| - 1]) + lines[|lines| - 1].credit
  }

  /** What a journal must satisfy to be written. */
  predicate Sound(lines: seq<Line>) {
    (forall l | l in lines :: ValidLine(l)) && Debits(lines) == Credits(lines)
  }

  /** The stored entries: lines that move nothing are dropped. */
  function Compact(lines: seq<Line>): seq<Line> {
    if lines == [] then [] else
      var l := lines[|lines| - 1];
      Compact(lines[..|lines| - 1]) + if l.debit == 0 && l.credit == 0 then [] else [l]
  }

  function Swap(lines: seq<Line>): seq<Line> {
    if lines == [] then [] else
      var l := lines[|lines| - 1];
      Swap(lines[..|lines| - 1]) + [Line(l.account, l.credit, l.debit)]
  }

  /** Credit minus debit of one account over some lines. */
  function Net(lines: seq<Line>, a: Account): int {
    if lines == [] then 0 else
      var l := lines[|lines| - 1];
      Net(lines[..|lines| - 1], a) + if l.account == a then l.credit - l.debit else 0
  }

  /** Credit minus debit of one account over the whole ledger. */
  function Balance(journals: seq<Journal>, a: Account): int {
    if journals == [] then 0 else
      Balance(journals[..|journals| - 1], a) + Net(journals[|journals| - 1].entries, a)
  }

  function Keys(journals: seq<Journal>): set<Key> {
    set j | j in journals :: j.key
  }

  function PostStatus(journals: seq<Journal>, key: Key, lines: seq<Line>): PostResult {
    if exists l | l in lines :: !ValidLine(l) then InvalidLine
    else if Debits(lines) != Credits(lines) then Unbalanced
    else if key in Keys(journals) then AlreadyPosted
    else Posted
  }

  function Post(journals: seq<Journal>, key: Key, lines: seq<Line>): seq<Journal> {
    if PostStatus(journals, key, lines) == Posted then journals + [Journal(key, Compact(lines))] else journals
  }

  predicate Refused(r: PostResult) {
    r == InvalidLine || r == Unbalanced
  }

  /** Every written journal balances, and no key is used twice. */
  ghost predicate LedgerInv(journals: seq<Journal>) {
    && (forall j | j in journals :: Sound(j.entries))
    && (forall i, k | 0 <= i < k < |journals| :: journals[i].key != journals[k].key)
  }

  // ---- facts about lines ----

  lemma DebitsPush(lines: seq<Line>, l: Line)
    ensures Debits(lines + [l]) == Debits(lines) + l.debit
    ensures Credits(lines + [l]) == Credits(lines) + l.credit
  {
  }

  lemma NetPush(lines: seq<Line>, l: Line, a: Account)
    ensures Net(lines + [l], a) == Net(lines, a) + if l.account == a then l.credit - l.debit else 0
  {
  }

  lemma OneLine(x: Line, a: Account)
    ensures Net([x], a) == if x.account == a then x.credit - x.debit else 0
    ensures Debits([x]) == x.debit && Credits([x]) == x.credit
  {
  }

  lemma TwoLines(x: Line, y: Line, a: Account)
    ensures Net([x, y], a) == Net([x], a) + Net([y], a)
    ensures Net([x, y], a) ==
            (if x.account == a then x.credit - x.debit else 0) + (if y.account == a then y.credit - y.debit else 0)
    ensures Debits([x, y]) == x.debit + y.debit && Credits([x, y]) == x.credit + y.credit
  {
    OneLine(x, a);
    OneLine(y, a);
    assert [x, y][..1] == [x];
  }

  lemma {:induction false} NetConcat(xs: seq<Line>, ys: seq<Line>, a: Account)
    ensures Net(xs + ys, a) == Net(xs, a) + Net(ys, a)
    ensures Debits(xs + ys) == Debits(xs) + Debits(ys)
    ensures Credits(xs + ys) == Credits(xs) + Credits(ys)
  {
    if ys == [] {
      assert xs + ys == xs;
    } else {
      NetConcat(xs, ys[..|ys| - 1], a);
      assert (xs + ys)[..|xs + ys| - 1] == xs + ys[..|ys| - 1];
    }
  }

  lemma CompactStep(lines: seq<Line>, l: Line, a: Account)
    requires Net(Compact(lines), a) == Net(lines, a)
    requires Debits(Compact(lines)) == Debits(lines) && Credits(Compact(lines)) == Credits(lines)
    ensures Net(Compact(lines + [l]), a) == Net(lines + [l], a)
    ensures Debits(Compact(lines + [l])) == Debits(lines + [l]) && Credits(Compact(lines + [l])) == Credits(lines + [l])
  {
    NetPush(lines, l, a);
    DebitsPush(lines, l);
    assert (lines + [l])[..|lines|] == lines;
    if l.debit == 0 && l.credit == 0 {
      assert Compact(lines + [l]) == Compact(lines);
    } else {
      assert Compact(lines + [l]) == Compact(lines) + [l];
      NetPush(Compact(lines), l, a);
      DebitsPush(Compact(lines), l);
    }
  }

  lemma {:induction false} CompactFacts(lines: seq<Line>, a: Account)
    ensures Net(Compact(lines), a) == Net(lines, a)
    ensures Debits(Compact(lines)) == Debits(lines) && Credits(Compact(lines)) == Credits(lines)
  {
    if lines != [] {
      CompactFacts(lines[..|lines| - 1], a);
      CompactStep(lines[..|lines| - 1], lines[|lines| - 1], a);
      assert lines == lines[..|lines| - 1] + [lines[|lines| - 1]];
    }
  }

  lemma {:induction false} CompactMembers(lines: seq<Line>, l: Line)
    requires l in Compact(lines)
    ensures l in lines
  {
    var n := |lines| - 1;
    if l in Compact(lines[..n]) {
      CompactMembers(lines[..n], l);
    }
  }

  lemma {:induction false} SwapFacts(lines: seq<Line>, a: Account)
    ensures Net(Swap(lines), a) == -Net(lines, a)
    ensures Debits(Swap(lines)) == Credits(lines) && Credits(Swap(lines)) == Debits(lines)
  {
    if lines != [] {
      var l := lines[|lines| - 1];
      var rest := Swap(lines[..|lines| - 1]);
      SwapFacts(lines[..|lines| - 1], a);
      var swapped := Line(l.account, l.credit, l.debit);
      NetPush(rest, swapped, a);
      DebitsPush(rest, swapped);
    }
  }

  lemma {:induction false} SwapMembers(lines: seq<Line>, l: Line)
    requires l in Swap(lines)
    ensures Line(l.account, l.credit, l.debit) in lines
  {
    var n := |lines| - 1;
    if l in Swap(lines[..n]) {
      SwapMembers(lines[..n], l);
    }
  }

  // ---- facts about journals ----

  lemma BalancePush(journals: seq<Journal>, j: Journal, a: Account)
    ensures Balance(journals + [j], a) == Balance(journals, a) + Net(j.entries, a)
  {
  }

  lemma KeyOfIndex(journals: seq<Journal>, key: Key) returns (i: nat)
    requires key in Keys(journals)
    ensures i < |journals| && journals[i].key == key
  {
    var j :| j in journals && j.key == key;
    i :| i < |journals| && journals[i] == j;
  }

  /** Posting keeps the ledger sound whatever lines the caller brings: bad lines are refused, a
      repeated key writes nothing, and a first post of sound lines moves every account by its lines. */
  lemma {:induction false} PostKeepsLedger(journals: seq<Journal>, key: Key, lines: seq<Line>)
    requires LedgerInv(journals)
    ensures LedgerInv(Post(journals, key, lines))
    ensures journals <= Post(journals, key, lines)
    ensures Sound(lines) ==> Keys(Post(journals, key, lines)) == Keys(journals) + {key}
    ensures !Sound(lines) || key in Keys(journals) ==> Post(journals, key, lines) == journals
    ensures forall a :: Balance(Post(journals, key, lines), a) == Balance(journals, a) +
                        if Sound(lines) && key !in Keys(journals) then Net(lines, a) else 0
  {
    var after := Post(journals, key, lines);
    if after != journals {
      var j := Journal(key, Compact(lines));
      CompactFacts(lines, GatewayBkash);
      forall l | l in Compact(lines) ensures ValidLine(l) {
        CompactMembers(lines, l);
      }
      forall a ensures Balance(after, a) == Balance(journals, a) + Net(lines, a) {
        CompactFacts(lines, a);
        BalancePush(journals, j, a);
      }
      forall i | 0 <= i < |journals| ensures journals[i].key != key {
        assert journals[i] in journals;
      }
    } else if Sound(lines) {
      assert key in Keys(journals);
      assert Keys(journals) + {key} == Keys(journals);
    }
  }

  // ---- reversing ----

  /** Every journal among the first n of `all` that has this source and one of these kinds is
      posted swapped, under its refund key, on top of `journals`. None: a post was refused. */
  function ReverseUpTo(all: seq<Journal>, n: nat, journals: seq<Journal>, source: Source,
                       kinds: set<Kind>): (r: seq<Journal>)
    requires n <= |all|
  {
    if n == 0 then journals else
      var before := ReverseUpTo(all, n - 1, journals, source, kinds);
      var j := all[n - 1];
      if j.key.source == source && j.key.kind in kinds
      then Post(before, Key(RefundOf(j.key.kind), source), Swap(j.entries))
      else before
  }

  function Reverse(journals: seq<Journal>, source: Source, kinds: set<Kind>): seq<Journal> {
    ReverseUpTo(journals, |journals|, journals, source, kinds)
  }

  /** The refund keys a reversal leaves behind, for the first n journals. */
  function RefundKeys(all: seq<Journal>, source: Source, kinds: set<Kind>): set<Key> {
    set j | j in all && j.key.source == source && j.key.kind in kinds :: Key(RefundOf(j.key.kind), source)
  }

  lemma SwapIsSound(entries: seq<Line>)
    requires Sound(entries)
    ensures Sound(Swap(entries))
  {
    SwapFacts(entries, GatewayBkash);
    forall l | l in Swap(entries) ensures ValidLine(l) {
      SwapMembers(entries, l);
    }
  }

  lemma {:induction false} ReverseFacts(all: seq<Journal>, n: nat, journals: seq<Journal>, source: Source,
                                        kinds: set<Kind>)
    requires n <= |all|
    requires LedgerInv(journals) && forall j | j in all :: Sound(j.entries)
    ensures var r := ReverseUpTo(all, n, journals, source, kinds);
            LedgerInv(r) && journals <= r && Keys(r) == Keys(journals) + RefundKeys(all[..n], source, kinds)
  {
    if n == 0 {
      assert all[..n] == [];
    } else {
      ReverseFacts(all, n - 1, journals, source, kinds);
      RefundKeysStep(all, n, source, kinds);
      assert all[n - 1] in all;
      ReverseStep(all, n, journals, source, kinds);
    }
  }

  lemma ReverseStep(all: seq<Journal>, n: nat, journals: seq<Journal>, source: Source, kinds: set<Kind>)
    requires 0 < n <= |all| && Sound(all[n - 1].entries)
    requires LedgerInv(ReverseUpTo(all, n - 1, journals, source, kinds))
    ensures var before := ReverseUpTo(all, n - 1, journals, source, kinds);
            var after := ReverseUpTo(all, n, journals, source, kinds);
            && LedgerInv(after) && before <= after
            && Keys(after) == Keys(before) +
                              (if all[n - 1].key.source == source && all[n - 1].key.kind in kinds
                               then {Key(RefundOf(all[n - 1].key.kind), source)} else {})
  {
    if all[n - 1].key.source == source && all[n - 1].key.kind in kinds {
      ReverseOne(ReverseUpTo(all, n - 1, journals, source, kinds), all[n - 1], source);
    }
  }

  lemma RefundKeysStep(all: seq<Journal>, n: nat, source: Source, kinds: set<Kind>)
    requires 0 < n <= |all|
    ensures RefundKeys(all[..n], source, kinds) == RefundKeys(all[..n - 1], source, kinds) +
            if all[n - 1].key.source == source && all[n - 1].key.kind in kinds
            then {Key(RefundOf(all[n - 1].key.kind), source)} else {}
  {
    assert all[..n] == all[..n - 1] + [all[n - 1]];
    RefundKeysPush(all[..n - 1], all[n - 1], source, kinds);
  }

  lemma ReverseOne(journals: seq<Journal>, j: Journal, source: Source)
    requires LedgerInv(journals) && Sound(j.entries)
    ensures var key := Key(RefundOf(j.key.kind), source);
            var r := Post(journals, key, Swap(j.entries));
            LedgerInv(r) && journals <= r && Keys(r) == Keys(journals) + {key}
  {
    SwapIsSound(j.entries);
    PostKeepsLedger(journals, Key(RefundOf(j.key.kind), source), Swap(j.entries));
  }

  lemma RefundKeysPush(all: seq<Journal>, j: Journal, source: Source, kinds: set<Kind>)
    ensures RefundKeys(all + [j], source, kinds) == RefundKeys(all, source, kinds) +
            if j.key.source == source && j.key.kind in kinds then {Key(RefundOf(j.key.kind), source)} else {}
  {
  }

  // ---- what the journals of one half of the system amount to ----

  /** Each journal of the subscription half (or of the marketplace half) moves every account by
      what `net` says of its key. */
  ghost predicate Shaped(journals: seq<Journal>, subs: bool, net: (Key, Account) -> int) {
    forall j, a | j in journals && j.key.source.OfPayment? == subs :: Net(j.entries, a) == net(j.key, a)
  }

  ghost predicate RefundsNegate(net: (Key, Account) -> int) {
    forall k, s, a :: net(Key(RefundOf(k), s), a) == -net(Key(k, s), a)
  }

  lemma PostKeepsShape(journals: seq<Journal>, key: Key, lines: seq<Line>, subs: bool, net: (Key, Account) -> int)
    requires Shaped(journals, subs, net)
    requires key.source.OfPayment? == subs ==> forall a :: Net(lines, a) == net(key, a)
    ensures Shaped(Post(journals, key, lines), subs, net)
  {
    forall a ensures Net(Compact(lines), a) == Net(lines, a) {
      CompactFacts(lines, a);
    }
  }

  lemma {:induction false} ReverseKeepsShape(all: seq<Journal>, n: nat, journals: seq<Journal>, source: Source,
                                             kinds: set<Kind>, subs: bool, net: (Key, Account) -> int)
    requires n <= |all|
    requires Shaped(all, subs, net) && Shaped(journals, subs, net) && RefundsNegate(net)
    ensures Shaped(ReverseUpTo(all, n, journals, source, kinds), subs, net)
  {
    if n > 0 {
      ReverseKeepsShape(all, n - 1, journals, source, kinds, subs, net);
      var before := ReverseUpTo(all, n - 1, journals, source, kinds);
      var j := all[n - 1];
      if j.key.source == source && j.key.kind in kinds {
        assert j in all;
        forall a ensures Net(Swap(j.entries), a) == -Net(j.entries, a) {
          SwapFacts(j.entries, a);
        }
        PostKeepsShape(before, Key(RefundOf(j.key.kind), source), Swap(j.entries), subs, net);
      }
    }
  }

  /** Journals of other sources are neither added nor touched. */
  ghost predicate OnlyAdds(before: seq<Journal>, after: seq<Journal>, source: Source) {
    before <= after && forall j | j in after[|before|..] :: j.key.source == source
  }

  lemma {:induction false} ReverseOnlyAdds(all: seq<Journal>, n: nat, journals: seq<Journal>, source: Source,
                                           kinds: set<Kind>)
    requires n <= |all|
    ensures OnlyAdds(journals, ReverseUpTo(all, n, journals, source, kinds), source)
  {
    if n > 0 {
      ReverseOnlyAdds(all, n - 1, journals, source, kinds);
    }
  }

  // ---- the accounting identity ----

  /** Credit minus debit over all merchants' accounts together. */
  function MerchantNet(lines: seq<Line>): int {
    if lines == [] then 0 else
      var l := lines[|lines| - 1];
      MerchantNet(lines[..|lines| - 1]) + if l.account.MerchantAccount? then l.credit - l.debit else 0
  }

  function MerchantPayable(journals: seq<Journal>): int {
    if journals == [] then 0 else
      MerchantPayable(journals[..|journals| - 1]) + MerchantNet(journals[|journals| - 1].entries)
  }

  function TotalRevenue(journals: seq<Journal>): int {
    Balance(journals, RevenueSubs) + Balance(journals, RevenueCommission) + Balance(journals, RevenuePlatform)
  }

  lemma {:induction false} LinesIdentity(lines: seq<Line>)
    ensures Net(lines, GatewayBkash) + Net(lines, RevenueSubs) + Net(lines, RevenueCommission)
            + Net(lines, RevenuePlatform)
            + MerchantNet(lines) + Net(lines, PayoutsPending) + Net(lines, CashOut) + Net(lines, OrdersEscrow)
            == Credits(lines) - Debits(lines)
  {
    if lines != [] {
      LinesIdentity(lines[..|lines| - 1]);
    }
  }

  /** All the money the gateway holds is revenue, owed to merchants, pending, paid out or in escrow. */
  lemma {:induction false} AccountingIdentity(journals: seq<Journal>)
    requires forall j | j in journals :: Sound(j.entries)
    ensures -Balance(journals, GatewayBkash) ==
            TotalRevenue(journals) + MerchantPayable(journals) + Balance(journals, PayoutsPending)
            + Balance(journals, CashOut) + Balance(journals, OrdersEscrow)
  {
    if journals != [] {
      var j := journals[|journals| - 1];
      assert j in journals;
      assert forall x | x in journals[..|journals| - 1] :: x in journals;
      AccountingIdentity(journals[..|journals| - 1]);
      LinesIdentity(j.entries);
    }
  }
}
