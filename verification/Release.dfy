/** Turning the lines of a delivered order into one balanced release journal, a share per seller. */
module Release {
  import opened Sums
  import opened Ledger
  import opened Commission

  datatype Share = Share(gross: int, commission: int)

  /** A line's weight, if the line is this merchant's. */
  function Only(m: nat, w: Item -> int): Item -> int {
    (it: Item) => if it.merchant == m then w(it) else 0
  }

  function WeighOf(items: seq<Item>, m: nat, w: Item -> int): int {
    SumBy(items, Only(m, w))
  }

  function GrossWeight(): Item -> int {
    (it: Item) => Gross(it)
  }

  function CommissionWeight(): Item -> int {
    (it: Item) => LineCommission(it)
  }

  function ItemsGross(items: seq<Item>): int {
    SumBy(items, GrossWeight())
  }

  function ShareOf(items: seq<Item>, m: nat): Share {
    Share(WeighOf(items, m, GrossWeight()), WeighOf(items, m, CommissionWeight()))
  }

  /** The merchants of the lines, in order of first appearance. */
  function FirstSeen(items: seq<Item>): seq<nat> {
    if items == [] then [] else
      var ids := FirstSeen(items[..|items| - 1]);
      var m := items[|items| - 1].merchant;
      if m in ids then ids else ids + [m]
  }

  function Insert(ids: seq<nat>, x: nat): seq<nat> {
    if ids == [] then [x]
    else if ids[|ids| - 1] <= x then ids + [x]
    else Insert(ids[..|ids| - 1], x) + [ids[|ids| - 1]]
  }

  function Sort(ids: seq<nat>): seq<nat> {
    if ids == [] then [] else Insert(Sort(ids[..|ids| - 1]), ids[|ids| - 1])
  }

  predicate Distinct(ids: seq<nat>) {
    forall i, k | 0 <= i < k < |ids| :: ids[i] != ids[k]
  }

  function MerchantLines(bkash: bool, platform: set<nat>, id: nat, share: Share): seq<Line> {
    if id in platform then
      if bkash then [Line(RevenuePlatform, 0, share.gross)] else []
    else if bkash then
      [Line(MerchantAccount(id), 0, share.gross - share.commission), Line(RevenueCommission, 0, share.commission)]
    else
      [Line(MerchantAccount(id), share.commission, 0), Line(RevenueCommission, 0, share.commission)]
  }

  function LinesOver(bkash: bool, platform: set<nat>, ids: seq<nat>, items: seq<Item>): seq<Line> {
    if ids == [] then [] else
      var id := ids[|ids| - 1];
      LinesOver(bkash, platform, ids[..|ids| - 1], items) + MerchantLines(bkash, platform, id, ShareOf(items, id))
  }

  function GrossOver(ids: seq<nat>, items: seq<Item>): int {
    if ids == [] then 0 else GrossOver(ids[..|ids| - 1], items) + ShareOf(items, ids[|ids| - 1]).gross
  }

  /** Each seller of the lines once, sorted. */
  function Sellers(items: seq<Item>): seq<nat> {
    Sort(FirstSeen(items))
  }

  function ReleaseLines(bkash: bool, platform: set<nat>, items: seq<Item>): seq<Line> {
    var ids := Sellers(items);
    LinesOver(bkash, platform, ids, items) + if bkash then [Line(OrdersEscrow, GrossOver(ids, items), 0)] else []
  }

  // ---- the loop that groups lines by seller ----

  lemma WeighPush(items: seq<Item>, it: Item, m: nat, w: Item -> int)
    ensures WeighOf(items + [it], m, w) == WeighOf(items, m, w) + if it.merchant == m then w(it) else 0
  {
  }

  lemma {:induction false} FirstSeenFacts(items: seq<Item>)
    ensures Distinct(FirstSeen(items))
    ensures forall it | it in items :: it.merchant in FirstSeen(items)
    ensures forall m | m in FirstSeen(items) :: exists it | it in items :: it.merchant == m
  {
    if items != [] {
      var rest := items[..|items| - 1];
      FirstSeenFacts(rest);
      assert items == rest + [items[|items| - 1]];
    }
  }

  lemma {:induction false} WeighNone(items: seq<Item>, m: nat, w: Item -> int)
    requires m !in FirstSeen(items)
    ensures WeighOf(items, m, w) == 0
  {
    if items != [] {
      WeighNone(items[..|items| - 1], m, w);
    }
  }

  lemma SharesStep(items: seq<Item>, k: nat)
    requires k < |items|
    ensures items[..k + 1][..|items[..k + 1]| - 1] == items[..k]
    ensures forall m: nat :: ShareOf(items[..k + 1], m) ==
                             if items[k].merchant == m
                             then Share(ShareOf(items[..k], m).gross + Gross(items[k]),
                                        ShareOf(items[..k], m).commission + LineCommission(items[k]))
                             else ShareOf(items[..k], m)
  {
  }

  lemma NoShareYet(items: seq<Item>, m: nat)
    requires m !in FirstSeen(items)
    ensures ShareOf(items, m) == Share(0, 0)
  {
    WeighNone(items, m, GrossWeight());
    WeighNone(items, m, CommissionWeight());
  }

  /** Accumulates gross and commission per seller, in one pass over the lines. */
  method GroupShares(items: seq<Item>) returns (ids: seq<nat>, shares: map<nat, Share>)
    ensures ids == FirstSeen(items)
    ensures forall m: nat :: m in shares <==> m in ids
    ensures forall m | m in shares :: shares[m] == ShareOf(items, m)
  {
    ids, shares := [], map[];
    for k := 0 to |items|
      invariant ids == FirstSeen(items[..k])
      invariant forall m: nat :: m in shares <==> m in ids
      invariant forall m | m in shares :: shares[m] == ShareOf(items[..k], m)
    {
      var it := items[k];
      SharesStep(items, k);
      if it.merchant !in shares {
        NoShareYet(items[..k], it.merchant);
        shares := shares[it.merchant := Share(0, 0)];
        ids := ids + [it.merchant];
      }
      var s := shares[it.merchant];
      var gross := it.unitPrice * it.quantity;
      shares := shares[it.merchant := Share(s.gross + gross, s.commission + CommissionFor(gross, it.rate))];
    }
    assert items[..|items|] == items;
  }

  lemma LinesOverPush(bkash: bool, platform: set<nat>, ids: seq<nat>, id: nat, items: seq<Item>)
    ensures LinesOver(bkash, platform, ids + [id], items) ==
            LinesOver(bkash, platform, ids, items) + MerchantLines(bkash, platform, id, ShareOf(items, id))
    ensures GrossOver(ids + [id], items) == GrossOver(ids, items) + ShareOf(items, id).gross
  {
  }

  lemma SortedSellers(items: seq<Item>)
    ensures forall m | m in Sort(FirstSeen(items)) :: m in FirstSeen(items)
  {
    FirstSeenFacts(items);
    SortFacts(FirstSeen(items));
  }

  method LinesOfSeller(bkash: bool, platform: set<nat>, id: nat, s: Share) returns (own: seq<Line>)
    ensures own == MerchantLines(bkash, platform, id, s)
  {
    own := [];
    if id in platform {
      if bkash {
        own := [Line(RevenuePlatform, 0, s.gross)];
      }
    } else if bkash {
      own := [Line(MerchantAccount(id), 0, s.gross - s.commission), Line(RevenueCommission, 0, s.commission)];
    } else {
      own := [Line(MerchantAccount(id), s.commission, 0), Line(RevenueCommission, 0, s.commission)];
    }
  }

  /** One pass over the sellers: their lines, and the total that leaves escrow. */
  method LinesForShares(bkash: bool, platform: set<nat>, ids: seq<nat>, shares: map<nat, Share>, ghost items: seq<Item>)
    returns (lines: seq<Line>, total: int)
    requires forall id | id in ids :: id in shares && shares[id] == ShareOf(items, id)
    ensures lines == LinesOver(bkash, platform, ids, items)
    ensures total == GrossOver(ids, items)
  {
    lines, total := [], 0;
    for k := 0 to |ids|
      invariant lines == LinesOver(bkash, platform, ids[..k], items)
      invariant total == GrossOver(ids[..k], items)
    {
      var id := ids[k];
      var s := shares[id];
      var own := LinesOfSeller(bkash, platform, id, s);
      LinesOverPush(bkash, platform, ids[..k], id, items);
      assert ids[..k + 1] == ids[..k] + [id];
      total := total + s.gross;
      lines := lines + own;
    }
    assert ids[..|ids|] == ids;
  }

  /** Builds the journal lines of a delivered order. */
  method BuildReleaseLines(bkash: bool, platform: set<nat>, items: seq<Item>) returns (lines: seq<Line>)
    ensures lines == ReleaseLines(bkash, platform, items)
  {
    var seen, shares := GroupShares(items);
    var ids := Sort(seen);
    SortedSellers(items);
    var total;
    lines, total := LinesForShares(bkash, platform, ids, shares, items);
    if bkash {
      lines := lines + [Line(OrdersEscrow, total, 0)];
    }
  }

  // ---- sorting the sellers changes nothing that matters ----

  lemma {:induction false} InsertFacts(ids: seq<nat>, x: nat)
    requires Distinct(ids) && x !in ids
    ensures Distinct(Insert(ids, x))
    ensures forall y: nat :: y in Insert(ids, x) <==> y == x || y in ids
  {
    if ids != [] && ids[|ids| - 1] > x {
      var rest, last := ids[..|ids| - 1], ids[|ids| - 1];
      assert ids == rest + [last];
      InsertFacts(rest, x);
      assert last !in Insert(rest, x);
    }
  }

  lemma {:induction false} SortFacts(ids: seq<nat>)
    requires Distinct(ids)
    ensures Distinct(Sort(ids))
    ensures forall y: nat :: y in Sort(ids) <==> y in ids
  {
    if ids != [] {
      var rest, last := ids[..|ids| - 1], ids[|ids| - 1];
      assert ids == rest + [last];
      SortFacts(rest);
      InsertFacts(Sort(rest), last);
    }
  }

  predicate Ascending(ids: seq<nat>) {
    forall i, k | 0 <= i < k < |ids| :: ids[i] <= ids[k]
  }

  lemma {:induction false} InsertKeepsOrder(ids: seq<nat>, x: nat)
    requires Ascending(ids)
    ensures Ascending(Insert(ids, x)) && forall y | y in Insert(ids, x) :: y == x || y in ids
  {
    if ids != [] && ids[|ids| - 1] > x {
      var rest := ids[..|ids| - 1];
      InsertKeepsOrder(rest, x);
      var inserted := Insert(rest, x);
      forall i | 0 <= i < |inserted| ensures inserted[i] <= ids[|ids| - 1] {
        assert inserted[i] in inserted;
      }
    }
  }

  lemma {:induction false} SortOrders(ids: seq<nat>)
    ensures Ascending(Sort(ids))
  {
    if ids != [] {
      SortOrders(ids[..|ids| - 1]);
      InsertKeepsOrder(Sort(ids[..|ids| - 1]), ids[|ids| - 1]);
    }
  }

  /** Each seller of the lines has one place among the release lines, in ascending order. */
  lemma SellersInOrder(items: seq<Item>)
    ensures Ascending(Sellers(items)) && Distinct(Sellers(items))
    ensures forall id: nat :: id in Sellers(items) <==> exists it | it in items :: it.merchant == id
  {
    FirstSeenFacts(items);
    SortFacts(FirstSeen(items));
    SortOrders(FirstSeen(items));
  }

  // ---- grouped sums are per-line sums ----

  function GroupTotal(ids: seq<nat>, items: seq<Item>, w: Item -> int): int {
    if ids == [] then 0 else GroupTotal(ids[..|ids| - 1], items, w) + WeighOf(items, ids[|ids| - 1], w)
  }

  lemma {:induction false} GroupTotalPush(ids: seq<nat>, items: seq<Item>, it: Item, w: Item -> int)
    requires Distinct(ids)
    ensures GroupTotal(ids, items + [it], w) == GroupTotal(ids, items, w) + if it.merchant in ids then w(it) else 0
  {
    if ids != [] {
      var rest, last := ids[..|ids| - 1], ids[|ids| - 1];
      assert ids == rest + [last];
      GroupTotalPush(rest, items, it, w);
      WeighPush(items, it, last, w);
    }
  }

  lemma {:induction false} GroupTotalEmpty(ids: seq<nat>, w: Item -> int)
    ensures GroupTotal(ids, [], w) == 0
  {
    if ids != [] {
      GroupTotalEmpty(ids[..|ids| - 1], w);
    }
  }

  lemma {:induction false} GroupTotalIsSum(ids: seq<nat>, items: seq<Item>, w: Item -> int)
    requires Distinct(ids) && forall it | it in items :: it.merchant in ids
    ensures GroupTotal(ids, items, w) == SumBy(items, w)
  {
    if items == [] {
      GroupTotalEmpty(ids, w);
    } else {
      var rest, it := items[..|items| - 1], items[|items| - 1];
      assert items == rest + [it];
      assert it in items && forall x | x in rest :: x in items;
      GroupTotalIsSum(ids, rest, w);
      GroupTotalPush(ids, rest, it, w);
    }
  }

  /** What one line contributes to each account when its order is released, with no grouping. */
  function ItemNet(bkash: bool, platform: set<nat>, a: Account): Item -> int {
    (it: Item) =>
      match a
      case MerchantAccount(m) =>
        if it.merchant != m || m in platform then 0
        else if bkash then Gross(it) - LineCommission(it) else -LineCommission(it)
      case RevenueCommission => if it.merchant in platform then 0 else LineCommission(it)
      case RevenuePlatform => if bkash && it.merchant in platform then Gross(it) else 0
      case OrdersEscrow => if bkash then -Gross(it) else 0
      case _ => 0
  }

  function ReleaseNet(bkash: bool, platform: set<nat>, items: seq<Item>, a: Account): int {
    SumBy(items, ItemNet(bkash, platform, a))
  }

  lemma {:induction false} ShareNet(bkash: bool, platform: set<nat>, id: nat, items: seq<Item>, a: Account)
    requires a != OrdersEscrow
    ensures var s := ShareOf(items, id);
            WeighOf(items, id, ItemNet(bkash, platform, a)) ==
            match a
            case MerchantAccount(m) =>
              if id != m || m in platform then 0 else if bkash then s.gross - s.commission else -s.commission
            case RevenueCommission => if id in platform then 0 else s.commission
            case RevenuePlatform => if bkash && id in platform then s.gross else 0
            case _ => 0
  {
    if items != [] {
      ShareNet(bkash, platform, id, items[..|items| - 1], a);
    }
  }

  lemma {:induction false} LinesNet(bkash: bool, platform: set<nat>, ids: seq<nat>, items: seq<Item>, a: Account)
    requires a != OrdersEscrow
    ensures Net(LinesOver(bkash, platform, ids, items), a) == GroupTotal(ids, items, ItemNet(bkash, platform, a))
  {
    if ids != [] {
      var rest, id := ids[..|ids| - 1], ids[|ids| - 1];
      LinesNet(bkash, platform, rest, items, a);
      ShareNet(bkash, platform, id, items, a);
      var own := MerchantLines(bkash, platform, id, ShareOf(items, id));
      NetConcat(LinesOver(bkash, platform, rest, items), own, a);
      MerchantLinesNet(bkash, platform, id, ShareOf(items, id), a);
    }
  }

  lemma MerchantLinesNet(bkash: bool, platform: set<nat>, id: nat, s: Share, a: Account)
    requires a != OrdersEscrow
    ensures Net(MerchantLines(bkash, platform, id, s), a) ==
            match a
            case MerchantAccount(m) =>
              if id != m || m in platform then 0 else if bkash then s.gross - s.commission else -s.commission
            case RevenueCommission => if id in platform then 0 else s.commission
            case RevenuePlatform => if bkash && id in platform then s.gross else 0
            case _ => 0
  {
    var lines := MerchantLines(bkash, platform, id, s);
    if |lines| == 1 {
      OneLine(lines[0], a);
    } else if |lines| == 2 {
      TwoLines(lines[0], lines[1], a);
    }
  }

  lemma {:induction false} NoEscrowLines(bkash: bool, platform: set<nat>, ids: seq<nat>, items: seq<Item>)
    ensures Net(LinesOver(bkash, platform, ids, items), OrdersEscrow) == 0
    ensures GrossOver(ids, items) == GroupTotal(ids, items, GrossWeight())
  {
    if ids != [] {
      NoEscrowLines(bkash, platform, ids[..|ids| - 1], items);
      var own := MerchantLines(bkash, platform, ids[|ids| - 1], ShareOf(items, ids[|ids| - 1]));
      NetConcat(LinesOver(bkash, platform, ids[..|ids| - 1], items), own, OrdersEscrow);
      if |own| == 1 {
        OneLine(own[0], OrdersEscrow);
      } else if |own| == 2 {
        TwoLines(own[0], own[1], OrdersEscrow);
      }
    }
  }

  lemma {:induction false} EscrowSum(platform: set<nat>, items: seq<Item>, bkash: bool)
    ensures ReleaseNet(bkash, platform, items, OrdersEscrow) == if bkash then -ItemsGross(items) else 0
  {
    if items != [] {
      EscrowSum(platform, items[..|items| - 1], bkash);
    }
  }

  lemma SellersFacts(items: seq<Item>)
    ensures Distinct(Sellers(items)) && forall it | it in items :: it.merchant in Sellers(items)
  {
    FirstSeenFacts(items);
    SortFacts(FirstSeen(items));
  }

  lemma ReleaseLinesNet(bkash: bool, platform: set<nat>, items: seq<Item>, a: Account)
    ensures Net(ReleaseLines(bkash, platform, items), a) ==
            Net(LinesOver(bkash, platform, Sellers(items), items), a)
            - if bkash && a == OrdersEscrow then GrossOver(Sellers(items), items) else 0
  {
    var grouped := LinesOver(bkash, platform, Sellers(items), items);
    if bkash {
      NetPush(grouped, Line(OrdersEscrow, GrossOver(Sellers(items), items), 0), a);
    } else {
      assert ReleaseLines(bkash, platform, items) == grouped;
    }
  }

  /** The grouped release lines move every account by the direct per-line sums, whatever the rates,
      prices, quantities and mix of sellers. */
  lemma {:induction false} ReleaseMovesPerLineSums(bkash: bool, platform: set<nat>, items: seq<Item>, a: Account)
    ensures Net(ReleaseLines(bkash, platform, items), a) == ReleaseNet(bkash, platform, items, a)
  {
    SellersFacts(items);
    ReleaseLinesNet(bkash, platform, items, a);
    if a == OrdersEscrow {
      NoEscrowLines(bkash, platform, Sellers(items), items);
      GroupTotalIsSum(Sellers(items), items, GrossWeight());
      EscrowSum(platform, items, bkash);
    } else {
      LinesNet(bkash, platform, Sellers(items), items, a);
      GroupTotalIsSum(Sellers(items), items, ItemNet(bkash, platform, a));
    }
  }

  // ---- when the release journal is accepted ----

  predicate Sellable(items: seq<Item>) {
    forall it | it in items :: it.quantity >= 0 && it.unitPrice >= 0
  }

  lemma {:induction false} ShareBounds(items: seq<Item>, m: nat)
    requires Sellable(items)
    ensures 0 <= ShareOf(items, m).commission <= ShareOf(items, m).gross
  {
    if items != [] {
      var rest, it := items[..|items| - 1], items[|items| - 1];
      assert it in items && forall x | x in rest :: x in items;
      ShareBounds(rest, m);
      assert Gross(it) >= 0 by { NonNegativeGross(it.unitPrice, it.quantity); }
    }
  }

  /** The ledger takes a seller's lines. */
  predicate ShareOk(bkash: bool, isPlatform: bool, s: Share) {
    if isPlatform then bkash ==> s.gross >= 0
    else if bkash then 0 <= s.commission <= s.gross
    else s.commission >= 0
  }

  predicate SharesOk(bkash: bool, platform: set<nat>, items: seq<Item>) {
    forall id | id in Sellers(items) :: ShareOk(bkash, id in platform, ShareOf(items, id))
  }

  lemma MerchantLinesSound(bkash: bool, platform: set<nat>, id: nat, s: Share)
    ensures (forall l | l in MerchantLines(bkash, platform, id, s) :: ValidLine(l)) <==>
            ShareOk(bkash, id in platform, s)
    ensures Credits(MerchantLines(bkash, platform, id, s)) - Debits(MerchantLines(bkash, platform, id, s))
            == if bkash then s.gross else 0
  {
    var own := MerchantLines(bkash, platform, id, s);
    if |own| == 1 {
      OneLine(own[0], GatewayBkash);
      assert own[0] in own;
    } else if |own| == 2 {
      TwoLines(own[0], own[1], GatewayBkash);
      assert own[0] in own && own[1] in own;
    }
  }

  lemma {:induction false} LinesOverSound(bkash: bool, platform: set<nat>, ids: seq<nat>, items: seq<Item>)
    ensures (forall l | l in LinesOver(bkash, platform, ids, items) :: ValidLine(l))
            <==> forall id | id in ids :: ShareOk(bkash, id in platform, ShareOf(items, id))
    ensures Credits(LinesOver(bkash, platform, ids, items)) - Debits(LinesOver(bkash, platform, ids, items))
            == if bkash then GrossOver(ids, items) else 0
    ensures bkash && (forall id | id in ids :: ShareOk(bkash, id in platform, ShareOf(items, id))) ==>
            GrossOver(ids, items) >= 0
  {
    if ids != [] {
      var rest, id := ids[..|ids| - 1], ids[|ids| - 1];
      var before := LinesOver(bkash, platform, rest, items);
      var own := MerchantLines(bkash, platform, id, ShareOf(items, id));
      assert forall x :: x in ids <==> x in rest || x == id;
      assert forall l :: l in before + own <==> l in before || l in own;
      LinesOverSound(bkash, platform, rest, items);
      MerchantLinesSound(bkash, platform, id, ShareOf(items, id));
      NetConcat(before, own, GatewayBkash);
    }
  }

  /** Whatever the prices, quantities and rates, the release journal is accepted exactly when each
      seller's share is one the ledger takes; it balances in any case. */
  lemma {:induction false} ReleaseSoundIff(bkash: bool, platform: set<nat>, items: seq<Item>)
    ensures Sound(ReleaseLines(bkash, platform, items)) <==> SharesOk(bkash, platform, items)
    ensures Debits(ReleaseLines(bkash, platform, items)) == Credits(ReleaseLines(bkash, platform, items))
  {
    var ids := Sellers(items);
    LinesOverSound(bkash, platform, ids, items);
    var grouped := LinesOver(bkash, platform, ids, items);
    if bkash {
      SoundWith(grouped, Line(OrdersEscrow, GrossOver(ids, items), 0));
    } else {
      assert ReleaseLines(bkash, platform, items) == grouped;
    }
  }

  lemma SoundWith(lines: seq<Line>, l: Line)
    ensures Debits(lines + [l]) == Debits(lines) + l.debit && Credits(lines + [l]) == Credits(lines) + l.credit
    ensures (forall x | x in lines + [l] :: ValidLine(x)) <==> (forall x | x in lines :: ValidLine(x)) && ValidLine(l)
  {
    DebitsPush(lines, l);
    assert forall x :: x in lines + [l] <==> x in lines || x == l;
  }

  /** With no negative price or quantity posting it is never refused. */
  lemma ReleaseIsSound(bkash: bool, platform: set<nat>, items: seq<Item>)
    requires Sellable(items)
    ensures Sound(ReleaseLines(bkash, platform, items))
  {
    ReleaseSoundIff(bkash, platform, items);
    forall id | id in Sellers(items) ensures ShareOk(bkash, id in platform, ShareOf(items, id)) {
      ShareBounds(items, id);
    }
  }

  /** A line of -100 is refused when bKash pays for it alone, and accepted for cash, or beside a line
      of 500 by the same seller. */
  lemma NegativePriceCases(platform: set<nat>)
    ensures var cheap, dear := Item(0, 0, 1, -100, 10.0), Item(1, 0, 1, 500, 10.0);
            && !Sound(ReleaseLines(true, platform, [cheap]))
            && Sound(ReleaseLines(false, platform, [cheap]))
            && Sound(ReleaseLines(true, platform, [cheap, dear]))
  {
    var cheap, dear := Item(0, 0, 1, -100, 10.0), Item(1, 0, 1, 500, 10.0);
    ReleaseSoundIff(true, platform, [cheap]);
    ReleaseSoundIff(false, platform, [cheap]);
    ReleaseSoundIff(true, platform, [cheap, dear]);
    OneSeller([cheap]);
    OneSeller([cheap, dear]);
    TwoShares(cheap, dear);
  }

  lemma TwoShares(cheap: Item, dear: Item)
    requires cheap == Item(0, 0, 1, -100, 10.0) && dear == Item(1, 0, 1, 500, 10.0)
    ensures ShareOf([cheap], 0) == Share(-100, 0)
    ensures ShareOf([cheap, dear], 0) == Share(400, 50)
  {
    assert ExactCommission(-100, 10.0) == -10.0 && ExactCommission(500, 10.0) == 50.0;
    assert LineCommission(cheap) == 0 && LineCommission(dear) == 50;
    forall w: Item -> int
      ensures WeighOf([cheap], 0, w) == w(cheap) && WeighOf([cheap, dear], 0, w) == w(cheap) + w(dear)
    {
      WeighPush([], cheap, 0, w);
      WeighPush([cheap], dear, 0, w);
      assert [] + [cheap] == [cheap] && [cheap] + [dear] == [cheap, dear];
    }
  }

  lemma OneSeller(items: seq<Item>)
    requires items != [] && forall it | it in items :: it.merchant == 0
    ensures forall id :: id in Sellers(items) <==> id == 0
  {
    FirstSeenFacts(items);
    SortFacts(FirstSeen(items));
    assert items[0] in items;
  }
}
