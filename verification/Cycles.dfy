/** What a whole business cycle leaves behind: several calls, possibly months apart, amount to one
    short entry, because everything they moved through the clearing accounts cancels. */
module Cycles {
  import opened Common
  import opened Money
  import opened Chart
  import opened Journal
  import opened Statements
  import opened Books
  import opened Reconciliation
  import opened Deferred
  import opened Amortisation

  /** A query over the whole history. */
  predicate Undated(q: Query) {
    q.period.None? && q.asOf.None?
  }

  // ---- What single calls post -------------------------------------------------------------------

  lemma PairPosts(s: Books, s': Books, d: Line, c: Line, q: Query)
    requires Appends(s, s', [d, c]) && Undated(q)
    ensures Net(q, s'.journal) == Net(q, s.journal) + LineNet(q, d) + LineNet(q, c)
  {
    AppendMoves(s, s', [d, c], q);
    PairNet(q, d, c);
  }

  lemma TriplePosts(s: Books, s': Books, lines: seq<Line>, q: Query)
    requires |lines| == 3 && Appends(s, s', lines) && Undated(q)
    ensures Net(q, s'.journal) == Net(q, s.journal) + LineNet(q, lines[0]) + LineNet(q, lines[1]) + LineNet(q, lines[2])
  {
    AppendMoves(s, s', lines, q);
    TripleNet(q, lines[0], lines[1], lines[2]);
    assert lines == [lines[0], lines[1], lines[2]];
  }

  lemma BuyerPaidPosts(s: Books, order: OrderId, gross: int, seller: Option<UserId>, cash: int, on: Date)
    requires FindOrder(s.escrow, order).None? && BuyerPaid(s, order, gross, seller, cash, on).error.None?
    ensures var s' := BuyerPaid(s, order, gross, seller, cash, on).books;
            && Appends(s, s', [Dr(cash, gross), Cr(2000, gross)])
            && s'.escrow == s.escrow + [NewEscrow(order, seller, gross)] && s'.payables == s.payables
  {
    PostAppends(s, on, [Dr(cash, gross), Cr(2000, gross)], AutoMemo("Buyer paid", ForOrder(order)));
  }

  lemma PayoutPosts(s: Books, seller: UserId, batch: string, on: Date)
    requires SellerPayout(s, seller, batch, on).error.None? && PayableTotal(s.payables, seller) > 0
    ensures var s' := SellerPayout(s, seller, batch, on).books;
            var total := PayableTotal(s.payables, seller);
            && Appends(s, s', [DrOf(2020, total, Some(seller)), Cr(1000, total)])
            && s'.payables == MarkPaid(s.payables, seller, batch) && s'.escrow == s.escrow
  {
    var total := PayableTotal(s.payables, seller);
    PostAppends(s, on, [DrOf(2020, total, Some(seller)), Cr(1000, total)], AutoMemo("Seller payout", ForBatch(batch)));
  }

  lemma FindNewest(rows: seq<EscrowRow>, r: EscrowRow)
    requires FindOrder(rows, r.order).None?
    ensures FindOrder(rows + [r], r.order) == Some(|rows|)
  {
    assert (rows + [r])[..|rows|] == rows;
  }

  lemma PayableGrows(rows: seq<PayableRow>, r: PayableRow, seller: UserId)
    ensures PayableTotal(rows + [r], seller) == PayableTotal(rows, seller) + DueAmount(r, seller)
  {
    assert DueAmounts(rows + [r], seller) == DueAmounts(rows, seller) + [DueAmount(r, seller)];
    SumAppend(DueAmounts(rows, seller), DueAmount(r, seller));
  }

  lemma NothingLeftDue(rows: seq<PayableRow>, seller: UserId, batch: string)
    ensures PayableTotal(MarkPaid(rows, seller, batch), seller) == 0
  {
    SumZero(DueAmounts(MarkPaid(rows, seller, batch), seller));
  }

  // ---- The life of an order ---------------------------------------------------------------------

  /** The state after a buyer paid, the delivery was confirmed and the seller was paid out. */
  ghost predicate OrderLived(s: Books, s1: Books, s2: Books, s3: Books, order: OrderId, gross: int, seller: UserId,
                             cash: int, rate: int, batch: string, paid: Date, delivered: Date, settled: Date) {
    && FindOrder(s.escrow, order).None?
    && BuyerPaid(s, order, gross, Some(seller), cash, paid) == Done(s1)
    && DeliveryConfirmed(s1, order, rate, delivered) == Done(s2)
    && SellerPayout(s2, seller, batch, settled) == Done(s3)
  }

  /** A delivered order owes its seller the gross less the commission, on top of what was due before. */
  lemma DeliveryOwes(s: Books, s1: Books, s2: Books, order: OrderId, gross: int, seller: UserId, cash: int, rate: int,
                     paid: Date, delivered: Date)
    requires FindOrder(s.escrow, order).None?
    requires BuyerPaid(s, order, gross, Some(seller), cash, paid) == Done(s1)
    requires DeliveryConfirmed(s1, order, rate, delivered) == Done(s2)
    ensures Appends(s, s1, [Dr(cash, gross), Cr(2000, gross)])
    ensures Appends(s1, s2, RecognitionLines(2000, gross, rate, Some(seller)))
    ensures Commission(gross, rate) < gross
    ensures PayableTotal(s2.payables, seller) == PayableTotal(s.payables, seller) + gross - Commission(gross, rate)
    ensures |s2.escrow| == |s.escrow| + 1 && s2.escrow[|s.escrow|].status == Released
  {
    BuyerPaidPosts(s, order, gross, Some(seller), cash, paid);
    FindNewest(s.escrow, NewEscrow(order, Some(seller), gross));
    DeliveryPosts(s1, order, rate, delivered);
    PayableGrows(s.payables, NewPayable(seller, order, gross, rate), seller);
    RecognitionIsPositive(s1, gross, rate, seller, order, delivered);
  }

  lemma RecognitionIsPositive(s: Books, gross: int, rate: int, seller: UserId, order: OrderId, on: Date)
    requires Post(s, on, RecognitionLines(2000, gross, rate, Some(seller)),
                  AutoMemo("Escrow release", ForOrder(order))).error.None?
    ensures Commission(gross, rate) < gross
  {
    var lines := RecognitionLines(2000, gross, rate, Some(seller));
    assert GoodLine(s.accounts, lines[2]);
  }

  /** Over its whole life an order amounts to one entry: the buyer's cash comes in, the platform earns
      its commission, and the rest goes out with whatever else was due to the seller. On every other
      account, and for every party, nothing remains; the seller is owed nothing. */
  lemma OrderLifeIsOneEntry(s: Books, s1: Books, s2: Books, s3: Books, order: OrderId, gross: int, seller: UserId,
                            cash: int, rate: int, batch: string, paid: Date, delivered: Date, settled: Date, q: Query)
    requires OrderLived(s, s1, s2, s3, order, gross, seller, cash, rate, batch, paid, delivered, settled)
    requires Undated(q) && PayableTotal(s.payables, seller) >= 0
    ensures var comm, owed := Commission(gross, rate), PayableTotal(s.payables, seller);
            Net(q, s3.journal) == Net(q, s.journal)
              + LineNet(q, Dr(cash, gross)) + LineNet(q, Cr(4000, comm)) + LineNet(q, Cr(1000, gross - comm + owed))
              + LineNet(q, DrOf(2020, owed, Some(seller)))
    ensures PayableTotal(s3.payables, seller) == 0
  {
    DeliveryOwes(s, s1, s2, order, gross, seller, cash, rate, paid, delivered);
    var total := PayableTotal(s2.payables, seller);
    PayoutPosts(s2, seller, batch, settled);
    NothingLeftDue(s2.payables, seller, batch);
    PairPosts(s, s1, Dr(cash, gross), Cr(2000, gross), q);
    TriplePosts(s1, s2, RecognitionLines(2000, gross, rate, Some(seller)), q);
    PairPosts(s2, s3, DrOf(2020, total, Some(seller)), Cr(1000, total), q);
  }

  lemma RefundedInFull(s: Books, s1: Books, s2: Books, order: OrderId, gross: int, seller: Option<UserId>, cash: int,
                       target: RefundTarget, user: Option<UserId>, paid: Date, refunded: Date)
    requires FindOrder(s.escrow, order).None?
    requires BuyerPaid(s, order, gross, seller, cash, paid) == Done(s1)
    requires Refund(s1, order, gross, target, user, None, seller, refunded) == Done(s2)
    ensures Appends(s, s1, [Dr(cash, gross), Cr(2000, gross)])
    ensures Appends(s1, s2, RefundLines(false, gross, target, user, seller))
    ensures s2.escrow == s.escrow + [NewEscrow(order, seller, gross).(refunded := gross, status := ClawedBack)]
  {
    BuyerPaidPosts(s, order, gross, seller, cash, paid);
    FindNewest(s.escrow, NewEscrow(order, seller, gross));
    HeldRefund(s1, |s.escrow|, order, gross, target, user, seller, refunded);
  }

  lemma HeldRefund(s: Books, i: nat, order: OrderId, gross: int, target: RefundTarget, user: Option<UserId>,
                   seller: Option<UserId>, on: Date)
    requires FindOrder(s.escrow, order) == Some(i) && s.escrow[i].status == Held
    requires s.escrow[i].refunded == 0 && s.escrow[i].gross == gross
    requires Refund(s, order, gross, target, user, None, seller, on).error.None?
    ensures var s' := Refund(s, order, gross, target, user, None, seller, on).books;
            && Appends(s, s', RefundLines(false, gross, target, user, seller))
            && s'.escrow == s.escrow[i := s.escrow[i].(refunded := gross, status := ClawedBack)]
  {
    PostAppends(s, on, RefundLines(false, gross, target, user, seller), AutoMemo("Refund", ForOrder(order)));
  }

  /** A payment refunded in full before delivery amounts to cash in against what the buyer got back: the
      wallet balance of that user, or an open bank refund. */
  lemma RefundedOrderIsOneEntry(s: Books, s1: Books, s2: Books, order: OrderId, gross: int, seller: Option<UserId>,
                                cash: int,
                                target: RefundTarget, user: Option<UserId>, paid: Date, refunded: Date, q: Query)
    requires FindOrder(s.escrow, order).None? && Undated(q)
    requires BuyerPaid(s, order, gross, seller, cash, paid) == Done(s1)
    requires Refund(s1, order, gross, target, user, None, seller, refunded) == Done(s2)
    ensures Net(q, s2.journal) == Net(q, s.journal) + LineNet(q, Dr(cash, gross))
              + (if target == ToWallet then LineNet(q, CrOf(2010, gross, user)) else LineNet(q, Cr(2040, gross)))
  {
    RefundedInFull(s, s1, s2, order, gross, seller, cash, target, user, paid, refunded);
    var lines := RefundLines(false, gross, target, user, seller);
    PairPosts(s, s1, Dr(cash, gross), Cr(2000, gross), q);
    PairPosts(s1, s2, lines[0], lines[1], q);
  }

  // ---- Cash on delivery -------------------------------------------------------------------------

  lemma EventPosts(s: Books, e: Event, on: Date)
    requires PostEvent(s, e, on).error.None?
    ensures Appends(s, PostEvent(s, e, on).books, EventLines(e))
  {
    PostAppends(s, on, EventLines(e), EventMemo(e));
  }

  lemma CodReconciledPosts(s: Books, order: OrderId, amount: int, seller: UserId, rate: int, on: Date)
    requires CodReconciled(s, order, amount, Some(seller), rate, on).error.None?
    ensures var s' := CodReconciled(s, order, amount, Some(seller), rate, on).books;
            Appends(s, s', RecognitionLines(2060, amount, rate, Some(seller)))
  {
    PostAppends(s, on, RecognitionLines(2060, amount, rate, Some(seller)), AutoMemo("COD reconciled", ForOrder(order)));
  }

  /** Collected, remitted and reconciled, a cash order amounts to cash in the bank against commission
      and the seller's share: cash in transit and the courier liability are cleared. */
  lemma CodCycleIsOneEntry(s: Books, s1: Books, s2: Books, s3: Books, order: OrderId, amount: int, seller: UserId,
                           rate: int,
                           collected: Date, remitted: Date, reconciled: Date, q: Query)
    requires PostEvent(s, CodCollected(order, amount), collected) == Done(s1)
    requires PostEvent(s1, CodRemitted(order, amount), remitted) == Done(s2)
    requires CodReconciled(s2, order, amount, Some(seller), rate, reconciled) == Done(s3)
    requires Undated(q)
    ensures var comm := Commission(amount, rate);
            Net(q, s3.journal) == Net(q, s.journal)
              + LineNet(q, Dr(1000, amount)) + LineNet(q, Cr(4000, comm))
              + LineNet(q, CrOf(2020, amount - comm, Some(seller)))
  {
    EventPosts(s, CodCollected(order, amount), collected);
    EventPosts(s1, CodRemitted(order, amount), remitted);
    CodReconciledPosts(s2, order, amount, seller, rate, reconciled);
    PairPosts(s, s1, Dr(1030, amount), Cr(2060, amount), q);
    PairPosts(s1, s2, Dr(1000, amount), Cr(1030, amount), q);
    TriplePosts(s2, s3, RecognitionLines(2060, amount, rate, Some(seller)), q);
  }

  /** A courier who deposits too little after collecting the full amount owes exactly the difference. */
  lemma ShortfallIsOwedByCourier(s: Books, s1: Books, s2: Books, order: OrderId, amount: int, deposited: int,
                                 courier: Option<UserId>, collected: Date, settled: Date, q: Query)
    requires PostEvent(s, CodCollected(order, amount), collected) == Done(s1)
    requires PostEvent(s1, CourierShortfall(courier, order, deposited, amount), settled) == Done(s2)
    requires Undated(q)
    ensures Net(q, s2.journal) == Net(q, s.journal)
              + LineNet(q, Dr(1000, deposited)) + LineNet(q, DrOf(1101, amount - deposited, courier))
              + LineNet(q, Cr(2060, amount))
    ensures 0 < deposited < amount
  {
    var lines := EventLines(CourierShortfall(courier, order, deposited, amount));
    EventPosts(s, CodCollected(order, amount), collected);
    EventPosts(s1, CourierShortfall(courier, order, deposited, amount), settled);
    PairPosts(s, s1, Dr(1030, amount), Cr(2060, amount), q);
    TriplePosts(s1, s2, lines, q);
    assert GoodLine(s1.accounts, lines[0]) && GoodLine(s1.accounts, lines[1]);
  }

  // ---- Wallets ------------------------------------------------------------------------------------

  /** Topping up and spending at once is the same as paying directly: the same escrow row, and the same
      value of every query, so the same statements, for every account, party, period and date. */
  lemma WalletPaymentIsDirectPayment(s: Books, user: UserId, order: OrderId, amount: int, seller: Option<UserId>,
                                     cash: int, on: Date, s1: Books, s2: Books, direct: Books, q: Query)
    requires FindOrder(s.escrow, order).None?
    requires PostEvent(s, WalletTopUp(user, amount, cash), on) == Done(s1)
    requires WalletSpend(s1, user, order, amount, seller, on) == Done(s2)
    requires BuyerPaid(s, order, amount, seller, cash, on) == Done(direct)
    ensures s2.escrow == direct.escrow && s2.payables == direct.payables
    ensures Net(q, s2.journal) == Net(q, direct.journal)
  {
    var up := [Dr(cash, amount), CrOf(2010, amount, Some(user))];
    var out := [DrOf(2010, amount, Some(user)), Cr(2000, amount)];
    var pay := [Dr(cash, amount), Cr(2000, amount)];
    NetAppend(q, s.journal, s1.journal[|s.journal|]);
    NetAppend(q, s1.journal, s2.journal[|s1.journal|]);
    NetAppend(q, s.journal, direct.journal[|s.journal|]);
    PairNet(q, up[0], up[1]);
    PairNet(q, out[0], out[1]);
    PairNet(q, pay[0], pay[1]);
  }

  // ---- What reaches the profit and loss ---------------------------------------------------------

  /** How one more entry of a period moves each line of its statement. */
  ghost predicate PnlMoved(a: Pnl, b: Pnl, revenue: int, cor: int, opex: int, other: int, tax: int) {
    b == Pnl(a.revenue + revenue,
             a.costOfRevenue + cor,
             a.grossProfit + revenue - cor,
             a.opex + opex,
             a.ebitda + revenue - cor - opex,
             a.other + other,
             a.pbt + revenue - cor - opex + other,
             a.incomeTax + tax,
             a.netProfit + revenue - cor - opex + other - tax)
  }

  lemma PnlAppend(p: Period, j: seq<Entry>, e: Entry)
    requires e.period == p
    ensures PnlMoved(ProfitAndLoss(p, j), ProfitAndLoss(p, j + [e]),
                     -LinesNet(InPeriod(REVENUE_CODES, p), e.lines), LinesNet(InPeriod(COR_CODES, p), e.lines),
                     LinesNet(InPeriod(OPEX_CODES, p), e.lines), -LinesNet(InPeriod(OTHER_CODES, p), e.lines),
                     LinesNet(InPeriod({INCOME_TAX}, p), e.lines))
  {
    NetAppend(InPeriod(REVENUE_CODES, p), j, e);
    NetAppend(InPeriod(COR_CODES, p), j, e);
    NetAppend(InPeriod(OPEX_CODES, p), j, e);
    NetAppend(InPeriod(OTHER_CODES, p), j, e);
    NetAppend(InPeriod({INCOME_TAX}, p), j, e);
  }

  /** A delivery earns exactly its commission, in the month it is confirmed. */
  lemma DeliveryEarnsCommission(s: Books, order: OrderId, rate: int, on: Date)
    requires DeliveryConfirmed(s, order, rate, on).error.None?
    requires s.escrow[FindOrder(s.escrow, order).value].status != Released
    ensures var s' := DeliveryConfirmed(s, order, rate, on).books;
            var gross := s.escrow[FindOrder(s.escrow, order).value].gross;
            PnlMoved(ProfitAndLoss(PeriodOf(on), s.journal), ProfitAndLoss(PeriodOf(on), s'.journal),
                     Commission(gross, rate), 0, 0, 0, 0)
  {
    DeliveryPosts(s, order, rate, on);
    var s' := DeliveryConfirmed(s, order, rate, on).books;
    var el := s.escrow[FindOrder(s.escrow, order).value];
    var e := s'.journal[|s.journal|];
    assert s'.journal == s.journal + [e];
    PnlAppend(PeriodOf(on), s.journal, e);
    RecognitionOnPnl(el.gross, rate, el.seller, PeriodOf(on));
  }

  lemma RecognitionOnPnl(gross: int, rate: int, seller: Option<UserId>, p: Period)
    ensures var lines := RecognitionLines(2000, gross, rate, seller);
            (LinesNet(InPeriod(REVENUE_CODES, p), lines), LinesNet(InPeriod(COR_CODES, p), lines),
             LinesNet(InPeriod(OPEX_CODES, p), lines), LinesNet(InPeriod(OTHER_CODES, p), lines),
             LinesNet(InPeriod({INCOME_TAX}, p), lines)) == (-Commission(gross, rate), 0, 0, 0, 0)
  {
    var lines := RecognitionLines(2000, gross, rate, seller);
    TripleNet(InPeriod(REVENUE_CODES, p), lines[0], lines[1], lines[2]);
    TripleNet(InPeriod(COR_CODES, p), lines[0], lines[1], lines[2]);
    TripleNet(InPeriod(OPEX_CODES, p), lines[0], lines[1], lines[2]);
    TripleNet(InPeriod(OTHER_CODES, p), lines[0], lines[1], lines[2]);
    TripleNet(InPeriod({INCOME_TAX}, p), lines[0], lines[1], lines[2]);
  }

  /** The effect of a two-line entry on the profit and loss of its month. */
  lemma PairOnPnl(s: Books, s': Books, d: Line, c: Line, p: Period)
    requires Appends(s, s', [d, c]) && s'.journal[|s.journal|].period == p
    ensures PnlMoved(ProfitAndLoss(p, s.journal), ProfitAndLoss(p, s'.journal),
                     -LineNet(UpTo(REVENUE_CODES, None), d) - LineNet(UpTo(REVENUE_CODES, None), c),
                     LineNet(UpTo(COR_CODES, None), d) + LineNet(UpTo(COR_CODES, None), c),
                     LineNet(UpTo(OPEX_CODES, None), d) + LineNet(UpTo(OPEX_CODES, None), c),
                     -LineNet(UpTo(OTHER_CODES, None), d) - LineNet(UpTo(OTHER_CODES, None), c),
                     LineNet(UpTo({INCOME_TAX}, None), d) + LineNet(UpTo({INCOME_TAX}, None), c))
  {
    assert s'.journal == s.journal + [s'.journal[|s.journal|]];
    PnlAppend(p, s.journal, s'.journal[|s.journal|]);
    PairNet(InPeriod(REVENUE_CODES, p), d, c);
    PairNet(InPeriod(COR_CODES, p), d, c);
    PairNet(InPeriod(OPEX_CODES, p), d, c);
    PairNet(InPeriod(OTHER_CODES, p), d, c);
    PairNet(InPeriod({INCOME_TAX}, p), d, c);
  }

  /** Amortisation is an operating expense of the month it is posted in. */
  lemma AmortisationIsExpensed(s: Books, i: nat, on: Date)
    requires i < |s.assets| && s.assets[i].status == Live && AmortiseRow(s, i, on).error.None?
    requires MonthlyAmortisation(s.assets[i]) > 0
    ensures var s' := AmortiseRow(s, i, on).books;
            PnlMoved(ProfitAndLoss(PeriodOf(on), s.journal), ProfitAndLoss(PeriodOf(on), s'.journal),
                     0, 0, s'.assets[i].amortised - s.assets[i].amortised, 0, 0)
  {
    var m := MonthlyAmortisation(s.assets[i]);
    AssetPosts(s, i, on);
    PairOnPnl(s, AmortiseRow(s, i, on).books, Dr(6011, m), Cr(1450, m), PeriodOf(on));
  }

  /** What a deferred row recognises is revenue of the month it is posted in, when the row names a
      revenue account. */
  lemma RecognitionIsRevenue(s: Books, i: nat, on: Date)
    requires i < |s.deferred| && PostsThisMonth(s.deferred[i]) && RecogniseRow(s, i, on).error.None?
    requires s.deferred[i].revenueAccount in REVENUE_CODES
    ensures var s' := RecogniseRow(s, i, on).books;
            PnlMoved(ProfitAndLoss(PeriodOf(on), s.journal), ProfitAndLoss(PeriodOf(on), s'.journal),
                     s'.deferred[i].recognised - s.deferred[i].recognised, 0, 0, 0, 0)
  {
    var d := s.deferred[i];
    var m := MonthlyRecognition(d);
    RowPosts(s, i, on);
    GroupRanges();
    PairOnPnl(s, RecogniseRow(s, i, on).books, Dr(2100, m), CrOf(d.revenueAccount, m, Some(d.seller)), PeriodOf(on));
  }

  lemma PairPosted(s: Books, d: Line, c: Line, memo: Memo, on: Date)
    requires Post(s, on, [d, c], memo).error.None?
    ensures PnlMoved(ProfitAndLoss(PeriodOf(on), s.journal),
                     ProfitAndLoss(PeriodOf(on), Post(s, on, [d, c], memo).books.journal),
                     -LineNet(UpTo(REVENUE_CODES, None), d) - LineNet(UpTo(REVENUE_CODES, None), c),
                     LineNet(UpTo(COR_CODES, None), d) + LineNet(UpTo(COR_CODES, None), c),
                     LineNet(UpTo(OPEX_CODES, None), d) + LineNet(UpTo(OPEX_CODES, None), c),
                     -LineNet(UpTo(OTHER_CODES, None), d) - LineNet(UpTo(OTHER_CODES, None), c),
                     LineNet(UpTo({INCOME_TAX}, None), d) + LineNet(UpTo({INCOME_TAX}, None), c))
  {
    PostAppends(s, on, [d, c], memo);
    PairOnPnl(s, Post(s, on, [d, c], memo).books, d, c, PeriodOf(on));
  }

  lemma ReserveRaised(s: Books, amount: int, memo: Memo, on: Date)
    requires Post(s, on, [Dr(5020, amount), Cr(2050, amount)], memo).error.None?
    ensures var s' := Post(s, on, [Dr(5020, amount), Cr(2050, amount)], memo).books;
            PnlMoved(ProfitAndLoss(PeriodOf(on), s.journal), ProfitAndLoss(PeriodOf(on), s'.journal),
                     0, amount, 0, 0, 0)
  {
    PairPosted(s, Dr(5020, amount), Cr(2050, amount), memo, on);
  }

  lemma ReserveReleased(s: Books, amount: int, memo: Memo, on: Date)
    requires Post(s, on, [Dr(2050, amount), Cr(4990, amount)], memo).error.None?
    ensures var s' := Post(s, on, [Dr(2050, amount), Cr(4990, amount)], memo).books;
            PnlMoved(ProfitAndLoss(PeriodOf(on), s.journal), ProfitAndLoss(PeriodOf(on), s'.journal),
                     amount, 0, 0, 0, 0)
  {
    PairPosted(s, Dr(2050, amount), Cr(4990, amount), memo, on);
  }

  /** Raising the dispute reserve costs the month the increase, releasing it earns the decrease. */
  lemma ReserveMovesProfit(s: Books, expected: int, on: Date)
    requires AdjustReserve(s, expected, on).error.None?
    ensures var s' := AdjustReserve(s, expected, on).books;
            var adjustment := expected - AccountBalance(2050, None, s.journal);
            PnlMoved(ProfitAndLoss(PeriodOf(on), s.journal), ProfitAndLoss(PeriodOf(on), s'.journal),
                     Max0(-adjustment), Max0(adjustment), 0, 0, 0)
  {
    var adjustment := expected - AccountBalance(2050, None, s.journal);
    var memo := Memo("Dispute reserve", Accrual, ForReserve(on), None, None, true, false, None);
    if adjustment > 0 {
      ReserveRaised(s, adjustment, memo, on);
    } else if adjustment < 0 {
      ReserveReleased(s, -adjustment, memo, on);
    }
  }

  /** A revaluation moves the other income of the month by exactly the gain, or the loss. */
  lemma RevaluationMovesProfit(s: Books, gain: int, currency: string, on: Date)
    requires FxRevaluation(s, gain, currency, on).error.None?
    ensures var s' := FxRevaluation(s, gain, currency, on).books;
            PnlMoved(ProfitAndLoss(PeriodOf(on), s.journal), ProfitAndLoss(PeriodOf(on), s'.journal), 0, 0, 0, gain, 0)
  {
    var memo := Memo("FX revaluation", Accrual, ForFx(currency, on), None, None, true, false, None);
    if gain > 0 {
      PairPosted(s, Dr(2099, gain), Cr(7000, gain), memo, on);
    } else if gain < 0 {
      PairPosted(s, Dr(7000, -gain), Cr(2099, -gain), memo, on);
    }
  }
}
