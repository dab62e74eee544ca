/** What the events that post a single entry move: on which accounts, for whom, and by how much. */
module EventLaws {
  import opened Common
  import opened Money
  import opened Chart
  import opened Journal
  import opened Statements
  import opened Books
  import opened Reconciliation
  import opened Cycles

  /** What the accounts of one code owe, or hold for, a party or everyone: the credit balance. */
  function Owed(code: int, scope: Scope, j: seq<Entry>): int {
    -Net(OfParty(code, scope), j)
  }

  function If(condition: bool, amount: int): int {
    if condition then amount else 0
  }

  lemma PairOwed(s: Books, e: Event, on: Date, d: Line, c: Line, code: int, scope: Scope)
    requires PostEvent(s, e, on).error.None? && EventLines(e) == [d, c]
    ensures Owed(code, scope, PostEvent(s, e, on).books.journal)
            == Owed(code, scope, s.journal) - LineNet(OfParty(code, scope), d) - LineNet(OfParty(code, scope), c)
  {
    EventPosts(s, e, on);
    PairPosts(s, PostEvent(s, e, on).books, d, c, OfParty(code, scope));
  }

  lemma TripleOwed(s: Books, e: Event, on: Date, code: int, scope: Scope)
    requires PostEvent(s, e, on).error.None? && |EventLines(e)| == 3
    ensures var lines, q := EventLines(e), OfParty(code, scope);
            Owed(code, scope, PostEvent(s, e, on).books.journal)
            == Owed(code, scope, s.journal) - LineNet(q, lines[0]) - LineNet(q, lines[1]) - LineNet(q, lines[2])
  {
    EventPosts(s, e, on);
    TriplePosts(s, PostEvent(s, e, on).books, EventLines(e), OfParty(code, scope));
  }

  lemma FirstLineIsPositive(s: Books, e: Event, on: Date)
    requires PostEvent(s, e, on).error.None? && EventLines(e) != []
    ensures OneDirection(EventLines(e)[0])
  {
    assert GoodLine(s.accounts, EventLines(e)[0]);
  }

  /** A transfer between wallets takes from the sender what the recipient gets; all other wallets, the wallets
      together, and every other account stay as they were. */
  lemma TransferMovesWallets(s: Books, sender: UserId, recipient: UserId, amount: int, transfer: string, on: Date,
                             code: int, scope: Scope)
    requires PostEvent(s, P2p(sender, recipient, amount, transfer), on).error.None?
    ensures var after := PostEvent(s, P2p(sender, recipient, amount, transfer), on).books.journal;
            && amount > 0
            && Owed(code, scope, after) == Owed(code, scope, s.journal)
                 + If(code == 2010 && scope == PartyIs(Some(recipient)), amount)
                 - If(code == 2010 && scope == PartyIs(Some(sender)), amount)
  {
    var e := P2p(sender, recipient, amount, transfer);
    PairOwed(s, e, on, DrOf(2010, amount, Some(sender)), CrOf(2010, amount, Some(recipient)), code, scope);
    FirstLineIsPositive(s, e, on);
  }

  /** A top-up is owed to the user whose wallet it fills, against cash of the same amount. */
  lemma TopUpFillsWallet(s: Books, user: UserId, amount: int, cash: int, on: Date, code: int, scope: Scope)
    requires PostEvent(s, WalletTopUp(user, amount, cash), on).error.None?
    ensures var after := PostEvent(s, WalletTopUp(user, amount, cash), on).books.journal;
            && amount > 0
            && Owed(code, scope, after) == Owed(code, scope, s.journal)
                 + If(code == 2010 && InScope(scope, Some(user)), amount)
                 - If(code == cash && InScope(scope, None), amount)
  {
    var e := WalletTopUp(user, amount, cash);
    PairOwed(s, e, on, Dr(cash, amount), CrOf(2010, amount, Some(user)), code, scope);
    FirstLineIsPositive(s, e, on);
  }

  /** A chargeback leaves the bank and is charged to the seller if the order was released, to escrow if not. */
  lemma ChargebackIsCharged(s: Books, order: OrderId, amount: int, seller: Option<UserId>, released: bool, on: Date,
                            code: int, scope: Scope)
    requires PostEvent(s, Chargeback(order, amount, seller, released), on).error.None?
    ensures var after := PostEvent(s, Chargeback(order, amount, seller, released), on).books.journal;
            && amount > 0
            && Owed(code, scope, after) == Owed(code, scope, s.journal)
                 + If(code == 1000 && InScope(scope, None), amount)
                 - If(code == (if released then 2020 else 2000) && InScope(scope, seller), amount)
  {
    var e := Chargeback(order, amount, seller, released);
    PairOwed(s, e, on, DrOf(if released then 2020 else 2000, amount, seller), Cr(1000, amount), code, scope);
    FirstLineIsPositive(s, e, on);
  }

  /** VAT on a commission moves from escrow to what is owed to the state: the cent nearest to fourteen per cent of
      the commission, the larger one of two nearest. Nothing else moves. */
  lemma IvaMovesToState(s: Books, order: OrderId, commission: int, on: Date, iva: int, code: int, scope: Scope)
    requires PostEvent(s, IvaOnCommission(order, commission), on).error.None?
    requires -50 <= 14 * commission - 100 * iva < 50
    ensures var after := PostEvent(s, IvaOnCommission(order, commission), on).books.journal;
            && iva > 0
            && Owed(code, scope, after) == Owed(code, scope, s.journal)
                 + If(code == 2030 && InScope(scope, None), iva) - If(code == 2000 && InScope(scope, None), iva)
  {
    var e := IvaOnCommission(order, commission);
    assert iva == RoundHalfUp(commission * IVA_RATE_BPS, BPS) by {
      FirstLineIsPositive(s, e, on);
    }
    PairOwed(s, e, on, Dr(2000, iva), Cr(2030, iva), code, scope);
    FirstLineIsPositive(s, e, on);
  }

  /** A platform voucher puts the whole price into escrow: the buyer's part came in through the gateway, the rest
      is marketing expense. */
  lemma VoucherFundsEscrow(s: Books, order: OrderId, buyerPaid: int, subsidy: int, on: Date, code: int, scope: Scope)
    requires PostEvent(s, PlatformVoucher(order, buyerPaid, subsidy), on).error.None?
    ensures Owed(code, scope, PostEvent(s, PlatformVoucher(order, buyerPaid, subsidy), on).books.journal)
            == Owed(code, scope, s.journal)
                 + If(code == 2000 && InScope(scope, None), buyerPaid + subsidy)
                 - If(code == 1020 && InScope(scope, None), buyerPaid)
                 - If(code == 6020 && InScope(scope, None), subsidy)
  {
    TripleOwed(s, PlatformVoucher(order, buyerPaid, subsidy), on, code, scope);
  }

  /** The subsidy is an operating expense of the month; neither part of the price may be missing. */
  lemma VoucherIsExpensed(s: Books, s': Books, order: OrderId, buyerPaid: int, subsidy: int, on: Date)
    requires PostEvent(s, PlatformVoucher(order, buyerPaid, subsidy), on) == Done(s')
    ensures buyerPaid > 0 && subsidy > 0
    ensures PnlMoved(ProfitAndLoss(PeriodOf(on), s.journal), ProfitAndLoss(PeriodOf(on), s'.journal),
                     0, 0, subsidy, 0, 0)
  {
    var e := PlatformVoucher(order, buyerPaid, subsidy);
    TripleIsPosted(s, e, on);
    TripleOnPnl(s, s', Dr(1020, buyerPaid), Dr(6020, subsidy), Cr(2000, buyerPaid + subsidy), PeriodOf(on));
    VoucherLinesOnPnl(buyerPaid, subsidy, buyerPaid + subsidy);
  }

  lemma VoucherLinesOnPnl(buyerPaid: int, subsidy: int, price: int)
    ensures var a, b, c := Dr(1020, buyerPaid), Dr(6020, subsidy), Cr(2000, price);
            (Three(REVENUE_CODES, a, b, c), Three(COR_CODES, a, b, c), Three(OPEX_CODES, a, b, c),
             Three(OTHER_CODES, a, b, c), Three({INCOME_TAX}, a, b, c)) == (0, 0, subsidy, 0, 0)
  {
  }

  lemma TripleIsPosted(s: Books, e: Event, on: Date)
    requires PostEvent(s, e, on).error.None? && |EventLines(e)| == 3
    ensures Appends(s, PostEvent(s, e, on).books, EventLines(e))
    ensures PostEvent(s, e, on).books.journal[|s.journal|].period == PeriodOf(on)
    ensures OneDirection(EventLines(e)[0]) && OneDirection(EventLines(e)[1])
  {
    EventPosts(s, e, on);
    assert GoodLine(s.accounts, EventLines(e)[0]) && GoodLine(s.accounts, EventLines(e)[1]);
  }

  lemma CardPaymentOwed(s: Books, s1: Books, order: OrderId, gross: int, seller: Option<UserId>, paid: Date,
                        code: int, scope: Scope)
    requires FindOrder(s.escrow, order).None? && BuyerPaid(s, order, gross, seller, 1020, paid) == Done(s1)
    ensures Owed(code, scope, s1.journal) == Owed(code, scope, s.journal)
              + If(code == 2000 && InScope(scope, None), gross) - If(code == 1020 && InScope(scope, None), gross)
  {
    BuyerPaidPosts(s, order, gross, seller, 1020, paid);
    PairPosts(s, s1, Dr(1020, gross), Cr(2000, gross), OfParty(code, scope));
  }

  lemma SettlementOwed(s: Books, s': Books, order: OrderId, gross: int, fee: int, on: Date, code: int, scope: Scope)
    requires PostEvent(s, PspFee(order, gross, fee), on) == Done(s')
    ensures Owed(code, scope, s'.journal) == Owed(code, scope, s.journal)
              + If(code == 1020 && InScope(scope, None), gross)
              - If(code == 1000 && InScope(scope, None), gross - fee)
              - If(code == 5000 && InScope(scope, None), fee)
  {
    TripleOwed(s, PspFee(order, gross, fee), on, code, scope);
  }

  /** A card payment and its settlement together: the gateway is cleared, the bank has the payment less the fee,
      the fee is a cost, and the whole payment is held in escrow. */
  lemma SettlementClearsGateway(s: Books, s1: Books, s2: Books, order: OrderId, gross: int, seller: Option<UserId>,
                                fee: int, paid: Date, settled: Date, code: int, scope: Scope)
    requires FindOrder(s.escrow, order).None?
    requires BuyerPaid(s, order, gross, seller, 1020, paid) == Done(s1)
    requires PostEvent(s1, PspFee(order, gross, fee), settled) == Done(s2)
    ensures Owed(code, scope, s2.journal) == Owed(code, scope, s.journal)
              + If(code == 2000 && InScope(scope, None), gross)
              - If(code == 1000 && InScope(scope, None), gross - fee)
              - If(code == 5000 && InScope(scope, None), fee)
  {
    CardPaymentOwed(s, s1, order, gross, seller, paid, code, scope);
    SettlementOwed(s1, s2, order, gross, fee, settled, code, scope);
  }

  /** The fee is a cost of revenue of the month; it must be positive and smaller than the payment. */
  lemma FeeIsCost(s: Books, s': Books, order: OrderId, gross: int, fee: int, on: Date)
    requires PostEvent(s, PspFee(order, gross, fee), on) == Done(s')
    ensures 0 < fee < gross
    ensures PnlMoved(ProfitAndLoss(PeriodOf(on), s.journal), ProfitAndLoss(PeriodOf(on), s'.journal), 0, fee, 0, 0, 0)
  {
    var e := PspFee(order, gross, fee);
    TripleIsPosted(s, e, on);
    TripleOnPnl(s, s', Dr(5000, fee), Dr(1000, gross - fee), Cr(1020, gross), PeriodOf(on));
  }

  /** The effect of a three-line entry on the profit and loss of its month. */
  lemma TripleOnPnl(s: Books, s': Books, a: Line, b: Line, c: Line, p: Period)
    requires Appends(s, s', [a, b, c]) && s'.journal[|s.journal|].period == p
    ensures PnlMoved(ProfitAndLoss(p, s.journal), ProfitAndLoss(p, s'.journal),
                     -Three(REVENUE_CODES, a, b, c), Three(COR_CODES, a, b, c), Three(OPEX_CODES, a, b, c),
                     -Three(OTHER_CODES, a, b, c), Three({INCOME_TAX}, a, b, c))
  {
    assert s'.journal == s.journal + [s'.journal[|s.journal|]];
    PnlAppend(p, s.journal, s'.journal[|s.journal|]);
    TripleNet(InPeriod(REVENUE_CODES, p), a, b, c);
    TripleNet(InPeriod(COR_CODES, p), a, b, c);
    TripleNet(InPeriod(OPEX_CODES, p), a, b, c);
    TripleNet(InPeriod(OTHER_CODES, p), a, b, c);
    TripleNet(InPeriod({INCOME_TAX}, p), a, b, c);
  }

  /** The net of three lines over some accounts. */
  function Three(codes: set<int>, a: Line, b: Line, c: Line): int {
    LineNet(UpTo(codes, None), a) + LineNet(UpTo(codes, None), b) + LineNet(UpTo(codes, None), c)
  }
}
