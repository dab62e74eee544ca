/** Exactly which calls keep the sub-ledgers in agreement with the general ledger, and the runs that
    stay reconciled. */
module Agreement {
  import opened Common
  import opened Money
  import opened Chart
  import opened Journal
  import opened Books
  import opened Integrity
  import opened Reconciliation

  // ---- Guards a caller can check before the call ------------------------------------------------

  predicate EventSparesEscrow(e: Event) {
    match e
    case WalletTopUp(_, _, cash) => cash != 2000
    case Chargeback(_, _, _, released) => released
    case PlatformVoucher(_, _, _) => false
    case IvaOnCommission(_, _) => false
    case Direct(lines, _) => LinesNet(OfParty(2000, Everyone), lines) == 0
    case _ => true
  }

  predicate EventSparesPayable(e: Event, scope: Scope) {
    match e
    case WalletTopUp(_, _, cash) => cash != 2020 || !InScope(scope, None)
    case Chargeback(_, _, seller, released) => !released || !InScope(scope, seller)
    case Direct(lines, _) => LinesNet(OfParty(2020, scope), lines) == 0
    case _ => true
  }

  predicate SparesEscrow(s: Books, a: Action) {
    match a
    case DoEvent(e, _) => EventSparesEscrow(e)
    case DoReverse(i, _, _) => i < |s.journal| ==> LinesNet(OfParty(2000, Everyone), Mirror(s.journal[i].lines)) == 0
    case DoBuyerPaid(order, _, _, cash, _) => FindOrder(s.escrow, order).Some? || cash != 2000
    case DoWalletSpend(_, order, _, _, _) => FindOrder(s.escrow, order).None?
    case DoDelivery(order, _, _) =>
      var found := FindOrder(s.escrow, order);
      found.Some? ==> s.escrow[found.value].status in {Held, Releasable, Released}
    case DoRefund(order, amount, _, _, told, _, _) =>
      if DrawsOnSeller(s.escrow, order, told) then !IsHeld(s.escrow, order)
      else IsHeld(s.escrow, order) && amount == GrossOf(s.escrow, order)
    case DoRecognise(i, _) =>
      i < |s.deferred| && s.deferred[i].active && s.deferred[i].monthsRecognised < s.deferred[i].monthsTotal
      ==> s.deferred[i].revenueAccount != 2000
    case DoDecideManual(i, _, accept) =>
      i < |s.manual| && accept ==> LinesNet(OfParty(2000, Everyone), Unattributed(s.manual[i].lines)) == 0
    case _ => true
  }

  predicate SparesPayable(s: Books, a: Action, scope: Scope) {
    match a
    case DoEvent(e, _) => EventSparesPayable(e, scope)
    case DoReverse(i, _, _) => i < |s.journal| ==> LinesNet(OfParty(2020, scope), Mirror(s.journal[i].lines)) == 0
    case DoBuyerPaid(order, _, _, cash, _) =>
      FindOrder(s.escrow, order).Some? || cash != 2020 || !InScope(scope, None)
    case DoRefund(order, _, _, _, told, seller, _) =>
      !DrawsOnSeller(s.escrow, order, told) || !InScope(scope, seller)
    case DoPayout(payee, _, _) =>
      PayableTotal(s.payables, payee) <= 0 || !InScope(scope, Some(payee)) || Sum(Adjustments(s.payables, payee)) == 0
    case DoRecognise(i, _) =>
      i < |s.deferred| && s.deferred[i].active && s.deferred[i].monthsRecognised < s.deferred[i].monthsTotal
      ==> s.deferred[i].revenueAccount != 2020 || !InScope(scope, Some(s.deferred[i].seller))
    case DoDecideManual(i, _, accept) =>
      i < |s.manual| && accept ==> LinesNet(OfParty(2020, scope), Unattributed(s.manual[i].lines)) == 0
    case _ => true
  }

  /** Rows are stored only after a posting of their amount went through, so they are positive. */
  ghost predicate PositiveEscrow(rows: seq<EscrowRow>) {
    forall i :: 0 <= i < |rows| ==> rows[i].gross > 0
  }

  lemma PostedLinesAreGood(s: Books, date: Date, lines: seq<Line>, memo: Memo)
    requires Post(s, date, lines, memo).error.None?
    ensures forall i :: 0 <= i < |lines| ==> GoodLine(s.accounts, lines[i])
  {
  }

  lemma PairAmountPositive(s: Books, date: Date, d: Line, c: Line, memo: Memo)
    requires Post(s, date, [d, c], memo).error.None?
    ensures OneDirection(d) && OneDirection(c)
  {
    PostedLinesAreGood(s, date, [d, c], memo);
    assert [d, c][0] == d && [d, c][1] == c;
  }

  lemma EventGuardsExact(s: Books, e: Event, on: Date, scope: Scope)
    requires PostEvent(s, e, on).error.None?
    ensures LinesNet(OfParty(2000, Everyone), EventLines(e)) == 0 <==> EventSparesEscrow(e)
    ensures LinesNet(OfParty(2020, scope), EventLines(e)) == 0 <==> EventSparesPayable(e, scope)
  {
    var lines := EventLines(e);
    PostedLinesAreGood(s, on, lines, EventMemo(e));
    if !e.Direct? {
      assert GoodLine(s.accounts, lines[0]) && GoodLine(s.accounts, lines[1]);
      if |lines| == 2 {
        PairNet(OfParty(2000, Everyone), lines[0], lines[1]);
        PairNet(OfParty(2020, scope), lines[0], lines[1]);
      } else {
        assert GoodLine(s.accounts, lines[2]);
        TripleNet(OfParty(2000, Everyone), lines[0], lines[1], lines[2]);
        TripleNet(OfParty(2020, scope), lines[0], lines[1], lines[2]);
      }
    }
  }

  lemma BuyerPaidGuards(s: Books, order: OrderId, amount: int, seller: Option<UserId>, cash: int, on: Date)
    requires BuyerPaid(s, order, amount, seller, cash, on).error.None? && FindOrder(s.escrow, order).None?
    ensures amount > 0
  {
    PairAmountPositive(s, on, Dr(cash, amount), Cr(2000, amount), AutoMemo("Buyer paid", ForOrder(order)));
  }

  lemma WalletSpendGuards(s: Books, user: UserId, order: OrderId, amount: int, seller: Option<UserId>, on: Date)
    requires WalletSpend(s, user, order, amount, seller, on).error.None?
    ensures amount > 0
  {
    PairAmountPositive(s, on, DrOf(2010, amount, Some(user)), Cr(2000, amount),
                       AutoMemo("Wallet spend", ForOrder(order)));
  }

  lemma RefundGuards(s: Books, order: OrderId, amount: int, target: RefundTarget, user: Option<UserId>,
                     told: Option<bool>, seller: Option<UserId>, on: Date)
    requires Refund(s, order, amount, target, user, told, seller, on).error.None?
    ensures amount > 0
  {
    var lines := RefundLines(DrawsOnSeller(s.escrow, order, told), amount, target, user, seller);
    PairAmountPositive(s, on, lines[0], lines[1], AutoMemo("Refund", ForOrder(order)));
  }

  lemma RecogniseGuards(s: Books, i: nat, on: Date)
    requires RecogniseRow(s, i, on).error.None?
    requires s.deferred[i].active && s.deferred[i].monthsRecognised < s.deferred[i].monthsTotal
    ensures MonthlyRecognition(s.deferred[i]) > 0
  {
    var d := s.deferred[i];
    var monthly := MonthlyRecognition(d);
    PairAmountPositive(s, on, Dr(2100, monthly), CrOf(d.revenueAccount, monthly, Some(d.seller)),
                       AutoMemo("Recognise deferred revenue", ForDeferred(i)));
  }

  /** For a call that goes through, the guards are exact: its drift is zero if and only if they hold. */
  lemma GuardsAreExact(s: Books, a: Action, scope: Scope)
    requires Step(s, a).error.None? && PositiveEscrow(s.escrow)
    ensures EscrowDrift(s, a) == 0 <==> SparesEscrow(s, a)
    ensures PayableDrift(s, a, scope) == 0 <==> SparesPayable(s, a, scope)
  {
    match a {
      case DoEvent(e, on) => EventGuardsExact(s, e, on, scope);
      case DoBuyerPaid(order, amount, seller, cash, on) =>
        if FindOrder(s.escrow, order).None? {
          BuyerPaidGuards(s, order, amount, seller, cash, on);
        }
      case DoWalletSpend(user, order, amount, seller, on) => WalletSpendGuards(s, user, order, amount, seller, on);
      case DoRefund(order, amount, target, buyer, told, seller, on) =>
        RefundGuards(s, order, amount, target, buyer, told, seller, on);
      case DoRecognise(i, on) =>
        if s.deferred[i].active && s.deferred[i].monthsRecognised < s.deferred[i].monthsTotal {
          RecogniseGuards(s, i, on);
        }
      case _ =>
    }
  }

  // ---- The agreement theorem ----------------------------------------------------------------

  /** A call that goes through keeps the escrow difference, and the payable difference of a scope,
      if and only if its guards hold. */
  lemma AgreementKeptIffSpared(s: Books, a: Action, scope: Scope)
    requires Step(s, a).error.None? && PositiveEscrow(s.escrow)
    ensures EscrowGap(Step(s, a).books) == EscrowGap(s) <==> SparesEscrow(s, a)
    ensures PayableGap(Step(s, a).books, scope) == PayableGap(s, scope) <==> SparesPayable(s, a, scope)
  {
    DriftIsExact(s, a, scope);
    GuardsAreExact(s, a, scope);
  }

  /** The one call that raises after its entry was committed: a COD reconciliation that could post but has
      no seller. */
  predicate LosesPayable(s: Books, a: Action) {
    && a.DoCodReconciled? && a.seller.None?
    && !IsLocked(s.locks, PeriodOf(a.on)) && {2060, 4000, 2020} <= s.accounts
    && 0 < Commission(a.amount, a.rate) < a.amount
  }

  /** When a recognition posting goes through: the period is open, its accounts are known, and both the
      commission and the rest are positive. */
  lemma RecognitionPosting(s: Books, date: Date, source: int, amount: int, rate: int, seller: Option<UserId>,
                           memo: Memo)
    ensures Post(s, date, RecognitionLines(source, amount, rate, seller), memo).error.None? <==>
            && !IsLocked(s.locks, PeriodOf(date)) && {source, 4000, 2020} <= s.accounts
            && 0 < Commission(amount, rate) < amount
  {
    var lines := RecognitionLines(source, amount, rate, seller);
    assert lines[..2] == [lines[0], lines[1]] && lines[..2][..1] == [lines[0]] && [lines[0]][..0] == [];
    assert TotalDebit(lines[..1]) == amount && TotalCredit(lines[..1]) == 0;
    assert TotalDebit(lines[..2]) == amount && TotalCredit(lines[..2]) == Commission(amount, rate);
    assert TotalDebit(lines) == amount == TotalCredit(lines);
    assert GoodLine(s.accounts, lines[0]) && GoodLine(s.accounts, lines[1]) && GoodLine(s.accounts, lines[2]) <==>
           {source, 4000, 2020} <= s.accounts && 0 < Commission(amount, rate) < amount;
  }

  lemma CodFailureMoves(s: Books, order: OrderId, amount: int, rate: int, on: Date, scope: Scope)
    requires Post(s, on, RecognitionLines(2060, amount, rate, None),
                  AutoMemo("COD reconciled", ForOrder(order))).error.None?
    ensures Moved(s, CodReconciled(s, order, amount, None, rate, on).books, scope, 0,
                  if InScope(scope, None) then Commission(amount, rate) - amount else 0)
    ensures Commission(amount, rate) < amount
  {
    var lines := RecognitionLines(2060, amount, rate, None);
    PostAppends(s, on, lines, AutoMemo("COD reconciled", ForOrder(order)));
    PostedLinesAreGood(s, on, lines, AutoMemo("COD reconciled", ForOrder(order)));
    assert OneDirection(lines[2]);
    RecognitionMoves(s, CodReconciled(s, order, amount, None, rate, on).books, 2060, amount, rate, None, scope, 0, 0);
  }

  lemma CodFailureLeavesBooks(s: Books, order: OrderId, amount: int, seller: Option<UserId>, rate: int, on: Date)
    requires CodReconciled(s, order, amount, seller, rate, on).error.Some?
    ensures var s' := CodReconciled(s, order, amount, seller, rate, on).books;
            var loses := LosesPayable(s, DoCodReconciled(order, amount, seller, rate, on));
            (s' == s <==> !loses) && (loses ==> PayableGap(s', Everyone) < PayableGap(s, Everyone))
  {
    RecognitionPosting(s, on, 2060, amount, rate, seller, AutoMemo("COD reconciled", ForOrder(order)));
    if LosesPayable(s, DoCodReconciled(order, amount, seller, rate, on)) {
      CodFailureMoves(s, order, amount, rate, on, Everyone);
    }
  }

  lemma OrderFailuresLeaveBooks(s: Books, a: Action)
    requires Step(s, a).error.Some?
    requires a.DoDelivery? || a.DoRefund? || a.DoPayout? || a.DoBuyerPaid? || a.DoWalletSpend?
    ensures Step(s, a).books == s
  {
  }

  lemma OtherFailuresLeaveBooks(s: Books, a: Action)
    requires Step(s, a).error.Some? && !a.DoCodReconciled?
    requires !a.DoDelivery? && !a.DoRefund? && !a.DoPayout? && !a.DoBuyerPaid? && !a.DoWalletSpend?
    ensures Step(s, a).books == s
  {
  }

  /** A call that raises leaves the books as they were, except that a COD reconciliation without a
      seller keeps its entry and so breaks the payable agreement. */
  lemma FailureLeavesBooks(s: Books, a: Action)
    requires Step(s, a).error.Some?
    ensures Step(s, a).books == s <==> !LosesPayable(s, a)
    ensures LosesPayable(s, a) ==> PayableGap(Step(s, a).books, Everyone) < PayableGap(s, Everyone)
  {
    if a.DoCodReconciled? {
      CodFailureLeavesBooks(s, a.order, a.amount, a.seller, a.rate, a.on);
    } else if a.DoDelivery? || a.DoRefund? || a.DoPayout? || a.DoBuyerPaid? || a.DoWalletSpend? {
      OrderFailuresLeaveBooks(s, a);
    } else {
      OtherFailuresLeaveBooks(s, a);
    }
  }

  // ---- Runs -----------------------------------------------------------------------------------

  ghost predicate NoAdjustments(rows: seq<PayableRow>) {
    forall i :: 0 <= i < |rows| ==> rows[i].adjustments == 0
  }

  ghost predicate RowsInOrder(s: Books) {
    PositiveEscrow(s.escrow) && NoAdjustments(s.payables)
  }

  lemma BuyerPaidKeepsRows(s: Books, order: OrderId, amount: int, seller: Option<UserId>, cash: int, on: Date)
    requires RowsInOrder(s)
    ensures RowsInOrder(BuyerPaid(s, order, amount, seller, cash, on).books)
  {
    if FindOrder(s.escrow, order).None? && BuyerPaid(s, order, amount, seller, cash, on).error.None? {
      BuyerPaidGuards(s, order, amount, seller, cash, on);
    }
  }

  lemma WalletSpendKeepsRows(s: Books, user: UserId, order: OrderId, amount: int, seller: Option<UserId>, on: Date)
    requires RowsInOrder(s)
    ensures RowsInOrder(WalletSpend(s, user, order, amount, seller, on).books)
  {
    if WalletSpend(s, user, order, amount, seller, on).error.None? {
      WalletSpendGuards(s, user, order, amount, seller, on);
    }
  }

  lemma DeliveryKeepsRows(s: Books, order: OrderId, rate: int, on: Date)
    requires RowsInOrder(s)
    ensures RowsInOrder(DeliveryConfirmed(s, order, rate, on).books)
  {
  }

  lemma CodKeepsRows(s: Books, order: OrderId, amount: int, seller: Option<UserId>, rate: int, on: Date)
    requires RowsInOrder(s)
    ensures RowsInOrder(CodReconciled(s, order, amount, seller, rate, on).books)
  {
  }

  lemma RefundKeepsRows(s: Books, order: OrderId, amount: int, target: RefundTarget, user: Option<UserId>,
                        told: Option<bool>, seller: Option<UserId>, on: Date)
    requires RowsInOrder(s)
    ensures RowsInOrder(Refund(s, order, amount, target, user, told, seller, on).books)
  {
  }

  lemma PayoutKeepsRows(s: Books, payee: UserId, batch: string, on: Date)
    requires RowsInOrder(s)
    ensures RowsInOrder(SellerPayout(s, payee, batch, on).books)
  {
  }

  lemma OtherCallsKeepRows(s: Books, a: Action)
    requires RowsInOrder(s)
    requires !a.DoBuyerPaid? && !a.DoWalletSpend? && !a.DoDelivery? && !a.DoRefund? && !a.DoPayout?
    requires !a.DoCodReconciled?
    ensures RowsInOrder(Step(s, a).books)
  {
    StepKeepsFrame(s, a);
  }

  /** Every call keeps escrow rows positive and payable rows free of adjustments. */
  lemma StepKeepsRows(s: Books, a: Action)
    requires RowsInOrder(s)
    ensures RowsInOrder(Step(s, a).books)
  {
    match a {
      case DoBuyerPaid(order, amount, seller, cash, on) => BuyerPaidKeepsRows(s, order, amount, seller, cash, on);
      case DoWalletSpend(user, order, amount, seller, on) => WalletSpendKeepsRows(s, user, order, amount, seller, on);
      case DoDelivery(order, rate, on) => DeliveryKeepsRows(s, order, rate, on);
      case DoRefund(order, amount, target, buyer, told, seller, on) =>
        RefundKeepsRows(s, order, amount, target, buyer, told, seller, on);
      case DoPayout(payee, batch, on) => PayoutKeepsRows(s, payee, batch, on);
      case DoCodReconciled(order, amount, seller, rate, on) => CodKeepsRows(s, order, amount, seller, rate, on);
      case _ => OtherCallsKeepRows(s, a);
    }
  }

  lemma NoAdjustmentsDue(rows: seq<PayableRow>, seller: UserId)
    requires NoAdjustments(rows)
    ensures Sum(Adjustments(rows, seller)) == 0
  {
    SumZero(Adjustments(rows, seller));
  }

  const CASH_CODES := {1000, 1010, 1020, 1030}

  predicate OrdinaryEvent(e: Event) {
    match e
    case WalletTopUp(_, _, cash) => cash in CASH_CODES
    case Chargeback(_, _, _, _) => false
    case PlatformVoucher(_, _, _) => false
    case IvaOnCommission(_, _) => false
    case Direct(_, _) => false
    case _ => true
  }

  /** The everyday calls: payments into a cash account, spends on fresh orders, deliveries of orders
      that were not refunded, the COD cycle with its seller, payouts, full refunds of held orders. */
  predicate Ordinary(s: Books, a: Action) {
    match a
    case DoEvent(e, _) => OrdinaryEvent(e)
    case DoReverse(_, _, _) => false
    case DoDecideManual(_, _, accept) => !accept
    case DoBuyerPaid(_, _, _, cash, _) => cash in CASH_CODES
    case DoWalletSpend(_, order, _, _, _) => FindOrder(s.escrow, order).None?
    case DoDelivery(order, _, _) =>
      var found := FindOrder(s.escrow, order);
      found.Some? ==> s.escrow[found.value].status in {Held, Releasable, Released}
    case DoCodReconciled(_, _, seller, _, _) => seller.Some?
    case DoRefund(order, amount, _, _, told, _, _) =>
      IsHeld(s.escrow, order) && amount == GrossOf(s.escrow, order) && told != Some(true)
    case DoRecognise(i, _) => i < |s.deferred| ==> s.deferred[i].revenueAccount !in {2000, 2020}
    case _ => true
  }

  predicate OrdinaryRun(s: Books, actions: seq<Action>) {
    actions == []
    || (OrdinaryRun(s, actions[..|actions| - 1])
        && Ordinary(Run(s, actions[..|actions| - 1]), actions[|actions| - 1]))
  }

  lemma OrdinarySpares(s: Books, a: Action, scope: Scope)
    requires Ordinary(s, a) && RowsInOrder(s)
    ensures SparesEscrow(s, a) && SparesPayable(s, a, scope) && !LosesPayable(s, a)
  {
    if a.DoPayout? {
      NoAdjustmentsDue(s.payables, a.payee);
    }
  }

  lemma OrdinaryStepKeepsGaps(s: Books, a: Action, scope: Scope)
    requires Ordinary(s, a) && RowsInOrder(s)
    ensures Moved(s, Step(s, a).books, scope, 0, 0)
  {
    OrdinarySpares(s, a, scope);
    if Step(s, a).error.None? {
      AgreementKeptIffSpared(s, a, scope);
    } else {
      FailureLeavesBooks(s, a);
    }
  }

  /** After any ordinary run the reconciliation finds the same differences it found before, for the
      escrow, for the payables as a whole and seller by seller: from reconciled books, none. */
  lemma {:induction false} OrdinaryRunsStayReconciled(s: Books, actions: seq<Action>, scope: Scope)
    requires RowsInOrder(s) && OrdinaryRun(s, actions)
    ensures RowsInOrder(Run(s, actions))
    ensures Moved(s, Run(s, actions), scope, 0, 0)
  {
    if actions != [] {
      var before := Run(s, actions[..|actions| - 1]);
      OrdinaryRunsStayReconciled(s, actions[..|actions| - 1], scope);
      StepKeepsRows(before, actions[|actions| - 1]);
      OrdinaryStepKeepsGaps(before, actions[|actions| - 1], scope);
    }
  }

  // ---- Where agreement is lost: concrete witnesses ---------------------------------------------

  /** A partial refund of a held order drops the whole row but only part of the account balance. */
  lemma PartialRefundBreaksAgreement(s: Books, order: OrderId, amount: int, target: RefundTarget, on: Date)
    requires PositiveEscrow(s.escrow) && IsHeld(s.escrow, order) && 0 < amount < GrossOf(s.escrow, order)
    requires Step(s, DoRefund(order, amount, target, None, None, None, on)).error.None?
    ensures EscrowGap(Step(s, DoRefund(order, amount, target, None, None, None, on)).books)
         == EscrowGap(s) - (GrossOf(s.escrow, order) - amount)
  {
    DriftIsExact(s, DoRefund(order, amount, target, None, None, None, on), Everyone);
  }
}
