/** When each call of the accounting engine goes through, and what it makes of the rows of its table. */
module CallOutcomes {
  import opened Common
  import opened Money
  import opened Chart
  import opened Journal
  import opened Statements
  import opened Books
  import opened Reconciliation
  import Agreement
  import Integrity

  /** The period is open and the accounts are in the account table. */
  predicate CanPost(s: Books, on: Date, codes: set<int>) {
    !IsLocked(s.locks, PeriodOf(on)) && codes <= s.accounts
  }

  lemma PairPosting(s: Books, on: Date, debited: int, debtor: Option<UserId>, credited: int, creditor: Option<UserId>,
                    amount: int, memo: Memo)
    ensures Post(s, on, [DrOf(debited, amount, debtor), CrOf(credited, amount, creditor)], memo).error.None?
            <==> CanPost(s, on, {debited, credited}) && amount > 0
  {
    var d, c := DrOf(debited, amount, debtor), CrOf(credited, amount, creditor);
    assert [d, c][..1] == [d] && [d][..0] == [];
    assert TotalDebit([d]) == amount && TotalCredit([d]) == 0;
    assert [d, c][0] == d && [d, c][1] == c;
  }

  /** Everything but the row at `i` is as it was. */
  ghost predicate OthersKept<T(!new)>(rows: seq<T>, rows': seq<T>, i: nat) {
    |rows'| == |rows| && forall k :: 0 <= k < |rows| && k != i ==> rows'[k] == rows[k]
  }

  // ---- Payments ---------------------------------------------------------------------------------------

  ghost predicate HasRow(rows: seq<EscrowRow>, order: OrderId) {
    exists i :: 0 <= i < |rows| && rows[i].order == order
  }

  /** A row that was just opened: held, with nothing released or refunded yet. */
  ghost predicate Opens(rows: seq<EscrowRow>, rows': seq<EscrowRow>, order: OrderId, seller: Option<UserId>,
                        gross: int) {
    && |rows'| == |rows| + 1 && rows'[..|rows|] == rows
    && rows'[|rows|].status == Held && (rows'[|rows|].order, rows'[|rows|].seller) == (order, seller)
    && (rows'[|rows|].gross, rows'[|rows|].commission, rows'[|rows|].net, rows'[|rows|].refunded) == (gross, 0, 0, 0)
  }

  /** A payment goes through if its order has a row already, and then does nothing; otherwise exactly when the
      amount is positive and can be posted, and then opens the row. */
  lemma BuyerPaidOutcome(s: Books, order: OrderId, gross: int, seller: Option<UserId>, cash: int, on: Date)
    ensures var o := BuyerPaid(s, order, gross, seller, cash, on);
            && (o.error.None? <==> HasRow(s.escrow, order) || (CanPost(s, on, {cash, 2000}) && gross > 0))
            && (HasRow(s.escrow, order) || o.error.Some? ==> o.books == s)
            && (!HasRow(s.escrow, order) && o.error.None? ==> Opens(s.escrow, o.books.escrow, order, seller, gross))
  {
    PairPosting(s, on, cash, None, 2000, None, gross, AutoMemo("Buyer paid", ForOrder(order)));
  }

  /** Spending from a wallet goes through exactly when the amount is positive and can be posted, however often;
      only the first payment of an order opens a row. */
  lemma WalletSpendOutcome(s: Books, user: UserId, order: OrderId, amount: int, seller: Option<UserId>, on: Date)
    ensures var o := WalletSpend(s, user, order, amount, seller, on);
            && (o.error.None? <==> CanPost(s, on, {2010, 2000}) && amount > 0)
            && (o.error.Some? ==> o.books == s)
            && (o.error.None? ==>
                  if HasRow(s.escrow, order) then o.books.escrow == s.escrow
                  else Opens(s.escrow, o.books.escrow, order, seller, amount))
  {
    PairPosting(s, on, 2010, Some(user), 2000, None, amount, AutoMemo("Wallet spend", ForOrder(order)));
  }

  // ---- Release and refund -----------------------------------------------------------------------------

  /** Both parts of an amount split at the rate are positive. */
  predicate Splits(amount: int, rate: int) {
    0 < Commission(amount, rate) < amount
  }

  /** A payable row that was just accrued. */
  ghost predicate Accrues(rows: seq<PayableRow>, rows': seq<PayableRow>, seller: UserId, order: OrderId, gross: int,
                          rate: int) {
    rows' == rows + [PayableRow(seller, order, gross, Commission(gross, rate), gross - Commission(gross, rate), 0, None,
                                Accrued)]
  }

  /** A delivery goes through exactly when the order has a row that is released already, or one with a seller
      whose amount can be split and posted. Then the row is released, and the seller is owed the rest. */
  lemma DeliveryOutcome(s: Books, order: OrderId, rate: int, on: Date)
    ensures var o := DeliveryConfirmed(s, order, rate, on);
            match FindOrder(s.escrow, order)
            case None => o == Fail(s, RowMissing)
            case Some(i) =>
              var row := s.escrow[i];
              && (o.error.None? <==>
                    || row.status == Released
                    || (CanPost(s, on, {2000, 4000, 2020}) && Splits(row.gross, rate) && row.seller.Some?))
              && (row.status == Released || o.error.Some? ==> o.books == s)
              && (row.status != Released && o.error.None? ==>
                    && OthersKept(s.escrow, o.books.escrow, i) && o.books.escrow[i].status == Released
                    && (o.books.escrow[i].gross, o.books.escrow[i].refunded) == (row.gross, row.refunded)
                    && o.books.escrow[i].commission == Commission(row.gross, rate)
                    && o.books.escrow[i].net == row.gross - Commission(row.gross, rate)
                    && Accrues(s.payables, o.books.payables, row.seller.value, order, row.gross, rate))
  {
    var found := FindOrder(s.escrow, order);
    if found.Some? {
      Agreement.RecognitionPosting(s, on, 2000, s.escrow[found.value].gross, rate, s.escrow[found.value].seller,
                                   AutoMemo("Escrow release", ForOrder(order)));
    }
  }

  /** A COD reconciliation goes through exactly when its amount can be split and posted and a seller is named. */
  lemma CodReconciledOutcome(s: Books, order: OrderId, amount: int, seller: Option<UserId>, rate: int, on: Date)
    ensures var o := CodReconciled(s, order, amount, seller, rate, on);
            && (o.error.None? <==> CanPost(s, on, {2060, 4000, 2020}) && Splits(amount, rate) && seller.Some?)
            && (o.error.None? ==> Accrues(s.payables, o.books.payables, seller.value, order, amount, rate))
            && (o.error.Some? ==> o.books.payables == s.payables)
  {
    Agreement.RecognitionPosting(s, on, 2060, amount, rate, seller, AutoMemo("COD reconciled", ForOrder(order)));
  }

  /** The account a refund is drawn on: the seller's if the order was released, or the caller says so. */
  function DrawnOn(s: Books, order: OrderId, told: Option<bool>): int {
    var found := FindOrder(s.escrow, order);
    if told == Some(true) || (told.None? && found.Some? && s.escrow[found.value].status == Released) then 2020 else 2000
  }

  /** A refund goes through exactly when its amount is positive and can be posted, with or without a row. The row
      of the order adds it to what was refunded before, and is clawed back in full once that reaches the gross. */
  lemma RefundOutcome(s: Books, order: OrderId, amount: int, target: RefundTarget, user: Option<UserId>,
                      told: Option<bool>, seller: Option<UserId>, on: Date)
    ensures var o := Refund(s, order, amount, target, user, told, seller, on);
            && (o.error.None? <==>
                  CanPost(s, on, {DrawnOn(s, order, told), if target == ToWallet then 2010 else 2040}) && amount > 0)
            && (o.error.Some? ==> o.books == s)
            && match FindOrder(s.escrow, order)
               case None => o.books.escrow == s.escrow
               case Some(i) =>
                 var row, row' := s.escrow[i], o.books.escrow[i];
                 && OthersKept(s.escrow, o.books.escrow, i)
                 && (o.error.None? ==>
                       && row' == row.(refunded := row.refunded + amount, status := row'.status)
                       && row'.status == if row'.refunded >= row.gross then ClawedBack else PartiallyClawed)
  {
    var released := DrawsOnSeller(s.escrow, order, told);
    PairPosting(s, on, if released then 2020 else 2000, if released then seller else None,
                if target == ToWallet then 2010 else 2040, if target == ToWallet then user else None, amount,
                AutoMemo("Refund", ForOrder(order)));
  }

  /** What the refunds of an order that go through during a run come to. */
  ghost function RefundedBy(s: Books, actions: seq<Action>, order: OrderId): int {
    if actions == [] then 0
    else
      var before, a := Run(s, actions[..|actions| - 1]), actions[|actions| - 1];
      RefundedBy(s, actions[..|actions| - 1], order)
      + (if a.DoRefund? && a.order == order && Step(before, a).error.None? then a.amount else 0)
  }

  /** Rows keep their order and gross, and are never lost. */
  ghost predicate SameOrders(s: Books, s': Books) {
    && |s.escrow| <= |s'.escrow|
    && forall k :: 0 <= k < |s.escrow| ==>
         (s'.escrow[k].order, s'.escrow[k].gross) == (s.escrow[k].order, s.escrow[k].gross)
  }

  lemma {:induction false} FoundStays(rows: seq<EscrowRow>, rows': seq<EscrowRow>, order: OrderId)
    requires FindOrder(rows, order).Some? && |rows| <= |rows'|
    requires forall k :: 0 <= k < |rows| ==> rows'[k].order == rows[k].order
    ensures FindOrder(rows', order) == FindOrder(rows, order)
  {
    if |rows'| > |rows| {
      FoundStays(rows, rows'[..|rows'| - 1], order);
    } else if FindOrder(rows[..|rows| - 1], order).Some? {
      FoundStays(rows[..|rows| - 1], rows'[..|rows| - 1], order);
    } else {
      NotFoundStays(rows[..|rows| - 1], rows'[..|rows| - 1], order);
    }
  }

  lemma {:induction false} NotFoundStays(rows: seq<EscrowRow>, rows': seq<EscrowRow>, order: OrderId)
    requires FindOrder(rows, order).None? && |rows| == |rows'|
    requires forall k :: 0 <= k < |rows| ==> rows'[k].order == rows[k].order
    ensures FindOrder(rows', order).None?
  {
    if rows != [] {
      NotFoundStays(rows[..|rows| - 1], rows'[..|rows| - 1], order);
    }
  }

  lemma StepRefunds(s: Books, a: Action, order: OrderId)
    requires FindOrder(s.escrow, order).Some?
    ensures var s', i := Step(s, a).books, FindOrder(s.escrow, order).value;
            && SameOrders(s, s')
            && s'.escrow[i].refunded == s.escrow[i].refunded
                 + if a.DoRefund? && a.order == order && Step(s, a).error.None? then a.amount else 0
  {
    match a {
      case DoRefund(o, amount, target, buyer, told, seller, on) =>
        RefundOutcome(s, o, amount, target, buyer, told, seller, on);
      case DoDelivery(o, rate, on) => DeliveryOutcome(s, o, rate, on);
      case DoBuyerPaid(o, amount, seller, cash, on) => BuyerPaidOutcome(s, o, amount, seller, cash, on);
      case DoWalletSpend(user, o, amount, seller, on) => WalletSpendOutcome(s, user, o, amount, seller, on);
      case _ => Integrity.StepKeepsFrame(s, a);
    }
  }

  /** Over every run the row of an order shows what was refunded on it: what it showed before and every refund
      that went through since. */
  lemma {:induction false} RefundsAddUp(s: Books, actions: seq<Action>, order: OrderId)
    requires FindOrder(s.escrow, order).Some?
    ensures var s', i := Run(s, actions), FindOrder(s.escrow, order).value;
            && SameOrders(s, s') && FindOrder(s'.escrow, order) == Some(i)
            && s'.escrow[i].refunded == s.escrow[i].refunded + RefundedBy(s, actions, order)
  {
    if actions != [] {
      var init := actions[..|actions| - 1];
      RefundsAddUp(s, init, order);
      StepRefunds(Run(s, init), actions[|actions| - 1], order);
      FoundStays(Run(s, init).escrow, Run(s, actions).escrow, order);
    }
  }

  // ---- Payout ------------------------------------------------------------------------------------------

  /** A payout goes through exactly when nothing is due or it can be posted. If it posts, the accrued rows of the
      seller are paid with its batch; all other rows stay. */
  lemma PayoutOutcome(s: Books, seller: UserId, batch: string, on: Date)
    ensures var o, total := SellerPayout(s, seller, batch, on), PayableTotal(s.payables, seller);
            && (o.error.None? <==> total <= 0 || CanPost(s, on, {2020, 1000}))
            && (o.error.Some? || total <= 0 ==> o.books == s)
            && |o.books.payables| == |s.payables|
            && forall k :: 0 <= k < |s.payables| ==>
                 var row := s.payables[k];
                 o.books.payables[k]
                 == if o.error.None? && total > 0 && row.seller == seller && row.status == Accrued
                    then row.(status := Paid, batch := Some(batch)) else row
  {
    var total := PayableTotal(s.payables, seller);
    PairPosting(s, on, 2020, Some(seller), 1000, None, total, AutoMemo("Seller payout", ForBatch(batch)));
  }

  // ---- Provision and revaluation ----------------------------------------------------------------------

  /** An adjustment of the dispute reserve goes through exactly when there is nothing to adjust or it can be
      posted. */
  lemma ReserveOutcome(s: Books, expected: int, on: Date)
    ensures var gap := expected - AccountBalance(2050, None, s.journal);
            AdjustReserve(s, expected, on).error.None? <==>
              gap == 0 || CanPost(s, on, if gap > 0 then {5020, 2050} else {2050, 4990})
  {
    var gap := expected - AccountBalance(2050, None, s.journal);
    var memo := Memo("Dispute reserve", Accrual, ForReserve(on), None, None, true, false, None);
    PairPosting(s, on, 5020, None, 2050, None, gap, memo);
    PairPosting(s, on, 2050, None, 4990, None, -gap, memo);
  }

  lemma RevaluationOutcome(s: Books, gain: int, currency: string, on: Date)
    ensures FxRevaluation(s, gain, currency, on).error.None? <==> gain == 0 || CanPost(s, on, {2099, 7000})
  {
    var memo := Memo("FX revaluation", Accrual, ForFx(currency, on), None, None, true, false, None);
    PairPosting(s, on, 2099, None, 7000, None, gain, memo);
    PairPosting(s, on, 7000, None, 2099, None, -gain, memo);
  }

  // ---- Manual entries ----------------------------------------------------------------------------------

  /** A manual entry can be requested exactly when its lines balance and debit something. */
  lemma RequestOutcome(s: Books, date: Date, lines: seq<Line>, requester: UserId)
    ensures var o := RequestManual(s, date, lines, requester);
            && (o.error.None? <==> TotalDebit(lines) == TotalCredit(lines) != 0)
            && o.books == s.(manual := o.books.manual)
            && (o.error.Some? ==> o.books == s)
            && (o.error.None? ==>
                  o.books.manual == s.manual + [ManualRow(date, lines, requester, None, Pending, None)])
  {
  }

  /** The lines can be posted on the date. */
  predicate Postable(s: Books, date: Date, lines: seq<Line>) {
    && !IsLocked(s.locks, PeriodOf(date)) && TotalDebit(lines) == TotalCredit(lines) && lines != []
    && forall k :: 0 <= k < |lines| ==> GoodLine(s.accounts, lines[k])
  }

  /** A decision goes through exactly when the request is pending, somebody else decides, and, to accept it, its
      lines can be posted. It changes that request, and adds an entry if and only if it accepts. */
  lemma DecisionOutcome(s: Books, i: nat, approver: UserId, accept: bool)
    ensures var o := DecideManual(s, i, approver, accept);
            && (o.error.None? <==>
                  && i < |s.manual| && s.manual[i].status == Pending && s.manual[i].requestedBy != approver
                  && (accept ==> Postable(s, s.manual[i].date, s.manual[i].lines)))
            && (o.error.Some? ==> o.books == s)
            && (o.error.None? ==>
                  && OthersKept(s.manual, o.books.manual, i)
                  && o.books.manual[i].status == (if accept then Posted else Rejected)
                  && o.books.manual[i].approvedBy == Some(approver)
                  && |o.books.journal| == |s.journal| + (if accept then 1 else 0))
  {
    if i < |s.manual| {
      UnattributedSame(s, s.manual[i].lines);
      PostableIff(s, s.manual[i].date, Unattributed(s.manual[i].lines),
                  ManualMemo(i, s.manual[i].requestedBy, approver));
    }
  }

  lemma {:induction false} UnattributedTotals(lines: seq<Line>)
    ensures TotalDebit(Unattributed(lines)) == TotalDebit(lines)
    ensures TotalCredit(Unattributed(lines)) == TotalCredit(lines)
  {
    if lines != [] {
      UnattributedTotals(lines[..|lines| - 1]);
      assert Unattributed(lines)[..|lines| - 1] == Unattributed(lines[..|lines| - 1]);
    }
  }

  lemma UnattributedSame(s: Books, lines: seq<Line>)
    ensures forall date :: Postable(s, date, Unattributed(lines)) <==> Postable(s, date, lines)
  {
    UnattributedTotals(lines);
    assert forall k :: 0 <= k < |lines| ==>
             (GoodLine(s.accounts, Unattributed(lines)[k]) <==> GoodLine(s.accounts, lines[k]));
    assert |Unattributed(lines)| == |lines|;
  }

  lemma PostableIff(s: Books, date: Date, lines: seq<Line>, memo: Memo)
    ensures Post(s, date, lines, memo).error.None? <==> Postable(s, date, lines)
  {
    if forall k :: 0 <= k < |lines| ==> GoodLine(s.accounts, lines[k]) {
      GoodLinesTotal(s.accounts, lines);
    }
  }

  // ---- Events ------------------------------------------------------------------------------------------

  /** What an event needs to go through, besides an open period: amounts and accounts. */
  predicate EventIsPostable(s: Books, e: Event) {
    match e
    case PspFee(_, gross, fee) => 0 < fee < gross && {5000, 1000, 1020} <= s.accounts
    case WalletTopUp(_, amount, cash) => amount > 0 && {cash, 2010} <= s.accounts
    case P2p(_, _, amount, _) => amount > 0 && 2010 in s.accounts
    case CodCollected(_, amount) => amount > 0 && {1030, 2060} <= s.accounts
    case CodRemitted(_, amount) => amount > 0 && {1000, 1030} <= s.accounts
    case CourierShortfall(_, _, deposited, expected) =>
      0 < deposited < expected && {1000, 1101, 1030} <= s.accounts
    case Chargeback(_, amount, _, released) => amount > 0 && {if released then 2020 else 2000, 1000} <= s.accounts
    case PlatformVoucher(_, buyerPaid, subsidy) => buyerPaid > 0 && subsidy > 0 && {1020, 6020, 2000} <= s.accounts
    case IvaOnCommission(_, commission) => 1400 * commission >= 5000 && {2000, 2030} <= s.accounts
    case Direct(lines, _) =>
      && TotalDebit(lines) == TotalCredit(lines) && lines != []
      && forall k :: 0 <= k < |lines| ==> GoodLine(s.accounts, lines[k])
  }

  lemma PairPostable(s: Books, date: Date, d: Line, c: Line)
    ensures Postable(s, date, [d, c]) <==>
            && !IsLocked(s.locks, PeriodOf(date)) && d.debit + c.debit == d.credit + c.credit
            && GoodLine(s.accounts, d) && GoodLine(s.accounts, c)
  {
    assert [d, c][..1] == [d] && [d][..0] == [];
    assert TotalDebit([d]) == d.debit && TotalCredit([d]) == d.credit;
    assert [d, c][0] == d && [d, c][1] == c;
  }

  lemma TriplePostable(s: Books, date: Date, a: Line, b: Line, c: Line)
    ensures Postable(s, date, [a, b, c]) <==>
            && !IsLocked(s.locks, PeriodOf(date)) && a.debit + b.debit + c.debit == a.credit + b.credit + c.credit
            && GoodLine(s.accounts, a) && GoodLine(s.accounts, b) && GoodLine(s.accounts, c)
  {
    assert [a, b, c][..2] == [a, b] && [a, b][..1] == [a] && [a][..0] == [];
    assert TotalDebit([a]) == a.debit && TotalCredit([a]) == a.credit;
    assert TotalDebit([a, b]) == a.debit + b.debit && TotalCredit([a, b]) == a.credit + b.credit;
    assert [a, b, c][0] == a && [a, b, c][1] == b && [a, b, c][2] == c;
  }

  /** An event goes through exactly when its period is open and its amounts and accounts allow it, and otherwise
      changes nothing. */
  lemma EventOutcome(s: Books, e: Event, on: Date)
    ensures PostEvent(s, e, on).error.None? <==> !IsLocked(s.locks, PeriodOf(on)) && EventIsPostable(s, e)
    ensures PostEvent(s, e, on).error.Some? ==> PostEvent(s, e, on).books == s
  {
    var lines := EventLines(e);
    PostableIff(s, on, lines, EventMemo(e));
    if |lines| == 2 && !e.Direct? {
      PairPostable(s, on, lines[0], lines[1]);
      assert lines == [lines[0], lines[1]];
    } else if |lines| == 3 && !e.Direct? {
      TriplePostable(s, on, lines[0], lines[1], lines[2]);
      assert lines == [lines[0], lines[1], lines[2]];
    }
  }

  // ---- How entries are marked --------------------------------------------------------------------------

  /** The date a call posts on. */
  function DateOf(s: Books, a: Action): Option<Date> {
    match a
    case DoLock(_) => None
    case DoUnlock(_) => None
    case DoSnapshot(_) => None
    case DoDecideManual(i, _, _) => if i < |s.manual| then Some(s.manual[i].date) else None
    case _ => Some(a.on)
  }

  /** Who answers for an entry: the poster of a reversal, the two people behind a manual entry, else nobody. */
  function People(s: Books, a: Action): (Option<UserId>, Option<UserId>) {
    match a
    case DoReverse(_, poster, _) => (poster, None)
    case DoDecideManual(i, approver, _) =>
      if i < |s.manual| then (Some(s.manual[i].requestedBy), Some(approver)) else (None, None)
    case _ => (None, None)
  }

  /** An entry tells which call posted it: by its type and flags, the entry it reverses, and the people named. */
  predicate Tells(s: Books, a: Action, e: Entry) {
    && Some(e.date) == DateOf(s, a)
    && e.memo.sourceType == (if a.DoReverse? then Reversal else if a.DoDecideManual? then Manual
                             else if a.DoReserve? || a.DoFx? then Accrual else SystemAuto)
    && (e.memo.isAuto <==> !a.DoReverse? && !a.DoDecideManual?)
    && (e.memo.isReversal <==> a.DoReverse?)
    && e.memo.reversed == (if a.DoReverse? then Some(a.original) else None)
    && (e.memo.postedBy, e.memo.approvedBy) == People(s, a)
  }

  /** The entry a call appends, if it appends one, tells about it. */
  ghost predicate EntryTells(s: Books, a: Action) {
    var j := Step(s, a).books.journal;
    |j| > |s.journal| ==> Tells(s, a, j[|s.journal|])
  }

  lemma EventsAreAutomatic(e: Event)
    requires !e.Direct?
    ensures EventMemo(e) == AutoMemo(EventMemo(e).description, EventMemo(e).source)
  {
  }

  lemma EventTells(s: Books, e: Event, on: Date)
    requires !e.Direct?
    ensures EntryTells(s, DoEvent(e, on))
  {
    EventsAreAutomatic(e);
    var o := Post(s, on, EventLines(e), EventMemo(e));
    assert PostEvent(s, e, on).books.journal == o.books.journal;
  }

  lemma PaymentTells(s: Books, a: Action)
    requires a.DoBuyerPaid? || a.DoWalletSpend? || a.DoRefund?
    ensures EntryTells(s, a)
  {
  }

  lemma ReleaseTells(s: Books, a: Action)
    requires a.DoDelivery? || a.DoCodReconciled?
    ensures EntryTells(s, a)
  {
  }

  lemma CorrectionTells(s: Books, a: Action)
    requires a.DoReverse? || a.DoReserve? || a.DoFx?
    ensures EntryTells(s, a)
  {
  }

  lemma SweepTells(s: Books, a: Action)
    requires a.DoRecognise? || a.DoAmortise?
    ensures EntryTells(s, a)
  {
  }

  lemma DecisionTells(s: Books, a: Action)
    requires a.DoPayout? || a.DoDecideManual?
    ensures EntryTells(s, a)
  {
  }

  /** Every entry is dated as its call asked and tells by its type and flags which kind of call posted it, which
      entry it reverses, and who posted and approved it. */
  lemma EveryEntryTells(s: Books, a: Action)
    requires !(a.DoEvent? && a.event.Direct?)
    ensures EntryTells(s, a)
  {
    if a.DoEvent? {
      EventTells(s, a.event, a.on);
    } else if a.DoBuyerPaid? || a.DoWalletSpend? || a.DoRefund? {
      PaymentTells(s, a);
    } else if a.DoDelivery? || a.DoCodReconciled? {
      ReleaseTells(s, a);
    } else if a.DoReverse? || a.DoReserve? || a.DoFx? {
      CorrectionTells(s, a);
    } else if a.DoRecognise? || a.DoAmortise? {
      SweepTells(s, a);
    } else if a.DoPayout? || a.DoDecideManual? {
      DecisionTells(s, a);
    }
  }
}
