/** The state of the accounting engine and what each service call does to it.

    A table is the sequence of its rows in primary-key order. An `Outcome` carries the state a
    call leaves behind and the error it raised, if any: a call that is not wrapped in a
    transaction may raise after part of its work has been committed. */
module Books {
  import opened Common
  import opened Money
  import opened Chart
  import opened AuditChain
  import opened Journal
  import opened Statements

  type OrderId = string

  datatype EscrowStatus = Held | Releasable | Released | ClawedBack | PartiallyClawed
  datatype EscrowRow = EscrowRow(order: OrderId, seller: Option<UserId>, gross: int, commission: int,
                                 net: int, refunded: int, status: EscrowStatus)

  datatype PayableStatus = Accrued | Adjusting | Paid | Disputed
  datatype PayableRow = PayableRow(seller: UserId, order: OrderId, gross: int, commission: int, net: int,
                                   adjustments: int, batch: Option<string>, status: PayableStatus)

  datatype DeferredRow = DeferredRow(seller: UserId, total: int, recognised: int, monthsTotal: nat,
                                     monthsRecognised: nat, revenueAccount: int, active: bool)

  datatype AssetStatus = Capitalising | Live | Impaired | FullyAmortised
  datatype AssetRow = AssetRow(capitalised: int, amortised: int, life: nat, status: AssetStatus)

  datatype ManualStatus = Pending | Rejected | Posted
  datatype ManualRow = ManualRow(date: Date, lines: seq<Line>, requestedBy: UserId,
                                 approvedBy: Option<UserId>, status: ManualStatus, entry: Option<nat>)

  datatype Snapshot = Snapshot(pnl: Pnl, assets: int, liabilities: int, equity: int, balanced: bool)

  datatype Books = Books(
    hash: Digest<Payload>,
    stamps: nat -> Stamp,   // the key and time the n-th entry gets, if it is posted
    accounts: set<int>,
    journal: seq<Entry>,
    locks: map<Period, bool>,
    escrow: seq<EscrowRow>,
    payables: seq<PayableRow>,
    receivables: seq<Receivable>,
    deferred: seq<DeferredRow>,
    assets: seq<AssetRow>,
    manual: seq<ManualRow>,
    snapshots: map<Period, Snapshot>)

  /** Money owed to the platform. */
  datatype Receivable = Receivable(debtor: Option<UserId>, amount: int, order: OrderId)

  datatype Outcome = Outcome(books: Books, error: Option<Error>)

  function Done(s: Books): Outcome { Outcome(s, None) }
  function Fail(s: Books, e: Error): Outcome { Outcome(s, Some(e)) }

  // ---- The posting engine -------------------------------------------------------------------

  /** The only writer of journal entries. */
  function Post(s: Books, date: Date, lines: seq<Line>, memo: Memo): Outcome {
    var error := PostingError(s.accounts, s.locks, date, lines);
    if error.Some? then Fail(s, error.value)
    else Done(s.(journal := s.journal + [SealedEntry(s.hash, s.stamps(|s.journal|), s.journal, date, lines, memo)]))
  }

  /** A reversal swaps the sides; it keeps neither the party nor the currency of a line. */
  function MirrorLine(l: Line): Line {
    Line(l.account, l.credit, l.debit, None, "reversal: " + l.description, HOME_CURRENCY)
  }

  function Mirror(lines: seq<Line>): seq<Line> {
    seq(|lines|, i requires 0 <= i < |lines| => MirrorLine(lines[i]))
  }

  function ReverseEntry(s: Books, i: nat, poster: Option<UserId>, today: Date): Outcome {
    if i >= |s.journal| then Fail(s, RowMissing)
    else Post(s, today, Mirror(s.journal[i].lines),
              Memo("Reversal", Reversal, ForEntry(i), poster, None, false, true, Some(i)))
  }

  // ---- Events that post one entry ---------------------------------------------------------------

  datatype Event =
    | PspFee(order: OrderId, gross: int, fee: int)
    | WalletTopUp(user: UserId, amount: int, cash: int)
    | P2p(sender: UserId, recipient: UserId, amount: int, transfer: string)
    | CodCollected(order: OrderId, amount: int)
    | CodRemitted(order: OrderId, amount: int)
    | CourierShortfall(courier: Option<UserId>, order: OrderId, deposited: int, expected: int)
    | Chargeback(order: OrderId, amount: int, seller: Option<UserId>, released: bool)
    | PlatformVoucher(order: OrderId, buyerPaid: int, subsidy: int)
    | IvaOnCommission(order: OrderId, commission: int)
    | Direct(lines: seq<Line>, memo: Memo)   // any other caller of the posting engine

  function EventLines(e: Event): seq<Line> {
    match e
    case PspFee(_, gross, fee) => [Dr(5000, fee), Dr(1000, gross - fee), Cr(1020, gross)]
    case WalletTopUp(user, amount, cash) => [Dr(cash, amount), CrOf(2010, amount, Some(user))]
    case P2p(sender, recipient, amount, _) => [DrOf(2010, amount, Some(sender)), CrOf(2010, amount, Some(recipient))]
    case CodCollected(_, amount) => [Dr(1030, amount), Cr(2060, amount)]
    case CodRemitted(_, amount) => [Dr(1000, amount), Cr(1030, amount)]
    case CourierShortfall(courier, _, deposited, expected) =>
      [Dr(1000, deposited), DrOf(1101, expected - deposited, courier), Cr(1030, expected)]
    case Chargeback(_, amount, seller, released) =>
      [DrOf(if released then 2020 else 2000, amount, seller), Cr(1000, amount)]
    case PlatformVoucher(_, buyerPaid, subsidy) =>
      [Dr(1020, buyerPaid), Dr(6020, subsidy), Cr(2000, buyerPaid + subsidy)]
    case IvaOnCommission(_, commission) =>
      var iva := RoundHalfUp(commission * IVA_RATE_BPS, BPS);
      [Dr(2000, iva), Cr(2030, iva)]
    case Direct(lines, _) => lines
  }

  function EventMemo(e: Event): Memo {
    match e
    case PspFee(order, _, _) => AutoMemo("PSP settlement", ForOrder(order))
    case WalletTopUp(user, _, _) => AutoMemo("Wallet top-up", ForTopUp(user))
    case P2p(_, _, _, transfer) => AutoMemo("P2P transfer", ForTransfer(transfer))
    case CodCollected(order, _) => AutoMemo("COD collected", ForOrder(order))
    case CodRemitted(order, _) => AutoMemo("COD remitted", ForOrder(order))
    case CourierShortfall(_, order, _, _) => AutoMemo("COD shortfall", ForOrder(order))
    case Chargeback(order, _, _, _) => AutoMemo("Chargeback", ForOrder(order))
    case PlatformVoucher(order, _, _) => AutoMemo("Platform voucher", ForOrder(order))
    case IvaOnCommission(order, _) => AutoMemo("IVA on commission", ForIva(order))
    case Direct(_, memo) => memo
  }

  /** What an event adds to the receivables: a courier who deposits too little owes the rest. */
  function ReceivablesOf(e: Event): seq<Receivable> {
    match e
    case CourierShortfall(courier, order, deposited, expected) => [Receivable(courier, expected - deposited, order)]
    case _ => []
  }

  function PostEvent(s: Books, e: Event, date: Date): Outcome {
    var o := Post(s, date, EventLines(e), EventMemo(e));
    if o.error.Some? then o else Done(o.books.(receivables := s.receivables + ReceivablesOf(e)))
  }

  /** Moves the dispute reserve (2050) to the expected loss. */
  function AdjustReserve(s: Books, expected: int, date: Date): Outcome {
    var adjustment := expected - AccountBalance(2050, None, s.journal);
    var memo := Memo("Dispute reserve", Accrual, ForReserve(date), None, None, true, false, None);
    if adjustment > 0 then Post(s, date, [Dr(5020, adjustment), Cr(2050, adjustment)], memo)
    else if adjustment < 0 then Post(s, date, [Dr(2050, -adjustment), Cr(4990, -adjustment)], memo)
    else Done(s)
  }

  /** Posts an unrealised currency gain or loss already rounded to cents. */
  function FxRevaluation(s: Books, gain: int, currency: string, date: Date): Outcome {
    var memo := Memo("FX revaluation", Accrual, ForFx(currency, date), None, None, true, false, None);
    if gain > 0 then Post(s, date, [Dr(2099, gain), Cr(7000, gain)], memo)
    else if gain < 0 then Post(s, date, [Dr(7000, -gain), Cr(2099, -gain)], memo)
    else Done(s)
  }

  // ---- Escrow -------------------------------------------------------------------------------

  function FindOrder(rows: seq<EscrowRow>, order: OrderId): (r: Option<nat>)
    ensures r.Some? ==> r.value < |rows| && rows[r.value].order == order
    ensures r.None? ==> forall i :: 0 <= i < |rows| ==> rows[i].order != order
  {
    if rows == [] then None
    else if FindOrder(rows[..|rows| - 1], order).Some? then FindOrder(rows[..|rows| - 1], order)
    else if rows[|rows| - 1].order == order then Some(|rows| - 1)
    else None
  }

  function NewEscrow(order: OrderId, seller: Option<UserId>, gross: int): EscrowRow {
    EscrowRow(order, seller, gross, 0, 0, 0, Held)
  }

  function BuyerPaid(s: Books, order: OrderId, gross: int, seller: Option<UserId>, cash: int, date: Date): Outcome {
    if FindOrder(s.escrow, order).Some? then Done(s)
    else
      var o := Post(s, date, [Dr(cash, gross), Cr(2000, gross)], AutoMemo("Buyer paid", ForOrder(order)));
      if o.error.Some? then o
      else Done(o.books.(escrow := s.escrow + [NewEscrow(order, seller, gross)]))
  }

  function WalletSpend(s: Books, user: UserId, order: OrderId, amount: int, seller: Option<UserId>,
                       date: Date): Outcome {
    var o := Post(s, date, [DrOf(2010, amount, Some(user)), Cr(2000, amount)],
                  AutoMemo("Wallet spend", ForOrder(order)));
    if o.error.Some? || FindOrder(s.escrow, order).Some? then o
    else Done(o.books.(escrow := s.escrow + [NewEscrow(order, seller, amount)]))
  }

  /** Commission and seller credit for an amount: the revenue-recognition lines. */
  function RecognitionLines(source: int, amount: int, rate: int, seller: Option<UserId>): seq<Line> {
    var comm := Commission(amount, rate);
    [Dr(source, amount), Cr(4000, comm), CrOf(2020, amount - comm, seller)]
  }

  function NewPayable(seller: UserId, order: OrderId, gross: int, rate: int): PayableRow {
    PayableRow(seller, order, gross, Commission(gross, rate), gross - Commission(gross, rate), 0, None, Accrued)
  }

  /** Atomic: a missing seller undoes the posting as well. */
  function DeliveryConfirmed(s: Books, order: OrderId, rate: int, date: Date): Outcome {
    var found := FindOrder(s.escrow, order);
    if found.None? then Fail(s, RowMissing)
    else
      var el := s.escrow[found.value];
      if el.status == Released then Done(s)
      else
        var o := Post(s, date, RecognitionLines(2000, el.gross, rate, el.seller),
                      AutoMemo("Escrow release", ForOrder(order)));
        if o.error.Some? then o
        else if el.seller.None? then Fail(s, SellerMissing)
        else
          var comm := Commission(el.gross, rate);
          Done(o.books.(
            escrow := s.escrow[found.value := el.(commission := comm, net := el.gross - comm, status := Released)],
            payables := s.payables + [NewPayable(el.seller.value, order, el.gross, rate)]))
  }

  /** Not atomic: the journal entry stays when the payable row cannot be stored. */
  function CodReconciled(s: Books, order: OrderId, amount: int, seller: Option<UserId>, rate: int,
                         date: Date): Outcome {
    var o := Post(s, date, RecognitionLines(2060, amount, rate, seller), AutoMemo("COD reconciled", ForOrder(order)));
    if o.error.Some? then o
    else if seller.None? then Fail(o.books, SellerMissing)
    else Done(o.books.(payables := s.payables + [NewPayable(seller.value, order, amount, rate)]))
  }

  datatype RefundTarget = ToWallet | ToBank

  function RefundLines(released: bool, amount: int, target: RefundTarget, user: Option<UserId>,
                       seller: Option<UserId>): seq<Line> {
    [DrOf(if released then 2020 else 2000, amount, if released then seller else None),
     CrOf(if target == ToWallet then 2010 else 2040, amount, if target == ToWallet then user else None)]
  }

  /** Whether a refund is drawn on the seller payable: told by the caller, or read off the escrow row. */
  function DrawsOnSeller(rows: seq<EscrowRow>, order: OrderId, told: Option<bool>): bool {
    if told.Some? then told.value
    else FindOrder(rows, order).Some? && rows[FindOrder(rows, order).value].status == Released
  }

  function Refund(s: Books, order: OrderId, amount: int, target: RefundTarget, user: Option<UserId>,
                  told: Option<bool>, seller: Option<UserId>, date: Date): Outcome {
    var found := FindOrder(s.escrow, order);
    var o := Post(s, date, RefundLines(DrawsOnSeller(s.escrow, order, told), amount, target, user, seller),
                  AutoMemo("Refund", ForOrder(order)));
    if o.error.Some? || found.None? then o
    else
      var el := s.escrow[found.value];
      var refunded := el.refunded + amount;
      Done(o.books.(escrow := s.escrow[found.value :=
        el.(refunded := refunded, status := if refunded >= el.gross then ClawedBack else PartiallyClawed)]))
  }

  // ---- Seller payout ------------------------------------------------------------------------

  predicate Due(r: PayableRow, seller: UserId) {
    r.seller == seller && r.status == Accrued
  }

  function DueAmount(r: PayableRow, seller: UserId): int {
    if Due(r, seller) then r.net + r.adjustments else 0
  }

  function DueAmounts(rows: seq<PayableRow>, seller: UserId): seq<int> {
    seq(|rows|, i requires 0 <= i < |rows| => DueAmount(rows[i], seller))
  }

  function PayableTotal(rows: seq<PayableRow>, seller: UserId): int {
    Sum(DueAmounts(rows, seller))
  }

  function MarkPaid(rows: seq<PayableRow>, seller: UserId, batch: string): seq<PayableRow> {
    seq(|rows|, i requires 0 <= i < |rows| =>
      if Due(rows[i], seller) then rows[i].(status := Paid, batch := Some(batch)) else rows[i])
  }

  function SellerPayout(s: Books, seller: UserId, batch: string, date: Date): Outcome {
    var total := PayableTotal(s.payables, seller);
    if total <= 0 then Done(s)   // also the outcome when no row is due
    else
      var o := Post(s, date, [DrOf(2020, total, Some(seller)), Cr(1000, total)],
                    AutoMemo("Seller payout", ForBatch(batch)));
      if o.error.Some? then o
      else Done(o.books.(payables := MarkPaid(s.payables, seller, batch)))
  }

  // ---- Monthly sweeps -----------------------------------------------------------------------

  /** The amount one deferred row recognises this month; the last month takes the remainder. */
  function MonthlyRecognition(d: DeferredRow): int
    requires d.monthsRecognised < d.monthsTotal
  {
    if d.monthsRecognised == d.monthsTotal - 1 then d.total - d.recognised else d.total / d.monthsTotal
  }

  function RecogniseRow(s: Books, i: nat, date: Date): (o: Outcome)
    ensures |o.books.deferred| == |s.deferred|
  {
    if i >= |s.deferred| then Fail(s, RowMissing)
    else
      var d := s.deferred[i];
      if !d.active then Done(s)
      else if d.monthsRecognised >= d.monthsTotal then Done(s.(deferred := s.deferred[i := d.(active := false)]))
      else
        var monthly := MonthlyRecognition(d);
        var o := Post(s, date, [Dr(2100, monthly), CrOf(d.revenueAccount, monthly, Some(d.seller))],
                      AutoMemo("Recognise deferred revenue", ForDeferred(i)));
        if o.error.Some? then o
        else
          var months := d.monthsRecognised + 1;
          Done(o.books.(deferred := s.deferred[i :=
            d.(recognised := d.recognised + monthly, monthsRecognised := months, active := months < d.monthsTotal)]))
  }

  function NetBookValue(a: AssetRow): int {
    a.capitalised - a.amortised
  }

  function MonthlyAmortisation(a: AssetRow): int
    requires a.life > 0
  {
    if a.capitalised / a.life < NetBookValue(a) then a.capitalised / a.life else NetBookValue(a)
  }

  function AmortiseRow(s: Books, i: nat, date: Date): (o: Outcome)
    ensures |o.books.assets| == |s.assets|
  {
    if i >= |s.assets| then Fail(s, RowMissing)
    else
      var a := s.assets[i];
      if a.status != Live then Done(s)
      else if a.life == 0 then Fail(s, DivisionByZero)
      else
        var monthly := MonthlyAmortisation(a);
        if monthly <= 0 then Done(s.(assets := s.assets[i := a.(status := FullyAmortised)]))
        else
          var o := Post(s, date, [Dr(6011, monthly), Cr(1450, monthly)], AutoMemo("Amortise", ForAsset(i)));
          if o.error.Some? then o
          else
            var a' := a.(amortised := a.amortised + monthly);
            Done(o.books.(assets := s.assets[i := if NetBookValue(a') <= 0 then a'.(status := FullyAmortised) else a']))
  }

  /** A sweep commits row by row and stops at the first row that raises. */
  function RecogniseFrom(s: Books, i: nat, date: Date): Outcome
    requires i <= |s.deferred|
    decreases |s.deferred| - i
  {
    if i == |s.deferred| then Done(s)
    else
      var o := RecogniseRow(s, i, date);
      if o.error.Some? then o else RecogniseFrom(o.books, i + 1, date)
  }

  function AmortiseFrom(s: Books, i: nat, date: Date): Outcome
    requires i <= |s.assets|
    decreases |s.assets| - i
  {
    if i == |s.assets| then Done(s)
    else
      var o := AmortiseRow(s, i, date);
      if o.error.Some? then o else AmortiseFrom(o.books, i + 1, date)
  }

  // ---- Periods and statements ---------------------------------------------------------------

  function LockPeriod(s: Books, p: Period): Books {
    s.(locks := s.locks[p := true])
  }

  function UnlockPeriod(s: Books, p: Period): Books {
    if p in s.locks then s.(locks := s.locks[p := false]) else s
  }

  function SnapshotOf(p: Period, j: seq<Entry>): Snapshot {
    var bs := BalanceSheet(Some(SnapshotEnd(p)), j);
    Snapshot(ProfitAndLoss(p, j), bs.assets, bs.liabilities, bs.equity, bs.balanced)
  }

  function SnapshotFinancials(s: Books, p: Period): Books {
    s.(snapshots := s.snapshots[p := SnapshotOf(p, s.journal)])
  }

  function MonthEndClose(s: Books, p: Period, lock: bool): Books {
    if lock then LockPeriod(SnapshotFinancials(s, p), p) else SnapshotFinancials(s, p)
  }

  // ---- Manual entries: one admin requests, another one decides --------------------------------

  function RequestManual(s: Books, date: Date, lines: seq<Line>, requester: UserId): Outcome {
    if TotalDebit(lines) != TotalCredit(lines) then Fail(s, UnbalancedJournal)
    else if TotalDebit(lines) == 0 then Fail(s, EmptyJournal)
    else Done(s.(manual := s.manual + [ManualRow(date, lines, requester, None, Pending, None)]))
  }

  /** The lines an approval posts: the requested accounts, amounts and texts, without a party and in the
      home currency. */
  function Unattributed(lines: seq<Line>): seq<Line> {
    seq(|lines|, i requires 0 <= i < |lines| => lines[i].(party := None, currency := HOME_CURRENCY))
  }

  function ManualMemo(i: nat, requester: UserId, approver: UserId): Memo {
    Memo("Manual entry", Manual, NoSource, Some(requester), Some(approver), false, false, None)
  }

  function DecideManual(s: Books, i: nat, approver: UserId, accept: bool): Outcome {
    if i >= |s.manual| then Fail(s, RowMissing)
    else
      var m := s.manual[i];
      if m.status != Pending then Fail(s, AlreadyDecided)
      else if m.requestedBy == approver then Fail(s, SelfApproval)
      else if !accept then Done(s.(manual := s.manual[i := m.(status := Rejected, approvedBy := Some(approver))]))
      else
        var o := Post(s, m.date, Unattributed(m.lines), ManualMemo(i, m.requestedBy, approver));
        if o.error.Some? then o
        else Done(o.books.(manual := s.manual[i :=
          m.(status := Posted, approvedBy := Some(approver), entry := Some(|s.journal|))]))
  }

  // ---- All calls as one alphabet ------------------------------------------------------------

  datatype Action =
    | DoEvent(event: Event, on: Date)
    | DoReverse(original: nat, poster: Option<UserId>, on: Date)
    | DoReserve(expected: int, on: Date)
    | DoFx(gain: int, currency: string, on: Date)
    | DoBuyerPaid(order: OrderId, amount: int, seller: Option<UserId>, cash: int, on: Date)
    | DoWalletSpend(user: UserId, order: OrderId, amount: int, seller: Option<UserId>, on: Date)
    | DoDelivery(order: OrderId, rate: int, on: Date)
    | DoCodReconciled(order: OrderId, amount: int, seller: Option<UserId>, rate: int, on: Date)
    | DoRefund(order: OrderId, amount: int, target: RefundTarget, buyer: Option<UserId>, told: Option<bool>,
               seller: Option<UserId>, on: Date)
    | DoPayout(payee: UserId, batch: string, on: Date)
    | DoRecognise(row: nat, on: Date)
    | DoAmortise(row: nat, on: Date)
    | DoLock(period: Period)
    | DoUnlock(period: Period)
    | DoSnapshot(period: Period)
    | DoRequestManual(on: Date, lines: seq<Line>, requester: UserId)
    | DoDecideManual(row: nat, approver: UserId, accept: bool)

  function Step(s: Books, a: Action): Outcome {
    match a
    case DoEvent(e, on) => PostEvent(s, e, on)
    case DoReverse(i, poster, on) => ReverseEntry(s, i, poster, on)
    case DoReserve(expected, on) => AdjustReserve(s, expected, on)
    case DoFx(gain, currency, on) => FxRevaluation(s, gain, currency, on)
    case DoBuyerPaid(order, amount, seller, cash, on) => BuyerPaid(s, order, amount, seller, cash, on)
    case DoWalletSpend(user, order, amount, seller, on) => WalletSpend(s, user, order, amount, seller, on)
    case DoDelivery(order, rate, on) => DeliveryConfirmed(s, order, rate, on)
    case DoCodReconciled(order, amount, seller, rate, on) => CodReconciled(s, order, amount, seller, rate, on)
    case DoRefund(order, amount, target, buyer, told, seller, on) =>
      Refund(s, order, amount, target, buyer, told, seller, on)
    case DoPayout(payee, batch, on) => SellerPayout(s, payee, batch, on)
    case DoRecognise(i, on) => RecogniseRow(s, i, on)
    case DoAmortise(i, on) => AmortiseRow(s, i, on)
    case DoLock(p) => Done(LockPeriod(s, p))
    case DoUnlock(p) => Done(UnlockPeriod(s, p))
    case DoSnapshot(p) => Done(SnapshotFinancials(s, p))
    case DoRequestManual(on, lines, requester) => RequestManual(s, on, lines, requester)
    case DoDecideManual(i, approver, accept) => DecideManual(s, i, approver, accept)
  }

  /** A run: every call sees the state the previous one left, whether or not that one raised. */
  function Run(s: Books, actions: seq<Action>): Books {
    if actions == [] then s else Step(Run(s, actions[..|actions| - 1]), actions[|actions| - 1]).books
  }

  lemma RunAppend(s: Books, actions: seq<Action>, a: Action)
    ensures Run(s, actions + [a]) == Step(Run(s, actions), a).books
  {
    assert (actions + [a])[..|actions|] == actions;
  }
}
