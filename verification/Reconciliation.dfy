/** The escrow and seller-payable sub-ledgers against their parent accounts 2000 and 2020. */
module Reconciliation {
  import opened Common
  import opened Money
  import opened Chart
  import opened Journal
  import opened Books

  // ---- The two differences a reconciliation reports -------------------------------------------

  function HeldAmount(r: EscrowRow): int {
    if r.status == Held || r.status == Releasable then r.gross else 0
  }

  function HeldAmounts(rows: seq<EscrowRow>): seq<int> {
    seq(|rows|, i requires 0 <= i < |rows| => HeldAmount(rows[i]))
  }

  function PayableAmount(r: PayableRow, scope: Scope): int {
    if (r.status == Accrued || r.status == Adjusting) && InScope(scope, Some(r.seller)) then r.net else 0
  }

  function PayableAmounts(rows: seq<PayableRow>, scope: Scope): seq<int> {
    seq(|rows|, i requires 0 <= i < |rows| => PayableAmount(rows[i], scope))
  }

  /** Sub-ledger total minus the natural balance of account 2000. */
  function EscrowGap(s: Books): int {
    Sum(HeldAmounts(s.escrow)) + Net(OfParty(2000, Everyone), s.journal)
  }

  /** Sub-ledger total minus the natural balance of account 2020, over everyone or for one party. */
  function PayableGap(s: Books, scope: Scope): int {
    Sum(PayableAmounts(s.payables, scope)) + Net(OfParty(2020, scope), s.journal)
  }

  datatype Recon = Recon(subLedger: int, glBalance: int, difference: int, balanced: bool)

  /** A sub-ledger total against the natural balance of its parent account. */
  function Compared(subLedger: int, glBalance: int): Recon {
    Recon(subLedger, glBalance, subLedger - glBalance, subLedger == glBalance)
  }

  /** The escrow half of a reconciliation: adds up the open rows; its difference is the escrow gap. */
  method ReconcileEscrow(rows: seq<EscrowRow>, j: seq<Entry>) returns (r: Recon)
    ensures r == Compared(Sum(HeldAmounts(rows)), -Net(OfParty(2000, Everyone), j))
  {
    var amounts := HeldAmounts(rows);
    var total := 0;
    for i := 0 to |rows|
      invariant total == Sum(amounts[..i])
    {
      SumNext(amounts, i);
      if rows[i].status in {Held, Releasable} {
        total := total + rows[i].gross;
      }
    }
    assert amounts[..|rows|] == amounts;
    r := RecordRecon(2000, total, j);
  }

  method ReconcilePayables(rows: seq<PayableRow>, j: seq<Entry>) returns (r: Recon)
    ensures r == Compared(Sum(PayableAmounts(rows, Everyone)), -Net(OfParty(2020, Everyone), j))
  {
    var amounts := PayableAmounts(rows, Everyone);
    var total := 0;
    for i := 0 to |rows|
      invariant total == Sum(amounts[..i])
    {
      SumNext(amounts, i);
      if rows[i].status in {Accrued, Adjusting} {
        total := total + rows[i].net;
      }
    }
    assert amounts[..|rows|] == amounts;
    r := RecordRecon(2020, total, j);
  }

  method RecordRecon(code: int, subTotal: int, j: seq<Entry>) returns (r: Recon)
    requires code == 2000 || code == 2020
    ensures r == Compared(subTotal, -Net(OfParty(code, Everyone), j))
  {
    var balance := AccountBalance(code, None, j);
    r := Recon(subTotal, balance, subTotal - balance, subTotal - balance == 0);
  }

  // ---- How postings and table updates move the gaps --------------------------------------------

  /** One entry with the given lines was appended. */
  ghost predicate Appends(s: Books, s': Books, lines: seq<Line>) {
    && |s'.journal| == |s.journal| + 1
    && s.journal <= s'.journal
    && s'.journal[|s.journal|].lines == lines
  }

  lemma PostAppends(s: Books, date: Date, lines: seq<Line>, memo: Memo)
    requires Post(s, date, lines, memo).error.None?
    ensures Appends(s, Post(s, date, lines, memo).books, lines)
  {
  }

  /** A posting moves an account by the net of its lines. */
  lemma AppendMoves(s: Books, s': Books, lines: seq<Line>, q: Query)
    requires Appends(s, s', lines) && q.period.None? && q.asOf.None?
    ensures Net(q, s'.journal) == Net(q, s.journal) + LinesNet(q, lines)
  {
    assert s'.journal == s.journal + [s'.journal[|s.journal|]];
    NetAppend(q, s.journal, s'.journal[|s.journal|]);
  }

  lemma PairNet(q: Query, a: Line, b: Line)
    ensures LinesNet(q, [a, b]) == LineNet(q, a) + LineNet(q, b)
  {
    assert [a, b][..1] == [a] && [a][..0] == [];
    assert LinesNet(q, [a]) == LineNet(q, a);
  }

  lemma TripleNet(q: Query, a: Line, b: Line, c: Line)
    ensures LinesNet(q, [a, b, c]) == LineNet(q, a) + LineNet(q, b) + LineNet(q, c)
  {
    assert [a, b, c][..2] == [a, b];
    PairNet(q, a, b);
  }

  lemma EscrowAppended(rows: seq<EscrowRow>, r: EscrowRow)
    ensures Sum(HeldAmounts(rows + [r])) == Sum(HeldAmounts(rows)) + HeldAmount(r)
  {
    assert HeldAmounts(rows + [r]) == HeldAmounts(rows) + [HeldAmount(r)];
    SumAppend(HeldAmounts(rows), HeldAmount(r));
  }

  lemma EscrowUpdated(rows: seq<EscrowRow>, i: nat, r: EscrowRow)
    requires i < |rows|
    ensures Sum(HeldAmounts(rows[i := r])) == Sum(HeldAmounts(rows)) - HeldAmount(rows[i]) + HeldAmount(r)
  {
    assert HeldAmounts(rows[i := r]) == HeldAmounts(rows)[i := HeldAmount(r)];
    SumUpdate(HeldAmounts(rows), i, HeldAmount(r));
  }

  lemma PayableAppended(rows: seq<PayableRow>, r: PayableRow, scope: Scope)
    ensures Sum(PayableAmounts(rows + [r], scope)) == Sum(PayableAmounts(rows, scope)) + PayableAmount(r, scope)
  {
    assert PayableAmounts(rows + [r], scope) == PayableAmounts(rows, scope) + [PayableAmount(r, scope)];
    SumAppend(PayableAmounts(rows, scope), PayableAmount(r, scope));
  }

  function Adjustment(r: PayableRow, seller: UserId): int {
    if Due(r, seller) then r.adjustments else 0
  }

  function Adjustments(rows: seq<PayableRow>, seller: UserId): seq<int> {
    seq(|rows|, i requires 0 <= i < |rows| => Adjustment(rows[i], seller))
  }

  /** A payout pays the due rows including their adjustments, but the sub-ledger carries only nets. */
  lemma PayoutMoves(rows: seq<PayableRow>, seller: UserId, batch: string, scope: Scope)
    ensures Sum(PayableAmounts(rows, scope)) - Sum(PayableAmounts(MarkPaid(rows, seller, batch), scope))
         == if InScope(scope, Some(seller)) then PayableTotal(rows, seller) - Sum(Adjustments(rows, seller)) else 0
  {
    var before, after := PayableAmounts(rows, scope), PayableAmounts(MarkPaid(rows, seller, batch), scope);
    if InScope(scope, Some(seller)) {
      var nets := seq(|rows|, i requires 0 <= i < |rows| => if Due(rows[i], seller) then rows[i].net else 0);
      SumPointwise(before, after, nets);
      SumPointwise(DueAmounts(rows, seller), nets, Adjustments(rows, seller));
    } else {
      assert before == after;
    }
  }

  // ---- How far each call drives a sub-ledger from its account ------------------------------------

  predicate IsHeld(rows: seq<EscrowRow>, order: OrderId) {
    var found := FindOrder(rows, order);
    found.Some? && rows[found.value].status in {Held, Releasable}
  }

  function GrossOf(rows: seq<EscrowRow>, order: OrderId): int {
    var found := FindOrder(rows, order);
    if found.Some? then rows[found.value].gross else 0
  }

  /** The credit a monthly recognition sends to `code`, when the row posts at all. */
  function RecognisedTo(s: Books, i: nat, code: int, scope: Scope): int {
    if i < |s.deferred| && s.deferred[i].active && s.deferred[i].monthsRecognised < s.deferred[i].monthsTotal
       && s.deferred[i].revenueAccount == code && InScope(scope, Some(s.deferred[i].seller))
    then MonthlyRecognition(s.deferred[i]) else 0
  }

  /** The amount by which a call that goes through moves the escrow gap. */
  function EscrowDrift(s: Books, a: Action): int {
    var q := OfParty(2000, Everyone);
    match a
    case DoEvent(e, _) => LinesNet(q, EventLines(e))
    case DoReverse(i, _, _) => if i < |s.journal| then LinesNet(q, Mirror(s.journal[i].lines)) else 0
    case DoBuyerPaid(order, amount, _, cash, _) =>
      if FindOrder(s.escrow, order).None? && cash == 2000 then amount else 0
    case DoWalletSpend(_, order, amount, _, _) => if FindOrder(s.escrow, order).Some? then -amount else 0
    case DoDelivery(order, _, _) =>
      var found := FindOrder(s.escrow, order);
      if found.Some? && s.escrow[found.value].status in {ClawedBack, PartiallyClawed} then s.escrow[found.value].gross
      else 0
    case DoRefund(order, amount, _, _, told, _, _) =>
      (if DrawsOnSeller(s.escrow, order, told) then 0 else amount)
      - (if IsHeld(s.escrow, order) then GrossOf(s.escrow, order) else 0)
    case DoRecognise(i, _) => -RecognisedTo(s, i, 2000, Everyone)
    case DoDecideManual(i, _, accept) =>
      if i < |s.manual| && accept then LinesNet(q, Unattributed(s.manual[i].lines)) else 0
    case _ => 0
  }

  /** The amount by which a call that goes through moves the payable gap of a scope. */
  function PayableDrift(s: Books, a: Action, scope: Scope): int {
    var q := OfParty(2020, scope);
    match a
    case DoEvent(e, _) => LinesNet(q, EventLines(e))
    case DoReverse(i, _, _) => if i < |s.journal| then LinesNet(q, Mirror(s.journal[i].lines)) else 0
    case DoBuyerPaid(order, amount, _, cash, _) =>
      if FindOrder(s.escrow, order).None? && cash == 2020 && InScope(scope, None) then amount else 0
    case DoRefund(order, amount, _, _, told, seller, _) =>
      if DrawsOnSeller(s.escrow, order, told) && InScope(scope, seller) then amount else 0
    case DoPayout(payee, _, _) =>
      if PayableTotal(s.payables, payee) > 0 && InScope(scope, Some(payee)) then Sum(Adjustments(s.payables, payee))
      else 0
    case DoRecognise(i, _) => -RecognisedTo(s, i, 2020, scope)
    case DoDecideManual(i, _, accept) =>
      if i < |s.manual| && accept then LinesNet(q, Unattributed(s.manual[i].lines)) else 0
    case _ => 0
  }

  /** From `s` to `s'` the escrow gap moved by `escrow` and the payable gap of the scope by `payable`. */
  ghost predicate Moved(s: Books, s': Books, scope: Scope, escrow: int, payable: int) {
    (EscrowGap(s'), PayableGap(s', scope)) == (EscrowGap(s) + escrow, PayableGap(s, scope) + payable)
  }

  /** A posting combined with table updates of known size moves the gaps by their sum. */
  lemma MovesAddUp(s: Books, s': Books, lines: seq<Line>, scope: Scope, escrowRows: int, payableRows: int)
    requires Appends(s, s', lines)
    requires Sum(HeldAmounts(s'.escrow)) == Sum(HeldAmounts(s.escrow)) + escrowRows
    requires Sum(PayableAmounts(s'.payables, scope)) == Sum(PayableAmounts(s.payables, scope)) + payableRows
    ensures Moved(s, s', scope, escrowRows + LinesNet(OfParty(2000, Everyone), lines),
                  payableRows + LinesNet(OfParty(2020, scope), lines))
  {
    AppendMoves(s, s', lines, OfParty(2000, Everyone));
    AppendMoves(s, s', lines, OfParty(2020, scope));
  }

  lemma PairMoves(s: Books, s': Books, d: Line, c: Line, scope: Scope, escrowRows: int, payableRows: int)
    requires Appends(s, s', [d, c])
    requires Sum(HeldAmounts(s'.escrow)) == Sum(HeldAmounts(s.escrow)) + escrowRows
    requires Sum(PayableAmounts(s'.payables, scope)) == Sum(PayableAmounts(s.payables, scope)) + payableRows
    ensures Moved(s, s', scope, escrowRows + LineNet(OfParty(2000, Everyone), d) + LineNet(OfParty(2000, Everyone), c),
                  payableRows + LineNet(OfParty(2020, scope), d) + LineNet(OfParty(2020, scope), c))
  {
    MovesAddUp(s, s', [d, c], scope, escrowRows, payableRows);
    PairNet(OfParty(2000, Everyone), d, c);
    PairNet(OfParty(2020, scope), d, c);
  }

  lemma RecognitionMoves(s: Books, s': Books, source: int, amount: int, rate: int, seller: Option<UserId>,
                         scope: Scope, escrowRows: int, payableRows: int)
    requires source == 2000 || source == 2060
    requires Appends(s, s', RecognitionLines(source, amount, rate, seller))
    requires Sum(HeldAmounts(s'.escrow)) == Sum(HeldAmounts(s.escrow)) + escrowRows
    requires Sum(PayableAmounts(s'.payables, scope)) == Sum(PayableAmounts(s.payables, scope)) + payableRows
    ensures Moved(s, s', scope, escrowRows + (if source == 2000 then amount else 0),
                  payableRows - (if InScope(scope, seller) then amount - Commission(amount, rate) else 0))
  {
    var lines := RecognitionLines(source, amount, rate, seller);
    MovesAddUp(s, s', lines, scope, escrowRows, payableRows);
    TripleNet(OfParty(2000, Everyone), lines[0], lines[1], lines[2]);
    TripleNet(OfParty(2020, scope), lines[0], lines[1], lines[2]);
  }

  ghost predicate Drifts(s: Books, a: Action, s': Books, scope: Scope) {
    Moved(s, s', scope, EscrowDrift(s, a), PayableDrift(s, a, scope))
  }

  lemma BuyerPaidDrifts(s: Books, order: OrderId, amount: int, seller: Option<UserId>, cash: int, on: Date,
                        scope: Scope)
    requires BuyerPaid(s, order, amount, seller, cash, on).error.None?
    ensures Drifts(s, DoBuyerPaid(order, amount, seller, cash, on), BuyerPaid(s, order, amount, seller, cash, on).books,
                   scope)
  {
    if FindOrder(s.escrow, order).None? {
      PostAppends(s, on, [Dr(cash, amount), Cr(2000, amount)], AutoMemo("Buyer paid", ForOrder(order)));
      EscrowAppended(s.escrow, NewEscrow(order, seller, amount));
      PairMoves(s, BuyerPaid(s, order, amount, seller, cash, on).books, Dr(cash, amount), Cr(2000, amount), scope,
                amount, 0);
    }
  }

  lemma WalletSpendDrifts(s: Books, user: UserId, order: OrderId, amount: int, seller: Option<UserId>, on: Date,
                          scope: Scope)
    requires WalletSpend(s, user, order, amount, seller, on).error.None?
    ensures Drifts(s, DoWalletSpend(user, order, amount, seller, on),
                   WalletSpend(s, user, order, amount, seller, on).books, scope)
  {
    WalletSpendPosts(s, user, order, amount, seller, on);
    SpendMoves(s, WalletSpend(s, user, order, amount, seller, on).books, user, order, amount, seller, scope);
  }

  lemma WalletSpendPosts(s: Books, user: UserId, order: OrderId, amount: int, seller: Option<UserId>, on: Date)
    requires WalletSpend(s, user, order, amount, seller, on).error.None?
    ensures Spent(s, WalletSpend(s, user, order, amount, seller, on).books, user, order, amount, seller)
  {
    PostAppends(s, on, [DrOf(2010, amount, Some(user)), Cr(2000, amount)], AutoMemo("Wallet spend", ForOrder(order)));
  }

  /** One wallet spend was posted, with a row for the order if it had none. */
  ghost predicate Spent(s: Books, s': Books, user: UserId, order: OrderId, amount: int, seller: Option<UserId>) {
    && Appends(s, s', [DrOf(2010, amount, Some(user)), Cr(2000, amount)]) && s'.payables == s.payables
    && s'.escrow == if FindOrder(s.escrow, order).None? then s.escrow + [NewEscrow(order, seller, amount)] else s.escrow
  }

  lemma SpendMoves(s: Books, s': Books, user: UserId, order: OrderId, amount: int, seller: Option<UserId>, scope: Scope)
    requires Spent(s, s', user, order, amount, seller)
    ensures Moved(s, s', scope, if FindOrder(s.escrow, order).Some? then -amount else 0, 0)
  {
    EscrowAppended(s.escrow, NewEscrow(order, seller, amount));
    PairMoves(s, s', DrOf(2010, amount, Some(user)), Cr(2000, amount), scope,
              if FindOrder(s.escrow, order).None? then amount else 0, 0);
  }

  lemma DeliveryPosts(s: Books, order: OrderId, rate: int, on: Date)
    requires DeliveryConfirmed(s, order, rate, on).error.None?
    requires s.escrow[FindOrder(s.escrow, order).value].status != Released
    ensures var i := FindOrder(s.escrow, order).value;
            var el := s.escrow[i];
            var s' := DeliveryConfirmed(s, order, rate, on).books;
            && el.seller.Some?
            && Appends(s, s', RecognitionLines(2000, el.gross, rate, el.seller))
            && s'.payables == s.payables + [NewPayable(el.seller.value, order, el.gross, rate)]
            && s'.escrow == s.escrow[i := s'.escrow[i]] && s'.escrow[i].status == Released
  {
    var el := s.escrow[FindOrder(s.escrow, order).value];
    PostAppends(s, on, RecognitionLines(2000, el.gross, rate, el.seller), AutoMemo("Escrow release", ForOrder(order)));
  }

  /** Releasing one row into a payable, whatever the surrounding call. */
  lemma ReleaseMoves(s: Books, s': Books, i: nat, order: OrderId, rate: int, scope: Scope)
    requires i < |s.escrow| == |s'.escrow| && s.escrow[i].seller.Some?
    requires Appends(s, s', RecognitionLines(2000, s.escrow[i].gross, rate, s.escrow[i].seller))
    requires s'.payables == s.payables + [NewPayable(s.escrow[i].seller.value, order, s.escrow[i].gross, rate)]
    requires s'.escrow == s.escrow[i := s'.escrow[i]] && s'.escrow[i].status == Released
    ensures Moved(s, s', scope, s.escrow[i].gross - HeldAmount(s.escrow[i]), 0)
  {
    var el := s.escrow[i];
    var row := NewPayable(el.seller.value, order, el.gross, rate);
    EscrowUpdated(s.escrow, i, s'.escrow[i]);
    PayableAppended(s.payables, row, scope);
    RecognitionMoves(s, s', 2000, el.gross, rate, el.seller, scope, -HeldAmount(el), PayableAmount(row, scope));
  }

  lemma DeliveryDrifts(s: Books, order: OrderId, rate: int, on: Date, scope: Scope)
    requires DeliveryConfirmed(s, order, rate, on).error.None?
    ensures Drifts(s, DoDelivery(order, rate, on), DeliveryConfirmed(s, order, rate, on).books, scope)
  {
    var i := FindOrder(s.escrow, order).value;
    if s.escrow[i].status != Released {
      DeliveryPosts(s, order, rate, on);
      ReleaseMoves(s, DeliveryConfirmed(s, order, rate, on).books, i, order, rate, scope);
    }
  }

  lemma CodReconciledDrifts(s: Books, order: OrderId, amount: int, seller: Option<UserId>, rate: int, on: Date,
                            scope: Scope)
    requires CodReconciled(s, order, amount, seller, rate, on).error.None?
    ensures Drifts(s, DoCodReconciled(order, amount, seller, rate, on),
                   CodReconciled(s, order, amount, seller, rate, on).books, scope)
  {
    PostAppends(s, on, RecognitionLines(2060, amount, rate, seller), AutoMemo("COD reconciled", ForOrder(order)));
    var row := NewPayable(seller.value, order, amount, rate);
    PayableAppended(s.payables, row, scope);
    RecognitionMoves(s, CodReconciled(s, order, amount, seller, rate, on).books, 2060, amount, rate, seller, scope,
                     0, PayableAmount(row, scope));
  }

  lemma RefundPosts(s: Books, order: OrderId, amount: int, target: RefundTarget, user: Option<UserId>,
                    told: Option<bool>, seller: Option<UserId>, on: Date)
    requires Refund(s, order, amount, target, user, told, seller, on).error.None?
    ensures var s' := Refund(s, order, amount, target, user, told, seller, on).books;
            && Appends(s, s', RefundLines(DrawsOnSeller(s.escrow, order, told), amount, target, user, seller))
            && s'.payables == s.payables
            && Clawed(s.escrow, order, s'.escrow)
  {
    var lines := RefundLines(DrawsOnSeller(s.escrow, order, told), amount, target, user, seller);
    PostAppends(s, on, lines, AutoMemo("Refund", ForOrder(order)));
  }

  /** A refund takes the row of its order, if there is one, out of the held states. */
  ghost predicate Clawed(rows: seq<EscrowRow>, order: OrderId, rows': seq<EscrowRow>) {
    match FindOrder(rows, order)
    case None => rows' == rows
    case Some(i) => |rows'| == |rows| && rows' == rows[i := rows'[i]] && HeldAmount(rows'[i]) == 0
  }

  lemma RefundMoves(s: Books, s': Books, order: OrderId, draws: bool, amount: int, target: RefundTarget,
                    user: Option<UserId>, seller: Option<UserId>, scope: Scope)
    requires Appends(s, s', RefundLines(draws, amount, target, user, seller))
    requires s'.payables == s.payables && Clawed(s.escrow, order, s'.escrow)
    ensures Moved(s, s', scope,
                  (if draws then 0 else amount) - (if IsHeld(s.escrow, order) then GrossOf(s.escrow, order) else 0),
                  if draws && InScope(scope, seller) then amount else 0)
  {
    var lines := RefundLines(draws, amount, target, user, seller);
    var found := FindOrder(s.escrow, order);
    if found.Some? {
      EscrowUpdated(s.escrow, found.value, s'.escrow[found.value]);
    }
    PairMoves(s, s', lines[0], lines[1], scope,
              if IsHeld(s.escrow, order) then -GrossOf(s.escrow, order) else 0, 0);
  }

  lemma RefundDrifts(s: Books, order: OrderId, amount: int, target: RefundTarget, user: Option<UserId>,
                     told: Option<bool>, seller: Option<UserId>, on: Date, scope: Scope)
    requires Refund(s, order, amount, target, user, told, seller, on).error.None?
    ensures Drifts(s, DoRefund(order, amount, target, user, told, seller, on),
                   Refund(s, order, amount, target, user, told, seller, on).books, scope)
  {
    RefundPosts(s, order, amount, target, user, told, seller, on);
    RefundMoves(s, Refund(s, order, amount, target, user, told, seller, on).books, order,
                DrawsOnSeller(s.escrow, order, told), amount, target, user, seller, scope);
  }

  lemma PayoutDrifts(s: Books, payee: UserId, batch: string, on: Date, scope: Scope)
    requires SellerPayout(s, payee, batch, on).error.None?
    ensures Drifts(s, DoPayout(payee, batch, on), SellerPayout(s, payee, batch, on).books, scope)
  {
    var total := PayableTotal(s.payables, payee);
    if total > 0 {
      var d, c := DrOf(2020, total, Some(payee)), Cr(1000, total);
      PostAppends(s, on, [d, c], AutoMemo("Seller payout", ForBatch(batch)));
      PayoutMoves(s.payables, payee, batch, scope);
      PairMoves(s, SellerPayout(s, payee, batch, on).books, d, c, scope, 0,
                if InScope(scope, Some(payee)) then Sum(Adjustments(s.payables, payee)) - total else 0);
    }
  }

  lemma RecogniseDrifts(s: Books, i: nat, on: Date, scope: Scope)
    requires RecogniseRow(s, i, on).error.None?
    ensures Drifts(s, DoRecognise(i, on), RecogniseRow(s, i, on).books, scope)
  {
    var d := s.deferred[i];
    if d.active && d.monthsRecognised < d.monthsTotal {
      RecognisePosts(s, i, on);
      RecogniseMoves(s, RecogniseRow(s, i, on).books, MonthlyRecognition(d), d.revenueAccount, d.seller, scope);
    }
  }

  lemma RecogniseMoves(s: Books, s': Books, amount: int, account: int, seller: UserId, scope: Scope)
    requires Appends(s, s', [Dr(2100, amount), CrOf(account, amount, Some(seller))])
    requires s'.escrow == s.escrow && s'.payables == s.payables
    ensures Moved(s, s', scope, if account == 2000 then -amount else 0,
                  if account == 2020 && InScope(scope, Some(seller)) then -amount else 0)
  {
    PairMoves(s, s', Dr(2100, amount), CrOf(account, amount, Some(seller)), scope, 0, 0);
  }

  lemma RecognisePosts(s: Books, i: nat, on: Date)
    requires RecogniseRow(s, i, on).error.None?
    requires s.deferred[i].active && s.deferred[i].monthsRecognised < s.deferred[i].monthsTotal
    ensures var d, s' := s.deferred[i], RecogniseRow(s, i, on).books;
            var m := MonthlyRecognition(d);
            && Appends(s, s', [Dr(2100, m), CrOf(d.revenueAccount, m, Some(d.seller))])
            && s'.escrow == s.escrow && s'.payables == s.payables
  {
    var d := s.deferred[i];
    var m := MonthlyRecognition(d);
    PostAppends(s, on, [Dr(2100, m), CrOf(d.revenueAccount, m, Some(d.seller))],
                AutoMemo("Recognise deferred revenue", ForDeferred(i)));
  }

  lemma AmortiseDrifts(s: Books, i: nat, on: Date, scope: Scope)
    requires AmortiseRow(s, i, on).error.None?
    ensures Drifts(s, DoAmortise(i, on), AmortiseRow(s, i, on).books, scope)
  {
    var a := s.assets[i];
    if a.status == Live && MonthlyAmortisation(a) > 0 {
      var amount := MonthlyAmortisation(a);
      PostAppends(s, on, [Dr(6011, amount), Cr(1450, amount)], AutoMemo("Amortise", ForAsset(i)));
      AmortiseMoves(s, AmortiseRow(s, i, on).books, amount, scope);
    }
  }

  lemma AmortiseMoves(s: Books, s': Books, amount: int, scope: Scope)
    requires Appends(s, s', [Dr(6011, amount), Cr(1450, amount)])
    requires s'.escrow == s.escrow && s'.payables == s.payables
    ensures Moved(s, s', scope, 0, 0)
  {
    PairMoves(s, s', Dr(6011, amount), Cr(1450, amount), scope, 0, 0);
  }

  lemma ReserveDrifts(s: Books, expected: int, on: Date, scope: Scope)
    requires AdjustReserve(s, expected, on).error.None?
    ensures Drifts(s, DoReserve(expected, on), AdjustReserve(s, expected, on).books, scope)
  {
    var adjustment := expected - AccountBalance(2050, None, s.journal);
    var memo := Memo("Dispute reserve", Accrual, ForReserve(on), None, None, true, false, None);
    var s' := AdjustReserve(s, expected, on).books;
    if adjustment > 0 {
      PostAppends(s, on, [Dr(5020, adjustment), Cr(2050, adjustment)], memo);
      PairMoves(s, s', Dr(5020, adjustment), Cr(2050, adjustment), scope, 0, 0);
    } else if adjustment < 0 {
      PostAppends(s, on, [Dr(2050, -adjustment), Cr(4990, -adjustment)], memo);
      PairMoves(s, s', Dr(2050, -adjustment), Cr(4990, -adjustment), scope, 0, 0);
    }
  }

  lemma FxDrifts(s: Books, gain: int, currency: string, on: Date, scope: Scope)
    requires FxRevaluation(s, gain, currency, on).error.None?
    ensures Drifts(s, DoFx(gain, currency, on), FxRevaluation(s, gain, currency, on).books, scope)
  {
    var memo := Memo("FX revaluation", Accrual, ForFx(currency, on), None, None, true, false, None);
    var s' := FxRevaluation(s, gain, currency, on).books;
    if gain > 0 {
      PostAppends(s, on, [Dr(2099, gain), Cr(7000, gain)], memo);
      PairMoves(s, s', Dr(2099, gain), Cr(7000, gain), scope, 0, 0);
    } else if gain < 0 {
      PostAppends(s, on, [Dr(7000, -gain), Cr(2099, -gain)], memo);
      PairMoves(s, s', Dr(7000, -gain), Cr(2099, -gain), scope, 0, 0);
    }
  }

  lemma EventDrifts(s: Books, e: Event, on: Date, scope: Scope)
    requires PostEvent(s, e, on).error.None?
    ensures Drifts(s, DoEvent(e, on), PostEvent(s, e, on).books, scope)
  {
    var lines := EventLines(e);
    PostAppends(s, on, lines, EventMemo(e));
    MovesAddUp(s, PostEvent(s, e, on).books, lines, scope, 0, 0);
  }

  /** A posting that touches no table moves the gaps by the net of its lines. */
  lemma JournalOnlyDrifts(s: Books, lines: seq<Line>, memo: Memo, on: Date, scope: Scope)
    requires Post(s, on, lines, memo).error.None?
    ensures Moved(s, Post(s, on, lines, memo).books, scope,
                  LinesNet(OfParty(2000, Everyone), lines), LinesNet(OfParty(2020, scope), lines))
  {
    PostAppends(s, on, lines, memo);
    MovesAddUp(s, Post(s, on, lines, memo).books, lines, scope, 0, 0);
  }

  lemma ManualDrifts(s: Books, i: nat, approver: UserId, accept: bool, scope: Scope)
    requires DecideManual(s, i, approver, accept).error.None?
    ensures Drifts(s, DoDecideManual(i, approver, accept), DecideManual(s, i, approver, accept).books, scope)
  {
    var m := s.manual[i];
    if accept {
      JournalOnlyDrifts(s, Unattributed(m.lines), ManualMemo(i, m.requestedBy, approver), m.date, scope);
    }
  }

  lemma ReverseDrifts(s: Books, i: nat, poster: Option<UserId>, on: Date, scope: Scope)
    requires ReverseEntry(s, i, poster, on).error.None?
    ensures Drifts(s, DoReverse(i, poster, on), ReverseEntry(s, i, poster, on).books, scope)
  {
    JournalOnlyDrifts(s, Mirror(s.journal[i].lines),
                      Memo("Reversal", Reversal, ForEntry(i), poster, None, false, true, Some(i)), on, scope);
  }

  lemma PostingsDrift(s: Books, a: Action, scope: Scope)
    requires Step(s, a).error.None? && (a.DoEvent? || a.DoReverse? || a.DoReserve? || a.DoFx?)
    ensures Drifts(s, a, Step(s, a).books, scope)
  {
    match a {
      case DoEvent(e, on) => EventDrifts(s, e, on, scope);
      case DoReverse(i, poster, on) => ReverseDrifts(s, i, poster, on, scope);
      case DoReserve(expected, on) => ReserveDrifts(s, expected, on, scope);
      case DoFx(gain, currency, on) => FxDrifts(s, gain, currency, on, scope);
    }
  }

  lemma PaymentsDrift(s: Books, a: Action, scope: Scope)
    requires Step(s, a).error.None? && (a.DoBuyerPaid? || a.DoWalletSpend? || a.DoRefund?)
    ensures Drifts(s, a, Step(s, a).books, scope)
  {
    match a {
      case DoBuyerPaid(order, amount, seller, cash, on) => BuyerPaidDrifts(s, order, amount, seller, cash, on, scope);
      case DoWalletSpend(user, order, amount, seller, on) =>
        WalletSpendDrifts(s, user, order, amount, seller, on, scope);
      case DoRefund(order, amount, target, buyer, told, seller, on) =>
        RefundDrifts(s, order, amount, target, buyer, told, seller, on, scope);
    }
  }

  lemma SellerCallsDrift(s: Books, a: Action, scope: Scope)
    requires Step(s, a).error.None? && (a.DoDelivery? || a.DoCodReconciled? || a.DoPayout?)
    ensures Drifts(s, a, Step(s, a).books, scope)
  {
    match a {
      case DoDelivery(order, rate, on) => DeliveryDrifts(s, order, rate, on, scope);
      case DoCodReconciled(order, amount, seller, rate, on) =>
        CodReconciledDrifts(s, order, amount, seller, rate, on, scope);
      case DoPayout(payee, batch, on) => PayoutDrifts(s, payee, batch, on, scope);
    }
  }

  lemma RowCallsDrift(s: Books, a: Action, scope: Scope)
    requires Step(s, a).error.None? && (a.DoRecognise? || a.DoAmortise? || a.DoDecideManual?)
    ensures Drifts(s, a, Step(s, a).books, scope)
  {
    match a {
      case DoRecognise(i, on) => RecogniseDrifts(s, i, on, scope);
      case DoAmortise(i, on) => AmortiseDrifts(s, i, on, scope);
      case DoDecideManual(i, approver, accept) => ManualDrifts(s, i, approver, accept, scope);
    }
  }

  /** Every call that goes through moves the two gaps by exactly its drift. */
  lemma DriftIsExact(s: Books, a: Action, scope: Scope)
    requires Step(s, a).error.None?
    ensures Drifts(s, a, Step(s, a).books, scope)
  {
    if a.DoEvent? || a.DoReverse? || a.DoReserve? || a.DoFx? {
      PostingsDrift(s, a, scope);
    } else if a.DoBuyerPaid? || a.DoWalletSpend? || a.DoRefund? {
      PaymentsDrift(s, a, scope);
    } else if a.DoDelivery? || a.DoCodReconciled? || a.DoPayout? {
      SellerCallsDrift(s, a, scope);
    } else if a.DoRecognise? || a.DoAmortise? || a.DoDecideManual? {
      RowCallsDrift(s, a, scope);
    }
  }
}
