/** The accounting engine as the stateful service it is: tables that its calls insert into and update.
    Every method is proved to do exactly what the corresponding call of `Books` says, so the runs of
    `Books` are the runs of this service. */
module LedgerService {
  import opened Common
  import opened Money
  import opened Chart
  import opened AuditChain
  import opened Journal
  import opened Statements
  import opened Books
  import Spec = Books
  import opened Integrity
  import Reconciliation

  class Ledger {
    const hash: Digest<Payload>
    const stamps: nat -> Stamp
    const accounts: set<int>
    var journal: seq<Entry>
    var locks: map<Period, bool>
    var escrow: seq<EscrowRow>
    var payables: seq<PayableRow>
    var receivables: seq<Receivable>
    var deferred: seq<DeferredRow>
    var assets: seq<AssetRow>
    var manual: seq<ManualRow>
    var snapshots: map<Period, Snapshot>

    ghost function View(): Books
      reads this
    {
      Books(hash, stamps, accounts, journal, locks, escrow, payables, receivables, deferred, assets, manual, snapshots)
    }

    constructor (hash: Digest<Payload>, stamps: nat -> Stamp, accounts: set<int>,
                 deferred: seq<DeferredRow>, assets: seq<AssetRow>)
      ensures View() == Opening(hash, stamps, accounts, deferred, assets)
    {
      this.hash, this.stamps, this.accounts := hash, stamps, accounts;
      this.deferred, this.assets := deferred, assets;
      journal, escrow, payables, receivables, manual := [], [], [], [], [];
      locks, snapshots := map[], map[];
    }

    /** One transaction: the entry, its lines and its seal are stored together or not at all. */
    method PostJournal(date: Date, lines: seq<Line>, memo: Memo) returns (error: Option<Error>)
      modifies this`journal
      ensures Outcome(View(), error) == Post(old(View()), date, lines, memo)
    {
      var period := PeriodOf(date);
      if period in locks && locks[period] {
        return Some(PeriodLocked);
      }
      var totalDebit, totalCredit := Totals(lines);
      if totalDebit != totalCredit {
        return Some(UnbalancedJournal);
      }
      if totalDebit == 0 {
        return Some(EmptyJournal);
      }
      error := InsertLines(accounts, lines);
      if error.None? {
        var seqNo := if journal == [] then 1 else journal[|journal| - 1].seqNo + 1;
        var prev := if journal == [] then GENESIS else journal[|journal| - 1].entryHash;
        var digest := hash(seqNo, PayloadFor(date, memo, totalDebit, lines), prev);
        var entry := Entry(stamps(|journal|), date, period, memo, totalDebit, lines, seqNo, prev, digest);
        assert entry == SealedEntry(hash, stamps(|journal|), journal, date, lines, memo);
        journal := journal + [entry];
      }
    }

    method ReverseEntry(i: nat, poster: Option<UserId>, today: Date) returns (error: Option<Error>)
      modifies this`journal
      ensures Outcome(View(), error) == Spec.ReverseEntry(old(View()), i, poster, today)
    {
      if i >= |journal| {
        return Some(RowMissing);
      }
      var lines := [];
      var original := journal[i].lines;
      for k := 0 to |original|
        invariant lines == Mirror(original)[..k]
      {
        lines := lines + [Line(original[k].account, original[k].credit, original[k].debit, None,
                               "reversal: " + original[k].description, HOME_CURRENCY)];
      }
      assert lines == Mirror(original);
      error := PostJournal(today, lines, Memo("Reversal", Reversal, ForEntry(i), poster, None, false, true, Some(i)));
    }

    method PostEvent(e: Event, date: Date) returns (error: Option<Error>)
      modifies this`journal, this`receivables
      ensures Outcome(View(), error) == Spec.PostEvent(old(View()), e, date)
    {
      error := PostJournal(date, EventLines(e), EventMemo(e));
      if error.None? && e.CourierShortfall? {
        receivables := receivables + [Receivable(e.courier, e.expected - e.deposited, e.order)];
      }
    }

    method AdjustReserve(expected: int, date: Date) returns (error: Option<Error>)
      modifies this`journal
      ensures Outcome(View(), error) == Spec.AdjustReserve(old(View()), expected, date)
    {
      var adjustment := expected - AccountBalance(2050, None, journal);
      var memo := Memo("Dispute reserve", Accrual, ForReserve(date), None, None, true, false, None);
      error := None;
      if adjustment > 0 {
        error := PostJournal(date, [Dr(5020, adjustment), Cr(2050, adjustment)], memo);
      } else if adjustment < 0 {
        error := PostJournal(date, [Dr(2050, -adjustment), Cr(4990, -adjustment)], memo);
      }
    }

    method FxRevaluation(gain: int, currency: string, date: Date) returns (error: Option<Error>)
      modifies this`journal
      ensures Outcome(View(), error) == Spec.FxRevaluation(old(View()), gain, currency, date)
    {
      var memo := Memo("FX revaluation", Accrual, ForFx(currency, date), None, None, true, false, None);
      error := None;
      if gain > 0 {
        error := PostJournal(date, [Dr(2099, gain), Cr(7000, gain)], memo);
      } else if gain < 0 {
        error := PostJournal(date, [Dr(7000, -gain), Cr(2099, -gain)], memo);
      }
    }

    method BuyerPaid(order: OrderId, gross: int, seller: Option<UserId>, cash: int, date: Date)
        returns (error: Option<Error>)
      modifies this`journal, this`escrow
      ensures Outcome(View(), error) == Spec.BuyerPaid(old(View()), order, gross, seller, cash, date)
    {
      if FindOrder(escrow, order).Some? {
        return None;
      }
      error := PostJournal(date, [Dr(cash, gross), Cr(2000, gross)], AutoMemo("Buyer paid", ForOrder(order)));
      if error.None? {
        escrow := escrow + [EscrowRow(order, seller, gross, 0, 0, 0, Held)];
      }
    }

    method WalletSpend(user: UserId, order: OrderId, amount: int, seller: Option<UserId>, date: Date)
        returns (error: Option<Error>)
      modifies this`journal, this`escrow
      ensures Outcome(View(), error) == Spec.WalletSpend(old(View()), user, order, amount, seller, date)
    {
      error := PostJournal(date, [DrOf(2010, amount, Some(user)), Cr(2000, amount)],
                           AutoMemo("Wallet spend", ForOrder(order)));
      if error.None? && FindOrder(escrow, order).None? {
        escrow := escrow + [EscrowRow(order, seller, amount, 0, 0, 0, Held)];
      }
    }

    method DeliveryConfirmed(order: OrderId, rate: int, date: Date) returns (error: Option<Error>)
      modifies this`journal, this`escrow, this`payables
      ensures Outcome(View(), error) == Spec.DeliveryConfirmed(old(View()), order, rate, date)
    {
      var found := FindOrder(escrow, order);
      if found.None? {
        return Some(RowMissing);
      }
      var el := escrow[found.value];
      if el.status == Released {
        return None;
      }
      var before := journal;
      var comm := Commission(el.gross, rate);
      var net := el.gross - comm;
      error := PostJournal(date, [Dr(2000, el.gross), Cr(4000, comm), CrOf(2020, net, el.seller)],
                           AutoMemo("Escrow release", ForOrder(order)));
      if error.Some? {
        return;
      }
      if el.seller.None? {
        journal := before;   // the surrounding transaction rolls the posting back
        return Some(SellerMissing);
      }
      escrow := escrow[found.value := el.(commission := comm, net := net, status := Released)];
      payables := payables + [PayableRow(el.seller.value, order, el.gross, comm, net, 0, None, Accrued)];
    }

    method CodReconciled(order: OrderId, amount: int, seller: Option<UserId>, rate: int, date: Date)
        returns (error: Option<Error>)
      modifies this`journal, this`payables
      ensures Outcome(View(), error) == Spec.CodReconciled(old(View()), order, amount, seller, rate, date)
    {
      var comm := Commission(amount, rate);
      var net := amount - comm;
      error := PostJournal(date, [Dr(2060, amount), Cr(4000, comm), CrOf(2020, net, seller)],
                           AutoMemo("COD reconciled", ForOrder(order)));
      if error.None? {
        if seller.None? {
          return Some(SellerMissing);   // no surrounding transaction: the entry stays
        }
        payables := payables + [PayableRow(seller.value, order, amount, comm, net, 0, None, Accrued)];
      }
    }

    method Refund(order: OrderId, amount: int, target: RefundTarget, user: Option<UserId>, told: Option<bool>,
                  seller: Option<UserId>, date: Date) returns (error: Option<Error>)
      modifies this`journal, this`escrow
      ensures Outcome(View(), error) == Spec.Refund(old(View()), order, amount, target, user, told, seller, date)
    {
      var found := FindOrder(escrow, order);
      var released := if told.Some? then told.value else found.Some? && escrow[found.value].status == Released;
      error := PostJournal(date, RefundLines(released, amount, target, user, seller),
                           AutoMemo("Refund", ForOrder(order)));
      if error.None? && found.Some? {
        var el := escrow[found.value];
        var refunded := el.refunded + amount;
        var status := if refunded >= el.gross then ClawedBack else PartiallyClawed;
        escrow := escrow[found.value := el.(refunded := refunded, status := status)];
      }
    }

    /** Selects the seller's accrued rows, pays their total in one entry, and marks them paid. */
    method SellerPayout(seller: UserId, batch: string, date: Date) returns (error: Option<Error>, paid: int, rows: nat)
      modifies this`journal, this`payables
      ensures Outcome(View(), error) == Spec.SellerPayout(old(View()), seller, batch, date)
      ensures paid == if error.None? && PayableTotal(old(payables), seller) > 0 then PayableTotal(old(payables), seller)
                      else 0
      ensures rows == if paid > 0 then |set i | 0 <= i < |old(payables)| && Due(old(payables)[i], seller)| else 0
    {
      var due, total := SelectDue(payables, seller);
      if total <= 0 {
        return None, 0, 0;
      }
      error := PostJournal(date, [DrOf(2020, total, Some(seller)), Cr(1000, total)],
                           AutoMemo("Seller payout", ForBatch(batch)));
      if error.Some? {
        return error, 0, 0;
      }
      payables := MarkRows(payables, due, seller, batch);
      paid, rows := total, |due|;
    }

    method RecogniseRow(i: nat, date: Date) returns (error: Option<Error>)
      modifies this`journal, this`deferred
      ensures Outcome(View(), error) == Spec.RecogniseRow(old(View()), i, date)
    {
      if i >= |deferred| {
        return Some(RowMissing);
      }
      error := None;
      var d := deferred[i];
      if d.active {
        if d.monthsRecognised >= d.monthsTotal {
          deferred := deferred[i := d.(active := false)];
          return;
        }
        var monthly := d.total / d.monthsTotal;
        if d.monthsRecognised == d.monthsTotal - 1 {
          monthly := d.total - d.recognised;
        }
        error := PostJournal(date, [Dr(2100, monthly), CrOf(d.revenueAccount, monthly, Some(d.seller))],
                             AutoMemo("Recognise deferred revenue", ForDeferred(i)));
        if error.None? {
          d := d.(recognised := d.recognised + monthly, monthsRecognised := d.monthsRecognised + 1);
          if d.monthsRecognised >= d.monthsTotal {
            d := d.(active := false);
          }
          deferred := deferred[i := d];
        }
      }
    }

    /** The monthly sweep over the deferred rows: an exception ends it where it stands. Reports how many rows
        recognised something, each by one entry. */
    method RecogniseDeferredRevenue(date: Date) returns (error: Option<Error>, recognised: nat)
      modifies this`journal, this`deferred
      ensures Outcome(View(), error) == RecogniseFrom(old(View()), 0, date)
      ensures |journal| == |old(journal)| + recognised
    {
      recognised := 0;
      var i := 0;
      while i < |deferred|
        invariant i <= |deferred|
        invariant RecogniseFrom(View(), i, date) == RecogniseFrom(old(View()), 0, date)
        invariant |journal| == |old(journal)| + recognised
        decreases |deferred| - i
      {
        var due := deferred[i].active && deferred[i].monthsRecognised < deferred[i].monthsTotal;
        error := RecogniseRow(i, date);
        if error.Some? {
          return;
        }
        if due {
          recognised := recognised + 1;
        }
        i := i + 1;
      }
      error := None;
    }

    method AmortiseRow(i: nat, date: Date) returns (error: Option<Error>)
      modifies this`journal, this`assets
      ensures Outcome(View(), error) == Spec.AmortiseRow(old(View()), i, date)
    {
      if i >= |assets| {
        return Some(RowMissing);
      }
      error := None;
      var a := assets[i];
      if a.status == Live {
        if a.life == 0 {
          return Some(DivisionByZero);
        }
        var monthly := a.capitalised / a.life;
        var remaining := a.capitalised - a.amortised;
        if remaining < monthly {
          monthly := remaining;
        }
        if monthly <= 0 {
          assets := assets[i := a.(status := FullyAmortised)];
          return;
        }
        error := PostJournal(date, [Dr(6011, monthly), Cr(1450, monthly)], AutoMemo("Amortise", ForAsset(i)));
        if error.None? {
          a := a.(amortised := a.amortised + monthly);
          if a.capitalised - a.amortised <= 0 {
            a := a.(status := FullyAmortised);
          }
          assets := assets[i := a];
        }
      }
    }

    /** The monthly sweep over the assets; reports how many amortised something, each by one entry. */
    method AmortiseCapitalised(date: Date) returns (error: Option<Error>, amortised: nat)
      modifies this`journal, this`assets
      ensures Outcome(View(), error) == AmortiseFrom(old(View()), 0, date)
      ensures |journal| == |old(journal)| + amortised
    {
      amortised := 0;
      var i := 0;
      while i < |assets|
        invariant i <= |assets|
        invariant AmortiseFrom(View(), i, date) == AmortiseFrom(old(View()), 0, date)
        invariant |journal| == |old(journal)| + amortised
        decreases |assets| - i
      {
        var due := assets[i].status == Live && assets[i].life > 0 && MonthlyAmortisation(assets[i]) > 0;
        error := AmortiseRow(i, date);
        if error.Some? {
          return;
        }
        if due {
          amortised := amortised + 1;
        }
        i := i + 1;
      }
      error := None;
    }

    method LockPeriod(p: Period)
      modifies this`locks
      ensures View() == Spec.LockPeriod(old(View()), p)
    {
      locks := locks[p := true];
    }

    method UnlockPeriod(p: Period)
      modifies this`locks
      ensures View() == Spec.UnlockPeriod(old(View()), p)
    {
      if p in locks {
        locks := locks[p := false];
      }
    }

    method SnapshotFinancials(p: Period)
      modifies this`snapshots
      ensures View() == Spec.SnapshotFinancials(old(View()), p)
    {
      var pnl := ProfitAndLoss(p, journal);
      var bs := BalanceSheet(Some(SnapshotEnd(p)), journal);
      snapshots := snapshots[p := Snapshot(pnl, bs.assets, bs.liabilities, bs.equity, bs.balanced)];
    }

    /** Reconciles, proves the trial balance, stores the statements, and locks the month. */
    method MonthEndClose(p: Period, lock: bool)
        returns (balanced: bool, escrowRecon: Reconciliation.Recon, payableRecon: Reconciliation.Recon, netProfit: int)
      requires ValidBooks(View())
      modifies this`snapshots, this`locks
      ensures View() == Spec.MonthEndClose(old(View()), p, lock)
      ensures balanced
      ensures escrowRecon.balanced <==> Reconciliation.EscrowGap(old(View())) == 0
      ensures payableRecon.balanced <==> Reconciliation.PayableGap(old(View()), Everyone) == 0
      ensures netProfit == ProfitAndLoss(p, journal).netProfit
    {
      escrowRecon, payableRecon := ReconcileSubLedgers();
      var tb := TrialBalance(accounts, None, journal);
      TrialBalanceBalances(accounts, None, journal);
      balanced := tb.balanced;
      SnapshotFinancials(p);
      netProfit := snapshots[p].pnl.netProfit;
      if lock {
        LockPeriod(p);
      }
    }

    /** Adds up the open rows of both sub-ledgers; the balances they are compared with differ by the gaps. */
    method ReconcileSubLedgers() returns (escrowRecon: Reconciliation.Recon, payableRecon: Reconciliation.Recon)
      ensures escrowRecon.subLedger == Sum(Reconciliation.HeldAmounts(escrow))
      ensures payableRecon.subLedger == Sum(Reconciliation.PayableAmounts(payables, Everyone))
      ensures escrowRecon == Reconciliation.Compared(escrowRecon.subLedger,
                                                     escrowRecon.subLedger - Reconciliation.EscrowGap(View()))
      ensures payableRecon
              == Reconciliation.Compared(payableRecon.subLedger,
                                         payableRecon.subLedger - Reconciliation.PayableGap(View(), Everyone))
    {
      escrowRecon := Reconciliation.ReconcileEscrow(escrow, journal);
      payableRecon := Reconciliation.ReconcilePayables(payables, journal);
    }

    method RequestManual(date: Date, lines: seq<Line>, requester: UserId) returns (error: Option<Error>)
      modifies this`manual
      ensures Outcome(View(), error) == Spec.RequestManual(old(View()), date, lines, requester)
    {
      var debit, credit := Totals(lines);
      if debit != credit {
        return Some(UnbalancedJournal);
      }
      if debit == 0 {
        return Some(EmptyJournal);
      }
      manual := manual + [ManualRow(date, lines, requester, None, Pending, None)];
      return None;
    }

    method DecideManual(i: nat, approver: UserId, accept: bool) returns (error: Option<Error>)
      modifies this`journal, this`manual
      ensures Outcome(View(), error) == Spec.DecideManual(old(View()), i, approver, accept)
    {
      if i >= |manual| {
        return Some(RowMissing);
      }
      var m := manual[i];
      if m.status != Pending {
        return Some(AlreadyDecided);
      }
      if m.requestedBy == approver {
        return Some(SelfApproval);
      }
      if !accept {
        manual := manual[i := m.(status := Rejected, approvedBy := Some(approver))];
        return None;
      }
      var lines := [];
      for k := 0 to |m.lines|
        invariant lines == Unattributed(m.lines)[..k]
      {
        lines := lines + [Line(m.lines[k].account, m.lines[k].debit, m.lines[k].credit, None,
                               m.lines[k].description, HOME_CURRENCY)];
      }
      assert lines == Unattributed(m.lines);
      var position := |journal|;
      error := PostJournal(m.date, lines, ManualMemo(i, m.requestedBy, approver));
      if error.None? {
        manual := manual[i := m.(status := Posted, approvedBy := Some(approver), entry := Some(position))];
      }
    }
  }

  /** The rows a payout pays, and their total. */
  method SelectDue(rows: seq<PayableRow>, seller: UserId) returns (due: set<nat>, total: int)
    ensures due == set i | 0 <= i < |rows| && Due(rows[i], seller)
    ensures total == PayableTotal(rows, seller)
  {
    due, total := {}, 0;
    ghost var amounts := DueAmounts(rows, seller);
    for i := 0 to |rows|
      invariant total == Sum(amounts[..i])
      invariant due == set k | 0 <= k < i && Due(rows[k], seller)
    {
      SumNext(amounts, i);
      if rows[i].seller == seller && rows[i].status == Accrued {
        due := due + {i};
        total := total + (rows[i].net + rows[i].adjustments);
      }
    }
    assert amounts[..|rows|] == amounts;
  }

  method MarkRows(rows: seq<PayableRow>, due: set<nat>, seller: UserId, batch: string) returns (marked: seq<PayableRow>)
    requires due == set i | 0 <= i < |rows| && Due(rows[i], seller)
    ensures marked == MarkPaid(rows, seller, batch)
  {
    marked := rows;
    for i := 0 to |rows|
      invariant |marked| == |rows|
      invariant forall k :: 0 <= k < i ==> marked[k] == MarkPaid(rows, seller, batch)[k]
      invariant forall k :: i <= k < |rows| ==> marked[k] == rows[k]
    {
      if i in due {
        marked := marked[i := marked[i].(status := Paid, batch := Some(batch))];
      }
    }
  }

  method Totals(lines: seq<Line>) returns (debit: int, credit: int)
    ensures debit == TotalDebit(lines) && credit == TotalCredit(lines)
  {
    debit, credit := 0, 0;
    for i := 0 to |lines|
      invariant debit == TotalDebit(lines[..i]) && credit == TotalCredit(lines[..i])
    {
      assert lines[..i + 1][..i] == lines[..i];
      debit, credit := debit + lines[i].debit, credit + lines[i].credit;
    }
    assert lines[..|lines|] == lines;
  }

  /** Resolves the account of each line and inserts it; the first line that cannot be stored decides. */
  method InsertLines(accounts: set<int>, lines: seq<Line>) returns (error: Option<Error>)
    ensures error == InsertError(accounts, lines)
  {
    for i := 0 to |lines|
      invariant InsertError(accounts, lines[..i]).None?
    {
      assert lines[..i + 1][..i] == lines[..i];
      InsertErrorSticks(accounts, lines, i + 1);
      if lines[i].account !in accounts {
        return Some(UnknownAccount);
      }
      if !((lines[i].debit > 0 && lines[i].credit == 0) || (lines[i].debit == 0 && lines[i].credit > 0)) {
        return Some(LineConstraint);
      }
    }
    assert lines[..|lines|] == lines;
    return None;
  }

  /** The first line that cannot be stored decides the error. */
  lemma {:induction false} InsertErrorSticks(accounts: set<int>, ls: seq<Line>, n: nat)
    requires n <= |ls|
    ensures InsertError(accounts, ls[..n]).Some? ==> InsertError(accounts, ls) == InsertError(accounts, ls[..n])
  {
    if n == |ls| {
      assert ls[..n] == ls;
    } else {
      InsertErrorSticks(accounts, ls[..|ls| - 1], n);
      assert ls[..|ls| - 1][..n] == ls[..n];
    }
  }
}
