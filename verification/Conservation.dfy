/** Over every run the deferred rows, the assets and the courier receivables account for the balances of
    their accounts, as long as no other posting is made to those accounts. */
module Conservation {
  import opened Common
  import opened Chart
  import opened Journal
  import opened Books
  import opened Integrity
  import opened Reconciliation
  import Deferred
  import Amortisation

  // ---- Accounts a call stays away from -----------------------------------------------------------

  predicate LinesAvoid(lines: seq<Line>, code: int) {
    forall k :: 0 <= k < |lines| ==> lines[k].account != code
  }

  /** No entry between the two states has a line on the account. */
  ghost predicate Untouched(s: Books, s': Books, code: int) {
    && s.journal <= s'.journal && |s'.journal| <= |s.journal| + 1
    && forall i :: |s.journal| <= i < |s'.journal| ==> LinesAvoid(s'.journal[i].lines, code)
  }

  const TIED_CODES := {1101, 1450, 2100}

  /** A guard that can be read off before the call: it posts nothing to this tied account. */
  predicate Avoids(s: Books, a: Action, code: int) {
    match a
    case DoEvent(e, _) => LinesAvoid(EventLines(e), code)
    case DoReverse(i, _, _) => i < |s.journal| ==> LinesAvoid(s.journal[i].lines, code)
    case DoBuyerPaid(_, _, _, cash, _) => cash != code
    case DoRecognise(i, _) => code != 2100 && (i < |s.deferred| ==> s.deferred[i].revenueAccount != code)
    case DoAmortise(_, _) => code != 1450
    case DoDecideManual(i, _, accept) => accept && i < |s.manual| ==> LinesAvoid(s.manual[i].lines, code)
    case _ => true
  }

  lemma PostAvoids(s: Books, date: Date, lines: seq<Line>, memo: Memo, code: int)
    requires LinesAvoid(lines, code)
    ensures Untouched(s, Post(s, date, lines, memo).books, code)
  {
  }

  lemma EventAvoids(s: Books, e: Event, on: Date, code: int)
    requires LinesAvoid(EventLines(e), code)
    ensures Untouched(s, PostEvent(s, e, on).books, code)
  {
    PostAvoids(s, on, EventLines(e), EventMemo(e), code);
  }

  lemma CorrectionAvoids(s: Books, a: Action, code: int)
    requires (a.DoReverse? || a.DoDecideManual?) && Avoids(s, a, code)
    ensures Untouched(s, Step(s, a).books, code)
  {
    match a {
      case DoReverse(i, poster, on) =>
        if i < |s.journal| {
          PostAvoids(s, on, Mirror(s.journal[i].lines),
                     Memo("Reversal", Reversal, ForEntry(i), poster, None, false, true, Some(i)), code);
        }
      case DoDecideManual(i, approver, accept) =>
        if i < |s.manual| && accept {
          PostAvoids(s, s.manual[i].date, Unattributed(s.manual[i].lines),
                     ManualMemo(i, s.manual[i].requestedBy, approver), code);
        }
    }
  }

  lemma BuyerPaidAvoids(s: Books, order: OrderId, gross: int, seller: Option<UserId>, cash: int, on: Date, code: int)
    requires code in TIED_CODES && cash != code
    ensures Untouched(s, BuyerPaid(s, order, gross, seller, cash, on).books, code)
  {
    PostAvoids(s, on, [Dr(cash, gross), Cr(2000, gross)], AutoMemo("Buyer paid", ForOrder(order)), code);
  }

  lemma WalletSpendAvoids(s: Books, user: UserId, order: OrderId, amount: int, seller: Option<UserId>, on: Date,
                          code: int)
    requires code in TIED_CODES
    ensures Untouched(s, WalletSpend(s, user, order, amount, seller, on).books, code)
  {
    PostAvoids(s, on, [DrOf(2010, amount, Some(user)), Cr(2000, amount)], AutoMemo("Wallet spend", ForOrder(order)),
               code);
  }

  lemma RecognitionLinesAvoid(source: int, amount: int, rate: int, seller: Option<UserId>, code: int)
    requires code in TIED_CODES && source !in TIED_CODES
    ensures LinesAvoid(RecognitionLines(source, amount, rate, seller), code)
  {
  }

  lemma DeliveryAvoids(s: Books, order: OrderId, rate: int, on: Date, code: int)
    requires code in TIED_CODES
    ensures Untouched(s, DeliveryConfirmed(s, order, rate, on).books, code)
  {
    var found := FindOrder(s.escrow, order);
    if found.Some? {
      var el := s.escrow[found.value];
      RecognitionLinesAvoid(2000, el.gross, rate, el.seller, code);
      PostAvoids(s, on, RecognitionLines(2000, el.gross, rate, el.seller), AutoMemo("Escrow release", ForOrder(order)),
                 code);
    }
  }

  lemma CodReconciledAvoids(s: Books, order: OrderId, amount: int, seller: Option<UserId>, rate: int, on: Date,
                            code: int)
    requires code in TIED_CODES
    ensures Untouched(s, CodReconciled(s, order, amount, seller, rate, on).books, code)
  {
    RecognitionLinesAvoid(2060, amount, rate, seller, code);
    PostAvoids(s, on, RecognitionLines(2060, amount, rate, seller), AutoMemo("COD reconciled", ForOrder(order)), code);
  }

  lemma RefundAvoids(s: Books, order: OrderId, amount: int, target: RefundTarget, user: Option<UserId>,
                     told: Option<bool>, seller: Option<UserId>, on: Date, code: int)
    requires code in TIED_CODES
    ensures Untouched(s, Refund(s, order, amount, target, user, told, seller, on).books, code)
  {
    PostAvoids(s, on, RefundLines(DrawsOnSeller(s.escrow, order, told), amount, target, user, seller),
               AutoMemo("Refund", ForOrder(order)), code);
  }

  lemma PayoutAvoids(s: Books, payee: UserId, batch: string, on: Date, code: int)
    requires code in TIED_CODES
    ensures Untouched(s, SellerPayout(s, payee, batch, on).books, code)
  {
    var total := PayableTotal(s.payables, payee);
    PostAvoids(s, on, [DrOf(2020, total, Some(payee)), Cr(1000, total)], AutoMemo("Seller payout", ForBatch(batch)),
               code);
  }

  lemma ReserveAvoids(s: Books, expected: int, on: Date, code: int)
    requires code in TIED_CODES
    ensures Untouched(s, AdjustReserve(s, expected, on).books, code)
  {
  }

  lemma FxAvoids(s: Books, gain: int, currency: string, on: Date, code: int)
    requires code in TIED_CODES
    ensures Untouched(s, FxRevaluation(s, gain, currency, on).books, code)
  {
  }

  lemma RecogniseRowAvoids(s: Books, i: nat, on: Date, code: int)
    requires code != 2100 && (i < |s.deferred| ==> s.deferred[i].revenueAccount != code)
    ensures Untouched(s, RecogniseRow(s, i, on).books, code)
  {
    if i < |s.deferred| && s.deferred[i].active && s.deferred[i].monthsRecognised < s.deferred[i].monthsTotal {
      var d := s.deferred[i];
      var m := MonthlyRecognition(d);
      PostAvoids(s, on, [Dr(2100, m), CrOf(d.revenueAccount, m, Some(d.seller))],
                 AutoMemo("Recognise deferred revenue", ForDeferred(i)), code);
    }
  }

  lemma AmortiseRowAvoids(s: Books, i: nat, on: Date, code: int)
    requires code in TIED_CODES && code != 1450
    ensures Untouched(s, AmortiseRow(s, i, on).books, code)
  {
    if i < |s.assets| && s.assets[i].life > 0 {
      var m := MonthlyAmortisation(s.assets[i]);
      PostAvoids(s, on, [Dr(6011, m), Cr(1450, m)], AutoMemo("Amortise", ForAsset(i)), code);
    }
  }

  /** The guard does what it says, for every call. */
  lemma StepAvoids(s: Books, a: Action, code: int)
    requires code in TIED_CODES && Avoids(s, a, code)
    ensures Untouched(s, Step(s, a).books, code)
  {
    match a {
      case DoEvent(e, on) => EventAvoids(s, e, on, code);
      case DoReverse(_, _, _) => CorrectionAvoids(s, a, code);
      case DoDecideManual(_, _, _) => CorrectionAvoids(s, a, code);
      case DoBuyerPaid(order, amount, seller, cash, on) => BuyerPaidAvoids(s, order, amount, seller, cash, on, code);
      case DoWalletSpend(user, order, amount, seller, on) =>
        WalletSpendAvoids(s, user, order, amount, seller, on, code);
      case DoDelivery(order, rate, on) => DeliveryAvoids(s, order, rate, on, code);
      case DoCodReconciled(order, amount, seller, rate, on) =>
        CodReconciledAvoids(s, order, amount, seller, rate, on, code);
      case DoRefund(order, amount, target, buyer, told, seller, on) =>
        RefundAvoids(s, order, amount, target, buyer, told, seller, on, code);
      case DoPayout(payee, batch, on) => PayoutAvoids(s, payee, batch, on, code);
      case DoReserve(expected, on) => ReserveAvoids(s, expected, on, code);
      case DoFx(gain, currency, on) => FxAvoids(s, gain, currency, on, code);
      case DoRecognise(i, on) => RecogniseRowAvoids(s, i, on, code);
      case DoAmortise(i, on) => AmortiseRowAvoids(s, i, on, code);
      case _ =>
    }
  }

  lemma {:induction false} AvoidedLinesCountNothing(q: Query, ls: seq<Line>, code: int)
    requires q.codes == {code} && LinesAvoid(ls, code)
    ensures LinesNet(q, ls) == 0 && LinesDebit(q, ls) == 0
  {
    if ls != [] {
      AvoidedLinesCountNothing(q, ls[..|ls| - 1], code);
    }
  }

  lemma UntouchedKeepsBalance(s: Books, s': Books, code: int)
    requires Untouched(s, s', code)
    ensures Net(OfParty(code, Everyone), s'.journal) == Net(OfParty(code, Everyone), s.journal)
    ensures Debited(OfParty(code, Everyone), s'.journal) == Debited(OfParty(code, Everyone), s.journal)
  {
    if s'.journal != s.journal {
      var e := s'.journal[|s.journal|];
      assert s'.journal == s.journal + [e] && s'.journal[..|s.journal|] == s.journal;
      NetAppend(OfParty(code, Everyone), s.journal, e);
      AvoidedLinesCountNothing(OfParty(code, Everyone), e.lines, code);
    }
  }

  // ---- The three ties ---------------------------------------------------------------------------

  predicate DeferredTieKept(s: Books, a: Action) {
    a.DoRecognise? || Avoids(s, a, 2100)
  }

  predicate AssetTieKept(s: Books, a: Action) {
    a.DoAmortise? || Avoids(s, a, 1450)
  }

  predicate ShortfallTieKept(s: Books, a: Action) {
    (a.DoEvent? && a.event.CourierShortfall?) || Avoids(s, a, 1101)
  }

  function ReceivableAmounts(rows: seq<Receivable>): seq<int> {
    seq(|rows|, i requires 0 <= i < |rows| => rows[i].amount)
  }

  /** The part of account 1101 that the courier receivables do not account for. */
  function UnexplainedShortfall(s: Books): int {
    Net(OfParty(1101, Everyone), s.journal) - Sum(ReceivableAmounts(s.receivables))
  }

  lemma DeferredTieStep(s: Books, a: Action)
    requires DeferredTieKept(s, a)
    ensures Deferred.Unexplained(Step(s, a).books) == Deferred.Unexplained(s)
  {
    match a {
      case DoRecognise(i, on) =>
        if i < |s.deferred| {
          Deferred.RowConserves(s, i, on);
        }
      case _ =>
        StepAvoids(s, a, 2100);
        UntouchedKeepsBalance(s, Step(s, a).books, 2100);
        StepKeepsFrame(s, a);
    }
  }

  lemma AssetTieStep(s: Books, a: Action)
    requires AssetTieKept(s, a)
    ensures Amortisation.Unexplained(Step(s, a).books) == Amortisation.Unexplained(s)
  {
    match a {
      case DoAmortise(i, on) =>
        if i < |s.assets| {
          Amortisation.AssetConserves(s, i, on);
        }
      case _ =>
        StepAvoids(s, a, 1450);
        UntouchedKeepsBalance(s, Step(s, a).books, 1450);
        StepKeepsFrame(s, a);
    }
  }

  lemma ShortfallConserves(s: Books, e: Event, on: Date)
    requires e.CourierShortfall?
    ensures UnexplainedShortfall(PostEvent(s, e, on).books) == UnexplainedShortfall(s)
  {
    var s', short := PostEvent(s, e, on).books, e.expected - e.deposited;
    if PostEvent(s, e, on).error.None? {
      var lines, q := EventLines(e), OfParty(1101, Everyone);
      PostAppends(s, on, lines, EventMemo(e));
      AppendMoves(s, s', lines, q);
      TripleNet(q, lines[0], lines[1], lines[2]);
      assert ReceivableAmounts(s'.receivables) == ReceivableAmounts(s.receivables) + [short];
      SumAppend(ReceivableAmounts(s.receivables), short);
    }
  }

  lemma ShortfallTieStep(s: Books, a: Action)
    requires ShortfallTieKept(s, a)
    ensures UnexplainedShortfall(Step(s, a).books) == UnexplainedShortfall(s)
  {
    if a.DoEvent? && a.event.CourierShortfall? {
      ShortfallConserves(s, a.event, a.on);
    } else {
      StepAvoids(s, a, 1101);
      UntouchedKeepsBalance(s, Step(s, a).books, 1101);
      StepKeepsFrame(s, a);
    }
  }

  /** Each call of the run keeps the tie of one account. */
  ghost predicate TieKeptThroughout(s: Books, actions: seq<Action>, code: int)
    requires code in TIED_CODES
  {
    actions == []
    || (var init, a := actions[..|actions| - 1], actions[|actions| - 1];
        && TieKeptThroughout(s, init, code)
        && (match code
            case 2100 => DeferredTieKept(Run(s, init), a)
            case 1450 => AssetTieKept(Run(s, init), a)
            case _ => ShortfallTieKept(Run(s, init), a)))
  }

  /** Over every run without other postings to 2100, its debits move by exactly what the deferred rows
      recognise. */
  lemma {:induction false} DeferredRowsExplainTheirAccount(s: Books, actions: seq<Action>)
    requires TieKeptThroughout(s, actions, 2100)
    ensures Deferred.Unexplained(Run(s, actions)) == Deferred.Unexplained(s)
  {
    if actions != [] {
      DeferredRowsExplainTheirAccount(s, actions[..|actions| - 1]);
      DeferredTieStep(Run(s, actions[..|actions| - 1]), actions[|actions| - 1]);
    }
  }

  /** Over every run without other postings to 1450, its credit balance moves by exactly what the assets
      amortise. */
  lemma {:induction false} AssetsExplainTheirAccount(s: Books, actions: seq<Action>)
    requires TieKeptThroughout(s, actions, 1450)
    ensures Amortisation.Unexplained(Run(s, actions)) == Amortisation.Unexplained(s)
  {
    if actions != [] {
      AssetsExplainTheirAccount(s, actions[..|actions| - 1]);
      AssetTieStep(Run(s, actions[..|actions| - 1]), actions[|actions| - 1]);
    }
  }

  /** Over every run without other postings to 1101, its balance moves by exactly the shortfalls recorded as
      receivable from couriers. */
  lemma {:induction false} ReceivablesExplainTheirAccount(s: Books, actions: seq<Action>)
    requires TieKeptThroughout(s, actions, 1101)
    ensures UnexplainedShortfall(Run(s, actions)) == UnexplainedShortfall(s)
  {
    if actions != [] {
      ReceivablesExplainTheirAccount(s, actions[..|actions| - 1]);
      ShortfallTieStep(Run(s, actions[..|actions| - 1]), actions[|actions| - 1]);
    }
  }
}
