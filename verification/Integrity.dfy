/** What every service call keeps: a sound, sealed, append-only journal; and what follows from it. */
module Integrity {
  import opened Common
  import opened Chart
  import opened AuditChain
  import opened Journal
  import opened Statements
  import opened Books

  // ---- What every call keeps ----------------------------------------------------------------

  /** The journal only grows, by sound entries sealed onto its tail, in periods that are open. */
  ghost predicate Grows(s: Books, s': Books) {
    && s'.hash == s.hash && s'.stamps == s.stamps && s'.accounts == s.accounts
    && s.journal <= s'.journal
    && |s'.journal| <= |s.journal| + 1
    && forall i :: |s.journal| <= i < |s'.journal| ==>
         && SoundEntry(s.accounts, s'.journal[i])
         && !IsLocked(s.locks, s'.journal[i].period)
         && ChainRow(s'.journal[i]) == Seal(s.hash, Chain(s.journal), ChainPayload(s'.journal[i]))
  }

  lemma PostGrows(s: Books, date: Date, lines: seq<Line>, memo: Memo)
    ensures Grows(s, Post(s, date, lines, memo).books)
  {
    if PostingError(s.accounts, s.locks, date, lines).None? {
      PostedEntryIsSound(s.hash, s.stamps(|s.journal|), s.journal, s.accounts, s.locks, date, lines, memo);
    }
  }

  /** One posting, and changes to no other table than the named ones. */
  ghost predicate GrowsWithin(s: Books, s': Books, named: Books) {
    Grows(s, s') && s' == named.(journal := s'.journal)
  }

  lemma PostEventGrows(s: Books, e: Event, on: Date)
    ensures var s' := PostEvent(s, e, on).books;
            GrowsWithin(s, s', s.(receivables := s'.receivables))
  {
    forall date, lines, memo {
      PostGrows(s, date, lines, memo);
    }
  }

  lemma ReverseEntryGrows(s: Books, i: nat, poster: Option<UserId>, on: Date)
    ensures var s' := ReverseEntry(s, i, poster, on).books;
            GrowsWithin(s, s', s)
  {
    forall date, lines, memo {
      PostGrows(s, date, lines, memo);
    }
  }

  lemma AdjustReserveGrows(s: Books, expected: int, on: Date)
    ensures var s' := AdjustReserve(s, expected, on).books;
            GrowsWithin(s, s', s)
  {
    forall date, lines, memo {
      PostGrows(s, date, lines, memo);
    }
  }

  lemma FxRevaluationGrows(s: Books, gain: int, currency: string, on: Date)
    ensures var s' := FxRevaluation(s, gain, currency, on).books;
            GrowsWithin(s, s', s)
  {
    forall date, lines, memo {
      PostGrows(s, date, lines, memo);
    }
  }

  lemma BuyerPaidGrows(s: Books, order: OrderId, gross: int, seller: Option<UserId>, cash: int, on: Date)
    ensures var s' := BuyerPaid(s, order, gross, seller, cash, on).books;
            GrowsWithin(s, s', s.(escrow := s'.escrow))
  {
    forall date, lines, memo {
      PostGrows(s, date, lines, memo);
    }
  }

  lemma WalletSpendGrows(s: Books, user: UserId, order: OrderId, amount: int, seller: Option<UserId>, on: Date)
    ensures var s' := WalletSpend(s, user, order, amount, seller, on).books;
            GrowsWithin(s, s', s.(escrow := s'.escrow))
  {
    forall date, lines, memo {
      PostGrows(s, date, lines, memo);
    }
  }

  lemma DeliveryConfirmedGrows(s: Books, order: OrderId, rate: int, on: Date)
    ensures var s' := DeliveryConfirmed(s, order, rate, on).books;
            GrowsWithin(s, s', s.(escrow := s'.escrow, payables := s'.payables))
  {
    forall date, lines, memo {
      PostGrows(s, date, lines, memo);
    }
  }

  lemma CodReconciledGrows(s: Books, order: OrderId, amount: int, seller: Option<UserId>, rate: int, on: Date)
    ensures var s' := CodReconciled(s, order, amount, seller, rate, on).books;
            GrowsWithin(s, s', s.(payables := s'.payables))
  {
    forall date, lines, memo {
      PostGrows(s, date, lines, memo);
    }
  }

  lemma RefundGrows(s: Books, order: OrderId, amount: int, target: RefundTarget, buyer: Option<UserId>,
                    told: Option<bool>,
                    seller: Option<UserId>, on: Date)
    ensures var s' := Refund(s, order, amount, target, buyer, told, seller, on).books;
            GrowsWithin(s, s', s.(escrow := s'.escrow))
  {
    forall date, lines, memo {
      PostGrows(s, date, lines, memo);
    }
  }

  lemma SellerPayoutGrows(s: Books, payee: UserId, batch: string, on: Date)
    ensures var s' := SellerPayout(s, payee, batch, on).books;
            GrowsWithin(s, s', s.(payables := s'.payables))
  {
    forall date, lines, memo {
      PostGrows(s, date, lines, memo);
    }
  }

  lemma RecogniseRowGrows(s: Books, i: nat, on: Date)
    ensures var s' := RecogniseRow(s, i, on).books;
            GrowsWithin(s, s', s.(deferred := s'.deferred))
  {
    forall date, lines, memo {
      PostGrows(s, date, lines, memo);
    }
  }

  lemma AmortiseRowGrows(s: Books, i: nat, on: Date)
    ensures var s' := AmortiseRow(s, i, on).books;
            GrowsWithin(s, s', s.(assets := s'.assets))
  {
    forall date, lines, memo {
      PostGrows(s, date, lines, memo);
    }
  }

  lemma DecideManualGrows(s: Books, i: nat, approver: UserId, accept: bool)
    ensures var s' := DecideManual(s, i, approver, accept).books;
            GrowsWithin(s, s', s.(manual := s'.manual))
  {
    forall date, lines, memo {
      PostGrows(s, date, lines, memo);
    }
  }

  /** Which call may touch which table. */
  ghost predicate FrameKept(s: Books, a: Action, s': Books) {
    && (s'.locks == s.locks || a.DoLock? || a.DoUnlock?)
    && (s'.snapshots == s.snapshots || a.DoSnapshot?)
    && (s'.escrow == s.escrow || a.DoBuyerPaid? || a.DoWalletSpend? || a.DoDelivery? || a.DoRefund?)
    && (s'.payables == s.payables || a.DoDelivery? || a.DoCodReconciled? || a.DoPayout?)
    && (s'.receivables == s.receivables || (a.DoEvent? && a.event.CourierShortfall?))
    && (s'.deferred == s.deferred || a.DoRecognise?)
    && (s'.assets == s.assets || a.DoAmortise?)
    && (s'.manual == s.manual || a.DoRequestManual? || a.DoDecideManual?)
  }

  lemma PostingCallsKeep(s: Books, a: Action)
    requires a.DoEvent? || a.DoReverse? || a.DoReserve? || a.DoFx?
    ensures Grows(s, Step(s, a).books) && FrameKept(s, a, Step(s, a).books)
  {
    match a {
      case DoEvent(e, on) => PostEventGrows(s, e, on);
      case DoReverse(i, poster, on) => ReverseEntryGrows(s, i, poster, on);
      case DoReserve(expected, on) => AdjustReserveGrows(s, expected, on);
      case DoFx(gain, currency, on) => FxRevaluationGrows(s, gain, currency, on);
    }
  }

  lemma PaymentCallsKeep(s: Books, a: Action)
    requires a.DoBuyerPaid? || a.DoWalletSpend? || a.DoRefund?
    ensures Grows(s, Step(s, a).books) && FrameKept(s, a, Step(s, a).books)
  {
    match a {
      case DoBuyerPaid(order, gross, seller, cash, on) => BuyerPaidGrows(s, order, gross, seller, cash, on);
      case DoWalletSpend(user, order, amount, seller, on) => WalletSpendGrows(s, user, order, amount, seller, on);
      case DoRefund(order, amount, target, buyer, told, seller, on) =>
        RefundGrows(s, order, amount, target, buyer, told, seller, on);
    }
  }

  lemma SellerCallsKeep(s: Books, a: Action)
    requires a.DoDelivery? || a.DoCodReconciled? || a.DoPayout?
    ensures Grows(s, Step(s, a).books) && FrameKept(s, a, Step(s, a).books)
  {
    match a {
      case DoDelivery(order, rate, on) => DeliveryConfirmedGrows(s, order, rate, on);
      case DoCodReconciled(order, amount, seller, rate, on) => CodReconciledGrows(s, order, amount, seller, rate, on);
      case DoPayout(payee, batch, on) => SellerPayoutGrows(s, payee, batch, on);
    }
  }

  lemma RowCallsKeep(s: Books, a: Action)
    requires a.DoRecognise? || a.DoAmortise? || a.DoDecideManual?
    ensures Grows(s, Step(s, a).books) && FrameKept(s, a, Step(s, a).books)
  {
    match a {
      case DoRecognise(i, on) => RecogniseRowGrows(s, i, on);
      case DoAmortise(i, on) => AmortiseRowGrows(s, i, on);
      case DoDecideManual(i, approver, accept) => DecideManualGrows(s, i, approver, accept);
    }
  }

  /** Every call of the service layer, failing or not, grows the journal in this way. */
  lemma StepGrows(s: Books, a: Action)
    ensures Grows(s, Step(s, a).books)
  {
    if a.DoEvent? || a.DoReverse? || a.DoReserve? || a.DoFx? {
      PostingCallsKeep(s, a);
    } else if a.DoBuyerPaid? || a.DoWalletSpend? || a.DoRefund? {
      PaymentCallsKeep(s, a);
    } else if a.DoDelivery? || a.DoCodReconciled? || a.DoPayout? {
      SellerCallsKeep(s, a);
    } else if a.DoRecognise? || a.DoAmortise? || a.DoDecideManual? {
      RowCallsKeep(s, a);
    }
  }

  lemma StepKeepsFrame(s: Books, a: Action)
    ensures FrameKept(s, a, Step(s, a).books)
  {
    if a.DoEvent? || a.DoReverse? || a.DoReserve? || a.DoFx? {
      PostingCallsKeep(s, a);
    } else if a.DoBuyerPaid? || a.DoWalletSpend? || a.DoRefund? {
      PaymentCallsKeep(s, a);
    } else if a.DoDelivery? || a.DoCodReconciled? || a.DoPayout? {
      SellerCallsKeep(s, a);
    } else if a.DoRecognise? || a.DoAmortise? || a.DoDecideManual? {
      RowCallsKeep(s, a);
    }
  }

  ghost predicate ValidBooks(s: Books) {
    && SoundJournal(s.accounts, s.journal)
    && Sealed(s.hash, Chain(s.journal))
  }

  lemma GrowthKeepsValid(s: Books, s': Books)
    requires ValidBooks(s) && Grows(s, s')
    ensures ValidBooks(s')
  {
    if s'.journal != s.journal {
      var e := s'.journal[|s.journal|];
      assert Chain(s'.journal) == Chain(s.journal) + [ChainRow(e)];
      SealExtends(s.hash, Chain(s.journal), ChainPayload(e));
    }
  }

  lemma StepKeepsValid(s: Books, a: Action)
    requires ValidBooks(s)
    ensures ValidBooks(Step(s, a).books)
  {
    StepGrows(s, a);
    GrowthKeepsValid(s, Step(s, a).books);
  }

  lemma {:induction false} RunKeepsValid(s: Books, actions: seq<Action>)
    requires ValidBooks(s)
    ensures ValidBooks(Run(s, actions))
    ensures s.journal <= Run(s, actions).journal && Run(s, actions).hash == s.hash
    ensures Run(s, actions).accounts == s.accounts
  {
    if actions != [] {
      var n := |actions| - 1;
      RunKeepsValid(s, actions[..n]);
      StepGrows(Run(s, actions[..n]), actions[n]);
      GrowthKeepsValid(Run(s, actions[..n]), Run(s, actions));
    }
  }

  /** In every reachable state and at every date the trial balance balances; and so does the balance
      sheet, exactly when the accounts that were added outside the chart net to zero. */
  lemma StatementsAlwaysBalance(s: Books, actions: seq<Action>, asOf: Option<Date>)
    requires ValidBooks(s)
    ensures TrialBalanceOf(s.accounts, asOf, Run(s, actions).journal).balanced
    ensures BalanceSheet(asOf, Run(s, actions).journal).balanced
            <==> Net(UpTo(s.accounts - CHART, asOf), Run(s, actions).journal) == 0
    ensures s.accounts <= CHART ==> BalanceSheet(asOf, Run(s, actions).journal).balanced
  {
    RunKeepsValid(s, actions);
    TrialBalanceBalances(s.accounts, asOf, Run(s, actions).journal);
    BalanceSheetBalances(s.accounts, asOf, Run(s, actions).journal);
  }

  /** The books of a new deployment, over any account table. */
  function Opening(h: Digest<Payload>, stamps: nat -> Stamp, accounts: set<int>,
                   deferred: seq<DeferredRow>, assets: seq<AssetRow>): (s: Books)
    ensures ValidBooks(s)
  {
    Books(h, stamps, accounts, [], map[], [], [], [], deferred, assets, [], map[])
  }

  ghost predicate SameContent(a: seq<Entry>, b: seq<Entry>) {
    |a| == |b| && forall i :: 0 <= i < |a| ==> ChainPayload(a[i]) == ChainPayload(b[i])
  }

  ghost predicate SameHead(a: seq<Entry>, b: seq<Entry>) {
    a != [] && b != [] && a[|a| - 1].entryHash == b[|b| - 1].entryHash
  }

  lemma SealedJournalsCommit(h: Digest<Payload>, a: seq<Entry>, b: seq<Entry>)
    requires Sealed(h, Chain(a)) && Sealed(h, Chain(b))
    ensures SameHead(a, b) ==> SameContent(a, b) || HasCollision(h, Chain(a), Chain(b))
  {
    if SameHead(a, b) {
      HeadCommitsToHistory(h, Chain(a), Chain(b));
      if Chain(a) == Chain(b) {
        assert forall i :: 0 <= i < |a| ==> Chain(a)[i] == Chain(b)[i];
      }
    }
  }

  ghost predicate Numbered(j: seq<Entry>) {
    forall i :: 0 <= i < |j| ==> j[i].seqNo == i + 1
  }

  lemma JournalNumbering(h: Digest<Payload>, j: seq<Entry>)
    requires Sealed(h, Chain(j))
    ensures Numbered(j)
  {
    forall i | 0 <= i < |j|
      ensures j[i].seqNo == i + 1
    {
      SealedNumbering(h, Chain(j), i);
      assert Chain(j)[i] == ChainRow(j[i]);
    }
  }

  /** Reachable journals are numbered 1..n without a gap, and their head digest commits to the
      whole history: two journals with the same head hold the same hashed content in every entry,
      lines included, unless the digest function collides. */
  lemma JournalHeadCommits(s: Books, actions: seq<Action>, t: Books, others: seq<Action>)
    requires ValidBooks(s) && ValidBooks(t) && s.hash == t.hash
    ensures Numbered(Run(s, actions).journal)
    ensures SameHead(Run(s, actions).journal, Run(t, others).journal) ==>
              || SameContent(Run(s, actions).journal, Run(t, others).journal)
              || HasCollision(s.hash, Chain(Run(s, actions).journal), Chain(Run(t, others).journal))
  {
    RunKeepsValid(s, actions);
    RunKeepsValid(t, others);
    JournalNumbering(s.hash, Run(s, actions).journal);
    SealedJournalsCommit(s.hash, Run(s, actions).journal, Run(t, others).journal);
  }

  /** Two lines of the same account and amounts. */
  predicate SameMoney(a: Line, b: Line) {
    b == a.(party := b.party, description := b.description, currency := b.currency)
  }

  /** What the digest leaves out. Of the columns modelled here, the key, the time and the approver of an
      entry and the party, text and currency of its lines can be changed without changing its hashed
      content, and nothing else can. */
  lemma PayloadOmissions(a: Entry, b: Entry)
    ensures ChainPayload(a) == ChainPayload(b) <==>
            && b == a.(stamp := b.stamp, memo := a.memo.(approvedBy := b.memo.approvedBy), lines := b.lines,
                       seqNo := b.seqNo, prevHash := b.prevHash, entryHash := b.entryHash)
            && |b.lines| == |a.lines|
            && forall i :: 0 <= i < |a.lines| ==> SameMoney(a.lines[i], b.lines[i])
  {
    if ChainPayload(a) == ChainPayload(b) {
      assert |LineContent(a.lines)| == |LineContent(b.lines)|;
      forall i | 0 <= i < |a.lines|
        ensures SameMoney(a.lines[i], b.lines[i])
      {
        assert LineContent(a.lines)[i] == LineContent(b.lines)[i];
      }
    } else if |b.lines| == |a.lines| && (forall i :: 0 <= i < |a.lines| ==> SameMoney(a.lines[i], b.lines[i])) {
      assert LineContent(a.lines) == LineContent(b.lines);
    }
  }
}
