/** The period lock, and what a closed month can rely on. */
module Periods {
  import opened Common
  import opened Chart
  import opened AuditChain
  import opened Journal
  import opened Statements
  import opened Books
  import opened Integrity
  import opened Reconciliation

  /** Entries outside a period leave its profit and loss alone. */
  lemma PnlUnpicked(p: Period, j: seq<Entry>, j': seq<Entry>)
    requires j <= j'
    requires forall i :: |j| <= i < |j'| ==> j'[i].period != p
    ensures ProfitAndLoss(p, j') == ProfitAndLoss(p, j)
  {
    forall codes: set<int>
      ensures Net(InPeriod(codes, p), j') == Net(InPeriod(codes, p), j)
    {
      NetUnpicked(InPeriod(codes, p), j, j');
    }
  }

  /** The period is locked and its stored statement, if any, shows the current profit and loss. */
  ghost predicate Closed(s: Books, p: Period) {
    && IsLocked(s.locks, p)
    && (p in s.snapshots ==> s.snapshots[p].pnl == ProfitAndLoss(p, s.journal))
  }

  /** Whatever is posted, reversed, recognised, amortised or snapshot: a locked period stays locked
      unless it is unlocked, and its profit and loss stays what it was. */
  lemma LockedPeriodIsFrozen(s: Books, a: Action, p: Period)
    requires IsLocked(s.locks, p) && a != DoUnlock(p)
    ensures IsLocked(Step(s, a).books.locks, p)
    ensures ProfitAndLoss(p, Step(s, a).books.journal) == ProfitAndLoss(p, s.journal)
    ensures Closed(s, p) ==> Closed(Step(s, a).books, p)
    ensures p in s.snapshots ==> p in Step(s, a).books.snapshots
  {
    StepKeepsFrame(s, a);
    StepGrows(s, a);
    PnlUnpicked(p, s.journal, Step(s, a).books.journal);
  }

  /** Over any run that never unlocks it, the profit and loss of a locked period does not change,
      and the stored columns of a closed one keep showing it. */
  lemma {:induction false} LockedPeriodStaysFrozen(s: Books, actions: seq<Action>, p: Period)
    requires IsLocked(s.locks, p) && DoUnlock(p) !in actions
    ensures IsLocked(Run(s, actions).locks, p)
    ensures ProfitAndLoss(p, Run(s, actions).journal) == ProfitAndLoss(p, s.journal)
    ensures Closed(s, p) ==> Closed(Run(s, actions), p)
    ensures p in s.snapshots ==> p in Run(s, actions).snapshots
  {
    if actions != [] {
      var init := actions[..|actions| - 1];
      LockedPeriodStaysFrozen(s, init, p);
      LockedPeriodIsFrozen(Run(s, init), actions[|actions| - 1], p);
    }
  }

  /** The month-end guarantee: once a month was closed with its lock, in every later state of a run
      that does not unlock it the stored profit-and-loss columns equal the recomputed statement, and
      both equal what was reported at the close. */
  lemma ClosedMonthIsFinal(s: Books, p: Period, actions: seq<Action>)
    requires DoUnlock(p) !in actions
    ensures var later := Run(MonthEndClose(s, p, true), actions);
            && p in later.snapshots
            && later.snapshots[p].pnl == ProfitAndLoss(p, later.journal) == ProfitAndLoss(p, s.journal)
  {
    LockedPeriodStaysFrozen(MonthEndClose(s, p, true), actions, p);
  }

  // ---- Locking and unlocking ------------------------------------------------------------------

  /** The calls that decide whether a period is locked. */
  predicate Decides(a: Action, p: Period) {
    a == DoLock(p) || a == DoUnlock(p)
  }

  /** The last call of a run that decides whether the period is locked. */
  ghost predicate LastDecides(actions: seq<Action>, k: nat, p: Period)
    requires k < |actions|
  {
    Decides(actions[k], p) && forall m :: k < m < |actions| ==> !Decides(actions[m], p)
  }

  lemma StepDecidesLock(s: Books, a: Action, p: Period)
    ensures IsLocked(Step(s, a).books.locks, p) <==> a == DoLock(p) || (IsLocked(s.locks, p) && a != DoUnlock(p))
  {
    StepKeepsFrame(s, a);
  }

  ghost predicate Undecided(actions: seq<Action>, p: Period) {
    forall k :: 0 <= k < |actions| ==> !Decides(actions[k], p)
  }

  /** Over every run a period is locked exactly as the last call to lock or unlock it left it; without such a
      call, as it was at the start. */
  lemma {:induction false} LockFollowsLastDecision(s: Books, actions: seq<Action>, p: Period)
    ensures var locked := IsLocked(Run(s, actions).locks, p);
            && (forall k :: 0 <= k < |actions| && LastDecides(actions, k, p) ==> (locked <==> actions[k] == DoLock(p)))
            && (Undecided(actions, p) ==> (locked <==> IsLocked(s.locks, p)))
  {
    if actions != [] {
      var init, a := actions[..|actions| - 1], actions[|actions| - 1];
      LockFollowsLastDecision(s, init, p);
      StepDecidesLock(Run(s, init), a, p);
      LastDecisionAppended(init, a, p);
      assert actions == init + [a];
    }
  }

  lemma LastDecisionAppended(init: seq<Action>, a: Action, p: Period)
    ensures forall k :: 0 <= k <= |init| && LastDecides(init + [a], k, p) ==>
              if k == |init| then Decides(a, p) else !Decides(a, p) && LastDecides(init, k, p)
    ensures Undecided(init + [a], p) ==> Undecided(init, p) && !Decides(a, p)
    ensures !Decides(a, p) ==> forall k :: 0 <= k < |init| ==>
              (LastDecides(init + [a], k, p) <==> LastDecides(init, k, p))
  {
    var all := init + [a];
    assert all[|init|] == a && forall m :: 0 <= m < |init| ==> all[m] == init[m];
  }

  /** After an unlock a posting dated in the period goes through exactly when its lines deserve it, and so it
      does from then on until the period is locked again. */
  lemma UnlockedPeriodTakesPostings(s: Books, actions: seq<Action>, date: Date, lines: seq<Line>, memo: Memo)
    requires DoLock(PeriodOf(date)) !in actions
    ensures Post(Run(Step(s, DoUnlock(PeriodOf(date))).books, actions), date, lines, memo).error.None? <==>
            TotalDebit(lines) == TotalCredit(lines) && lines != [] && GoodLines(s.accounts, lines)
  {
    var p := PeriodOf(date);
    StepDecidesLock(s, DoUnlock(p), p);
    StepGrows(s, DoUnlock(p));
    StayUnlocked(Step(s, DoUnlock(p)).books, actions, p);
    OpenPeriodTakesGoodLines(Run(Step(s, DoUnlock(p)).books, actions), date, lines, memo);
  }

  predicate GoodLines(accounts: set<int>, lines: seq<Line>) {
    forall i :: 0 <= i < |lines| ==> GoodLine(accounts, lines[i])
  }

  lemma OpenPeriodTakesGoodLines(s: Books, date: Date, lines: seq<Line>, memo: Memo)
    requires !IsLocked(s.locks, PeriodOf(date))
    ensures Post(s, date, lines, memo).error.None? <==>
            TotalDebit(lines) == TotalCredit(lines) && lines != [] && GoodLines(s.accounts, lines)
  {
    if GoodLines(s.accounts, lines) {
      GoodLinesTotal(s.accounts, lines);
    }
  }

  lemma {:induction false} StayUnlocked(s: Books, actions: seq<Action>, p: Period)
    requires !IsLocked(s.locks, p) && DoLock(p) !in actions
    ensures !IsLocked(Run(s, actions).locks, p) && Run(s, actions).accounts == s.accounts
  {
    if actions != [] {
      var init, a := actions[..|actions| - 1], actions[|actions| - 1];
      StayUnlocked(s, init, p);
      StepDecidesLock(Run(s, init), a, p);
      StepGrows(Run(s, init), a);
    }
  }

  // ---- What the lock does not freeze ----------------------------------------------------------

  /** By how much lines move the nets of some accounts shown for a month: fully, if they are dated on or before
      the statement date, which is the first day of the next month, and not at all afterwards. */
  ghost function Moves(lines: seq<Line>, codes: set<int>, date: Date, p: Period): int {
    if OnOrBefore(date, SnapshotEnd(p)) then LinesNet(UpTo(codes, None), lines) else 0
  }

  lemma PostingMovesNet(s: Books, date: Date, lines: seq<Line>, memo: Memo, p: Period, codes: set<int>)
    requires Post(s, date, lines, memo).error.None?
    ensures var s' := Post(s, date, lines, memo).books;
            var q := UpTo(codes, Some(SnapshotEnd(p)));
            Net(q, s'.journal) == Net(q, s.journal) + Moves(lines, codes, date, p)
  {
    var e := SealedEntry(s.hash, s.stamps(|s.journal|), s.journal, date, lines, memo);
    var q := UpTo(codes, Some(SnapshotEnd(p)));
    NetAppend(q, s.journal, e);
    LinesNetIgnoresDates(q, UpTo(codes, None), lines);
  }

  /** The balance-sheet columns are not covered by the lock. A posting raises the assets shown for a month by
      what its lines debit to the asset accounts, and lowers the liabilities and the equity, retained earnings
      included, by what they debit there. */
  lemma PostingMovesColumns(s: Books, date: Date, lines: seq<Line>, memo: Memo, p: Period)
    requires Post(s, date, lines, memo).error.None?
    ensures var before, after := SnapshotOf(p, s.journal), SnapshotOf(p, Post(s, date, lines, memo).books.journal);
            && after.assets == before.assets + Moves(lines, ASSET_CODES, date, p)
            && after.liabilities == before.liabilities - Moves(lines, LIABILITY_CODES, date, p)
            && after.equity == before.equity - Moves(lines, EQUITY_CODES + PNL_CODES, date, p)
  {
    PostingMovesNet(s, date, lines, memo, p, ASSET_CODES);
    PostingMovesNet(s, date, lines, memo, p, LIABILITY_CODES);
    PostingMovesNet(s, date, lines, memo, p, EQUITY_CODES + PNL_CODES);
    EquityIsOneNet(Some(SnapshotEnd(p)), s.journal);
    EquityIsOneNet(Some(SnapshotEnd(p)), Post(s, date, lines, memo).books.journal);
  }

  /** So a posting leaves the asset column of a month alone exactly when it is dated later or its lines net to
      zero over the asset accounts. */
  lemma PostingMovesAssetColumn(s: Books, date: Date, lines: seq<Line>, memo: Memo, p: Period)
    requires Post(s, date, lines, memo).error.None?
    ensures var s' := Post(s, date, lines, memo).books;
            SnapshotOf(p, s'.journal).assets == SnapshotOf(p, s.journal).assets
            <==> !OnOrBefore(date, SnapshotEnd(p)) || LinesNet(UpTo(ASSET_CODES, None), lines) == 0
  {
    PostingMovesColumns(s, date, lines, memo, p);
  }

  /** The liability column is as unprotected. */
  lemma PostingMovesLiabilityColumn(s: Books, date: Date, lines: seq<Line>, memo: Memo, p: Period)
    requires Post(s, date, lines, memo).error.None?
    ensures var s' := Post(s, date, lines, memo).books;
            SnapshotOf(p, s'.journal).liabilities == SnapshotOf(p, s.journal).liabilities
            <==> !OnOrBefore(date, SnapshotEnd(p)) || LinesNet(UpTo(LIABILITY_CODES, None), lines) == 0
  {
    PostingMovesColumns(s, date, lines, memo, p);
  }

  /** And so is the equity column, which takes in the retained earnings of all profit-and-loss accounts. */
  lemma PostingMovesEquityColumn(s: Books, date: Date, lines: seq<Line>, memo: Memo, p: Period)
    requires Post(s, date, lines, memo).error.None?
    ensures var s' := Post(s, date, lines, memo).books;
            SnapshotOf(p, s'.journal).equity == SnapshotOf(p, s.journal).equity
            <==> !OnOrBefore(date, SnapshotEnd(p)) || LinesNet(UpTo(EQUITY_CODES + PNL_CODES, None), lines) == 0
  {
    PostingMovesColumns(s, date, lines, memo, p);
  }

  /** A calendar date. */
  predicate RealDate(d: Date) {
    1 <= d.month <= 12 && 1 <= d.day <= 31
  }

  predicate Earlier(a: Period, b: Period) {
    a.year < b.year || (a.year == b.year && a.month < b.month)
  }

  /** Of all dates the statement date of a month covers that month and the earlier ones, and one day more. */
  lemma SnapshotCoversOneDayMore(p: Period, d: Date)
    requires 1 <= p.month <= 12 && RealDate(d)
    ensures OnOrBefore(d, SnapshotEnd(p)) <==>
            || PeriodOf(d) == p || Earlier(PeriodOf(d), p)
            || (d.day == 1 && Earlier(p, PeriodOf(d))
                && 12 * d.year + d.month == 12 * p.year + p.month + 1)
  {
  }

  lemma SaleGoesThrough(s: Books, date: Date, gross: int, memo: Memo)
    requires !IsLocked(s.locks, PeriodOf(date)) && {1020, 2000} <= s.accounts && gross > 0
    ensures Post(s, date, [Dr(1020, gross), Cr(2000, gross)], memo).error.None?
  {
    var d, c := Dr(1020, gross), Cr(2000, gross);
    assert [d, c][..1] == [d] && [d][..0] == [];
    assert TotalDebit([d]) == gross && TotalCredit([d]) == 0;
    assert GoodLine(s.accounts, [d, c][0]) && GoodLine(s.accounts, [d, c][1]);
  }

  /** So a closed month's stored asset column can go stale: a sale dated the first of the next month
      is not stopped by the lock, yet moves the column. */
  lemma FirstOfNextMonthLeaksIntoClosedMonth(s: Books, p: Period, gross: int, memo: Memo)
    requires IsLocked(s.locks, p) && !IsLocked(s.locks, PeriodOf(SnapshotEnd(p)))
    requires {1020, 2000} <= s.accounts && gross > 0
    ensures var o := Post(s, SnapshotEnd(p), [Dr(1020, gross), Cr(2000, gross)], memo);
            && o.error.None?
            && SnapshotOf(p, o.books.journal).assets != SnapshotOf(p, s.journal).assets
  {
    SaleGoesThrough(s, SnapshotEnd(p), gross, memo);
    PostingMovesAssetColumn(s, SnapshotEnd(p), [Dr(1020, gross), Cr(2000, gross)], memo, p);
    PairNet(UpTo(ASSET_CODES, None), Dr(1020, gross), Cr(2000, gross));
  }
}
