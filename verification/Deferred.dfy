/** Straight-line recognition of deferred revenue comes out exact. */
module Deferred {
  import opened Common
  import opened Journal
  import opened Books
  import opened Reconciliation

  /** The row posts an entry when the sweep reaches it. */
  predicate PostsThisMonth(d: DeferredRow) {
    d.active && d.monthsRecognised < d.monthsTotal
  }

  /** The row after one sweep that did not raise on it. */
  function NextRow(d: DeferredRow): DeferredRow {
    if !d.active then d
    else if d.monthsRecognised >= d.monthsTotal then d.(active := false)
    else d.(recognised := d.recognised + MonthlyRecognition(d), monthsRecognised := d.monthsRecognised + 1,
            active := d.monthsRecognised + 1 < d.monthsTotal)
  }

  predicate CanRecognise(s: Books, d: DeferredRow, on: Date) {
    PostsThisMonth(d) ==> && !IsLocked(s.locks, PeriodOf(on))
                          && MonthlyRecognition(d) > 0
                          && 2100 in s.accounts && d.revenueAccount in s.accounts
  }

  lemma TwoLinePosting(s: Books, date: Date, debited: int, credited: int, party: Option<UserId>, amount: int,
                       memo: Memo)
    ensures Post(s, date, [Dr(debited, amount), CrOf(credited, amount, party)], memo).error.None?
            <==> !IsLocked(s.locks, PeriodOf(date)) && amount > 0 && debited in s.accounts && credited in s.accounts
  {
    var d, c := Dr(debited, amount), CrOf(credited, amount, party);
    assert [d, c][..1] == [d] && [d][..0] == [];
    assert TotalDebit([d]) == amount && TotalCredit([d]) == 0;
    assert [d, c][0] == d && [d, c][1] == c;
  }

  /** One row: when it raises, and what it becomes otherwise. */
  lemma RowCall(s: Books, i: nat, on: Date)
    requires i < |s.deferred|
    ensures RecogniseRow(s, i, on).error.None? <==> CanRecognise(s, s.deferred[i], on)
    ensures var s' := RecogniseRow(s, i, on).books;
            && s'.locks == s.locks && s'.accounts == s.accounts && s'.assets == s.assets
            && s'.deferred == if CanRecognise(s, s.deferred[i], on) then s.deferred[i := NextRow(s.deferred[i])]
                              else s.deferred
  {
    var d := s.deferred[i];
    if PostsThisMonth(d) {
      TwoLinePosting(s, on, 2100, d.revenueAccount, Some(d.seller), MonthlyRecognition(d),
                     AutoMemo("Recognise deferred revenue", ForDeferred(i)));
    }
  }

  /** The whole sweep: it raises exactly at the first row that cannot post; the rows before that one
      advance, that one and all after it stay as they were. */
  lemma {:induction false} SweepCall(s: Books, i: nat, on: Date) returns (stop: nat)
    requires i <= |s.deferred|
    ensures i <= stop <= |s.deferred|
    ensures forall k :: i <= k < stop ==> CanRecognise(s, s.deferred[k], on)
    ensures stop < |s.deferred| ==> !CanRecognise(s, s.deferred[stop], on)
    ensures RecogniseFrom(s, i, on).error.None? <==> stop == |s.deferred|
    ensures var rows := RecogniseFrom(s, i, on).books.deferred;
            && |rows| == |s.deferred|
            && forall k :: 0 <= k < |rows| ==>
                 rows[k] == if i <= k < stop then NextRow(s.deferred[k]) else s.deferred[k]
    ensures var s' := RecogniseFrom(s, i, on).books;
            s'.locks == s.locks && s'.accounts == s.accounts && s'.assets == s.assets
    decreases |s.deferred| - i
  {
    stop := i;
    if i < |s.deferred| {
      RowCall(s, i, on);
      if CanRecognise(s, s.deferred[i], on) {
        var s' := RecogniseRow(s, i, on).books;
        stop := SweepCall(s', i + 1, on);
        assert forall k :: i < k < |s.deferred| ==> s'.deferred[k] == s.deferred[k];
        assert forall k :: i < k < stop ==> CanRecognise(s', s'.deferred[k], on);
      }
    }
  }

  // ---- Month after month --------------------------------------------------------------------

  function RowAfter(d: DeferredRow, k: nat): DeferredRow {
    if k == 0 then d else NextRow(RowAfter(d, k - 1))
  }

  predicate FreshRow(d: DeferredRow) {
    d.active && d.recognised == 0 && d.monthsRecognised == 0 && d.monthsTotal >= 1
  }

  /** After k months a row has recognised k equal instalments, and from the last month on the whole
      amount: the last instalment takes the rounding remainder. */
  lemma {:induction false} StraightLine(d: DeferredRow, k: nat)
    requires FreshRow(d)
    ensures var instalment := d.total / d.monthsTotal;
            RowAfter(d, k) == d.(
              recognised := if k < d.monthsTotal then k * instalment else d.total,
              monthsRecognised := if k < d.monthsTotal then k else d.monthsTotal,
              active := k < d.monthsTotal)
  {
    if k > 0 {
      StraightLine(d, k - 1);
      assert k * (d.total / d.monthsTotal) == (k - 1) * (d.total / d.monthsTotal) + d.total / d.monthsTotal;
    }
  }

  /** The schedule of a row never raises on its amount exactly when it defers at least one cent a month. */
  lemma ScheduleRunsIff(d: DeferredRow)
    requires FreshRow(d)
    ensures (forall k :: 0 <= k < d.monthsTotal ==> MonthlyRecognition(StateAt(d, k)) > 0) <==> d.total >= d.monthsTotal
  {
    var n := d.monthsTotal;
    var instalment := d.total / n;
    if d.total >= n {
      assert instalment >= 1;
      forall k | 0 <= k < n
        ensures MonthlyRecognition(StateAt(d, k)) > 0
      {
        LastInstalment(d.total, n);
      }
    } else {
      assert MonthlyRecognition(StateAt(d, 0)) <= 0;
    }
  }

  /** The row as the sweep of month k (counted from 0) finds it. */
  function StateAt(d: DeferredRow, k: nat): (r: DeferredRow)
    requires FreshRow(d) && k < d.monthsTotal
    ensures r == RowAfter(d, k) && PostsThisMonth(r)
  {
    StraightLine(d, k);
    d.(recognised := k * (d.total / d.monthsTotal), monthsRecognised := k, active := true)
  }

  lemma LastInstalment(total: int, n: nat)
    requires n >= 1
    ensures total - (n - 1) * (total / n) >= total / n
  {
    assert (n - 1) * (total / n) + total / n == n * (total / n);
  }

  /** A row that has run its schedule for some months can run the next one. */
  lemma NextMonthRuns(d: DeferredRow, k: nat)
    requires FreshRow(d) && d.total >= d.monthsTotal
    ensures PostsThisMonth(RowAfter(d, k)) ==> MonthlyRecognition(RowAfter(d, k)) > 0
    ensures RowAfter(d, k).revenueAccount == d.revenueAccount
  {
    StraightLine(d, k);
    ScheduleRunsIff(d);
    if k < d.monthsTotal {
      assert MonthlyRecognition(StateAt(d, k)) > 0;
    }
  }

  lemma FirstInstalment(d: DeferredRow)
    requires FreshRow(d)
    ensures MonthlyRecognition(d) > 0 <==> d.total >= d.monthsTotal
  {
    if d.monthsTotal > 1 {
      assert d.total / d.monthsTotal >= 1 <==> d.total >= d.monthsTotal;
    }
  }

  // ---- Conservation -------------------------------------------------------------------------

  function RecognisedAmounts(rows: seq<DeferredRow>): seq<int> {
    seq(|rows|, i requires 0 <= i < |rows| => rows[i].recognised)
  }

  /** The part of the debits to 2100 that the deferred rows do not account for. */
  function Unexplained(s: Books): int {
    Debited(OfParty(2100, Everyone), s.journal) - Sum(RecognisedAmounts(s.deferred))
  }

  lemma PairDebit(q: Query, d: Line, c: Line)
    requires q.codes == {2100} && q.scope == Everyone && d.account == 2100 && c.debit == 0
    ensures LinesDebit(q, [d, c]) == d.debit
  {
    assert [d, c][..1] == [d] && [d][..0] == [];
    assert LinesDebit(q, [d]) == d.debit;
  }

  lemma DebitMoves(s: Books, s': Books, d: Line, c: Line)
    requires Appends(s, s', [d, c]) && d.account == 2100 && c.debit == 0
    ensures Debited(OfParty(2100, Everyone), s'.journal) == Debited(OfParty(2100, Everyone), s.journal) + d.debit
  {
    assert s'.journal[..|s.journal|] == s.journal;
    PairDebit(OfParty(2100, Everyone), d, c);
  }

  lemma RowUpdated(rows: seq<DeferredRow>, i: nat, d: DeferredRow)
    requires i < |rows|
    ensures Sum(RecognisedAmounts(rows[i := d])) == Sum(RecognisedAmounts(rows)) - rows[i].recognised + d.recognised
  {
    assert RecognisedAmounts(rows[i := d]) == RecognisedAmounts(rows)[i := d.recognised];
    SumUpdate(RecognisedAmounts(rows), i, d.recognised);
  }

  lemma RowPosts(s: Books, i: nat, on: Date)
    requires i < |s.deferred| && PostsThisMonth(s.deferred[i]) && RecogniseRow(s, i, on).error.None?
    ensures var m := MonthlyRecognition(s.deferred[i]);
            Appends(s, RecogniseRow(s, i, on).books,
                    [Dr(2100, m), CrOf(s.deferred[i].revenueAccount, m, Some(s.deferred[i].seller))])
  {
    RecognisePosts(s, i, on);
  }

  lemma RowConserves(s: Books, i: nat, on: Date)
    requires i < |s.deferred|
    ensures Unexplained(RecogniseRow(s, i, on).books) == Unexplained(s)
  {
    RowCall(s, i, on);
    var d := s.deferred[i];
    if CanRecognise(s, d, on) {
      RowUpdated(s.deferred, i, NextRow(d));
      if PostsThisMonth(d) {
        RowPosts(s, i, on);
        DebitMoves(s, RecogniseRow(s, i, on).books, Dr(2100, MonthlyRecognition(d)),
                   CrOf(d.revenueAccount, MonthlyRecognition(d), Some(d.seller)));
      }
    }
  }

  /** A sweep, complete or cut short, debits 2100 by exactly what the rows recognise. */
  lemma {:induction false} SweepConserves(s: Books, i: nat, on: Date)
    requires i <= |s.deferred|
    ensures Unexplained(RecogniseFrom(s, i, on).books) == Unexplained(s)
    decreases |s.deferred| - i
  {
    if i < |s.deferred| {
      RowConserves(s, i, on);
      if RecogniseRow(s, i, on).error.None? {
        SweepConserves(RecogniseRow(s, i, on).books, i + 1, on);
      }
    }
  }
}
