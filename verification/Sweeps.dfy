/** The monthly sweeps: straight-line recognition of deferred revenue, and amortisation. */
module Sweeps {
  import opened Common
  import opened Chart
  import opened Journal
  import opened Books
  import opened Reconciliation

  // ---- A sweep is a run of row calls -----------------------------------------------------------

  function RecogniseCalls(i: nat, n: nat, on: Date): seq<Action> {
    seq(n, k requires 0 <= k < n => DoRecognise(i + k, on))
  }

  function AmortiseCalls(i: nat, n: nat, on: Date): seq<Action> {
    seq(n, k requires 0 <= k < n => DoAmortise(i + k, on))
  }

  lemma {:induction false} RunConcat(s: Books, a: seq<Action>, b: seq<Action>)
    ensures Run(s, a + b) == Run(Run(s, a), b)
  {
    if b == [] {
      assert a + b == a;
    } else {
      RunConcat(s, a, b[..|b| - 1]);
      assert (a + b)[..|a + b| - 1] == a + b[..|b| - 1];
    }
  }

  lemma RunFirst(s: Books, a: Action, rest: seq<Action>)
    ensures Run(s, [a] + rest) == Run(Step(s, a).books, rest)
  {
    RunConcat(s, [a], rest);
    RunAppend(s, [], a);
    assert [] + [a] == [a];
  }

  lemma FirstRecognise(s: Books, i: nat, n: nat, on: Date)
    ensures Run(s, RecogniseCalls(i, n + 1, on)) == Run(RecogniseRow(s, i, on).books, RecogniseCalls(i + 1, n, on))
  {
    assert RecogniseCalls(i, n + 1, on) == [DoRecognise(i, on)] + RecogniseCalls(i + 1, n, on);
    RunFirst(s, DoRecognise(i, on), RecogniseCalls(i + 1, n, on));
  }

  lemma FirstAmortise(s: Books, i: nat, n: nat, on: Date)
    ensures Run(s, AmortiseCalls(i, n + 1, on)) == Run(AmortiseRow(s, i, on).books, AmortiseCalls(i + 1, n, on))
  {
    assert AmortiseCalls(i, n + 1, on) == [DoAmortise(i, on)] + AmortiseCalls(i + 1, n, on);
    RunFirst(s, DoAmortise(i, on), AmortiseCalls(i + 1, n, on));
  }

  /** A sweep does what the row calls up to its first failure do one after the other, so whatever
      holds of every run holds in the middle of a sweep as well. */
  lemma {:induction false} RecogniseIsRun(s: Books, i: nat, on: Date) returns (n: nat)
    requires i <= |s.deferred|
    ensures n <= |s.deferred| - i && (RecogniseFrom(s, i, on).error.None? ==> n == |s.deferred| - i)
    ensures RecogniseFrom(s, i, on).books == Run(s, RecogniseCalls(i, n, on))
    decreases |s.deferred| - i
  {
    if i == |s.deferred| {
      n := 0;
    } else {
      var o := RecogniseRow(s, i, on);
      var m := 0;
      if o.error.None? {
        m := RecogniseIsRun(o.books, i + 1, on);
      }
      FirstRecognise(s, i, m, on);
      n := m + 1;
    }
  }

  lemma {:induction false} AmortiseIsRun(s: Books, i: nat, on: Date) returns (n: nat)
    requires i <= |s.assets|
    ensures n <= |s.assets| - i && (AmortiseFrom(s, i, on).error.None? ==> n == |s.assets| - i)
    ensures AmortiseFrom(s, i, on).books == Run(s, AmortiseCalls(i, n, on))
    decreases |s.assets| - i
  {
    if i == |s.assets| {
      n := 0;
    } else {
      var o := AmortiseRow(s, i, on);
      var m := 0;
      if o.error.None? {
        m := AmortiseIsRun(o.books, i + 1, on);
      }
      FirstAmortise(s, i, m, on);
      n := m + 1;
    }
  }

  // ---- Month-end provision ----------------------------------------------------------------------

  /** After an adjustment that went through the reserve account stands at the expected loss, and a
      second one with the same expectation posts nothing. */
  lemma ReserveReachesExpectedLoss(s: Books, expected: int, on: Date, again: Date)
    requires AdjustReserve(s, expected, on).error.None?
    ensures var s' := AdjustReserve(s, expected, on).books;
            && AccountBalance(2050, None, s'.journal) == expected
            && AdjustReserve(s', expected, again) == Done(s')
  {
    var q := UpTo({2050}, None);
    var adjustment := expected - AccountBalance(2050, None, s.journal);
    var memo := Memo("Dispute reserve", Accrual, ForReserve(on), None, None, true, false, None);
    var s' := AdjustReserve(s, expected, on).books;
    if adjustment > 0 {
      var d, c := Dr(5020, adjustment), Cr(2050, adjustment);
      PostAppends(s, on, [d, c], memo);
      AppendMoves(s, s', [d, c], q);
      PairNet(q, d, c);
    } else if adjustment < 0 {
      var d, c := Dr(2050, -adjustment), Cr(4990, -adjustment);
      PostAppends(s, on, [d, c], memo);
      AppendMoves(s, s', [d, c], q);
      PairNet(q, d, c);
    }
  }
}
