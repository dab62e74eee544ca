/** Histories of the accounting engine: service calls and monthly sweeps in any order. What the deferred
    rows and the assets have come to depends only on how often a call reached them, whatever happened
    in between. */
module Histories {
  import opened Common
  import opened Journal
  import opened Statements
  import opened Books
  import opened Integrity
  import opened Sweeps
  import Deferred
  import Amortisation

  datatype Call =
    | One(action: Action)
    | RecogniseSweep(on: Date)
    | AmortiseSweep(on: Date)

  function Perform(s: Books, c: Call): Outcome {
    match c
    case One(a) => Step(s, a)
    case RecogniseSweep(on) => RecogniseFrom(s, 0, on)
    case AmortiseSweep(on) => AmortiseFrom(s, 0, on)
  }

  function History(s: Books, calls: seq<Call>): Books {
    if calls == [] then s else Perform(History(s, calls[..|calls| - 1]), calls[|calls| - 1]).books
  }

  lemma CallIsRun(s: Books, c: Call) returns (actions: seq<Action>)
    ensures Perform(s, c).books == Run(s, actions)
  {
    match c {
      case One(a) =>
        actions := [a];
        RunAppend(s, [], a);
        assert [] + [a] == [a];
      case RecogniseSweep(on) =>
        var n := RecogniseIsRun(s, 0, on);
        actions := RecogniseCalls(0, n, on);
      case AmortiseSweep(on) =>
        var n := AmortiseIsRun(s, 0, on);
        actions := AmortiseCalls(0, n, on);
    }
  }

  /** Every history is a run, so what holds of all runs holds of all histories. */
  lemma {:induction false} HistoryIsRun(s: Books, calls: seq<Call>) returns (actions: seq<Action>)
    ensures History(s, calls) == Run(s, actions)
  {
    if calls == [] {
      actions := [];
    } else {
      var init := HistoryIsRun(s, calls[..|calls| - 1]);
      var last := CallIsRun(Run(s, init), calls[|calls| - 1]);
      actions := init + last;
      RunConcat(s, init, last);
    }
  }

  /** Over every history, sweeps that stop half-way included, the journal stays sound and sealed and
      the trial balance balances at every date. */
  lemma HistoryKeepsValid(s: Books, calls: seq<Call>, asOf: Option<Date>)
    requires ValidBooks(s)
    ensures ValidBooks(History(s, calls)) && s.journal <= History(s, calls).journal
    ensures TrialBalanceOf(s.accounts, asOf, History(s, calls).journal).balanced
  {
    var actions := HistoryIsRun(s, calls);
    RunKeepsValid(s, actions);
    StatementsAlwaysBalance(s, actions, asOf);
  }

  // ---- Deferred revenue -------------------------------------------------------------------------

  /** The call reaches row `i` and does not raise on it. */
  ghost predicate Reaches(s: Books, c: Call, i: nat)
    requires i < |s.deferred|
  {
    match c
    case One(DoRecognise(row, on)) => row == i && Deferred.CanRecognise(s, s.deferred[i], on)
    case RecogniseSweep(on) => forall k :: 0 <= k <= i ==> Deferred.CanRecognise(s, s.deferred[k], on)
    case _ => false
  }

  lemma OtherCallsKeepDeferred(s: Books, a: Action)
    requires !a.DoRecognise?
    ensures Step(s, a).books.deferred == s.deferred && Step(s, a).books.accounts == s.accounts
  {
    StepKeepsFrame(s, a);
    StepGrows(s, a);
  }

  lemma OtherCallsKeepAssets(s: Books, a: Action)
    requires !a.DoAmortise?
    ensures Step(s, a).books.assets == s.assets && Step(s, a).books.accounts == s.accounts
  {
    StepKeepsFrame(s, a);
    StepGrows(s, a);
  }

  lemma CallMovesRow(s: Books, c: Call, i: nat)
    requires i < |s.deferred|
    ensures var s' := Perform(s, c).books;
            && s'.accounts == s.accounts && |s'.deferred| == |s.deferred|
            && s'.deferred[i] == if Reaches(s, c, i) then Deferred.NextRow(s.deferred[i]) else s.deferred[i]
  {
    match c {
      case One(DoRecognise(row, on)) =>
        if row < |s.deferred| {
          Deferred.RowCall(s, row, on);
        }
      case One(a) => OtherCallsKeepDeferred(s, a);
      case RecogniseSweep(on) =>
        var stop := Deferred.SweepCall(s, 0, on);
      case AmortiseSweep(on) =>
        var stop := Amortisation.SweepCall(s, 0, on);
    }
  }

  /** How many calls of a history reached row `i`. */
  ghost function Reached(s: Books, calls: seq<Call>, i: nat): nat
    requires i < |s.deferred|
  {
    if calls == [] then 0
    else
      var before := History(s, calls[..|calls| - 1]);
      Reached(s, calls[..|calls| - 1], i)
        + (if i < |before.deferred| && Reaches(before, calls[|calls| - 1], i) then 1 else 0)
  }

  /** After any history a row is where its schedule stands after as many months as calls reached it. */
  lemma {:induction false} RowFollowsSchedule(s: Books, calls: seq<Call>, i: nat)
    requires i < |s.deferred|
    ensures History(s, calls).accounts == s.accounts && |History(s, calls).deferred| == |s.deferred|
    ensures History(s, calls).deferred[i] == Deferred.RowAfter(s.deferred[i], Reached(s, calls, i))
  {
    if calls != [] {
      RowFollowsSchedule(s, calls[..|calls| - 1], i);
      CallMovesRow(History(s, calls[..|calls| - 1]), calls[|calls| - 1], i);
    }
  }

  /** Over every history a new row has recognised one instalment for each call that reached it, and its
      whole amount from its last month on. */
  lemma DeferredRevenueIsExact(s: Books, calls: seq<Call>, i: nat)
    requires i < |s.deferred| && Deferred.FreshRow(s.deferred[i])
    ensures var d, k := s.deferred[i], Reached(s, calls, i);
            && |History(s, calls).deferred| == |s.deferred|
            && History(s, calls).deferred[i] == d.(
                 recognised := if k < d.monthsTotal then k * (d.total / d.monthsTotal) else d.total,
                 monthsRecognised := if k < d.monthsTotal then k else d.monthsTotal,
                 active := k < d.monthsTotal)
  {
    RowFollowsSchedule(s, calls, i);
    Deferred.StraightLine(s.deferred[i], Reached(s, calls, i));
  }

  lemma {:induction false} ReachedMeansLongEnough(s: Books, calls: seq<Call>, i: nat)
    requires i < |s.deferred| && Deferred.FreshRow(s.deferred[i]) && Reached(s, calls, i) > 0
    ensures s.deferred[i].total >= s.deferred[i].monthsTotal
  {
    var init := calls[..|calls| - 1];
    if Reached(s, init, i) > 0 {
      ReachedMeansLongEnough(s, init, i);
    } else {
      RowFollowsSchedule(s, init, i);
      var before := History(s, init);
      assert before.deferred[i] == s.deferred[i];
      assert Reaches(before, calls[|calls| - 1], i);
      Deferred.FirstInstalment(s.deferred[i]);
    }
  }

  /** Whatever happened before, a new row can take its next month exactly when it is finished, or the
      month is open, both accounts are known and the row defers at least one cent a month. */
  lemma NextMonthGoesThroughIff(s: Books, calls: seq<Call>, i: nat, on: Date)
    requires i < |s.deferred| && Deferred.FreshRow(s.deferred[i])
    ensures var d, now := s.deferred[i], History(s, calls);
            && |now.deferred| == |s.deferred|
            && (Deferred.CanRecognise(now, now.deferred[i], on) <==>
                  || Reached(s, calls, i) >= d.monthsTotal
                  || (!IsLocked(now.locks, PeriodOf(on)) && 2100 in s.accounts && d.revenueAccount in s.accounts
                      && d.total >= d.monthsTotal))
  {
    var d, k := s.deferred[i], Reached(s, calls, i);
    RowFollowsSchedule(s, calls, i);
    DeferredRevenueIsExact(s, calls, i);
    Deferred.FirstInstalment(d);
    if k > 0 {
      ReachedMeansLongEnough(s, calls, i);
    }
    if d.total >= d.monthsTotal {
      Deferred.NextMonthRuns(d, k);
    }
  }

  /** Every recognition sweep of the history goes through. */
  ghost predicate SweepsGoThrough(s: Books, calls: seq<Call>) {
    calls == []
    || (var init, last := calls[..|calls| - 1], calls[|calls| - 1];
        SweepsGoThrough(s, init) && (last.RecogniseSweep? ==> Perform(History(s, init), last).error.None?))
  }

  /** Every recognition sweep of the history falls into a month that is open at that time. */
  ghost predicate SweptInOpenMonths(s: Books, calls: seq<Call>) {
    calls == []
    || (var init, last := calls[..|calls| - 1], calls[|calls| - 1];
        && SweptInOpenMonths(s, init)
        && (last.RecogniseSweep? ==> !IsLocked(History(s, init).locks, PeriodOf(last.on))))
  }

  ghost predicate NewRows(s: Books) {
    && 2100 in s.accounts
    && forall i :: 0 <= i < |s.deferred| ==>
         Deferred.FreshRow(s.deferred[i]) && s.deferred[i].revenueAccount in s.accounts
  }

  lemma {:induction false} LongEnoughRowsNeverStopASweep(s: Books, calls: seq<Call>)
    requires NewRows(s) && SweptInOpenMonths(s, calls)
    requires forall i :: 0 <= i < |s.deferred| ==> s.deferred[i].total >= s.deferred[i].monthsTotal
    ensures SweepsGoThrough(s, calls)
  {
    if calls != [] {
      var init, last := calls[..|calls| - 1], calls[|calls| - 1];
      LongEnoughRowsNeverStopASweep(s, init);
      if last.RecogniseSweep? {
        var before := History(s, init);
        var stop := Deferred.SweepCall(before, 0, last.on);
        if stop < |before.deferred| {
          SameLength(s, init);
          NextMonthGoesThroughIff(s, init, stop, last.on);
          assert false;
        }
      }
    }
  }

  lemma {:induction false} SameLength(s: Books, calls: seq<Call>)
    ensures |History(s, calls).deferred| == |s.deferred| && |History(s, calls).assets| == |s.assets|
  {
    if calls != [] {
      var init, last := calls[..|calls| - 1], calls[|calls| - 1];
      var before := History(s, init);
      SameLength(s, init);
      match last {
        case One(a) =>
          StepKeepsFrame(before, a);
        case RecogniseSweep(on) => var stop := Deferred.SweepCall(before, 0, on);
        case AmortiseSweep(on) => var stop := Amortisation.SweepCall(before, 0, on);
      }
    }
  }

  lemma {:induction false} SweepThatWentThrough(s: Books, calls: seq<Call>, p: nat, i: nat)
    requires SweepsGoThrough(s, calls) && p < |calls| && calls[p].RecogniseSweep? && i < |s.deferred|
    ensures var before := History(s, calls[..p]);
            |before.deferred| == |s.deferred| && Deferred.CanRecognise(before, before.deferred[i], calls[p].on)
  {
    if p < |calls| - 1 {
      SweepThatWentThrough(s, calls[..|calls| - 1], p, i);
      assert calls[..|calls| - 1][..p] == calls[..p];
    } else {
      SameLength(s, calls[..p]);
      var stop := Deferred.SweepCall(History(s, calls[..p]), 0, calls[p].on);
    }
  }

  /** In a history that starts with new rows and sweeps only open months, at least once, all recognition
      sweeps go through exactly when each row defers at least one cent a month. */
  lemma SweepsGoThroughIff(s: Books, calls: seq<Call>)
    requires NewRows(s) && SweptInOpenMonths(s, calls)
    requires exists p :: 0 <= p < |calls| && calls[p].RecogniseSweep?
    ensures SweepsGoThrough(s, calls)
            <==> forall i :: 0 <= i < |s.deferred| ==> s.deferred[i].total >= s.deferred[i].monthsTotal
  {
    if SweepsGoThrough(s, calls) {
      var p :| 0 <= p < |calls| && calls[p].RecogniseSweep?;
      forall i | 0 <= i < |s.deferred|
        ensures s.deferred[i].total >= s.deferred[i].monthsTotal
      {
        SweepThatWentThrough(s, calls, p, i);
        NextMonthGoesThroughIff(s, calls[..p], i, calls[p].on);
        if Reached(s, calls[..p], i) > 0 {
          ReachedMeansLongEnough(s, calls[..p], i);
        }
      }
    } else if forall i :: 0 <= i < |s.deferred| ==> s.deferred[i].total >= s.deferred[i].monthsTotal {
      LongEnoughRowsNeverStopASweep(s, calls);
    }
  }

  // ---- Amortisation -----------------------------------------------------------------------------

  /** The call reaches asset `i` and does not raise on it. */
  ghost predicate ReachesAsset(s: Books, c: Call, i: nat)
    requires i < |s.assets|
  {
    match c
    case One(DoAmortise(row, on)) => row == i && Amortisation.CanAmortise(s, s.assets[i], on)
    case AmortiseSweep(on) => forall k :: 0 <= k <= i ==> Amortisation.CanAmortise(s, s.assets[k], on)
    case _ => false
  }

  lemma CallMovesAsset(s: Books, c: Call, i: nat)
    requires i < |s.assets|
    ensures var s' := Perform(s, c).books;
            && s'.accounts == s.accounts && |s'.assets| == |s.assets|
            && s'.assets[i] == if ReachesAsset(s, c, i) then Amortisation.NextAsset(s.assets[i]) else s.assets[i]
  {
    match c {
      case One(DoAmortise(row, on)) =>
        if row < |s.assets| {
          Amortisation.AssetCall(s, row, on);
        }
      case One(a) => OtherCallsKeepAssets(s, a);
      case RecogniseSweep(on) =>
        var stop := Deferred.SweepCall(s, 0, on);
      case AmortiseSweep(on) =>
        var stop := Amortisation.SweepCall(s, 0, on);
    }
  }

  ghost function ReachedAsset(s: Books, calls: seq<Call>, i: nat): nat
    requires i < |s.assets|
  {
    if calls == [] then 0
    else
      var before := History(s, calls[..|calls| - 1]);
      ReachedAsset(s, calls[..|calls| - 1], i)
        + (if i < |before.assets| && ReachesAsset(before, calls[|calls| - 1], i) then 1 else 0)
  }

  lemma CallAdvancesAsset(s: Books, c: Call, i: nat, a: AssetRow, k: nat)
    requires i < |s.assets| && s.assets[i] == Amortisation.AssetAfter(a, k)
    ensures var s' := Perform(s, c).books;
            && s'.accounts == s.accounts && |s'.assets| == |s.assets|
            && s'.assets[i] == Amortisation.AssetAfter(a, if ReachesAsset(s, c, i) then k + 1 else k)
  {
    CallMovesAsset(s, c, i);
  }

  /** After any history an asset is where its schedule stands after as many months as calls reached it. */
  lemma {:induction false} AssetFollowsSchedule(s: Books, calls: seq<Call>, i: nat)
    requires i < |s.assets|
    ensures History(s, calls).accounts == s.accounts && |History(s, calls).assets| == |s.assets|
    ensures History(s, calls).assets[i] == Amortisation.AssetAfter(s.assets[i], ReachedAsset(s, calls, i))
  {
    if calls != [] {
      var before := History(s, calls[..|calls| - 1]);
      AssetFollowsSchedule(s, calls[..|calls| - 1], i);
      CallAdvancesAsset(before, calls[|calls| - 1], i, s.assets[i], ReachedAsset(s, calls[..|calls| - 1], i));
    }
  }

  /** Over every history a new asset has amortised one instalment for each call that reached it, up to its
      whole cost, or nothing if it costs less than a cent a month; it is finished once it is reached as
      often as its lifetime, or once at all in the latter case. */
  lemma AmortisationIsExact(s: Books, calls: seq<Call>, i: nat)
    requires i < |s.assets| && Amortisation.FreshAsset(s.assets[i])
    ensures var a, k := s.assets[i], ReachedAsset(s, calls, i);
            && |History(s, calls).assets| == |s.assets|
            && var now, due := History(s, calls).assets[i], k * (a.capitalised / a.life);
               if a.capitalised >= a.life then
                 && now.amortised == (if due < a.capitalised then due else a.capitalised)
                 && (now.status == FullyAmortised <==> k >= Amortisation.Lifetime(a))
               else
                 && now.amortised == 0
                 && (now.status == FullyAmortised <==> k >= 1)
  {
    var a, k := s.assets[i], ReachedAsset(s, calls, i);
    AssetFollowsSchedule(s, calls, i);
    if a.capitalised >= a.life {
      Amortisation.StraightLine(a, k);
      Amortisation.AmortisationTerminatesExactly(a, k);
    } else if k >= 1 {
      Amortisation.TooSmallToAmortise(a, k);
    }
  }

  /** Whatever happened before, a sweep never stops at a new asset in an open month; in a locked one it stops
      exactly at an asset that still has something to amortise. */
  lemma NextAmortisationGoesThroughIff(s: Books, calls: seq<Call>, i: nat, on: Date)
    requires i < |s.assets| && Amortisation.FreshAsset(s.assets[i]) && {6011, 1450} <= s.accounts
    ensures var a, now := s.assets[i], History(s, calls);
            && |now.assets| == |s.assets|
            && (Amortisation.CanAmortise(now, now.assets[i], on) <==>
                  || !IsLocked(now.locks, PeriodOf(on))
                  || a.capitalised < a.life
                  || ReachedAsset(s, calls, i) >= Amortisation.Lifetime(a))
  {
    AssetFollowsSchedule(s, calls, i);
    Amortisation.PostsDuringLifetime(s.assets[i], ReachedAsset(s, calls, i));
  }

  ghost predicate NewAssets(s: Books) {
    && {6011, 1450} <= s.accounts
    && forall i :: 0 <= i < |s.assets| ==> Amortisation.FreshAsset(s.assets[i])
  }

  /** Asset `i` has nothing left to post after this history. */
  ghost predicate Settled(s: Books, calls: seq<Call>, i: nat)
    requires i < |s.assets| && Amortisation.FreshAsset(s.assets[i])
  {
    s.assets[i].capitalised < s.assets[i].life || ReachedAsset(s, calls, i) >= Amortisation.Lifetime(s.assets[i])
  }

  /** After any history that starts with new assets, an amortisation sweep goes through exactly when its
      month is open or every asset is settled. */
  lemma AmortiseSweepGoesThroughIff(s: Books, calls: seq<Call>, on: Date)
    requires NewAssets(s)
    ensures Perform(History(s, calls), AmortiseSweep(on)).error.None? <==>
            || !IsLocked(History(s, calls).locks, PeriodOf(on))
            || forall i :: 0 <= i < |s.assets| ==> Settled(s, calls, i)
  {
    var now := History(s, calls);
    SameLength(s, calls);
    forall i | 0 <= i < |s.assets|
      ensures Amortisation.CanAmortise(now, now.assets[i], on)
              <==> !IsLocked(now.locks, PeriodOf(on)) || Settled(s, calls, i)
    {
      NextAmortisationGoesThroughIff(s, calls, i, on);
    }
    var stop := Amortisation.SweepCall(now, 0, on);
  }
}
