/** Straight-line amortisation of capitalised development terminates exactly. */
module Amortisation {
  import opened Common
  import opened Journal
  import opened Books
  import opened Reconciliation
  import opened Deferred

  /** The asset after one sweep that did not raise on it. */
  function NextAsset(a: AssetRow): AssetRow {
    if a.status != Live || a.life == 0 then a
    else if MonthlyAmortisation(a) <= 0 then a.(status := FullyAmortised)
    else
      var a' := a.(amortised := a.amortised + MonthlyAmortisation(a));
      if NetBookValue(a') <= 0 then a'.(status := FullyAmortised) else a'
  }

  predicate CanAmortise(s: Books, a: AssetRow, on: Date) {
    a.status == Live ==>
      a.life > 0 && (MonthlyAmortisation(a) > 0 ==>
                       !IsLocked(s.locks, PeriodOf(on)) && 6011 in s.accounts && 1450 in s.accounts)
  }

  lemma AssetCall(s: Books, i: nat, on: Date)
    requires i < |s.assets|
    ensures AmortiseRow(s, i, on).error.None? <==> CanAmortise(s, s.assets[i], on)
    ensures var s' := AmortiseRow(s, i, on).books;
            && s'.locks == s.locks && s'.accounts == s.accounts && s'.deferred == s.deferred
            && s'.assets == if CanAmortise(s, s.assets[i], on) then s.assets[i := NextAsset(s.assets[i])] else s.assets
  {
    var a := s.assets[i];
    if a.status == Live && a.life > 0 && MonthlyAmortisation(a) > 0 {
      TwoLinePosting(s, on, 6011, 1450, None, MonthlyAmortisation(a), AutoMemo("Amortise", ForAsset(i)));
    }
  }

  /** The whole sweep raises exactly at the first asset that cannot be amortised; the assets before
      that one advance, that one and all after it stay as they were. */
  lemma {:induction false} SweepCall(s: Books, i: nat, on: Date) returns (stop: nat)
    requires i <= |s.assets|
    ensures i <= stop <= |s.assets|
    ensures forall k :: i <= k < stop ==> CanAmortise(s, s.assets[k], on)
    ensures stop < |s.assets| ==> !CanAmortise(s, s.assets[stop], on)
    ensures AmortiseFrom(s, i, on).error.None? <==> stop == |s.assets|
    ensures var rows := AmortiseFrom(s, i, on).books.assets;
            && |rows| == |s.assets|
            && forall k :: 0 <= k < |rows| ==> rows[k] == if i <= k < stop then NextAsset(s.assets[k]) else s.assets[k]
    ensures var s' := AmortiseFrom(s, i, on).books;
            s'.locks == s.locks && s'.accounts == s.accounts && s'.deferred == s.deferred
    decreases |s.assets| - i
  {
    stop := i;
    if i < |s.assets| {
      AssetCall(s, i, on);
      if CanAmortise(s, s.assets[i], on) {
        var s' := AmortiseRow(s, i, on).books;
        stop := SweepCall(s', i + 1, on);
        assert forall k :: i < k < |s.assets| ==> s'.assets[k] == s.assets[k];
        assert forall k :: i < k < stop ==> CanAmortise(s', s'.assets[k], on);
      }
    }
  }

  // ---- Month after month --------------------------------------------------------------------

  function AssetAfter(a: AssetRow, k: nat): AssetRow {
    if k == 0 then a else NextAsset(AssetAfter(a, k - 1))
  }

  predicate FreshAsset(a: AssetRow) {
    a.status == Live && a.amortised == 0 && a.life >= 1
  }

  /** The asset when `due` of its cost has fallen due: amortised up to its cost. */
  function Amortised(a: AssetRow, due: int): AssetRow {
    a.(amortised := if due < a.capitalised then due else a.capitalised,
       status := if due < a.capitalised then Live else FullyAmortised)
  }

  lemma OneMore(k: nat, instalment: int)
    ensures (k + 1) * instalment == k * instalment + instalment
  {
  }

  lemma OneInstalment(a: AssetRow, due: int)
    requires a.life >= 1 && a.capitalised >= a.life
    ensures NextAsset(Amortised(a, due)) == Amortised(a, due + a.capitalised / a.life)
  {
    assert a.capitalised / a.life >= 1;
  }

  /** After k months an asset worth at least one cent a month has amortised k instalments, capped at
      its cost, and is fully amortised from the month that cap is reached. */
  lemma {:induction false} StraightLine(a: AssetRow, k: nat)
    requires FreshAsset(a) && a.capitalised >= a.life
    ensures AssetAfter(a, k) == Amortised(a, k * (a.capitalised / a.life))
  {
    if k > 0 {
      StraightLine(a, k - 1);
      OneInstalment(a, (k - 1) * (a.capitalised / a.life));
      OneMore(k - 1, a.capitalised / a.life);
    }
  }

  /** The number of sweeps an asset takes: its cost in instalments, rounded up. */
  function Lifetime(a: AssetRow): int
    requires FreshAsset(a) && a.capitalised >= a.life
  {
    var instalment := a.capitalised / a.life;
    (a.capitalised + instalment - 1) / instalment
  }

  lemma CeilingIsLeast(c: int, m: int, k: nat)
    requires c >= 1 && m >= 1
    ensures k * m >= c <==> k >= (c + m - 1) / m
  {
    var n := (c + m - 1) / m;
    var r := (c + m - 1) % m;
    assert n * m == c + m - 1 - r;
    if k >= n {
      assert k * m >= n * m;
    } else {
      assert k * m <= (n - 1) * m == n * m - m;
    }
  }

  /** The asset ends after exactly that many sweeps: no earlier, and with nothing left over. */
  lemma AmortisationTerminatesExactly(a: AssetRow, k: nat)
    requires FreshAsset(a) && a.capitalised >= a.life
    ensures AssetAfter(a, k).status == FullyAmortised <==> k >= Lifetime(a)
    ensures AssetAfter(a, k).amortised == a.capitalised <==> k >= Lifetime(a)
    ensures AssetAfter(a, k).amortised <= a.capitalised
  {
    StraightLine(a, k);
    EndsAtCeiling(a, a.capitalised / a.life, k);
  }

  lemma EndsAtCeiling(a: AssetRow, instalment: int, k: nat)
    requires a.capitalised >= 1 && instalment >= 1
    ensures var ends := k >= (a.capitalised + instalment - 1) / instalment;
            var now := Amortised(a, k * instalment);
            && (now.status == FullyAmortised <==> ends) && (now.amortised == a.capitalised <==> ends)
            && now.amortised <= a.capitalised
  {
    CeilingIsLeast(a.capitalised, instalment, k);
  }

  /** It takes at least its useful life, and less than twice as long. */
  lemma LifetimeRange(a: AssetRow)
    requires FreshAsset(a) && a.capitalised >= a.life
    ensures a.life <= Lifetime(a) <= 2 * a.life - 1
  {
    var c, m := a.capitalised, a.capitalised / a.life;
    LifetimeBounds(c, a.life, m, c % a.life);
    CeilingIsLeast(c, m, 2 * a.life - 1);
    CeilingIsLeast(c, m, a.life - 1);
  }

  lemma LifetimeBounds(c: int, life: int, m: int, r: int)
    requires life >= 1 && m >= 1 && 0 <= r < life && c == m * life + r
    ensures (2 * life - 1) * m >= c > (life - 1) * m
  {
    assert (2 * life - 1) * m == m * life + (life - 1) * m;
    assert (life - 1) * m >= life - 1;
    assert (life - 1) * m == m * life - m;
  }

  /** An asset ends with its whole cost amortised exactly when it cost at least one cent a month or
      nothing at all; a smaller asset is marked fully amortised by the first sweep with nothing
      amortised. */
  lemma FullyAmortisedIff(a: AssetRow, k: nat)
    requires FreshAsset(a) && k >= 2 * a.life - 1
    ensures AssetAfter(a, k).status == FullyAmortised
    ensures AssetAfter(a, k).amortised == a.capitalised <==> a.capitalised >= a.life || a.capitalised == 0
  {
    if a.capitalised >= a.life {
      AmortisationTerminatesExactly(a, k);
      LifetimeRange(a);
    } else {
      TooSmallToAmortise(a, k);
    }
  }

  lemma {:induction false} TooSmallToAmortise(a: AssetRow, k: nat)
    requires FreshAsset(a) && a.capitalised < a.life && k >= 1
    ensures AssetAfter(a, k) == a.(status := FullyAmortised)
  {
    if k > 1 {
      TooSmallToAmortise(a, k - 1);
    } else {
      assert AssetAfter(a, 0) == a;
      assert a.capitalised / a.life <= 0;
    }
  }

  lemma {:induction false} LifeIsFixed(a: AssetRow, k: nat)
    ensures AssetAfter(a, k).life == a.life
  {
    if k > 0 {
      LifeIsFixed(a, k - 1);
    }
  }

  /** An asset still has something to post exactly during its lifetime, if it has one. */
  lemma PostsDuringLifetime(a: AssetRow, k: nat)
    requires FreshAsset(a)
    ensures var now := AssetAfter(a, k);
            && now.life == a.life
            && (now.status == Live && MonthlyAmortisation(now) > 0 <==> a.capitalised >= a.life && k < Lifetime(a))
  {
    LifeIsFixed(a, k);
    if a.capitalised >= a.life {
      StraightLine(a, k);
      AmortisationTerminatesExactly(a, k);
    } else if k >= 1 {
      TooSmallToAmortise(a, k);
    }
  }

  // ---- Conservation -------------------------------------------------------------------------

  function AmortisedAmounts(rows: seq<AssetRow>): seq<int> {
    seq(|rows|, i requires 0 <= i < |rows| => rows[i].amortised)
  }

  /** The part of the accumulated amortisation (1450, a credit balance) the assets do not account for. */
  function Unexplained(s: Books): int {
    Net(OfParty(1450, Everyone), s.journal) + Sum(AmortisedAmounts(s.assets))
  }

  lemma AssetUpdated(rows: seq<AssetRow>, i: nat, a: AssetRow)
    requires i < |rows|
    ensures Sum(AmortisedAmounts(rows[i := a])) == Sum(AmortisedAmounts(rows)) - rows[i].amortised + a.amortised
  {
    assert AmortisedAmounts(rows[i := a]) == AmortisedAmounts(rows)[i := a.amortised];
    SumUpdate(AmortisedAmounts(rows), i, a.amortised);
  }

  lemma AssetPosts(s: Books, i: nat, on: Date)
    requires i < |s.assets| && s.assets[i].status == Live && AmortiseRow(s, i, on).error.None?
    requires MonthlyAmortisation(s.assets[i]) > 0
    ensures var m := MonthlyAmortisation(s.assets[i]);
            Appends(s, AmortiseRow(s, i, on).books, [Dr(6011, m), Cr(1450, m)])
  {
    var m := MonthlyAmortisation(s.assets[i]);
    PostAppends(s, on, [Dr(6011, m), Cr(1450, m)], AutoMemo("Amortise", ForAsset(i)));
  }

  lemma AssetConserves(s: Books, i: nat, on: Date)
    requires i < |s.assets|
    ensures Unexplained(AmortiseRow(s, i, on).books) == Unexplained(s)
  {
    AssetCall(s, i, on);
    var a := s.assets[i];
    var s' := AmortiseRow(s, i, on).books;
    if CanAmortise(s, a, on) {
      AssetUpdated(s.assets, i, NextAsset(a));
      if a.status == Live && MonthlyAmortisation(a) > 0 {
        var m := MonthlyAmortisation(a);
        AssetPosts(s, i, on);
        AppendMoves(s, s', [Dr(6011, m), Cr(1450, m)], OfParty(1450, Everyone));
        PairNet(OfParty(1450, Everyone), Dr(6011, m), Cr(1450, m));
      }
    }
  }

  /** A sweep, complete or cut short, moves 1450 by exactly the sum over all assets. */
  lemma {:induction false} SweepConserves(s: Books, i: nat, on: Date)
    requires i <= |s.assets|
    ensures Unexplained(AmortiseFrom(s, i, on).books) == Unexplained(s)
    decreases |s.assets| - i
  {
    if i < |s.assets| {
      AssetConserves(s, i, on);
      if AmortiseRow(s, i, on).error.None? {
        SweepConserves(AmortiseRow(s, i, on).books, i + 1, on);
      }
    }
  }
}
