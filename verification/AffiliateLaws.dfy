/** Conservation and life-cycle of affiliate commissions over every run. */
module AffiliateLaws {
  import opened Common
  import opened Money
  import opened Affiliates

  // ---- Measures over conversions -------------------------------------------------------------

  /** The quantities the service keeps or derives: what an account has earned, what it was paid,
      and the amount and size of one payout. */
  datatype Measure = EarnedBy(account: nat) | PaidTo(account: nat) | AmountOf(payout: nat) | SizeOf(payout: nat)

  function Weight(m: Measure, c: Conversion): int {
    match m
    case EarnedBy(a) => if c.account == a && c.status in {Confirmed, Paid} then c.amount else 0
    case PaidTo(a) => if c.account == a && c.status == Paid then c.amount else 0
    case AmountOf(p) => if c.payout == Some(p) then c.amount else 0
    case SizeOf(p) => if c.payout == Some(p) then 1 else 0
  }

  function Weights(m: Measure, cs: seq<Conversion>): seq<int> {
    seq(|cs|, i requires 0 <= i < |cs| => Weight(m, cs[i]))
  }

  function Total(m: Measure, cs: seq<Conversion>): int {
    Sum(Weights(m, cs))
  }

  lemma TotalUpdate(m: Measure, cs: seq<Conversion>, i: nat, c: Conversion)
    requires i < |cs|
    ensures Total(m, cs[i := c]) == Total(m, cs) - Weight(m, cs[i]) + Weight(m, c)
  {
    assert Weights(m, cs[i := c]) == Weights(m, cs)[i := Weight(m, c)];
    SumUpdate(Weights(m, cs), i, Weight(m, c));
  }

  lemma TotalAppend(m: Measure, cs: seq<Conversion>, c: Conversion)
    ensures Total(m, cs + [c]) == Total(m, cs) + Weight(m, c)
  {
    assert Weights(m, cs + [c]) == Weights(m, cs) + [Weight(m, c)];
    SumAppend(Weights(m, cs), Weight(m, c));
  }

  /** All payouts of one account together. */
  function PayoutTotal(ps: seq<Payout>, a: nat): int {
    if ps == [] then 0
    else PayoutTotal(ps[..|ps| - 1], a) + (if ps[|ps| - 1].account == a then ps[|ps| - 1].amount else 0)
  }

  // ---- The invariant --------------------------------------------------------------------------

  /** Each conversion's dates and payout match its status; nothing was confirmed on hold. */
  ghost predicate RowConsistent(s: State, c: Conversion) {
    && c.account < |s.accounts|
    && (c.status == Pending ==> c.confirmedAt.None?)
    && (c.status in {Confirmed, Paid} ==> c.confirmedAt.Some?)
    && (c.confirmedAt.Some? ==>
          c.confirmedAt.value - c.created >= s.accounts[c.account].holdDays * SECONDS_PER_DAY)
    && (c.payout.Some? <==> c.status == Paid)
    && (c.payout.Some? ==> c.payout.value < |s.payouts| && s.payouts[c.payout.value].account == c.account)
  }

  /** Each payout equals the conversions that carry its number, and reaches the account's minimum. */
  ghost predicate PayoutBacked(s: State, p: nat)
    requires p < |s.payouts|
  {
    && s.payouts[p].amount == Total(AmountOf(p), s.conversions)
    && s.payouts[p].count == Total(SizeOf(p), s.conversions)
    && s.payouts[p].account < |s.accounts|
    && s.payouts[p].amount >= s.accounts[s.payouts[p].account].minPayout
  }

  /** The cached counter is the true sum, and what was paid out is what is marked paid. */
  ghost predicate AccountBalanced(s: State, a: nat)
    requires a < |s.accounts|
  {
    && s.accounts[a].earned == Total(EarnedBy(a), s.conversions)
    && PayoutTotal(s.payouts, a) == Total(PaidTo(a), s.conversions)
  }

  ghost predicate Consistent(s: State) {
    && (forall i :: 0 <= i < |s.conversions| ==> RowConsistent(s, s.conversions[i]))
    && (forall p :: 0 <= p < |s.payouts| ==> PayoutBacked(s, p))
    && (forall a :: 0 <= a < |s.accounts| ==> AccountBalanced(s, a))
    && (forall i, k :: 0 <= i < k < |s.conversions| ==>
          s.conversions[i].account != s.conversions[k].account || s.conversions[i].order != s.conversions[k].order)
  }

  /** Nothing is forgotten, and a conversion that is paid or reversed never changes again. */
  ghost predicate Evolves(s: State, s': State) {
    && |s.conversions| <= |s'.conversions| && s.payouts <= s'.payouts && |s.accounts| == |s'.accounts|
    && (forall a :: 0 <= a < |s.accounts| ==> s'.accounts[a] == s.accounts[a].(earned := s'.accounts[a].earned))
    && (forall i :: 0 <= i < |s.conversions| ==>
          var c, c' := s.conversions[i], s'.conversions[i];
          && (c.account, c.order, c.amount, c.created) == (c'.account, c'.order, c'.amount, c'.created)
          && (c.status in {Paid, Reversed, Rejected} ==> c' == c)
          && (c.status == Confirmed ==> c'.status in {Confirmed, Paid, Reversed} && c'.confirmedAt == c.confirmedAt))
  }

  // ---- Row steps ------------------------------------------------------------------------------

  /** One conversion changes status, and its account's counter moves by the change of its weight. */
  lemma RowStepKeepsConsistency(s: State, i: nat, c: Conversion, s': State)
    requires Consistent(s) && i < |s.conversions|
    requires var was := s.conversions[i];
             && (c.account, c.order, c.amount, c.created) == (was.account, was.order, was.amount, was.created)
             && was.payout.None? && c.payout.None? && was.status != Paid && c.status != Paid
             && s'.conversions == s.conversions[i := c] && s'.payouts == s.payouts
             && |s'.accounts| == |s.accounts|
             && (forall a :: 0 <= a < |s.accounts| ==>
                   s'.accounts[a] == s.accounts[a].(earned := s.accounts[a].earned
                                                              - Weight(EarnedBy(a), was) + Weight(EarnedBy(a), c)))
             && RowConsistent(s', c)
    ensures Consistent(s')
  {
    var cs := s.conversions;
    forall k | 0 <= k < |cs|
      ensures RowConsistent(s', s'.conversions[k])
    {
      assert RowConsistent(s, cs[k]);
    }
    forall p | 0 <= p < |s'.payouts|
      ensures PayoutBacked(s', p)
    {
      assert PayoutBacked(s, p);
      TotalUpdate(AmountOf(p), cs, i, c);
      TotalUpdate(SizeOf(p), cs, i, c);
    }
    forall a | 0 <= a < |s'.accounts|
      ensures AccountBalanced(s', a)
    {
      assert AccountBalanced(s, a);
      TotalUpdate(EarnedBy(a), cs, i, c);
      TotalUpdate(PaidTo(a), cs, i, c);
    }
  }

  lemma ClawbackRowKeeps(s: State, i: nat, order: string, now: int)
    requires Consistent(s) && i < |s.conversions|
    ensures Consistent(ClawbackRow(s, i, order, now)) && Evolves(s, ClawbackRow(s, i, order, now))
  {
    var c := s.conversions[i];
    assert RowConsistent(s, c);
    if Clawable(c, order) {
      RowStepKeepsConsistency(s, i, c.(status := Reversed, reversedAt := Some(now)), ClawbackRow(s, i, order, now));
    }
  }

  lemma ConfirmRowKeeps(s: State, i: nat, now: int)
    requires Consistent(s) && i < |s.conversions|
    ensures Consistent(ConfirmRow(s, i, now)) && Evolves(s, ConfirmRow(s, i, now))
  {
    var c := s.conversions[i];
    assert RowConsistent(s, c);
    if c.status == Pending && HoldElapsed(s, c, now) {
      RowStepKeepsConsistency(s, i, c.(status := Confirmed, confirmedAt := Some(now)), ConfirmRow(s, i, now));
    }
  }

  lemma RecordKeeps(s: State, account: nat, order: string, total: int, now: int)
    requires Consistent(s) && account < |s.accounts|
    ensures Consistent(Record(s, account, order, total, now)) && Evolves(s, Record(s, account, order, total, now))
  {
    var s' := Record(s, account, order, total, now);
    if s' != s {
      var c := s'.conversions[|s.conversions|];
      forall k | 0 <= k < |s'.conversions|
        ensures RowConsistent(s', s'.conversions[k])
      {
        assert k < |s.conversions| ==> RowConsistent(s, s.conversions[k]);
      }
      forall p | 0 <= p < |s'.payouts|
        ensures PayoutBacked(s', p)
      {
        assert PayoutBacked(s, p);
        TotalAppend(AmountOf(p), s.conversions, c);
        TotalAppend(SizeOf(p), s.conversions, c);
      }
      forall a | 0 <= a < |s'.accounts|
        ensures AccountBalanced(s', a)
      {
        assert AccountBalanced(s, a);
        TotalAppend(EarnedBy(a), s.conversions, c);
        TotalAppend(PaidTo(a), s.conversions, c);
      }
    }
  }

  // ---- Payout of one account -------------------------------------------------------------------

  lemma SettleTotals(s: State, a: nat, now: int, m: Measure)
    requires Consistent(s)
    requires m.AmountOf? || m.SizeOf? ==> m.payout <= |s.payouts|
    ensures var pid := |s.payouts|;
            Total(m, Settle(s.conversions, a, pid, now)) == Total(m, s.conversions) +
              match m
              case EarnedBy(_) => 0
              case PaidTo(b) => if a == b then Sum(DueAmounts(s.conversions, a)) else 0
              case AmountOf(p) => if p == pid then Sum(DueAmounts(s.conversions, a)) else 0
              case SizeOf(p) => if p == pid then DueCount(s.conversions, a) else 0
  {
    var cs, pid := s.conversions, |s.payouts|;
    var before, after := Weights(m, cs), Weights(m, Settle(cs, a, pid, now));
    forall i | 0 <= i < |cs|
      ensures RowConsistent(s, cs[i])
    {
    }
    if m == PaidTo(a) || m == AmountOf(pid) {
      SumPointwise(after, before, DueAmounts(cs, a));
    } else if m == SizeOf(pid) {
      SumPointwise(after, before, DueCounts(cs, a));
    } else {
      assert after == before;
    }
  }

  lemma UnusedPayoutNumber(s: State)
    requires Consistent(s)
    ensures Total(AmountOf(|s.payouts|), s.conversions) == 0 && Total(SizeOf(|s.payouts|), s.conversions) == 0
  {
    forall i | 0 <= i < |s.conversions|
      ensures s.conversions[i].payout != Some(|s.payouts|)
    {
      assert RowConsistent(s, s.conversions[i]);
    }
    SumZero(Weights(AmountOf(|s.payouts|), s.conversions));
    SumZero(Weights(SizeOf(|s.payouts|), s.conversions));
  }

  lemma PayAccountBacks(s: State, a: nat, now: int)
    requires Consistent(s) && a < |s.accounts|
    ensures var s' := PayAccount(s, a, now);
            && (forall p :: 0 <= p < |s'.payouts| ==> PayoutBacked(s', p))
            && (forall b :: 0 <= b < |s'.accounts| ==> AccountBalanced(s', b))
  {
    var s' := PayAccount(s, a, now);
    if s' != s {
      UnusedPayoutNumber(s);
      forall p | 0 <= p < |s'.payouts|
        ensures PayoutBacked(s', p)
      {
        assert p < |s.payouts| ==> PayoutBacked(s, p);
        SettleTotals(s, a, now, AmountOf(p));
        SettleTotals(s, a, now, SizeOf(p));
      }
      assert s'.payouts[..|s'.payouts| - 1] == s.payouts;
      forall b | 0 <= b < |s'.accounts|
        ensures AccountBalanced(s', b)
      {
        assert AccountBalanced(s, b);
        SettleTotals(s, a, now, EarnedBy(b));
        SettleTotals(s, a, now, PaidTo(b));
      }
    }
  }

  lemma PayAccountKeeps(s: State, a: nat, now: int)
    requires Consistent(s) && a < |s.accounts|
    ensures Consistent(PayAccount(s, a, now)) && Evolves(s, PayAccount(s, a, now))
  {
    var s' := PayAccount(s, a, now);
    PayAccountBacks(s, a, now);
    forall i | 0 <= i < |s'.conversions|
      ensures RowConsistent(s', s'.conversions[i])
    {
      assert RowConsistent(s, s.conversions[i]);
    }
  }

  // ---- Sweeps -----------------------------------------------------------------------------------

  lemma {:induction false} ClawbackKeeps(s: State, i: nat, order: string, now: int)
    requires Consistent(s) && i <= |s.conversions|
    ensures Consistent(ClawbackFrom(s, i, order, now)) && Evolves(s, ClawbackFrom(s, i, order, now))
    decreases |s.conversions| - i
  {
    if i < |s.conversions| {
      ClawbackRowKeeps(s, i, order, now);
      ClawbackKeeps(ClawbackRow(s, i, order, now), i + 1, order, now);
    }
  }

  lemma {:induction false} ConfirmKeeps(s: State, i: nat, left: nat, now: int)
    requires Consistent(s) && i <= |s.conversions|
    ensures Consistent(ConfirmFrom(s, i, left, now)) && Evolves(s, ConfirmFrom(s, i, left, now))
    decreases |s.conversions| - i
  {
    if i < |s.conversions| && left > 0 {
      if s.conversions[i].status != Pending {
        ConfirmKeeps(s, i + 1, left, now);
      } else {
        ConfirmRowKeeps(s, i, now);
        ConfirmKeeps(ConfirmRow(s, i, now), i + 1, left - 1, now);
      }
    }
  }

  lemma {:induction false} PayKeeps(s: State, a: nat, left: nat, now: int)
    requires Consistent(s) && a <= |s.accounts|
    ensures Consistent(PayFrom(s, a, left, now)) && Evolves(s, PayFrom(s, a, left, now))
    decreases |s.accounts| - a
  {
    if a < |s.accounts| && left > 0 {
      if !s.accounts[a].active {
        PayKeeps(s, a + 1, left, now);
      } else {
        PayAccountKeeps(s, a, now);
        PayKeeps(PayAccount(s, a, now), a + 1, left - 1, now);
      }
    }
  }

  // ---- Runs -----------------------------------------------------------------------------------

  datatype Action =
    | DoRecord(account: nat, order: string, total: int, at: int)
    | DoClawback(order: string, at: int)
    | DoConfirm(batchSize: nat, at: int)
    | DoPayouts(batchSize: nat, at: int)

  function Step(s: State, a: Action): State {
    match a
    case DoRecord(account, order, total, at) =>
      if account < |s.accounts| then Record(s, account, order, total, at) else s
    case DoClawback(order, at) => ClawbackFrom(s, 0, order, at)
    case DoConfirm(batchSize, at) => ConfirmFrom(s, 0, batchSize, at)
    case DoPayouts(batchSize, at) => PayFrom(s, 0, batchSize, at)
  }

  function Run(s: State, actions: seq<Action>): State {
    if actions == [] then s else Step(Run(s, actions[..|actions| - 1]), actions[|actions| - 1])
  }

  /** In every run the cached counters are true sums, each payout equals exactly the conversions that
      carry its number and reaches the minimum, what was paid out is what is marked paid, nothing was
      confirmed before its hold elapsed, and paid or reversed conversions stay as they are. */
  lemma {:induction false} RunsConserve(s: State, actions: seq<Action>)
    requires Consistent(s)
    ensures Consistent(Run(s, actions)) && Evolves(s, Run(s, actions))
  {
    if actions != [] {
      var before := Run(s, actions[..|actions| - 1]);
      RunsConserve(s, actions[..|actions| - 1]);
      match actions[|actions| - 1] {
        case DoRecord(account, order, total, at) =>
          if account < |before.accounts| {
            RecordKeeps(before, account, order, total, at);
          }
        case DoClawback(order, at) => ClawbackKeeps(before, 0, order, at);
        case DoConfirm(batchSize, at) => ConfirmKeeps(before, 0, batchSize, at);
        case DoPayouts(batchSize, at) => PayKeeps(before, 0, batchSize, at);
      }
    }
  }

  /** A new programme starts consistent. */
  lemma OpeningConsistent(accounts: seq<Account>)
    requires forall a :: 0 <= a < |accounts| ==> accounts[a].earned == 0
    ensures Consistent(State(accounts, [], []))
  {
    forall a | 0 <= a < |accounts|
      ensures AccountBalanced(State(accounts, [], []), a)
    {
      assert Weights(EarnedBy(a), []) == [] && Weights(PaidTo(a), []) == [];
    }
  }

  /** An order is recorded once per account: a new one adds exactly one pending row, for the cent nearest to the
      rate in millionths of the total, and the even one of two nearest; a repeated one changes nothing. */
  lemma RecordIsExact(s: State, account: nat, order: string, total: int, now: int)
    requires account < |s.accounts|
    ensures var s', n := Record(s, account, order, total, now), |s.conversions|;
            if exists i :: 0 <= i < n && s.conversions[i].account == account && s.conversions[i].order == order
            then s' == s
            else
              && s' == s.(conversions := s.conversions + [s'.conversions[n]])
              && s'.conversions[n] == Conversion(account, order, s'.conversions[n].amount, Pending, now,
                                                 None, None, None, None)
              && var error := total * s.accounts[account].rate - 1000000 * s'.conversions[n].amount;
                 -500000 <= error <= 500000 && (error in {-500000, 500000} ==> s'.conversions[n].amount % 2 == 0)
  {
    var rate := s.accounts[account].rate;
    RoundHalfEvenIsNearest(total * rate, RATE_SCALE, CommissionOn(total, rate));
  }

  /** How many pending rows stand between two places of the table. */
  function PendingBetween(cs: seq<Conversion>, i: nat, k: nat): nat
    requires i <= k <= |cs|
    decreases k - i
  {
    if i == k then 0 else PendingBetween(cs, i + 1, k) + (if cs[i].status == Pending then 1 else 0)
  }

  lemma {:induction false} PendingFrame(cs: seq<Conversion>, cs': seq<Conversion>, i: nat, k: nat)
    requires i <= k <= |cs| == |cs'|
    requires forall m :: i <= m < k ==> cs'[m].status == cs[m].status
    ensures PendingBetween(cs', i, k) == PendingBetween(cs, i, k)
    decreases k - i
  {
    if i < k {
      PendingFrame(cs, cs', i + 1, k);
    }
  }

  /** A confirmation sweep confirms exactly the pending rows that its batch reaches and whose hold has
      elapsed; rows still on hold use up their place. */
  lemma {:induction false} ConfirmIsExact(s: State, i: nat, left: nat, now: int, k: nat)
    requires i <= |s.conversions| && k < |s.conversions|
    ensures var s' := ConfirmFrom(s, i, left, now);
            && |s'.conversions| == |s.conversions|
            && s'.conversions[k] ==
                 var c := s.conversions[k];
                 if i <= k && c.status == Pending && PendingBetween(s.conversions, i, k) < left
                    && c.account < |s.accounts| && now >= c.created + 86400 * s.accounts[c.account].holdDays
                 then c.(status := Confirmed, confirmedAt := Some(now))
                 else c
    decreases |s.conversions| - i
  {
    if i < |s.conversions| && left > 0 {
      if s.conversions[i].status != Pending {
        ConfirmIsExact(s, i + 1, left, now, k);
      } else {
        var s1 := ConfirmRow(s, i, now);
        ConfirmIsExact(s1, i + 1, left - 1, now, k);
        if i < k {
          PendingFrame(s.conversions, s1.conversions, i + 1, k);
        }
      }
    }
  }

  /** How many active accounts stand between two places of the table. */
  function ActiveBetween(accounts: seq<Account>, a: nat, b: nat): nat
    requires a <= b <= |accounts|
    decreases b - a
  {
    if a == b then 0 else ActiveBetween(accounts, a + 1, b) + (if accounts[a].active then 1 else 0)
  }

  /** The sweep from account `a` on reaches account `b` and finds enough to pay. */
  predicate PaidOut(s: State, a: nat, left: nat, b: nat) {
    && a <= b < |s.accounts| && s.accounts[b].active
    && ActiveBetween(s.accounts, a, b) < left
    && Sum(DueAmounts(s.conversions, b)) >= s.accounts[b].minPayout
  }

  lemma OtherAccountsDue(s: State, a: nat, b: nat, now: int)
    requires a < |s.accounts| && a != b
    ensures DueAmounts(PayAccount(s, a, now).conversions, b) == DueAmounts(s.conversions, b)
  {
  }

  lemma PayStepKeepsOthers(s: State, a: nat, left: nat, b: nat, now: int)
    requires a < |s.accounts| && s.accounts[a].active && left > 0 && b != a
    ensures PaidOut(PayAccount(s, a, now), a + 1, left - 1, b) <==> PaidOut(s, a, left, b)
  {
    OtherAccountsDue(s, a, b, now);
  }

  /** A payout sweep pays exactly the confirmed conversions of the active accounts that its batch reaches
      and whose confirmed total reaches the minimum; every other conversion is left alone. */
  lemma {:induction false} PayoutsAreExact(s: State, a: nat, left: nat, now: int, k: nat)
    requires a <= |s.accounts| && k < |s.conversions|
    ensures var s' := PayFrom(s, a, left, now);
            var c := s.conversions[k];
            && |s'.conversions| == |s.conversions|
            && s'.conversions[k] ==
                 if c.status == Confirmed && PaidOut(s, a, left, c.account)
                 then c.(status := Paid, paidAt := Some(now), payout := s'.conversions[k].payout)
                 else c
    decreases |s.accounts| - a
  {
    if a < |s.accounts| && left > 0 {
      if !s.accounts[a].active {
        PayoutsAreExact(s, a + 1, left, now, k);
      } else {
        var s1 := PayAccount(s, a, now);
        PayoutsAreExact(s1, a + 1, left - 1, now, k);
        if s.conversions[k].account != a {
          PayStepKeepsOthers(s, a, left, s.conversions[k].account, now);
        }
      }
    }
  }

  /** A refund takes back everything the order has not yet been paid for: afterwards the conversions of
      the order are paid, reversed or rejected, and nothing else moved. */
  lemma {:induction false} ClawbackIsComplete(s: State, i: nat, order: string, now: int)
    requires i <= |s.conversions|
    ensures var s' := ClawbackFrom(s, i, order, now);
            && |s'.conversions| == |s.conversions|
            && forall k :: 0 <= k < |s.conversions| ==>
                 var c := s.conversions[k];
                 s'.conversions[k] == if k >= i && c.order == order && (c.status == Pending || c.status == Confirmed)
                                      then c.(status := Reversed, reversedAt := Some(now)) else c
    decreases |s.conversions| - i
  {
    if i < |s.conversions| {
      ClawbackIsComplete(ClawbackRow(s, i, order, now), i + 1, order, now);
    }
  }
}
