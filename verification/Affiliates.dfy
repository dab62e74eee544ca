/** Affiliate conversions and payouts. Amounts are cents, rates millionths, times seconds. */
module Affiliates {
  import opened Common
  import opened Money

  const SECONDS_PER_DAY := 86400
  const RATE_SCALE := 1000000

  datatype Account = Account(active: bool, rate: int, holdDays: nat, minPayout: int, earned: int)

  datatype Status = Pending | Confirmed | Paid | Reversed | Rejected

  datatype Conversion = Conversion(account: nat, order: string, amount: int, status: Status, created: int,
                                   confirmedAt: Option<int>, reversedAt: Option<int>, paidAt: Option<int>,
                                   payout: Option<nat>)

  datatype Payout = Payout(account: nat, amount: int, count: nat)

  datatype State = State(accounts: seq<Account>, conversions: seq<Conversion>, payouts: seq<Payout>)

  // ---- Recording ----------------------------------------------------------------------------

  predicate AlreadyRecorded(cs: seq<Conversion>, account: nat, order: string) {
    exists i :: 0 <= i < |cs| && cs[i].account == account && cs[i].order == order
  }

  function CommissionOn(total: int, rate: int): int {
    RoundHalfEven(total * rate, RATE_SCALE)
  }

  /** Records the commission of the attributed account, once per account and order. */
  function Record(s: State, account: nat, order: string, total: int, now: int): State
    requires account < |s.accounts|
  {
    if AlreadyRecorded(s.conversions, account, order) then s
    else s.(conversions := s.conversions + [Conversion(account, order, CommissionOn(total, s.accounts[account].rate),
                                                       Pending, now, None, None, None, None)])
  }

  /** The rows that differ between two states of the table. */
  function Changed(a: seq<Conversion>, b: seq<Conversion>): set<nat> {
    set i | 0 <= i < |a| && i < |b| && a[i] != b[i]
  }

  lemma OneMoreChanged(a: seq<Conversion>, b: seq<Conversion>, i: nat, c: Conversion)
    requires i < |a| == |b| && b[i] == a[i] && c != a[i]
    ensures |Changed(a, b[i := c])| == |Changed(a, b)| + 1
  {
    assert Changed(a, b[i := c]) == Changed(a, b) + {i};
  }

  // ---- Clawback -----------------------------------------------------------------------------

  function AddEarned(accounts: seq<Account>, a: nat, amount: int): seq<Account> {
    if a < |accounts| then accounts[a := accounts[a].(earned := accounts[a].earned + amount)] else accounts
  }

  predicate Clawable(c: Conversion, order: string) {
    c.order == order && c.status in {Pending, Confirmed}
  }

  function ClawbackRow(s: State, i: nat, order: string, now: int): State
    requires i < |s.conversions|
  {
    var c := s.conversions[i];
    if !Clawable(c, order) then s
    else s.(conversions := s.conversions[i := c.(status := Reversed, reversedAt := Some(now))],
            accounts := if c.confirmedAt.Some? then AddEarned(s.accounts, c.account, -c.amount) else s.accounts)
  }

  function ClawbackFrom(s: State, i: nat, order: string, now: int): State
    requires i <= |s.conversions|
    decreases |s.conversions| - i
  {
    if i == |s.conversions| then s else ClawbackFrom(ClawbackRow(s, i, order, now), i + 1, order, now)
  }

  // ---- Confirmation -------------------------------------------------------------------------

  predicate HoldElapsed(s: State, c: Conversion, now: int) {
    c.account < |s.accounts| && now - c.created >= s.accounts[c.account].holdDays * SECONDS_PER_DAY
  }

  function ConfirmRow(s: State, i: nat, now: int): State
    requires i < |s.conversions|
  {
    var c := s.conversions[i];
    if c.status != Pending || !HoldElapsed(s, c, now) then s
    else s.(conversions := s.conversions[i := c.(status := Confirmed, confirmedAt := Some(now))],
            accounts := AddEarned(s.accounts, c.account, c.amount))
  }

  /** Walks the oldest `left` pending rows; a row still on hold uses up its place in the batch. */
  function ConfirmFrom(s: State, i: nat, left: nat, now: int): State
    requires i <= |s.conversions|
    decreases |s.conversions| - i
  {
    if i == |s.conversions| || left == 0 then s
    else if s.conversions[i].status != Pending then ConfirmFrom(s, i + 1, left, now)
    else ConfirmFrom(ConfirmRow(s, i, now), i + 1, left - 1, now)
  }

  // ---- Payouts ------------------------------------------------------------------------------

  predicate DueTo(c: Conversion, a: nat) {
    c.account == a && c.status == Confirmed
  }

  function DueAmounts(cs: seq<Conversion>, a: nat): seq<int> {
    seq(|cs|, i requires 0 <= i < |cs| => if DueTo(cs[i], a) then cs[i].amount else 0)
  }

  function DueCounts(cs: seq<Conversion>, a: nat): seq<int> {
    seq(|cs|, i requires 0 <= i < |cs| => if DueTo(cs[i], a) then 1 else 0)
  }

  function Settle(cs: seq<Conversion>, a: nat, payout: nat, now: int): seq<Conversion> {
    seq(|cs|, i requires 0 <= i < |cs| =>
      if DueTo(cs[i], a) then cs[i].(status := Paid, paidAt := Some(now), payout := Some(payout)) else cs[i])
  }

  lemma {:induction false} CountsNonNegative(xs: seq<int>)
    requires forall i :: 0 <= i < |xs| ==> xs[i] >= 0
    ensures Sum(xs) >= 0
  {
    if xs != [] {
      CountsNonNegative(xs[..|xs| - 1]);
    }
  }

  function DueCount(cs: seq<Conversion>, a: nat): nat {
    CountsNonNegative(DueCounts(cs, a));
    Sum(DueCounts(cs, a))
  }

  function PayAccount(s: State, a: nat, now: int): State
    requires a < |s.accounts|
  {
    var total := Sum(DueAmounts(s.conversions, a));
    if total < s.accounts[a].minPayout then s
    else s.(payouts := s.payouts + [Payout(a, total, DueCount(s.conversions, a))],
            conversions := Settle(s.conversions, a, |s.payouts|, now))
  }

  /** Walks the first `left` active accounts. */
  function PayFrom(s: State, a: nat, left: nat, now: int): State
    requires a <= |s.accounts|
    decreases |s.accounts| - a
  {
    if a == |s.accounts| || left == 0 then s
    else if !s.accounts[a].active then PayFrom(s, a + 1, left, now)
    else PayFrom(PayAccount(s, a, now), a + 1, left - 1, now)
  }

  // ---- The service --------------------------------------------------------------------------

  class AffiliateService {
    var accounts: seq<Account>
    var conversions: seq<Conversion>
    var payouts: seq<Payout>

    ghost function View(): State
      reads this
    {
      State(accounts, conversions, payouts)
    }

    constructor (accounts: seq<Account>)
      ensures View() == State(accounts, [], [])
    {
      this.accounts, conversions, payouts := accounts, [], [];
    }

    method RecordConversion(account: nat, order: string, total: int, now: int)
      requires account < |accounts|
      modifies this`conversions
      ensures View() == Record(old(View()), account, order, total, now)
    {
      for i := 0 to |conversions|
        invariant !AlreadyRecorded(conversions[..i], account, order)
        invariant conversions == old(conversions)
      {
        if conversions[i].account == account && conversions[i].order == order {
          return;
        }
        assert conversions[..i + 1] == conversions[..i] + [conversions[i]];
      }
      assert conversions[..|conversions|] == conversions;
      var commission := CommissionOn(total, accounts[account].rate);
      conversions := conversions + [Conversion(account, order, commission, Pending, now, None, None, None, None)];
    }

    /** Reports how many conversions were reversed. */
    method ClawbackConversion(order: string, now: int) returns (reversed: nat)
      modifies this`conversions, this`accounts
      ensures View() == ClawbackFrom(old(View()), 0, order, now)
      ensures reversed == |Changed(old(conversions), conversions)|
    {
      reversed := 0;
      assert Changed(conversions, conversions) == {};
      var i := 0;
      while i < |conversions|
        invariant i <= |conversions| == |old(conversions)|
        invariant ClawbackFrom(View(), i, order, now) == ClawbackFrom(old(View()), 0, order, now)
        invariant forall k :: i <= k < |conversions| ==> conversions[k] == old(conversions)[k]
        invariant reversed == |Changed(old(conversions), conversions)|
        decreases |conversions| - i
      {
        var c := conversions[i];
        if c.order == order && (c.status == Pending || c.status == Confirmed) {
          OneMoreChanged(old(conversions), conversions, i, c.(status := Reversed, reversedAt := Some(now)));
          conversions := conversions[i := c.(status := Reversed, reversedAt := Some(now))];
          if c.confirmedAt.Some? {
            accounts := AddEarned(accounts, c.account, -c.amount);
          }
          reversed := reversed + 1;
        }
        i := i + 1;
      }
    }

    /** Reports how many conversions were confirmed. */
    method ConfirmPendingConversions(batchSize: nat, now: int) returns (confirmed: nat)
      modifies this`conversions, this`accounts
      ensures View() == ConfirmFrom(old(View()), 0, batchSize, now)
      ensures confirmed == |Changed(old(conversions), conversions)|
    {
      confirmed := 0;
      assert Changed(conversions, conversions) == {};
      var i, left := 0, batchSize;
      while i < |conversions| && left > 0
        invariant i <= |conversions| == |old(conversions)|
        invariant forall k :: i <= k < |conversions| ==> conversions[k] == old(conversions)[k]
        invariant confirmed == |Changed(old(conversions), conversions)|
        invariant ConfirmFrom(View(), i, left, now) == ConfirmFrom(old(View()), 0, batchSize, now)
        decreases |conversions| - i
      {
        var c := conversions[i];
        if c.status == Pending {
          left := left - 1;
          if HoldElapsed(State(accounts, conversions, payouts), c, now) {
            OneMoreChanged(old(conversions), conversions, i, c.(status := Confirmed, confirmedAt := Some(now)));
            conversions := conversions[i := c.(status := Confirmed, confirmedAt := Some(now))];
            accounts := AddEarned(accounts, c.account, c.amount);
            confirmed := confirmed + 1;
          }
        }
        i := i + 1;
      }
    }

    /** Reports how many payouts were created. */
    method ProcessPayouts(batchSize: nat, now: int) returns (created: nat)
      modifies this`conversions, this`payouts
      ensures View() == PayFrom(old(View()), 0, batchSize, now)
      ensures old(payouts) <= payouts && |payouts| == |old(payouts)| + created
    {
      created := 0;
      var a, left := 0, batchSize;
      while a < |accounts| && left > 0
        invariant a <= |accounts|
        invariant accounts == old(accounts) && old(payouts) <= payouts && |payouts| == |old(payouts)| + created
        invariant PayFrom(View(), a, left, now) == PayFrom(old(View()), 0, batchSize, now)
        decreases |accounts| - a
      {
        if accounts[a].active {
          left := left - 1;
          var due, total := Due(conversions, a);
          if total >= accounts[a].minPayout {
            conversions := MarkSettled(conversions, due, a, |payouts|, now);
            payouts := payouts + [Payout(a, total, |due|)];
            created := created + 1;
          }
        }
        a := a + 1;
      }
    }
  }

  /** The confirmed conversions of an account, in order, and their total. */
  method Due(cs: seq<Conversion>, a: nat) returns (due: seq<nat>, total: int)
    ensures total == Sum(DueAmounts(cs, a)) && |due| == DueCount(cs, a)
    ensures forall i :: i in due <==> 0 <= i < |cs| && DueTo(cs[i], a)
  {
    due, total := [], 0;
    ghost var amounts, counts := DueAmounts(cs, a), DueCounts(cs, a);
    for i := 0 to |cs|
      invariant total == Sum(amounts[..i]) && |due| == Sum(counts[..i])
      invariant forall k :: k in due <==> 0 <= k < i && DueTo(cs[k], a)
    {
      SumNext(amounts, i);
      SumNext(counts, i);
      if cs[i].account == a && cs[i].status == Confirmed {
        due := due + [i];
        total := total + cs[i].amount;
      }
    }
    assert amounts[..|cs|] == amounts && counts[..|cs|] == counts;
  }

  method MarkSettled(cs: seq<Conversion>, due: seq<nat>, a: nat, payout: nat, now: int)
      returns (marked: seq<Conversion>)
    requires forall i :: i in due <==> 0 <= i < |cs| && DueTo(cs[i], a)
    ensures marked == Settle(cs, a, payout, now)
  {
    marked := cs;
    for k := 0 to |due|
      invariant |marked| == |cs|
      invariant forall i :: 0 <= i < |cs| ==>
                  marked[i] == if i in due[..k] then Settle(cs, a, payout, now)[i] else cs[i]
    {
      assert due[k] in due;
      marked := marked[due[k] := cs[due[k]].(status := Paid, paidAt := Some(now), payout := Some(payout))];
    }
    assert due[..|due|] == due;
  }
}
