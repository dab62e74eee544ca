/** Trial balance, profit and loss, balance sheet. */
module Statements {
  import opened Common
  import opened Chart
  import opened Journal

  // ---- Trial balance ------------------------------------------------------------------------

  datatype TrialRow = TrialRow(code: int, debit: int, credit: int)

  function Max0(x: int): int { if x > 0 then x else 0 }

  /** The row of one account; an account without turnover has none. */
  function RowsOf(code: int, asOf: Option<Date>, j: seq<Entry>): seq<TrialRow> {
    var net := RawBalance(code, asOf, j);
    if net == 0 && Debited(UpTo({code}, asOf), j) == 0 then []
    else [TrialRow(code, Max0(net), Max0(-net))]
  }

  lemma {:induction false} LeastExists(s: set<int>)
    requires s != {}
    ensures exists m :: m in s && forall x :: x in s ==> m <= x
  {
    var y := Member(s);
    var rest := s - {y};
    if rest == {} {
      assert forall x :: x in s ==> y <= x by {
        assert forall x :: x in s && x != y ==> x in rest;
      }
    } else {
      LeastExists(rest);
      var m :| m in rest && forall x :: x in rest ==> m <= x;
      var k := if m < y then m else y;
      assert k in s && forall x :: x in s ==> k <= x by {
        assert forall x :: x in s && x != y ==> x in rest;
      }
    }
  }

  ghost function Least(s: set<int>): (m: int)
    requires s != {}
    ensures m in s && forall x :: x in s ==> m <= x
  {
    LeastExists(s);
    var m :| m in s && forall x :: x in s ==> m <= x;
    m
  }

  /** The rows of a set of accounts, in code order. */
  ghost function TrialRows(codes: set<int>, asOf: Option<Date>, j: seq<Entry>): seq<TrialRow> {
    if codes == {} then []
    else RowsOf(Least(codes), asOf, j) + TrialRows(codes - {Least(codes)}, asOf, j)
  }

  function DebitColumn(rows: seq<TrialRow>): int {
    if rows == [] then 0 else DebitColumn(rows[..|rows| - 1]) + rows[|rows| - 1].debit
  }

  function CreditColumn(rows: seq<TrialRow>): int {
    if rows == [] then 0 else CreditColumn(rows[..|rows| - 1]) + rows[|rows| - 1].credit
  }

  datatype TrialBalanceReport = TrialBalanceReport(balanced: bool, totalDebit: int, totalCredit: int,
                                                   rows: seq<TrialRow>)

  /** The trial balance over an account table. */
  ghost function TrialBalanceOf(accounts: set<int>, asOf: Option<Date>, j: seq<Entry>): TrialBalanceReport {
    var rows := TrialRows(accounts, asOf, j);
    TrialBalanceReport(DebitColumn(rows) == CreditColumn(rows), DebitColumn(rows), CreditColumn(rows), rows)
  }

  lemma {:induction false} ColumnsAppend(a: seq<TrialRow>, b: seq<TrialRow>)
    ensures DebitColumn(a + b) == DebitColumn(a) + DebitColumn(b)
    ensures CreditColumn(a + b) == CreditColumn(a) + CreditColumn(b)
  {
    if b == [] {
      assert a + b == a;
    } else {
      ColumnsAppend(a, b[..|b| - 1]);
      assert (a + b)[..|a + b| - 1] == a + b[..|b| - 1];
    }
  }

  /** The next account in code order. */
  method LeastCode(codes: set<int>) returns (code: int)
    requires codes != {}
    ensures code == Least(codes) && code in codes
  {
    LeastExists(codes);
    code :| code in codes && forall c :: c in codes ==> code <= c;
  }

  /** The row of one account, or none if the account had no turnover. */
  method RowFor(code: int, asOf: Option<Date>, j: seq<Entry>) returns (rows: seq<TrialRow>)
    ensures rows == RowsOf(code, asOf, j)
  {
    var net := RawBalance(code, asOf, j);
    var debited := Debited(UpTo({code}, asOf), j);
    rows := [];
    if net != 0 || debited != 0 {
      rows := [TrialRow(code, if net > 0 then net else 0, if net < 0 then -net else 0)];
    }
  }

  lemma RowsUnfold(codes: set<int>, done: seq<TrialRow>, rows: seq<TrialRow>, asOf: Option<Date>, j: seq<Entry>)
    requires codes != {} && rows == RowsOf(Least(codes), asOf, j)
    ensures done + TrialRows(codes, asOf, j) == (done + rows) + TrialRows(codes - {Least(codes)}, asOf, j)
  {
    Regroup(done, rows, TrialRows(codes - {Least(codes)}, asOf, j));
  }

  lemma Regroup(a: seq<TrialRow>, b: seq<TrialRow>, c: seq<TrialRow>)
    ensures a + (b + c) == (a + b) + c
  {
  }

  /** Walks the account table in code order and accumulates both columns. */
  method TrialBalance(accounts: set<int>, asOf: Option<Date>, j: seq<Entry>) returns (r: TrialBalanceReport)
    ensures r == TrialBalanceOf(accounts, asOf, j)
  {
    var rows := [];
    var totalDebit, totalCredit := 0, 0;
    var remaining := accounts;
    while remaining != {}
      invariant rows + TrialRows(remaining, asOf, j) == TrialRows(accounts, asOf, j)
      invariant totalDebit == DebitColumn(rows) && totalCredit == CreditColumn(rows)
      decreases remaining
    {
      var code := LeastCode(remaining);
      var row := RowFor(code, asOf, j);
      RowsUnfold(remaining, rows, row, asOf, j);
      ColumnsAppend(rows, row);
      rows := rows + row;
      totalDebit, totalCredit := totalDebit + DebitColumn(row), totalCredit + CreditColumn(row);
      remaining := remaining - {code};
    }
    assert rows + [] == rows;
    r := TrialBalanceReport(totalDebit == totalCredit, totalDebit, totalCredit, rows);
  }

  /** The two columns differ by the net of the listed accounts: nothing is lost by netting per account. */
  lemma {:induction false} ColumnsDifference(codes: set<int>, asOf: Option<Date>, j: seq<Entry>)
    ensures var rows := TrialRows(codes, asOf, j);
            DebitColumn(rows) - CreditColumn(rows) == Net(UpTo(codes, asOf), j)
  {
    if codes == {} {
      NetOfNothing(UpTo(codes, asOf), j);
    } else {
      var c := Least(codes);
      ColumnsDifference(codes - {c}, asOf, j);
      ColumnsAppend(RowsOf(c, asOf, j), TrialRows(codes - {c}, asOf, j));
      NetSplit(UpTo(codes, asOf), {c}, codes - {c}, j);
      assert {c} + (codes - {c}) == codes;
    }
  }

  /** Some posting up to the date names the account. */
  ghost predicate Used(code: int, asOf: Option<Date>, j: seq<Entry>) {
    exists i :: 0 <= i < |j| && (asOf.Some? ==> OnOrBefore(j[i].date, asOf.value)) && Names(j[i].lines, code)
  }

  ghost predicate Names(ls: seq<Line>, code: int) {
    exists k :: 0 <= k < |ls| && ls[k].account == code
  }

  lemma {:induction false} LinesTurnover(accounts: set<int>, code: int, asOf: Option<Date>, ls: seq<Line>)
    requires forall k :: 0 <= k < |ls| ==> GoodLine(accounts, ls[k])
    ensures var debit, net := LinesDebit(UpTo({code}, asOf), ls), LinesNet(UpTo({code}, asOf), ls);
            debit >= 0 && debit >= net && (debit == 0 == net <==> !Names(ls, code))
  {
    if ls != [] {
      var init, last := ls[..|ls| - 1], ls[|ls| - 1];
      LinesTurnover(accounts, code, asOf, init);
      assert Names(ls, code) <==> Names(init, code) || last.account == code by {
        assert ls[|ls| - 1] == last;
        assert forall k :: 0 <= k < |init| ==> init[k] == ls[k];
      }
      assert GoodLine(accounts, last);
    }
  }

  lemma {:induction false} Turnover(accounts: set<int>, code: int, asOf: Option<Date>, j: seq<Entry>)
    requires SoundJournal(accounts, j)
    ensures var debit, net := Debited(UpTo({code}, asOf), j), Net(UpTo({code}, asOf), j);
            debit >= 0 && debit >= net && (debit == 0 == net <==> !Used(code, asOf, j))
  {
    if j != [] {
      var init, e := j[..|j| - 1], j[|j| - 1];
      Turnover(accounts, code, asOf, init);
      LinesTurnover(accounts, code, asOf, e.lines);
      assert Used(code, asOf, j) <==>
             Used(code, asOf, init) || ((asOf.Some? ==> OnOrBefore(e.date, asOf.value)) && Names(e.lines, code)) by {
        assert j[|j| - 1] == e;
        assert forall i :: 0 <= i < |init| ==> init[i] == j[i];
      }
    }
  }

  /** Of a sound journal the trial balance lists an account exactly when some posting up to the date names it,
      with its balance in the one column and nothing in the other. */
  lemma RowIsListedIffUsed(accounts: set<int>, code: int, asOf: Option<Date>, j: seq<Entry>)
    requires SoundJournal(accounts, j)
    ensures var rows := RowsOf(code, asOf, j);
            if Used(code, asOf, j) then
              && |rows| == 1 && rows[0].code == code && rows[0].debit - rows[0].credit == Net(UpTo({code}, asOf), j)
              && (rows[0].debit == 0 <= rows[0].credit || rows[0].credit == 0 <= rows[0].debit)
            else rows == []
  {
    Turnover(accounts, code, asOf, j);
  }

  lemma {:induction false} LinesNetOfNothing(q: Query, ls: seq<Line>)
    requires q.codes == {}
    ensures LinesNet(q, ls) == 0
  {
    if ls != [] {
      LinesNetOfNothing(q, ls[..|ls| - 1]);
    }
  }

  lemma {:induction false} NetOfNothing(q: Query, j: seq<Entry>)
    requires q.codes == {}
    ensures Net(q, j) == 0
  {
    if j != [] {
      NetOfNothing(q, j[..|j| - 1]);
      LinesNetOfNothing(q, j[|j| - 1].lines);
    }
  }

  /** Of a sound journal the trial balance over the account table balances, at every date. */
  lemma TrialBalanceBalances(accounts: set<int>, asOf: Option<Date>, j: seq<Entry>)
    requires SoundJournal(accounts, j)
    ensures TrialBalanceOf(accounts, asOf, j).balanced
    ensures TrialBalanceOf(accounts, asOf, j).totalDebit == TrialBalanceOf(accounts, asOf, j).totalCredit
  {
    ColumnsDifference(accounts, asOf, j);
    NetWholeTable(accounts, UpTo(accounts, asOf), j);
  }

  // ---- Profit and loss ----------------------------------------------------------------------

  datatype Pnl = Pnl(revenue: int, costOfRevenue: int, grossProfit: int, opex: int, ebitda: int,
                     other: int, pbt: int, incomeTax: int, netProfit: int)

  function ProfitAndLoss(p: Period, j: seq<Entry>): Pnl {
    var revenue := -Net(InPeriod(REVENUE_CODES, p), j);
    var cor := Net(InPeriod(COR_CODES, p), j);
    var grossProfit := revenue - cor;
    var opex := Net(InPeriod(OPEX_CODES, p), j);
    var ebitda := grossProfit - opex;
    var other := -Net(InPeriod(OTHER_CODES, p), j);
    var pbt := ebitda + other;
    var tax := Net(InPeriod({INCOME_TAX}, p), j);
    Pnl(revenue, cor, grossProfit, opex, ebitda, other, pbt, tax, pbt - tax)
  }

  // ---- Balance sheet ------------------------------------------------------------------------

  datatype BalanceSheetReport = BalanceSheetReport(assets: int, liabilities: int, equity: int, retained: int,
                                                   balanced: bool)

  function BalanceSheet(asOf: Option<Date>, j: seq<Entry>): BalanceSheetReport {
    var assets := Net(UpTo(ASSET_CODES, asOf), j);
    var liabilities := -Net(UpTo(LIABILITY_CODES, asOf), j);
    var equity := -Net(UpTo(EQUITY_CODES, asOf), j);
    var revenue := -Net(UpTo(REVENUE_CODES, asOf), j);
    var expenses := Net(UpTo(EXPENSE_CODES, asOf), j);
    var other := -Net(UpTo(OTHER_CODES, asOf), j);
    var retained := revenue - expenses + other;
    BalanceSheetReport(assets, liabilities, equity + retained, retained,
                       assets == liabilities + (equity + retained))
  }

  /** The six groups of the balance sheet partition the chart, so their nets add to the whole. */
  lemma GroupsAddUp(asOf: Option<Date>, j: seq<Entry>)
    ensures Net(UpTo(CHART, asOf), j)
         == Net(UpTo(ASSET_CODES, asOf), j) + Net(UpTo(LIABILITY_CODES, asOf), j)
          + Net(UpTo(EQUITY_CODES, asOf), j) + Net(UpTo(REVENUE_CODES, asOf), j)
          + Net(UpTo(EXPENSE_CODES, asOf), j) + Net(UpTo(OTHER_CODES, asOf), j)
  {
    BalanceSheetGroupsDisjoint();
    var q := UpTo({}, asOf);
    NetSplit(q, ASSET_CODES, LIABILITY_CODES, j);
    NetSplit(q, ASSET_CODES + LIABILITY_CODES, EQUITY_CODES, j);
    NetSplit(q, ASSET_CODES + LIABILITY_CODES + EQUITY_CODES, REVENUE_CODES, j);
    NetSplit(q, ASSET_CODES + LIABILITY_CODES + EQUITY_CODES + REVENUE_CODES, EXPENSE_CODES, j);
    NetSplit(q, ASSET_CODES + LIABILITY_CODES + EQUITY_CODES + REVENUE_CODES + EXPENSE_CODES, OTHER_CODES, j);
  }

  /** Assets equal liabilities plus equity plus retained earnings, contra accounts included, exactly
      when the accounts outside the chart net to zero; in particular when there are none. */
  lemma BalanceSheetBalances(accounts: set<int>, asOf: Option<Date>, j: seq<Entry>)
    requires SoundJournal(accounts, j)
    ensures BalanceSheet(asOf, j).balanced <==> Net(UpTo(accounts - CHART, asOf), j) == 0
    ensures accounts <= CHART ==> BalanceSheet(asOf, j).balanced
  {
    GroupsAddUp(asOf, j);
    NetSplit(UpTo({}, asOf), CHART, accounts - CHART, j);
    NetWholeTable(accounts, UpTo(CHART + (accounts - CHART), asOf), j);
    if accounts <= CHART {
      NetOfNothing(UpTo(accounts - CHART, asOf), j);
    }
  }

  const PNL_CODES := REVENUE_CODES + EXPENSE_CODES + OTHER_CODES

  lemma EquityIsOneNet(asOf: Option<Date>, j: seq<Entry>)
    ensures BalanceSheet(asOf, j).equity == -Net(UpTo(EQUITY_CODES + PNL_CODES, asOf), j)
    ensures BalanceSheet(asOf, j).retained == -Net(UpTo(PNL_CODES, asOf), j)
  {
    BalanceSheetGroupsDisjoint();
    var q := UpTo({}, asOf);
    NetSplit(q, REVENUE_CODES, EXPENSE_CODES, j);
    NetSplit(q, REVENUE_CODES + EXPENSE_CODES, OTHER_CODES, j);
    NetSplit(q, EQUITY_CODES, PNL_CODES, j);
  }

  /** How far the debit column of some accounts exceeds their credit column. */
  ghost function DebitExcess(codes: set<int>, asOf: Option<Date>, j: seq<Entry>): int {
    DebitColumn(TrialRows(codes, asOf, j)) - CreditColumn(TrialRows(codes, asOf, j))
  }

  /** The balance sheet regroups the trial balance: at every date its assets are what the rows of the asset
      accounts show on the debit side, everything else what the rows of its accounts show on the credit
      side; and it is called balanced exactly when the reported columns are equal. */
  lemma BalanceSheetTiesToTrialBalance(asOf: Option<Date>, j: seq<Entry>)
    ensures var b := BalanceSheet(asOf, j);
            && b.assets == DebitExcess(ASSET_CODES, asOf, j)
            && b.liabilities == -DebitExcess(LIABILITY_CODES, asOf, j)
            && b.equity == -DebitExcess(EQUITY_CODES + PNL_CODES, asOf, j)
            && b.retained == -DebitExcess(PNL_CODES, asOf, j)
            && (b.balanced <==> b.assets == b.liabilities + b.equity)
  {
    EquityIsOneNet(asOf, j);
    ColumnsDifference(ASSET_CODES, asOf, j);
    ColumnsDifference(LIABILITY_CODES, asOf, j);
    ColumnsDifference(EQUITY_CODES + PNL_CODES, asOf, j);
    ColumnsDifference(PNL_CODES, asOf, j);
  }

  /** The balances of some accounts, each in its natural sign, added up. */
  ghost function NaturalTotal(codes: set<int>, asOf: Option<Date>, j: seq<Entry>): int {
    if codes == {} then 0
    else AccountBalance(Least(codes), asOf, j) + NaturalTotal(codes - {Least(codes)}, asOf, j)
  }

  lemma {:induction false} NaturalTotalIsNet(codes: set<int>, side: Side, asOf: Option<Date>, j: seq<Entry>)
    requires forall c :: c in codes ==> NormalSide(c) == side
    ensures NaturalTotal(codes, asOf, j)
            == if side == Debit then Net(UpTo(codes, asOf), j) else -Net(UpTo(codes, asOf), j)
  {
    if codes == {} {
      NetOfNothing(UpTo(codes, asOf), j);
    } else {
      var c := Least(codes);
      NaturalTotalIsNet(codes - {c}, side, asOf, j);
      NetSplit(UpTo(codes, asOf), {c}, codes - {c}, j);
      assert {c} + (codes - {c}) == codes;
    }
  }

  const CONTRA_ASSETS := {1150, 1450}

  /** Assets are the natural balances of the asset accounts, where the allowance and the accumulated amortisation
      count against the others. */
  lemma ContraAssetsNetDown(asOf: Option<Date>, j: seq<Entry>)
    ensures BalanceSheet(asOf, j).assets
            == NaturalTotal(ASSET_CODES - CONTRA_ASSETS, asOf, j) - NaturalTotal(CONTRA_ASSETS, asOf, j)
  {
    GroupRanges();
    NaturalTotalIsNet(ASSET_CODES - CONTRA_ASSETS, Debit, asOf, j);
    NaturalTotalIsNet(CONTRA_ASSETS, Credit, asOf, j);
    NetSplit(UpTo({}, asOf), ASSET_CODES - CONTRA_ASSETS, CONTRA_ASSETS, j);
    assert (ASSET_CODES - CONTRA_ASSETS) + CONTRA_ASSETS == ASSET_CODES;
  }

  /** Liabilities are the natural balances of their accounts. */
  lemma LiabilitiesAreNaturalBalances(asOf: Option<Date>, j: seq<Entry>)
    ensures BalanceSheet(asOf, j).liabilities == NaturalTotal(LIABILITY_CODES, asOf, j)
  {
    GroupRanges();
    NaturalTotalIsNet(LIABILITY_CODES, Credit, asOf, j);
  }

  lemma OtherIsNaturalBalances(asOf: Option<Date>, j: seq<Entry>)
    ensures -Net(UpTo(OTHER_CODES, asOf), j)
            == NaturalTotal({7010}, asOf, j) - NaturalTotal(OTHER_CODES - {7010}, asOf, j)
  {
    NaturalTotalIsNet({7010}, Credit, asOf, j);
    NaturalTotalIsNet(OTHER_CODES - {7010}, Debit, asOf, j);
    NetSplit(UpTo({}, asOf), OTHER_CODES - {7010}, {7010}, j);
    assert (OTHER_CODES - {7010}) + {7010} == OTHER_CODES;
  }

  lemma RevenueSide(c: int)
    requires c in REVENUE_CODES
    ensures NormalSide(c) == Credit
  {
    GroupRanges();
  }

  lemma ExpenseSide(c: int)
    requires c in EXPENSE_CODES
    ensures NormalSide(c) == Debit
  {
    GroupRanges();
  }

  /** Retained earnings are the natural balances of what earns, interest income among it, less those of what
      costs. */
  lemma RetainedAreNaturalBalances(asOf: Option<Date>, j: seq<Entry>)
    ensures BalanceSheet(asOf, j).retained
            == NaturalTotal(REVENUE_CODES, asOf, j) + NaturalTotal({7010}, asOf, j)
               - NaturalTotal(EXPENSE_CODES, asOf, j) - NaturalTotal(OTHER_CODES - {7010}, asOf, j)
  {
    forall c | c in REVENUE_CODES {
      RevenueSide(c);
    }
    forall c | c in EXPENSE_CODES {
      ExpenseSide(c);
    }
    NaturalTotalIsNet(REVENUE_CODES, Credit, asOf, j);
    NaturalTotalIsNet(EXPENSE_CODES, Debit, asOf, j);
    OtherIsNaturalBalances(asOf, j);
  }

  // ---- The two statements agree -------------------------------------------------------------

  ghost predicate CoversPeriods(ps: seq<Period>, j: seq<Entry>) {
    && (forall i :: 0 <= i < |j| ==> j[i].period in ps)
    && (forall a, b :: 0 <= a < b < |ps| ==> ps[a] != ps[b])
  }

  function NetProfits(ps: seq<Period>, j: seq<Entry>): int {
    if ps == [] then 0 else NetProfits(ps[..|ps| - 1], j) + ProfitAndLoss(ps[|ps| - 1], j).netProfit
  }

  function PeriodNets(codes: set<int>, ps: seq<Period>, j: seq<Entry>): int {
    if ps == [] then 0 else PeriodNets(codes, ps[..|ps| - 1], j) + Net(InPeriod(codes, ps[|ps| - 1]), j)
  }

  lemma PnlIsOneNet(p: Period, j: seq<Entry>)
    ensures ProfitAndLoss(p, j).netProfit == -Net(InPeriod(PNL_CODES, p), j)
  {
    BalanceSheetGroupsDisjoint();
    ExpenseGroupsDisjoint();
    var q := InPeriod({}, p);
    NetSplit(q, COR_CODES, OPEX_CODES, j);
    NetSplit(q, COR_CODES + OPEX_CODES, {INCOME_TAX}, j);
    NetSplit(q, REVENUE_CODES, EXPENSE_CODES, j);
    NetSplit(q, REVENUE_CODES + EXPENSE_CODES, OTHER_CODES, j);
  }

  lemma {:induction false} ProfitsAreNets(ps: seq<Period>, j: seq<Entry>)
    ensures NetProfits(ps, j) == -PeriodNets(PNL_CODES, ps, j)
  {
    if ps != [] {
      ProfitsAreNets(ps[..|ps| - 1], j);
      PnlIsOneNet(ps[|ps| - 1], j);
    }
  }

  /** One more entry moves exactly one of the period nets. */
  lemma {:induction false} PeriodNetsAppend(codes: set<int>, ps: seq<Period>, j: seq<Entry>, e: Entry)
    requires forall a, b :: 0 <= a < b < |ps| ==> ps[a] != ps[b]
    ensures PeriodNets(codes, ps, j + [e])
         == PeriodNets(codes, ps, j) + (if e.period in ps then LinesNet(UpTo(codes, None), e.lines) else 0)
  {
    if ps != [] {
      var init, p := ps[..|ps| - 1], ps[|ps| - 1];
      PeriodNetsAppend(codes, init, j, e);
      NetAppend(InPeriod(codes, p), j, e);
      LinesNetIgnoresDates(InPeriod(codes, p), UpTo(codes, None), e.lines);
      assert ps == init + [p];
    }
  }

  lemma {:induction false} LinesNetIgnoresDates(q: Query, q': Query, ls: seq<Line>)
    requires q.codes == q'.codes && q.scope == q'.scope
    ensures LinesNet(q, ls) == LinesNet(q', ls)
  {
    if ls != [] {
      LinesNetIgnoresDates(q, q', ls[..|ls| - 1]);
    }
  }

  lemma {:induction false} PeriodsPartitionJournal(codes: set<int>, ps: seq<Period>, j: seq<Entry>)
    requires CoversPeriods(ps, j)
    ensures PeriodNets(codes, ps, j) == Net(UpTo(codes, None), j)
  {
    if j == [] {
      NoPeriodNets(codes, ps);
    } else {
      var init, e := j[..|j| - 1], j[|j| - 1];
      PeriodsPartitionJournal(codes, ps, init);
      PeriodNetsAppend(codes, ps, init, e);
      assert j == init + [e];
    }
  }

  lemma {:induction false} NoPeriodNets(codes: set<int>, ps: seq<Period>)
    ensures PeriodNets(codes, ps, []) == 0
  {
    if ps != [] {
      NoPeriodNets(codes, ps[..|ps| - 1]);
    }
  }

  /** Articulation: the net profits of all periods add up to the retained earnings shown on the
      balance sheet, whichever periods the journal touches. */
  lemma RetainedEarningsAreAllProfits(ps: seq<Period>, j: seq<Entry>)
    requires CoversPeriods(ps, j)
    ensures BalanceSheet(None, j).retained == NetProfits(ps, j)
  {
    ProfitsAreNets(ps, j);
    PeriodsPartitionJournal(PNL_CODES, ps, j);
    BalanceSheetGroupsDisjoint();
    var q := UpTo({}, None);
    NetSplit(q, REVENUE_CODES, EXPENSE_CODES, j);
    NetSplit(q, REVENUE_CODES + EXPENSE_CODES, OTHER_CODES, j);
  }
}
