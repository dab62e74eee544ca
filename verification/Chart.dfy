/** The chart of accounts. Account codes are written as numbers: account '2000' is 2000. */
module Chart {
  import opened Common

  datatype AccountKind = Asset | Liability | Equity | Revenue | CostOfRevenue | OperatingExpense | Other
  datatype Side = Debit | Credit

  const ASSET_CODES := {1000, 1010, 1020, 1030, 1100, 1101, 1150, 1200, 1250, 1400, 1450}
  const LIABILITY_CODES := {2000, 2010, 2020, 2025, 2030, 2040, 2050, 2060, 2099, 2100, 2110,
                            2200, 2300, 2400, 2500, 2510, 2999}
  const EQUITY_CODES := {3000, 3010, 3020}
  const REVENUE_CODES := {4000, 4010, 4020, 4030, 4040, 4990}
  const COR_CODES := {5000, 5010, 5020, 5030}
  const OPEX_CODES := {6000, 6010, 6011, 6020, 6030}
  const INCOME_TAX := 6500
  const OTHER_CODES := {7000, 7010, 7100, 7200}

  /** The accounts the balance sheet counts as expenses. */
  const EXPENSE_CODES := COR_CODES + OPEX_CODES + {INCOME_TAX}

  /** The type of an account, if it is on the chart at all. Income tax expense is typed as an
      operating expense but belongs to no statement list. */
  function KindOf(code: int): Option<AccountKind> {
    if code in ASSET_CODES then Some(Asset)
    else if code in LIABILITY_CODES then Some(Liability)
    else if code in EQUITY_CODES then Some(Equity)
    else if code in REVENUE_CODES then Some(Revenue)
    else if code in COR_CODES then Some(CostOfRevenue)
    else if code in OPEX_CODES || code == INCOME_TAX then Some(OperatingExpense)
    else if code in OTHER_CODES then Some(Other)
    else None
  }

  /** The side that increases an account: contra-assets and interest income go against their kind. */
  function NormalSide(code: int): Side {
    if code == 1150 || code == 1450 || code == 7010 then Credit
    else match KindOf(code)
      case Some(Asset) => Debit
      case Some(CostOfRevenue) => Debit
      case Some(OperatingExpense) => Debit
      case Some(Other) => Debit
      case _ => Credit
  }

  const CHART := ASSET_CODES + LIABILITY_CODES + EQUITY_CODES + REVENUE_CODES + EXPENSE_CODES + OTHER_CODES

  lemma BalanceSheetGroupsDisjoint()
    ensures ASSET_CODES !! LIABILITY_CODES
    ensures ASSET_CODES + LIABILITY_CODES !! EQUITY_CODES
    ensures ASSET_CODES + LIABILITY_CODES + EQUITY_CODES !! REVENUE_CODES
    ensures ASSET_CODES + LIABILITY_CODES + EQUITY_CODES + REVENUE_CODES !! EXPENSE_CODES
    ensures ASSET_CODES + LIABILITY_CODES + EQUITY_CODES + REVENUE_CODES + EXPENSE_CODES !! OTHER_CODES
  {
    GroupRanges();
  }

  lemma GroupRanges()
    ensures forall c :: c in ASSET_CODES ==> 1000 <= c < 2000
    ensures forall c :: c in LIABILITY_CODES ==> 2000 <= c < 3000
    ensures forall c :: c in EQUITY_CODES ==> 3000 <= c < 4000
    ensures forall c :: c in REVENUE_CODES ==> 4000 <= c < 5000
    ensures forall c :: c in EXPENSE_CODES ==> 5000 <= c < 7000
    ensures forall c :: c in OTHER_CODES ==> 7000 <= c
  {
  }

  lemma ExpenseGroupsDisjoint()
    ensures COR_CODES !! OPEX_CODES
    ensures COR_CODES + OPEX_CODES !! {INCOME_TAX}
  {
  }

  /** Every account with a type lies in one of the six balance-sheet groups, and no other does. */
  lemma GroupsCoverChart(code: int)
    ensures KindOf(code).Some? <==> code in CHART
  {
  }
}
