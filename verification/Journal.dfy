/** Journal entries, the posting rules, and the one query every statement is made of. */
module Journal {
  import opened Common
  import opened Chart
  import opened AuditChain

  datatype Date = Date(year: int, month: int, day: int)
  datatype Period = Period(year: int, month: int)

  function PeriodOf(d: Date): Period {
    Period(d.year, d.month)
  }

  predicate OnOrBefore(a: Date, b: Date) {
    a.year < b.year || (a.year == b.year && (a.month < b.month || (a.month == b.month && a.day <= b.day)))
  }

  /** The date a statement snapshot uses as its inclusive upper bound: the first of the next month. */
  function SnapshotEnd(p: Period): Date {
    if p.month == 12 then Date(p.year + 1, 1, 1) else Date(p.year, p.month + 1, 1)
  }

  type UserId = int

  const HOME_CURRENCY := "AOA"

  datatype Line = Line(account: int, debit: int, credit: int, party: Option<UserId>,
                       description: string, currency: string)

  /** A line in the home currency without a text of its own. */
  function Plain(account: int, debit: int, credit: int, party: Option<UserId>): Line {
    Line(account, debit, credit, party, "", HOME_CURRENCY)
  }

  function Dr(account: int, amount: int): Line { Plain(account, amount, 0, None) }
  function Cr(account: int, amount: int): Line { Plain(account, 0, amount, None) }
  function DrOf(account: int, amount: int, party: Option<UserId>): Line { Plain(account, amount, 0, party) }
  function CrOf(account: int, amount: int, party: Option<UserId>): Line { Plain(account, 0, amount, party) }

  datatype SourceType = SystemAuto | Manual | Reversal | Correction | Accrual | Payroll

  /** What an entry was posted for. */
  datatype Source =
    | NoSource
    | ForOrder(order: string)
    | ForBatch(batch: string)
    | ForTransfer(transfer: string)
    | ForTopUp(user: UserId)
    | ForIva(order: string)
    | ForDeferred(row: nat)
    | ForAsset(row: nat)
    | ForReserve(on: Date)
    | ForFx(currency: string, on: Date)
    | ForEntry(original: nat)

  datatype Memo = Memo(
    description: string,
    sourceType: SourceType,
    source: Source,
    postedBy: Option<UserId>,
    approvedBy: Option<UserId>,
    isAuto: bool,
    isReversal: bool,
    reversed: Option<nat>)

  function AutoMemo(description: string, source: Source): Memo {
    Memo(description, SystemAuto, source, None, None, true, false, None)
  }

  /** What an entry gets from its surroundings: a random key, and the time it was stored. */
  datatype Stamp = Stamp(key: string, postedAt: int)

  /** A journal entry; its digests make it a row of the tamper-evidence chain. */
  datatype Entry = Entry(stamp: Stamp, date: Date, period: Period, memo: Memo, total: int, lines: seq<Line>,
                         seqNo: int, prevHash: string, entryHash: string)

  /** The hashed content of an entry besides its sequence number. The key and time of the entry, its
      approver, and the party, text and currency of each line are not part of it. */
  datatype Payload = Payload(date: Date, period: Period, description: string, sourceType: SourceType,
                             source: Source, postedBy: Option<UserId>, isAuto: bool, isReversal: bool,
                             reversed: Option<nat>, total: int, lines: seq<(int, int, int)>)

  function LineContent(ls: seq<Line>): seq<(int, int, int)> {
    seq(|ls|, i requires 0 <= i < |ls| => (ls[i].account, ls[i].debit, ls[i].credit))
  }

  function PayloadFor(date: Date, memo: Memo, total: int, lines: seq<Line>): Payload {
    Payload(date, PeriodOf(date), memo.description, memo.sourceType, memo.source, memo.postedBy,
            memo.isAuto, memo.isReversal, memo.reversed, total, LineContent(lines))
  }

  function ChainPayload(e: Entry): Payload {
    PayloadFor(e.date, e.memo, e.total, e.lines).(period := e.period)
  }

  function ChainRow(e: Entry): Record<Payload> {
    Record(e.seqNo, e.prevHash, e.entryHash, ChainPayload(e))
  }

  function Chain(j: seq<Entry>): (rs: seq<Record<Payload>>)
    ensures |rs| == |j| && forall i :: 0 <= i < |j| ==> rs[i] == ChainRow(j[i])
  {
    seq(|j|, i requires 0 <= i < |j| => ChainRow(j[i]))
  }

  // ---- Posting rules ------------------------------------------------------------------------

  datatype Error =
    | PeriodLocked
    | UnbalancedJournal
    | EmptyJournal
    | UnknownAccount
    | LineConstraint   // the one-direction check constraint on a journal line
    | RowMissing       // a lookup by key found nothing
    | SellerMissing    // a payable row cannot be stored without its seller
    | DivisionByZero
    | AlreadyDecided
    | SelfApproval

  function TotalDebit(ls: seq<Line>): int {
    if ls == [] then 0 else TotalDebit(ls[..|ls| - 1]) + ls[|ls| - 1].debit
  }

  function TotalCredit(ls: seq<Line>): int {
    if ls == [] then 0 else TotalCredit(ls[..|ls| - 1]) + ls[|ls| - 1].credit
  }

  /** Exactly one of debit and credit is positive, the other is zero. */
  predicate OneDirection(l: Line) {
    (l.debit > 0 && l.credit == 0) || (l.debit == 0 && l.credit > 0)
  }

  /** A line that can be stored: its account is in the account table. */
  predicate GoodLine(accounts: set<int>, l: Line) {
    l.account in accounts && OneDirection(l)
  }

  /** The error raised while the lines are inserted one after the other, if any. */
  function InsertError(accounts: set<int>, ls: seq<Line>): (e: Option<Error>)
    ensures e.None? <==> forall i :: 0 <= i < |ls| ==> GoodLine(accounts, ls[i])
  {
    if ls == [] then None
    else if InsertError(accounts, ls[..|ls| - 1]).Some? then InsertError(accounts, ls[..|ls| - 1])
    else if ls[|ls| - 1].account !in accounts then Some(UnknownAccount)
    else if !OneDirection(ls[|ls| - 1]) then Some(LineConstraint)
    else None
  }

  predicate IsLocked(locks: map<Period, bool>, p: Period) {
    p in locks && locks[p]
  }

  function PostingError(accounts: set<int>, locks: map<Period, bool>, date: Date, ls: seq<Line>): Option<Error> {
    if IsLocked(locks, PeriodOf(date)) then Some(PeriodLocked)
    else if TotalDebit(ls) != TotalCredit(ls) then Some(UnbalancedJournal)
    else if TotalDebit(ls) == 0 then Some(EmptyJournal)
    else InsertError(accounts, ls)
  }

  function TailNumber(j: seq<Entry>): int { if j == [] then 0 else j[|j| - 1].seqNo }
  function TailHash(j: seq<Entry>): string { if j == [] then GENESIS else j[|j| - 1].entryHash }

  /** The entry that posting appends: sealed onto the tail of the journal. */
  function SealedEntry(h: Digest<Payload>, stamp: Stamp, j: seq<Entry>, date: Date, lines: seq<Line>,
                       memo: Memo): Entry {
    Entry(stamp, date, PeriodOf(date), memo, TotalDebit(lines), lines, TailNumber(j) + 1, TailHash(j),
          h(TailNumber(j) + 1, PayloadFor(date, memo, TotalDebit(lines), lines), TailHash(j)))
  }

  /** What every stored entry satisfies. */
  predicate SoundEntry(accounts: set<int>, e: Entry) {
    && e.period == PeriodOf(e.date)
    && TotalDebit(e.lines) == TotalCredit(e.lines) == e.total > 0
    && forall i :: 0 <= i < |e.lines| ==> GoodLine(accounts, e.lines[i])
  }

  ghost predicate SoundJournal(accounts: set<int>, j: seq<Entry>) {
    forall i :: 0 <= i < |j| ==> SoundEntry(accounts, j[i])
  }

  lemma {:induction false} GoodLinesTotal(accounts: set<int>, ls: seq<Line>)
    requires forall i :: 0 <= i < |ls| ==> GoodLine(accounts, ls[i])
    ensures TotalDebit(ls) >= 0 && TotalCredit(ls) >= 0
    ensures TotalDebit(ls) + TotalCredit(ls) > 0 <==> ls != []
  {
    if ls != [] {
      GoodLinesTotal(accounts, ls[..|ls| - 1]);
    }
  }

  /** A posting that raises no error stores a sound entry. */
  lemma PostedEntryIsSound(h: Digest<Payload>, stamp: Stamp, j: seq<Entry>, accounts: set<int>,
                           locks: map<Period, bool>, date: Date, lines: seq<Line>, memo: Memo)
    requires PostingError(accounts, locks, date, lines).None?
    ensures SoundEntry(accounts, SealedEntry(h, stamp, j, date, lines, memo))
    ensures !IsLocked(locks, SealedEntry(h, stamp, j, date, lines, memo).period)
    ensures var e := SealedEntry(h, stamp, j, date, lines, memo);
            ChainRow(e) == Seal(h, Chain(j), ChainPayload(e))
  {
    GoodLinesTotal(accounts, lines);
  }

  // ---- The query behind every balance and statement -----------------------------------------

  datatype Scope = Everyone | PartyIs(party: Option<UserId>)

  predicate InScope(s: Scope, party: Option<UserId>) {
    s.Everyone? || s.party == party
  }

  /** Net debit over the lines of some accounts, optionally of one period, up to a date, of one party. */
  datatype Query = Query(codes: set<int>, period: Option<Period>, asOf: Option<Date>, scope: Scope)

  function Account(code: int): Query { Query({code}, None, None, Everyone) }
  function InPeriod(codes: set<int>, p: Period): Query { Query(codes, Some(p), None, Everyone) }
  function UpTo(codes: set<int>, asOf: Option<Date>): Query { Query(codes, None, asOf, Everyone) }
  function OfParty(code: int, scope: Scope): Query { Query({code}, None, None, scope) }

  function LineNet(q: Query, l: Line): int {
    if l.account in q.codes && InScope(q.scope, l.party) then l.debit - l.credit else 0
  }

  function LinesNet(q: Query, ls: seq<Line>): int {
    if ls == [] then 0 else LinesNet(q, ls[..|ls| - 1]) + LineNet(q, ls[|ls| - 1])
  }

  predicate Picks(q: Query, e: Entry) {
    && (q.period.Some? ==> e.period == q.period.value)
    && (q.asOf.Some? ==> OnOrBefore(e.date, q.asOf.value))
  }

  function EntryNet(q: Query, e: Entry): int {
    if Picks(q, e) then LinesNet(q, e.lines) else 0
  }

  function Net(q: Query, j: seq<Entry>): int {
    if j == [] then 0 else Net(q, j[..|j| - 1]) + EntryNet(q, j[|j| - 1])
  }

  lemma NetAppend(q: Query, j: seq<Entry>, e: Entry)
    ensures Net(q, j + [e]) == Net(q, j) + EntryNet(q, e)
  {
    assert (j + [e])[..|j|] == j;
  }

  /** Entries a query does not pick leave its value alone. */
  lemma {:induction false} NetUnpicked(q: Query, j: seq<Entry>, j': seq<Entry>)
    requires j <= j'
    requires forall i :: |j| <= i < |j'| ==> !Picks(q, j'[i])
    ensures Net(q, j') == Net(q, j)
  {
    if j == j' {
    } else {
      NetUnpicked(q, j, j'[..|j'| - 1]);
    }
  }

  lemma {:induction false} LinesNetSplit(q: Query, a: set<int>, b: set<int>, ls: seq<Line>)
    requires a !! b
    ensures LinesNet(q.(codes := a + b), ls) == LinesNet(q.(codes := a), ls) + LinesNet(q.(codes := b), ls)
  {
    if ls != [] {
      LinesNetSplit(q, a, b, ls[..|ls| - 1]);
    }
  }

  /** Regrouping: over disjoint account groups the net amounts add up. */
  lemma {:induction false} NetSplit(q: Query, a: set<int>, b: set<int>, j: seq<Entry>)
    requires a !! b
    ensures Net(q.(codes := a + b), j) == Net(q.(codes := a), j) + Net(q.(codes := b), j)
  {
    if j != [] {
      NetSplit(q, a, b, j[..|j| - 1]);
      LinesNetSplit(q, a, b, j[|j| - 1].lines);
    }
  }

  lemma {:induction false} LinesNetWhole(accounts: set<int>, q: Query, ls: seq<Line>)
    requires accounts <= q.codes && q.scope == Everyone
    requires forall i :: 0 <= i < |ls| ==> GoodLine(accounts, ls[i])
    ensures LinesNet(q, ls) == TotalDebit(ls) - TotalCredit(ls)
  {
    if ls != [] {
      LinesNetWhole(accounts, q, ls[..|ls| - 1]);
    }
  }

  /** Over the whole account table everything nets to zero, whatever the period and date filters:
      they take whole balanced entries. */
  lemma {:induction false} NetWholeTable(accounts: set<int>, q: Query, j: seq<Entry>)
    requires accounts <= q.codes && q.scope == Everyone
    requires SoundJournal(accounts, j)
    ensures Net(q, j) == 0
  {
    if j != [] {
      NetWholeTable(accounts, q, j[..|j| - 1]);
      LinesNetWhole(accounts, q, j[|j| - 1].lines);
    }
  }

  // ---- Debit turnover -----------------------------------------------------------------------

  function LinesDebit(q: Query, ls: seq<Line>): int {
    if ls == [] then 0
    else LinesDebit(q, ls[..|ls| - 1])
         + (if ls[|ls| - 1].account in q.codes && InScope(q.scope, ls[|ls| - 1].party) then ls[|ls| - 1].debit else 0)
  }

  /** The total debited to the accounts of a query. */
  function Debited(q: Query, j: seq<Entry>): int {
    if j == [] then 0
    else Debited(q, j[..|j| - 1]) + (if Picks(q, j[|j| - 1]) then LinesDebit(q, j[|j| - 1].lines) else 0)
  }

  function RawBalance(code: int, asOf: Option<Date>, j: seq<Entry>): int {
    Net(UpTo({code}, asOf), j)
  }

  /** A balance in the account's natural sign. */
  function AccountBalance(code: int, asOf: Option<Date>, j: seq<Entry>): int {
    if NormalSide(code) == Debit then RawBalance(code, asOf, j) else -RawBalance(code, asOf, j)
  }
}
