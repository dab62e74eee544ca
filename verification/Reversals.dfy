/** Corrections: a reversal undoes its original. */
module Reversals {
  import opened Common
  import opened Chart
  import opened Journal
  import opened Books
  import opened Integrity
  import opened Reconciliation

  lemma MirrorInit(ls: seq<Line>)
    requires ls != []
    ensures Mirror(ls)[..|ls| - 1] == Mirror(ls[..|ls| - 1])
  {
  }

  /** Mirroring swaps the two totals and negates the net of every group of accounts. */
  lemma {:induction false} MirrorTotals(codes: set<int>, ls: seq<Line>)
    ensures (TotalDebit(Mirror(ls)), TotalCredit(Mirror(ls))) == (TotalCredit(ls), TotalDebit(ls))
    ensures LinesNet(UpTo(codes, None), Mirror(ls)) == -LinesNet(UpTo(codes, None), ls)
  {
    if ls != [] {
      MirrorInit(ls);
      MirrorTotals(codes, ls[..|ls| - 1]);
    }
  }

  /** Any stored entry can be reversed: the reversal is refused only by the lock of today's period. */
  lemma ReversalRefusedOnlyByLock(s: Books, i: nat, poster: Option<UserId>, today: Date)
    requires ValidBooks(s) && i < |s.journal|
    ensures ReverseEntry(s, i, poster, today).error ==
            if IsLocked(s.locks, PeriodOf(today)) then Some(PeriodLocked) else None
  {
    var ls := s.journal[i].lines;
    assert SoundEntry(s.accounts, s.journal[i]);
    MirrorTotals({}, ls);
    forall k | 0 <= k < |ls|
      ensures GoodLine(s.accounts, Mirror(ls)[k])
    {
      assert GoodLine(s.accounts, ls[k]);
    }
  }

  lemma {:induction false} NetWithout(q: Query, j: seq<Entry>, i: nat)
    requires i < |j|
    ensures Net(q, j[..i] + j[i + 1..]) == Net(q, j) - EntryNet(q, j[i])
  {
    var n := |j| - 1;
    if i == n {
      assert j[..i] + j[i + 1..] == j[..n];
    } else {
      NetWithout(q, j[..n], i);
      var rest := j[..n][..i] + j[..n][i + 1..];
      assert j[..i] + j[i + 1..] == rest + [j[n]];
      NetAppend(q, rest, j[n]);
    }
  }

  /** After a reversal every account, and every group of accounts, has the raw balance it would have
      had if neither the original nor the reversal had been posted. */
  lemma ReversalUndoes(s: Books, i: nat, poster: Option<UserId>, today: Date, codes: set<int>)
    requires i < |s.journal| && ReverseEntry(s, i, poster, today).error.None?
    ensures Net(UpTo(codes, None), ReverseEntry(s, i, poster, today).books.journal)
         == Net(UpTo(codes, None), s.journal[..i] + s.journal[i + 1..])
  {
    var memo := Memo("Reversal", Reversal, ForEntry(i), poster, None, false, true, Some(i));
    PostAppends(s, today, Mirror(s.journal[i].lines), memo);
    AppendMoves(s, ReverseEntry(s, i, poster, today).books, Mirror(s.journal[i].lines), UpTo(codes, None));
    MirrorTotals(codes, s.journal[i].lines);
    NetWithout(UpTo(codes, None), s.journal, i);
  }

  /** A reversal drops the party of the lines, so the balance of one party on one account is undone
      exactly when the original moved it by nothing. */
  lemma ReversalUndoesPartyIff(s: Books, i: nat, poster: Option<UserId>, today: Date, code: int, party: UserId)
    requires i < |s.journal| && ReverseEntry(s, i, poster, today).error.None?
    ensures var q := OfParty(code, PartyIs(Some(party)));
            && Net(q, ReverseEntry(s, i, poster, today).books.journal) == Net(q, s.journal)
            && (Net(q, ReverseEntry(s, i, poster, today).books.journal) == Net(q, s.journal[..i] + s.journal[i + 1..])
                <==> LinesNet(q, s.journal[i].lines) == 0)
  {
    var q := OfParty(code, PartyIs(Some(party)));
    var memo := Memo("Reversal", Reversal, ForEntry(i), poster, None, false, true, Some(i));
    PostAppends(s, today, Mirror(s.journal[i].lines), memo);
    AppendMoves(s, ReverseEntry(s, i, poster, today).books, Mirror(s.journal[i].lines), q);
    NoPartyNoNet(q, Mirror(s.journal[i].lines));
    NetWithout(q, s.journal, i);
  }

  lemma {:induction false} NoPartyNoNet(q: Query, ls: seq<Line>)
    requires q.scope.PartyIs? && q.scope.party.Some?
    requires forall k :: 0 <= k < |ls| ==> ls[k].party.None?
    ensures LinesNet(q, ls) == 0
  {
    if ls != [] {
      NoPartyNoNet(q, ls[..|ls| - 1]);
    }
  }

  /** Reversing a reversal posts the original accounts and amounts again, line by line. */
  lemma ReversingTwiceRestores(s: Books, i: nat, poster: Option<UserId>, today: Date, later: Date)
    requires i < |s.journal| && ReverseEntry(s, i, poster, today).error.None?
    requires ReverseEntry(ReverseEntry(s, i, poster, today).books, |s.journal|, poster, later).error.None?
    ensures var s2 := ReverseEntry(ReverseEntry(s, i, poster, today).books, |s.journal|, poster, later).books;
            && |s2.journal| == |s.journal| + 2
            && LineContent(s2.journal[|s.journal| + 1].lines) == LineContent(s.journal[i].lines)
            && s2.journal[|s.journal| + 1].total == s2.journal[|s.journal|].total
  {
    var s1 := ReverseEntry(s, i, poster, today).books;
    var ls := s.journal[i].lines;
    assert s1.journal[|s.journal|].lines == Mirror(ls);
    MirrorTotals({}, Mirror(ls));
  }
}
