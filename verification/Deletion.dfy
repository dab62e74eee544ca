/** Deleting a user: references that are visible from the user move to a placeholder, hidden ones are
    cleared. What that does to the two hash chains and to the books. */
module Deletion {
  import opened Common
  import opened Chart
  import opened AuditChain
  import opened Journal
  import opened Books
  import opened Integrity
  import opened Reconciliation
  import AdminLog

  function Moved(x: UserId, user: UserId, anchor: UserId): UserId {
    if x == user then anchor else x
  }

  function MovedIf(x: Option<UserId>, user: UserId, anchor: UserId): Option<UserId> {
    if x == Some(user) then Some(anchor) else x
  }

  function Cleared(x: Option<UserId>, user: UserId): Option<UserId> {
    if x == Some(user) then None else x
  }

  function ClearedLines(ls: seq<Line>, user: UserId): seq<Line> {
    seq(|ls|, i requires 0 <= i < |ls| => ls[i].(party := Cleared(ls[i].party, user)))
  }

  /** The poster of an entry moves; its approver and the parties of its lines have hidden references. */
  function EntryWithout(e: Entry, user: UserId, anchor: UserId): Entry {
    e.(memo := e.memo.(postedBy := MovedIf(e.memo.postedBy, user, anchor),
                       approvedBy := Cleared(e.memo.approvedBy, user)),
       lines := ClearedLines(e.lines, user))
  }

  function JournalWithout(j: seq<Entry>, user: UserId, anchor: UserId): seq<Entry> {
    seq(|j|, i requires 0 <= i < |j| => EntryWithout(j[i], user, anchor))
  }

  function PayablesWithout(rows: seq<PayableRow>, user: UserId, anchor: UserId): seq<PayableRow> {
    seq(|rows|, i requires 0 <= i < |rows| => rows[i].(seller := Moved(rows[i].seller, user, anchor)))
  }

  /** The books after `user` was deleted. */
  function DeleteUser(s: Books, user: UserId, anchor: UserId): Books {
    s.(journal := JournalWithout(s.journal, user, anchor),
       escrow := seq(|s.escrow|, i requires 0 <= i < |s.escrow| =>
                       s.escrow[i].(seller := MovedIf(s.escrow[i].seller, user, anchor))),
       payables := PayablesWithout(s.payables, user, anchor),
       receivables := seq(|s.receivables|, i requires 0 <= i < |s.receivables| =>
                            s.receivables[i].(debtor := MovedIf(s.receivables[i].debtor, user, anchor))),
       deferred := seq(|s.deferred|, i requires 0 <= i < |s.deferred| =>
                         s.deferred[i].(seller := Moved(s.deferred[i].seller, user, anchor))),
       manual := seq(|s.manual|, i requires 0 <= i < |s.manual| =>
                       s.manual[i].(requestedBy := Moved(s.manual[i].requestedBy, user, anchor),
                                    approvedBy := Cleared(s.manual[i].approvedBy, user))))
  }

  /** A column that named the user names somebody else, or nobody; any other one is as it was. */
  predicate Replaced(x: Option<UserId>, x': Option<UserId>, user: UserId, standIn: Option<UserId>) {
    x' == if x == Some(user) then standIn else x
  }

  /** After the deletion the placeholder stands for the user as poster of entries, seller, debtor and requester;
      nobody stands for the user as approver or as party of a line. */
  lemma PlaceholderStandsIn(s: Books, user: UserId, anchor: UserId)
    ensures var s' := DeleteUser(s, user, anchor);
            && (forall i :: 0 <= i < |s.journal| ==>
                  && Replaced(s.journal[i].memo.postedBy, s'.journal[i].memo.postedBy, user, Some(anchor))
                  && Replaced(s.journal[i].memo.approvedBy, s'.journal[i].memo.approvedBy, user, None))
            && (forall i, k :: 0 <= i < |s.journal| && 0 <= k < |s.journal[i].lines| ==>
                  Replaced(s.journal[i].lines[k].party, s'.journal[i].lines[k].party, user, None))
            && (forall i :: 0 <= i < |s.escrow| ==>
                  Replaced(s.escrow[i].seller, s'.escrow[i].seller, user, Some(anchor)))
            && (forall i :: 0 <= i < |s.receivables| ==>
                  Replaced(s.receivables[i].debtor, s'.receivables[i].debtor, user, Some(anchor)))
            && (forall i :: 0 <= i < |s.payables| ==>
                  Replaced(Some(s.payables[i].seller), Some(s'.payables[i].seller), user, Some(anchor)))
            && (forall i :: 0 <= i < |s.deferred| ==>
                  Replaced(Some(s.deferred[i].seller), Some(s'.deferred[i].seller), user, Some(anchor)))
            && (forall i :: 0 <= i < |s.manual| ==>
                  && Replaced(Some(s.manual[i].requestedBy), Some(s'.manual[i].requestedBy), user, Some(anchor))
                  && Replaced(s.manual[i].approvedBy, s'.manual[i].approvedBy, user, None))
  {
  }

  // ---- The journal chain --------------------------------------------------------------------------

  lemma HashedContentChangesIff(e: Entry, user: UserId, anchor: UserId)
    requires user != anchor
    ensures ChainPayload(EntryWithout(e, user, anchor)) == ChainPayload(e) <==> e.memo.postedBy != Some(user)
  {
    assert LineContent(ClearedLines(e.lines, user)) == LineContent(e.lines);
  }

  /** Deletion rewrites the rows of the chain in place, and changes exactly the entries the user posted. */
  lemma JournalRewritten(j: seq<Entry>, user: UserId, anchor: UserId)
    requires user != anchor
    ensures var a, b := Chain(j), Chain(JournalWithout(j, user, anchor));
            Rewritten(a, b) && forall i :: 0 <= i < |j| ==> (b[i] == a[i] <==> j[i].memo.postedBy != Some(user))
  {
    var a, b := Chain(j), Chain(JournalWithout(j, user, anchor));
    forall i | 0 <= i < |j|
      ensures b[i] == a[i].(payload := b[i].payload)
      ensures b[i] == a[i] <==> j[i].memo.postedBy != Some(user)
    {
      HashedContentChangesIff(j[i], user, anchor);
    }
  }

  /** After a user was deleted the journal verifies exactly when that user posted no entry, or the digest
      collides on each one. */
  lemma JournalVerifiesIff(s: Books, user: UserId, anchor: UserId)
    requires Sealed(s.hash, Chain(s.journal)) && user != anchor
    ensures var a, b := Chain(s.journal), Chain(DeleteUser(s, user, anchor).journal);
            Intact(s.hash, b) <==>
            forall i :: 0 <= i < |s.journal| && s.journal[i].memo.postedBy == Some(user) ==> Collide(s.hash, a[i], b[i])
  {
    JournalRewritten(s.journal, user, anchor);
    RewritingDetected(s.hash, Chain(s.journal), Chain(DeleteUser(s, user, anchor).journal));
  }

  /** Otherwise the break is at the first entry of the user that does not collide. */
  lemma JournalBreaksAtFirst(s: Books, user: UserId, anchor: UserId, i: nat)
    requires Sealed(s.hash, Chain(s.journal)) && user != anchor
    requires FirstNoticed(s.hash, Chain(s.journal), Chain(DeleteUser(s, user, anchor).journal), i)
    ensures var b := Chain(DeleteUser(s, user, anchor).journal);
            s.journal[i].memo.postedBy == Some(user) && Intact(s.hash, b[..i]) && !Intact(s.hash, b[..i + 1])
  {
    JournalRewritten(s.journal, user, anchor);
    RewritingLocated(s.hash, Chain(s.journal), Chain(DeleteUser(s, user, anchor).journal), i);
  }

  // ---- The action log -----------------------------------------------------------------------------

  function LogWithout(rows: seq<Record<AdminLog.ActionRow>>, user: UserId,
                      anchor: UserId): seq<Record<AdminLog.ActionRow>> {
    seq(|rows|, i requires 0 <= i < |rows| =>
      rows[i].(payload := rows[i].payload.(admin := Moved(rows[i].payload.admin, user, anchor))))
  }

  /** The action log verifies exactly when the deleted admin took no logged action, or the digest collides on
      each one. */
  lemma LogVerifiesIff(h: Digest<AdminLog.ActionRow>, rows: seq<Record<AdminLog.ActionRow>>, user: UserId,
                       anchor: UserId)
    requires Sealed(h, rows) && user != anchor
    ensures var after := LogWithout(rows, user, anchor);
            Intact(h, after) <==>
            forall i :: 0 <= i < |rows| && rows[i].payload.admin == user ==> Collide(h, rows[i], after[i])
  {
    RewritingDetected(h, rows, LogWithout(rows, user, anchor));
  }

  /** Otherwise the break is at the first such row that does not collide. */
  lemma LogBreaksAtFirst(h: Digest<AdminLog.ActionRow>, rows: seq<Record<AdminLog.ActionRow>>, user: UserId,
                         anchor: UserId, i: nat)
    requires Sealed(h, rows) && user != anchor && FirstNoticed(h, rows, LogWithout(rows, user, anchor), i)
    ensures var after := LogWithout(rows, user, anchor);
            rows[i].payload.admin == user && Intact(h, after[..i]) && !Intact(h, after[..i + 1])
  {
    RewritingLocated(h, rows, LogWithout(rows, user, anchor), i);
  }

  // ---- The books ----------------------------------------------------------------------------------

  lemma {:induction false} LinesForgetParty(q: Query, ls: seq<Line>, user: UserId)
    requires q.scope != PartyIs(None)
    ensures LinesNet(q, ClearedLines(ls, user)) == if q.scope == PartyIs(Some(user)) then 0 else LinesNet(q, ls)
  {
    if ls != [] {
      LinesForgetParty(q, ls[..|ls| - 1], user);
      assert ClearedLines(ls, user)[..|ls| - 1] == ClearedLines(ls[..|ls| - 1], user);
    }
  }

  /** Every statement and every balance stays as it was; only the balances of the deleted user as a party
      are gone. */
  lemma {:induction false} JournalForgetsParty(q: Query, j: seq<Entry>, user: UserId, anchor: UserId)
    requires q.scope != PartyIs(None)
    ensures Net(q, JournalWithout(j, user, anchor)) == if q.scope == PartyIs(Some(user)) then 0 else Net(q, j)
  {
    if j != [] {
      JournalForgetsParty(q, j[..|j| - 1], user, anchor);
      assert JournalWithout(j, user, anchor)[..|j| - 1] == JournalWithout(j[..|j| - 1], user, anchor);
      LinesForgetParty(q, j[|j| - 1].lines, user);
    }
  }

  lemma PayablesMove(rows: seq<PayableRow>, user: UserId, anchor: UserId, scope: Scope)
    requires user != anchor
    ensures Sum(PayableAmounts(PayablesWithout(rows, user, anchor), scope)) ==
            if scope == PartyIs(Some(user)) then 0
            else if scope == PartyIs(Some(anchor)) then
              Sum(PayableAmounts(rows, scope)) + Sum(PayableAmounts(rows, PartyIs(Some(user))))
            else Sum(PayableAmounts(rows, scope))
  {
    var after := PayableAmounts(PayablesWithout(rows, user, anchor), scope);
    if scope == PartyIs(Some(user)) {
      SumZero(after);
    } else if scope == PartyIs(Some(anchor)) {
      SumPointwise(after, PayableAmounts(rows, scope), PayableAmounts(rows, PartyIs(Some(user))));
    } else {
      assert after == PayableAmounts(rows, scope);
    }
  }

  /** Deleting a seller leaves the reconciliation as a whole alone, but not party by party: what the open rows
      owed the seller moves to the placeholder without its journal lines, so the placeholder keeps its
      difference exactly when nothing was owed. */
  lemma DeletionMovesPayableGap(s: Books, user: UserId, anchor: UserId, party: UserId)
    requires user != anchor
    ensures var s' := DeleteUser(s, user, anchor);
            && EscrowGap(s') == EscrowGap(s) && PayableGap(s', Everyone) == PayableGap(s, Everyone)
            && PayableGap(s', PartyIs(Some(party))) ==
                 if party == user then 0
                 else PayableGap(s, PartyIs(Some(party)))
                      + (if party == anchor then Sum(PayableAmounts(s.payables, PartyIs(Some(user)))) else 0)
  {
    var s' := DeleteUser(s, user, anchor);
    assert HeldAmounts(s'.escrow) == HeldAmounts(s.escrow);
    JournalForgetsParty(OfParty(2000, Everyone), s.journal, user, anchor);
    JournalForgetsParty(OfParty(2020, Everyone), s.journal, user, anchor);
    JournalForgetsParty(OfParty(2020, PartyIs(Some(party))), s.journal, user, anchor);
    PayablesMove(s.payables, user, anchor, Everyone);
    PayablesMove(s.payables, user, anchor, PartyIs(Some(party)));
  }
}
