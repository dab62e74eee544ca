/** Segregation of duties on manual journal entries. */
module ManualEntries {
  import opened Common
  import opened Journal
  import opened Books
  import opened Integrity

  /** A posted request points at its own entry: the requested accounts and amounts on the
      requested date, posted by
      the requester and approved by somebody else. */
  ghost predicate PostedProperly(s: Books, i: nat)
    requires i < |s.manual|
  {
    var m := s.manual[i];
    m.status == Posted ==>
      && m.entry.Some? && m.entry.value < |s.journal|
      && m.approvedBy.Some? && m.approvedBy.value != m.requestedBy
      && var e := s.journal[m.entry.value];
         && e.date == m.date && e.lines == Unattributed(m.lines)
         && e.memo == ManualMemo(i, m.requestedBy, m.approvedBy.value)
  }

  ghost predicate DutiesSegregated(s: Books) {
    && (forall i :: 0 <= i < |s.manual| ==> PostedProperly(s, i))
    && (forall i, k :: 0 <= i < k < |s.manual| && s.manual[i].status == Posted && s.manual[k].status == Posted
                       ==> s.manual[i].entry != s.manual[k].entry)
    && (forall i :: 0 <= i < |s.manual| && s.manual[i].status == Rejected ==>
          s.manual[i].approvedBy.Some? && s.manual[i].approvedBy.value != s.manual[i].requestedBy)
  }

  /** Decided requests keep their verdict, their decider and their entry. */
  ghost predicate VerdictsKept(s: Books, s': Books) {
    && |s.manual| <= |s'.manual|
    && forall i :: 0 <= i < |s.manual| && s.manual[i].status != Pending ==> s'.manual[i] == s.manual[i]
  }

  lemma DecisionKeepsDuties(s: Books, i: nat, approver: UserId, accept: bool)
    requires DutiesSegregated(s)
    ensures DutiesSegregated(DecideManual(s, i, approver, accept).books)
    ensures VerdictsKept(s, DecideManual(s, i, approver, accept).books)
  {
    var s' := DecideManual(s, i, approver, accept).books;
    forall k | 0 <= k < |s'.manual|
      ensures PostedProperly(s', k)
      ensures k != i && s'.manual[k].status == Posted ==> s'.manual[k].entry.value < |s.journal|
    {
      assert PostedProperly(s, k);
    }
  }

  lemma StepKeepsDuties(s: Books, a: Action)
    requires DutiesSegregated(s)
    ensures DutiesSegregated(Step(s, a).books)
    ensures VerdictsKept(s, Step(s, a).books)
  {
    if a.DoDecideManual? {
      DecisionKeepsDuties(s, a.row, a.approver, a.accept);
    } else {
      StepGrows(s, a);
      StepKeepsFrame(s, a);
      var s' := Step(s, a).books;
      assert forall k :: 0 <= k < |s.manual| ==> s'.manual[k] == s.manual[k];
      forall k | 0 <= k < |s'.manual|
        ensures PostedProperly(s', k)
      {
        assert k < |s.manual| ==> PostedProperly(s, k);
      }
    }
  }

  /** In every run each manual request is posted at most once, into an entry of its own, and only on
      the decision of someone other than its requester; decided requests never change. */
  lemma {:induction false} DutiesStaySegregated(s: Books, actions: seq<Action>)
    requires DutiesSegregated(s)
    ensures DutiesSegregated(Run(s, actions))
    ensures VerdictsKept(s, Run(s, actions))
  {
    if actions != [] {
      DutiesStaySegregated(s, actions[..|actions| - 1]);
      StepKeepsDuties(Run(s, actions[..|actions| - 1]), actions[|actions| - 1]);
    }
  }
}
