/** What each call of the admin console answers and leaves behind, read off the tables. */
module ConsoleOutcomes {
  import opened Common
  import opened AdminConsole

  predicate Open(s: Console, i: nat) {
    i < |s.requests| && s.requests[i].status == Pending
  }

  predicate Senior(s: Console, approver: Option<AdminId>) {
    approver.Some? && approver.value in s.levels && s.levels[approver.value] >= 5
  }

  // ---- Approving ------------------------------------------------------------------------------------

  /** When an approval is accepted, and which of the other answers it gets when not. */
  lemma ApprovalAnswer(s: Console, approver: Option<AdminId>, i: nat, fails: bool, stored: bool, now: int)
    ensures var answer := Approve(s, approver, i, fails, stored, now).1;
            if i >= |s.requests| then answer == NotFound
            else if s.requests[i].status != Pending then answer == AlreadyDecided
            else if now > s.requests[i].expires then answer == TooLate
            else if approver == Some(s.requests[i].submitter) then answer == SelfApproval
            else if !Senior(s, approver) then answer == InsufficientLevel
            else answer == if stored then Ok else RolledBack
  {
  }

  /** The approved request: who and when; it stays approved if nothing executes its kind, has failed if the
      executor raised, and is executed otherwise. */
  ghost predicate ApprovedAs(r: Request, r': Request, approver: AdminId, fails: bool, now: int) {
    && (r'.kind, r'.submitter, r'.created, r'.expires) == (r.kind, r.submitter, r.created, r.expires)
    && r'.reviewer == Some(approver) && r'.decidedAt == Some(now)
    && (r'.status == Status.Approved <==> r.kind.NotExecuted?)
    && (r'.status == ExecutionFailed <==> !r.kind.NotExecuted? && fails)
    && (r'.status == Executed <==> !r.kind.NotExecuted? && !fails)
    && (r'.status == Executed ==> r'.executedAt == Some(now))
    && (r'.status != Executed ==> r'.executedAt == r.executedAt)
  }

  /** The kill switches after a request ran: its own switch reads what it asked for, all others are as before. */
  ghost predicate SwitchesSet(s: Console, s': Console, r: Request) {
    && s'.switches.Keys == s.switches.Keys + (if r.kind.KillSwitch? then {r.kind.key} else {})
    && forall key :: key in s'.switches ==>
         if r.kind.KillSwitch? && r.kind.key == key
         then s'.switches[key] == r.kind.engage
         else key in s.switches && s'.switches[key] == s.switches[key]
  }

  /** The fee schedules after a request ran: the one it names is scheduled, all others are as before. */
  ghost predicate FeesSet(s: Console, s': Console, r: Request) {
    && |s'.fees| == |s.fees|
    && forall f :: 0 <= f < |s.fees| ==>
         s'.fees[f] == if r.kind == FeeRateChange(Some(f)) then s.fees[f].(status := Scheduled) else s.fees[f]
  }

  /** An accepted approval decides its request and no other; switches and fees move if and only if the executor
      of the request ran through, and then as the request asks. */
  lemma ApprovalEffect(s: Console, approver: Option<AdminId>, i: nat, fails: bool, stored: bool, now: int)
    requires Approve(s, approver, i, fails, stored, now).1 == Ok
    ensures var s', r := Approve(s, approver, i, fails, stored, now).0, s.requests[i];
            && |s'.requests| == |s.requests| && ApprovedAs(r, s'.requests[i], approver.value, fails, now)
            && (forall k :: 0 <= k < |s.requests| && k != i ==> s'.requests[k] == s.requests[k])
            && (if s'.requests[i].status == Executed then SwitchesSet(s, s', r) && FeesSet(s, s', r)
                else s'.switches == s.switches && s'.fees == s.fees)
            && s'.levels == s.levels && |s'.audit| == |s.audit| + 1
            && s'.executions == s.executions + (if r.kind.NotExecuted? then [] else [i])
  {
  }

  /** An approval that is turned down changes nothing, except that a request found too late expires. */
  lemma RefusedApprovalKeeps(s: Console, approver: Option<AdminId>, i: nat, fails: bool, stored: bool, now: int)
    requires Approve(s, approver, i, fails, stored, now).1 != Ok
    ensures var (s', answer) := Approve(s, approver, i, fails, stored, now);
            && s' == s.(requests := s'.requests) && |s'.requests| == |s.requests|
            && forall k :: 0 <= k < |s.requests| ==>
                 s'.requests[k] == if answer == TooLate && k == i then s.requests[k].(status := Expired)
                                   else s.requests[k]
  {
  }

  // ---- Rejecting, submitting, expiring ----------------------------------------------------------------

  /** Any admin but the submitter can reject an open request, and that is all it does. */
  lemma RejectionOutcome(s: Console, admin: AdminId, i: nat, stored: bool, now: int)
    ensures var (s', answer) := Reject(s, admin, i, stored, now);
            && (answer == Ok <==> Open(s, i) && admin != s.requests[i].submitter)
            && (answer == NotFound <==> i >= |s.requests|)
            && (answer == SelfApproval <==> Open(s, i) && admin == s.requests[i].submitter)
            && (answer in {Ok, NotFound, SelfApproval, AlreadyDecided})
            && s' == s.(requests := s'.requests, audit := s'.audit, decisions := s'.decisions)
            && |s'.requests| == |s.requests|
            && forall k :: 0 <= k < |s.requests| ==>
                 if answer == Ok && k == i then
                   && s'.requests[k].status == Rejected && s'.requests[k].reviewer == Some(admin)
                   && s'.requests[k].decidedAt == Some(now) && s'.requests[k].kind == s.requests[k].kind
                 else s'.requests[k] == s.requests[k]
  {
  }

  /** What a call writes into the trail, if the trail can be written: whom it was, at what level, and what was
      done to which request. */
  lemma TrailOutcome(s: Console, admin: AdminId, kind: Kind, i: nat, stored: bool, now: int)
    ensures var level := if admin in s.levels then s.levels[admin] else 0;
            && Submit(s, admin, kind, stored, now).audit
               == s.audit + (if stored then [AuditEntry(|s.requests|, Pending, admin, level)] else [])
            && (Reject(s, admin, i, stored, now).1 == Ok ==>
                  Reject(s, admin, i, stored, now).0.audit
                  == s.audit + if stored then [AuditEntry(i, Rejected, admin, level)] else [])
  {
  }

  /** A new request is open, has nobody's verdict, and can be approved for four hours, the last second included,
      by another admin of level five or more. */
  lemma SubmissionOutcome(s: Console, admin: AdminId, kind: Kind, stored: bool, now: int, approver: AdminId, at: int,
                          fails: bool)
    requires approver in s.levels
    ensures var s', i := Submit(s, admin, kind, stored, now), |s.requests|;
            && s'.requests[..i] == s.requests && |s'.requests| == i + 1 && Open(s', i)
            && s'.requests[i].kind == kind && s'.requests[i].submitter == admin && s'.requests[i].reviewer.None?
            && (s'.switches, s'.fees, s'.levels) == (s.switches, s.fees, s.levels)
            && (Approve(s', Some(approver), i, fails, true, at).1 == Ok <==>
                  at <= now + 14400 && approver != admin && s.levels[approver] >= 5)
  {
  }

  /** The sweep expires a request if and only if it is open and its time is up, and changes nothing else. */
  lemma ExpiryOutcome(s: Console, now: int)
    ensures var s' := ExpireStale(s, now);
            && s' == s.(requests := s'.requests) && |s'.requests| == |s.requests|
            && forall i :: 0 <= i < |s.requests| ==>
                 s'.requests[i] == if Open(s, i) && s.requests[i].expires < now then s.requests[i].(status := Expired)
                                   else s.requests[i]
  {
  }

  /** A user can be deleted unless it is the placeholder. */
  lemma DeletionAnswer(s: Console, user: AdminId)
    ensures var (s', deleted) := DeleteUser(s, user);
            && (deleted <==> user != 0)
            && (!deleted ==> s' == s)
            && (deleted ==> user !in s'.levels && s'.levels.Keys == s.levels.Keys - {user})
            && (forall admin :: admin in s'.levels ==> s'.levels[admin] == s.levels[admin])
  {
  }

  // ---- Fee schedules ----------------------------------------------------------------------------------

  /** A fee change is refused if and only if it is permanent, no emergency, and takes effect within thirty days.
      Otherwise it is scheduled, with a request for its approval. */
  lemma FeeChangeOutcome(s: Console, admin: AdminId, category: string, permanent: bool, emergency: bool,
                         effective: int, stored: bool, now: int)
    ensures var (s', answer) := ScheduleFee(s, admin, category, permanent, emergency, effective, stored, now);
            var today := now / 86400;
            if permanent && !emergency && effective < today + 30 then answer == ShortNotice && s' == s
            else
              && answer == Ok && |s'.fees| == |s.fees| + 1 && s'.fees[..|s.fees|] == s.fees
              && s'.fees[|s.fees|]
                 == Fee(category, permanent, emergency, today, effective, Some(|s.requests|), Scheduled, None)
              && |s'.requests| == |s.requests| + 1 && s'.requests[..|s.requests|] == s.requests
              && s'.requests[|s.requests|].kind == FeeRateChange(Some(|s.fees|)) && Open(s', |s.requests|)
  {
  }

  /** Row `k` takes effect in the nightly run: it is scheduled and due, and its request, if it has one, was
      executed. */
  predicate TakesEffect(s: Console, k: int, today: int) {
    && 0 <= k < |s.fees| && s.fees[k].status == Scheduled && s.fees[k].effective <= today
    && match s.fees[k].approval
       case None => true
       case Some(i) => i < |s.requests| && s.requests[i].status == Executed
  }

  /** Some row from `i` on takes effect in the category. */
  ghost predicate TakesOver(s: Console, i: nat, today: int, category: string) {
    exists m :: i <= m && TakesEffect(s, m, today) && s.fees[m].category == category
  }

  /** What the nightly run makes of row `k`, when it starts at row `i`. */
  ghost function AfterNight(s: Console, i: nat, k: nat, today: int): Fee
    requires k < |s.fees|
  {
    var f := s.fees[k];
    if i <= k && TakesEffect(s, k, today) then
      f.(appliedOn := Some(today), status := if TakesOver(s, k + 1, today, f.category) then Superseded else Active)
    else if f.status == Active && TakesOver(s, i, today, f.category) then f.(status := Superseded)
    else f
  }

  lemma NightRow(s: Console, i: nat, k: nat, today: int)
    requires i < |s.fees| && k < |s.fees|
    ensures AfterNight(ApplyRow(s, i, today), i + 1, k, today) == AfterNight(s, i, k, today)
  {
    var s1 := ApplyRow(s, i, today);
    forall m | 0 <= m < |s.fees|
      ensures s1.fees[m].category == s.fees[m].category
      ensures m > i ==> (TakesEffect(s1, m, today) <==> TakesEffect(s, m, today))
    {
    }
    forall category: string
      ensures TakesOver(s1, i + 1, today, category) <==> TakesOver(s, i + 1, today, category)
      ensures k > i ==> (TakesOver(s1, k + 1, today, category) <==> TakesOver(s, k + 1, today, category))
      ensures TakesOver(s, i, today, category)
              <==> TakesOver(s, i + 1, today, category) || (TakesEffect(s, i, today) && s.fees[i].category == category)
    {
    }
  }

  /** The nightly run, row by row: what takes effect becomes active, or is superseded at once by a later row of
      its category; what was active is superseded if anything takes effect in its category; every other row
      stays as it is. */
  lemma {:induction false} NightlyRunIsExact(s: Console, i: nat, today: int)
    requires i <= |s.fees|
    ensures var s' := ApplyFrom(s, i, today);
            && s' == s.(fees := s'.fees) && |s'.fees| == |s.fees|
            && forall k :: 0 <= k < |s.fees| ==> s'.fees[k] == AfterNight(s, i, k, today)
    decreases |s.fees| - i
  {
    if i < |s.fees| {
      var s1 := ApplyRow(s, i, today);
      NightlyRunIsExact(s1, i + 1, today);
      forall k | 0 <= k < |s.fees|
        ensures AfterNight(s1, i + 1, k, today) == AfterNight(s, i, k, today)
      {
        NightRow(s, i, k, today);
      }
    }
  }

  /** The rows from `i` on that take effect. */
  ghost function TakingEffect(s: Console, i: nat, today: int): set<int> {
    set k | i <= k < |s.fees| && TakesEffect(s, k, today)
  }

  lemma TakingEffectNext(s: Console, i: nat, today: int)
    requires i < |s.fees|
    ensures |TakingEffect(s, i, today)|
            == |TakingEffect(s, i + 1, today)| + if TakesEffect(s, i, today) then 1 else 0
  {
    var later := TakingEffect(s, i + 1, today);
    assert TakingEffect(s, i, today) == if TakesEffect(s, i, today) then {i} + later else later;
  }

  /** What the run reports is how many rows take effect. */
  lemma {:induction false} NightlyRunCounts(s: Console, i: nat, today: int)
    requires i <= |s.fees|
    ensures EligibleFrom(s, i, today) == |TakingEffect(s, i, today)|
    decreases |s.fees| - i
  {
    if i < |s.fees| {
      NightlyRunCounts(s, i + 1, today);
      TakingEffectNext(s, i, today);
    } else {
      assert TakingEffect(s, i, today) == {};
    }
  }
}
