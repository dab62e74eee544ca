/** What dual approval guarantees in every run of the admin console. */
module ConsoleLaws {
  import opened Common
  import opened AdminConsole

  // ---- Approvals ----------------------------------------------------------------------------

  predicate WentAhead(st: Status) {
    st in {Status.Approved, Executed, ExecutionFailed}
  }

  predicate Carries(st: Status, verdict: Status) {
    if verdict == Status.Approved then WentAhead(st) else st == Rejected && verdict == Rejected
  }

  /** Under what name a user stands in the tables. */
  function Shown(departed: set<AdminId>, admin: AdminId): AdminId {
    if admin in departed then ANCHOR else admin
  }

  /** A decision stands: its request shows its verdict, it was taken by somebody other than the submitter,
      to approve by one of level 5 or more at the time; and the request names that admin, or the
      placeholder after the admin was deleted, as the one who decided. */
  ghost predicate DecisionStands(s: Console, k: nat)
    requires k < |s.decisions|
  {
    var d := s.decisions[k];
    && d.request < |s.requests| == |s.submitters|
    && Carries(s.requests[d.request].status, d.verdict)
    && d.admin != s.submitters[d.request] && d.admin != ANCHOR
    && (d.verdict == Status.Approved ==> d.level >= MIN_APPROVER_LEVEL)
    && s.requests[d.request].reviewer == Some(Shown(s.departed, d.admin))
  }

  ghost predicate Decided(s: Console, i: nat, verdict: Status) {
    exists k :: 0 <= k < |s.decisions| && s.decisions[k].request == i && s.decisions[k].verdict == verdict
  }

  /** A request names its submitter; if it went ahead or was rejected it has its decision, to go ahead
      within four hours of the submission; if it is open or expired nobody has decided it. */
  ghost predicate RequestBacked(s: Console, i: nat)
    requires i < |s.requests|
  {
    var r := s.requests[i];
    && i < |s.submitters| && s.submitters[i] != ANCHOR && r.submitter == Shown(s.departed, s.submitters[i])
    && r.expires == r.created + APPROVAL_TTL
    && (WentAhead(r.status) ==>
          r.decidedAt.Some? && r.decidedAt.value <= r.created + APPROVAL_TTL && Decided(s, i, Status.Approved))
    && (r.status == Rejected ==> Decided(s, i, Rejected))
    && (r.status in {Pending, Expired} ==> r.reviewer.None?)
  }

  /** The executor of a request was called exactly once if the request ran or failed to, else never. */
  ghost predicate ExecutedOnce(s: Console) {
    && (forall a, b :: 0 <= a < b < |s.executions| ==> s.executions[a] != s.executions[b])
    && (forall i :: i in s.executions ==> i < |s.requests|)
    && (forall i :: 0 <= i < |s.requests| ==>
          (i in s.executions <==> s.requests[i].status in {Executed, ExecutionFailed}))
  }

  /** The state a switch was last set to by the executed requests. */
  function LastSet(requests: seq<Request>, executions: seq<nat>, key: string): Option<bool> {
    if executions == [] then None
    else
      var i := executions[|executions| - 1];
      if i < |requests| && requests[i].status == Executed && requests[i].kind.KillSwitch? && requests[i].kind.key == key
      then Some(requests[i].kind.engage)
      else LastSet(requests, executions[..|executions| - 1], key)
  }

  function SwitchState(switches: map<string, bool>, key: string): Option<bool> {
    if key in switches then Some(switches[key]) else None
  }

  ghost predicate SwitchesFollowRequests(s: Console) {
    forall key :: SwitchState(s.switches, key) == LastSet(s.requests, s.executions, key)
  }

  /** The row of a decision in the trail, as it stands now. */
  function TrailRow(departed: set<AdminId>, d: AuditEntry): AuditEntry {
    d.(admin := Shown(departed, d.admin))
  }

  /** Every approval has its row in the trail; a rejection may have lost it. */
  ghost predicate ApprovalsTrailed(s: Console) {
    forall k :: 0 <= k < |s.decisions| && s.decisions[k].verdict == Status.Approved ==>
      TrailRow(s.departed, s.decisions[k]) in s.audit
  }

  ghost predicate Approvals(s: Console) {
    && |s.submitters| == |s.requests|
    && (forall k :: 0 <= k < |s.decisions| ==> DecisionStands(s, k))
    && (forall i :: 0 <= i < |s.requests| ==> RequestBacked(s, i))
    && ExecutedOnce(s)
    && SwitchesFollowRequests(s)
    && ApprovalsTrailed(s)
  }

  /** The request as it stands after some users were deleted. */
  function Redacted(r: Request, departed: set<AdminId>): Request {
    r.(submitter := Shown(departed, r.submitter),
       reviewer := if r.reviewer.Some? then Some(Shown(departed, r.reviewer.value)) else None)
  }

  /** Decided requests never change, except that deleted users are replaced by the placeholder; nothing in
      the trail or among the decisions is lost. */
  ghost predicate VerdictsFinal(s: Console, s': Console) {
    && |s.requests| <= |s'.requests| && |s.audit| <= |s'.audit|
    && s.submitters <= s'.submitters && s.decisions <= s'.decisions && s.departed <= s'.departed
    && (forall k :: 0 <= k < |s.audit| ==> s'.audit[k] == TrailRow(s'.departed, s.audit[k]))
    && (forall i :: 0 <= i < |s.requests| ==>
          && (s.requests[i].status != Pending ==> s'.requests[i] == Redacted(s.requests[i], s'.departed))
          && s'.requests[i].kind == s.requests[i].kind)
  }

  /** Only the status and the kind of the executed requests matter to the switches. */
  lemma {:induction false} LastSetFrame(requests: seq<Request>, requests': seq<Request>, executions: seq<nat>,
                                        key: string)
    requires forall i :: i in executions ==> && i < |requests| && i < |requests'|
                                             && requests'[i].status == requests[i].status
                                             && requests'[i].kind == requests[i].kind
    ensures LastSet(requests', executions, key) == LastSet(requests, executions, key)
  {
    if executions != [] {
      var init := executions[..|executions| - 1];
      assert forall i :: i in init ==> i in executions;
      LastSetFrame(requests, requests', init, key);
      assert executions[|executions| - 1] in executions;
    }
  }

  lemma SwitchesFrame(s: Console, s': Console)
    requires SwitchesFollowRequests(s) && s'.executions == s.executions && s'.switches == s.switches
    requires forall i :: i in s.executions ==> && i < |s.requests| && i < |s'.requests|
                                               && s'.requests[i].status == s.requests[i].status
                                               && s'.requests[i].kind == s.requests[i].kind
    ensures SwitchesFollowRequests(s')
  {
    forall key
      ensures SwitchState(s'.switches, key) == LastSet(s'.requests, s'.executions, key)
    {
      LastSetFrame(s.requests, s'.requests, s.executions, key);
    }
  }

  /** Earlier decisions back what they backed. */
  lemma DecidedKept(s: Console, s': Console, i: nat, verdict: Status)
    requires s.decisions <= s'.decisions && Decided(s, i, verdict)
    ensures Decided(s', i, verdict)
  {
    var k :| 0 <= k < |s.decisions| && s.decisions[k].request == i && s.decisions[k].verdict == verdict;
    assert s'.decisions[k] == s.decisions[k];
  }

  /** Nobody who was deleted stands in the tables. */
  ghost predicate NoneDeparted(s: Console) {
    && (forall i :: 0 <= i < |s.requests| ==> Redacted(s.requests[i], s.departed) == s.requests[i])
    && (forall k :: 0 <= k < |s.audit| ==> TrailRow(s.departed, s.audit[k]) == s.audit[k])
  }

  /** Steps that neither decide nor execute: requests are added, or open ones expire. */
  lemma UndecidedKeeps(s: Console, s': Console)
    requires Approvals(s) && NoneDeparted(s)
    requires s'.decisions == s.decisions && s'.executions == s.executions && s'.switches == s.switches
    requires s'.departed == s.departed && s.audit <= s'.audit && s.submitters <= s'.submitters
    requires |s.requests| <= |s'.requests| == |s'.submitters|
    requires forall i :: 0 <= i < |s.requests| ==>
               || s'.requests[i] == s.requests[i]
               || (s.requests[i].status == Pending && s'.requests[i] == s.requests[i].(status := Expired))
    requires forall i :: |s.requests| <= i < |s'.requests| ==>
               && s'.requests[i].status == Pending && s'.requests[i].reviewer.None?
               && s'.requests[i].expires == s'.requests[i].created + APPROVAL_TTL
               && s'.requests[i].submitter == s'.submitters[i] != ANCHOR && s'.submitters[i] !in s.departed
    ensures Approvals(s') && VerdictsFinal(s, s')
  {
    forall k | 0 <= k < |s'.decisions|
      ensures DecisionStands(s', k)
    {
      assert DecisionStands(s, k);
    }
    forall i | 0 <= i < |s'.requests|
      ensures RequestBacked(s', i)
    {
      assert i < |s.requests| ==> RequestBacked(s, i);
      if i < |s.requests| && WentAhead(s.requests[i].status) {
        DecidedKept(s, s', i, Status.Approved);
      }
      if i < |s.requests| && s.requests[i].status == Rejected {
        DecidedKept(s, s', i, Rejected);
      }
    }
    SwitchesFrame(s, s');
  }

  /** A decision on request `i`: it becomes `r`, and the decision and its trail row, which only a rejection
      may lose, are added. */
  ghost predicate Decides(s: Console, s': Console, i: nat, d: AuditEntry, r: Request)
    requires i < |s.requests| == |s.submitters|
  {
    && s'.requests == s.requests[i := r] && s'.decisions == s.decisions + [d]
    && (s'.audit == s.audit + [d] || (s'.audit == s.audit && d.verdict == Rejected))
    && s'.departed == s.departed && s'.submitters == s.submitters
    && d.request == i && d.admin != s.requests[i].submitter && d.admin !in s.departed && d.admin != ANCHOR
    && r == s.requests[i].(status := r.status, reviewer := Some(d.admin), decidedAt := r.decidedAt,
                           executedAt := r.executedAt)
    && Carries(r.status, d.verdict)
    && (d.verdict == Status.Approved ==>
          && d.level >= MIN_APPROVER_LEVEL
          && r.decidedAt.Some? && r.decidedAt.value <= r.created + APPROVAL_TTL)
  }

  lemma DecisionBacked(s: Console, s': Console, i: nat, d: AuditEntry, r: Request)
    requires Approvals(s) && i < |s.requests| && s.requests[i].status == Pending && Decides(s, s', i, d, r)
    ensures forall k :: 0 <= k < |s'.decisions| ==> DecisionStands(s', k)
    ensures forall j :: 0 <= j < |s'.requests| ==> RequestBacked(s', j)
  {
    assert RequestBacked(s, i);
    forall k | 0 <= k < |s'.decisions|
      ensures DecisionStands(s', k)
    {
      if k < |s.decisions| {
        assert DecisionStands(s, k);
      }
    }
    assert s'.decisions[|s.decisions|] == d;
    forall j | 0 <= j < |s'.requests|
      ensures RequestBacked(s', j)
    {
      assert RequestBacked(s, j);
      if j != i && WentAhead(s.requests[j].status) {
        DecidedKept(s, s', j, Status.Approved);
      }
      if j != i && s.requests[j].status == Rejected {
        DecidedKept(s, s', j, Rejected);
      }
    }
  }

  /** The decision itself: the executor is called at most once. */
  lemma DecisionKeeps(s: Console, s': Console, i: nat, d: AuditEntry, r: Request)
    requires Approvals(s) && NoneDeparted(s)
    requires i < |s.requests| && s.requests[i].status == Pending && Decides(s, s', i, d, r)
    requires s'.executions == (if r.status in {Executed, ExecutionFailed} then s.executions + [i] else s.executions)
    requires s'.switches == (if r.status == Executed && r.kind.KillSwitch? then s.switches[r.kind.key := r.kind.engage]
                             else s.switches)
    ensures Approvals(s') && VerdictsFinal(s, s')
  {
    DecisionBacked(s, s', i, d, r);
    assert i !in s.executions;
    DecisionSwitches(s, s', i, r);
  }

  lemma DecisionSwitches(s: Console, s': Console, i: nat, r: Request)
    requires SwitchesFollowRequests(s) && ExecutedOnce(s) && i < |s.requests| && i !in s.executions
    requires s'.requests == s.requests[i := r] && r.kind == s.requests[i].kind
    requires s'.executions == (if r.status in {Executed, ExecutionFailed} then s.executions + [i] else s.executions)
    requires s'.switches == (if r.status == Executed && r.kind.KillSwitch? then s.switches[r.kind.key := r.kind.engage]
                             else s.switches)
    ensures SwitchesFollowRequests(s')
  {
    if s'.executions != s.executions {
      assert s'.executions[..|s.executions|] == s.executions;
    }
    forall key
      ensures SwitchState(s'.switches, key) == LastSet(s'.requests, s'.executions, key)
    {
      assert SwitchState(s.switches, key) == LastSet(s.requests, s.executions, key);
      LastSetFrame(s.requests, s'.requests, s.executions, key);
    }
  }

  /** Somebody who can act: neither deleted nor the placeholder. */
  predicate Present(s: Console, admin: Option<AdminId>) {
    admin.Some? ==> admin.value !in s.departed && admin.value != ANCHOR
  }

  lemma ApproveKeeps(s: Console, approver: Option<AdminId>, i: nat, fails: bool, stored: bool, now: int)
    requires Approvals(s) && NoneDeparted(s) && Present(s, approver)
    ensures Approvals(Approve(s, approver, i, fails, stored, now).0)
    ensures VerdictsFinal(s, Approve(s, approver, i, fails, stored, now).0)
  {
    var (s', answer) := Approve(s, approver, i, fails, stored, now);
    if answer == Ok {
      assert RequestBacked(s, i);
      DecisionKeeps(s, s', i, AuditEntry(i, Status.Approved, approver.value, LevelOf(s, approver)), s'.requests[i]);
    } else {
      UndecidedKeeps(s, s');
    }
  }

  lemma RejectKeeps(s: Console, approver: AdminId, i: nat, stored: bool, now: int)
    requires Approvals(s) && NoneDeparted(s) && Present(s, Some(approver))
    ensures Approvals(Reject(s, approver, i, stored, now).0) && VerdictsFinal(s, Reject(s, approver, i, stored, now).0)
  {
    var (s', answer) := Reject(s, approver, i, stored, now);
    if answer == Ok {
      DecisionKeeps(s, s', i, AuditEntry(i, Rejected, approver, LevelOf(s, Some(approver))), s'.requests[i]);
    } else {
      UndecidedKeeps(s, s');
    }
  }

  /** Deleting a user replaces that user in the tables and decides nothing. */
  lemma DeleteKeeps(s: Console, user: AdminId)
    requires Approvals(s) && NoneDeparted(s)
    ensures Approvals(DeleteUser(s, user).0) && VerdictsFinal(s, DeleteUser(s, user).0)
  {
    var s' := DeleteUser(s, user).0;
    forall k | 0 <= k < |s'.decisions|
      ensures DecisionStands(s', k)
    {
      assert DecisionStands(s, k);
    }
    forall i | 0 <= i < |s'.requests|
      ensures RequestBacked(s', i)
    {
      assert RequestBacked(s, i);
      if WentAhead(s.requests[i].status) {
        DecidedKept(s, s', i, Status.Approved);
      }
      if s.requests[i].status == Rejected {
        DecidedKept(s, s', i, Rejected);
      }
    }
    SwitchesFrame(s, s');
    DeleteKeepsTrail(s, user);
  }

  lemma DeleteKeepsTrail(s: Console, user: AdminId)
    requires ApprovalsTrailed(s)
    ensures ApprovalsTrailed(DeleteUser(s, user).0)
  {
    var s' := DeleteUser(s, user).0;
    forall k | 0 <= k < |s'.decisions| && s'.decisions[k].verdict == Status.Approved
      ensures TrailRow(s'.departed, s'.decisions[k]) in s'.audit
    {
      var m :| 0 <= m < |s.audit| && s.audit[m] == TrailRow(s.departed, s.decisions[k]);
      assert s'.audit[m] == TrailRow(s'.departed, s'.decisions[k]);
    }
  }

  // ---- Runs -----------------------------------------------------------------------------------

  datatype Action =
    | DoAssign(admin: AdminId, level: nat)
    | DoSubmit(admin: AdminId, kind: Kind, stored: bool, at: int)
    | DoApprove(approver: Option<AdminId>, request: nat, fails: bool, stored: bool, at: int)
    | DoReject(admin: AdminId, request: nat, stored: bool, at: int)
    | DoExpire(at: int)
    | DoDelete(user: AdminId)
    | DoScheduleFee(admin: AdminId, category: string, permanent: bool, emergency: bool, effective: int,
                    stored: bool, at: int)
    | DoApplyFees(today: int)

  function Actor(a: Action): Option<AdminId> {
    match a
    case DoApprove(approver, _, _, _, _) => approver
    case DoExpire(_) => None
    case DoDelete(_) => None
    case DoApplyFees(_) => None
    case _ => Some(a.admin)
  }

  /** One call. Somebody who was deleted can neither sign in nor be given a role. */
  function Step(s: Console, a: Action): Console {
    if !Present(s, Actor(a)) then s
    else match a
      case DoAssign(admin, level) => AssignRole(s, admin, level)
      case DoSubmit(admin, kind, stored, at) => Submit(s, admin, kind, stored, at)
      case DoApprove(approver, i, fails, stored, at) => Approve(s, approver, i, fails, stored, at).0
      case DoReject(admin, i, stored, at) => Reject(s, admin, i, stored, at).0
      case DoExpire(at) => ExpireStale(s, at)
      case DoDelete(user) => DeleteUser(s, user).0
      case DoScheduleFee(admin, category, permanent, emergency, effective, stored, at) =>
        ScheduleFee(s, admin, category, permanent, emergency, effective, stored, at).0
      case DoApplyFees(today) => ApplyFrom(s, 0, today)
  }

  function Run(s: Console, actions: seq<Action>): Console {
    if actions == [] then s else Step(Run(s, actions[..|actions| - 1]), actions[|actions| - 1])
  }

  lemma RunNext(s: Console, actions: seq<Action>, a: Action)
    ensures Run(s, actions + [a]) == Step(Run(s, actions), a)
  {
    assert (actions + [a])[..|actions|] == actions;
  }

  lemma {:induction false} ApplyKeepsRequests(s: Console, i: nat, today: int)
    requires i <= |s.fees|
    ensures ApplyFrom(s, i, today) == s.(fees := ApplyFrom(s, i, today).fees)
    ensures |ApplyFrom(s, i, today).fees| == |s.fees|
    decreases |s.fees| - i
  {
    if i < |s.fees| {
      ApplyKeepsRequests(ApplyRow(s, i, today), i + 1, today);
    }
  }

  lemma StepKeepsNames(s: Console, a: Action)
    requires NoneDeparted(s)
    ensures NoneDeparted(Step(s, a))
  {
    if a.DoApplyFees? {
      ApplyKeepsRequests(s, 0, a.today);
    }
  }

  lemma StepKeepsApprovals(s: Console, a: Action)
    requires Approvals(s) && NoneDeparted(s)
    ensures Approvals(Step(s, a)) && VerdictsFinal(s, Step(s, a))
  {
    match a {
      case DoSubmit(admin, kind, stored, at) =>
        if Present(s, Actor(a)) {
          UndecidedKeeps(s, Submit(s, admin, kind, stored, at));
        }
      case DoApprove(approver, i, fails, stored, at) =>
        if Present(s, Actor(a)) {
          ApproveKeeps(s, approver, i, fails, stored, at);
        }
      case DoReject(admin, i, stored, at) =>
        if Present(s, Actor(a)) {
          RejectKeeps(s, admin, i, stored, at);
        }
      case DoDelete(user) => DeleteKeeps(s, user);
      case DoApplyFees(today) =>
        ApplyKeepsRequests(s, 0, today);
        UndecidedKeeps(s, Step(s, a));
      case _ => UndecidedKeeps(s, Step(s, a));
    }
  }

  lemma FinalityChains(s: Console, s1: Console, s2: Console)
    requires VerdictsFinal(s, s1) && VerdictsFinal(s1, s2)
    ensures VerdictsFinal(s, s2)
  {
  }

  /** In every run, deletions of users included: a request that went ahead was decided by another admin of
      level 5 or more within four hours, with a row in the trail; its executor was called at most once;
      verdicts never change; and each kill switch is as the last executed request for its key set it. */
  lemma {:induction false} RunsKeepApprovals(s: Console, actions: seq<Action>)
    requires Approvals(s) && NoneDeparted(s)
    ensures Approvals(Run(s, actions)) && NoneDeparted(Run(s, actions))
    ensures VerdictsFinal(s, Run(s, actions))
  {
    if actions != [] {
      var before, a := Run(s, actions[..|actions| - 1]), actions[|actions| - 1];
      RunsKeepApprovals(s, actions[..|actions| - 1]);
      StepKeepsNames(before, a);
      StepKeepsApprovals(before, a);
      FinalityChains(s, before, Step(before, a));
    }
  }

  // ---- The compliance figure --------------------------------------------------------------------

  predicate HighImpact(r: Request) {
    r.status in {Status.Approved, Executed, Rejected}
  }

  function HighImpactRequests(rs: seq<Request>): set<nat> {
    set i | 0 <= i < |rs| && HighImpact(rs[i])
  }

  function ReviewedRequests(rs: seq<Request>): set<nat> {
    set i | 0 <= i < |rs| && HighImpact(rs[i]) && rs[i].reviewer.Some?
  }

  /** In every run of the console the compliance figure is 100: every request it counts names who decided
      it, were it the placeholder. */
  lemma ComplianceAlwaysFull(actions: seq<Action>)
    ensures var rs := Run(OPENING, actions).requests;
            ReviewedRequests(rs) == HighImpactRequests(rs)
  {
    var s := Run(OPENING, actions);
    RunsKeepApprovals(OPENING, actions);
    forall i | 0 <= i < |s.requests| && HighImpact(s.requests[i])
      ensures s.requests[i].reviewer.Some?
    {
      assert RequestBacked(s, i);
      var verdict := if s.requests[i].status == Rejected then Rejected else Status.Approved;
      assert Decided(s, i, verdict);
      var k :| 0 <= k < |s.decisions| && s.decisions[k].request == i && s.decisions[k].verdict == verdict;
      assert DecisionStands(s, k);
    }
  }

  /** Four eyes as the tables show them: the stored submitter and the stored reviewer of a request differ. */
  predicate ShowsFourEyes(r: Request) {
    r.reviewer != Some(r.submitter)
  }

  /** In every run the tables show four eyes on a decided request unless both its submitter and the admin who
      decided it have been deleted, and only then do they not. */
  lemma FourEyesShownIff(actions: seq<Action>, k: nat)
    requires k < |Run(OPENING, actions).decisions|
    ensures var s := Run(OPENING, actions);
            var d := s.decisions[k];
            && d.request < |s.requests| == |s.submitters| && d.admin != s.submitters[d.request]
            && (ShowsFourEyes(s.requests[d.request])
                <==> !(d.admin in s.departed && s.submitters[d.request] in s.departed))
  {
    var s := Run(OPENING, actions);
    RunsKeepApprovals(OPENING, actions);
    assert DecisionStands(s, k);
    assert RequestBacked(s, s.decisions[k].request);
  }

  /** It happens: any two admins, one submits, the other rejects, and both are deleted. */
  lemma FourEyesCanBeLost(submitter: AdminId, decider: AdminId, kind: Kind, stored: bool, at: int)
    requires submitter != decider && submitter != ANCHOR && decider != ANCHOR
    ensures var s := Run(OPENING, [DoSubmit(submitter, kind, stored, at), DoReject(decider, 0, stored, at),
                                   DoDelete(submitter), DoDelete(decider)]);
            |s.requests| == 1 && s.requests[0].status == Rejected && !ShowsFourEyes(s.requests[0])
  {
    var a, b := DoSubmit(submitter, kind, stored, at), DoReject(decider, 0, stored, at);
    var c, d := DoDelete(submitter), DoDelete(decider);
    RunNext(OPENING, [], a);
    RunNext(OPENING, [a], b);
    RunNext(OPENING, [a, b], c);
    RunNext(OPENING, [a, b, c], d);
    assert [] + [a] == [a] && [a] + [b] == [a, b] && [a, b] + [c] == [a, b, c] && [a, b, c] + [d] == [a, b, c, d];
    var s2 := Step(Step(OPENING, a), b);
    assert s2.requests == [Request(kind, submitter, Rejected, Some(decider), at, at + APPROVAL_TTL, Some(at), None)];
  }

  // ---- Fee schedules ------------------------------------------------------------------------

  /** A schedule that was ever applied had its approval executed, and was due that day. */
  ghost predicate AppliedProperly(s: Console, f: Fee) {
    && f.approval.Some? && f.approval.value < |s.requests|
    && (f.permanent && !f.emergency ==> f.effective >= f.scheduledOn + FEE_MIN_NOTICE_DAYS)
    && (f.status in {Active, Superseded} ==>
          && s.requests[f.approval.value].status == Executed
          && f.appliedOn.Some? && f.effective <= f.appliedOn.value)
  }

  ghost predicate OneActivePerCategory(fees: seq<Fee>) {
    forall i, k :: 0 <= i < k < |fees| && fees[i].status == Active && fees[k].status == Active ==>
      fees[i].category != fees[k].category
  }

  ghost predicate FeesInOrder(s: Console) {
    && (forall i :: 0 <= i < |s.fees| ==> AppliedProperly(s, s.fees[i]))
    && OneActivePerCategory(s.fees)
  }

  lemma FeesSurvive(s: Console, s': Console)
    requires FeesInOrder(s) && VerdictsFinal(s, s')
    requires |s'.fees| == |s.fees|
    requires forall i :: 0 <= i < |s.fees| ==> s'.fees[i] == s.fees[i] || s'.fees[i] == s.fees[i].(status := Scheduled)
    ensures FeesInOrder(s')
  {
    forall i | 0 <= i < |s'.fees|
      ensures AppliedProperly(s', s'.fees[i])
    {
      assert AppliedProperly(s, s.fees[i]);
    }
  }

  lemma ScheduleKeepsFees(s: Console, admin: AdminId, category: string, permanent: bool, emergency: bool,
                          effective: int, stored: bool, now: int)
    requires Approvals(s) && FeesInOrder(s)
    ensures FeesInOrder(ScheduleFee(s, admin, category, permanent, emergency, effective, stored, now).0)
  {
    var s' := ScheduleFee(s, admin, category, permanent, emergency, effective, stored, now).0;
    forall i | 0 <= i < |s'.fees|
      ensures AppliedProperly(s', s'.fees[i])
    {
      assert i < |s.fees| ==> AppliedProperly(s, s.fees[i]);
    }
  }

  lemma ApplyRowKeepsFees(s: Console, i: nat, today: int)
    requires FeesInOrder(s) && i < |s.fees|
    ensures FeesInOrder(ApplyRow(s, i, today))
  {
    var s' := ApplyRow(s, i, today);
    forall k | 0 <= k < |s'.fees|
      ensures AppliedProperly(s', s'.fees[k])
    {
      assert AppliedProperly(s, s.fees[k]);
    }
  }

  /** Row `k` is the last eligible one of its category among the rows from `i` on. */
  predicate IsLastEligible(s: Console, i: nat, k: nat, today: int)
    requires k < |s.fees|
  {
    && i <= k && Eligible(s, s.fees[k], today)
    && forall m :: k < m < |s.fees| && s.fees[m].category == s.fees[k].category ==> !Eligible(s, s.fees[m], today)
  }

  lemma {:induction false} ApplyKeepsFees(s: Console, i: nat, today: int)
    requires FeesInOrder(s) && i <= |s.fees|
    ensures FeesInOrder(ApplyFrom(s, i, today))
    decreases |s.fees| - i
  {
    if i < |s.fees| {
      ApplyRowKeepsFees(s, i, today);
      ApplyKeepsFees(ApplyRow(s, i, today), i + 1, today);
    }
  }

  /** Rows of a category without an eligible row ahead are left alone. */
  lemma {:induction false} NothingDueNothingDone(s: Console, i: nat, today: int, category: string)
    requires i <= |s.fees|
    requires forall k :: i <= k < |s.fees| && s.fees[k].category == category ==> !Eligible(s, s.fees[k], today)
    ensures |ApplyFrom(s, i, today).fees| == |s.fees|
    ensures forall k :: 0 <= k < |s.fees| ==> ApplyFrom(s, i, today).fees[k].category == s.fees[k].category
    ensures forall k :: 0 <= k < |s.fees| && s.fees[k].category == category ==>
              ApplyFrom(s, i, today).fees[k] == s.fees[k]
    decreases |s.fees| - i
  {
    if i < |s.fees| {
      NothingDueNothingDone(ApplyRow(s, i, today), i + 1, today, category);
    }
  }

  /** The nightly run leaves exactly one active schedule in each category that has an eligible due
      change: the last such row in table order. */
  lemma {:induction false} NightlyRunActivatesLast(s: Console, i: nat, k: nat, today: int)
    requires i <= |s.fees| && k < |s.fees| && IsLastEligible(s, i, k, today)
    ensures var fees := ApplyFrom(s, i, today).fees;
            && |fees| == |s.fees|
            && fees[k].status == Active && fees[k].appliedOn == Some(today) && fees[k].category == s.fees[k].category
            && (forall m :: 0 <= m < |fees| && m != k && fees[m].category == s.fees[k].category ==>
                  fees[m].status != Active)
    decreases |s.fees| - i
  {
    var s1 := ApplyRow(s, i, today);
    if i == k {
      NothingDueNothingDone(s1, i + 1, today, s.fees[k].category);
    } else {
      assert s1.fees[k] == s.fees[k];
      assert IsLastEligible(s1, i + 1, k, today);
      NightlyRunActivatesLast(s1, i + 1, k, today);
    }
  }

  lemma StepKeepsFees(s: Console, a: Action)
    requires Approvals(s) && NoneDeparted(s) && FeesInOrder(s)
    ensures FeesInOrder(Step(s, a))
  {
    StepKeepsApprovals(s, a);
    match a {
      case DoScheduleFee(admin, category, permanent, emergency, effective, stored, at) =>
        ScheduleKeepsFees(s, admin, category, permanent, emergency, effective, stored, at);
      case DoApplyFees(today) => ApplyKeepsFees(s, 0, today);
      case _ => FeesSurvive(s, Step(s, a));
    }
  }

  /** In every run of a console that starts so, each category has at most one active fee schedule; every
      schedule that is active or was superseded has an executed approval and was due when applied; and a
      permanent change that was no emergency was announced thirty days ahead. */
  lemma {:induction false} RunsKeepFees(s: Console, actions: seq<Action>)
    requires Approvals(s) && NoneDeparted(s) && FeesInOrder(s)
    ensures FeesInOrder(Run(s, actions))
  {
    if actions != [] {
      var before := Run(s, actions[..|actions| - 1]);
      RunsKeepFees(s, actions[..|actions| - 1]);
      RunsKeepApprovals(s, actions[..|actions| - 1]);
      StepKeepsFees(before, actions[|actions| - 1]);
    }
  }
}
