/** Dual approval, kill switches and fee schedules of the admin console. Times are seconds, dates are
    days. Requests and fee schedules are numbered by their position in their table. */
module AdminConsole {
  import opened Common

  const APPROVAL_TTL := 4 * 3600
  const MIN_APPROVER_LEVEL := 5
  const FEE_MIN_NOTICE_DAYS := 30
  const DAY := 86400

  type AdminId = int

  /** The placeholder user that references of a deleted user are moved to; nobody can sign in as it. */
  const ANCHOR: AdminId := 0

  /** What a request asks for. Some kinds have no executor and stay approved. */
  datatype Kind =
    | KillSwitch(key: string, engage: bool)
    | FeeRateChange(fee: Option<nat>)
    | OtherExecuted
    | NotExecuted

  datatype Status = Pending | Approved | Rejected | Expired | Executed | ExecutionFailed

  datatype Request = Request(kind: Kind, submitter: AdminId, status: Status, reviewer: Option<AdminId>,
                             created: int, expires: int, decidedAt: Option<int>, executedAt: Option<int>)

  datatype FeeStatus = Scheduled | Active | Superseded
  datatype Fee = Fee(category: string, permanent: bool, emergency: bool, scheduledOn: int, effective: int,
                     approval: Option<nat>, status: FeeStatus, appliedOn: Option<int>)

  /** What an admin did to a request, and the level that admin had at the time. */
  datatype AuditEntry = AuditEntry(request: nat, verdict: Status, admin: AdminId, level: nat)

  /** The tables of the console, and four things it does not store: who submitted each request, the
      decisions taken, whether or not their trail row could be written, the calls of executors, and the
      users who were deleted. */
  datatype Console = Console(
    levels: map<AdminId, nat>,
    requests: seq<Request>,
    switches: map<string, bool>,
    fees: seq<Fee>,
    audit: seq<AuditEntry>,
    submitters: seq<AdminId>,
    decisions: seq<AuditEntry>,
    executions: seq<nat>,
    departed: set<AdminId>)

  const OPENING := Console(map[], [], map[], [], [], [], [], [], {})

  datatype Answer = Ok | NotFound | AlreadyDecided | TooLate | SelfApproval | InsufficientLevel | ShortNotice
                  | RolledBack   // the call raised and its transaction was undone

  function LevelOf(s: Console, admin: Option<AdminId>): nat {
    if admin.Some? && admin.value in s.levels then s.levels[admin.value] else 0
  }

  // ---- Requests -----------------------------------------------------------------------------

  function NewRequest(kind: Kind, submitter: AdminId, now: int): Request {
    Request(kind, submitter, Pending, None, now, now + APPROVAL_TTL, None, None)
  }

  /** An error while the trail is written is swallowed, and then the row is missing. */
  function Trail(audit: seq<AuditEntry>, e: AuditEntry, stored: bool): seq<AuditEntry> {
    if stored then audit + [e] else audit
  }

  function Submit(s: Console, submitter: AdminId, kind: Kind, stored: bool, now: int): Console {
    var e := AuditEntry(|s.requests|, Pending, submitter, LevelOf(s, Some(submitter)));
    s.(requests := s.requests + [NewRequest(kind, submitter, now)], audit := Trail(s.audit, e, stored),
       submitters := s.submitters + [submitter])
  }

  /** The executor of a request, when nothing raises inside it. */
  function RunExecutor(s: Console, kind: Kind): Console {
    match kind
    case KillSwitch(key, engage) => s.(switches := s.switches[key := engage])
    case FeeRateChange(Some(f)) =>
      if f < |s.fees| then s.(fees := s.fees[f := s.fees[f].(status := Scheduled)]) else s
    case _ => s
  }

  /** Why an approval is turned down, if it is. */
  function Objection(s: Console, approver: Option<AdminId>, i: nat, now: int): Answer {
    if i >= |s.requests| then NotFound
    else if s.requests[i].status != Pending then AlreadyDecided
    else if s.requests[i].expires < now then TooLate
    else if approver == Some(s.requests[i].submitter) then SelfApproval
    else if LevelOf(s, approver) < MIN_APPROVER_LEVEL then InsufficientLevel
    else Ok
  }

  /** A second senior admin approves and the executor runs in a savepoint; `fails` tells whether
      something raises inside it. The whole call is one transaction, which a database error dooms even
      where it is swallowed: without its trail row no approval is kept. */
  function Approve(s: Console, approver: Option<AdminId>, i: nat, fails: bool, stored: bool,
                   now: int): (Console, Answer)
  {
    var answer := Objection(s, approver, i, now);
    if answer == TooLate then
      (s.(requests := s.requests[i := s.requests[i].(status := Expired)]), answer)
    else if answer != Ok then (s, answer)
    else if !stored then (s, RolledBack)
    else
      var r := s.requests[i].(reviewer := approver, status := Status.Approved, decidedAt := Some(now));
      var e := AuditEntry(i, Status.Approved, approver.value, LevelOf(s, approver));
      var s1 := s.(requests := s.requests[i := r], audit := s.audit + [e], decisions := s.decisions + [e]);
      if r.kind.NotExecuted? then (s1, Ok)
      else if fails then
        (s1.(requests := s1.requests[i := r.(status := ExecutionFailed)], executions := s1.executions + [i]), Ok)
      else
        (RunExecutor(s1, r.kind).(requests := s1.requests[i := r.(status := Executed, executedAt := Some(now))],
                              executions := s1.executions + [i]), Ok)
  }

  /** Any admin but the submitter may reject, at any time. */
  function Reject(s: Console, approver: AdminId, i: nat, stored: bool, now: int): (Console, Answer) {
    if i >= |s.requests| then (s, NotFound)
    else if s.requests[i].status != Pending then (s, AlreadyDecided)
    else if approver == s.requests[i].submitter then (s, SelfApproval)
    else
      var r := s.requests[i].(reviewer := Some(approver), status := Rejected, decidedAt := Some(now));
      var e := AuditEntry(i, Rejected, approver, LevelOf(s, Some(approver)));
      (s.(requests := s.requests[i := r], audit := Trail(s.audit, e, stored), decisions := s.decisions + [e]), Ok)
  }

  predicate Stale(r: Request, now: int) {
    r.status == Pending && r.expires < now
  }

  function ExpireStale(s: Console, now: int): Console {
    s.(requests := seq(|s.requests|, i requires 0 <= i < |s.requests| =>
         if Stale(s.requests[i], now) then s.requests[i].(status := Expired) else s.requests[i]))
  }

  function AssignRole(s: Console, admin: AdminId, level: nat): Console {
    s.(levels := s.levels[admin := level])
  }

  // ---- Deleting a user ----------------------------------------------------------------------

  function Moved(admin: AdminId, user: AdminId): AdminId {
    if admin == user then ANCHOR else admin
  }

  function MovedRequest(r: Request, user: AdminId): Request {
    r.(submitter := Moved(r.submitter, user),
       reviewer := if r.reviewer.Some? then Some(Moved(r.reviewer.value, user)) else None)
  }

  /** Deleting a user moves the requests and the trail rows of that user to the placeholder, where no
      reference protects the user any more, and takes the role along. The placeholder itself stays. */
  function DeleteUser(s: Console, user: AdminId): (Console, bool) {
    if user == ANCHOR then (s, false)
    else
      (s.(levels := s.levels - {user},
          requests := seq(|s.requests|, i requires 0 <= i < |s.requests| => MovedRequest(s.requests[i], user)),
          audit := seq(|s.audit|, k requires 0 <= k < |s.audit| =>
                         s.audit[k].(admin := Moved(s.audit[k].admin, user))),
          departed := s.departed + {user}), true)
  }

  // ---- Fee schedules ------------------------------------------------------------------------

  function ScheduleFee(s: Console, admin: AdminId, category: string, permanent: bool, emergency: bool,
                       effective: int, stored: bool, now: int): (Console, Answer) {
    if permanent && !emergency && effective < now / DAY + FEE_MIN_NOTICE_DAYS then (s, ShortNotice)
    else
      var s1 := Submit(s, admin, FeeRateChange(Some(|s.fees|)), stored, now);
      var fee := Fee(category, permanent, emergency, now / DAY, effective, Some(|s.requests|), Scheduled, None);
      (s1.(fees := s.fees + [fee]), Ok)
  }

  predicate Eligible(s: Console, f: Fee, today: int) {
    && f.status == Scheduled && f.effective <= today
    && (f.approval.Some? ==> f.approval.value < |s.requests| && s.requests[f.approval.value].status == Executed)
  }

  /** Activating a fee supersedes whatever was active in its category. */
  function Activate(fees: seq<Fee>, i: nat, today: int): (r: seq<Fee>)
    requires i < |fees|
    ensures |r| == |fees|
  {
    seq(|fees|, k requires 0 <= k < |fees| =>
      if k == i then fees[k].(status := Active, appliedOn := Some(today))
      else if fees[k].category == fees[i].category && fees[k].status == Active then fees[k].(status := Superseded)
      else fees[k])
  }

  function ApplyRow(s: Console, i: nat, today: int): (s': Console)
    requires i < |s.fees|
    ensures |s'.fees| == |s.fees| && s' == s.(fees := s'.fees)
  {
    if Eligible(s, s.fees[i], today) then s.(fees := Activate(s.fees, i, today)) else s
  }

  function ApplyFrom(s: Console, i: nat, today: int): Console
    requires i <= |s.fees|
    decreases |s.fees| - i
  {
    if i == |s.fees| then s else ApplyFrom(ApplyRow(s, i, today), i + 1, today)
  }

  /** How many schedules from row `i` on are eligible. */
  ghost function EligibleFrom(s: Console, i: nat, today: int): nat
    requires i <= |s.fees|
    decreases |s.fees| - i
  {
    if i == |s.fees| then 0 else EligibleFrom(s, i + 1, today) + (if Eligible(s, s.fees[i], today) then 1 else 0)
  }

  lemma {:induction false} EligibleFrame(s: Console, s': Console, i: nat, today: int)
    requires i <= |s.fees| == |s'.fees|
    requires forall k :: i <= k < |s.fees| ==> Eligible(s', s'.fees[k], today) == Eligible(s, s.fees[k], today)
    ensures EligibleFrom(s', i, today) == EligibleFrom(s, i, today)
    decreases |s.fees| - i
  {
    if i < |s.fees| {
      EligibleFrame(s, s', i + 1, today);
    }
  }

  /** Activating one schedule makes no other eligible, nor ineligible. */
  lemma ActivationKeepsRest(s: Console, i: nat, today: int)
    requires i < |s.fees|
    ensures EligibleFrom(ApplyRow(s, i, today), i + 1, today) == EligibleFrom(s, i + 1, today)
  {
    EligibleFrame(s, ApplyRow(s, i, today), i + 1, today);
  }

  // ---- The service --------------------------------------------------------------------------

  class ConsoleService {
    var levels: map<AdminId, nat>
    var requests: seq<Request>
    var switches: map<string, bool>
    var fees: seq<Fee>
    var audit: seq<AuditEntry>
    ghost var submitters: seq<AdminId>
    ghost var decisions: seq<AuditEntry>
    ghost var executions: seq<nat>
    ghost var departed: set<AdminId>

    ghost function View(): Console
      reads this
    {
      Console(levels, requests, switches, fees, audit, submitters, decisions, executions, departed)
    }

    constructor ()
      ensures View() == OPENING
    {
      levels, requests, switches, fees, audit := map[], [], map[], [], [];
      submitters, decisions, executions, departed := [], [], [], {};
    }

    method AdminLevel(admin: Option<AdminId>) returns (level: nat)
      ensures level == LevelOf(View(), admin)
    {
      if admin.None? || admin.value !in levels {
        return 0;
      }
      return levels[admin.value];
    }

    method SubmitApproval(submitter: AdminId, kind: Kind, stored: bool, now: int)
      modifies this`requests, this`audit, this`submitters
      ensures View() == Submit(old(View()), submitter, kind, stored, now)
    {
      var level := AdminLevel(Some(submitter));
      if stored {
        audit := audit + [AuditEntry(|requests|, Pending, submitter, level)];
      }
      requests := requests + [Request(kind, submitter, Pending, None, now, now + APPROVAL_TTL, None, None)];
      submitters := submitters + [submitter];
    }

    method Execute(kind: Kind)
      modifies this`switches, this`fees
      ensures View() == RunExecutor(old(View()), kind)
    {
      match kind {
        case KillSwitch(key, engage) => switches := switches[key := engage];
        case FeeRateChange(Some(f)) =>
          if f < |fees| {
            fees := fees[f := fees[f].(status := Scheduled)];
          }
        case _ =>
      }
    }

    method ApproveRequest(approver: Option<AdminId>, i: nat, fails: bool, stored: bool, now: int)
        returns (answer: Answer)
      modifies this
      ensures (View(), answer) == Approve(old(View()), approver, i, fails, stored, now)
    {
      if i >= |requests| {
        return NotFound;
      }
      var r := requests[i];
      if r.status != Pending {
        return AlreadyDecided;
      }
      if r.expires < now {
        requests := requests[i := r.(status := Expired)];
        return TooLate;
      }
      if approver == Some(r.submitter) {
        return SelfApproval;
      }
      var level := AdminLevel(approver);
      if level < MIN_APPROVER_LEVEL {
        return InsufficientLevel;
      }
      if !stored {
        return RolledBack;
      }
      r := r.(reviewer := approver, status := Status.Approved, decidedAt := Some(now));
      requests := requests[i := r];
      audit := audit + [AuditEntry(i, Status.Approved, approver.value, level)];
      decisions := decisions + [AuditEntry(i, Status.Approved, approver.value, level)];
      if !r.kind.NotExecuted? {
        if fails {
          r := r.(status := ExecutionFailed);
        } else {
          Execute(r.kind);
          r := r.(status := Executed, executedAt := Some(now));
        }
        requests := requests[i := r];
        executions := executions + [i];
      }
      return Ok;
    }

    method RejectRequest(approver: AdminId, i: nat, stored: bool, now: int) returns (answer: Answer)
      modifies this`requests, this`audit, this`decisions
      ensures (View(), answer) == Reject(old(View()), approver, i, stored, now)
    {
      if i >= |requests| {
        return NotFound;
      }
      var r := requests[i];
      if r.status != Pending {
        return AlreadyDecided;
      }
      if approver == r.submitter {
        return SelfApproval;
      }
      var level := AdminLevel(Some(approver));
      requests := requests[i := r.(reviewer := Some(approver), status := Rejected, decidedAt := Some(now))];
      if stored {
        audit := audit + [AuditEntry(i, Rejected, approver, level)];
      }
      decisions := decisions + [AuditEntry(i, Rejected, approver, level)];
      return Ok;
    }

    method ExpireStaleApprovals(now: int) returns (n: nat)
      modifies this`requests
      ensures View() == ExpireStale(old(View()), now)
      ensures n == |set i | 0 <= i < |old(requests)| && Stale(old(requests)[i], now)|
    {
      n := 0;
      ghost var expired: set<int> := {};
      for i := 0 to |requests|
        invariant |requests| == |old(requests)|
        invariant forall k :: 0 <= k < |requests| ==>
                    requests[k] == if k < i then ExpireStale(old(View()), now).requests[k] else old(requests)[k]
        invariant expired == set k | 0 <= k < i && Stale(old(requests)[k], now)
        invariant n == |expired|
      {
        if requests[i].status == Pending && requests[i].expires < now {
          requests := requests[i := requests[i].(status := Expired)];
          expired := expired + {i};
          n := n + 1;
        }
      }
      assert requests == ExpireStale(old(View()), now).requests;
      assert expired == set i | 0 <= i < |old(requests)| && Stale(old(requests)[i], now);
    }

    /** Walks the references to the user and moves each to the placeholder, then deletes the user. */
    method RemoveUser(user: AdminId) returns (deleted: bool)
      modifies this`levels, this`requests, this`audit, this`departed
      ensures (View(), deleted) == DeleteUser(old(View()), user)
    {
      if user == ANCHOR {
        return false;
      }
      ghost var after := DeleteUser(View(), user).0;
      for i := 0 to |requests|
        invariant |requests| == |old(requests)| && audit == old(audit)
        invariant levels == old(levels) && departed == old(departed)
        invariant forall k :: 0 <= k < |requests| ==>
            requests[k] == if k < i then after.requests[k] else old(requests)[k]
      {
        if requests[i].submitter == user {
          requests := requests[i := requests[i].(submitter := ANCHOR)];
        }
        if requests[i].reviewer == Some(user) {
          requests := requests[i := requests[i].(reviewer := Some(ANCHOR))];
        }
      }
      assert requests == after.requests;
      for k := 0 to |audit|
        invariant |audit| == |old(audit)| && requests == after.requests
        invariant levels == old(levels) && departed == old(departed)
        invariant forall m :: 0 <= m < |audit| ==> audit[m] == if m < k then after.audit[m] else old(audit)[m]
      {
        if audit[k].admin == user {
          audit := audit[k := audit[k].(admin := ANCHOR)];
        }
      }
      assert audit == after.audit;
      levels := levels - {user};
      departed := departed + {user};
      return true;
    }

    method ScheduleFeeChange(admin: AdminId, category: string, permanent: bool, emergency: bool,
                             effective: int, stored: bool, now: int) returns (answer: Answer)
      modifies this`requests, this`audit, this`fees, this`submitters
      ensures (View(), answer)
           == ScheduleFee(old(View()), admin, category, permanent, emergency, effective, stored, now)
    {
      if !emergency && permanent && effective < now / DAY + FEE_MIN_NOTICE_DAYS {
        return ShortNotice;
      }
      var request := |requests|;
      var fee := |fees|;
      fees := fees + [Fee(category, permanent, emergency, now / DAY, effective, None, Scheduled, None)];
      SubmitApproval(admin, FeeRateChange(Some(fee)), stored, now);
      fees := fees[fee := fees[fee].(approval := Some(request))];
      assert fees == old(fees) + [fees[fee]];
      return Ok;
    }

    /** Activates what is due and reports how many schedules that were. */
    method ApplyDueFeeChanges(today: int) returns (applied: nat)
      modifies this`fees
      ensures View() == ApplyFrom(old(View()), 0, today)
      ensures applied == EligibleFrom(old(View()), 0, today)
    {
      applied := 0;
      var i := 0;
      while i < |fees|
        invariant i <= |fees| == |old(fees)|
        invariant View() == old(View()).(fees := fees)
        invariant ApplyFrom(View(), i, today) == ApplyFrom(old(View()), 0, today)
        invariant applied + EligibleFrom(View(), i, today) == EligibleFrom(old(View()), 0, today)
        decreases |fees| - i
      {
        ActivationKeepsRest(View(), i, today);
        var f := fees[i];
        if f.status == Scheduled && f.effective <= today {
          if f.approval.None? || (f.approval.value < |requests| && requests[f.approval.value].status == Executed) {
            fees := ActivateFee(fees, i, today);
            applied := applied + 1;
          }
        }
        i := i + 1;
      }
    }
  }

  method ActivateFee(fees: seq<Fee>, i: nat, today: int) returns (updated: seq<Fee>)
    requires i < |fees|
    ensures updated == Activate(fees, i, today)
  {
    updated := fees;
    for k := 0 to |fees|
      invariant |updated| == |fees|
      invariant forall m :: 0 <= m < |fees| ==>
                  updated[m] == if m < k && fees[m].category == fees[i].category && fees[m].status == Active
                                then fees[m].(status := Superseded) else fees[m]
    {
      if updated[k].category == fees[i].category && updated[k].status == Active {
        updated := updated[k := updated[k].(status := Superseded)];
      }
    }
    updated := updated[i := fees[i].(status := Active, appliedOn := Some(today))];
  }
}
