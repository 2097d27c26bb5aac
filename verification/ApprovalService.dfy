/** The approval flow as its callers drive it: decide, claim, execute, settle, and the executor
    it calls (`deploy_executor.execute_from_params`). Recovery has its own module. */
module ApprovalService {
  import opened Wrappers
  import opened Text
  import opened Tables
  import opened Statements
  import opened Store
  import opened CancelRegistry
  import opened DeployRun
  import opened DeployService
  import CrashTier
  import StatementTier

  datatype User = User(name: string, role: string, permissions: set<string>)

  /** The matched rule of a project; no rule reads as one that names nobody. */
  datatype Rule = Rule(approvers: set<string>, approverRole: string)

  const SUPER_ADMIN_ROLE := "super_admin"
  const WILDCARD := "*"
  const APPROVE_PERM := "cd.deploy.approve"

  datatype ApprovalError = NotFound | SelfApprovalForbidden | PermissionDenied | SelfOnly | NotExecutable

  predicate IsSuper(user: User) {
    user.role == SUPER_ADMIN_ROLE || WILDCARD in user.permissions
  }

  predicate CanApprove(rule: Rule, user: User) {
    || IsSuper(user)
    || APPROVE_PERM in user.permissions
    || user.name in rule.approvers
    || (Strip(rule.approverRole) != "" && user.role == Strip(rule.approverRole))
  }

  /** What a decision demands of the user, self-approval first. */
  function MayDecide(db: Db, id: nat, rule: Rule, user: User): Option<ApprovalError> {
    if id !in db.tickets then Some(NotFound)
    else if StatementTier.SelfApproval(db.tickets[id].requester, user.name) then Some(SelfApprovalForbidden)
    else if !CanApprove(rule, user) then Some(PermissionDenied)
    else None
  }

  /** Who may approve or reject, in full: the ticket exists; the user is not its requester, both
      trimmed and not blank; and the user is a super admin by role or wildcard, holds the approval
      permission, is named by the rule, or has the role the rule names. */
  lemma MayDecideIff(db: Db, id: nat, rule: Rule, user: User)
    ensures MayDecide(db, id, rule, user) == Some(NotFound) <==> id !in db.tickets
    ensures id in db.tickets ==>
      var requester, name := Strip(db.tickets[id].requester), Strip(user.name);
      var own := requester == name && name != "";
      var allowed := user.role == "super_admin" || "*" in user.permissions || "cd.deploy.approve" in user.permissions
        || user.name in rule.approvers || (Strip(rule.approverRole) != "" && user.role == Strip(rule.approverRole));
      && (MayDecide(db, id, rule, user) == Some(SelfApprovalForbidden) <==> own)
      && (MayDecide(db, id, rule, user) == Some(PermissionDenied) <==> !own && !allowed)
      && (MayDecide(db, id, rule, user) == None <==> !own && allowed)
  {
    hide Strip;
  }

  method ApproveTicket(db: Database, id: nat, rule: Rule, user: User, now: int) returns (r: Result<bool, ApprovalError>)
    requires Valid(db.View())
    modifies db
    ensures Valid(db.View()) && db.logs == old(db.logs)
    ensures r.Failure? <==> MayDecide(old(db.View()), id, rule, user).Some?
    ensures r.Failure? ==> Some(r.error) == MayDecide(old(db.View()), id, rule, user) && db.View() == old(db.View())
    ensures r.Success? ==> r.value == CanMove(old(db.View()), id, {Pending})
    ensures r.Success? ==> db.View() == Move(old(db.View()), id, {Pending}, Approved, Some(user.name), None, now)
    ensures db.tickets == if r != Success(true) then old(db.tickets)
      else old(db.tickets)[id := old(db.tickets)[id].(status := Approved, approver := user.name, updatedAt := now)]
  {
    var refusal := MayDecide(db.View(), id, rule, user);
    if refusal.Some? {
      return Failure(refusal.value);
    }
    r := Success(CanMove(db.View(), id, {Pending}));
    MoveKeeps(db.View(), id, {Pending}, Approved, Some(user.name), None, now);
    db.Commit(Move(db.View(), id, {Pending}, Approved, Some(user.name), None, now));
  }

  /** A pending ticket is rejected, and its waiting logs with it. */
  function RejectedBy(db: Db, id: nat, user: string, now: int): Db {
    ClosePending(Move(db, id, {Pending}, Rejected, Some(user), None, now), id, LogRejected)
  }

  /** A ticket that was not executed yet is cancelled, and its waiting logs with it. */
  function Withdrawn(db: Db, id: nat, now: int): Db {
    ClosePending(Move(db, id, {Pending, Approved}, TicketStatus.Cancelled, None, None, now), id, LogCancelled)
  }

  /** Exactly the waiting logs of the ticket were closed with this status. */
  predicate Closed(before: map<nat, DeployLog>, after: map<nat, DeployLog>, id: nat, to: LogStatus) {
    after.Keys == before.Keys
    && forall l :: l in before ==>
         after[l] == if before[l].approvalId == id && before[l].status == LogPending
           then before[l].(status := to, lockKey := None) else before[l]
  }

  /** Rejecting also closes the ticket's waiting logs, so none of them can be claimed later. */
  method RejectTicket(db: Database, id: nat, rule: Rule, user: User, now: int) returns (r: Result<bool, ApprovalError>)
    requires Valid(db.View())
    modifies db
    ensures Valid(db.View())
    ensures r.Failure? <==> MayDecide(old(db.View()), id, rule, user).Some?
    ensures r.Failure? ==> Some(r.error) == MayDecide(old(db.View()), id, rule, user) && db.View() == old(db.View())
    ensures r == Success(false) ==> db.View() == old(db.View())
    ensures r == Success(true) ==>
      && db.View() == RejectedBy(old(db.View()), id, user.name, now)
      && CanMove(old(db.View()), id, {Pending}) && Closed(old(db.logs), db.logs, id, LogRejected)
      && db.tickets
         == old(db.tickets)[id := old(db.tickets)[id].(status := Rejected, approver := user.name, updatedAt := now)]
      && !HasLog(db.View(), id, LogPending)
  {
    var refusal := MayDecide(db.View(), id, rule, user);
    if refusal.Some? {
      return Failure(refusal.value);
    }
    r := Success(CanMove(db.View(), id, {Pending}));
    if r.value {
      MoveKeeps(db.View(), id, {Pending}, Rejected, Some(user.name), None, now);
      db.Commit(Move(db.View(), id, {Pending}, Rejected, Some(user.name), None, now));
      MarkApprovalLogTerminal(db, id, LogRejected);
    }
  }

  /** Withdrawal by the requester or a super admin, only before execution. */
  method CancelTicket(db: Database, id: nat, user: User, now: int) returns (r: Result<bool, ApprovalError>)
    requires Valid(db.View())
    modifies db
    ensures Valid(db.View())
    ensures r == Failure(NotFound) <==> id !in old(db.tickets)
    ensures r == Failure(PermissionDenied) <==>
      id in old(db.tickets) && user.name != old(db.tickets)[id].requester
      && user.role != "super_admin" && "*" !in user.permissions
    ensures r.Failure? ==> r.error in {NotFound, PermissionDenied}
    ensures r.Success? ==> r.value == CanMove(old(db.View()), id, {Pending, Approved})
    ensures r != Success(true) ==> db.View() == old(db.View())
    ensures r == Success(true) ==>
      && db.View() == Withdrawn(old(db.View()), id, now)
      && !HasLog(db.View(), id, LogPending) && Closed(old(db.logs), db.logs, id, LogCancelled)
      && db.tickets == old(db.tickets)[id := old(db.tickets)[id].(status := TicketStatus.Cancelled, updatedAt := now)]
  {
    if id !in db.tickets {
      return Failure(NotFound);
    }
    if user.name != db.tickets[id].requester && !IsSuper(user) {
      return Failure(PermissionDenied);
    }
    r := Success(CanMove(db.View(), id, {Pending, Approved}));
    if r.value {
      MoveKeeps(db.View(), id, {Pending, Approved}, TicketStatus.Cancelled, None, None, now);
      db.Commit(Move(db.View(), id, {Pending, Approved}, TicketStatus.Cancelled, None, None, now));
      MarkApprovalLogTerminal(db, id, LogCancelled);
    }
  }

  /** One ticket with its schedule and one waiting log of it are added. */
  function Gated(db: Db, req: Request, requester: string, ruled: bool, scheduledAt: string, now: int): Db {
    InsertPending(InsertTicket(db, req.project, requester, scheduledAt, ruled, now), req, db.nextTicket)
  }

  /** gate_deploy: None lets the caller deploy directly; otherwise a ticket and its pending log. */
  method GateDeploy(db: Database, req: Request, requester: string, ruled: bool, scheduledAt: string, now: int)
    returns (ticket: Option<nat>)
    requires Valid(db.View())
    modifies db
    ensures Valid(db.View())
    ensures ticket.None? <==> !ruled && scheduledAt == ""
    ensures ticket.None? ==> db.View() == old(db.View())
    ensures ticket.Some? ==>
      && ticket.value == old(db.nextTicket)
      && db.View() == Gated(old(db.View()), req, requester, ruled, scheduledAt, now)
    ensures ticket.Some? ==>
      && ticket.value !in old(db.tickets) && old(db.nextLog) !in old(db.logs)
      && db.tickets == old(db.tickets)[ticket.value := Ticket(req.project, requester, "",
            if ruled then Pending else Approved, 0, scheduledAt, now)]
      && db.logs == old(db.logs)[old(db.nextLog) := DeployLog(req.project, req.tag, req.mode, req.snapshot,
            ticket.value, LogPending, None, "", "")]
  {
    if !ruled && scheduledAt == "" {
      return None;
    }
    ticket := Some(db.nextTicket);
    InsertTicketKeeps(db.View(), req.project, requester, scheduledAt, ruled, now);
    db.Commit(InsertTicket(db.View(), req.project, requester, scheduledAt, ruled, now));
    var log := CreatePendingDeployRecord(db, req, ticket.value);
  }

  /** claim_for_execution; permitted is the re-check of the requester's current permissions. */
  method ClaimForExecution(db: Database, id: nat, userName: string, permitted: bool, now: int) returns (r: Result<(),
          ApprovalError>)
    requires Valid(db.View())
    modifies db
    ensures Valid(db.View())
    ensures r.Success?
      <==> CanMove(old(db.View()), id, {Approved}) && old(db.tickets)[id].requester == userName && permitted
    ensures r == Failure(NotFound) <==> id !in old(db.tickets)
    ensures r == Failure(SelfOnly) <==> id in old(db.tickets) && old(db.tickets)[id].requester != userName
    ensures r == Failure(NotExecutable) <==>
      id in old(db.tickets) && old(db.tickets)[id].requester == userName && old(db.tickets)[id].status != Approved
    ensures r == Failure(PermissionDenied) <==>
      CanMove(old(db.View()), id, {Approved}) && old(db.tickets)[id].requester == userName && !permitted
    ensures r.Failure? ==> db.View() == old(db.View())
    ensures r.Success? ==> db.View() == Move(old(db.View()), id, {Approved}, Deploying, None, None, now)
    ensures r.Success? ==>
      && db.logs == old(db.logs)
      && db.tickets == old(db.tickets)[id := old(db.tickets)[id].(status := Deploying, updatedAt := now)]
  {
    if id !in db.tickets {
      return Failure(NotFound);
    }
    if db.tickets[id].requester != userName {
      return Failure(SelfOnly);
    }
    if db.tickets[id].status != Approved {
      return Failure(NotExecutable);
    }
    if !permitted {
      return Failure(PermissionDenied);
    }
    MoveKeeps(db.View(), id, {Approved}, Deploying, None, None, now);
    db.Commit(Move(db.View(), id, {Approved}, Deploying, None, None, now));
    r := Success(());
  }

  // ── Execution ──

  /** How the stored parameters route, and what the deployer and the notification then do. */
  datatype Plan =
    | OverSsh(ready: bool, targets: seq<Target>, notifyRaises: bool)
    | OnCluster(ready: bool, run: ClusterRun, cancelled: bool, notifyRaises: bool)

  datatype ExecStatus = ExecOk | ExecFailed | ExecBusy | ExecCancelled

  datatype ExecResult = ExecResult(status: ExecStatus, deployId: nat)

  /** The outcome the claimed log ends with. */
  ghost function LogOutcome(plan: Plan): LogStatus {
    match plan
    case OverSsh(_, targets, _) => Verdict(targets)
    case OnCluster(_, run, cancelled, _) => if cancelled then LogTerminated else ClusterStatus(run)
  }

  /** Another instance cancelled the run while it was under way. */
  predicate CancelledOutside(plan: Plan) {
    match plan
    case OverSsh(_, targets, _) => AnyCancelled(DeployService.Reached(targets))
    case OnCluster(_, _, cancelled, _) => cancelled
  }

  /** The run raises after its log was claimed: a break before the end, a deployer that raises on
      the cluster, or a notification that raises once all is done. */
  predicate RunRaises(plan: Plan) {
    match plan
    case OverSsh(_, targets, notifyRaises) =>
      var stop := Stop(targets);
      if stop < |targets| then targets[stop].run.Breaks? else notifyRaises
    case OnCluster(_, run, _, notifyRaises) => run.ClusterRaises? || (run.ClusterReturns? && notifyRaises)
  }

  /** Everything went well as far as the executing thread can see. */
  ghost predicate RunsWell(plan: Plan) {
    && !RunRaises(plan)
    && match plan
       case OverSsh(_, targets, _) => forall t :: t in targets ==> Succeeds(t)
       case OnCluster(_, run, _, _) => run == ClusterReturns(true)
  }

  /** The executing thread itself notices a cancel. */
  ghost predicate SeesCancel(plan: Plan) {
    match plan
    case OverSsh(_, targets, _) => exists i: nat :: TurnComes(targets, i) && targets[i].run.CancelSeen?
    case OnCluster(_, run, _, _) => run.ClusterCancelled?
  }

  predicate Runnable(plan: Plan) {
    plan.ready && (plan.OverSsh? ==> plan.targets != [])
  }

  /** The ticket status run_approval writes for a result. */
  function TicketAfter(status: ExecStatus): TicketStatus {
    match status
    case ExecOk => Deployed
    case ExecFailed => Failed
    case ExecBusy => Approved
    case ExecCancelled => TicketStatus.Cancelled
  }

  /** What an execution did to the store and what it reports. Without a claimed log nothing changed;
      a claimed log is the one a claim or start would take, and ends with the run's outcome. */
  ghost predicate Ran(before: Db, after: Db, approvalId: nat, req: Request, runner: string, now: int, plan: Plan,
          log: nat, r: ExecResult) {
    && (log == 0 <==> !Runnable(plan) || Busy(before, req.project))
    && (r.status.ExecBusy? <==> plan.ready && Busy(before, req.project))
    && (log == 0 ==> after == before && r.status in {ExecBusy, ExecFailed} && r.deployId == 0)
    && (log != 0 ==> Claimed(before, after, approvalId, req, runner, now, plan, log))
    && (r.status.ExecOk? <==> log != 0 && RunsWell(plan))
    && (r.status.ExecCancelled? <==> log != 0 && SeesCancel(plan))
    && (log != 0 ==> (r.deployId == log <==> !RunRaises(plan)))
    && (log != 0 && !CancelledOutside(plan) ==> CrashTier.Reported(LogOutcome(plan), TicketAfter(r.status)))
    && (log != 0 && CrashTier.Outcome(LogOutcome(plan)) ==> ReportsAs(plan, log, r))
    && after.tickets == before.tickets
    && r.deployId in {0, log} && (r.status == ExecOk || r.status == ExecCancelled ==> r.deployId == log != 0)
  }

  /** What an ok or failed log is reported as: its own outcome and id, or failed with id 0. */
  ghost predicate ReportsAs(plan: Plan, log: nat, r: ExecResult) {
    (TicketAfter(r.status), r.deployId) == CrashTier.ThreadWrites(LogOutcome(plan), log, RunRaises(plan))
  }

  ghost predicate Claimed(before: Db, after: Db, approvalId: nat, req: Request, runner: string, now: int, plan: Plan,
          log: nat) {
    var started := CrashTier.ClaimOrStart(before, approvalId, req, runner, now);
    && started.Some? && log == CrashTier.ClaimedLog(before, approvalId)
    && after == FinishLog(started.value, log, LogOutcome(plan))
    && log in after.logs && after.logs[log].status == LogOutcome(plan)
  }

  lemma SuccessNeverStops(targets: seq<Target>)
    ensures (forall t :: t in targets ==> Succeeds(t)) ==> Stop(targets) == |targets|
    ensures targets != [] && (forall t :: t in targets ==> !Succeeds(t)) ==> !forall t :: t in targets ==> Succeeds(t)
  {
    var stop := Stop(targets);
    assert stop < |targets| ==> targets[stop] in targets && Stops(targets[stop]);
    assert targets != [] ==> targets[0] in targets;
  }

  /** _execute_ssh, with the exception handling of execute_from_params around it. */
  method ExecuteSsh(db: Database, manager: DeployRunManager, req: Request, approvalId: nat, runner: string, now: int,
          plan: Plan)
    returns (r: ExecResult, ghost log: nat)
    requires Valid(db.View()) && plan.OverSsh?
    modifies db, manager
    ensures Valid(db.View())
    ensures Ran(old(db.View()), db.View(), approvalId, req, runner, now, plan, log, r)
    ensures log != 0 ==> Released(db, manager, log)
  {
    CrashTier.ClaimOrStartResult(db.View(), approvalId, req, runner, now);
    hide Valid, InsertRunning, ClaimLog, Newest;
    var reply, deployId :=
      Execute(db, manager, req, approvalId, runner, now, plan.ready, plan.targets, plan.notifyRaises);
    r := ReplyResult(reply, deployId);
    log := deployId;
    hide LogOutcome, RunRaises, RunsWell, CancelledOutside, ReplyResult, Verdict;
    if log != 0 {
      SshReports(plan, reply, log);
    }
    RefusalReports(reply, plan);
  }

  /** The result an executor's reply becomes; every exception reads as failed, without an id. */
  function ReplyResult(reply: Reply, deployId: nat): ExecResult {
    match reply
    case Refused(busy) => ExecResult(if busy then ExecBusy else ExecFailed, 0)
    case Raised => ExecResult(ExecFailed, 0)
    case WasCancelled => ExecResult(ExecCancelled, deployId)
    case Finished(success) => ExecResult(if success then ExecOk else ExecFailed, deployId)
  }

  lemma RefusalReports(reply: Reply, plan: Plan)
    ensures reply.Refused? ==> ReplyResult(reply, 0) == ExecResult(if reply.busy then ExecBusy else ExecFailed, 0)
    ensures plan.OverSsh? ==> LogOutcome(plan) == Verdict(plan.targets)
  {
  }

  lemma SshReports(plan: Plan, reply: Reply, log: nat)
    requires plan.OverSsh? && plan.targets != [] && log != 0 && !reply.Refused?
    requires reply.Finished? ==> reply.success == forall t :: t in plan.targets ==> Succeeds(t)
    requires reply.Finished? <==> Stop(plan.targets) == |plan.targets| && !plan.notifyRaises
    requires reply.WasCancelled?
      <==> Stop(plan.targets) < |plan.targets| && plan.targets[Stop(plan.targets)].run.CancelSeen?
    ensures var r := ReplyResult(reply, log);
            && !r.status.ExecBusy? && (r.status.ExecCancelled? <==> SeesCancel(plan))
            && (r.status.ExecOk? <==> RunsWell(plan))
            && (r.deployId == log <==> !RunRaises(plan)) && r.deployId in {0, log}
            && (!CancelledOutside(plan) ==> CrashTier.Reported(LogOutcome(plan), TicketAfter(r.status)))
            && (CrashTier.Outcome(LogOutcome(plan)) ==> ReportsAs(plan, log, r))
            && (r.status == ExecOk || r.status == ExecCancelled ==> r.deployId == log)
  {
    SuccessNeverStops(plan.targets);
    StopDecides(plan.targets);
  }

  /** _execute_k8s, likewise; its notification comes after the log is finished. */
  method ExecuteK8s(db: Database, manager: DeployRunManager, req: Request, approvalId: nat, runner: string, now: int,
          plan: Plan)
    returns (r: ExecResult, ghost log: nat)
    requires Valid(db.View()) && plan.OnCluster?
    modifies db, manager
    ensures Valid(db.View())
    ensures Ran(old(db.View()), db.View(), approvalId, req, runner, now, plan, log, r)
    ensures log != 0 ==> Released(db, manager, log)
  {
    CrashTier.ClaimOrStartResult(db.View(), approvalId, req, runner, now);
    hide Valid, InsertRunning, ClaimLog, Newest;
    var reply, deployId :=
      DeployK8sCore(db, manager, req, approvalId, runner, now, plan.ready, plan.run, plan.cancelled);
    r := if reply.Finished? && plan.notifyRaises then ExecResult(ExecFailed, 0) else ReplyResult(reply, deployId);
    log := deployId;
    hide LogOutcome, RunRaises, RunsWell, CancelledOutside, ReplyResult, ClusterStatus;
    K8sOutcome(plan);
    if log != 0 {
      K8sReports(plan, reply, log);
    }
    RefusalReports(reply, plan);
  }

  lemma K8sOutcome(plan: Plan)
    requires plan.OnCluster?
    ensures LogOutcome(plan) == if plan.cancelled then LogTerminated else ClusterStatus(plan.run)
  {
  }

  lemma K8sReports(plan: Plan, reply: Reply, log: nat)
    requires plan.OnCluster? && log != 0
    requires reply == match plan.run
      case ClusterReturns(success) => Finished(success)
      case ClusterRaises => Raised
      case ClusterCancelled => WasCancelled
    ensures var r := if reply.Finished? && plan.notifyRaises then ExecResult(ExecFailed, 0)
      else ReplyResult(reply, log);
            && !r.status.ExecBusy? && (r.status.ExecCancelled? <==> SeesCancel(plan))
            && (r.status.ExecOk? <==> RunsWell(plan))
            && (r.deployId == log <==> !RunRaises(plan)) && r.deployId in {0, log}
            && (!CancelledOutside(plan) ==> CrashTier.Reported(LogOutcome(plan), TicketAfter(r.status)))
            && (CrashTier.Outcome(LogOutcome(plan)) ==> ReportsAs(plan, log, r))
            && (r.status == ExecOk || r.status == ExecCancelled ==> r.deployId == log)
  {
  }

  /** execute_from_params: every exception becomes a result; a lock conflict becomes busy. */
  method ExecuteFromParams(db: Database, manager: DeployRunManager, req: Request, approvalId: nat, runner: string,
          now: int, plan: Plan)
    returns (r: ExecResult, ghost log: nat)
    requires Valid(db.View())
    modifies db, manager
    ensures Valid(db.View())
    ensures Ran(old(db.View()), db.View(), approvalId, req, runner, now, plan, log, r)
    ensures log != 0 ==> Released(db, manager, log)
  {
    hide *;
    if plan.OnCluster? {
      r, log := ExecuteK8s(db, manager, req, approvalId, runner, now, plan);
    } else {
      r, log := ExecuteSsh(db, manager, req, approvalId, runner, now, plan);
    }
  }

  /** run_approval on a claimed ticket. Busy hands the ticket back and changes nothing else; any
      other result ends the ticket, and the claimed log, if one was claimed, is released. */
  method RunApproval(db: Database, manager: DeployRunManager, id: nat, req: Request, runner: string, now: int,
          plan: Plan)
    returns (r: ExecResult, ghost log: nat)
    requires Valid(db.View())
    modifies db, manager
    ensures Valid(db.View())
    ensures !CanMove(old(db.View()), id, {Deploying}) ==> r == ExecResult(ExecFailed, 0) && db.View() == old(db.View())
    ensures CanMove(old(db.View()), id, {Deploying}) ==>
      && CanMove(db.View(), id, {TicketAfter(r.status)})
      && db.tickets == old(db.tickets)[id := old(db.tickets)[id].(status := db.tickets[id].status, updatedAt := now,
            deployId := if r.status in {ExecOk, ExecFailed} then r.deployId else old(db.tickets)[id].deployId)]
      && (db.tickets[id].status == Deployed <==> r.status == ExecOk)
      && (db.tickets[id].status == Failed <==> r.status == ExecFailed)
      && (db.tickets[id].status == TicketStatus.Cancelled <==> r.status == ExecCancelled)
      && (db.tickets[id].status == Approved <==> r.status == ExecBusy)
    ensures CanMove(old(db.View()), id, {Deploying}) && r.status.ExecBusy? ==>
      db.View() == ResetRunning(Move(old(db.View()), id, {Deploying}, Approved, None, None, now), id)
    ensures CanMove(old(db.View()), id, {Deploying}) && log != 0 ==>
      var started := CrashTier.ClaimOrStart(old(db.View()), id, req, runner, now);
      && started.Some? && log == CrashTier.ClaimedLog(old(db.View()), id) && Released(db, manager, log)
      && (!CancelledOutside(plan) ==> CrashTier.Reported(LogOutcome(plan), TicketAfter(r.status)))
      && db.View() == CrashTier.SettleTicket(FinishLog(started.value, log, LogOutcome(plan)), id, TicketAfter(r.status),
                                             if r.status.ExecCancelled? then None else Some(r.deployId), now)
    ensures r.status.ExecOk? ==> log == r.deployId && id in db.tickets && db.tickets[id].deployId == log
                                 && log in db.logs && db.logs[log].status == LogOutcome(plan)
    ensures r.status.ExecOk? <==>
      CanMove(old(db.View()), id, {Deploying}) && Runnable(plan) && !Busy(old(db.View()), req.project) && RunsWell(plan)
    ensures CanMove(old(db.View()), id, {Deploying}) && log != 0 && CrashTier.Outcome(LogOutcome(plan)) ==>
      && (db.tickets[id].status, db.tickets[id].deployId)
          == CrashTier.ThreadWrites(LogOutcome(plan), log, RunRaises(plan))
      && (db.tickets[id].status == CrashTier.TicketFor(LogOutcome(plan)) && db.tickets[id].deployId == log
          <==> !RunRaises(plan))
  {
    hide Valid, InsertRunning, ClaimLog, Newest;
    if !CanMove(db.View(), id, {Deploying}) {
      return ExecResult(ExecFailed, 0), 0;
    }
    TicketIdsArePositive(db.View(), id);
    r, log := ExecuteFromParams(db, manager, req, id, runner, now, plan);
    var to, deployId := TicketAfter(r.status), if r.status.ExecOk? || r.status.ExecFailed? then Some(r.deployId)
      else None;
    MoveKeeps(db.View(), id, {Deploying}, to, None, deployId, now);
    db.Commit(Move(db.View(), id, {Deploying}, to, None, deployId, now));
    if r.status.ExecBusy? {
      ResetPendingDeployRecord(db, id);
    }
  }

  /** For every run that ends ok or failed: a sweep that falls between the log write and the ticket
      write, and the thread's own write, give the ticket the same status and deploy id in either
      order exactly if the run did not raise. */
  lemma RunAndSweepAgreeIff(before: Db, after: Db, id: nat, req: Request, runner: string, started: int, plan: Plan,
                            log: nat, r: ExecResult, written: int, now: int)
    requires Ran(before, after, id, req, runner, started, plan, log, r) && log != 0
    requires id > 0 && CrashTier.DbInv(after) && CanMove(after, id, {Deploying})
    requires log in after.logs && after.logs[log].approvalId == id && CrashTier.Outcome(LogOutcome(plan))
    ensures var to := TicketAfter(r.status);
            var early := Recovery.Recovered(CrashTier.SettleTicket(after, id, to, Some(r.deployId), written), now);
            var late := CrashTier.SettleTicket(Recovery.Recovered(after, now), id, to, Some(r.deployId), written);
            && id in early.tickets && id in late.tickets
            && (CrashTier.SameResult(early.tickets[id], late.tickets[id]) <==> !RunRaises(plan))
  {
    var outcome := LogOutcome(plan);
    var s := CrashTier.Sys(after, map[0 := CrashTier.Exec(id, log, CrashTier.Written(outcome))]);
    hide CrashTier.DbInv, RunRaises, LogOutcome, RunsWell;
    CrashTier.SweepAndThreadAgree(s, 0, RunRaises(plan), written, now);
  }

  /** A run whose log ends ok is nevertheless reported as failed with id 0 exactly if its
      notification raises; a cluster deployer that raises loses the id of its failed log. */
  lemma RaisingHidesLog(before: Db, after: Db, id: nat, req: Request, runner: string, now: int, plan: Plan, log: nat,
          r: ExecResult)
    requires Ran(before, after, id, req, runner, now, plan, log, r) && log != 0
    ensures LogOutcome(plan) == LogOk ==> (r == ExecResult(ExecFailed, 0) <==> plan.notifyRaises)
    ensures LogOutcome(plan) == LogOk ==> (r == ExecResult(ExecOk, log) <==> !plan.notifyRaises)
    ensures plan.OnCluster? && plan.run.ClusterRaises? && !plan.cancelled ==>
      after.logs[log].status == LogFailed && r == ExecResult(ExecFailed, 0)
  {
    if plan.OverSsh? && LogOutcome(plan) == LogOk {
      SuccessNeverStops(plan.targets);
    }
  }

  /** Both cases are within reach of the simplest plans. */
  lemma RaisingPlans()
    ensures var notifies := OverSsh(true, [Target(Returns(true), false)], true);
            Runnable(notifies) && RunRaises(notifies) && LogOutcome(notifies) == LogOk
    ensures var raises := OnCluster(true, ClusterRaises, false, false);
            Runnable(raises) && RunRaises(raises) && LogOutcome(raises) == LogFailed
  {
    var targets := [Target(Returns(true), false)];
    assert Stop(targets) == 1 by {
      assert Stop(targets[1..]) == 0;
    }
    assert forall t :: t in targets ==> t == targets[0];
  }

  /** What is done when run_approval itself raises: the ticket, if it is still claimed, fails (both
      execute routes) or is handed back (the scheduler), and its running log waits again, so that
      the project is free. */
  method SettleAfterRaise(db: Database, id: nat, to: TicketStatus, now: int)
    requires Valid(db.View()) && to in {Failed, Approved}
    modifies db
    ensures Valid(db.View())
    ensures db.View() == ResetRunning(Move(old(db.View()), id, {Deploying}, to, None, None, now), id)
    ensures db.tickets == if !CanMove(old(db.View()), id, {Deploying}) then old(db.tickets)
      else old(db.tickets)[id := old(db.tickets)[id].(status := to, updatedAt := now)]
    ensures !CanMove(db.View(), id, {Deploying}) && (id != 0 ==> !HasLog(db.View(), id, LogRunning))
    ensures forall project :: Busy(db.View(), project) ==> Busy(old(db.View()), project)
  {
    MoveKeeps(db.View(), id, {Deploying}, to, None, None, now);
    db.Commit(Move(db.View(), id, {Deploying}, to, None, None, now));
    ResetPendingDeployRecord(db, id);
  }

  lemma TicketIdsArePositive(db: Db, id: nat)
    requires Valid(db) && id in db.tickets
    ensures id > 0
  {
  }

  // ── The scheduler's pass ──

  /** A due ticket of the pass, with what its execution will meet. */
  datatype Due = Due(id: nat, req: Request, permitted: bool, plan: Plan)

  /** The tickets a pass took from approved to deployed. */
  ghost function NewlyDeployed(before: map<nat, Ticket>, after: map<nat, Ticket>): set<nat> {
    set id | id in before && id in after && before[id].status == Approved && after[id].status == Deployed
  }

  /** run_due_scheduled over the rows it selected. It counts exactly the tickets it deployed. A pass
      leaves no ticket claimed that was not claimed before, writes none that was not due, and keeps
      the schedule of a ticket that lost a race or met a busy project. */
  method RunDueScheduled(db: Database, manager: DeployRunManager, due: seq<Due>, runner: string, now: int)
      returns (executed: nat)
    requires Valid(db.View())
    modifies db, manager
    ensures Valid(db.View()) && executed == |NewlyDeployed(old(db.tickets), db.tickets)|
    ensures db.tickets.Keys == old(db.tickets).Keys
    ensures forall id :: CanMove(db.View(), id, {Deploying}) ==> CanMove(old(db.View()), id, {Deploying})
    ensures forall id :: id in db.tickets && (forall d :: d in due ==> d.id != id) ==>
      db.tickets[id] == old(db.tickets)[id]
    ensures forall id :: id in db.tickets && (forall d :: d in due && d.id == id ==> d.permitted) ==>
      db.tickets[id].scheduledAt == old(db.tickets)[id].scheduledAt
  {
    executed := 0;
    assert NewlyDeployed(db.tickets, db.tickets) == {};
    hide Valid, Busy, RunsWell, Runnable, NewlyDeployed, Passed, TicketReach;
    NothingPassed(db.tickets, due);
    for i := 0 to |due|
      invariant Valid(db.View()) && executed == |NewlyDeployed(old(db.tickets), db.tickets)|
      invariant Passed(old(db.tickets), db.tickets, due, i)
    {
      ghost var before := db.tickets;
      var ok := RunOneDue(db, manager, due[i], runner, now);
      OnePassed(old(db.tickets), before, db.tickets, due, i);
      OneMoreDeployed(old(db.tickets), before, db.tickets, due[i].id, ok);
      executed := executed + if ok then 1 else 0;
    }
    PassedAll(old(db.tickets), db.tickets, due);
  }

  /** What the first n tickets of a pass may have changed. */
  ghost predicate Passed(before: map<nat, Ticket>, after: map<nat, Ticket>, due: seq<Due>, n: nat)
    requires n <= |due|
  {
    && after.Keys == before.Keys
    && (forall id :: id in after && (forall d :: d in due[..n] ==> d.id != id) ==> after[id] == before[id])
    && (forall id :: id in after && (forall d :: d in due && d.id == id ==> d.permitted) ==>
        after[id].scheduledAt == before[id].scheduledAt)
    && (forall id :: id in after ==> TicketReach(before[id].status, after[id].status))
  }

  lemma NothingPassed(tickets: map<nat, Ticket>, due: seq<Due>)
    ensures Passed(tickets, tickets, due, 0)
  {
  }

  lemma OnePassed(start: map<nat, Ticket>, before: map<nat, Ticket>, after: map<nat, Ticket>, due: seq<Due>, i: nat)
    requires i < |due| && Passed(start, before, due, i) && after.Keys == before.Keys
    requires forall id :: id in after && id != due[i].id ==> after[id] == before[id]
    requires due[i].id in after && due[i].permitted ==> after[due[i].id].scheduledAt == before[due[i].id].scheduledAt
    requires due[i].id in after ==> TicketReach(before[due[i].id].status, after[due[i].id].status)
    ensures Passed(start, after, due, i + 1)
    ensures forall id :: id in before ==> TicketReach(start[id].status, before[id].status)
  {
    assert due[..i + 1] == due[..i] + [due[i]] && due[i] in due;
  }

  lemma PassedAll(before: map<nat, Ticket>, after: map<nat, Ticket>, due: seq<Due>)
    requires Passed(before, after, due, |due|)
    ensures after.Keys == before.Keys
    ensures forall id :: id in after && after[id].status == Deploying ==> before[id].status == Deploying
    ensures forall id :: id in after && (forall d :: d in due ==> d.id != id) ==> after[id] == before[id]
    ensures forall id :: id in after && (forall d :: d in due && d.id == id ==> d.permitted) ==>
      after[id].scheduledAt == before[id].scheduledAt
  {
    assert due[..|due|] == due;
  }

  /** What passing over a ticket any number of times can make of its status. */
  predicate TicketReach(from: TicketStatus, to: TicketStatus) {
    from == to || (from == Approved && to in {Deployed, Failed, TicketStatus.Cancelled})
  }

  lemma OneMoreDeployed(start: map<nat, Ticket>, before: map<nat, Ticket>, after: map<nat, Ticket>, id: nat, ok: bool)
    requires before.Keys == start.Keys == after.Keys
    requires forall i :: i in before && i != id ==> after[i] == before[i]
    requires forall i :: i in before ==> TicketReach(start[i].status, before[i].status)
    requires id in before ==> TicketReach(before[id].status, after[id].status)
    requires ok <==> id in before && before[id].status == Approved && after[id].status == Deployed
    ensures |NewlyDeployed(start, after)| == |NewlyDeployed(start, before)| + if ok then 1 else 0
  {
    var was := NewlyDeployed(start, before);
    if ok {
      assert id !in was && NewlyDeployed(start, after) == was + {id};
    } else {
      assert NewlyDeployed(start, after) == was;
    }
  }

  /** One due ticket: it is deployed exactly if it is still approved, its requester is still
      permitted, the project is free and the run goes well. */
  method RunOneDue(db: Database, manager: DeployRunManager, due: Due, runner: string, now: int) returns (ok: bool)
    requires Valid(db.View())
    modifies db, manager
    ensures Valid(db.View()) && db.tickets.Keys == old(db.tickets).Keys
    ensures due.id in db.tickets && db.tickets[due.id].status == Deploying ==>
      old(db.tickets)[due.id].status == Deploying
    ensures forall id :: id in db.tickets && id != due.id ==> db.tickets[id] == old(db.tickets)[id]
    ensures due.id in db.tickets && due.permitted ==>
      db.tickets[due.id].scheduledAt == old(db.tickets)[due.id].scheduledAt
    ensures ok <==> due.id in db.tickets && old(db.tickets)[due.id].status == Approved
                    && db.tickets[due.id].status == Deployed
    ensures ok <==> CanMove(old(db.View()), due.id, {Approved}) && due.permitted && Runnable(due.plan)
                    && !Busy(old(db.View()), due.req.project) && RunsWell(due.plan)
    ensures due.id in db.tickets ==> TicketReach(old(db.tickets)[due.id].status, db.tickets[due.id].status)
    ensures CanMove(old(db.View()), due.id, {Approved}) && !due.permitted ==>
      && db.logs == old(db.logs)
      && db.tickets == old(db.tickets)[due.id := old(db.tickets)[due.id].(scheduledAt := "", updatedAt := now)]
    ensures !CanMove(old(db.View()), due.id, {Approved}) ==> db.View() == old(db.View())
  {
    hide Valid;
    ok := false;
    var requester := if due.id in db.tickets then db.tickets[due.id].requester else "";
    var claim := ClaimForExecution(db, due.id, requester, due.permitted, now);
    if claim.Success? {
      var r, log := RunApproval(db, manager, due.id, due.req, runner, now, due.plan);
      ok := r.status.ExecOk?;
    } else if !claim.error.NotExecutable? {
      ClearScheduleKeeps(db.View(), due.id, now);
      db.Commit(ClearSchedule(db.View(), due.id, now));
    }
  }
}
