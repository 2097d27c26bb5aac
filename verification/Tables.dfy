/** The two tables of the protocol, `cd_approvals` (tickets) and `cd_deploy_logs` (logs),
    and every SQL statement that writes them, each as one atomic step on the pair.
    A missing and an empty text column are the same value here: every query treats them alike. */
module Tables {
  import opened Wrappers
  import opened Text

  datatype TicketStatus = Pending | Approved | Deploying | Deployed | Failed | Rejected | Cancelled

  datatype LogStatus =
    | LogPending | LogRunning | LogOk | LogFailed | LogPartial
    | LogTerminated | LogInterrupted | LogRejected | LogCancelled

  datatype Ticket = Ticket(
    project: string, requester: string, approver: string, status: TicketStatus,
    deployId: nat, scheduledAt: string, updatedAt: int)

  /** The stored request (`params_json`): absent, unreadable, or readable with its mode and tag. */
  datatype Snapshot = NoSnapshot | Unreadable | Readable(mode: string, tag: string)

  datatype DeployLog = DeployLog(
    project: string, tag: string, mode: string, snapshot: Snapshot, approvalId: nat,
    status: LogStatus, lockKey: Option<string>, runner: string, heartbeatAt: string)

  datatype Db = Db(tickets: map<nat, Ticket>, logs: map<nat, DeployLog>, nextTicket: nat, nextLog: nat)

  const EMPTY_DB := Db(map[], map[], 1, 1)

  /** What an insert supplies for the columns that never depend on the protocol. */
  datatype Request = Request(project: string, tag: string, mode: string, snapshot: Snapshot)

  // ── Queries ──

  /** `SELECT id ... ORDER BY id DESC LIMIT 1` among the ids below a bound. */
  function Newest(logs: map<nat, DeployLog>, below: nat, p: DeployLog -> bool): (r: Option<nat>)
    ensures r.Some? ==> r.value < below && r.value in logs && p(logs[r.value])
    ensures r.Some? ==> forall j: nat :: r.value < j < below && j in logs ==> !p(logs[j])
    ensures r.None? ==> forall j: nat :: j < below && j in logs ==> !p(logs[j])
  {
    if below == 0 then None
    else if below - 1 in logs && p(logs[below - 1]) then Some(below - 1)
    else Newest(logs, below - 1, p)
  }

  predicate HasLog(db: Db, approvalId: nat, status: LogStatus) {
    exists id :: id in db.logs && db.logs[id].approvalId == approvalId && db.logs[id].status == status
  }

  function NewestLog(db: Db, approvalId: nat, status: LogStatus): (r: Option<nat>)
    ensures r.Some? ==>
      r.value in db.logs && db.logs[r.value].approvalId == approvalId && db.logs[r.value].status == status
    ensures r.Some? ==> forall j: nat :: r.value < j < db.nextLog && j in db.logs ==>
      !(db.logs[j].approvalId == approvalId && db.logs[j].status == status)
    ensures r.None? ==> forall j: nat :: j < db.nextLog && j in db.logs ==>
      !(db.logs[j].approvalId == approvalId && db.logs[j].status == status)
  {
    Newest(db.logs, db.nextLog, (l: DeployLog) => l.approvalId == approvalId && l.status == status)
  }

  /** The unique index on `lock_key` accepts this value on row `except`. */
  predicate LockFree(db: Db, project: string, except: nat) {
    forall id :: id in db.logs && id != except ==> db.logs[id].lockKey != Some(project)
  }

  // ── Statements on cd_deploy_logs ──

  /** start_deploy_record; None is the integrity error of the unique index. */
  function InsertRunning(db: Db, req: Request, approvalId: nat, runner: string, now: int): Option<Db> {
    if !LockFree(db, req.project, 0) then None
    else
      var row := DeployLog(req.project, req.tag, req.mode, req.snapshot, approvalId,
                           LogRunning, Some(req.project), runner, Pad13(now));
      Some(db.(logs := db.logs[db.nextLog := row], nextLog := db.nextLog + 1))
  }

  /** create_pending_deploy_record */
  function InsertPending(db: Db, req: Request, approvalId: nat): Db {
    var row := DeployLog(req.project, req.tag, req.mode, req.snapshot, approvalId, LogPending, None, "", "");
    db.(logs := db.logs[db.nextLog := row], nextLog := db.nextLog + 1)
  }

  /** The UPDATE of claim_pending_deploy_record on a row selected before; None is the integrity error. */
  function ClaimLog(db: Db, id: nat, project: string, runner: string, now: int): Option<Db> {
    if id !in db.logs || db.logs[id].status != LogPending then Some(db)
    else if !LockFree(db, project, id) then None
    else
      var row := db.logs[id].(status := LogRunning, lockKey := Some(project), project := project,
                              runner := runner, heartbeatAt := Pad13(now));
      Some(db.(logs := db.logs[id := row]))
  }

  /** reset_pending_deploy_record */
  function ResetRunning(db: Db, approvalId: nat): Db {
    if approvalId == 0 then db
    else
      db.(logs := map id | id in db.logs ::
        var l := db.logs[id];
        if l.approvalId == approvalId && l.status == LogRunning then l.(status := LogPending, lockKey := None) else l)
  }

  /** mark_approval_log_terminal */
  function ClosePending(db: Db, approvalId: nat, status: LogStatus): Db {
    if approvalId == 0 || !(status.LogRejected? || status.LogCancelled?) then db
    else
      db.(logs := map id | id in db.logs ::
        var l := db.logs[id];
        if l.approvalId == approvalId && l.status == LogPending then l.(status := status, lockKey := None) else l)
  }

  /** finish_deploy_record by id: a terminated finish writes whatever the row's state is. */
  function FinishLog(db: Db, id: nat, status: LogStatus): Db {
    if id in db.logs && (status == LogTerminated || db.logs[id].status == LogRunning)
    then db.(logs := db.logs[id := db.logs[id].(status := status, lockKey := None)])
    else db
  }

  /** finish_deploy_record without an id: every running row of the project, or of all projects. */
  function FinishByProject(db: Db, project: string, status: LogStatus): Db {
    db.(logs := map id | id in db.logs ::
      var l := db.logs[id];
      if l.status == LogRunning && (project == "" || l.project == project)
      then l.(status := status, lockKey := None) else l)
  }

  /** mark_deploy_cancelled */
  function CancelLog(db: Db, id: nat): Db {
    if id in db.logs && db.logs[id].status == LogRunning
    then db.(logs := db.logs[id := db.logs[id].(status := LogTerminated, lockKey := None)])
    else db
  }

  /** One round of the heartbeat thread. */
  function Heartbeat(db: Db, ids: set<nat>, runner: string, now: int): Db {
    db.(logs := map id | id in db.logs ::
      var l := db.logs[id];
      if id in ids && l.runner == runner && l.status == LogRunning then l.(heartbeatAt := Pad13(now)) else l)
  }

  /** The WHERE clause of recover_stale_running. */
  predicate IsStale(l: DeployLog, now: int, staleSeconds: int) {
    l.status == LogRunning &&
    (l.runner == "" || l.heartbeatAt == "" || StrLess(l.heartbeatAt, Pad13(now - staleSeconds)))
  }

  function InterruptStale(db: Db, now: int, staleSeconds: int): Db {
    db.(logs := map id | id in db.logs ::
      var l := db.logs[id];
      if IsStale(l, now, staleSeconds) then l.(status := LogInterrupted, lockKey := None) else l)
  }

  /** The last UPDATE of recover_on_startup. */
  function RequeueInterrupted(db: Db): Db {
    db.(logs := map id | id in db.logs ::
      var l := db.logs[id];
      if l.approvalId > 0 && l.status == LogInterrupted then l.(status := LogPending, lockKey := None) else l)
  }

  // ── Statements on cd_approvals ──

  function InsertTicket(db: Db, project: string, requester: string, scheduledAt: string, needsApproval: bool,
          now: int): Db {
    var t := Ticket(project, requester, "", if needsApproval then Pending else Approved, 0, scheduledAt, now);
    db.(tickets := db.tickets[db.nextTicket := t], nextTicket := db.nextTicket + 1)
  }

  /** The rowcount test of _transition. */
  predicate CanMove(db: Db, id: nat, from: set<TicketStatus>) {
    id in db.tickets && db.tickets[id].status in from
  }

  /** _transition with the optional `approver` and `deploy_id` fields. */
  function Move(db: Db, id: nat, from: set<TicketStatus>, to: TicketStatus, approver: Option<string>,
          deployId: Option<nat>, now: int): Db {
    if !CanMove(db, id, from) then db
    else
      var t := db.tickets[id];
      var t' := t.(status := to, updatedAt := now,
                   approver := if approver.Some? then approver.value else t.approver,
                   deployId := if deployId.Some? then deployId.value else t.deployId);
      db.(tickets := db.tickets[id := t'])
  }

  /** The schedule is cleared only while the ticket is still approved. */
  function ClearSchedule(db: Db, id: nat, now: int): Db {
    if CanMove(db, id, {Approved})
    then db.(tickets := db.tickets[id := db.tickets[id].(scheduledAt := "", updatedAt := now)])
    else db
  }

  /** Recovery: a deploying ticket whose log already ended in `log` takes the matching outcome. */
  function Converge(db: Db, log: LogStatus, to: TicketStatus, now: int): Db {
    db.(tickets := map id | id in db.tickets ::
      var t := db.tickets[id];
      if t.status == Deploying && id > 0 && HasLog(db, id, log) then
        var newest := NewestLog(db, id, log);
        t.(status := to, updatedAt := now, deployId := if newest.Some? then newest.value else 0)
      else t)
  }

  /** Recovery: the remaining deploying tickets without a running log go back to approved. */
  function ReturnOrphans(db: Db, now: int): Db {
    db.(tickets := map id | id in db.tickets ::
      var t := db.tickets[id];
      if t.status == Deploying && !HasLog(db, id, LogRunning) then t.(status := Approved, updatedAt := now) else t)
  }

  // ── What every statement keeps ──

  predicate Final(s: LogStatus) {
    s in {LogOk, LogFailed, LogPartial, LogTerminated, LogRejected, LogCancelled}
  }

  predicate EndStatus(s: LogStatus) {
    s in {LogOk, LogFailed, LogPartial, LogTerminated}
  }

  ghost predicate IdsFresh(db: Db) {
    0 < db.nextTicket && 0 < db.nextLog
    && (forall id :: id in db.tickets ==> 0 < id < db.nextTicket)
    && (forall id :: id in db.logs ==> 0 < id < db.nextLog)
  }

  /** A row holds the lock of its project exactly while it runs. */
  predicate LockMatches(l: DeployLog) {
    l.lockKey == if l.status == LogRunning then Some(l.project) else None
  }

  ghost predicate LocksMatch(db: Db) {
    forall id :: id in db.logs ==> LockMatches(db.logs[id])
  }

  /** At most one log of a project is running. */
  ghost predicate OneRunning(db: Db) {
    forall i, j ::
      && i in db.logs && j in db.logs
      && db.logs[i].status == db.logs[j].status == LogRunning && db.logs[i].project == db.logs[j].project
      ==> i == j
  }

  ghost predicate Valid(db: Db) {
    IdsFresh(db) && LocksMatch(db) && OneRunning(db)
  }

  /** Rows are never deleted; a log keeps its ticket, a ticket its requester. */
  ghost predicate Grows(a: Db, b: Db) {
    a.nextLog <= b.nextLog && a.nextTicket <= b.nextTicket
    && (forall id :: id in a.logs ==> id in b.logs && b.logs[id].approvalId == a.logs[id].approvalId)
    && (forall id :: id in a.tickets ==> id in b.tickets && b.tickets[id].requester == a.tickets[id].requester)
  }

  /** How one statement may move a log: a final status stays, except that a terminated finish
      may overwrite it; an interrupted log of a ticket may be queued again. */
  predicate LogEdge(a: LogStatus, b: LogStatus) {
    a == b
    || (a == LogPending && b in {LogRunning, LogRejected, LogCancelled})
    || (a == LogRunning && b in {LogPending, LogOk, LogFailed, LogPartial, LogInterrupted})
    || (a == LogInterrupted && b == LogPending)
    || b == LogTerminated
  }

  /** The documented edges of the ticket state machine. */
  predicate TicketEdge(a: TicketStatus, b: TicketStatus) {
    a == b
    || (a == Pending && b in {Approved, Rejected, Cancelled})
    || (a == Approved && b in {Deploying, Cancelled})
    || (a == Deploying && b in {Approved, Deployed, Failed, Cancelled})
  }

  ghost predicate LogsMove(a: Db, b: Db) {
    forall id :: id in a.logs && id in b.logs ==> LogEdge(a.logs[id].status, b.logs[id].status)
  }

  ghost predicate TicketsMove(a: Db, b: Db) {
    forall id :: id in a.tickets && id in b.tickets ==> TicketEdge(a.tickets[id].status, b.tickets[id].status)
  }
}
