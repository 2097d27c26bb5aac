/** The life cycle of deploy logs, as the services call it (`backend/deploy_run.py`). */
module DeployRun {
  import opened Wrappers
  import opened Tables
  import opened Text
  import opened Statements
  import opened Store
  import opened CancelRegistry

  /** The ValueError raised when the unique index refuses a second running log. */
  datatype RunError = ProjectBusy(project: string)

  /** A project is busy when one of its logs runs. */
  ghost predicate Busy(db: Db, project: string) {
    exists id :: id in db.logs && db.logs[id].status == LogRunning && db.logs[id].project == project
  }

  lemma BusyIffLocked(db: Db, project: string)
    requires Valid(db)
    ensures Busy(db, project) <==> !LockFree(db, project, 0)
  {
    RefusedIffRunning(db, project);
  }

  lemma PendingHoldsNoLock(db: Db, id: nat, project: string)
    requires Valid(db) && id in db.logs && db.logs[id].status == LogPending
    ensures LockFree(db, project, id) <==> LockFree(db, project, 0)
  {
    assert LockMatches(db.logs[id]);
  }

  method StartDeployRecord(db: Database, req: Request, approvalId: nat, runner: string, now: int)
    returns (r: Result<nat, RunError>)
    requires Valid(db.View())
    modifies db
    ensures Valid(db.View())
    ensures r.Failure? <==> Busy(old(db.View()), req.project)
    ensures r.Failure? ==> db.View() == old(db.View())
    ensures r.Success? ==> Some(db.View()) == InsertRunning(old(db.View()), req, approvalId, runner, now)
    ensures r.Success? ==> r.value == old(db.nextLog) && db.tickets == old(db.tickets)
    ensures r.Success? ==>
      db.logs == old(db.logs)[r.value := DeployLog(req.project, req.tag, req.mode, req.snapshot, approvalId, LogRunning,
                                                   Some(req.project), runner, Pad13(now))]
  {
    BusyIffLocked(db.View(), req.project);
    var inserted := InsertRunning(db.View(), req, approvalId, runner, now);
    match inserted
    case None => r := Failure(ProjectBusy(req.project));
    case Some(db') =>
      InsertRunningKeeps(db.View(), req, approvalId, runner, now);
      r := Success(db.nextLog);
      db.Commit(db');
  }

  method CreatePendingDeployRecord(db: Database, req: Request, approvalId: nat) returns (id: nat)
    requires Valid(db.View())
    modifies db
    ensures Valid(db.View()) && db.View() == InsertPending(old(db.View()), req, approvalId)
    ensures id == old(db.nextLog) && db.tickets == old(db.tickets)
    ensures db.logs == old(db.logs)[id := DeployLog(req.project, req.tag, req.mode, req.snapshot, approvalId,
                                                    LogPending, None, "", "")]
  {
    InsertPendingKeeps(db.View(), req, approvalId);
    id := db.nextLog;
    db.Commit(InsertPending(db.View(), req, approvalId));
  }

  /** 0 asks the caller to start a new log: no ticket, or a ticket without a pending log. The
      newest pending log of the ticket is the one that runs. */
  method ClaimPendingDeployRecord(db: Database, project: string, approvalId: nat, runner: string, now: int)
    returns (r: Result<nat, RunError>)
    requires Valid(db.View())
    modifies db
    ensures Valid(db.View())
    ensures r.Failure?
      <==> approvalId != 0 && HasLog(old(db.View()), approvalId, LogPending) && Busy(old(db.View()), project)
    ensures r == Success(0) <==> approvalId == 0 || !HasLog(old(db.View()), approvalId, LogPending)
    ensures r.Failure? || r == Success(0) ==> db.View() == old(db.View())
    ensures r.Success? && r.value != 0 ==>
      && NewestLog(old(db.View()), approvalId, LogPending) == Some(r.value)
      && Some(db.View()) == ClaimLog(old(db.View()), r.value, project, runner, now)
      && r.value in old(db.logs) && db.tickets == old(db.tickets)
      && db.logs == old(db.logs)[r.value := old(db.logs)[r.value].(status := LogRunning, lockKey := Some(project),
            project := project, runner := runner, heartbeatAt := Pad13(now))]
  {
    if approvalId == 0 {
      return Success(0);
    }
    var row := NewestLog(db.View(), approvalId, LogPending);
    match row
    case None =>
      r := Success(0);
    case Some(id) =>
      BusyIffLocked(db.View(), project);
      PendingHoldsNoLock(db.View(), id, project);
      var claimed := ClaimLog(db.View(), id, project, runner, now);
      match claimed {
        case None => r := Failure(ProjectBusy(project));
        case Some(db') =>
          ClaimLogKeeps(db.View(), id, project, runner, now);
          r := Success(id);
          db.Commit(db');
      }
  }

  method ResetPendingDeployRecord(db: Database, approvalId: nat)
    requires Valid(db.View())
    modifies db
    ensures Valid(db.View()) && db.View() == ResetRunning(old(db.View()), approvalId)
    ensures db.tickets == old(db.tickets) && db.logs.Keys == old(db.logs).Keys
    ensures forall l :: l in db.logs ==>
      var was := old(db.logs)[l];
      db.logs[l] == if approvalId != 0 && was.approvalId == approvalId && was.status == LogRunning
        then was.(status := LogPending, lockKey := None) else was
    ensures approvalId != 0 ==> !HasLog(db.View(), approvalId, LogRunning)
  {
    ResetKeeps(db.View(), approvalId);
    db.Commit(ResetRunning(db.View(), approvalId));
  }

  method MarkApprovalLogTerminal(db: Database, approvalId: nat, status: LogStatus)
    requires Valid(db.View())
    modifies db
    ensures Valid(db.View()) && db.View() == ClosePending(old(db.View()), approvalId, status)
    ensures db.tickets == old(db.tickets) && db.logs.Keys == old(db.logs).Keys
    ensures forall l :: l in db.logs ==>
      var was := old(db.logs)[l];
      var closes := status in {LogRejected, LogCancelled} && approvalId != 0 && was.approvalId == approvalId;
      db.logs[l] == if closes && was.status == LogPending then was.(status := status, lockKey := None) else was
    ensures approvalId != 0 && status in {LogRejected, LogCancelled} ==> !HasLog(db.View(), approvalId, LogPending)
  {
    CloseKeeps(db.View(), approvalId, status);
    db.Commit(ClosePending(db.View(), approvalId, status));
  }

  method FinishDeployRecord(db: Database, deployId: nat, status: LogStatus, project: string)
    requires Valid(db.View()) && EndStatus(status)
    modifies db
    ensures Valid(db.View())
    ensures db.View() == if deployId != 0 then FinishLog(old(db.View()), deployId, status)
                         else FinishByProject(old(db.View()), project, status)
    ensures db.tickets == old(db.tickets) && db.logs.Keys == old(db.logs).Keys
    ensures forall l :: l in db.logs ==>
      var was := old(db.logs)[l];
      var chosen := if deployId != 0 then l == deployId && (status == LogTerminated || was.status == LogRunning)
        else was.status == LogRunning && (project == "" || was.project == project);
      db.logs[l] == if chosen then was.(status := status, lockKey := None) else was
    ensures deployId in db.logs && deployId != 0 ==> db.logs[deployId].status != LogRunning
    ensures deployId == 0 && project != "" ==> !Busy(db.View(), project)
  {
    if deployId != 0 {
      FinishKeeps(db.View(), deployId, status);
      db.Commit(FinishLog(db.View(), deployId, status));
    } else {
      FinishProjectKeeps(db.View(), project, status);
      db.Commit(FinishByProject(db.View(), project, status));
    }
  }

  /** The signal is set first, so the running thread sees it even when the row was already final. */
  method MarkDeployCancelled(db: Database, manager: DeployRunManager, deployId: nat) returns (success: bool)
    requires Valid(db.View())
    modifies db, manager
    ensures Valid(db.View()) && db.View() == CancelLog(old(db.View()), deployId)
    ensures manager.events == After(old(manager.events), Op.Cancel(deployId)) && manager.IsCancelled(deployId)
    ensures success <==> deployId in old(db.logs) && old(db.logs)[deployId].status == LogRunning
    ensures db.tickets == old(db.tickets)
    ensures db.logs == if !success then old(db.logs)
                       else old(db.logs)[deployId := old(db.logs)[deployId].(status := LogTerminated, lockKey := None)]
  {
    var ok := manager.Cancel(deployId);
    CancelKeeps(db.View(), deployId);
    success := deployId in db.logs && db.logs[deployId].status == LogRunning;
    db.Commit(CancelLog(db.View(), deployId));
  }

  /** cancel_checker_for: the local signal, or a row another instance took out of running. */
  method IsCancelRequested(db: Database, manager: DeployRunManager, deployId: nat) returns (cancelled: bool)
    ensures cancelled
      <==> manager.IsCancelled(deployId) || (deployId in db.logs && db.logs[deployId].status != LogRunning)
  {
    if manager.IsCancelled(deployId) {
      return true;
    }
    cancelled := deployId in db.logs && db.logs[deployId].status != LogRunning;
  }

  /** One round of the heartbeat loop over this process's deploys. */
  method HeartbeatRound(db: Database, manager: DeployRunManager, runner: string, now: int)
    requires Valid(db.View())
    modifies db
    ensures Valid(db.View()) && db.View() == Heartbeat(old(db.View()), manager.ActiveIds(), runner, now)
    ensures db.tickets == old(db.tickets) && db.logs.Keys == old(db.logs).Keys
    ensures forall l :: l in db.logs ==>
      var was := old(db.logs)[l];
      db.logs[l] == if l in manager.events && was.runner == runner && was.status == LogRunning
        then was.(heartbeatAt := Pad13(now)) else was
  {
    var ids := manager.ActiveIds();
    HeartbeatKeeps(db.View(), ids, runner, now);
    if ids == {} {
      assert Heartbeat(db.View(), ids, runner, now).logs == db.logs;
      return;
    }
    db.Commit(Heartbeat(db.View(), ids, runner, now));
  }

  method RecoverStaleRunning(db: Database, now: int, staleSeconds: int) returns (recovered: nat)
    requires Valid(db.View())
    modifies db
    ensures Valid(db.View()) && db.View() == InterruptStale(old(db.View()), now, staleSeconds)
    ensures db.tickets == old(db.tickets) && db.logs.Keys == old(db.logs).Keys
    ensures forall l :: l in db.logs ==>
      var was := old(db.logs)[l];
      var dead := was.status == LogRunning && (was.runner == "" || was.heartbeatAt == ""
                                               || StrLess(was.heartbeatAt, Pad13(now - staleSeconds)));
      db.logs[l] == if dead then was.(status := LogInterrupted, lockKey := None) else was
    ensures recovered == |set id | id in old(db.logs) && IsStale(old(db.logs)[id], now, staleSeconds)|
    ensures recovered == 0 <==> db.View() == old(db.View())
  {
    hide IsStale, InterruptStale;
    recovered := |set id | id in db.logs && IsStale(db.logs[id], now, staleSeconds)|;
    InterruptIsValid(db.View(), now, staleSeconds);
    InterruptedRows(db.View(), now, staleSeconds);
    NothingStale(db.View(), now, staleSeconds);
    db.Commit(InterruptStale(db.View(), now, staleSeconds));
  }

  lemma InterruptIsValid(db: Db, now: int, staleSeconds: int)
    requires Valid(db)
    ensures Valid(InterruptStale(db, now, staleSeconds))
  {
    InterruptKeeps(db, now, staleSeconds);
  }

  lemma InterruptedRows(db: Db, now: int, staleSeconds: int)
    ensures var db' := InterruptStale(db, now, staleSeconds);
            && db'.tickets == db.tickets && db'.logs.Keys == db.logs.Keys
            && forall l :: l in db.logs ==>
                 var was := db.logs[l];
                 var dead := was.status == LogRunning && (was.runner == "" || was.heartbeatAt == ""
                                                          || StrLess(was.heartbeatAt, Pad13(now - staleSeconds)));
                 db'.logs[l] == if dead then was.(status := LogInterrupted, lockKey := None) else was
  {
    hide StrLess, Pad13;
  }

  lemma NothingStale(db: Db, now: int, staleSeconds: int)
    ensures |set id | id in db.logs && IsStale(db.logs[id], now, staleSeconds)| == 0
      <==> InterruptStale(db, now, staleSeconds) == db
  {
    hide StrLess, Pad13;
    var stale := set id | id in db.logs && IsStale(db.logs[id], now, staleSeconds);
    var db' := InterruptStale(db, now, staleSeconds);
    if stale == {} {
      forall id | id in db.logs
        ensures db'.logs[id] == db.logs[id]
      {
        assert id !in stale;
      }
      assert db'.logs == db.logs;
    } else {
      var id :| id in stale;
      assert db'.logs[id].status == LogInterrupted != db.logs[id].status;
    }
  }
}
