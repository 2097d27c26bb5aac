/** Each statement keeps the lock discipline and moves rows along the documented edges only. */
module Statements {
  import opened Wrappers
  import opened Tables

  ghost predicate GoodStep(a: Db, b: Db) {
    Valid(b) && Grows(a, b) && LogsMove(a, b) && TicketsMove(a, b)
  }

  /** The unique index refuses exactly when the project already has a running log. */
  lemma RefusedIffRunning(db: Db, project: string)
    requires Valid(db)
    ensures LockFree(db, project, 0) <==>
            forall id :: id in db.logs && db.logs[id].status == LogRunning ==> db.logs[id].project != project
  {
    forall id | id in db.logs
      ensures db.logs[id].lockKey == Some(project)
        <==> db.logs[id].status == LogRunning && db.logs[id].project == project
    {
      assert LockMatches(db.logs[id]);
    }
  }

  lemma InsertRunningKeeps(db: Db, req: Request, approvalId: nat, runner: string, now: int)
    requires Valid(db) && InsertRunning(db, req, approvalId, runner, now).Some?
    ensures GoodStep(db, InsertRunning(db, req, approvalId, runner, now).value)
  {
    RefusedIffRunning(db, req.project);
  }

  lemma ClaimLogKeeps(db: Db, id: nat, project: string, runner: string, now: int)
    requires Valid(db) && ClaimLog(db, id, project, runner, now).Some?
    ensures GoodStep(db, ClaimLog(db, id, project, runner, now).value)
  {
    if id in db.logs && db.logs[id].status == LogPending {
      assert LockMatches(db.logs[id]);
      RefusedIffRunning(db, project);
    }
  }

  lemma NoChangeKeeps(db: Db)
    requires Valid(db)
    ensures GoodStep(db, db)
  {
  }

  lemma InsertPendingKeeps(db: Db, req: Request, approvalId: nat)
    requires Valid(db)
    ensures GoodStep(db, InsertPending(db, req, approvalId))
  {
  }

  lemma ResetKeeps(db: Db, id: nat)
    requires Valid(db)
    ensures GoodStep(db, ResetRunning(db, id))
  {
  }

  lemma CloseKeeps(db: Db, id: nat, outcome: LogStatus)
    requires Valid(db)
    ensures GoodStep(db, ClosePending(db, id, outcome))
  {
  }

  lemma FinishKeeps(db: Db, id: nat, outcome: LogStatus)
    requires Valid(db) && EndStatus(outcome)
    ensures GoodStep(db, FinishLog(db, id, outcome))
  {
  }

  lemma FinishProjectKeeps(db: Db, project: string, outcome: LogStatus)
    requires Valid(db) && EndStatus(outcome)
    ensures GoodStep(db, FinishByProject(db, project, outcome))
  {
    var after := FinishByProject(db, project, outcome);
    forall id | id in db.logs
      ensures LockMatches(after.logs[id]) && LogEdge(db.logs[id].status, after.logs[id].status)
      ensures after.logs[id].project == db.logs[id].project && after.logs[id].approvalId == db.logs[id].approvalId
      ensures after.logs[id].status == LogRunning ==> db.logs[id].status == LogRunning
    {
      assert LockMatches(db.logs[id]);
    }
    assert after.logs.Keys == db.logs.Keys && after.tickets == db.tickets;
    assert after.nextLog == db.nextLog && after.nextTicket == db.nextTicket;
    hide FinishByProject, LockMatches, LogEdge;
  }

  lemma CancelKeeps(db: Db, id: nat)
    requires Valid(db)
    ensures GoodStep(db, CancelLog(db, id))
  {
  }

  lemma InsertTicketKeeps(db: Db, project: string, requester: string, scheduledAt: string, needsApproval: bool,
          now: int)
    requires Valid(db)
    ensures GoodStep(db, InsertTicket(db, project, requester, scheduledAt, needsApproval, now))
  {
  }

  lemma HeartbeatKeeps(db: Db, ids: set<nat>, runner: string, now: int)
    requires Valid(db)
    ensures GoodStep(db, Heartbeat(db, ids, runner, now))
  {
  }

  lemma InterruptKeeps(db: Db, now: int, staleSeconds: int)
    requires Valid(db)
    ensures GoodStep(db, InterruptStale(db, now, staleSeconds))
  {
  }

  lemma RequeueKeeps(db: Db)
    requires Valid(db)
    ensures GoodStep(db, RequeueInterrupted(db))
  {
  }

  lemma MoveKeeps(db: Db, id: nat, from: set<TicketStatus>, to: TicketStatus, approver: Option<string>,
          deployId: Option<nat>, now: int)
    requires Valid(db) && forall s :: s in from ==> TicketEdge(s, to)
    ensures GoodStep(db, Move(db, id, from, to, approver, deployId, now))
  {
  }

  lemma ClearScheduleKeeps(db: Db, id: nat, now: int)
    requires Valid(db)
    ensures GoodStep(db, ClearSchedule(db, id, now))
  {
  }

  lemma ConvergeKeeps(db: Db, outcome: LogStatus, to: TicketStatus, now: int)
    requires Valid(db) && to in {Deployed, Failed}
    ensures GoodStep(db, Converge(db, outcome, to, now))
  {
  }

  lemma ReturnOrphansKeeps(db: Db, now: int)
    requires Valid(db)
    ensures GoodStep(db, ReturnOrphans(db, now))
  {
  }
}
