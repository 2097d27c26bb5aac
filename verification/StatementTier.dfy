/** The protocol with every SQL statement as one step, under any interleaving of any number of
    threads and instances. A thread carries only the ticket it has claimed. */
module StatementTier {
  import opened Wrappers
  import opened Tables
  import opened Statements
  import opened Text

  /** The store, and for each thread that executes a ticket the ticket it claimed. */
  datatype Sys = Sys(db: Db, threads: map<nat, nat>)

  datatype Step =
    | SubmitTicket(project: string, requester: string, scheduledAt: string, needsApproval: bool, now: int)
    | SubmitLog(req: Request, approvalId: nat)
    | Approve(id: nat, user: string, now: int)
    | Reject(id: nat, user: string, now: int)
    | Withdraw(id: nat, now: int)
    | CloseLogs(id: nat, outcome: LogStatus)
    | ClaimTicket(thread: nat, id: nat, now: int)
    | ClaimPending(thread: nat, logId: nat, project: string, runner: string, now: int)
    | StartForTicket(thread: nat, req: Request, runner: string, now: int)
    | StartDirect(req: Request, runner: string, now: int)
    | EndThread(thread: nat)
    | Finish(logId: nat, outcome: LogStatus)
    | FinishProject(project: string, outcome: LogStatus)
    | CancelRun(logId: nat)
    | Reset(id: nat)
    | SettleTicket(id: nat, to: TicketStatus, deployId: Option<nat>, now: int)
    | Unschedule(id: nat, now: int)
    | Beat(logIds: set<nat>, runner: string, now: int)
    | RecoverStale(now: int, staleSeconds: int)
    | ConvergeOk(now: int)
    | ConvergeFailed(now: int)
    | RecoverOrphans(now: int)
    | Requeue

  /** Four eyes: nobody decides on a ticket of their own, compared after trimming. */
  predicate SelfApproval(requester: string, user: string) {
    Strip(requester) != "" && Strip(user) != "" && Strip(requester) == Strip(user)
  }

  /** What the code checks before it issues the statement. */
  predicate Enabled(s: Sys, step: Step) {
    match step
    case SubmitLog(_, id) => id in s.db.tickets
    case Approve(id, user, _) => id in s.db.tickets && !SelfApproval(s.db.tickets[id].requester, user)
    case Reject(id, user, _) => id in s.db.tickets && !SelfApproval(s.db.tickets[id].requester, user)
    case ClaimTicket(thread, id, _) => thread !in s.threads
    case ClaimPending(thread, logId, _, _, _) =>
      thread in s.threads && logId in s.db.logs && s.db.logs[logId].approvalId == s.threads[thread]
    case StartForTicket(thread, _, _, _) => thread in s.threads
    case Finish(_, outcome) => EndStatus(outcome)
    case FinishProject(_, outcome) => EndStatus(outcome)
    case SettleTicket(_, to, _, _) => to in {Approved, Deployed, Failed, Cancelled}
    case _ => true
  }

  function Written(db: Db, r: Option<Db>): Db {
    if r.Some? then r.value else db
  }

  function Statement(s: Sys, step: Step): Db {
    var db := s.db;
    match step
    case SubmitTicket(p, r, at, needs, now) => InsertTicket(db, p, r, at, needs, now)
    case SubmitLog(req, id) => InsertPending(db, req, id)
    case Approve(id, user, now) => Move(db, id, {Pending}, Approved, Some(user), None, now)
    case Reject(id, user, now) => Move(db, id, {Pending}, Rejected, Some(user), None, now)
    case Withdraw(id, now) => Move(db, id, {Pending, Approved}, Cancelled, None, None, now)
    case CloseLogs(id, outcome) => ClosePending(db, id, outcome)
    case ClaimTicket(_, id, now) => Move(db, id, {Approved}, Deploying, None, None, now)
    case ClaimPending(_, logId, p, runner, now) => Written(db, ClaimLog(db, logId, p, runner, now))
    case StartForTicket(thread, req, runner, now) =>
      if thread in s.threads then Written(db, InsertRunning(db, req, s.threads[thread], runner, now)) else db
    case StartDirect(req, runner, now) => Written(db, InsertRunning(db, req, 0, runner, now))
    case EndThread(_) => db
    case Finish(logId, outcome) => FinishLog(db, logId, outcome)
    case FinishProject(p, outcome) => FinishByProject(db, p, outcome)
    case CancelRun(logId) => CancelLog(db, logId)
    case Reset(id) => ResetRunning(db, id)
    case SettleTicket(id, to, deployId, now) => Move(db, id, {Deploying}, to, None, deployId, now)
    case Unschedule(id, now) => ClearSchedule(db, id, now)
    case Beat(ids, runner, now) => Heartbeat(db, ids, runner, now)
    case RecoverStale(now, staleSeconds) => InterruptStale(db, now, staleSeconds)
    case ConvergeOk(now) => Converge(db, LogOk, Deployed, now)
    case ConvergeFailed(now) => Converge(db, LogFailed, Failed, now)
    case RecoverOrphans(now) => ReturnOrphans(db, now)
    case Requeue => RequeueInterrupted(db)
  }

  function Threads(s: Sys, step: Step): map<nat, nat> {
    match step
    case ClaimTicket(thread, id, _) => if CanMove(s.db, id, {Approved}) then s.threads[thread := id] else s.threads
    case EndThread(thread) => s.threads - {thread}
    case _ => s.threads
  }

  function Next(s: Sys, step: Step): Sys {
    if Enabled(s, step) then Sys(Statement(s, step), Threads(s, step)) else s
  }

  const INIT := Sys(EMPTY_DB, map[])

  function Run(s: Sys, steps: seq<Step>): Sys {
    if steps == [] then s else Next(Run(s, steps[..|steps| - 1]), steps[|steps| - 1])
  }

  lemma {:induction false} RunConcat(s: Sys, a: seq<Step>, b: seq<Step>)
    ensures Run(s, a + b) == Run(Run(s, a), b)
    decreases |b|
  {
    hide Next;
    if b == [] {
      assert a + b == a;
    } else {
      var n := |b| - 1;
      RunConcat(s, a, b[..n]);
      assert (a + b)[..|a + b| - 1] == a + b[..n];
    }
  }

  lemma RunOne(s: Sys, step: Step)
    ensures Run(s, [step]) == Next(s, step)
  {
    hide Next;
    assert [step][..0] == [];
  }

  lemma RunFirst(s: Sys, step: Step, rest: seq<Step>)
    ensures Run(s, [step] + rest) == Run(Next(s, step), rest)
  {
    RunConcat(s, [step], rest);
    RunOne(s, step);
  }

  // ── The project lock ──

  /** Every step keeps the lock discipline and moves rows along the documented edges. */
  lemma StepKeeps(s: Sys, step: Step)
    requires Valid(s.db)
    ensures GoodStep(s.db, Next(s, step).db)
  {
    hide GoodStep;
    NoChangeKeeps(s.db);
    if WritesTickets(step) {
      TicketStepKeeps(s, step);
    } else if StartsLog(step) {
      StartStepKeeps(s, step);
    } else {
      LogStepKeeps(s, step);
    }
  }

  predicate WritesTickets(step: Step) {
    step.SubmitTicket? || step.Approve? || step.Reject? || step.Withdraw? || step.ClaimTicket? || step.SettleTicket?
    || step.Unschedule? || step.ConvergeOk? || step.ConvergeFailed? || step.RecoverOrphans?
  }

  predicate StartsLog(step: Step) {
    step.SubmitLog? || step.ClaimPending? || step.StartForTicket? || step.StartDirect?
  }

  lemma TicketStepKeeps(s: Sys, step: Step)
    requires Valid(s.db) && WritesTickets(step)
    ensures GoodStep(s.db, Next(s, step).db)
  {
    hide GoodStep;
    NoChangeKeeps(s.db);
    match step
    case SubmitTicket(p, r, at, needs, now) => InsertTicketKeeps(s.db, p, r, at, needs, now);
    case Approve(id, user, now) => MoveKeeps(s.db, id, {Pending}, Approved, Some(user), None, now);
    case Reject(id, user, now) => MoveKeeps(s.db, id, {Pending}, Rejected, Some(user), None, now);
    case Withdraw(id, now) => MoveKeeps(s.db, id, {Pending, Approved}, Cancelled, None, None, now);
    case ClaimTicket(_, id, now) => MoveKeeps(s.db, id, {Approved}, Deploying, None, None, now);
    case SettleTicket(id, to, deployId, now) =>
      if Enabled(s, step) {
        MoveKeeps(s.db, id, {Deploying}, to, None, deployId, now);
      }
    case Unschedule(id, now) => ClearScheduleKeeps(s.db, id, now);
    case ConvergeOk(now) => ConvergeKeeps(s.db, LogOk, Deployed, now);
    case ConvergeFailed(now) => ConvergeKeeps(s.db, LogFailed, Failed, now);
    case RecoverOrphans(now) => ReturnOrphansKeeps(s.db, now);
  }

  lemma StartStepKeeps(s: Sys, step: Step)
    requires Valid(s.db) && StartsLog(step)
    ensures GoodStep(s.db, Next(s, step).db)
  {
    hide GoodStep;
    NoChangeKeeps(s.db);
    match step
    case SubmitLog(req, id) => InsertPendingKeeps(s.db, req, id);
    case ClaimPending(_, logId, p, runner, now) =>
      if ClaimLog(s.db, logId, p, runner, now).Some? {
        ClaimLogKeeps(s.db, logId, p, runner, now);
      }
    case StartForTicket(thread, req, runner, now) =>
      if thread in s.threads && InsertRunning(s.db, req, s.threads[thread], runner, now).Some? {
        InsertRunningKeeps(s.db, req, s.threads[thread], runner, now);
      }
    case StartDirect(req, runner, now) =>
      if InsertRunning(s.db, req, 0, runner, now).Some? {
        InsertRunningKeeps(s.db, req, 0, runner, now);
      }
  }

  lemma LogStepKeeps(s: Sys, step: Step)
    requires Valid(s.db) && !WritesTickets(step) && !StartsLog(step)
    ensures GoodStep(s.db, Next(s, step).db)
  {
    hide GoodStep;
    NoChangeKeeps(s.db);
    match step
    case EndThread(_) =>
    case CloseLogs(id, outcome) => CloseKeeps(s.db, id, outcome);
    case Reset(id) => ResetKeeps(s.db, id);
    case Finish(logId, outcome) =>
      if EndStatus(outcome) {
        FinishKeeps(s.db, logId, outcome);
      }
    case FinishProject(p, outcome) =>
      if EndStatus(outcome) {
        FinishProjectKeeps(s.db, p, outcome);
      }
    case CancelRun(logId) => CancelKeeps(s.db, logId);
    case Beat(ids, runner, now) => HeartbeatKeeps(s.db, ids, runner, now);
    case RecoverStale(now, staleSeconds) => InterruptKeeps(s.db, now, staleSeconds);
    case Requeue => RequeueKeeps(s.db);
  }

  /** On every run a log holds a lock exactly while it runs, the lock is its project, and no
      project has two running logs. */
  lemma {:induction false} ProjectLock(steps: seq<Step>)
    ensures Valid(Run(INIT, steps).db)
  {
    if steps != [] {
      ProjectLock(steps[..|steps| - 1]);
      StepKeeps(Run(INIT, steps[..|steps| - 1]), steps[|steps| - 1]);
    }
  }

  /** What the statements outside an execution do: a cancel terminates and unlocks exactly a running
      log, a finish without an id ends every running log of its project, or of all if it names none,
      and a schedule is cleared exactly while its ticket is approved. */
  lemma OutsideStatements(s: Sys, id: nat, project: string, outcome: LogStatus, now: int)
    requires EndStatus(outcome)
    ensures id in s.db.logs ==>
      var l, l' := s.db.logs[id], Next(s, CancelRun(id)).db.logs[id];
      l' == if l.status == LogRunning then l.(status := LogTerminated, lockKey := None) else l
    ensures var db' := Next(s, FinishProject(project, outcome)).db;
            && db'.logs.Keys == s.db.logs.Keys && db'.tickets == s.db.tickets
            && forall k :: k in s.db.logs ==>
                 var l := s.db.logs[k];
                 db'.logs[k] == if l.status == LogRunning && (project == "" || l.project == project)
                   then l.(status := outcome, lockKey := None) else l
    ensures Next(s, Unschedule(id, now)).db.tickets
      == if id in s.db.tickets && s.db.tickets[id].status == Approved
         then s.db.tickets[id := s.db.tickets[id].(scheduledAt := "", updatedAt := now)] else s.db.tickets
  {
  }

  lemma TicketStepsKeepLogs(s: Sys, step: Step)
    requires WritesTickets(step)
    ensures Next(s, step).db.logs == s.db.logs
  {
  }

  /** A step overwrites a final log only when it is the terminated finish of that very log. */
  lemma FinalStep(s: Sys, step: Step, logId: nat)
    requires IdsFresh(s.db) && logId in s.db.logs && Final(s.db.logs[logId].status)
    ensures logId in Next(s, step).db.logs
    ensures var status := Next(s, step).db.logs[logId].status;
            status == if step == Finish(logId, LogTerminated) then LogTerminated else s.db.logs[logId].status
  {
    hide LockFree, StrLess, Move, Converge, ReturnOrphans, InsertTicket, ClearSchedule, Threads, SelfApproval, Pad13;
    if WritesTickets(step) {
      TicketStepsKeepLogs(s, step);
    } else {
      match step
      case EndThread(_) =>
      case CloseLogs(id, outcome) =>
      case Reset(id) =>
      case Finish(id, outcome) =>
      case FinishProject(p, outcome) =>
      case Beat(ids, runner, now) =>
      case RecoverStale(now, staleSeconds) =>
      case _ =>
    }
  }

  /** A finished log never waits or runs again, and a cancelled one stays cancelled whatever
      other finishes arrive later. Without a terminated finish of it the outcome never changes. */
  lemma {:induction false} FinishedForGood(s: Sys, steps: seq<Step>, logId: nat)
    requires Valid(s.db) && logId in s.db.logs && Final(s.db.logs[logId].status)
    ensures Valid(Run(s, steps).db) && logId in Run(s, steps).db.logs
    ensures var status := Run(s, steps).db.logs[logId].status;
            status == if Finish(logId, LogTerminated) in steps then LogTerminated else s.db.logs[logId].status
  {
    if steps != [] {
      var n := |steps| - 1;
      FinishedForGood(s, steps[..n], logId);
      StepKeeps(Run(s, steps[..n]), steps[n]);
      FinalStep(Run(s, steps[..n]), steps[n], logId);
      assert steps == steps[..n] + [steps[n]];
    }
  }
}
