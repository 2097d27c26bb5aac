/** The execution of tickets with crashes, recoveries and re-executions. Claiming a ticket with
    its log is one step and so is finishing a run, but a thread may die anywhere between the two
    writes of a finish, and for ok and failed runs other steps may also come between them. */
module CrashTier {
  import opened Wrappers
  import opened Tables
  import opened Text
  import opened Statements
  import opened Recovery

  /** A live thread runs its log, or has written the log's outcome but not yet the ticket. */
  datatype Phase = Running | Written(outcome: LogStatus)

  datatype Exec = Exec(ticket: nat, log: nat, phase: Phase)

  datatype Sys = Sys(db: Db, live: map<nat, Exec>)

  datatype Step =
    | Submit(project: string, requester: string, scheduledAt: string, needsApproval: bool, now: int)
    | SubmitLog(req: Request, id: nat)
    | Approve(id: nat, user: string, now: int)
    | Reject(id: nat, user: string, now: int)
    | Withdraw(id: nat, now: int)
    | CloseLogs(id: nat, outcome: LogStatus)
    | Execute(thread: nat, id: nat, req: Request, runner: string, now: int)
    | ExecuteRefused(thread: nat, id: nat, to: TicketStatus, now: int)
    | CrashBeforeLog(thread: nat, id: nat, now: int)
    | StartDirect(thread: nat, req: Request, runner: string, now: int)
    | Finish(thread: nat, outcome: LogStatus, to: TicketStatus, deployId: Option<nat>, now: int)
    | WriteLog(thread: nat, outcome: LogStatus)
    | WriteTicket(thread: nat, to: TicketStatus, deployId: Option<nat>, now: int)
    | FinishThenCrash(thread: nat, outcome: LogStatus)
    | Crash(thread: nat)
    | Beat(logIds: set<nat>, runner: string, now: int)
    | Recover(now: int)

  /** The newest pending log of the ticket is claimed; without one a new log starts. */
  function ClaimOrStart(db: Db, ticket: nat, req: Request, runner: string, now: int): Option<Db> {
    var newest := NewestLog(db, ticket, LogPending);
    if ticket != 0 && newest.Some? then ClaimLog(db, newest.value, req.project, runner, now)
    else InsertRunning(db, req, ticket, runner, now)
  }

  function ClaimedLog(db: Db, ticket: nat): nat {
    var newest := NewestLog(db, ticket, LogPending);
    if ticket != 0 && newest.Some? then newest.value else db.nextLog
  }

  /** The ticket statuses run_approval may write after this outcome; a run that is ok is still
      reported as failed when its notification raises. */
  predicate Reported(outcome: LogStatus, to: TicketStatus) {
    match outcome
    case LogOk => to == Deployed || to == Failed
    case LogTerminated => to == Cancelled
    case _ => to == Failed
  }

  predicate Outcome(s: LogStatus) {
    s == LogOk || s == LogFailed
  }

  predicate LiveFresh(s: Sys, now: int) {
    forall t :: t in s.live && s.live[t].phase.Running? && s.live[t].log in s.db.logs
                ==> !IsStale(s.db.logs[s.live[t].log], now, STALE_SECONDS)
  }

  predicate Enabled(s: Sys, step: Step) {
    match step
    case SubmitLog(_, id) => id in s.db.tickets
    case Execute(thread, id, _, _, _) => thread !in s.live && CanMove(s.db, id, {Approved}) && id > 0
    case ExecuteRefused(thread, id, to, _) =>
      thread !in s.live && CanMove(s.db, id, {Approved}) && (to == Failed || to == Approved)
    case CrashBeforeLog(thread, id, _) => thread !in s.live && CanMove(s.db, id, {Approved})
    case StartDirect(thread, _, _, _) => thread !in s.live
    case Finish(thread, outcome, to, _, _) =>
      thread in s.live && s.live[thread].phase.Running? && EndStatus(outcome) && Reported(outcome, to)
    case WriteLog(thread, outcome) => thread in s.live && s.live[thread].phase.Running? && Outcome(outcome)
    case WriteTicket(thread, to, _, _) =>
      thread in s.live && s.live[thread].phase.Written? && Reported(s.live[thread].phase.outcome, to)
    case FinishThenCrash(thread, outcome) => thread in s.live && s.live[thread].phase.Running? && EndStatus(outcome)
    case Crash(thread) => thread in s.live
    case Recover(now) => LiveFresh(s, now)
    case _ => true
  }

  function SettleTicket(db: Db, ticket: nat, to: TicketStatus, deployId: Option<nat>, now: int): Db {
    if ticket == 0 then db else Move(db, ticket, {Deploying}, to, None, deployId, now)
  }

  /** Claims the ticket, then its log; busy hands the ticket back. */
  function ExecuteDb(db: Db, id: nat, req: Request, runner: string, now: int): Db {
    var claimed := Move(db, id, {Approved}, Deploying, None, None, now);
    var started := ClaimOrStart(claimed, id, req, runner, now);
    if started.Some? then started.value
    else ResetRunning(Move(claimed, id, {Deploying}, Approved, None, None, now), id)
  }

  function NextDb(s: Sys, step: Step): Db
    requires Enabled(s, step)
  {
    var db := s.db;
    match step
    case Submit(p, r, at, needs, now) => InsertTicket(db, p, r, at, needs, now)
    case SubmitLog(req, id) => InsertPending(db, req, id)
    case Approve(id, user, now) => Move(db, id, {Pending}, Approved, Some(user), None, now)
    case Reject(id, user, now) => Move(db, id, {Pending}, Rejected, Some(user), None, now)
    case Withdraw(id, now) => Move(db, id, {Pending, Approved}, Cancelled, None, None, now)
    case CloseLogs(id, outcome) => ClosePending(db, id, outcome)
    case Execute(_, id, req, runner, now) => ExecuteDb(db, id, req, runner, now)
    case ExecuteRefused(_, id, to, now) =>
      Move(Move(db, id, {Approved}, Deploying, None, None, now), id, {Deploying}, to, None, None, now)
    case CrashBeforeLog(_, id, now) => Move(db, id, {Approved}, Deploying, None, None, now)
    case StartDirect(_, req, runner, now) =>
      var started := InsertRunning(db, req, 0, runner, now);
      if started.Some? then started.value else db
    case Finish(thread, outcome, to, deployId, now) =>
      SettleTicket(FinishLog(db, s.live[thread].log, outcome), s.live[thread].ticket, to, deployId, now)
    case WriteLog(thread, outcome) => FinishLog(db, s.live[thread].log, outcome)
    case WriteTicket(thread, to, deployId, now) => SettleTicket(db, s.live[thread].ticket, to, deployId, now)
    case FinishThenCrash(thread, outcome) => FinishLog(db, s.live[thread].log, outcome)
    case Crash(_) => db
    case Beat(ids, runner, now) => Heartbeat(db, ids, runner, now)
    case Recover(now) => Recovered(db, now)
  }

  function NextLive(s: Sys, step: Step): map<nat, Exec>
    requires Enabled(s, step)
  {
    match step
    case Execute(thread, id, req, runner, now) =>
      var claimed := Move(s.db, id, {Approved}, Deploying, None, None, now);
      if ClaimOrStart(claimed, id, req, runner, now).Some? then
        s.live[thread := Exec(id, ClaimedLog(claimed, id), Running)] else s.live
    case StartDirect(thread, req, runner, now) =>
      if InsertRunning(s.db, req, 0, runner, now).Some? then s.live[thread := Exec(0, s.db.nextLog, Running)]
        else s.live
    case WriteLog(thread, outcome) => s.live[thread := s.live[thread].(phase := Written(outcome))]
    case Finish(thread, _, _, _, _) => s.live - {thread}
    case WriteTicket(thread, _, _, _) => s.live - {thread}
    case FinishThenCrash(thread, _) => s.live - {thread}
    case Crash(thread) => s.live - {thread}
    case _ => s.live
  }

  function Next(s: Sys, step: Step): Sys {
    if Enabled(s, step) then Sys(NextDb(s, step), NextLive(s, step)) else s
  }

  const INIT := Sys(EMPTY_DB, map[])

  function Run(s: Sys, steps: seq<Step>): Sys {
    if steps == [] then s else Next(Run(s, steps[..|steps| - 1]), steps[|steps| - 1])
  }

  // ── The invariant ──

  /** A running log of a ticket: the ticket is deploying, and it is the ticket's only running log. */
  ghost predicate RunsMatchTickets(db: Db) {
    && (forall l :: RunsFor(db, l) ==> CanMove(db, db.logs[l].approvalId, {Deploying}))
    && (forall i, j :: RunsFor(db, i) && RunsFor(db, j) && db.logs[i].approvalId == db.logs[j].approvalId ==> i == j)
  }

  /** An ok or failed log of a ticket is its only one; the ticket is spent or about to be, and
      nothing of it runs. */
  ghost predicate OutcomesAreFinal(db: Db) {
    && (forall l :: EndedFor(db, l) ==> CanMove(db, db.logs[l].approvalId, {Deploying, Deployed, Failed}))
    && (forall i, j :: EndedFor(db, i) && EndedFor(db, j) && db.logs[i].approvalId == db.logs[j].approvalId ==> i == j)
    && (forall i, j :: EndedFor(db, i) && RunsFor(db, j) ==> db.logs[i].approvalId != db.logs[j].approvalId)
  }

  predicate RunsFor(db: Db, l: nat) {
    l in db.logs && db.logs[l].status == LogRunning && db.logs[l].approvalId > 0
  }

  predicate EndedFor(db: Db, l: nat) {
    l in db.logs && Outcome(db.logs[l].status) && db.logs[l].approvalId > 0
  }

  predicate ExecMatches(db: Db, e: Exec) {
    && e.log in db.logs && db.logs[e.log].approvalId == e.ticket
    && match e.phase
       case Running => db.logs[e.log].status == LogRunning
       case Written(outcome) => Outcome(outcome) && db.logs[e.log].status == outcome
  }

  /** Every live executor owns its log, and the log is in the executor's phase. */
  ghost predicate LiveMatches(s: Sys) {
    && (forall t :: t in s.live ==> ExecMatches(s.db, s.live[t]))
    && (forall t, u :: t in s.live && u in s.live && t != u ==> s.live[t].log != s.live[u].log)
  }

  ghost predicate Inv(s: Sys) {
    DbInv(s.db) && LiveMatches(s)
  }

  ghost predicate DbInv(db: Db) {
    Valid(db) && RunsMatchTickets(db) && OutcomesAreFinal(db)
  }

  // ── Each step keeps it ──

  predicate Active(s: LogStatus) {
    s == LogRunning || Outcome(s)
  }

  /** No run starts or ends and no ticket leaves deploying or its outcome. */
  ghost predicate Quiet(a: Db, b: Db) {
    && (forall l :: l in a.logs && Active(a.logs[l].status)
          ==> l in b.logs && b.logs[l].status == a.logs[l].status && b.logs[l].approvalId == a.logs[l].approvalId)
    && (forall l :: l in b.logs && Active(b.logs[l].status) ==> l in a.logs && Active(a.logs[l].status))
    && (forall id :: CanMove(a, id, {Deploying, Deployed, Failed}) ==>
        id in b.tickets && b.tickets[id].status == a.tickets[id].status)
  }

  lemma QuietKeepsDb(a: Db, b: Db)
    requires DbInv(a) && Valid(b) && Quiet(a, b)
    ensures DbInv(b)
  {
    hide Valid, RunsMatchTickets, OutcomesAreFinal, Quiet;
    QuietKeepsRuns(a, b);
    QuietKeepsOutcomes(a, b);
  }

  lemma QuietKeepsRuns(a: Db, b: Db)
    requires RunsMatchTickets(a) && Quiet(a, b)
    ensures RunsMatchTickets(b)
  {
    assert forall l :: RunsFor(b, l) <==> RunsFor(a, l);
  }

  lemma QuietKeepsOutcomes(a: Db, b: Db)
    requires OutcomesAreFinal(a) && Quiet(a, b)
    ensures OutcomesAreFinal(b)
  {
    assert forall l :: RunsFor(b, l) <==> RunsFor(a, l);
    assert forall l :: EndedFor(b, l) <==> EndedFor(a, l);
  }

  lemma QuietKeepsLive(s: Sys, db': Db)
    requires LiveMatches(s) && Quiet(s.db, db')
    ensures LiveMatches(Sys(db', s.live))
  {
    assert forall t :: t in s.live ==> ExecMatches(s.db, s.live[t]);
  }

  lemma QuietKeeps(s: Sys, db': Db)
    requires Inv(s) && Valid(db') && Quiet(s.db, db')
    ensures Inv(Sys(db', s.live))
  {
    hide Valid, Quiet, DbInv, LiveMatches;
    QuietKeepsDb(s.db, db');
    QuietKeepsLive(s, db');
  }

  lemma InsertTicketQuiet(db: Db, p: string, r: string, at: string, needs: bool, now: int)
    requires Valid(db)
    ensures var db' := InsertTicket(db, p, r, at, needs, now); Valid(db') && Quiet(db, db')
  {
  }

  lemma InsertPendingQuiet(db: Db, req: Request, id: nat)
    requires Valid(db)
    ensures var db' := InsertPending(db, req, id); Valid(db') && Quiet(db, db')
  {
  }

  lemma ClosePendingQuiet(db: Db, id: nat, outcome: LogStatus)
    requires Valid(db)
    ensures var db' := ClosePending(db, id, outcome); Valid(db') && Quiet(db, db')
  {
    hide Valid, GoodStep;
    CloseIsValid(db, id, outcome);
  }

  lemma CloseIsValid(db: Db, id: nat, outcome: LogStatus)
    requires Valid(db)
    ensures Valid(ClosePending(db, id, outcome))
  {
    CloseKeeps(db, id, outcome);
  }

  lemma HeartbeatQuiet(db: Db, ids: set<nat>, runner: string, now: int)
    requires Valid(db)
    ensures var db' := Heartbeat(db, ids, runner, now); Valid(db') && Quiet(db, db')
  {
    HeartbeatKeeps(db, ids, runner, now);
  }

  lemma DecisionQuiet(db: Db, id: nat, from: set<TicketStatus>, to: TicketStatus, approver: Option<string>, now: int)
    requires Valid(db) && from <= {Pending, Approved}
    ensures var db' := Move(db, id, from, to, approver, None, now); Valid(db') && Quiet(db, db')
  {
  }

  /** A run starts on a ticket just claimed, or on none: nothing of that ticket runs or ended. */
  ghost predicate Startable(db: Db, ticket: nat) {
    ticket > 0 ==>
      && CanMove(db, ticket, {Deploying})
      && (forall l :: RunsFor(db, l) || EndedFor(db, l) ==> db.logs[l].approvalId != ticket)
  }

  ghost predicate Starts(a: Db, b: Db, ticket: nat, log: nat) {
    && b.tickets == a.tickets
    && log in b.logs && b.logs == a.logs[log := b.logs[log]]
    && b.logs[log].status == LogRunning && b.logs[log].approvalId == ticket
    && (log in a.logs ==> a.logs[log].status == LogPending)
  }

  lemma StartKeepsRuns(a: Db, b: Db, ticket: nat, log: nat)
    requires RunsMatchTickets(a) && Startable(a, ticket) && Starts(a, b, ticket, log)
    ensures RunsMatchTickets(b)
  {
    assert forall l :: RunsFor(b, l) && l != log ==> RunsFor(a, l);
  }

  lemma StartKeepsOutcomes(a: Db, b: Db, ticket: nat, log: nat)
    requires OutcomesAreFinal(a) && Startable(a, ticket) && Starts(a, b, ticket, log)
    ensures OutcomesAreFinal(b)
  {
    assert forall l :: RunsFor(b, l) && l != log ==> RunsFor(a, l);
    assert forall l :: EndedFor(b, l) ==> EndedFor(a, l) && l != log;
  }

  lemma StartKeepsLive(s: Sys, thread: nat, db': Db, ticket: nat, log: nat)
    requires LiveMatches(s) && thread !in s.live && Starts(s.db, db', ticket, log)
    ensures LiveMatches(Sys(db', s.live[thread := Exec(ticket, log, Running)]))
  {
    assert forall t :: t in s.live ==> ExecMatches(s.db, s.live[t]) && s.live[t].log != log;
  }

  lemma ClaimOrStartResult(db: Db, ticket: nat, req: Request, runner: string, now: int)
    requires Valid(db)
    ensures var r, log := ClaimOrStart(db, ticket, req, runner, now), ClaimedLog(db, ticket);
            r.Some? ==> Valid(r.value) && Starts(db, r.value, ticket, log)
  {
    var newest := NewestLog(db, ticket, LogPending);
    if ClaimOrStart(db, ticket, req, runner, now).Some? {
      if ticket != 0 && newest.Some? {
        ClaimLogKeeps(db, newest.value, req.project, runner, now);
      } else {
        InsertRunningKeeps(db, req, ticket, runner, now);
      }
    }
  }

  lemma RunStarts(s: Sys, thread: nat, ticket: nat, req: Request, runner: string, now: int)
    requires Inv(s) && thread !in s.live && Startable(s.db, ticket)
    requires ClaimOrStart(s.db, ticket, req, runner, now).Some?
    ensures Inv(Sys(ClaimOrStart(s.db, ticket, req, runner, now).value,
                    s.live[thread := Exec(ticket, ClaimedLog(s.db, ticket), Running)]))
  {
    hide Valid, Starts, LiveMatches, RunsMatchTickets, OutcomesAreFinal, Startable, ClaimOrStart, ClaimedLog;
    ClaimOrStartResult(s.db, ticket, req, runner, now);
    var db', log := ClaimOrStart(s.db, ticket, req, runner, now).value, ClaimedLog(s.db, ticket);
    StartKeepsRuns(s.db, db', ticket, log);
    StartKeepsOutcomes(s.db, db', ticket, log);
    StartKeepsLive(s, thread, db', ticket, log);
  }

  lemma StartDirectKeeps(s: Sys, step: Step)
    requires Inv(s) && Enabled(s, step) && step.StartDirect?
    ensures Inv(Next(s, step))
  {
    hide Inv, InsertRunning;
    assert ClaimOrStart(s.db, 0, step.req, step.runner, step.now)
      == InsertRunning(s.db, step.req, 0, step.runner, step.now);
    if InsertRunning(s.db, step.req, 0, step.runner, step.now).Some? {
      RunStarts(s, step.thread, 0, step.req, step.runner, step.now);
    }
  }

  /** Nothing of an approved ticket runs or has ended. */
  lemma ApprovedIsStartable(db: Db, id: nat, now: int)
    requires DbInv(db) && CanMove(db, id, {Approved})
    ensures var claimed := Move(db, id, {Approved}, Deploying, None, None, now);
            Valid(claimed) && Quiet(db, claimed) && Startable(claimed, id)
  {
    var claimed := Move(db, id, {Approved}, Deploying, None, None, now);
    DecisionQuiet(db, id, {Approved}, Deploying, None, now);
    hide Valid;
    assert forall l :: RunsFor(claimed, l) <==> RunsFor(db, l);
    assert forall l :: EndedFor(claimed, l) <==> EndedFor(db, l);
  }

  lemma HandBackQuiet(db: Db, id: nat, now: int)
    requires Valid(db) && CanMove(db, id, {Approved})
    requires forall l :: RunsFor(db, l) ==> db.logs[l].approvalId != id
    ensures var claimed := Move(db, id, {Approved}, Deploying, None, None, now);
            var db' := ResetRunning(Move(claimed, id, {Deploying}, Approved, None, None, now), id);
            Valid(db') && Quiet(db, db')
  {
    var claimed := Move(db, id, {Approved}, Deploying, None, None, now);
    var back := Move(claimed, id, {Deploying}, Approved, None, None, now);
    var db' := ResetRunning(back, id);
    assert db'.logs == db.logs by {
      forall l | l in db.logs
        ensures db'.logs[l] == db.logs[l]
      {
        assert id != 0 && db.logs[l].status == LogRunning ==> RunsFor(db, l) || db.logs[l].approvalId == 0;
      }
    }
  }

  lemma ExecuteKeeps(s: Sys, step: Step)
    requires Inv(s) && Enabled(s, step) && step.Execute?
    ensures Inv(Next(s, step))
  {
    var claimed := Move(s.db, step.id, {Approved}, Deploying, None, None, step.now);
    ApprovedIsStartable(s.db, step.id, step.now);
    QuietKeeps(s, claimed);
    if ClaimOrStart(claimed, step.id, step.req, step.runner, step.now).Some? {
      hide Valid, Quiet, Startable, DbInv, LiveMatches, ClaimOrStart, ClaimedLog;
      RunStarts(Sys(claimed, s.live), step.thread, step.id, step.req, step.runner, step.now);
    } else {
      assert forall l :: RunsFor(s.db, l) ==> s.db.logs[l].approvalId != step.id;
      HandBackQuiet(s.db, step.id, step.now);
      hide Valid, Quiet, Startable, DbInv, LiveMatches;
      QuietKeeps(s, ExecuteDb(s.db, step.id, step.req, step.runner, step.now));
    }
  }

  predicate NothingRuns(db: Db, ticket: nat)
  {
    forall l :: l in db.logs && db.logs[l].approvalId == ticket ==> db.logs[l].status != LogRunning
  }

  predicate NothingEnded(db: Db, ticket: nat) {
    forall l :: l in db.logs && db.logs[l].approvalId == ticket ==> !Outcome(db.logs[l].status)
  }

  lemma EndKeepsRuns(db: Db, log: nat, outcome: LogStatus)
    requires RunsMatchTickets(db) && RunsFor(db, log) && EndStatus(outcome)
    ensures RunsMatchTickets(FinishLog(db, log, outcome))
    ensures NothingRuns(FinishLog(db, log, outcome), db.logs[log].approvalId)
  {
    var db' := FinishLog(db, log, outcome);
    assert forall l :: RunsFor(db', l) ==> RunsFor(db, l) && l != log;
    forall l | l in db'.logs && db'.logs[l].approvalId == db.logs[log].approvalId
      ensures db'.logs[l].status != LogRunning
    {
      assert RunsFor(db', l) ==> RunsFor(db, l) && l != log;
    }
  }

  lemma EndKeepsOutcomes(db: Db, log: nat, outcome: LogStatus)
    requires RunsMatchTickets(db) && OutcomesAreFinal(db) && RunsFor(db, log) && EndStatus(outcome)
    ensures OutcomesAreFinal(FinishLog(db, log, outcome))
    ensures !Outcome(outcome) ==> NothingEnded(FinishLog(db, log, outcome), db.logs[log].approvalId)
  {
    var db', ticket := FinishLog(db, log, outcome), db.logs[log].approvalId;
    assert forall l :: RunsFor(db', l) ==> RunsFor(db, l) && l != log && db.logs[l].approvalId != ticket;
    assert forall l :: EndedFor(db', l) && l != log ==> EndedFor(db, l) && db.logs[l].approvalId != ticket;
    if !Outcome(outcome) {
      forall l | l in db'.logs && db'.logs[l].approvalId == ticket
        ensures !Outcome(db'.logs[l].status)
      {
        assert Outcome(db'.logs[l].status) ==> EndedFor(db', l);
      }
    }
  }

  /** A run outside any ticket ends: nothing of any ticket changes. */
  lemma EndDirectKeeps(db: Db, log: nat, outcome: LogStatus)
    requires RunsMatchTickets(db) && OutcomesAreFinal(db) && EndStatus(outcome)
    requires log in db.logs && db.logs[log].approvalId == 0
    ensures RunsMatchTickets(FinishLog(db, log, outcome)) && OutcomesAreFinal(FinishLog(db, log, outcome))
  {
    var db' := FinishLog(db, log, outcome);
    assert forall l :: l in db.logs && db.logs[l].approvalId > 0 ==> db'.logs[l] == db.logs[l];
    FewerRuns(db, db');
  }

  /** Dropping runs and outcomes cannot break what holds of all of them. */
  lemma FewerRuns(a: Db, b: Db)
    requires b.tickets == a.tickets
    requires forall l :: RunsFor(b, l) ==> RunsFor(a, l) && b.logs[l].approvalId == a.logs[l].approvalId
    requires forall l :: EndedFor(b, l) ==> EndedFor(a, l) && b.logs[l].approvalId == a.logs[l].approvalId
    ensures RunsMatchTickets(a) ==> RunsMatchTickets(b)
    ensures OutcomesAreFinal(a) ==> OutcomesAreFinal(b)
  {
  }

  lemma EndKeepsDb(db: Db, log: nat, ticket: nat, outcome: LogStatus)
    requires DbInv(db) && EndStatus(outcome)
    requires log in db.logs && db.logs[log].status == LogRunning && db.logs[log].approvalId == ticket
    ensures DbInv(FinishLog(db, log, outcome))
    ensures ticket > 0 ==> NothingRuns(FinishLog(db, log, outcome), ticket)
                           && (Outcome(outcome) || NothingEnded(FinishLog(db, log, outcome), ticket))
  {
    hide Valid, RunsMatchTickets, OutcomesAreFinal, NothingRuns, NothingEnded, FinishLog, GoodStep;
    assert Valid(FinishLog(db, log, outcome)) by {
      FinishIsValid(db, log, outcome);
    }
    if ticket > 0 {
      EndKeepsRuns(db, log, outcome);
      EndKeepsOutcomes(db, log, outcome);
    } else {
      EndDirectKeeps(db, log, outcome);
    }
  }

  lemma FinishIsValid(db: Db, log: nat, outcome: LogStatus)
    requires Valid(db) && EndStatus(outcome)
    ensures Valid(FinishLog(db, log, outcome))
  {
    FinishKeeps(db, log, outcome);
  }

  lemma EndKeepsLive(s: Sys, thread: nat, outcome: LogStatus)
    requires LiveMatches(s) && thread in s.live && s.live[thread].phase.Running? && EndStatus(outcome)
    ensures var db' := FinishLog(s.db, s.live[thread].log, outcome);
            && LiveMatches(Sys(db', s.live - {thread}))
            && (Outcome(outcome) ==>
                LiveMatches(Sys(db', s.live[thread := s.live[thread].(phase := Written(outcome))])))
  {
    assert forall t :: t in s.live ==> ExecMatches(s.db, s.live[t]);
  }

  lemma SettleKeepsDb(db: Db, ticket: nat, to: TicketStatus, deployId: Option<nat>, now: int)
    requires DbInv(db) && (ticket > 0 ==> NothingRuns(db, ticket))
    requires to in {Deployed, Failed} || (to == Cancelled && (ticket > 0 ==> NothingEnded(db, ticket)))
    ensures DbInv(SettleTicket(db, ticket, to, deployId, now))
  {
    var db' := SettleTicket(db, ticket, to, deployId, now);
    if ticket > 0 {
      SettleIsValid(db, ticket, to, deployId, now);
      hide Valid;
      assert forall l :: RunsFor(db', l) <==> RunsFor(db, l);
      assert forall l :: EndedFor(db', l) <==> EndedFor(db, l);
    }
  }

  lemma SettleIsValid(db: Db, ticket: nat, to: TicketStatus, deployId: Option<nat>, now: int)
    requires Valid(db) && to in {Deployed, Failed, Cancelled}
    ensures Valid(Move(db, ticket, {Deploying}, to, None, deployId, now))
  {
    MoveKeeps(db, ticket, {Deploying}, to, None, deployId, now);
  }

  lemma FinishesKeep(s: Sys, step: Step)
    requires Inv(s) && Enabled(s, step) && (step.Finish? || step.WriteLog? || step.FinishThenCrash?)
    ensures Inv(Next(s, step))
  {
    var e := s.live[step.thread];
    assert ExecMatches(s.db, e);
    var ended := FinishLog(s.db, e.log, step.outcome);
    EndKeepsLive(s, step.thread, step.outcome);
    EndKeepsDb(s.db, e.log, e.ticket, step.outcome);
    if step.Finish? {
      SettleKeepsDb(ended, e.ticket, step.to, step.deployId, step.now);
      SameLogsKeepLive(ended, SettleTicket(ended, e.ticket, step.to, step.deployId, step.now), s.live - {step.thread});
    }
    hide DbInv, LiveMatches, FinishLog, Move, NothingRuns, NothingEnded;
  }

  lemma SameLogsKeepLive(a: Db, b: Db, live: map<nat, Exec>)
    requires LiveMatches(Sys(a, live)) && b.logs == a.logs
    ensures LiveMatches(Sys(b, live))
  {
    assert forall t :: t in live ==> ExecMatches(a, live[t]);
  }

  lemma FewerLive(s: Sys, thread: nat)
    requires LiveMatches(s)
    ensures LiveMatches(Sys(s.db, s.live - {thread}))
  {
  }

  /** The late ticket write after an ok or failed log: nothing of the ticket runs any more. */
  lemma WriteTicketKeeps(s: Sys, step: Step)
    requires Inv(s) && Enabled(s, step) && step.WriteTicket?
    ensures Inv(Next(s, step))
  {
    var e := s.live[step.thread];
    assert ExecMatches(s.db, e);
    if e.ticket > 0 {
      assert EndedFor(s.db, e.log);
      forall l | l in s.db.logs && s.db.logs[l].approvalId == e.ticket
        ensures s.db.logs[l].status != LogRunning
      {
        assert s.db.logs[l].status == LogRunning ==> RunsFor(s.db, l);
      }
    }
    var db' := SettleTicket(s.db, e.ticket, step.to, step.deployId, step.now);
    SettleKeepsDb(s.db, e.ticket, step.to, step.deployId, step.now);
    SameLogsKeepLive(s.db, db', s.live);
    FewerLive(Sys(db', s.live), step.thread);
    hide DbInv, LiveMatches, Move;
  }

  // ── Recovery ──

  lemma InterruptKeepsDb(db: Db, now: int)
    requires DbInv(db)
    ensures DbInv(InterruptStale(db, now, STALE_SECONDS))
  {
    var a := InterruptStale(db, now, STALE_SECONDS);
    InterruptIsValid(db, now);
    FewerRuns(db, a);
  }

  lemma InterruptIsValid(db: Db, now: int)
    requires Valid(db)
    ensures Valid(InterruptStale(db, now, STALE_SECONDS))
  {
    InterruptKeeps(db, now, STALE_SECONDS);
  }

  /** Converging moves only tickets with an outcome, and those have nothing running. */
  lemma ConvergeKeepsDb(db: Db, outcome: LogStatus, to: TicketStatus, now: int)
    requires DbInv(db) && Outcome(outcome) && to in {Deployed, Failed}
    ensures DbInv(Converge(db, outcome, to, now))
  {
    var b := Converge(db, outcome, to, now);
    ConvergeIsValid(db, outcome, to, now);
    hide Valid, NewestLog;
    assert forall l :: RunsFor(b, l) <==> RunsFor(db, l);
    assert forall l :: EndedFor(b, l) <==> EndedFor(db, l);
    forall l | RunsFor(b, l)
      ensures CanMove(b, b.logs[l].approvalId, {Deploying})
    {
      assert !HasLog(db, db.logs[l].approvalId, outcome);
    }
  }

  lemma ConvergeIsValid(db: Db, outcome: LogStatus, to: TicketStatus, now: int)
    requires Valid(db) && to in {Deployed, Failed}
    ensures Valid(Converge(db, outcome, to, now))
  {
    ConvergeKeeps(db, outcome, to, now);
  }

  ghost predicate OutcomesSettled(db: Db) {
    forall l :: EndedFor(db, l) ==> CanMove(db, db.logs[l].approvalId, {Deployed, Failed})
  }

  lemma ConvergedSettles(db: Db, now: int)
    requires DbInv(db)
    ensures DbInv(Converged(db, now)) && OutcomesSettled(Converged(db, now))
  {
    var b := Converge(db, LogOk, Deployed, now);
    var c := Converge(b, LogFailed, Failed, now);
    ConvergeKeepsDb(db, LogOk, Deployed, now);
    ConvergeKeepsDb(b, LogFailed, Failed, now);
    hide Valid, NewestLog, RunsMatchTickets;
    forall l | EndedFor(c, l)
      ensures CanMove(c, c.logs[l].approvalId, {Deployed, Failed})
    {
      assert EndedFor(db, l);
      var id := db.logs[l].approvalId;
      assert CanMove(db, id, {Deploying, Deployed, Failed});
      assert HasLog(db, id, LogOk) || HasLog(b, id, LogFailed);
    }
  }

  lemma OrphansKeepDb(db: Db, now: int)
    requires DbInv(db) && OutcomesSettled(db)
    ensures DbInv(ReturnOrphans(db, now))
  {
    hide Valid, RunsMatchTickets, OutcomesAreFinal, OutcomesSettled, ReturnOrphans;
    OrphansIsValid(db, now);
    OrphansKeepRuns(db, now);
    OrphansKeepOutcomes(db, now);
  }

  lemma OrphansKeepRuns(db: Db, now: int)
    requires RunsMatchTickets(db)
    ensures RunsMatchTickets(ReturnOrphans(db, now))
  {
    var b := ReturnOrphans(db, now);
    assert forall l :: RunsFor(b, l) <==> RunsFor(db, l);
    assert forall l :: RunsFor(db, l) ==> HasLog(db, db.logs[l].approvalId, LogRunning);
  }

  lemma OrphansKeepOutcomes(db: Db, now: int)
    requires OutcomesAreFinal(db) && OutcomesSettled(db)
    ensures OutcomesAreFinal(ReturnOrphans(db, now))
  {
    hide HasLog;
    var b := ReturnOrphans(db, now);
    assert forall l :: RunsFor(b, l) <==> RunsFor(db, l);
    assert forall l :: EndedFor(b, l) <==> EndedFor(db, l);
  }

  lemma OrphansIsValid(db: Db, now: int)
    requires Valid(db)
    ensures Valid(ReturnOrphans(db, now))
  {
    ReturnOrphansKeeps(db, now);
  }

  lemma RequeueQuiet(db: Db)
    requires Valid(db)
    ensures Valid(RequeueInterrupted(db)) && Quiet(db, RequeueInterrupted(db))
  {
    hide Valid, RequeueInterrupted, Quiet;
    RequeueIsValid(db);
    RequeueStartsNothing(db);
  }

  lemma RequeueStartsNothing(db: Db)
    ensures Quiet(db, RequeueInterrupted(db))
  {
    hide RequeueInterrupted, Active;
    RequeuedRows(db);
    forall l | l in db.logs
      ensures RequeueInterrupted(db).logs[l] == db.logs[l] || !Active(db.logs[l].status)
      ensures Active(RequeueInterrupted(db).logs[l].status) ==> Active(db.logs[l].status)
    {
      RequeuedRow(db, l);
    }
  }

  lemma RequeuedRows(db: Db)
    ensures RequeueInterrupted(db).logs.Keys == db.logs.Keys && RequeueInterrupted(db).tickets == db.tickets
  {
  }

  lemma RequeuedRow(db: Db, l: nat)
    requires l in db.logs
    ensures l in RequeueInterrupted(db).logs
    ensures RequeueInterrupted(db).logs[l] == db.logs[l]
            || (!Active(db.logs[l].status) && !Active(RequeueInterrupted(db).logs[l].status))
  {
  }

  lemma RequeueIsValid(db: Db)
    requires Valid(db)
    ensures Valid(RequeueInterrupted(db))
  {
    RequeueKeeps(db);
  }

  lemma SweepKeepsDb(db: Db, now: int)
    requires DbInv(db)
    ensures DbInv(Recovered(db, now))
  {
    hide DbInv, OutcomesSettled, Quiet, Valid, ReturnOrphans, RequeueInterrupted, InterruptStale, Converged;
    var a := InterruptStale(db, now, STALE_SECONDS);
    InterruptKeepsDb(db, now);
    ConvergedSettles(a, now);
    OrphansKeepDb(Converged(a, now), now);
    var d := ReturnOrphans(Converged(a, now), now);
    DbInvIsValid(d);
    RequeueQuiet(d);
    QuietKeepsDb(d, RequeueInterrupted(d));
  }

  lemma DbInvIsValid(db: Db)
    requires DbInv(db)
    ensures Valid(db)
  {
  }

  /** The sweep spares every log a live thread is responsible for. */
  lemma SweepKeepsLive(s: Sys, now: int)
    requires LiveMatches(s) && LiveFresh(s, now)
    ensures LiveMatches(Sys(Recovered(s.db, now), s.live))
  {
    var db' := Recovered(s.db, now);
    var a := InterruptStale(s.db, now, STALE_SECONDS);
    hide IsStale, Converge;
    forall t | t in s.live
      ensures ExecMatches(db', s.live[t])
    {
      assert ExecMatches(s.db, s.live[t]);
      SpareLog(s, now, t);
      ConvergeWritesNoLogs(a, now);
    }
  }

  lemma ConvergeWritesNoLogs(db: Db, now: int)
    ensures Converged(db, now).logs == db.logs
  {
  }

  lemma SpareLog(s: Sys, now: int, t: nat)
    requires LiveMatches(s) && LiveFresh(s, now) && t in s.live
    ensures s.live[t].log in s.db.logs
    ensures InterruptStale(s.db, now, STALE_SECONDS).logs[s.live[t].log] == s.db.logs[s.live[t].log]
  {
    assert ExecMatches(s.db, s.live[t]);
  }

  // ── Runs ──

  lemma StepKeepsInv(s: Sys, step: Step)
    requires Inv(s)
    ensures Inv(Next(s, step))
  {
    if Enabled(s, step) {
      match step
      case Submit(p, r, at, needs, now) => QuietStep(s, step);
      case SubmitLog(req, id) => QuietStep(s, step);
      case CloseLogs(id, outcome) => QuietStep(s, step);
      case Beat(ids, runner, now) => QuietStep(s, step);
      case Approve(id, user, now) => DecisionStep(s, step);
      case Reject(id, user, now) => DecisionStep(s, step);
      case Withdraw(id, now) => DecisionStep(s, step);
      case CrashBeforeLog(thread, id, now) => DecisionStep(s, step);
      case ExecuteRefused(thread, id, to, now) => RefusedStep(s, step);
      case Execute(thread, id, req, runner, now) => ExecuteKeeps(s, step);
      case StartDirect(thread, req, runner, now) => StartDirectKeeps(s, step);
      case Finish(thread, outcome, to, deployId, now) => FinishesKeep(s, step);
      case WriteLog(thread, outcome) => FinishesKeep(s, step);
      case FinishThenCrash(thread, outcome) => FinishesKeep(s, step);
      case WriteTicket(thread, to, deployId, now) => WriteTicketKeeps(s, step);
      case Crash(thread) => FewerLive(s, thread);
      case Recover(now) =>
        SweepKeepsDb(s.db, now);
        SweepKeepsLive(s, now);
    }
    hide DbInv, LiveMatches, Recovered;
  }

  lemma QuietStep(s: Sys, step: Step)
    requires Inv(s) && Enabled(s, step) && (step.Submit? || step.SubmitLog? || step.CloseLogs? || step.Beat?)
    ensures Inv(Next(s, step))
  {
    DbInvIsValid(s.db);
    hide Inv, Valid, Quiet, InsertTicket, InsertPending, ClosePending, Heartbeat;
    if step.Submit? {
      InsertTicketQuiet(s.db, step.project, step.requester, step.scheduledAt, step.needsApproval, step.now);
    } else if step.SubmitLog? {
      InsertPendingQuiet(s.db, step.req, step.id);
    } else if step.CloseLogs? {
      ClosePendingQuiet(s.db, step.id, step.outcome);
    } else {
      HeartbeatQuiet(s.db, step.logIds, step.runner, step.now);
    }
    hide DbInv, LiveMatches;
    QuietKeeps(s, NextDb(s, step));
  }

  lemma DecisionStep(s: Sys, step: Step)
    requires Inv(s) && Enabled(s, step) && (step.Approve? || step.Reject? || step.Withdraw? || step.CrashBeforeLog?)
    ensures Inv(Next(s, step))
  {
    DbInvIsValid(s.db);
    hide Inv, Valid, Quiet, Move;
    match step {
      case Approve(id, user, now) => DecisionQuiet(s.db, id, {Pending}, Approved, Some(user), now);
      case Reject(id, user, now) => DecisionQuiet(s.db, id, {Pending}, Rejected, Some(user), now);
      case Withdraw(id, now) => DecisionQuiet(s.db, id, {Pending, Approved}, Cancelled, None, now);
      case CrashBeforeLog(thread, id, now) => DecisionQuiet(s.db, id, {Approved}, Deploying, None, now);
    }
    QuietKeeps(s, NextDb(s, step));
  }

  lemma RefusedStep(s: Sys, step: Step)
    requires Inv(s) && Enabled(s, step) && step.ExecuteRefused?
    ensures Inv(Next(s, step))
  {
    RefusalQuiet(s.db, step.id, step.to, step.now);
    QuietKeeps(s, NextDb(s, step));
  }

  lemma RefusalQuiet(db: Db, id: nat, to: TicketStatus, now: int)
    requires Valid(db) && CanMove(db, id, {Approved}) && to in {Failed, Approved}
    ensures var db' := Move(Move(db, id, {Approved}, Deploying, None, None, now), id, {Deploying}, to, None, None, now);
            Valid(db') && Quiet(db, db')
  {
  }

  /** On every run with crashes, recoveries and re-executions: a running log of a ticket means the
      ticket is deploying; a ticket has at most one running log; every live executor's log still
      runs; and a ticket has at most one ok or failed log, after which nothing of it runs. */
  lemma {:induction false} Safety(steps: seq<Step>)
    ensures Inv(Run(INIT, steps))
  {
    if steps != [] {
      Safety(steps[..|steps| - 1]);
      StepKeepsInv(Run(INIT, steps[..|steps| - 1]), steps[|steps| - 1]);
    }
  }

  predicate Spares(a: Db, b: Db, log: nat)
    requires log in a.logs
  {
    log in b.logs && b.logs[log].status == a.logs[log].status && b.logs[log].approvalId == a.logs[log].approvalId
  }

  predicate EndsLog(step: Step) {
    step.Finish? || step.WriteLog? || step.FinishThenCrash?
  }

  /** No step rewrites an ok or failed log. */
  lemma OutcomeStep(s: Sys, step: Step, log: nat)
    requires Inv(s) && log in s.db.logs && Outcome(s.db.logs[log].status)
    ensures Spares(s.db, Next(s, step).db, log)
  {
    hide NextDb, NextLive, DbInv, LiveMatches, LiveFresh, Reported;
    DbInvIsValid(s.db);
    if Enabled(s, step) {
      if EndsLog(step) {
        LiveIsNot(s, step.thread, log);
        FinishSpares(s, step, log);
      } else if step.Execute? {
        ExecuteSpares(s, step, log);
      } else if step.Recover? {
        SweepSpares(s, step, log);
      } else {
        OtherStepSpares(s, step, log);
      }
    }
  }

  lemma FinishSpares(s: Sys, step: Step, log: nat)
    requires Enabled(s, step) && EndsLog(step) && log in s.db.logs && s.live[step.thread].log != log
    ensures Spares(s.db, NextDb(s, step), log)
  {
  }

  lemma ExecuteSpares(s: Sys, step: Step, log: nat)
    requires Enabled(s, step) && IdsFresh(s.db) && log in s.db.logs && Outcome(s.db.logs[log].status) && step.Execute?
    ensures Spares(s.db, NextDb(s, step), log)
  {
    hide LockFree;
  }

  lemma SweepSpares(s: Sys, step: Step, log: nat)
    requires Enabled(s, step) && log in s.db.logs && Outcome(s.db.logs[log].status) && step.Recover?
    ensures Spares(s.db, NextDb(s, step), log)
  {
    hide NewestLog, HasLog;
  }

  lemma OtherStepSpares(s: Sys, step: Step, log: nat)
    requires Enabled(s, step) && IdsFresh(s.db) && log in s.db.logs && Outcome(s.db.logs[log].status)
    requires !step.Execute? && !step.Recover? && !EndsLog(step)
    ensures Spares(s.db, NextDb(s, step), log)
  {
    hide LockFree, IsStale;
  }

  lemma LiveIsNot(s: Sys, thread: nat, log: nat)
    requires LiveMatches(s) && thread in s.live && s.live[thread].phase.Running?
    requires log in s.db.logs && Outcome(s.db.logs[log].status)
    ensures s.live[thread].log != log
  {
    assert ExecMatches(s.db, s.live[thread]);
  }

  /** Once a ticket has an ok or failed log, then on every continuation that log keeps its
      outcome, it stays the only one, the ticket never returns to approved, and nothing of the
      ticket ever runs again, wherever crashes fall. */
  lemma {:induction false} OutcomeForGood(s: Sys, steps: seq<Step>, log: nat)
    requires Inv(s) && EndedFor(s.db, log)
    ensures Inv(Run(s, steps)) && EndedFor(Run(s, steps).db, log)
    ensures var db, ticket := Run(s, steps).db, s.db.logs[log].approvalId;
            && db.logs[log].status == s.db.logs[log].status && db.logs[log].approvalId == ticket
            && CanMove(db, ticket, {Deploying, Deployed, Failed})
            && (forall l :: RunsFor(db, l) ==> db.logs[l].approvalId != ticket)
            && (forall l :: EndedFor(db, l) && db.logs[l].approvalId == ticket ==> l == log)
  {
    if steps != [] {
      var n := |steps| - 1;
      OutcomeForGood(s, steps[..n], log);
      StepKeepsInv(Run(s, steps[..n]), steps[n]);
      OutcomeStep(Run(s, steps[..n]), steps[n], log);
      hide Next;
    }
  }

  // ── The window between the two writes of a finish ──

  function TicketFor(outcome: LogStatus): TicketStatus {
    if outcome == LogOk then Deployed else Failed
  }

  lemma OnlyOutcome(db: Db, log: nat, status: LogStatus)
    requires DbInv(db) && EndedFor(db, log) && Outcome(status)
    ensures HasLog(db, db.logs[log].approvalId, status) <==> db.logs[log].status == status
    ensures db.logs[log].status == status ==> NewestLog(db, db.logs[log].approvalId, status) == Some(log)
  {
    var id := db.logs[log].approvalId;
    forall l | l in db.logs && db.logs[l].approvalId == id && db.logs[l].status == status
      ensures l == log
    {
      assert EndedFor(db, l);
    }
    var newest := NewestLog(db, id, status);
    assert newest.Some? ==> EndedFor(db, newest.value);
  }

  lemma SweepSettles(db: Db, log: nat, now: int)
    requires DbInv(db) && EndedFor(db, log) && CanMove(db, db.logs[log].approvalId, {Deploying})
    ensures var id := db.logs[log].approvalId;
            && id in Recovered(db, now).tickets
            && Recovered(db, now).tickets[id].status == TicketFor(db.logs[log].status)
            && Recovered(db, now).tickets[id].deployId == log
  {
    OnlyOutcome(db, log, LogOk);
    OnlyOutcome(db, log, LogFailed);
    DbInvIsValid(db);
    SweepOutcome(db, now, db.logs[log].approvalId);
    hide Recovered, DbInv, InterruptStale;
  }

  /** What run_approval writes to its ticket after an ok or failed log: the log's own outcome and
      id, unless the run raised after the log was written, which reads as failed with id 0. */
  function ThreadWrites(outcome: LogStatus, log: nat, raised: bool): (TicketStatus, nat) {
    if raised then (Failed, 0) else (TicketFor(outcome), log)
  }

  /** After the log is written and before the ticket is: a sweep in between and the thread's own
      write give the ticket the same outcome and deploy id, in either order, exactly when the run
      did not raise. */
  lemma SweepAndThreadAgree(s: Sys, thread: nat, raised: bool, written: int, now: int)
    requires Inv(s) && thread in s.live && s.live[thread].phase.Written? && s.live[thread].ticket > 0
    requires CanMove(s.db, s.live[thread].ticket, {Deploying})
    ensures var e := s.live[thread];
            var (to, deployId) := ThreadWrites(e.phase.outcome, e.log, raised);
            var early := Recovered(SettleTicket(s.db, e.ticket, to, Some(deployId), written), now);
            var late := SettleTicket(Recovered(s.db, now), e.ticket, to, Some(deployId), written);
            && e.ticket in early.tickets && e.ticket in late.tickets
            && SameResult(early.tickets[e.ticket], late.tickets[e.ticket]) == !raised
  {
    hide Recovered, DbInv, Converge;
    var e := s.live[thread];
    var (to, deployId) := ThreadWrites(e.phase.outcome, e.log, raised);
    assert ExecMatches(s.db, e);
    assert Valid(s.db) by {
      DbInvIsValid(s.db);
    }
    assert e.log > 0;
    SweepSettles(s.db, e.log, now);
    hide LiveMatches, Valid;
    var settled := SettleTicket(s.db, e.ticket, to, Some(deployId), written);
    assert settled.tickets[e.ticket].status == to && settled.tickets[e.ticket].deployId == deployId;
    SweepSparesOthers(settled, now, e.ticket);
  }

  predicate SameResult(a: Ticket, b: Ticket) {
    a.status == b.status && a.deployId == b.deployId
  }

  /** The sweep leaves this log waiting for its ticket: it waited, was interrupted, or its run died. */
  predicate WaitsAfterSweep(l: DeployLog, id: nat, now: int) {
    l.approvalId == id && (l.status in {LogPending, LogInterrupted} || IsStale(l, now, STALE_SECONDS))
  }

  lemma SweptWaits(l: DeployLog, l': DeployLog, id: nat, now: int)
    requires id > 0 && SweptTo(l, l', now)
    ensures l'.approvalId == id && l'.status == LogPending <==> WaitsAfterSweep(l, id, now)
  {
    hide StrLess, Pad13;
  }

  /** Whatever happened before a sweep, an execution after it takes the newest log of the ticket
      that waited, was interrupted or whose run died, and starts a new one only if there is none. */
  lemma SweptLogIsClaimed(db: Db, id: nat, now: int)
    requires IdsFresh(db) && id > 0
    ensures var log := ClaimedLog(Recovered(db, now), id);
            if exists l :: l in db.logs && WaitsAfterSweep(db.logs[l], id, now) then
              && log in db.logs && WaitsAfterSweep(db.logs[log], id, now)
              && forall l :: l in db.logs && WaitsAfterSweep(db.logs[l], id, now) ==> l <= log
            else log == db.nextLog
  {
    hide Recovered, SweptTo, WaitsAfterSweep;
    SweepOfLogs(db, now);
    var swept := Recovered(db, now);
    forall l | l in db.logs
      ensures swept.logs[l].approvalId == id && swept.logs[l].status == LogPending
              <==> WaitsAfterSweep(db.logs[l], id, now)
    {
      SweptWaits(db.logs[l], swept.logs[l], id, now);
    }
  }

  /** A crashed execution is picked up by the next one: the ticket with its one dead log is approved
      after the sweep, and executing it runs that very log again wherever the project is free. */
  lemma CrashedRunIsRepeated(db: Db, id: nat, log: nat, now: int, req: Request, runner: string, later: int)
    requires IdsFresh(db) && id > 0 && CanMove(db, id, {Deploying})
    requires log in db.logs && db.logs[log].approvalId == id && IsStale(db.logs[log], now, STALE_SECONDS)
    requires forall l :: l in db.logs && db.logs[l].approvalId == id ==> l == log
    ensures var swept := Recovered(db, now);
            && CanMove(swept, id, {Approved}) && ClaimedLog(swept, id) == log
            && log in swept.logs && swept.logs[log] == db.logs[log].(status := LogPending, lockKey := None)
            && (LockFree(swept, req.project, log) ==> RunsFor(ExecuteDb(swept, id, req, runner, later), log))
  {
    hide Recovered, InterruptStale, IsStale, HasLog, NewestLog, SweptTo, WaitsAfterSweep, ClaimedLog, ExecuteDb,
      LockFree;
    var swept := Recovered(db, now);
    OnlyDeadLog(db, id, log, now);
    SweepOutcome(db, now, id);
    SweepOfLogs(db, now);
    DeadLogWaits(db.logs[log], swept.logs[log], now);
    SweptLogIsClaimed(db, id, now);
    var claimed := ClaimedLog(swept, id);
    assert claimed == log by {
      hide IdsFresh;
      if claimed in db.logs {
        WaitsForItsTicket(db.logs[claimed], id, now);
      }
    }
    if LockFree(swept, req.project, log) {
      ClaimedLogRuns(swept, id, log, req, runner, later);
    }
  }

  lemma DeadLogWaits(l: DeployLog, l': DeployLog, now: int)
    requires l.approvalId > 0 && IsStale(l, now, STALE_SECONDS) && SweptTo(l, l', now)
    ensures l' == l.(status := LogPending, lockKey := None) && WaitsAfterSweep(l, l.approvalId, now)
  {
    hide StrLess, Pad13;
  }

  lemma WaitsForItsTicket(l: DeployLog, id: nat, now: int)
    ensures WaitsAfterSweep(l, id, now) ==> l.approvalId == id
  {
  }

  lemma OnlyDeadLog(db: Db, id: nat, log: nat, now: int)
    requires log in db.logs && db.logs[log].approvalId == id && IsStale(db.logs[log], now, STALE_SECONDS)
    requires forall l :: l in db.logs && db.logs[l].approvalId == id ==> l == log
    ensures !HasLog(db, id, LogOk) && !HasLog(db, id, LogFailed)
    ensures !HasLog(InterruptStale(db, now, STALE_SECONDS), id, LogRunning)
  {
    hide StrLess, Pad13;
  }

  lemma ClaimedLogRuns(db: Db, id: nat, log: nat, req: Request, runner: string, now: int)
    requires id > 0 && CanMove(db, id, {Approved}) && LockFree(db, req.project, log)
    requires ClaimedLog(db, id) == log && log in db.logs
    requires db.logs[log].status == LogPending && db.logs[log].approvalId == id
    requires forall l :: l in db.logs ==> l < db.nextLog
    ensures RunsFor(ExecuteDb(db, id, req, runner, now), log)
  {
  }

  lemma InterruptStartsNothing(db: Db, now: int, id: nat)
    requires NothingRuns(db, id)
    ensures !HasLog(InterruptStale(db, now, STALE_SECONDS), id, LogRunning)
  {
  }

  /** Without a run or an outcome of it, the sweep hands a deploying ticket back, and only then:
      an ok or failed log settles it instead. */
  lemma SweepTakesUnsettledTicket(db: Db, id: nat, now: int)
    requires Valid(db) && CanMove(db, id, {Deploying}) && NothingRuns(db, id)
    ensures CanMove(Recovered(db, now), id, {Approved}) <==> NothingEnded(db, id)
  {
    hide Valid, Recovered, InterruptStale, HasLog, NewestLog, NothingRuns, NothingEnded;
    assert IdsFresh(db) by {
      ValidIsFresh(db);
    }
    SweepOutcome(db, now, id);
    InterruptStartsNothing(db, now, id);
    EndedHasLog(db, id);
  }

  lemma ValidIsFresh(db: Db)
    requires Valid(db)
    ensures IdsFresh(db)
  {
  }

  lemma EndedHasLog(db: Db, id: nat)
    ensures NothingEnded(db, id) <==> !HasLog(db, id, LogOk) && !HasLog(db, id, LogFailed)
  {
  }

  /** A ticket that is executed again after such a sweep: a write by the first thread then tears it
      from its running log. */
  lemma LateWriteTearsTicket(db: Db, id: nat, now: int, req: Request, runner: string, to: TicketStatus,
          deployId: Option<nat>,
                             written: int)
    requires Valid(db) && id > 0 && CanMove(db, id, {Approved}) && to in {Failed, Cancelled}
    requires ClaimOrStart(Move(db, id, {Approved}, Deploying, None, None, now), id, req, runner, now).Some?
    ensures !RunsMatchTickets(SettleTicket(ExecuteDb(db, id, req, runner, now), id, to, deployId, written))
  {
    var claimed := Move(db, id, {Approved}, Deploying, None, None, now);
    MoveKeeps(db, id, {Approved}, Deploying, None, None, now);
    ClaimOrStartResult(claimed, id, req, runner, now);
    var torn := SettleTicket(ExecuteDb(db, id, req, runner, now), id, to, deployId, written);
    assert RunsFor(torn, ClaimedLog(claimed, id));
  }

  lemma StartableIffFree(db: Db, ticket: nat, req: Request, runner: string, now: int)
    requires Valid(db)
    ensures ClaimOrStart(db, ticket, req, runner, now).Some? <==> LockFree(db, req.project, 0)
  {
    var newest := NewestLog(db, ticket, LogPending);
    if ticket != 0 && newest.Some? {
      assert LockMatches(db.logs[newest.value]);
      assert 0 !in db.logs;
    }
  }

  /** The window after a log write, from any reachable state: the thread ends its running log, a
      sweep comes before its ticket write, the ticket is executed again if it can be, and then the
      first thread writes its ticket. */
  function Window(db: Db, log: nat, outcome: LogStatus, req: Request, runner: string, now: int): Db
    requires log in db.logs
  {
    var swept, id := Recovered(FinishLog(db, log, outcome), now), db.logs[log].approvalId;
    if CanMove(swept, id, {Approved}) then ExecuteDb(swept, id, req, runner, now) else swept
  }

  /** The window leaves a running log whose ticket is not deploying exactly if the outcome was
      partial or terminated and the project was free for the second execution: this is why Safety
      lets other steps into the window of ok and failed runs only. */
  lemma WindowTearsIff(db: Db, log: nat, outcome: LogStatus, req: Request, runner: string, now: int,
                       to: TicketStatus, deployId: Option<nat>, written: int)
    requires DbInv(db) && RunsFor(db, log) && EndStatus(outcome) && Reported(outcome, to)
    ensures var id, swept := db.logs[log].approvalId, Recovered(FinishLog(db, log, outcome), now);
            !RunsMatchTickets(SettleTicket(Window(db, log, outcome, req, runner, now), id, to, deployId, written))
            <==> !Outcome(outcome) && LockFree(swept, req.project, 0)
  {
    hide Recovered, FinishLog, DbInv, Valid, NothingRuns, NothingEnded, Window, ExecuteDb, RunsMatchTickets,
      SettleTicket, LockFree;
    var id := db.logs[log].approvalId;
    var after := FinishLog(db, log, outcome);
    RunEnds(db, log, outcome);
    SweepKeepsDb(after, now);
    DbInvIsValid(after);
    var swept := Recovered(after, now);
    if Outcome(outcome) {
      WindowOfOutcome(db, log, outcome, req, runner, now, to, deployId, written);
    } else {
      SweepTakesUnsettledTicket(after, id, now);
      WindowIs(db, log, outcome, req, runner, now);
      SecondExecution(swept, id, req, runner, now, to, deployId, written);
    }
  }

  lemma WindowIs(db: Db, log: nat, outcome: LogStatus, req: Request, runner: string, now: int)
    requires log in db.logs
    ensures var swept, id := Recovered(FinishLog(db, log, outcome), now), db.logs[log].approvalId;
            Window(db, log, outcome, req, runner, now)
            == if CanMove(swept, id, {Approved}) then ExecuteDb(swept, id, req, runner, now) else swept
  {
  }

  lemma RunEnds(db: Db, log: nat, outcome: LogStatus)
    requires DbInv(db) && RunsFor(db, log) && EndStatus(outcome)
    ensures var id, after := db.logs[log].approvalId, FinishLog(db, log, outcome);
            && id > 0 && DbInv(after) && CanMove(after, id, {Deploying}) && NothingRuns(after, id)
            && log in after.logs && after.logs[log].approvalId == id && after.logs[log].status == outcome
            && (if Outcome(outcome) then EndedFor(after, log) else NothingEnded(after, id))
  {
    EndKeepsDb(db, log, db.logs[log].approvalId, outcome);
    hide NothingRuns, NothingEnded, Valid, OutcomesAreFinal;
  }

  lemma WindowOfOutcome(db: Db, log: nat, outcome: LogStatus, req: Request, runner: string, now: int,
                        to: TicketStatus, deployId: Option<nat>, written: int)
    requires DbInv(db) && RunsFor(db, log) && Outcome(outcome)
    ensures var id := db.logs[log].approvalId;
            RunsMatchTickets(SettleTicket(Window(db, log, outcome, req, runner, now), id, to, deployId, written))
  {
    hide DbInv, Recovered, NothingRuns, FinishLog, RunsMatchTickets, ExecuteDb, Window;
    var id, after := db.logs[log].approvalId, FinishLog(db, log, outcome);
    RunEnds(db, log, outcome);
    WindowIs(db, log, outcome, req, runner, now);
    var swept := Recovered(after, now);
    SweepKeepsDb(after, now);
    SweepSettles(after, log, now);
    DbInvRuns(swept);
    assert SettleTicket(swept, id, to, deployId, written) == swept;
  }

  lemma DbInvRuns(db: Db)
    requires DbInv(db)
    ensures RunsMatchTickets(db)
  {
  }

  /** An execution that finds the project busy leaves the ticket approved and everything matched. */
  lemma RefusedExecution(db: Db, id: nat, req: Request, runner: string, now: int)
    requires DbInv(db) && id > 0 && CanMove(db, id, {Approved})
    requires ClaimOrStart(Move(db, id, {Approved}, Deploying, None, None, now), id, req, runner, now).None?
    ensures var back := ExecuteDb(db, id, req, runner, now); DbInv(back) && CanMove(back, id, {Approved})
  {
    DbInvIsValid(db);
    assert forall l :: RunsFor(db, l) ==> db.logs[l].approvalId != id;
    hide DbInv, Valid, Quiet, ClaimOrStart;
    HandBackQuiet(db, id, now);
    var back := ExecuteDb(db, id, req, runner, now);
    QuietKeepsDb(db, back);
  }

  lemma SecondExecution(db: Db, id: nat, req: Request, runner: string, now: int, to: TicketStatus,
          deployId: Option<nat>, written: int)
    requires DbInv(db) && id > 0 && CanMove(db, id, {Approved}) && to in {Failed, Cancelled}
    ensures !RunsMatchTickets(SettleTicket(ExecuteDb(db, id, req, runner, now), id, to, deployId, written))
            <==> LockFree(db, req.project, 0)
  {
    var claimed := Move(db, id, {Approved}, Deploying, None, None, now);
    DbInvIsValid(db);
    assert LockFree(claimed, req.project, 0) <==> LockFree(db, req.project, 0);
    hide DbInv, ClaimOrStart, Valid, LockFree, ExecuteDb, RunsMatchTickets;
    MoveIsValid(db, id, now);
    StartableIffFree(claimed, id, req, runner, now);
    if ClaimOrStart(claimed, id, req, runner, now).Some? {
      LateWriteTearsTicket(db, id, now, req, runner, to, deployId, written);
    } else {
      RefusedExecution(db, id, req, runner, now);
      var back := ExecuteDb(db, id, req, runner, now);
      DbInvRuns(back);
      assert SettleTicket(back, id, to, deployId, written) == back;
    }
  }

  lemma MoveIsValid(db: Db, id: nat, now: int)
    requires Valid(db)
    ensures Valid(Move(db, id, {Approved}, Deploying, None, None, now))
  {
    MoveKeeps(db, id, {Approved}, Deploying, None, None, now);
  }

  // ── The window between the claim of a ticket and the claim of its log ──

  /** A thread claims an approved ticket, a sweep comes before it claims a log, and a second thread
      claims the ticket. */
  function ClaimedTwice(db: Db, id: nat, now: int): Db {
    var swept := Recovered(Move(db, id, {Approved}, Deploying, None, None, now), now);
    Move(swept, id, {Approved}, Deploying, None, None, now)
  }

  /** Then the first thread claims its log, if it can. */
  function FirstRuns(db: Db, id: nat, req: Request, runner: string, now: int): Db {
    var again := ClaimedTwice(db, id, now);
    var started := ClaimOrStart(again, id, req, runner, now);
    if started.Some? then started.value else again
  }

  /** And a thread that found the project busy writes its ticket. */
  function HandedBack(db: Db, id: nat, req: Request, runner: string, now: int): Db {
    Move(FirstRuns(db, id, req, runner, now), id, {Deploying}, Approved, None, None, now)
  }

  lemma EarlySweepReturns(db: Db, id: nat, now: int)
    requires DbInv(db) && id > 0 && CanMove(db, id, {Approved})
    ensures var swept := Recovered(Move(db, id, {Approved}, Deploying, None, None, now), now);
            DbInv(swept) && CanMove(swept, id, {Approved})
  {
    hide DbInv, Valid, Quiet, Recovered, Move;
    var claimed := Move(db, id, {Approved}, Deploying, None, None, now);
    ApprovedIsStartable(db, id, now);
    QuietKeepsDb(db, claimed);
    SweepKeepsDb(claimed, now);
    StartableRestsQuietly(claimed, id);
    SweepTakesUnsettledTicket(claimed, id, now);
  }

  lemma StartableRestsQuietly(db: Db, id: nat)
    requires Startable(db, id) && id > 0
    ensures NothingRuns(db, id) && NothingEnded(db, id)
  {
    assert forall l :: l in db.logs && db.logs[l].status == LogRunning && db.logs[l].approvalId > 0 ==> RunsFor(db, l);
    assert forall l :: l in db.logs && Outcome(db.logs[l].status) && db.logs[l].approvalId > 0 ==> EndedFor(db, l);
  }

  lemma StartLocksProject(db: Db, ticket: nat, req: Request, runner: string, now: int)
    requires Valid(db) && ClaimOrStart(db, ticket, req, runner, now).Some?
    ensures var b, log := ClaimOrStart(db, ticket, req, runner, now).value, ClaimedLog(db, ticket);
            && Valid(b) && log in b.logs && b.logs[log].approvalId == ticket && b.tickets == db.tickets
            && b.logs[log].status == LogRunning && b.logs[log].project == req.project
  {
    hide Valid, LockFree;
    ClaimOrStartResult(db, ticket, req, runner, now);
  }

  /** Putting back the one running log of a project frees its lock. */
  lemma ResetFreesLock(db: Db, log: nat)
    requires Valid(db) && log in db.logs && db.logs[log].status == LogRunning && db.logs[log].approvalId > 0
    ensures var reset := ResetRunning(db, db.logs[log].approvalId);
            && log in reset.logs && reset.logs[log].status == LogPending && LockFree(reset, db.logs[log].project, 0)
  {
    assert forall l :: l in db.logs ==> LockMatches(db.logs[l]);
  }

  lemma RunHoldsLock(db: Db, log: nat)
    requires Valid(db) && log in db.logs && db.logs[log].status == LogRunning
    ensures !LockFree(db, db.logs[log].project, 0)
  {
    assert LockMatches(db.logs[log]) && log != 0;
  }

  /** The window before a log claim, from any reachable state. The second thread, which comes to its
      log after the first, is always refused as busy. Handing the ticket back then leaves a running
      log whose ticket is approved exactly if the project was free when the first thread claimed its
      log, and the reset that follows puts that log back and frees the project while the first thread
      executes: this is why a claim of a ticket with its log is one step in Safety. */
  lemma EarlySweepTearsIff(db: Db, id: nat, req: Request, runner: string, rival: string, now: int)
    requires DbInv(db) && id > 0 && CanMove(db, id, {Approved})
    ensures ClaimOrStart(FirstRuns(db, id, req, runner, now), id, req, rival, now).None?
    ensures var again, back := ClaimedTwice(db, id, now), HandedBack(db, id, req, runner, now);
            && CanMove(back, id, {Approved})
            && (!RunsMatchTickets(back) <==> LockFree(again, req.project, 0))
            && (LockFree(again, req.project, 0) ==>
                var log, reset := ClaimedLog(again, id), ResetRunning(back, id);
                && RunsFor(back, log) && back.logs[log].approvalId == id
                && log in reset.logs && reset.logs[log].status == LogPending && LockFree(reset, req.project, 0))
  {
    hide DbInv, Valid, Recovered, LockFree, ClaimOrStart, ClaimedLog, RunsMatchTickets, ResetRunning, Quiet;
    EarlySweepReturns(db, id, now);
    var again := ClaimedTwice(db, id, now);
    var swept := Recovered(Move(db, id, {Approved}, Deploying, None, None, now), now);
    DbInvIsValid(swept);
    MoveIsValid(swept, id, now);
    StartableIffFree(again, id, req, runner, now);
    var first, back := FirstRuns(db, id, req, runner, now), HandedBack(db, id, req, runner, now);
    if LockFree(again, req.project, 0) {
      StartLocksProject(again, id, req, runner, now);
      var log := ClaimedLog(again, id);
      RunHoldsLock(first, log);
      HandBackIsValid(first, id, now);
      ResetFreesLock(back, log);
      RunOfApproved(back, log);
    } else {
      RefusalQuiet(swept, id, Approved, now);
      QuietKeepsDb(swept, back);
      DbInvRuns(back);
    }
    StartableIffFree(first, id, req, rival, now);
  }

  lemma HandBackIsValid(db: Db, id: nat, now: int)
    requires Valid(db)
    ensures Valid(Move(db, id, {Deploying}, Approved, None, None, now))
  {
    MoveKeeps(db, id, {Deploying}, Approved, None, None, now);
  }

  lemma RunOfApproved(db: Db, log: nat)
    requires RunsFor(db, log) && CanMove(db, db.logs[log].approvalId, {Approved})
    ensures !RunsMatchTickets(db)
  {
  }
}
