/** Runs of single statements from the empty store through the two windows in which a sweep takes a
    ticket from its thread: before the thread claims its log, and after it has written the log's
    outcome. They say what the two threads leave behind. */
module RecoveryRace {
  import opened Wrappers
  import opened Tables
  import opened StatementTier
  import CrashTier

  const NEED := Request("web", "v1", "ssh", NoSnapshot)

  /** Thread 1 claims the approved ticket 1. */
  function Taken(): seq<Step> {
    [SubmitTicket("web", "ann", "", true, 0)]
      + ([SubmitLog(NEED, 1)] + ([Approve(1, "bob", 0)] + [ClaimTicket(1, 1, 0)]))
  }

  /** And then its log 1. */
  function Claimed(): seq<Step> {
    Taken() + [ClaimPending(1, 1, "web", "a", 0)]
  }

  /** Another instance sweeps. */
  function Sweep(): seq<Step> {
    [RecoverStale(0, 120)] + ([ConvergeOk(0)] + ([ConvergeFailed(0)] + ([RecoverOrphans(0)] + [Requeue])))
  }

  /** Thread 1 writes the outcome of its log before the sweep. */
  function Swept(outcome: LogStatus): seq<Step> {
    [Finish(1, outcome)] + Sweep()
  }

  /** Thread 2 executes the ticket if it can; then thread 1 writes its ticket. */
  function Late(to: TicketStatus, deployId: Option<nat>): seq<Step> {
    [ClaimTicket(2, 1, 0)] + ([StartForTicket(2, NEED, "b", 0)] + [SettleTicket(1, to, deployId, 0)])
  }

  /** One ticket and its one log, in these statuses. */
  ghost predicate One(s: Sys, ticket: TicketStatus, log: LogStatus, threads: map<nat, nat>) {
    && s.threads == threads && s.db.nextLog == 2
    && s.db.tickets.Keys == {1} && s.db.tickets[1].status == ticket && s.db.tickets[1].requester == "ann"
    && s.db.logs.Keys == {1} && s.db.logs[1].status == log && s.db.logs[1].approvalId == 1
        && s.db.logs[1].project == "web"
    && LockMatches(s.db.logs[1])
  }

  lemma Submits()
    ensures One(Next(Next(INIT, SubmitTicket("web", "ann", "", true, 0)), SubmitLog(NEED, 1)), Pending, LogPending,
      map[])
  {
  }

  lemma Approves(s: Sys)
    requires One(s, Pending, LogPending, map[])
    ensures One(Next(s, Approve(1, "bob", 0)), Approved, LogPending, map[])
  {
    assert !SelfApproval("ann", "bob") by {
      assert "ann"[0] == 'a' && "bob"[0] == 'b';
    }
    hide SelfApproval;
  }

  lemma ClaimsTicket(s: Sys)
    requires One(s, Approved, LogPending, map[])
    ensures One(Next(s, ClaimTicket(1, 1, 0)), Deploying, LogPending, map[1 := 1])
  {
  }

  lemma ClaimsLog(s: Sys)
    requires One(s, Deploying, LogPending, map[1 := 1])
    ensures One(Next(s, ClaimPending(1, 1, "web", "a", 0)), Deploying, LogRunning, map[1 := 1])
  {
  }

  lemma TakenIs()
    ensures One(Run(INIT, Taken()), Deploying, LogPending, map[1 := 1])
  {
    hide Next, One;
    var a := Next(INIT, SubmitTicket("web", "ann", "", true, 0));
    var b := Next(a, SubmitLog(NEED, 1));
    var c := Next(b, Approve(1, "bob", 0));
    Submits();
    Approves(b);
    ClaimsTicket(c);
    var approves := [Approve(1, "bob", 0)] + [ClaimTicket(1, 1, 0)];
    RunOne(c, ClaimTicket(1, 1, 0));
    RunFirst(b, Approve(1, "bob", 0), [ClaimTicket(1, 1, 0)]);
    RunFirst(a, SubmitLog(NEED, 1), approves);
    RunFirst(INIT, SubmitTicket("web", "ann", "", true, 0), [SubmitLog(NEED, 1)] + approves);
  }

  lemma ClaimedIs()
    ensures One(Run(INIT, Claimed()), Deploying, LogRunning, map[1 := 1])
  {
    hide Next, One, Run, Taken;
    TakenIs();
    var a := Run(INIT, Taken());
    ClaimsLog(a);
    RunConcat(INIT, Taken(), [ClaimPending(1, 1, "web", "a", 0)]);
    RunOne(a, ClaimPending(1, 1, "web", "a", 0));
  }

  /** Where a sweep leaves a deploying ticket with one log in this status. */
  function After(outcome: LogStatus): TicketStatus {
    if outcome == LogOk then Deployed else if outcome == LogFailed then Failed else Approved
  }

  lemma Finishes(s: Sys, outcome: LogStatus)
    requires One(s, Deploying, LogRunning, map[1 := 1]) && EndStatus(outcome)
    ensures One(Next(s, Finish(1, outcome)), Deploying, outcome, map[1 := 1])
  {
  }

  /** The one log neither runs nor was interrupted. */
  predicate Rests(log: LogStatus) {
    EndStatus(log) || log == LogPending
  }

  lemma Sweeps(s: Sys, ticket: TicketStatus, outcome: LogStatus)
    requires One(s, ticket, outcome, map[1 := 1]) && Rests(outcome)
    ensures One(Next(s, RecoverStale(0, 120)), ticket, outcome, map[1 := 1])
  {
    hide IsStale, LockFree;
    assert Next(s, RecoverStale(0, 120)).db.logs[1] == s.db.logs[1] by {
      RestingIsNotStale(s.db.logs[1]);
    }
  }

  lemma RequeuesNothing(s: Sys, ticket: TicketStatus, outcome: LogStatus)
    requires One(s, ticket, outcome, map[1 := 1]) && Rests(outcome)
    ensures One(Next(s, Requeue), ticket, outcome, map[1 := 1])
  {
  }

  lemma RestingIsNotStale(l: DeployLog)
    requires Rests(l.status)
    ensures !IsStale(l, 0, 120)
  {
  }

  lemma OnlyLogIs(s: Sys, ticket: TicketStatus, outcome: LogStatus, status: LogStatus)
    requires One(s, ticket, outcome, map[1 := 1])
    ensures HasLog(s.db, 1, status) <==> status == outcome
  {
    assert s.db.logs[1].status == status ==> HasLog(s.db, 1, status);
  }

  lemma ConvergeOne(s: Sys, ticket: TicketStatus, outcome: LogStatus, log: LogStatus, to: TicketStatus)
    requires One(s, ticket, outcome, map[1 := 1])
    ensures One(s.(db := Converge(s.db, log, to, 0)), if ticket == Deploying && outcome == log then to
      else ticket, outcome, map[1 := 1])
  {
    OnlyLogIs(s, ticket, outcome, log);
    hide HasLog, NewestLog;
  }

  lemma ConvergesOk(s: Sys, ticket: TicketStatus, outcome: LogStatus)
    requires One(s, ticket, outcome, map[1 := 1])
    ensures One(Next(s, ConvergeOk(0)), if ticket == Deploying && outcome == LogOk then Deployed
      else ticket, outcome, map[1 := 1])
  {
    hide One, Converge;
    assert Next(s, ConvergeOk(0)) == s.(db := Converge(s.db, LogOk, Deployed, 0));
    hide Next;
    ConvergeOne(s, ticket, outcome, LogOk, Deployed);
  }

  lemma ConvergesFailed(s: Sys, ticket: TicketStatus, outcome: LogStatus)
    requires One(s, ticket, outcome, map[1 := 1])
    ensures One(Next(s, ConvergeFailed(0)), if ticket == Deploying && outcome == LogFailed then Failed
      else ticket, outcome, map[1 := 1])
  {
    hide One, Converge;
    assert Next(s, ConvergeFailed(0)) == s.(db := Converge(s.db, LogFailed, Failed, 0));
    hide Next;
    ConvergeOne(s, ticket, outcome, LogFailed, Failed);
  }

  lemma ReturnsOrphan(s: Sys, ticket: TicketStatus, outcome: LogStatus)
    requires One(s, ticket, outcome, map[1 := 1]) && Rests(outcome)
    ensures One(Next(s, RecoverOrphans(0)), if ticket == Deploying then Approved else ticket, outcome, map[1 := 1])
  {
    OnlyLogIs(s, ticket, outcome, LogRunning);
    hide HasLog;
  }

  lemma SweepIs(a: Sys, outcome: LogStatus)
    requires One(a, Deploying, outcome, map[1 := 1]) && Rests(outcome)
    ensures One(Run(a, Sweep()), After(outcome), outcome, map[1 := 1])
  {
    hide Next, One;
    var b := Next(a, RecoverStale(0, 120));
    var c := Next(b, ConvergeOk(0));
    var d := Next(c, ConvergeFailed(0));
    var e := Next(d, RecoverOrphans(0));
    Sweeps(a, Deploying, outcome);
    ConvergesOk(b, Deploying, outcome);
    var ok := if outcome == LogOk then Deployed else Deploying;
    ConvergesFailed(c, ok, outcome);
    var ended := if outcome == LogFailed then Failed else ok;
    ReturnsOrphan(d, ended, outcome);
    RequeuesNothing(e, After(outcome), outcome);
    var orphans := [RecoverOrphans(0)] + [Requeue];
    var failed := [ConvergeFailed(0)] + orphans;
    var converge := [ConvergeOk(0)] + failed;
    RunOne(e, Requeue);
    RunFirst(d, RecoverOrphans(0), [Requeue]);
    RunFirst(c, ConvergeFailed(0), orphans);
    RunFirst(b, ConvergeOk(0), failed);
    RunFirst(a, RecoverStale(0, 120), converge);
  }

  lemma SweptIs(s: Sys, outcome: LogStatus)
    requires One(s, Deploying, LogRunning, map[1 := 1]) && EndStatus(outcome)
    ensures One(Run(s, Swept(outcome)), After(outcome), outcome, map[1 := 1])
  {
    hide Next, One, Run, Sweep;
    Finishes(s, outcome);
    SweepIs(Next(s, Finish(1, outcome)), outcome);
    RunFirst(s, Finish(1, outcome), Sweep());
  }

  /** The second thread's log runs and its ticket has ended. */
  ghost predicate Torn(db: Db, to: TicketStatus) {
    && 2 in db.logs && db.logs[2].status == LogRunning && db.logs[2].approvalId == 1
    && 1 in db.tickets && db.tickets[1].status == to
  }

  lemma ClaimsAgain(s: Sys, outcome: LogStatus)
    requires One(s, After(outcome), outcome, map[1 := 1]) && EndStatus(outcome)
    ensures var a := Next(s, ClaimTicket(2, 1, 0));
            if CrashTier.Outcome(outcome) then a == s else One(a, Deploying, outcome, map[1 := 1, 2 := 1])
  {
  }

  lemma StartsAgain(s: Sys, outcome: LogStatus)
    requires One(s, Deploying, outcome, map[1 := 1, 2 := 1]) && EndStatus(outcome)
    ensures Torn(Next(s, StartForTicket(2, NEED, "b", 0)).db, Deploying)
  {
    assert LockFree(s.db, "web", 0);
  }

  lemma LateIs(s: Sys, outcome: LogStatus, to: TicketStatus, deployId: Option<nat>)
    requires One(s, After(outcome), outcome, map[1 := 1]) && EndStatus(outcome)
      && CrashTier.Reported(outcome, to)
    ensures var b := Next(Next(s, ClaimTicket(2, 1, 0)), StartForTicket(2, NEED, "b", 0));
            var c := Next(b, SettleTicket(1, to, deployId, 0));
            if CrashTier.Outcome(outcome) then c == s else Torn(c.db, to)
  {
    ClaimsAgain(s, outcome);
    if CrashTier.Outcome(outcome) {
      NothingLeft(s, outcome, to, deployId);
    } else {
      var a := Next(s, ClaimTicket(2, 1, 0));
      StartsAgain(a, outcome);
      SettlesLate(Next(a, StartForTicket(2, NEED, "b", 0)), to, deployId);
    }
    hide Next, One, Torn;
  }

  lemma NothingLeft(s: Sys, outcome: LogStatus, to: TicketStatus, deployId: Option<nat>)
    requires One(s, After(outcome), outcome, map[1 := 1]) && CrashTier.Outcome(outcome)
    ensures Next(s, StartForTicket(2, NEED, "b", 0)) == s
    ensures Next(s, SettleTicket(1, to, deployId, 0)) == s
  {
    hide InsertRunning;
  }

  lemma SettlesLate(s: Sys, to: TicketStatus, deployId: Option<nat>)
    requires Torn(s.db, Deploying) && to in {Failed, TicketStatus.Cancelled}
    ensures Torn(Next(s, SettleTicket(1, to, deployId, 0)).db, to)
  {
  }

  /** From the empty store, for every outcome the first thread may write and every ticket status it
      may report for it: the run ends with a running log whose ticket has ended exactly if the
      outcome was partial or terminated. */
  lemma LateWriteTearsIff(outcome: LogStatus, to: TicketStatus, deployId: Option<nat>)
    requires EndStatus(outcome) && CrashTier.Reported(outcome, to)
    ensures var s := Run(INIT, Claimed() + (Swept(outcome) + Late(to, deployId)));
            && (outcome in {LogPartial, LogTerminated} ==> Torn(s.db, to))
            && (!CrashTier.RunsMatchTickets(s.db) <==> outcome in {LogPartial, LogTerminated})
  {
    hide Next;
    ClaimedIs();
    var a := Run(INIT, Claimed());
    SweptIs(a, outcome);
    var b := Run(a, Swept(outcome));
    LateIs(b, outcome, to, deployId);
    RunConcat(INIT, Claimed(), Swept(outcome) + Late(to, deployId));
    RunConcat(a, Swept(outcome), Late(to, deployId));
    var c := Next(b, ClaimTicket(2, 1, 0));
    RunFirst(b, ClaimTicket(2, 1, 0), [StartForTicket(2, NEED, "b", 0)] + [SettleTicket(1, to, deployId, 0)]);
    RunFirst(c, StartForTicket(2, NEED, "b", 0), [SettleTicket(1, to, deployId, 0)]);
    RunOne(Next(c, StartForTicket(2, NEED, "b", 0)), SettleTicket(1, to, deployId, 0));
    hide Claimed, Swept, Late, Run;
    Consequence(Run(INIT, Claimed() + (Swept(outcome) + Late(to, deployId))), b, outcome, to);
  }

  lemma Consequence(s: Sys, b: Sys, outcome: LogStatus, to: TicketStatus)
    requires EndStatus(outcome) && CrashTier.Reported(outcome, to)
      && One(b, After(outcome), outcome, map[1 := 1])
    requires if CrashTier.Outcome(outcome) then s == b else Torn(s.db, to)
    ensures !CrashTier.RunsMatchTickets(s.db) <==> outcome in {LogPartial, LogTerminated}
  {
    if Torn(s.db, to) {
      assert CrashTier.RunsFor(s.db, 2);
    }
  }

  // ── A sweep before the log is claimed ──

  /** Thread 2 claims the returned ticket, thread 1 claims its log, and thread 2, which finds the
      project busy, hands the ticket back. */
  function Rivals(): seq<Step> {
    [ClaimTicket(2, 1, 0)]
      + ([ClaimPending(1, 1, "web", "a", 0)] + [SettleTicket(1, TicketStatus.Approved, None, 0)])
  }

  lemma RivalsAre(s: Sys)
    requires One(s, TicketStatus.Approved, LogPending, map[1 := 1])
    ensures One(Run(s, Rivals()), TicketStatus.Approved, LogRunning, map[1 := 1, 2 := 1])
  {
    hide Next, One;
    var a := Next(s, ClaimTicket(2, 1, 0));
    var b := Next(a, ClaimPending(1, 1, "web", "a", 0));
    RivalClaims(s);
    FirstClaimsLog(a);
    RivalHandsBack(b);
    var last := [SettleTicket(1, TicketStatus.Approved, None, 0)];
    RunOne(b, SettleTicket(1, TicketStatus.Approved, None, 0));
    RunFirst(a, ClaimPending(1, 1, "web", "a", 0), last);
    RunFirst(s, ClaimTicket(2, 1, 0), [ClaimPending(1, 1, "web", "a", 0)] + last);
  }

  lemma RivalClaims(s: Sys)
    requires One(s, TicketStatus.Approved, LogPending, map[1 := 1])
    ensures One(Next(s, ClaimTicket(2, 1, 0)), Deploying, LogPending, map[1 := 1, 2 := 1])
  {
  }

  lemma FirstClaimsLog(s: Sys)
    requires One(s, Deploying, LogPending, map[1 := 1, 2 := 1])
    ensures One(Next(s, ClaimPending(1, 1, "web", "a", 0)), Deploying, LogRunning, map[1 := 1, 2 := 1])
  {
  }

  lemma RivalHandsBack(s: Sys)
    requires One(s, Deploying, LogRunning, map[1 := 1, 2 := 1])
    ensures One(Next(s, SettleTicket(1, TicketStatus.Approved, None, 0)), TicketStatus.Approved, LogRunning,
      map[1 := 1, 2 := 1])
  {
  }

  lemma RivalResets(s: Sys)
    requires One(s, TicketStatus.Approved, LogRunning, map[1 := 1, 2 := 1])
    ensures One(Next(s, Reset(1)), TicketStatus.Approved, LogPending, map[1 := 1, 2 := 1])
    ensures LockFree(Next(s, Reset(1)).db, "web", 0)
  {
  }

  /** From the empty store: the run ends with a running log whose ticket is approved, and the reset
      after it puts that log back and frees the project while thread 1 still executes. */
  lemma EarlySweepFreesLock()
    ensures var s := Run(INIT, Taken() + (Sweep() + Rivals()));
            && One(s, TicketStatus.Approved, LogRunning, map[1 := 1, 2 := 1]) && !CrashTier.RunsMatchTickets(s.db)
            && One(Next(s, Reset(1)), TicketStatus.Approved, LogPending, map[1 := 1, 2 := 1])
            && LockFree(Next(s, Reset(1)).db, "web", 0)
  {
    hide Next, One, Run, Taken, Sweep, Rivals, LockFree, CrashTier.RunsMatchTickets;
    TakenIs();
    var a := Run(INIT, Taken());
    SweepIs(a, LogPending);
    var b := Run(a, Sweep());
    RivalsAre(b);
    RunConcat(INIT, Taken(), Sweep() + Rivals());
    RunConcat(a, Sweep(), Rivals());
    RivalResets(Run(b, Rivals()));
    ApprovedRunIsTorn(Run(b, Rivals()));
  }

  lemma ApprovedRunIsTorn(s: Sys)
    requires One(s, TicketStatus.Approved, LogRunning, map[1 := 1, 2 := 1])
    ensures !CrashTier.RunsMatchTickets(s.db)
  {
    assert CrashTier.RunsFor(s.db, 1);
  }
}
