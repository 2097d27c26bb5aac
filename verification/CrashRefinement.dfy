/** The crash tier as runs of single statements: every step of it is a sequence of statements some
    thread issues, so whatever holds on all runs of statements holds on its runs. */
module CrashRefinement {
  import opened Wrappers
  import opened Tables
  import opened StatementTier
  import CrashTier
  import Recovery

  /** The ticket of each live thread that executes one. */
  function Tickets(live: map<nat, CrashTier.Exec>): map<nat, nat> {
    map t | t in live && live[t].ticket > 0 :: live[t].ticket
  }

  /** What the statement tier knows of a state. */
  function Abs(s: CrashTier.Sys): Sys {
    Sys(s.db, Tickets(s.live))
  }

  /** The code issues an approval or a rejection only after the four-eyes check. */
  predicate Checked(s: CrashTier.Sys, step: CrashTier.Step) {
    match step
    case Approve(id, user, _) => id in s.db.tickets && !SelfApproval(s.db.tickets[id].requester, user)
    case Reject(id, user, _) => id in s.db.tickets && !SelfApproval(s.db.tickets[id].requester, user)
    case _ => true
  }

  /** The claim of a ticket's log: its newest pending log if it has one, else a new one. */
  function LogClaim(db: Db, thread: nat, id: nat, req: Request, runner: string, now: int): Step {
    var newest := NewestLog(db, id, LogPending);
    if newest.Some? then ClaimPending(thread, newest.value, req.project, runner, now)
    else StartForTicket(thread, req, runner, now)
  }

  function ExecuteScript(db: Db, thread: nat, id: nat, req: Request, runner: string, now: int): seq<Step> {
    var claimed := Move(db, id, {TicketStatus.Approved}, Deploying, None, None, now);
    var claims := [ClaimTicket(thread, id, now)] + [LogClaim(claimed, thread, id, req, runner, now)];
    if CrashTier.ClaimOrStart(claimed, id, req, runner, now).Some? then claims
    else claims + ([SettleTicket(id, TicketStatus.Approved, None, now)] + ([Reset(id)] + [EndThread(thread)]))
  }

  function SettleScript(ticket: nat, to: TicketStatus, deployId: Option<nat>, now: int): seq<Step> {
    if ticket > 0 then [SettleTicket(ticket, to, deployId, now)] else []
  }

  function SweepScript(now: int): seq<Step> {
    [RecoverStale(now, 120)] + ([ConvergeOk(now)] + ([ConvergeFailed(now)] + ([RecoverOrphans(now)] + [Requeue])))
  }

  /** The statements a step of the crash tier stands for. */
  function Script(s: CrashTier.Sys, step: CrashTier.Step): seq<Step>
    requires CrashTier.Enabled(s, step)
  {
    match step
    case Submit(p, r, at, needs, now) => [SubmitTicket(p, r, at, needs, now)]
    case SubmitLog(req, id) => [SubmitLog(req, id)]
    case Approve(id, user, now) => [Approve(id, user, now)]
    case Reject(id, user, now) => [Reject(id, user, now)]
    case Withdraw(id, now) => [Withdraw(id, now)]
    case CloseLogs(id, outcome) => [CloseLogs(id, outcome)]
    case Execute(thread, id, req, runner, now) => ExecuteScript(s.db, thread, id, req, runner, now)
    case ExecuteRefused(thread, id, to, now) =>
      [ClaimTicket(thread, id, now)] + ([SettleTicket(id, to, None, now)] + [EndThread(thread)])
    case CrashBeforeLog(thread, id, now) => [ClaimTicket(thread, id, now)] + [EndThread(thread)]
    case StartDirect(_, req, runner, now) => [StartDirect(req, runner, now)]
    case Finish(thread, outcome, to, deployId, now) =>
      [Finish(s.live[thread].log, outcome)]
        + (SettleScript(s.live[thread].ticket, to, deployId, now) + [EndThread(thread)])
    case WriteLog(thread, outcome) => [Finish(s.live[thread].log, outcome)]
    case WriteTicket(thread, to, deployId, now) =>
      SettleScript(s.live[thread].ticket, to, deployId, now) + [EndThread(thread)]
    case FinishThenCrash(thread, outcome) => [Finish(s.live[thread].log, outcome)] + [EndThread(thread)]
    case Crash(thread) => [EndThread(thread)]
    case Beat(ids, runner, now) => [Beat(ids, runner, now)]
    case Recover(now) => SweepScript(now)
  }

  lemma ThreadLeaves(live: map<nat, CrashTier.Exec>, thread: nat)
    ensures Tickets(live - {thread}) == Tickets(live) - {thread}
  {
  }

  lemma ThreadEnters(live: map<nat, CrashTier.Exec>, thread: nat, e: CrashTier.Exec)
    requires thread !in live
    ensures thread !in Tickets(live) && Tickets(live) - {thread} == Tickets(live)
    ensures Tickets(live[thread := e]) == if e.ticket > 0 then Tickets(live)[thread := e.ticket] else Tickets(live)
  {
  }

  lemma ThreadStays(live: map<nat, CrashTier.Exec>, thread: nat, phase: CrashTier.Phase)
    requires thread in live
    ensures Tickets(live[thread := live[thread].(phase := phase)]) == Tickets(live)
  {
  }

  lemma EnterAndLeave(threads: map<nat, nat>, thread: nat, id: nat)
    requires thread !in threads
    ensures threads[thread := id] - {thread} == threads
  {
  }

  predicate IsSingle(step: CrashTier.Step) {
    step.Submit? || step.SubmitLog? || step.Approve? || step.Reject? || step.Withdraw? || step.CloseLogs? || step.Beat?
  }

  lemma SingleIsScript(s: CrashTier.Sys, step: CrashTier.Step)
    requires CrashTier.Enabled(s, step) && Checked(s, step) && IsSingle(step)
    ensures Run(Abs(s), Script(s, step)) == Abs(CrashTier.Next(s, step))
  {
    hide InsertTicket, InsertPending, Move, ClosePending, Heartbeat, Run;
    RunOne(Abs(s), Script(s, step)[0]);
    assert Script(s, step) == [Script(s, step)[0]];
  }

  lemma DirectIsScript(s: CrashTier.Sys, step: CrashTier.Step)
    requires CrashTier.Enabled(s, step) && step.StartDirect?
    ensures Run(Abs(s), Script(s, step)) == Abs(CrashTier.Next(s, step))
  {
    hide InsertRunning, Run, Tickets;
    RunOne(Abs(s), StartDirect(step.req, step.runner, step.now));
    ThreadEnters(s.live, step.thread, CrashTier.Exec(0, s.db.nextLog, CrashTier.Running));
  }

  lemma ClaimsTicket(s: Sys, thread: nat, id: nat, now: int)
    requires thread !in s.threads && CanMove(s.db, id, {TicketStatus.Approved})
    ensures Next(s, ClaimTicket(thread, id, now))
      == Sys(Move(s.db, id, {TicketStatus.Approved}, Deploying, None, None, now), s.threads[thread := id])
  {
    hide Move;
  }

  lemma ClaimsLog(s: Sys, thread: nat, id: nat, req: Request, runner: string, now: int)
    requires thread in s.threads && s.threads[thread] == id > 0
    ensures var started := CrashTier.ClaimOrStart(s.db, id, req, runner, now);
            Next(s, LogClaim(s.db, thread, id, req, runner, now))
              == s.(db := if started.Some? then started.value else s.db)
  {
    hide ClaimLog, InsertRunning;
  }

  lemma ExecuteIsScript(s: CrashTier.Sys, step: CrashTier.Step)
    requires CrashTier.Enabled(s, step) && step.Execute?
    ensures Run(Abs(s), Script(s, step)) == Abs(CrashTier.Next(s, step))
  {
    hide Run, Next, LogClaim, CrashTier.ClaimOrStart, CrashTier.ClaimedLog, Move, ResetRunning, Tickets;
    var a, thread, id := Abs(s), step.thread, step.id;
    var claimed := Move(s.db, id, {TicketStatus.Approved}, Deploying, None, None, step.now);
    ThreadEnters(s.live, thread, CrashTier.Exec(id, CrashTier.ClaimedLog(claimed, id), CrashTier.Running));
    var b := Next(a, ClaimTicket(thread, id, step.now));
    ClaimsTicket(a, thread, id, step.now);
    var claim := LogClaim(b.db, thread, id, step.req, step.runner, step.now);
    ClaimsLog(b, thread, id, step.req, step.runner, step.now);
    var c := Next(b, claim);
    RunFirst(a, ClaimTicket(thread, id, step.now), [claim]);
    RunOne(b, claim);
    if CrashTier.ClaimOrStart(claimed, id, step.req, step.runner, step.now).None? {
      HandsBackScript(c, thread, id, step.now);
      RunConcat(a, [ClaimTicket(thread, id, step.now)] + [claim],
                [SettleTicket(id, TicketStatus.Approved, None, step.now)] + ([Reset(id)] + [EndThread(thread)]));
      EnterAndLeave(a.threads, thread, id);
    }
  }

  lemma HandsBackScript(s: Sys, thread: nat, id: nat, now: int)
    ensures Run(s, [SettleTicket(id, TicketStatus.Approved, None, now)] + ([Reset(id)] + [EndThread(thread)]))
      == Sys(ResetRunning(Move(s.db, id, {Deploying}, TicketStatus.Approved, None, None, now), id),
             s.threads - {thread})
  {
    hide Run, Move, ResetRunning;
    var settle := SettleTicket(id, TicketStatus.Approved, None, now);
    RunFirst(s, settle, [Reset(id)] + [EndThread(thread)]);
    RunFirst(Next(s, settle), Reset(id), [EndThread(thread)]);
    RunOne(Next(Next(s, settle), Reset(id)), EndThread(thread));
  }

  lemma RefusedIsScript(s: CrashTier.Sys, step: CrashTier.Step)
    requires CrashTier.Enabled(s, step) && (step.ExecuteRefused? || step.CrashBeforeLog?)
    ensures Run(Abs(s), Script(s, step)) == Abs(CrashTier.Next(s, step))
  {
    hide Run, Move, Tickets;
    var a, thread, id := Abs(s), step.thread, step.id;
    ThreadEnters(s.live, thread, CrashTier.Exec(0, 0, CrashTier.Running));
    ClaimsTicket(a, thread, id, step.now);
    var b := Next(a, ClaimTicket(thread, id, step.now));
    EnterAndLeave(a.threads, thread, id);
    if step.ExecuteRefused? {
      var settle := SettleTicket(id, step.to, None, step.now);
      RunFirst(a, ClaimTicket(thread, id, step.now), [settle] + [EndThread(thread)]);
      RunFirst(b, settle, [EndThread(thread)]);
      RunOne(Next(b, settle), EndThread(thread));
    } else {
      RunFirst(a, ClaimTicket(thread, id, step.now), [EndThread(thread)]);
      RunOne(b, EndThread(thread));
    }
  }

  lemma SettlesScript(s: Sys, thread: nat, ticket: nat, to: TicketStatus, deployId: Option<nat>, now: int)
    requires to in {Deployed, Failed, TicketStatus.Cancelled}
    ensures Run(s, SettleScript(ticket, to, deployId, now) + [EndThread(thread)])
      == Sys(CrashTier.SettleTicket(s.db, ticket, to, deployId, now), s.threads - {thread})
  {
    hide Run, Move;
    if ticket > 0 {
      RunFirst(s, SettleTicket(ticket, to, deployId, now), [EndThread(thread)]);
      RunOne(Next(s, SettleTicket(ticket, to, deployId, now)), EndThread(thread));
    } else {
      assert [] + [EndThread(thread)] == [EndThread(thread)];
      RunOne(s, EndThread(thread));
    }
  }

  lemma FinishIsScript(s: CrashTier.Sys, step: CrashTier.Step)
    requires CrashTier.Enabled(s, step)
    requires step.Finish? || step.WriteLog? || step.WriteTicket? || step.FinishThenCrash? || step.Crash?
    ensures Run(Abs(s), Script(s, step)) == Abs(CrashTier.Next(s, step))
  {
    hide Run, Move, FinishLog, SettleScript, CrashTier.SettleTicket, Tickets;
    var a, thread := Abs(s), step.thread;
    var e := s.live[thread];
    ThreadLeaves(s.live, thread);
    match step
    case Finish(_, outcome, to, deployId, now) =>
      var ends := Finish(e.log, outcome);
      RunFirst(a, ends, SettleScript(e.ticket, to, deployId, now) + [EndThread(thread)]);
      SettlesScript(Next(a, ends), thread, e.ticket, to, deployId, now);
    case WriteLog(_, outcome) =>
      RunOne(a, Finish(e.log, outcome));
      ThreadStays(s.live, thread, CrashTier.Written(outcome));
    case WriteTicket(_, to, deployId, now) =>
      SettlesScript(a, thread, e.ticket, to, deployId, now);
    case FinishThenCrash(_, outcome) =>
      RunFirst(a, Finish(e.log, outcome), [EndThread(thread)]);
      RunOne(Next(a, Finish(e.log, outcome)), EndThread(thread));
    case Crash(_) =>
      RunOne(a, EndThread(thread));
  }

  lemma SweepStatements(s: Sys, now: int)
    ensures Next(Next(Next(Next(Next(s, RecoverStale(now, 120)), ConvergeOk(now)), ConvergeFailed(now)),
                      RecoverOrphans(now)), Requeue)
      == s.(db := Recovery.Recovered(s.db, now))
  {
    hide InterruptStale, Converge, ReturnOrphans, RequeueInterrupted;
  }

  lemma SweepIsScript(s: Sys, now: int)
    ensures Run(s, SweepScript(now)) == s.(db := Recovery.Recovered(s.db, now))
  {
    hide Run, Next;
    SweepStatements(s, now);
    var b := Next(s, RecoverStale(now, 120));
    var c := Next(b, ConvergeOk(now));
    var d := Next(c, ConvergeFailed(now));
    var e := Next(d, RecoverOrphans(now));
    var orphans := [ConvergeFailed(now)] + ([RecoverOrphans(now)] + [Requeue]);
    RunFirst(s, RecoverStale(now, 120), [ConvergeOk(now)] + orphans);
    RunFirst(b, ConvergeOk(now), orphans);
    RunFirst(c, ConvergeFailed(now), [RecoverOrphans(now)] + [Requeue]);
    RunFirst(d, RecoverOrphans(now), [Requeue]);
    RunOne(e, Requeue);
  }

  /** Each step of the crash tier does what its statements do one after the other. */
  lemma StepIsScript(s: CrashTier.Sys, step: CrashTier.Step)
    requires CrashTier.Enabled(s, step) && Checked(s, step)
    ensures Run(Abs(s), Script(s, step)) == Abs(CrashTier.Next(s, step))
  {
    if IsSingle(step) {
      SingleIsScript(s, step);
    } else if step.Recover? {
      SweepIsScript(Abs(s), step.now);
    } else if step.StartDirect? {
      DirectIsScript(s, step);
    } else if step.Execute? {
      ExecuteIsScript(s, step);
    } else if step.ExecuteRefused? || step.CrashBeforeLog? {
      RefusedIsScript(s, step);
    } else {
      FinishIsScript(s, step);
    }
    hide *;
  }

  /** Every decision of the run passed the four-eyes check. */
  ghost predicate AllChecked(steps: seq<CrashTier.Step>) {
    forall k :: 0 <= k < |steps| ==> Checked(CrashTier.Run(CrashTier.INIT, steps[..k]), steps[k])
  }

  /** So every run of the crash tier is a run of single statements from the empty store, and reaches
      the same two tables. */
  lemma {:induction false} RunIsScript(steps: seq<CrashTier.Step>) returns (script: seq<Step>)
    requires AllChecked(steps)
    ensures Run(INIT, script) == Abs(CrashTier.Run(CrashTier.INIT, steps))
  {
    script := [];
    if steps != [] {
      var n := |steps| - 1;
      assert forall k :: 0 <= k < n ==> steps[..n][..k] == steps[..k];
      script := RunIsScript(steps[..n]);
      var s := CrashTier.Run(CrashTier.INIT, steps[..n]);
      hide Run, Abs, CrashTier.Enabled, Checked, Script, CrashTier.Next;
      if CrashTier.Enabled(s, steps[n]) {
        StepIsScript(s, steps[n]);
        RunConcat(INIT, script, Script(s, steps[n]));
        script := script + Script(s, steps[n]);
      }
      NextIs(s, steps[n]);
    }
  }

  lemma NextIs(s: CrashTier.Sys, step: CrashTier.Step)
    ensures !CrashTier.Enabled(s, step) ==> CrashTier.Next(s, step) == s
  {
  }
}
