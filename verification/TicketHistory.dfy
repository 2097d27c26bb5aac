/** Whole-run properties of tickets at the statement tier: one-shot claims and four eyes. */
module TicketHistory {
  import opened Wrappers
  import opened Text
  import opened Tables
  import opened Statements
  import opened StatementTier

  function StatusOf(s: Sys, id: nat): Option<TicketStatus> {
    if id in s.db.tickets then Some(s.db.tickets[id].status) else None
  }

  /** The ticket had this status at some moment of the run. */
  predicate Ever(steps: seq<Step>, id: nat, status: TicketStatus) {
    StatusOf(Run(INIT, steps), id) == Some(status) || (steps != [] && Ever(steps[..|steps| - 1], id, status))
  }

  /** This step is a claim of the ticket, and its UPDATE hits the row. */
  predicate WinsClaim(s: Sys, step: Step, id: nat) {
    step.ClaimTicket? && step.id == id && Enabled(s, step) && StatusOf(s, id) == Some(Approved)
  }

  /** This step returns the ticket to approved: busy, a failed scheduled run, or recovery. */
  predicate HandsBack(s: Sys, step: Step, id: nat) {
    StatusOf(s, id) == Some(Deploying) && StatusOf(Next(s, step), id) == Some(Approved)
  }

  function Claims(steps: seq<Step>, id: nat): nat {
    if steps == [] then 0
    else
      var n := |steps| - 1;
      Claims(steps[..n], id) + if WinsClaim(Run(INIT, steps[..n]), steps[n], id) then 1 else 0
  }

  function HandBacks(steps: seq<Step>, id: nat): nat {
    if steps == [] then 0
    else
      var n := |steps| - 1;
      HandBacks(steps[..n], id) + if HandsBack(Run(INIT, steps[..n]), steps[n], id) then 1 else 0
  }

  lemma LogStepsKeepTickets(s: Sys, step: Step)
    requires !WritesTickets(step)
    ensures Next(s, step).db.tickets == s.db.tickets
  {
  }

  /** Only a won claim makes a ticket deploying. */
  lemma OnlyClaimsDeploy(s: Sys, step: Step, id: nat)
    requires IdsFresh(s.db) && StatusOf(s, id) != Some(Deploying)
    ensures StatusOf(Next(s, step), id) == Some(Deploying) <==> WinsClaim(s, step, id)
  {
    hide InsertRunning, InsertPending, ClaimLog, FinishByProject, InterruptStale, Heartbeat, HasLog, NewestLog;
    if !WritesTickets(step) {
      LogStepsKeepTickets(s, step);
    }
  }

  lemma NewTickets(s: Sys, step: Step, id: nat)
    requires IdsFresh(s.db) && StatusOf(s, id).None?
    ensures StatusOf(Next(s, step), id) in {None, Some(Pending), Some(Approved)}
  {
    if !WritesTickets(step) {
      LogStepsKeepTickets(s, step);
    }
  }

  /** What one step does to the status of one ticket. */
  lemma StatusStep(s: Sys, step: Step, id: nat)
    requires Valid(s.db)
    ensures var before, after := StatusOf(s, id), StatusOf(Next(s, step), id);
            && (before.None? ==> after in {None, Some(Pending), Some(Approved)})
            && (before.Some? ==> after.Some? && TicketEdge(before.value, after.value))
            && (before != Some(Deploying) ==> (after == Some(Deploying) <==> WinsClaim(s, step, id)))
  {
    StepKeeps(s, step);
    hide Next;
    if StatusOf(s, id).None? {
      NewTickets(s, step, id);
    }
    if StatusOf(s, id) != Some(Deploying) {
      OnlyClaimsDeploy(s, step, id);
    }
  }

  /** However many threads claim at once: wins minus hand-backs is 0 or 1. It is 1 while the
      ticket is out or was spent, 0 while it can still be claimed. */
  lemma {:induction false} ClaimAccounting(steps: seq<Step>, id: nat)
    ensures 0 <= Claims(steps, id) - HandBacks(steps, id) <= 1
    ensures var status := StatusOf(Run(INIT, steps), id);
            && (status in {Some(Deploying), Some(Deployed), Some(Failed)} ==>
                Claims(steps, id) == HandBacks(steps, id) + 1)
            && (status in {None, Some(Pending), Some(Approved), Some(Rejected)} ==>
                Claims(steps, id) == HandBacks(steps, id))
  {
    hide Next, Valid;
    if steps != [] {
      var n := |steps| - 1;
      ClaimAccounting(steps[..n], id);
      ProjectLock(steps[..n]);
      StatusStep(Run(INIT, steps[..n]), steps[n], id);
    }
  }

  predicate Spent(status: TicketStatus) {
    status in {Deployed, Failed, Rejected, Cancelled}
  }

  /** The four end states are absorbing on every continuation of every run. */
  lemma {:induction false} SpentForGood(s: Sys, steps: seq<Step>, id: nat)
    requires Valid(s.db) && StatusOf(s, id).Some? && Spent(StatusOf(s, id).value)
    ensures Valid(Run(s, steps).db) && StatusOf(Run(s, steps), id) == StatusOf(s, id)
  {
    if steps != [] {
      var n := |steps| - 1;
      SpentForGood(s, steps[..n], id);
      StepKeeps(Run(s, steps[..n]), steps[n]);
      StatusStep(Run(s, steps[..n]), steps[n], id);
    }
  }

  // ── Four eyes ──

  /** A thread that executes a ticket holds one that was approved before. */
  lemma {:induction false} ThreadsHoldApproved(steps: seq<Step>, thread: nat)
    requires thread in Run(INIT, steps).threads
    ensures Ever(steps, Run(INIT, steps).threads[thread], Approved)
  {
    if steps != [] {
      var n := |steps| - 1;
      var s := Run(INIT, steps[..n]);
      if thread in s.threads && s.threads[thread] == Run(INIT, steps).threads[thread] {
        ThreadsHoldApproved(steps[..n], thread);
      } else {
        assert StatusOf(s, steps[n].id) == Some(Approved);
        assert Ever(steps[..n], steps[n].id, Approved);
      }
    }
  }

  /** A log starts running through a thread that holds its ticket, or directly for no ticket. */
  lemma WhoStarts(s: Sys, step: Step, logId: nat)
    requires IdsFresh(s.db) && logId in Next(s, step).db.logs && Next(s, step).db.logs[logId].status == LogRunning
    requires logId in s.db.logs ==> s.db.logs[logId].status != LogRunning
    ensures var ticket := Next(s, step).db.logs[logId].approvalId;
            ticket == 0 || (exists t :: t in s.threads && s.threads[t] == ticket)
  {
    if WritesTickets(step) {
      TicketStepsKeepLogs(s, step);
    } else {
      match step
      case ClaimPending(t, _, _, _, _) =>
      case StartForTicket(t, _, _, _) =>
      case StartDirect(_, _, _) =>
      case _ =>
    }
  }

  /** No log of a ticket ever runs unless that ticket reached approved before. */
  lemma {:induction false} RunningWasApproved(steps: seq<Step>, logId: nat)
    requires var db := Run(INIT, steps).db;
             logId in db.logs && db.logs[logId].status == LogRunning && db.logs[logId].approvalId > 0
    ensures Ever(steps, Run(INIT, steps).db.logs[logId].approvalId, Approved)
  {
    if steps != [] {
      var n := |steps| - 1;
      var s := Run(INIT, steps[..n]);
      ProjectLock(steps[..n]);
      StepKeeps(s, steps[n]);
      hide Next, GoodStep, Valid;
      if logId in s.db.logs && s.db.logs[logId].status == LogRunning {
        RunningWasApproved(steps[..n], logId);
      } else {
        WhoStarts(s, steps[n], logId);
        var t :| t in s.threads && s.threads[t] == Run(INIT, steps).db.logs[logId].approvalId;
        ThreadsHoldApproved(steps[..n], t);
      }
    }
  }

  lemma {:induction false} TicketsStay(steps: seq<Step>, id: nat, status: TicketStatus)
    requires Ever(steps, id, status)
    ensures StatusOf(Run(INIT, steps), id).Some?
  {
    if StatusOf(Run(INIT, steps), id) != Some(status) {
      var n := |steps| - 1;
      TicketsStay(steps[..n], id, status);
      ProjectLock(steps[..n]);
      StatusStep(Run(INIT, steps[..n]), steps[n], id);
    }
  }

  /** Once approved, a ticket neither waits for a decision nor is rejected. */
  lemma {:induction false} AfterApproval(steps: seq<Step>, id: nat)
    requires Ever(steps, id, Approved)
    ensures StatusOf(Run(INIT, steps), id) in {Some(Approved), Some(Deploying), Some(Deployed), Some(Failed),
      Some(Cancelled)}
  {
    hide Next, Valid;
    if StatusOf(Run(INIT, steps), id) != Some(Approved) {
      var n := |steps| - 1;
      AfterApproval(steps[..n], id);
      ProjectLock(steps[..n]);
      StatusStep(Run(INIT, steps[..n]), steps[n], id);
    }
  }

  lemma {:induction false} DeployingWasApproved(steps: seq<Step>, id: nat)
    requires StatusOf(Run(INIT, steps), id) in {Some(Deploying), Some(Deployed), Some(Failed)}
    ensures Ever(steps, id, Approved)
  {
    hide Next, Valid;
    if steps != [] {
      var n := |steps| - 1;
      ProjectLock(steps[..n]);
      StatusStep(Run(INIT, steps[..n]), steps[n], id);
      if StatusOf(Run(INIT, steps[..n]), id) != Some(Approved) {
        DeployingWasApproved(steps[..n], id);
      }
    }
  }

  /** The approver column is written only while the ticket waits for a decision. */
  lemma ApproverStays(s: Sys, step: Step, id: nat)
    requires IdsFresh(s.db) && id in s.db.tickets && s.db.tickets[id].status != Pending
    ensures id in Next(s, step).db.tickets && Next(s, step).db.tickets[id].approver == s.db.tickets[id].approver
  {
    hide InsertRunning, InsertPending, ClaimLog, FinishByProject, InterruptStale, Heartbeat, HasLog, NewestLog;
    if !WritesTickets(step) {
      LogStepsKeepTickets(s, step);
    }
  }

  /** The user who approved: somebody whose approval passed the four-eyes check. */
  predicate ApprovedBy(steps: seq<Step>, id: nat, user: string, requester: string) {
    exists k :: 0 <= k < |steps| && steps[k].Approve? && steps[k].id == id && steps[k].user == user
                && !SelfApproval(requester, user)
  }

  lemma PendingToApproved(s: Sys, step: Step, id: nat)
    requires IdsFresh(s.db) && StatusOf(s, id) == Some(Pending) && StatusOf(Next(s, step), id) == Some(Approved)
    ensures step.Approve? && step.id == id && !SelfApproval(s.db.tickets[id].requester, step.user)
    ensures Next(s, step).db.tickets[id].approver == step.user
    ensures Next(s, step).db.tickets[id].requester == s.db.tickets[id].requester
  {
    if !WritesTickets(step) {
      LogStepsKeepTickets(s, step);
    }
  }

  lemma {:induction false} StoredApproverApproved(steps: seq<Step>, id: nat)
    requires Ever(steps, id, Pending) && Ever(steps, id, Approved)
    ensures id in Run(INIT, steps).db.tickets
    ensures var t := Run(INIT, steps).db.tickets[id];
            ApprovedBy(steps, id, t.approver, t.requester)
  {
    hide Next, Valid;
    if steps != [] {
      var n := |steps| - 1;
      var s := Run(INIT, steps[..n]);
      TicketsStay(steps, id, Approved);
      AfterApproval(steps, id);
      assert Ever(steps[..n], id, Pending);
      TicketsStay(steps[..n], id, Pending);
      ProjectLock(steps[..n]);
      StepKeeps(s, steps[n]);
      StatusStep(s, steps[n], id);
      if Ever(steps[..n], id, Approved) {
        StoredApproverApproved(steps[..n], id);
        AfterApproval(steps[..n], id);
        ApproverStays(s, steps[n], id);
        var t := s.db.tickets[id];
        var k :| 0 <= k < n && steps[k].Approve? && steps[k].id == id && steps[k].user == t.approver;
        assert steps[..n][k] == steps[k];
      } else {
        if StatusOf(s, id) == Some(Deploying) {
          DeployingWasApproved(steps[..n], id);
        }
        PendingToApproved(s, steps[n], id);
      }
    }
  }

  /** A ticket that was once pending and got approved carries, from then on, the name of a user
      who approved it; that name differs from the requester's unless both are blank. */
  lemma FourEyes(steps: seq<Step>, id: nat)
    requires Ever(steps, id, Pending) && Ever(steps, id, Approved)
    ensures id in Run(INIT, steps).db.tickets
    ensures var t := Run(INIT, steps).db.tickets[id];
            && ApprovedBy(steps, id, t.approver, t.requester)
            && (Strip(t.approver) == Strip(t.requester) <==> Strip(t.approver) == "" && Strip(t.requester) == "")
  {
    StoredApproverApproved(steps, id);
  }

  /** With blank names the check lets a requester approve: the exception in FourEyes is real. */
  lemma BlankNamesPass()
    ensures var steps := [SubmitTicket("p", "", "", true, 0), Approve(1, "", 0)];
            && Ever(steps, 1, Pending) && StatusOf(Run(INIT, steps), 1) == Some(Approved)
            && Run(INIT, steps).db.tickets[1].approver == Run(INIT, steps).db.tickets[1].requester
  {
    var submit, approve := SubmitTicket("p", "", "", true, 0), Approve(1, "", 0);
    var steps := [submit, approve];
    assert steps[..1] == [submit] && [submit][..0] == [];
    assert Run(INIT, [submit]) == Next(INIT, submit);
    assert StatusOf(Next(INIT, submit), 1) == Some(Pending);
    assert Ever([submit], 1, Pending);
    assert Run(INIT, steps) == Next(Next(INIT, submit), approve);
  }
}
