/** `recover_on_startup`: one sweep of five UPDATEs, from any state of the two tables. */
module Recovery {
  import opened Wrappers
  import opened Tables
  import opened Text
  import opened Statements
  import opened Store
  import opened DeployRun

  const STALE_SECONDS := 120

  function Converged(db: Db, now: int): Db {
    Converge(Converge(db, LogOk, Deployed, now), LogFailed, Failed, now)
  }

  function Recovered(db: Db, now: int): Db {
    RequeueInterrupted(ReturnOrphans(Converged(InterruptStale(db, now, STALE_SECONDS), now), now))
  }

  /** What the sweep makes of one log. A run counts as dead if it names no runner, or has no stamp
      within STALE_SECONDS. A dead or interrupted log of a ticket waits again, a dead one outside
      any ticket is interrupted, both without a lock; no other log is written. */
  predicate SweptTo(l: DeployLog, l': DeployLog, now: int) {
    var dead := l.status == LogRunning
      && (l.runner == "" || l.heartbeatAt == "" || StrLess(l.heartbeatAt, Pad13(now - 120)));
    if l.approvalId > 0 && (dead || l.status == LogInterrupted) then l' == l.(status := LogPending, lockKey := None)
    else if dead then l' == l.(status := LogInterrupted, lockKey := None)
    else l' == l
  }

  lemma SweepOfLogs(db: Db, now: int)
    ensures var swept := Recovered(db, now);
            && swept.logs.Keys == db.logs.Keys && swept.tickets.Keys == db.tickets.Keys
            && swept.nextLog == db.nextLog && swept.nextTicket == db.nextTicket
            && forall id :: id in db.logs ==> SweptTo(db.logs[id], swept.logs[id], now)
  {
    hide StrLess, Pad13;
    var a := InterruptStale(db, now, STALE_SECONDS);
    var b := ReturnOrphans(Converged(a, now), now);
    assert b.logs == a.logs && b.tickets.Keys == db.tickets.Keys && b.nextLog == db.nextLog by {
      hide HasLog, NewestLog;
    }
    assert b.nextTicket == db.nextTicket;
    hide ReturnOrphans, Converged;
  }

  /** All five UPDATEs. */
  method RecoverOnStartup(db: Database, now: int) returns (recoveredLogs: nat)
    requires Valid(db.View())
    modifies db
    ensures Valid(db.View()) && db.View() == Recovered(old(db.View()), now)
    ensures db.logs.Keys == old(db.logs).Keys
    ensures forall id :: id in db.logs ==> SweptTo(old(db.logs)[id], db.logs[id], now)
    ensures recoveredLogs == |set id | id in old(db.logs) && IsStale(old(db.logs)[id], now, STALE_SECONDS)|
  {
    SweepOfLogs(db.View(), now);
    hide SweptTo;
    recoveredLogs := RecoverStaleRunning(db, now, STALE_SECONDS);
    ConvergeKeeps(db.View(), LogOk, Deployed, now);
    db.Commit(Converge(db.View(), LogOk, Deployed, now));
    ConvergeKeeps(db.View(), LogFailed, Failed, now);
    db.Commit(Converge(db.View(), LogFailed, Failed, now));
    ReturnOrphansKeeps(db.View(), now);
    db.Commit(ReturnOrphans(db.View(), now));
    RequeueKeeps(db.View());
    db.Commit(RequeueInterrupted(db.View()));
  }

  /** What a swept store looks like. */
  ghost predicate Clean(db: Db, now: int) {
    && (forall id :: id in db.logs ==> !IsStale(db.logs[id], now, STALE_SECONDS))
    && (forall id :: id in db.tickets && db.tickets[id].status == Deploying ==> HasLog(db, id, LogRunning))
    && (forall id :: id in db.tickets && id > 0 && db.tickets[id].status == Deploying ==>
        !HasLog(db, id, LogOk) && !HasLog(db, id, LogFailed))
    && (forall id :: id in db.logs && db.logs[id].approvalId > 0 ==> db.logs[id].status != LogInterrupted)
  }

  lemma SameLogsSameQueries(a: Db, b: Db, id: nat, status: LogStatus)
    requires a.logs == b.logs
    ensures HasLog(a, id, status) == HasLog(b, id, status)
  {
  }

  /** The last statement touches interrupted logs only, so it answers no other query differently. */
  lemma RequeueKeepsQueries(db: Db, id: nat, status: LogStatus)
    requires status in {LogOk, LogFailed, LogRunning}
    ensures HasLog(RequeueInterrupted(db), id, status) == HasLog(db, id, status)
  {
    var db' := RequeueInterrupted(db);
    if HasLog(db, id, status) {
      var l :| l in db.logs && db.logs[l].approvalId == id && db.logs[l].status == status;
      assert db'.logs[l].status == status;
    }
    if HasLog(db', id, status) {
      var l :| l in db'.logs && db'.logs[l].approvalId == id && db'.logs[l].status == status;
      assert db.logs[l].status == status;
    }
  }

  /** From any state at all, one sweep leaves no stale running log, no deploying ticket without a
      running log, and no interrupted log of a ticket. */
  lemma SweepCleans(db: Db, now: int)
    ensures Clean(Recovered(db, now), now)
  {
    var a := InterruptStale(db, now, STALE_SECONDS);
    var b := Converged(a, now);
    var c := ReturnOrphans(b, now);
    var d := Recovered(db, now);
    forall id | id in d.tickets && d.tickets[id].status == Deploying
      ensures HasLog(d, id, LogRunning)
      ensures id > 0 ==> !HasLog(d, id, LogOk) && !HasLog(d, id, LogFailed)
    {
      RequeueKeepsQueries(c, id, LogRunning);
      RequeueKeepsQueries(c, id, LogOk);
      RequeueKeepsQueries(c, id, LogFailed);
      assert c.logs == b.logs == a.logs;
      SameLogsSameQueries(c, b, id, LogRunning);
      SameLogsSameQueries(c, a, id, LogOk);
      SameLogsSameQueries(c, Converge(a, LogOk, Deployed, now), id, LogFailed);
    }
    forall id | id in d.logs
      ensures !IsStale(d.logs[id], now, STALE_SECONDS)
    {
      assert a.logs[id].status == LogRunning ==> a.logs[id] == db.logs[id];
    }
  }

  /** On a swept store a further sweep at the same instant matches no row: nothing changes,
      timestamps included. */
  lemma CleanIsFixed(db: Db, now: int)
    requires Clean(db, now) && 0 !in db.tickets
    ensures Recovered(db, now) == db
  {
    var a := InterruptStale(db, now, STALE_SECONDS);
    assert a.logs == db.logs;
    assert a == db;
    var b := Converge(a, LogOk, Deployed, now);
    assert b.tickets == a.tickets;
    var c := Converge(b, LogFailed, Failed, now);
    assert c.tickets == b.tickets;
    var d := ReturnOrphans(c, now);
    assert d.tickets == c.tickets;
    var e := RequeueInterrupted(d);
    assert e.logs == d.logs;
  }

  lemma SweepIsIdempotent(db: Db, now: int)
    requires IdsFresh(db)
    ensures Recovered(Recovered(db, now), now) == Recovered(db, now)
  {
    SweepCleans(db, now);
    CleanIsFixed(Recovered(db, now), now);
  }

  /** Two stores whose logs of a kind agree have the same newest log of that kind. */
  lemma SameNewest(a: Db, b: Db, id: nat, status: LogStatus)
    requires IdsFresh(a) && IdsFresh(b) && a.nextLog == b.nextLog
    requires forall l :: (l in a.logs && a.logs[l].approvalId == id && a.logs[l].status == status)
                         <==> (l in b.logs && b.logs[l].approvalId == id && b.logs[l].status == status)
    ensures HasLog(a, id, status) == HasLog(b, id, status)
    ensures NewestLog(a, id, status) == NewestLog(b, id, status)
    ensures HasLog(a, id, status) <==> NewestLog(a, id, status).Some?
  {
    var x, y := NewestLog(a, id, status), NewestLog(b, id, status);
    if x.Some? {
      assert x.value in b.logs && b.logs[x.value].approvalId == id;
    }
    if y.Some? {
      assert y.value in a.logs && a.logs[y.value].approvalId == id;
    }
  }

  /** The ticket ends so with this log, and keeps its other columns. */
  predicate Settles(t: Ticket, t': Ticket, to: TicketStatus, log: Option<nat>, now: int) {
    log.Some? && t' == t.(status := to, deployId := log.value, updatedAt := now)
  }

  lemma ConvergedOutcome(db: Db, now: int, id: nat)
    requires IdsFresh(db) && id in db.tickets && db.tickets[id].status == Deploying
    ensures id in Converged(db, now).tickets
    ensures var t := Converged(db, now).tickets[id];
            if HasLog(db, id, LogOk) then Settles(db.tickets[id], t, Deployed, NewestLog(db, id, LogOk), now)
            else if HasLog(db, id, LogFailed) then
              Settles(db.tickets[id], t, Failed, NewestLog(db, id, LogFailed), now)
            else t == db.tickets[id]
  {
    SameNewest(db, db, id, LogOk);
    SameNewest(db, Converge(db, LogOk, Deployed, now), id, LogFailed);
  }

  lemma InterruptSparesOutcomes(db: Db, now: int)
    ensures var a := InterruptStale(db, now, STALE_SECONDS);
            && a.tickets == db.tickets && a.nextLog == db.nextLog && a.nextTicket == db.nextTicket
            && a.logs.Keys == db.logs.Keys
            && (forall l :: l in db.logs && db.logs[l].status in {LogOk, LogFailed} ==> a.logs[l] == db.logs[l])
            && (forall l :: l in a.logs && a.logs[l].status in {LogOk, LogFailed} ==> a.logs[l] == db.logs[l])
  {
  }

  lemma InterruptKeepsOutcomes(db: Db, now: int, id: nat)
    requires IdsFresh(db)
    ensures var a := InterruptStale(db, now, STALE_SECONDS);
            && IdsFresh(a) && a.tickets == db.tickets
            && HasLog(a, id, LogOk) == HasLog(db, id, LogOk) && NewestLog(a, id, LogOk) == NewestLog(db, id, LogOk)
            && HasLog(a, id, LogFailed) == HasLog(db, id, LogFailed)
                && NewestLog(a, id, LogFailed) == NewestLog(db, id, LogFailed)
  {
    hide InterruptStale, HasLog, NewestLog;
    var a := InterruptStale(db, now, STALE_SECONDS);
    InterruptSparesOutcomes(db, now);
    SameNewest(db, a, id, LogOk);
    SameNewest(db, a, id, LogFailed);
  }

  /** Where the sweep sends a deploying ticket: to the outcome of its newest ok log, else of its
      newest failed log; else it stays while a live log of it runs; else back to approved. */
  lemma SweepOutcome(db: Db, now: int, id: nat)
    requires IdsFresh(db) && id in db.tickets && db.tickets[id].status == Deploying
    ensures id in Recovered(db, now).tickets
    ensures var t := Recovered(db, now).tickets[id];
            if HasLog(db, id, LogOk) then Settles(db.tickets[id], t, Deployed, NewestLog(db, id, LogOk), now)
            else if HasLog(db, id, LogFailed) then
              Settles(db.tickets[id], t, Failed, NewestLog(db, id, LogFailed), now)
            else if HasLog(InterruptStale(db, now, STALE_SECONDS), id, LogRunning) then t == db.tickets[id]
            else t == db.tickets[id].(status := Approved, updatedAt := now)
  {
    hide InterruptStale, Converged, ReturnOrphans, RequeueInterrupted, IdsFresh, NewestLog, HasLog;
    var a := InterruptStale(db, now, STALE_SECONDS);
    InterruptKeepsOutcomes(db, now, id);
    ConvergedOutcome(a, now, id);
    ConvergedQueries(a, now, id);
    OrphanOutcome(Converged(a, now), now, id);
  }

  lemma ConvergedQueries(db: Db, now: int, id: nat)
    ensures HasLog(Converged(db, now), id, LogRunning) == HasLog(db, id, LogRunning)
  {
    hide HasLog, NewestLog;
    SameLogsSameQueries(Converged(db, now), db, id, LogRunning);
  }

  /** The last two statements return a ticket that is still deploying unless a log of it runs. */
  lemma OrphanOutcome(db: Db, now: int, id: nat)
    requires id in db.tickets
    ensures var returned, t := RequeueInterrupted(ReturnOrphans(db, now)), db.tickets[id];
            && id in returned.tickets
            && returned.tickets[id]
               == if t.status == Deploying && !HasLog(db, id, LogRunning) then t.(status := Approved, updatedAt := now)
                  else t
  {
    hide HasLog;
  }

  /** The sweep writes no other ticket. */
  lemma SweepSparesOthers(db: Db, now: int, id: nat)
    requires id in db.tickets && db.tickets[id].status != Deploying
    ensures id in Recovered(db, now).tickets && Recovered(db, now).tickets[id] == db.tickets[id]
  {
  }
}
