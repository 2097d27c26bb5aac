/** The two executors that own a claimed log from start to end: `DeployService.execute` over many
    targets and `_deploy_k8s_core` over one. What a deployer does is an input. */
module DeployService {
  import opened Wrappers
  import opened Tables
  import opened Statements
  import opened Store
  import opened CancelRegistry
  import opened DeployRun
  import CrashTier
  import Recovery

  /** What one target does once its turn comes. Breaks is any exception outside the per-target
      handlers: the validation call itself, or the caller's log callback. */
  datatype TargetRun = Invalid | Returns(ok: bool) | Raises | CancelSeen | Breaks

  /** cancelled: another instance marks the log terminated while this target is in progress. */
  datatype Target = Target(run: TargetRun, cancelled: bool)

  datatype Reply = Refused(busy: bool) | Finished(success: bool) | WasCancelled | Raised

  predicate Stops(t: Target) {
    t.run.CancelSeen? || t.run.Breaks?
  }

  predicate Succeeds(t: Target) {
    t.run == Returns(true)
  }

  /** The first target that ends the loop early, or the number of targets. */
  function Stop(targets: seq<Target>): (n: nat)
    ensures n <= |targets|
    ensures forall i :: 0 <= i < n ==> !Stops(targets[i])
    ensures n < |targets| ==> Stops(targets[n])
  {
    if targets == [] || Stops(targets[0]) then 0 else 1 + Stop(targets[1..])
  }

  /** The targets whose turn came. */
  function Reached(targets: seq<Target>): seq<Target> {
    if Stop(targets) < |targets| then targets[..Stop(targets) + 1] else targets
  }

  /** The status a log must end with: a cancel from outside wins; then a cancel seen or a break;
      else ok iff every target succeeded, failed iff none did, partial otherwise. */
  ghost function Verdict(targets: seq<Target>): LogStatus {
    if exists t :: t in Reached(targets) && t.cancelled then LogTerminated
    else if Stop(targets) < |targets| then if targets[Stop(targets)].run.CancelSeen? then LogTerminated else LogFailed
    else if forall t :: t in targets ==> Succeeds(t) then LogOk
    else if forall t :: t in targets ==> !Succeeds(t) then LogFailed
    else LogPartial
  }

  /** The turn of target i comes: nothing before it saw a cancel or broke. */
  predicate TurnComes(targets: seq<Target>, i: nat) {
    i < |targets| && forall k :: 0 <= k < i ==> !targets[k].run.CancelSeen? && !targets[k].run.Breaks?
  }

  /** How a run over these targets ends its log, told from the targets alone. It is terminated if a
      target whose turn came was cancelled or saw a cancel; else failed if one broke; else ok if all
      returned success, failed if none did, and partial if some did and some did not. */
  ghost predicate EndsAs(targets: seq<Target>, status: LogStatus) {
    var terminated := exists i: nat :: TurnComes(targets, i) && (targets[i].cancelled || targets[i].run.CancelSeen?);
    var broken := exists i: nat :: TurnComes(targets, i) && targets[i].run.Breaks?;
    var someOk := exists i :: 0 <= i < |targets| && targets[i].run == Returns(true);
    var someNot := exists i :: 0 <= i < |targets| && targets[i].run != Returns(true);
    && (status == LogTerminated <==> terminated)
    && (status == LogFailed <==> !terminated && (broken || (!someOk && someNot)))
    && (status == LogPartial <==> !terminated && !broken && someOk && someNot)
    && (status == LogOk <==> !terminated && !broken && !someNot)
  }

  lemma StopsFirst(targets: seq<Target>, i: nat)
    requires i < |targets|
    ensures TurnComes(targets, i) <==> i <= Stop(targets)
  {
    if i > Stop(targets) {
      assert Stops(targets[Stop(targets)]);
    }
    assert forall k :: 0 <= k < Stop(targets) ==> !Stops(targets[k]);
  }

  lemma ReachedCancels(targets: seq<Target>)
    ensures (exists t :: t in Reached(targets) && t.cancelled)
      <==> exists i: nat :: TurnComes(targets, i) && targets[i].cancelled
  {
    var stop, reached := Stop(targets), Reached(targets);
    assert forall i :: 0 <= i < |reached| ==> i <= stop && reached[i] == targets[i];
    forall i: nat | i < |targets|
      ensures TurnComes(targets, i) <==> i < |reached|
    {
      StopsFirst(targets, i);
    }
    hide Reached, Stop, TurnComes;
    if t :| t in reached && t.cancelled {
      var i :| 0 <= i < |reached| && reached[i] == t;
      assert TurnComes(targets, i) && targets[i].cancelled;
    }
    if i: nat :| TurnComes(targets, i) && targets[i].cancelled {
      assert i < |targets| by {
        TurnIsIndex(targets, i);
      }
      assert reached[i] in reached;
    }
  }

  lemma TurnIsIndex(targets: seq<Target>, i: nat)
    requires TurnComes(targets, i)
    ensures i < |targets|
  {
  }

  lemma StopDecides(targets: seq<Target>)
    ensures (exists i: nat :: TurnComes(targets, i) && targets[i].run.CancelSeen?)
      <==> Stop(targets) < |targets| && targets[Stop(targets)].run.CancelSeen?
    ensures (exists i: nat :: TurnComes(targets, i) && targets[i].run.Breaks?)
      <==> Stop(targets) < |targets| && targets[Stop(targets)].run.Breaks?
  {
    var stop := Stop(targets);
    forall i: nat | TurnComes(targets, i) && Stops(targets[i])
      ensures i == stop
    {
      StopsFirst(targets, i);
    }
    if stop < |targets| {
      StopsFirst(targets, stop);
    }
    hide TurnComes, Stop;
    forall i: nat | TurnComes(targets, i)
      ensures i < |targets|
    {
      TurnIsIndex(targets, i);
    }
  }

  lemma AllByIndex(targets: seq<Target>)
    ensures (forall t :: t in targets ==> Succeeds(t))
      <==> !exists i :: 0 <= i < |targets| && targets[i].run != Returns(true)
    ensures (forall t :: t in targets ==> !Succeeds(t))
      <==> !exists i :: 0 <= i < |targets| && targets[i].run == Returns(true)
  {
    assert forall i :: 0 <= i < |targets| ==> targets[i] in targets;
  }

  /** The verdict is the one status those targets end with. */
  lemma VerdictEnds(targets: seq<Target>, status: LogStatus)
    ensures EndsAs(targets, status) <==> status == Verdict(targets)
  {
    hide TurnComes, Stop, Reached, Succeeds;
    ReachedCancels(targets);
    StopDecides(targets);
    AllByIndex(targets);
    StopStops(targets);
    var someOk := exists i :: 0 <= i < |targets| && targets[i].run == Returns(true);
    var someNot := exists i :: 0 <= i < |targets| && targets[i].run != Returns(true);
    assert targets != [] ==> targets[0].run == Returns(true) || targets[0].run != Returns(true);
    assert targets != [] ==> someOk || someNot;
  }

  lemma StopStops(targets: seq<Target>)
    ensures Stop(targets) < |targets| ==>
      targets[Stop(targets)].run.CancelSeen? || targets[Stop(targets)].run.Breaks?
  {
  }

  /** The claimed log has ended, its lock is free and its cancel event is gone. */
  ghost predicate Released(db: Database, manager: DeployRunManager, deployId: nat)
    reads db, manager
  {
    && deployId in db.logs && Final(db.logs[deployId].status) && db.logs[deployId].lockKey == None
    && deployId !in manager.events
  }

  lemma HasLogIffNewest(db: Db, id: nat, status: LogStatus)
    requires IdsFresh(db)
    ensures HasLog(db, id, status) <==> NewestLog(db, id, status).Some?
  {
    Recovery.SameNewest(db, db, id, status);
  }

  /** Claims the ticket's newest pending log, or starts a new one. It is refused exactly when
      the project is busy. */
  method ClaimOrStartRecord(db: Database, req: Request, approvalId: nat, runner: string, now: int)
    returns (r: Result<nat, RunError>)
    requires Valid(db.View())
    modifies db
    ensures Valid(db.View())
    ensures r.Failure? <==> Busy(old(db.View()), req.project)
    ensures r.Failure? ==> db.View() == old(db.View())
    ensures r.Success? ==> Some(db.View()) == CrashTier.ClaimOrStart(old(db.View()), approvalId, req, runner, now)
    ensures r.Success? ==> 0 < r.value == CrashTier.ClaimedLog(old(db.View()), approvalId)
    ensures r.Success? ==>
      r.value in db.logs && db.logs[r.value].status == LogRunning && db.logs[r.value].approvalId == approvalId
  {
    HasLogIffNewest(db.View(), approvalId, LogPending);
    var claimed := ClaimPendingDeployRecord(db, req.project, approvalId, runner, now);
    match claimed
    case Failure(e) => r := Failure(e);
    case Success(id) =>
      if id == 0 {
        r := StartDeployRecord(db, req, approvalId, runner, now);
      } else {
        r := Success(id);
        BusyIffLocked(old(db.View()), req.project);
        PendingHoldsNoLock(old(db.View()), id, req.project);
      }
  }

  /** How the loop over the targets left. */
  datatype Exit = Completed | Interrupted | Broken

  predicate AnyCancelled(targets: seq<Target>) {
    exists t :: t in targets && t.cancelled
  }

  function CancelledFirst(db: Db, deployId: nat, targets: seq<Target>): Db {
    if AnyCancelled(targets) then CancelLog(db, deployId) else db
  }

  lemma NoneCancelled(db: Db, deployId: nat)
    ensures CancelledFirst(db, deployId, []) == db
  {
  }

  lemma OneMoreTarget(db: Db, deployId: nat, targets: seq<Target>, target: Target)
    requires Valid(CancelledFirst(db, deployId, targets))
    ensures var before := CancelledFirst(db, deployId, targets);
            var after := CancelledFirst(db, deployId, targets + [target]);
            after == (if target.cancelled then CancelLog(before, deployId) else before) && Valid(after)
  {
    hide Valid, GoodStep;
    var before := CancelledFirst(db, deployId, targets);
    assert AnyCancelled(targets + [target]) <==> AnyCancelled(targets) || target.cancelled by {
      assert (targets + [target])[|targets|] == target;
      assert forall t :: t in targets ==> t in targets + [target];
    }
    CancelIsValid(before, deployId);
  }

  lemma CancelIsValid(db: Db, deployId: nat)
    requires Valid(db)
    ensures Valid(CancelLog(db, deployId))
  {
    CancelKeeps(db, deployId);
  }

  /** The loop over the targets: one result per target that ran its course, in order. */
  method RunTargets(db: Database, deployId: nat, targets: seq<Target>) returns (results: seq<bool>, exit: Exit)
    requires Valid(db.View())
    modifies db
    ensures Valid(db.View()) && db.View() == CancelledFirst(old(db.View()), deployId, Reached(targets))
    ensures exit.Completed? <==> Stop(targets) == |targets|
    ensures exit.Interrupted? <==> Stop(targets) < |targets| && targets[Stop(targets)].run.CancelSeen?
    ensures |results| == Stop(targets) && forall k :: 0 <= k < |results| ==> results[k] == Succeeds(targets[k])
  {
    hide Valid, CancelledFirst, CancelLog;
    results, exit := [], Completed;
    NoneCancelled(db.View(), deployId);
    assert targets[..0] == [];
    var i := 0;
    while i < |targets| && exit.Completed?
      invariant 0 <= i <= |targets|
      invariant Valid(db.View()) && db.View() == CancelledFirst(old(db.View()), deployId, targets[..i])
      invariant exit.Completed? ==> i <= Stop(targets) && |results| == i
      invariant !exit.Completed? ==> i == Stop(targets) + 1 && |results| == Stop(targets) < |targets|
      invariant !exit.Completed? ==> exit.Interrupted? == targets[Stop(targets)].run.CancelSeen?
      invariant forall k :: 0 <= k < |results| ==> results[k] == Succeeds(targets[k])
      decreases |targets| - i
    {
      assert targets[..i + 1] == targets[..i] + [targets[i]];
      OneMoreTarget(old(db.View()), deployId, targets[..i], targets[i]);
      if targets[i].cancelled {
        db.Commit(CancelLog(db.View(), deployId));
      }
      match targets[i].run {
        case Invalid => results := results + [false];
        case Returns(ok) => results := results + [ok];
        case Raises => results := results + [false];
        case CancelSeen => exit := Interrupted;
        case Breaks => exit := Broken;
      }
      i := i + 1;
    }
    assert targets[..i] == Reached(targets);
  }

  method CountOks(results: seq<bool>) returns (oks: nat)
    ensures oks == |results| <==> forall k :: 0 <= k < |results| ==> results[k]
    ensures oks == 0 <==> forall k :: 0 <= k < |results| ==> !results[k]
  {
    oks := 0;
    for i := 0 to |results|
      invariant oks <= i
      invariant oks == i <==> forall k :: 0 <= k < i ==> results[k]
      invariant oks == 0 <==> forall k :: 0 <= k < i ==> !results[k]
    {
      if results[i] {
        oks := oks + 1;
      }
    }
  }

  lemma CancelThenFinish(db: Db, deployId: nat, targets: seq<Target>, status: LogStatus)
    requires deployId in db.logs && db.logs[deployId].status == LogRunning && EndStatus(status)
    ensures FinishLog(CancelledFirst(db, deployId, targets), deployId, status)
            == FinishLog(db, deployId, if AnyCancelled(targets) then LogTerminated else status)
  {
    CancelWins(db, deployId, status);
    hide FinishLog, CancelLog;
  }

  lemma FinishTwice(db: Db, deployId: nat, status: LogStatus)
    requires deployId in db.logs && db.logs[deployId].status == LogRunning && EndStatus(status)
    ensures var ended := FinishLog(db, deployId, status);
            && deployId in ended.logs && ended.logs[deployId].status == status && ended.logs[deployId].lockKey == None
            && FinishLog(ended, deployId, LogFailed) == ended
  {
  }

  /** Everything after the claim, up to the finally block: the targets, the outcome, the notification. */
  method RunClaimed(db: Database, deployId: nat, project: string, targets: seq<Target>, notifyRaises: bool)
    returns (reply: Reply)
    requires Valid(db.View()) && 0 < deployId && deployId in db.logs && db.logs[deployId].status == LogRunning
    modifies db
    ensures Valid(db.View()) && db.View() == FinishLog(old(db.View()), deployId, Verdict(targets))
    ensures deployId in db.logs && db.logs[deployId].status == Verdict(targets) && db.logs[deployId].lockKey == None
    ensures EndsAs(targets, db.logs[deployId].status)
    ensures !reply.Refused?
    ensures reply.Finished? <==> Stop(targets) == |targets| && !notifyRaises
    ensures reply.Finished? ==> reply.success == forall t :: t in targets ==> Succeeds(t)
    ensures reply.WasCancelled? <==> Stop(targets) < |targets| && targets[Stop(targets)].run.CancelSeen?
    ensures EndStatus(Verdict(targets))
  {
    hide Valid, FinishLog, CancelledFirst, Stop, Reached, EndsAs;
    VerdictEnds(targets, Verdict(targets));
    var results, exit := RunTargets(db, deployId, targets);
    var oks := CountOks(results);
    var status := match exit
      case Interrupted => LogTerminated
      case Broken => LogFailed
      case Completed => if oks == |results| then LogOk else if oks == 0 then LogFailed else LogPartial;
    VerdictOf(targets, results);
    CancelThenFinish(old(db.View()), deployId, Reached(targets), status);
    FinishTwice(old(db.View()), deployId, Verdict(targets));
    FinishDeployRecord(db, deployId, status, project);
    match exit
    case Interrupted => reply := WasCancelled;
    case Broken => reply := Raised;
    case Completed =>
      if notifyRaises {
        // The handler finishes the log once more; it is final already, so this writes nothing.
        FinishDeployRecord(db, deployId, LogFailed, project);
        reply := Raised;
      } else {
        reply := Finished(oks == |results|);
      }
  }

  /** DeployService.execute. Refusals come before anything is claimed. Whatever the targets do and
      even when the notification raises, the claimed log ends with its verdict and is released. */
  method Execute(db: Database, manager: DeployRunManager, req: Request, approvalId: nat, runner: string, now: int,
                 preflight: bool, targets: seq<Target>, notifyRaises: bool)
    returns (reply: Reply, deployId: nat)
    requires Valid(db.View())
    modifies db, manager
    ensures Valid(db.View())
    ensures reply.Refused? <==> !preflight || targets == [] || Busy(old(db.View()), req.project)
    ensures reply.Refused? ==> db.View() == old(db.View()) && manager.events == old(manager.events) && deployId == 0
    ensures reply.Refused? ==> reply.busy == (preflight && Busy(old(db.View()), req.project))
    ensures !reply.Refused? ==>
      var started := CrashTier.ClaimOrStart(old(db.View()), approvalId, req, runner, now);
      && started.Some? && deployId == CrashTier.ClaimedLog(old(db.View()), approvalId) > 0
      && db.View() == FinishLog(started.value, deployId, Verdict(targets))
    ensures !reply.Refused? ==> Released(db, manager, deployId) && db.logs[deployId].status == Verdict(targets)
    ensures !reply.Refused? ==> EndsAs(targets, db.logs[deployId].status)
    ensures !reply.Refused? ==> manager.events == old(manager.events) - {deployId}
    ensures reply.Finished? ==> reply.success == forall t :: t in targets ==> Succeeds(t)
    ensures !reply.Refused? ==> (reply.Finished? <==> Stop(targets) == |targets| && !notifyRaises)
    ensures !reply.Refused? ==>
      (reply.WasCancelled? <==> Stop(targets) < |targets| && targets[Stop(targets)].run.CancelSeen?)
  {
    hide Valid, FinishLog, InsertRunning, ClaimLog, Newest, Verdict, EndsAs;
    deployId := 0;
    if !preflight {
      return Refused(false), 0;
    }
    BusyIffLocked(db.View(), req.project);
    if !LockFree(db.View(), req.project, 0) {
      return Refused(true), 0;
    }
    if targets == [] {
      return Refused(false), 0;
    }
    // A rival may still take the lock between the check and the claim; without one the claim succeeds.
    var r := ClaimOrStartRecord(db, req, approvalId, runner, now);
    deployId := r.value;
    manager.Register(deployId);
    reply := RunClaimed(db, deployId, req.project, targets, notifyRaises);
    manager.Unregister(deployId);
  }

  lemma VerdictOf(targets: seq<Target>, results: seq<bool>)
    requires |results| == Stop(targets) && forall k :: 0 <= k < |results| ==> results[k] == Succeeds(targets[k])
    ensures Stop(targets) == |targets| ==>
      && ((forall k :: 0 <= k < |results| ==> results[k]) <==> forall t :: t in targets ==> Succeeds(t))
      && ((forall k :: 0 <= k < |results| ==> !results[k]) <==> forall t :: t in targets ==> !Succeeds(t))
  {
    if Stop(targets) == |targets| {
      assert forall k :: 0 <= k < |targets| ==> targets[k] in targets;
    }
  }

  /** What the cluster deployer does in its one call, deploy or native rollback alike. */
  datatype ClusterRun = ClusterReturns(success: bool) | ClusterRaises | ClusterCancelled

  function ClusterStatus(run: ClusterRun): LogStatus {
    match run
    case ClusterReturns(success) => if success then LogOk else LogFailed
    case ClusterRaises => LogFailed
    case ClusterCancelled => LogTerminated
  }

  /** A cancel wins, seen by the deployer or not; then success and failure are what it returned, and
      an exception is a failure. */
  predicate ClusterEndsAs(run: ClusterRun, cancelled: bool, status: LogStatus) {
    && (status == LogTerminated <==> cancelled || run == ClusterCancelled)
    && (status == LogOk <==> !cancelled && run == ClusterReturns(true))
    && (status == LogFailed <==> !cancelled && run in {ClusterReturns(false), ClusterRaises})
  }

  method RunCluster(db: Database, deployId: nat, project: string, run: ClusterRun, cancelled: bool)
    requires Valid(db.View()) && 0 < deployId && deployId in db.logs && db.logs[deployId].status == LogRunning
    modifies db
    ensures Valid(db.View())
    ensures db.View() == FinishLog(old(db.View()), deployId, if cancelled then LogTerminated else ClusterStatus(run))
    ensures deployId in db.logs && db.logs[deployId].lockKey == None
    ensures ClusterEndsAs(run, cancelled, db.logs[deployId].status)
  {
    hide Valid, FinishLog, CancelLog;
    ghost var status := if cancelled then LogTerminated else ClusterStatus(run);
    CancelWins(db.View(), deployId, ClusterStatus(run));
    FinishTwice(db.View(), deployId, status);
    if cancelled {
      CancelIsValid(db.View(), deployId);
      db.Commit(CancelLog(db.View(), deployId));
    }
    FinishDeployRecord(db, deployId, ClusterStatus(run), project);
  }

  lemma CancelWins(db: Db, deployId: nat, status: LogStatus)
    requires deployId in db.logs && db.logs[deployId].status == LogRunning
    ensures FinishLog(CancelLog(db, deployId), deployId, status) == FinishLog(db, deployId, LogTerminated)
  {
    assert FinishLog(CancelLog(db, deployId), deployId, status).logs == FinishLog(db, deployId, LogTerminated).logs;
  }

  /** _deploy_k8s_core: the same life cycle around a single call; a cancel from outside wins. */
  method DeployK8sCore(db: Database, manager: DeployRunManager, req: Request, approvalId: nat, runner: string, now: int,
                       preflight: bool, run: ClusterRun, cancelled: bool)
    returns (reply: Reply, deployId: nat)
    requires Valid(db.View())
    modifies db, manager
    ensures Valid(db.View())
    ensures reply.Refused? <==> !preflight || Busy(old(db.View()), req.project)
    ensures reply.Refused? ==> db.View() == old(db.View()) && manager.events == old(manager.events) && deployId == 0
    ensures reply.Refused? ==> reply.busy == (preflight && Busy(old(db.View()), req.project))
    ensures !reply.Refused? ==>
      var started := CrashTier.ClaimOrStart(old(db.View()), approvalId, req, runner, now);
      && started.Some? && deployId == CrashTier.ClaimedLog(old(db.View()), approvalId) > 0
      && db.View() == FinishLog(started.value, deployId, if cancelled then LogTerminated else ClusterStatus(run))
    ensures !reply.Refused? ==> Released(db, manager, deployId) && manager.events == old(manager.events) - {deployId}
    ensures !reply.Refused? ==> db.logs[deployId].status == if cancelled then LogTerminated else ClusterStatus(run)
    ensures !reply.Refused? ==> ClusterEndsAs(run, cancelled, db.logs[deployId].status)
    ensures !reply.Refused? ==> reply == match run
      case ClusterReturns(success) => Finished(success)
      case ClusterRaises => Raised
      case ClusterCancelled => WasCancelled
  {
    hide Valid, FinishLog, InsertRunning, ClaimLog, Newest;
    deployId := 0;
    if !preflight {
      return Refused(false), 0;
    }
    BusyIffLocked(db.View(), req.project);
    if !LockFree(db.View(), req.project, 0) {
      return Refused(true), 0;
    }
    var r := ClaimOrStartRecord(db, req, approvalId, runner, now);
    deployId := r.value;
    manager.Register(deployId);
    RunCluster(db, deployId, req.project, run, cancelled);
    reply := match run
      case ClusterReturns(success) => Finished(success)
      case ClusterRaises => Raised
      case ClusterCancelled => WasCancelled;
    manager.Unregister(deployId);
  }
}
