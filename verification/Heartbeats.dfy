/** Heartbeats against the recovery sweep, in real time: stamps are whole seconds, gaps are not. */
module Heartbeats {
  import opened Wrappers
  import opened Text
  import opened Tables
  import opened Recovery

  /** The store, the shared clock, for each log a live process runs its instance and the real moment
      of its last stamp, and the live logs that another instance has cancelled meanwhile. */
  datatype Sys = Sys(db: Db, clock: real, live: map<nat, Runner>, cancelled: set<nat>)

  datatype Runner = Runner(instance: string, beat: real)

  datatype Step =
    | Submit(req: Request, ticket: nat)
    | Start(req: Request, ticket: nat, instance: string)
    | Claim(log: nat, project: string, instance: string)
    | Beat(instance: string)
    | Sweep
    | Cancel(log: nat)
    | End(log: nat, outcome: LogStatus)
    | Die(log: nat)
    | Wait(seconds: real)

  const MAX_GAP := 120.0

  function Owned(live: map<nat, Runner>, instance: string): set<nat> {
    set id | id in live && live[id].instance == instance
  }

  /** Time may pass only while no live runner has been silent for more than MAX_GAP. */
  predicate Enabled(s: Sys, step: Step) {
    match step
    case Start(_, _, instance) => instance != ""
    case Claim(log, _, instance) => instance != "" && log in s.db.logs && s.db.logs[log].status == LogPending
    case End(log, outcome) => log in s.live && EndStatus(outcome)
    case Wait(seconds) =>
      && seconds >= 0.0 && s.clock + seconds < Pow10(13) as real
      && forall id :: id in s.live ==> s.clock + seconds - s.live[id].beat <= MAX_GAP
    case _ => true
  }

  function Next(s: Sys, step: Step): Sys {
    if !Enabled(s, step) then s
    else
      var now := s.clock.Floor;
      match step
      case Submit(req, ticket) => s.(db := InsertPending(s.db, req, ticket))
      case Start(req, ticket, instance) =>
        var r := InsertRunning(s.db, req, ticket, instance, now);
        if r.Some? then s.(db := r.value, live := s.live[s.db.nextLog := Runner(instance, s.clock)]) else s
      case Claim(log, project, instance) =>
        var r := ClaimLog(s.db, log, project, instance, now);
        if r.Some? then s.(db := r.value, live := s.live[log := Runner(instance, s.clock)]) else s
      case Beat(instance) =>
        s.(db := Heartbeat(s.db, Owned(s.live, instance), instance, now),
           live := map id | id in s.live :: if s.live[id].instance == instance then Runner(instance, s.clock)
             else s.live[id])
      case Sweep => s.(db := InterruptStale(s.db, now, STALE_SECONDS))
      case Cancel(log) =>
        s.(db := CancelLog(s.db, log), cancelled := if log in s.live then s.cancelled + {log} else s.cancelled)
      case End(log, outcome) => s.(db := FinishLog(s.db, log, outcome), live := s.live - {log},
        cancelled := s.cancelled - {log})
      case Die(log) => s.(live := s.live - {log}, cancelled := s.cancelled - {log})
      case Wait(seconds) => s.(clock := s.clock + seconds)
  }

  function Run(s: Sys, steps: seq<Step>): Sys {
    if steps == [] then s else Next(Run(s, steps[..|steps| - 1]), steps[|steps| - 1])
  }

  /** The row of a live log shows the whole second of its last stamp. */
  predicate Stamped(l: DeployLog, r: Runner)
    requires r.beat >= 0.0
  {
    l.status == LogRunning && l.runner == r.instance != "" && l.heartbeatAt == Pad13(r.beat.Floor)
  }

  ghost predicate Inv(s: Sys) {
    && IdsFresh(s.db) && 0.0 <= s.clock < Pow10(13) as real
    && s.cancelled <= s.live.Keys
    && forall id :: id in s.live ==>
         && 0.0 <= s.live[id].beat <= s.clock && s.clock - s.live[id].beat <= MAX_GAP
         && id in s.db.logs
         && if id in s.cancelled then s.db.logs[id].status == LogTerminated else Stamped(s.db.logs[id], s.live[id])
  }

  /** In terms of real moments: within MAX_GAP of its stamp a log is never stale, from one second
      past MAX_GAP on it always is, and the whole seconds decide in between. */
  lemma StaleInRealTime(l: DeployLog, r: Runner, clock: real)
    requires 0.0 <= r.beat <= clock < Pow10(13) as real && Stamped(l, r)
    ensures IsStale(l, clock.Floor, STALE_SECONDS) <==> r.beat.Floor < clock.Floor - STALE_SECONDS
    ensures clock - r.beat <= MAX_GAP ==> !IsStale(l, clock.Floor, STALE_SECONDS)
    ensures clock - r.beat >= MAX_GAP + 1.0 ==> IsStale(l, clock.Floor, STALE_SECONDS)
  {
    PaddedOrder(r.beat.Floor, clock.Floor - STALE_SECONDS);
    PaddedRoundTrip(r.beat.Floor);
  }

  lemma StepKeeps(s: Sys, step: Step)
    requires Inv(s)
    ensures Inv(Next(s, step))
  {
    if Enabled(s, step) {
      match step
      case Submit(req, ticket) => BeginKeeps(s, step);
      case Start(req, ticket, instance) => BeginKeeps(s, step);
      case Claim(log, project, instance) => BeginKeeps(s, step);
      case Sweep => SweepKeeps(s);
      case Wait(seconds) =>
      case Beat(instance) => BeatKeeps(s, step);
      case _ => RunnerKeeps(s, step);
    }
  }

  lemma BeginKeeps(s: Sys, step: Step)
    requires Inv(s) && Enabled(s, step) && (step.Submit? || step.Start? || step.Claim?)
    ensures Inv(Next(s, step))
  {
    hide Pow10, Pad13, LockFree;
  }

  lemma BeatKeeps(s: Sys, step: Step)
    requires Inv(s) && Enabled(s, step) && step.Beat?
    ensures Inv(Next(s, step))
  {
    hide Pow10, Pad13, InsertPending, InsertRunning, ClaimLog, InterruptStale, CancelLog, FinishLog;
  }

  lemma RunnerKeeps(s: Sys, step: Step)
    requires Inv(s) && Enabled(s, step) && (step.Cancel? || step.End? || step.Die?)
    ensures Inv(Next(s, step))
  {
    hide Pow10, Pad13, InsertPending, InsertRunning, ClaimLog, InterruptStale;
  }

  lemma SweepKeeps(s: Sys)
    requires Inv(s)
    ensures forall id :: id in s.live ==> Next(s, Sweep).db.logs[id] == s.db.logs[id]
    ensures Inv(Next(s, Sweep))
  {
    forall id | id in s.live
      ensures !IsStale(s.db.logs[id], s.clock.Floor, STALE_SECONDS)
    {
      if id !in s.cancelled {
        StaleInRealTime(s.db.logs[id], s.live[id], s.clock);
      }
    }
    hide Pow10, Pad13, IsStale;
  }

  /** Who lives after a step: a run that starts or is claimed, from that moment on; a beat renews the
      moment of all runs of its instance; ends and deaths take their run out, and nothing else does. */
  lemma RunnersAre(s: Sys, step: Step)
    requires Enabled(s, step)
    ensures var live := Next(s, step).live;
            match step
            case Start(req, _, instance) =>
              live == if !LockFree(s.db, req.project, 0) then s.live
                else s.live[s.db.nextLog := Runner(instance, s.clock)]
            case Claim(log, project, instance) =>
              live == if !LockFree(s.db, project, log) then s.live else s.live[log := Runner(instance, s.clock)]
            case Beat(instance) =>
              live.Keys == s.live.Keys && forall id :: id in live ==>
                live[id] == if s.live[id].instance == instance then Runner(instance, s.clock) else s.live[id]
            case End(log, _) => live == s.live - {log}
            case Die(log) => live == s.live - {log}
            case _ => live == s.live
  {
    hide LockFree, IsStale, Pad13;
  }

  /** And a run that died is not spared: once its last stamp is MAX_GAP and a second old, the next
      sweep interrupts it and frees its lock. */
  lemma DeadRunIsSwept(s: Sys, id: nat, r: Runner)
    requires id in s.db.logs && 0.0 <= r.beat <= s.clock < Pow10(13) as real && Stamped(s.db.logs[id], r)
    requires s.clock - r.beat >= MAX_GAP + 1.0
    ensures Next(s, Sweep).db.logs[id] == s.db.logs[id].(status := LogInterrupted, lockKey := None)
  {
    StaleInRealTime(s.db.logs[id], r, s.clock);
    hide Pow10, Pad13, IsStale;
  }

  const START := Sys(EMPTY_DB, 0.0, map[], {})

  /** On every run whose live runners stamp at gaps of at most MAX_GAP real seconds, every live log
      is running unless another instance cancelled it, and is terminated if one did; either way the
      next sweep leaves it exactly as it is. */
  lemma {:induction false} LiveLogsAreSpared(steps: seq<Step>)
    ensures Inv(Run(START, steps))
    ensures var s := Run(START, steps);
            forall id :: id in s.live ==>
              && id in s.db.logs && Next(s, Sweep).db.logs[id] == s.db.logs[id]
              && s.db.logs[id].status == if id in s.cancelled then LogTerminated else LogRunning
  {
    if steps != [] {
      LiveLogsAreSpared(steps[..|steps| - 1]);
      StepKeeps(Run(START, steps[..|steps| - 1]), steps[|steps| - 1]);
    }
    SweepKeeps(Run(START, steps));
    hide Next;
  }
}
