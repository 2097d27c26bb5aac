/** The TTL lock of `dlock.py` on one row of cd_config: read, then compare-and-swap. */
module DistributedLock {
  import opened Wrappers
  import opened Text

  // ── The stored value: '<owner>|<13-digit seconds>' ──

  function Encode(owner: string, stamp: nat): string {
    owner + "|" + Pad13(stamp)
  }

  /** `old.partition("|")`: the parts around the first bar; without a bar all is owner. */
  function Owner(value: string): (r: string)
    ensures |r| <= |value|
  {
    if value == "" || value[0] == '|' then "" else [value[0]] + Owner(value[1..])
  }

  function StampText(value: string): string {
    if |Owner(value)| < |value| then value[|Owner(value)| + 1..] else ""
  }

  /** A malformed stamp counts as expired. */
  predicate IsStale(value: string, now: nat, ttl: int) {
    var text := StampText(value);
    text == "" || !AllDigits(text) || now - Value(text) >= ttl
  }

  lemma {:induction false} OwnerOfBar(owner: string, rest: string)
    requires '|' !in owner
    ensures Owner(owner + "|" + rest) == owner
  {
    var value := owner + "|" + rest;
    if owner != "" {
      assert value[1..] == owner[1..] + "|" + rest;
      OwnerOfBar(owner[1..], rest);
    }
  }

  /** What acquire writes is what the next acquire reads. */
  lemma ReadBack(owner: string, stamp: nat)
    requires '|' !in owner
    ensures Owner(Encode(owner, stamp)) == owner
    ensures AllDigits(StampText(Encode(owner, stamp))) && Value(StampText(Encode(owner, stamp))) == stamp
    ensures StampText(Encode(owner, stamp)) != ""
  {
    OwnerOfBar(owner, Pad13(stamp));
    var value := Encode(owner, stamp);
    assert value[|owner| + 1..] == Pad13(stamp);
    PaddedRoundTrip(stamp);
  }

  lemma StaleIffExpired(owner: string, stamp: nat, now: nat, ttl: int)
    requires '|' !in owner
    ensures IsStale(Encode(owner, stamp), now, ttl) <==> now - stamp >= ttl
  {
    ReadBack(owner, stamp);
  }

  lemma EncodeIsInjective(o: string, p: string, a: nat, b: nat)
    requires '|' !in o && '|' !in p && Encode(o, a) == Encode(p, b)
    ensures o == p && a == b
  {
    ReadBack(o, a);
    ReadBack(p, b);
  }

  // ── acquire and release, run without interference ──

  class ConfigTable {
    var rows: map<string, string>

    constructor ()
      ensures rows == map[]
    {
      rows := map[];
    }

    /** Succeeds exactly when the lock is free, expired, malformed or already this instance's. */
    method Acquire(instance: string, name: string, ttl: int, now: nat) returns (ok: bool)
      modifies this
      ensures ok <==> var key := "cd_lock." + name;
                      key !in old(rows) || Owner(old(rows)[key]) == instance || IsStale(old(rows)[key], now, ttl)
      ensures rows == if ok then old(rows)["cd_lock." + name := Encode(instance, now)] else old(rows)
    {
      var key := "cd_lock." + name;
      if key !in rows {
        rows := rows[key := Encode(instance, now)];
        return true;
      }
      var stored := rows[key];
      if !(Owner(stored) == instance || IsStale(stored, now, ttl)) {
        return false;
      }
      if rows[key] == stored {
        rows := rows[key := Encode(instance, now)];
        return true;
      }
      return false;
    }

    /** Deletes the row only if it is this instance's. */
    method Release(instance: string, name: string)
      modifies this
      ensures rows == var key := "cd_lock." + name;
                      if key in old(rows) && StartsWith(old(rows)[key], instance + "|") then old(rows) - {key}
                        else old(rows)
    {
      var key := "cd_lock." + name;
      if key in rows && StartsWith(rows[key], instance + "|") {
        rows := rows - {key};
      }
    }
  }

  // ── The protocol: every read and every write is a step of its own ──

  /** Where one instance's acquire stands: the clock is read first, then the row, then it writes. */
  datatype Attempt = Idle | Begun(stamp: nat) | SawNone(stamp: nat) | SawRow(stamp: nat, seen: string)

  /** The row, the shared clock, each instance's attempt, and the stamp of each acquisition that
      was reported to its instance and not released since. */
  datatype Sys = Sys(row: Option<string>, clock: nat, attempts: map<string, Attempt>, held: map<string, nat>)

  datatype Step =
    | Tick(seconds: nat) | Begin(who: string) | Select(who: string) | Write(who: string) | Release(who: string)

  function AttemptOf(s: Sys, who: string): Attempt {
    if who in s.attempts then s.attempts[who] else Idle
  }

  function Next(s: Sys, step: Step, ttl: int): Sys {
    match step
    case Tick(seconds) => s.(clock := s.clock + seconds)
    case Begin(who) =>
      if AttemptOf(s, who).Idle? && '|' !in who then s.(attempts := s.attempts[who := Begun(s.clock)]) else s
    case Select(who) =>
      var a := AttemptOf(s, who);
      if !a.Begun? then s
      else s.(attempts := s.attempts[who := if s.row.None? then SawNone(a.stamp) else SawRow(a.stamp, s.row.value)])
    case Write(who) =>
      var a := AttemptOf(s, who);
      var done := s.(attempts := s.attempts[who := Idle]);
      match a {
        case SawNone(stamp) =>
          if s.row.None? then done.(row := Some(Encode(who, stamp)), held := s.held[who := stamp]) else done
        case SawRow(stamp, seen) =>
          if (Owner(seen) == who || IsStale(seen, stamp, ttl)) && s.row == Some(seen)
          then done.(row := Some(Encode(who, stamp)), held := s.held[who := stamp]) else done
        case _ => s
      }
    case Release(who) =>
      if '|' in who then s
      else s.(row := if s.row.Some? && StartsWith(s.row.value, who + "|") then None else s.row, held := s.held - {who})
  }

  function Run(s: Sys, steps: seq<Step>, ttl: int): Sys {
    if steps == [] then s else Next(Run(s, steps[..|steps| - 1], ttl), steps[|steps| - 1], ttl)
  }

  /** A stored value without a stamp of digits after its first bar is free to take. */
  lemma MalformedIsStale(owner: string, rest: string, now: nat, ttl: int)
    requires '|' !in owner
    ensures IsStale(owner, now, ttl) && IsStale(owner + "|", now, ttl)
    ensures !AllDigits(rest) ==> IsStale(owner + "|" + rest, now, ttl)
  {
    OwnerOfBar(owner, "");
    OwnerOfBar(owner, rest);
    NoBar(owner);
    assert owner + "|" + "" == owner + "|";
    assert (owner + "|")[|owner| + 1..] == "";
    assert (owner + "|" + rest)[|owner| + 1..] == rest;
    hide Owner;
  }

  lemma {:induction false} NoBar(owner: string)
    requires '|' !in owner
    ensures Owner(owner) == owner
  {
    if owner != "" {
      NoBar(owner[1..]);
      assert owner == [owner[0]] + owner[1..];
    }
  }

  /** An attempt nobody interferes with, clock read, row read and write in a row: it takes the lock
      exactly if there is no row, or the row is its own, malformed or expired, and then holds it from
      the moment the clock was read. */
  lemma UndisturbedAttempt(s: Sys, who: string, ttl: int)
    requires AttemptOf(s, who).Idle? && '|' !in who
    ensures var t := Next(Next(Next(s, Begin(who), ttl), Select(who), ttl), Write(who), ttl);
            var free := s.row.None? || Owner(s.row.value) == who || IsStale(s.row.value, s.clock, ttl);
            && AttemptOf(t, who).Idle? && t.clock == s.clock
            && t.row == (if free then Some(Encode(who, s.clock)) else s.row)
            && t.held == (if free then s.held[who := s.clock] else s.held)
  {
    hide Owner, IsStale, Encode;
  }

  /** A release deletes the row exactly if it starts with the instance's own mark. */
  lemma ReleaseDeletesOwn(s: Sys, who: string, owner: string, stamp: nat, ttl: int)
    requires '|' !in who && '|' !in owner && s.row == Some(Encode(owner, stamp))
    ensures Next(s, Release(who), ttl).row == if owner == who then None else s.row
    ensures Next(s, Release(who), ttl).held == s.held - {who}
  {
    if StartsWith(Encode(owner, stamp), who + "|") {
      PrefixMeansOwner(owner, stamp, who);
    }
    hide Pad13;
  }

  predicate Holds(s: Sys, who: string, ttl: int) {
    who in s.held && s.clock - s.held[who] < ttl
  }

  ghost predicate Inv(s: Sys, ttl: int) {
    && (forall who :: who in s.attempts && !s.attempts[who].Idle? ==> s.attempts[who].stamp <= s.clock && '|' !in who)
    && (forall who :: who in s.held ==> '|' !in who)
    && (forall who :: Holds(s, who, ttl) ==> s.row == Some(Encode(who, s.held[who])))
  }

  lemma PrefixMeansOwner(owner: string, stamp: nat, who: string)
    requires '|' !in owner && '|' !in who && StartsWith(Encode(owner, stamp), who + "|")
    ensures owner == who
  {
    var value := Encode(owner, stamp);
    assert value == who + "|" + value[|who| + 1..];
    OwnerOfBar(who, value[|who| + 1..]);
    OwnerOfBar(owner, Pad13(stamp));
  }

  lemma WriteKeeps(s: Sys, who: string, ttl: int)
    requires Inv(s, ttl)
    ensures Inv(Next(s, Write(who), ttl), ttl)
  {
    var s' := Next(s, Write(who), ttl);
    var a := AttemptOf(s, who);
    if a.SawRow? && s.row == Some(a.seen) && (Owner(a.seen) == who || IsStale(a.seen, a.stamp, ttl)) {
      forall other | Holds(s', other, ttl) && other != who
        ensures false
      {
        assert Holds(s, other, ttl);
        ReadBack(other, s.held[other]);
        StaleIffExpired(other, s.held[other], a.stamp, ttl);
      }
    }
    hide Owner, IsStale, Pad13;
  }

  lemma ReleaseKeeps(s: Sys, who: string, ttl: int)
    requires Inv(s, ttl)
    ensures Inv(Next(s, Release(who), ttl), ttl)
  {
    var s' := Next(s, Release(who), ttl);
    forall other | Holds(s', other, ttl)
      ensures s'.row == Some(Encode(other, s'.held[other]))
    {
      assert Holds(s, other, ttl);
      if s.row.Some? && '|' !in who && StartsWith(s.row.value, who + "|") {
        PrefixMeansOwner(other, s.held[other], who);
      }
    }
  }

  lemma StepKeeps(s: Sys, step: Step, ttl: int)
    requires Inv(s, ttl)
    ensures Inv(Next(s, step, ttl), ttl)
  {
    match step
    case Write(who) => WriteKeeps(s, who, ttl);
    case Release(who) => ReleaseKeeps(s, who, ttl);
    case Tick(seconds) =>
      assert forall who :: Holds(Next(s, step, ttl), who, ttl) ==> Holds(s, who, ttl);
    case _ =>
      assert forall who :: Holds(Next(s, step, ttl), who, ttl) ==> Holds(s, who, ttl);
  }

  /** From any stored row, with nothing held yet and under any interleaving: an unexpired
      acquisition is the stored row, so no two instances ever hold one at the same time. */
  lemma {:induction false} MutualExclusion(row: Option<string>, steps: seq<Step>, ttl: int)
    ensures var s := Run(Sys(row, 0, map[], map[]), steps, ttl);
            && Inv(s, ttl)
            && (forall a, b :: Holds(s, a, ttl) && Holds(s, b, ttl) ==> a == b)
  {
    var s := Run(Sys(row, 0, map[], map[]), steps, ttl);
    if steps != [] {
      MutualExclusion(row, steps[..|steps| - 1], ttl);
      StepKeeps(Run(Sys(row, 0, map[], map[]), steps[..|steps| - 1], ttl), steps[|steps| - 1], ttl);
    }
    forall a, b | Holds(s, a, ttl) && Holds(s, b, ttl)
      ensures a == b
    {
      EncodeIsInjective(a, b, s.held[a], s.held[b]);
    }
  }
}
