/** Alert timing: how long a value has been over its threshold, and how long an alert stays quiet. */
module AlertService {
  import opened Wrappers
  import opened Text

  const DAY := 86400.0

  // ── Tracking keys ──

  function Prefix(rule: nat, server: nat): string {
    Decimal(rule) + "_" + Decimal(server) + "_"
  }

  /** `f"{rule_id}_{server_id}_{entity}"` */
  function TrackKey(rule: nat, server: nat, entity: string): string {
    Prefix(rule, server) + entity
  }

  lemma DigitsHaveNoMark(a: string, rest: string)
    requires AllDigits(a)
    ensures forall i :: 0 <= i < |a| ==> (a + rest)[i] != '_'
  {
    assert forall i :: 0 <= i < |a| ==> IsDigit(a[i]);
  }

  lemma SplitAtMark(a: string, b: string, x: string, y: string)
    requires AllDigits(a) && AllDigits(b)
    requires a + "_" + x == b + "_" + y
    ensures a == b && x == y
  {
    var s := a + "_" + x;
    assert s[|a|] == '_' && s[|b|] == '_';
    DigitsHaveNoMark(a, "_" + x);
    DigitsHaveNoMark(b, "_" + y);
    assert a + ("_" + x) == s == b + ("_" + y);
    assert |a| == |b|;
    assert x == s[|a| + 1..] && y == s[|b| + 1..];
    assert a == s[..|a|] && b == s[..|b|];
  }

  lemma DecimalInjective(m: nat, n: nat)
    requires Decimal(m) == Decimal(n)
    ensures m == n
  {
    ValueOfDecimal(m);
    ValueOfDecimal(n);
  }

  /** Two alerts share a key only if they are for the same rule, server and entity. */
  lemma KeysAreInjective(rule: nat, server: nat, entity: string, rule': nat, server': nat, entity': string)
    requires TrackKey(rule, server, entity) == TrackKey(rule', server', entity')
    ensures rule == rule' && server == server' && entity == entity'
  {
    var a, b, a', b' := Decimal(rule), Decimal(server), Decimal(rule'), Decimal(server');
    hide Decimal;
    assert TrackKey(rule, server, entity) == a + "_" + (b + "_" + entity);
    assert TrackKey(rule', server', entity') == a' + "_" + (b' + "_" + entity');
    SplitAtMark(a, a', b + "_" + entity, b' + "_" + entity');
    SplitAtMark(b, b', entity, entity');
    DecimalInjective(rule, rule');
    DecimalInjective(server, server');
  }

  /** Clearing by prefix hits every entity of one rule and server, and nothing else. */
  lemma PrefixIsExact(rule: nat, server: nat, rule': nat, server': nat, entity: string)
    ensures StartsWith(TrackKey(rule, server, entity), Prefix(rule', server')) <==> rule == rule' && server == server'
  {
    var key := TrackKey(rule, server, entity);
    if StartsWith(key, Prefix(rule', server')) {
      var rest := key[|Prefix(rule', server')|..];
      assert key == TrackKey(rule', server', rest);
      KeysAreInjective(rule, server, entity, rule', server', rest);
    }
  }

  // ── The two dictionaries ──

  datatype Tracker = Tracker(cooldowns: map<string, real>, durations: map<string, real>)

  function Recent(m: map<string, real>, now: real): map<string, real> {
    map k | k in m && now - m[k] <= DAY :: m[k]
  }

  function Without(m: map<string, real>, prefix: string): map<string, real> {
    map k | k in m && !StartsWith(k, prefix) :: m[k]
  }

  function Mark(t: Tracker, key: string, now: real): Tracker {
    t.(durations := Recent(if key in t.durations then t.durations else t.durations[key := now], now))
  }

  function Elapsed(t: Tracker, key: string, now: real): real {
    if key in t.durations && t.durations[key] != 0.0 then now - t.durations[key] else 0.0
  }

  predicate InCooldown(t: Tracker, key: string, minutes: int, now: real) {
    now - (if key in t.cooldowns then t.cooldowns[key] else 0.0) < 60.0 * minutes as real
  }

  /** The limits of a rule, as they stand when it is checked. */
  datatype Limits = Limits(cooldown: int, duration: int)

  function Required(l: Limits): real {
    60.0 * l.duration as real
  }

  /** One entity over its threshold: the new state and whether an alert is sent. */
  function Exceed(t: Tracker, key: string, l: Limits, now: real): (Tracker, bool) {
    var marked := Mark(t, key, now);
    if l.duration > 0 && Elapsed(marked, key, now) < Required(l) then (marked, false)
    else if InCooldown(marked, key, l.cooldown, now) then (marked, false)
    else (Tracker(Recent(marked.cooldowns[key := now], now), marked.durations - {key}), true)
  }

  class AlertTracker {
    var cooldowns: map<string, real>
    var durations: map<string, real>

    function View(): Tracker
      reads this
    {
      Tracker(cooldowns, durations)
    }

    constructor ()
      ensures View() == Tracker(map[], map[])
    {
      cooldowns, durations := map[], map[];
    }

    /** The sweep over a copy of the keys that both setters end with. */
    static method Swept(m: map<string, real>, now: real) returns (r: map<string, real>)
      ensures r == Recent(m, now)
    {
      r := m;
      var keys := m.Keys;
      while keys != {}
        invariant keys <= m.Keys && r.Keys <= m.Keys
        invariant forall k :: k in r ==> r[k] == m[k]
        invariant forall k :: k in keys ==> k in r
        invariant forall k :: k in m && k !in keys ==> (k in r <==> now - m[k] <= DAY)
        decreases |keys|
      {
        var k :| k in keys;
        if now - m[k] > DAY {
          r := r - {k};
        }
        keys := keys - {k};
      }
    }

    method SetCooldown(key: string, now: real)
      modifies this`cooldowns
      ensures cooldowns == Recent(old(cooldowns)[key := now], now)
    {
      cooldowns := cooldowns[key := now];
      cooldowns := Swept(cooldowns, now);
    }

    method MarkExceeded(key: string, now: real)
      modifies this`durations
      ensures View() == Mark(old(View()), key, now)
    {
      if key !in durations {
        durations := durations[key := now];
      }
      durations := Swept(durations, now);
    }

    method ClearDuration(key: string)
      modifies this`durations
      ensures durations == old(durations) - {key}
    {
      durations := durations - {key};
    }

    /** The empty check: every tracked entity of the rule and server starts over. */
    method ClearServer(rule: nat, server: nat)
      modifies this`durations
      ensures durations == Without(old(durations), Prefix(rule, server))
    {
      var prefix := Prefix(rule, server);
      assert TrackKey(rule, server, "") == prefix;
      hide Prefix, TrackKey;
      ClearDuration(TrackKey(rule, server, ""));
      var m, keys := durations, durations.Keys;
      while keys != {}
        invariant keys <= m.Keys && durations.Keys <= m.Keys
        invariant forall k :: k in durations ==> durations[k] == m[k]
        invariant forall k :: k in keys ==> k in durations
        invariant forall k :: k in m && k !in keys ==> (k in durations <==> !StartsWith(k, prefix))
        decreases |keys|
      {
        var k :| k in keys;
        if StartsWith(k, prefix) {
          durations := durations - {k};
        }
        keys := keys - {k};
      }
    }

    method Exceeded(rule: nat, server: nat, entity: string, l: Limits, now: real) returns (alert: bool)
      modifies this
      ensures (View(), alert) == Exceed(old(View()), TrackKey(rule, server, entity), l, now)
    {
      var key := TrackKey(rule, server, entity);
      MarkExceeded(key, now);
      if l.duration > 0 && Elapsed(View(), key, now) < Required(l) {
        return false;
      }
      if InCooldown(View(), key, l.cooldown, now) {
        return false;
      }
      SetCooldown(key, now);
      ClearDuration(key);
      return true;
    }

    /** The loop over the entities of one server that are over their threshold. */
    method CheckReadings(rule: nat, server: nat, l: Limits, readings: seq<Reading>) returns (alerts: seq<bool>)
      modifies this
      ensures (View(), alerts) == Run(old(View()), ReadingSteps(rule, server, l, readings))
    {
      alerts := [];
      ghost var done: seq<Step> := [];
      hide Exceed;
      for j := 0 to |readings|
        invariant done == ReadingSteps(rule, server, l, readings[..j])
        invariant (View(), alerts) == Run(old(View()), done)
      {
        assert readings[..j + 1][..j] == readings[..j];
        var r := readings[j];
        ghost var step := OverThreshold(rule, server, r.entity, l, r.now);
        RunAppend(old(View()), done, step);
        var alert := Exceeded(rule, server, r.entity, l, r.now);
        alerts := alerts + [alert];
        done := done + [step];
      }
      assert readings[..|readings|] == readings;
    }

    /** `_check_one` over its servers: what collecting their metrics gave, and which alerts go out. */
    method CheckOne(rule: nat, l: Limits, checks: seq<ServerCheck>) returns (alerts: seq<bool>)
      modifies this
      ensures (View(), alerts) == Run(old(View()), Steps(rule, l, checks))
    {
      alerts := [];
      hide Exceed, Without, Run, ReadingSteps;
      RunOfNothing(View());
      for i := 0 to |checks|
        invariant (View(), alerts) == Run(old(View()), Steps(rule, l, checks[..i]))
      {
        assert checks[..i + 1][..i] == checks[..i];
        var check := checks[i];
        ghost var done := Steps(rule, l, checks[..i]);
        match check.results {
          case None =>
            assert done + [] == done;
          case Some(readings) =>
            if readings != [] {
              RunConcat(old(View()), done, ReadingSteps(rule, check.server, l, readings));
              var more := CheckReadings(rule, check.server, l, readings);
              alerts := alerts + more;
            } else {
              RunAppend(old(View()), done, AllClear(rule, check.server, check.now));
              ClearServer(rule, check.server);
              alerts := alerts + [false];
            }
        }
      }
      assert checks[..|checks|] == checks;
    }
  }

  // ── Runs ──

  datatype Reading = Reading(entity: string, now: real)

  /** One server of a check: no results at all when collection failed. */
  datatype ServerCheck = ServerCheck(server: nat, results: Option<seq<Reading>>, now: real)

  datatype Step =
    | OverThreshold(rule: nat, server: nat, entity: string, limits: Limits, now: real)
    | AllClear(rule: nat, server: nat, now: real)

  function ReadingSteps(rule: nat, server: nat, l: Limits, readings: seq<Reading>): seq<Step> {
    if readings == [] then []
    else
      var r := readings[|readings| - 1];
      ReadingSteps(rule, server, l, readings[..|readings| - 1]) + [OverThreshold(rule, server, r.entity, l, r.now)]
  }

  function Steps(rule: nat, l: Limits, checks: seq<ServerCheck>): seq<Step> {
    if checks == [] then []
    else
      var check := checks[|checks| - 1];
      Steps(rule, l, checks[..|checks| - 1]) +
      match check.results {
        case None => []
        case Some(readings) => if readings != [] then ReadingSteps(rule, check.server, l, readings)
          else [AllClear(rule, check.server, check.now)]
      }
  }

  /** The steps of a check are its readings, server by server and in their order: each reading is one
      excess at its own time, an empty result clears the server, a failed collection is no step. */
  lemma {:induction false} StepsAre(rule: nat, l: Limits, checks: seq<ServerCheck>, check: ServerCheck,
          readings: seq<Reading>, reading: Reading)
    ensures Steps(rule, l, checks + [check.(results := None)]) == Steps(rule, l, checks)
    ensures Steps(rule, l, checks + [check.(results := Some([]))])
      == Steps(rule, l, checks) + [AllClear(rule, check.server, check.now)]
    ensures readings != [] ==>
      Steps(rule, l, checks + [check.(results := Some(readings))])
      == Steps(rule, l, checks) + ReadingSteps(rule, check.server, l, readings)
    ensures ReadingSteps(rule, check.server, l, readings + [reading])
      == ReadingSteps(rule, check.server, l, readings)
        + [OverThreshold(rule, check.server, reading.entity, l, reading.now)]
  {
    hide ReadingSteps;
    assert forall c: ServerCheck :: (checks + [c])[..|checks|] == checks;
    assert ReadingSteps(rule, check.server, l, readings + [reading])
      == ReadingSteps(rule, check.server, l, readings)
        + [OverThreshold(rule, check.server, reading.entity, l, reading.now)] by {
      OneMoreReading(rule, check.server, l, readings, reading);
    }
  }

  lemma OneMoreReading(rule: nat, server: nat, l: Limits, readings: seq<Reading>, reading: Reading)
    ensures ReadingSteps(rule, server, l, readings + [reading])
      == ReadingSteps(rule, server, l, readings) + [OverThreshold(rule, server, reading.entity, l, reading.now)]
  {
    assert (readings + [reading])[..|readings|] == readings;
  }

  function Apply(t: Tracker, step: Step): (Tracker, bool) {
    match step
    case OverThreshold(rule, server, entity, limits, now) => Exceed(t, TrackKey(rule, server, entity), limits, now)
    case AllClear(rule, server, _) => (t.(durations := Without(t.durations, Prefix(rule, server))), false)
  }

  /** The state after a run, and for every step whether it sent an alert. */
  function Run(t: Tracker, steps: seq<Step>): (r: (Tracker, seq<bool>))
    ensures |r.1| == |steps|
  {
    if steps == [] then (t, [])
    else
      var (before, alerts) := Run(t, steps[..|steps| - 1]);
      var (after, alert) := Apply(before, steps[|steps| - 1]);
      (after, alerts + [alert])
  }

  lemma RunAppend(t: Tracker, steps: seq<Step>, step: Step)
    ensures Run(t, steps + [step]).0 == Apply(Run(t, steps).0, step).0
    ensures Run(t, steps + [step]).1 == Run(t, steps).1 + [Apply(Run(t, steps).0, step).1]
  {
    assert (steps + [step])[..|steps|] == steps;
  }

  lemma {:induction false} RunConcat(t: Tracker, a: seq<Step>, b: seq<Step>)
    ensures var (mid, alerts) := Run(t, a);
            Run(t, a + b) == (Run(mid, b).0, alerts + Run(mid, b).1)
    decreases |b|
  {
    hide Apply;
    if b == [] {
      assert a + b == a;
      RunOfNothing(Run(t, a).0);
      assert Run(t, a).1 + [] == Run(t, a).1;
    } else {
      var n := |b| - 1;
      RunConcat(t, a, b[..n]);
      assert a + b == (a + b[..n]) + [b[n]];
      RunAppend(t, a + b[..n], b[n]);
      var (mid, alerts) := Run(t, a);
      var last := Apply(Run(mid, b[..n]).0, b[n]).1;
      assert alerts + (Run(mid, b[..n]).1 + [last]) == alerts + Run(mid, b[..n]).1 + [last];
    }
  }

  const START := Tracker(map[], map[])

  predicate Timed(steps: seq<Step>) {
    forall i, j :: 0 <= i < j < |steps| ==> steps[i].now <= steps[j].now
  }

  predicate AlertedAt(steps: seq<Step>, i: int, key: string) {
    && 0 <= i < |steps| && steps[i].OverThreshold? && TrackKey(steps[i].rule, steps[i].server, steps[i].entity) == key
    && Run(START, steps).1[i]
  }

  lemma AlertsOfPrefix(steps: seq<Step>, step: Step, i: int, key: string)
    ensures 0 <= i < |steps| ==> (AlertedAt(steps + [step], i, key) <==> AlertedAt(steps, i, key))
    ensures AlertedAt(steps + [step], |steps|, key) <==>
      step.OverThreshold? && TrackKey(step.rule, step.server, step.entity) == key && Apply(Run(START, steps).0, step).1
  {
    RunAppend(START, steps, step);
    hide TrackKey, Apply;
  }

  // ── Cooldown ──

  /** Every past alert of a key is still covered by its cooldown record, or is more than a day old. */
  ghost predicate CooldownsCover(steps: seq<Step>, t: Tracker) {
    forall i, key :: AlertedAt(steps, i, key) ==>
      (key in t.cooldowns && t.cooldowns[key] >= steps[i].now) || steps[|steps| - 1].now - steps[i].now > DAY
  }

  lemma {:induction false} CooldownsAlwaysCover(steps: seq<Step>)
    requires Timed(steps)
    ensures CooldownsCover(steps, Run(START, steps).0)
  {
    if steps != [] {
      var n := |steps| - 1;
      var front, step := steps[..n], steps[n];
      assert steps == front + [step];
      CooldownsAlwaysCover(front);
      var before, after := Run(START, front).0, Run(START, steps).0;
      forall i, key | AlertedAt(steps, i, key)
        ensures (key in after.cooldowns && after.cooldowns[key] >= steps[i].now) || steps[n].now - steps[i].now > DAY
      {
        AlertsOfPrefix(front, step, i, key);
        hide TrackKey, Run, Prefix;
      }
    }
  }

  function Least(a: real, b: real): real {
    if a < b then a else b
  }

  /** On every run, two alerts for one rule, server and entity are at least the cooldown apart, or a
      day where the cooldown is longer than that. */
  lemma AlertsAreSpaced(steps: seq<Step>, i: nat, j: nat, key: string)
    requires Timed(steps) && i < j && AlertedAt(steps, i, key) && AlertedAt(steps, j, key)
    ensures steps[j].now - steps[i].now >= Least(60.0 * steps[j].limits.cooldown as real, 86400.0)
  {
    var front, step := steps[..j], steps[j];
    AlertsBefore(steps, i, j, key);
    CooldownsAlwaysCover(front);
    AlertNow(steps, j, key);
    hide TrackKey, Run, AlertedAt;
    assert front[|front| - 1].now <= step.now && front[i].now == steps[i].now;
    AlertIsOutOfCooldown(Run(START, front).0, key, step.limits, step.now);
  }

  lemma AlertsBefore(steps: seq<Step>, i: nat, j: nat, key: string)
    requires i < j <= |steps| && AlertedAt(steps, i, key)
    ensures AlertedAt(steps[..j], i, key)
  {
    PrefixOfRun(steps, j);
    hide TrackKey, Run;
  }

  lemma AlertNow(steps: seq<Step>, j: nat, key: string)
    requires AlertedAt(steps, j, key)
    ensures Exceed(Run(START, steps[..j]).0, key, steps[j].limits, steps[j].now).1
  {
    hide TrackKey, Run, Exceed;
    PrefixOfRun(steps, j + 1);
    assert steps[..j + 1] == steps[..j] + [steps[j]];
    RunAppend(START, steps[..j], steps[j]);
  }

  lemma AlertIsOutOfCooldown(t: Tracker, key: string, l: Limits, now: real)
    requires Exceed(t, key, l, now).1
    ensures !InCooldown(t, key, l.cooldown, now)
  {
  }

  lemma {:induction false} PrefixOfRun(steps: seq<Step>, k: nat)
    requires k <= |steps|
    ensures Run(START, steps[..k]).1 == Run(START, steps).1[..k]
  {
    if k < |steps| {
      PrefixOfRun(steps[..|steps| - 1], k);
      assert steps[..|steps| - 1][..k] == steps[..k];
    } else {
      assert steps[..k] == steps;
    }
  }

  // ── Rules without a required duration ──

  predicate SentAt(steps: seq<Step>, m: int) {
    0 <= m < |steps| && Run(START, steps).1[m]
  }

  /** The alert of step i has left the records: some later alert, of whatever key, came more than a
      day after it. */
  predicate Forgotten(steps: seq<Step>, i: int)
    requires 0 <= i < |steps|
  {
    exists m :: i < m < |steps| && SentAt(steps, m) && steps[m].now - steps[i].now > DAY
  }

  predicate Remembered(steps: seq<Step>, i: int, key: string) {
    AlertedAt(steps, i, key) && !Forgotten(steps, i)
  }

  /** The record of a key is its last remembered alert. */
  ghost predicate CooldownOf(steps: seq<Step>, t: Tracker, key: string) {
    && (key in t.cooldowns ==> exists i :: Remembered(steps, i, key) && t.cooldowns[key] == steps[i].now)
    && (forall i :: Remembered(steps, i, key) ==> key in t.cooldowns && steps[i].now <= t.cooldowns[key])
  }

  lemma StillRemembered(steps: seq<Step>, step: Step, i: int, key: string)
    requires 0 <= i < |steps|
    ensures Remembered(steps + [step], i, key) <==>
      Remembered(steps, i, key) && !(SentAt(steps + [step], |steps|) && step.now - steps[i].now > DAY)
  {
    var longer := steps + [step];
    AlertsOfPrefix(steps, step, i, key);
    hide AlertedAt;
    forall m | 0 <= m < |steps|
      ensures SentAt(longer, m) <==> SentAt(steps, m)
    {
      RunAppend(START, steps, step);
      hide Run;
    }
    hide SentAt;
    assert forall m :: 0 <= m < |steps| ==> longer[m] == steps[m];
    assert longer[|steps|] == step;
    if SentAt(longer, |steps|) && step.now - steps[i].now > DAY {
      assert Forgotten(longer, i);
    }
    if Forgotten(steps, i) {
      var m :| i < m < |steps| && SentAt(steps, m) && steps[m].now - steps[i].now > DAY;
      assert SentAt(longer, m) && longer[m].now - longer[i].now > DAY;
    }
  }

  lemma NewestIsRemembered(steps: seq<Step>, key: string)
    requires steps != []
    ensures Remembered(steps, |steps| - 1, key) <==> AlertedAt(steps, |steps| - 1, key)
  {
    hide AlertedAt;
  }

  /** What one step does to the record of a key. */
  lemma CooldownAfter(t: Tracker, step: Step, key: string)
    ensures var (t', alert) := Apply(t, step);
            var own := step.OverThreshold? && TrackKey(step.rule, step.server, step.entity) == key;
            && (!alert ==> t'.cooldowns == t.cooldowns)
            && (alert && own ==> key in t'.cooldowns && t'.cooldowns[key] == step.now)
            && (alert && !own ==> (key in t'.cooldowns <==> key in t.cooldowns && step.now - t.cooldowns[key] <= DAY))
            && (alert && !own && key in t'.cooldowns ==> t'.cooldowns[key] == t.cooldowns[key])
  {
    hide TrackKey, Prefix;
  }

  lemma CooldownOfStep(steps: seq<Step>, step: Step, key: string)
    requires Timed(steps + [step]) && CooldownOf(steps, Run(START, steps).0, key)
    ensures CooldownOf(steps + [step], Run(START, steps + [step]).0, key)
  {
    var longer, before, n := steps + [step], Run(START, steps).0, |steps|;
    RunAppend(START, steps, step);
    AlertsOfPrefix(steps, step, 0, key);
    CooldownAfter(before, step, key);
    NewestIsRemembered(longer, key);
    assert SentAt(longer, n) == Apply(before, step).1;
    forall i | 0 <= i < n
      ensures Remembered(longer, i, key) <==>
        Remembered(steps, i, key) && !(SentAt(longer, n) && step.now - steps[i].now > DAY)
      ensures longer[i] == steps[i] && steps[i].now <= step.now
    {
      StillRemembered(steps, step, i, key);
      assert longer[n] == step;
    }
    assert longer[n] == step;
    RememberedIsIndex(steps, key);
    RememberedIsIndex(longer, key);
    hide Run, Apply, TrackKey, AlertedAt, SentAt, Remembered, Timed;
  }

  lemma RememberedIsIndex(steps: seq<Step>, key: string)
    ensures forall i :: Remembered(steps, i, key) ==> 0 <= i < |steps|
  {
    hide Run, TrackKey, Forgotten;
  }

  lemma {:induction false} CooldownsRemember(steps: seq<Step>, key: string)
    requires Timed(steps)
    ensures CooldownOf(steps, Run(START, steps).0, key)
  {
    if steps != [] {
      var n := |steps| - 1;
      CooldownsRemember(steps[..n], key);
      assert steps == steps[..n] + [steps[n]];
      CooldownOfStep(steps[..n], steps[n], key);
    } else {
      RememberedIsIndex(steps, key);
    }
  }

  lemma ImmediateExceed(t: Tracker, key: string, l: Limits, now: real)
    requires l.duration <= 0
    ensures Exceed(t, key, l, now).1 <==>
      now - (if key in t.cooldowns then t.cooldowns[key] else 0.0) >= 60.0 * l.cooldown as real
  {
  }

  /** On every timed run, an excess of a rule without a required duration alerts exactly if every
      remembered alert of its key is at least the cooldown old; where there is none, the clock itself
      has to be past the cooldown. At exactly the cooldown it alerts. */
  lemma ImmediateAlertIff(steps: seq<Step>, step: Step)
    requires Timed(steps + [step]) && step.OverThreshold? && step.limits.duration <= 0
    ensures var key := TrackKey(step.rule, step.server, step.entity);
            var cooldown := 60.0 * step.limits.cooldown as real;
            AlertedAt(steps + [step], |steps|, key) <==>
              && (forall i :: Remembered(steps, i, key) ==> step.now - steps[i].now >= cooldown)
              && (step.now >= cooldown || exists i :: Remembered(steps, i, key))
  {
    var key := TrackKey(step.rule, step.server, step.entity);
    assert Timed(steps) by {
      assert forall i :: 0 <= i < |steps| ==> (steps + [step])[i] == steps[i];
    }
    CooldownsRemember(steps, key);
    AlertsOfPrefix(steps, step, 0, key);
    ImmediateExceed(Run(START, steps).0, key, step.limits, step.now);
    hide Run, TrackKey, AlertedAt, Remembered, Exceed;
  }

  /** Where the cooldown is at most a day and the clock is past it, the history of the key alone
      decides: the excess alerts exactly if no alert of its key lies within the cooldown. */
  lemma ImmediateAlertWithinADay(steps: seq<Step>, step: Step)
    requires Timed(steps + [step]) && step.OverThreshold? && step.limits.duration <= 0
    requires step.now >= 60.0 * step.limits.cooldown as real && 60.0 * step.limits.cooldown as real <= DAY
    ensures var key := TrackKey(step.rule, step.server, step.entity);
            AlertedAt(steps + [step], |steps|, key) <==>
              forall i :: AlertedAt(steps, i, key) ==> step.now - steps[i].now >= 60.0 * step.limits.cooldown as real
  {
    var key := TrackKey(step.rule, step.server, step.entity);
    ImmediateAlertIff(steps, step);
    forall i | AlertedAt(steps, i, key) && !Remembered(steps, i, key)
      ensures step.now - steps[i].now > DAY
    {
      ForgottenIsOld(steps, step, i);
    }
    hide AlertedAt, TrackKey, Remembered;
  }

  lemma ForgottenIsOld(steps: seq<Step>, step: Step, i: int)
    requires Timed(steps + [step]) && 0 <= i < |steps| && Forgotten(steps, i)
    ensures step.now - steps[i].now > DAY
  {
    hide SentAt;
    var m :| i < m < |steps| && SentAt(steps, m) && steps[m].now - steps[i].now > DAY;
    var longer := steps + [step];
    assert longer[m] == steps[m] && longer[|steps|] == step;
  }

  /** Beyond a day the key's own history does not decide: of two excesses more than a day but less
      than the cooldown apart the second is silent, unless an alert of another key came in between,
      more than a day after the first, and swept its record. */
  lemma LongCooldownDependsOnOthers(x: Step, other: Step, y: Step)
    requires x.OverThreshold? && x.limits.duration <= 0 && y == x.(now := y.now)
    requires var cooldown := 60.0 * x.limits.cooldown as real;
             x.now >= cooldown && DAY < y.now - x.now < cooldown
    requires other.OverThreshold? && other.limits.duration <= 0 && other.now >= 60.0 * other.limits.cooldown as real
    requires DAY < other.now - x.now && other.now <= y.now
    requires TrackKey(other.rule, other.server, other.entity) != TrackKey(x.rule, x.server, x.entity)
    ensures var key := TrackKey(x.rule, x.server, x.entity);
            && AlertedAt([x], 0, key)
            && !AlertedAt([x] + [y], 1, key)
            && AlertedAt(([x] + [other]) + [y], 2, key)
  {
    var key, otherKey := TrackKey(x.rule, x.server, x.entity), TrackKey(other.rule, other.server, other.entity);
    hide TrackKey, Run;
    FirstAlerts(x);
    NewestIsRemembered([x], key);
    ImmediateAlertIff([x], y);
    OthersDoNotMatter(x, other);
    var two := [x] + [other];
    assert two[0] == x && two[1] == other;
    assert SentAt(two, 1);
    assert Forgotten(two, 0);
    assert !AlertedAt(two, 1, key);
    ImmediateAlertIff(two, y);
    assert forall i :: Remembered(two, i, key) ==> i == 0 || i == 1;
  }

  lemma FirstAlerts(x: Step)
    requires x.OverThreshold? && x.limits.duration <= 0 && x.now >= 60.0 * x.limits.cooldown as real
    ensures AlertedAt([x], 0, TrackKey(x.rule, x.server, x.entity))
  {
    assert [] + [x] == [x];
    ImmediateAlertIff([], x);
    RememberedIsIndex([], TrackKey(x.rule, x.server, x.entity));
    hide TrackKey, Run, Remembered;
  }

  lemma OthersDoNotMatter(x: Step, other: Step)
    requires x.OverThreshold? && other.OverThreshold? && x.now <= other.now
    requires other.limits.duration <= 0 && other.now >= 60.0 * other.limits.cooldown as real
    requires TrackKey(other.rule, other.server, other.entity) != TrackKey(x.rule, x.server, x.entity)
    ensures AlertedAt([x] + [other], 1, TrackKey(other.rule, other.server, other.entity))
  {
    hide TrackKey, Run;
    ImmediateAlertIff([x], other);
  }

  // ── Duration ──

  /** From step i on, the key was never cleared: no empty check of its rule and server, and no alert. */
  ghost predicate Unbroken(steps: seq<Step>, i: nat, rule: nat, server: nat, entity: string) {
    && i < |steps| && steps[i].OverThreshold? && steps[i].rule == rule && steps[i].server == server
        && steps[i].entity == entity
    && (forall m :: i <= m < |steps| && steps[m].AllClear? ==> !(steps[m].rule == rule && steps[m].server == server))
    && (forall m :: i <= m < |steps| ==> !AlertedAt(steps, m, TrackKey(rule, server, entity)))
  }

  ghost predicate DurationsMeasure(steps: seq<Step>, t: Tracker) {
    forall key :: key in t.durations ==>
      exists i: nat, rule: nat, server: nat, entity: string ::
        key == TrackKey(rule, server, entity) && Unbroken(steps, i, rule, server, entity)
          && steps[i].now == t.durations[key]
  }

  lemma UnbrokenSurvives(steps: seq<Step>, step: Step, i: nat, rule: nat, server: nat, entity: string)
    requires Unbroken(steps, i, rule, server, entity)
    requires !AlertedAt(steps + [step], |steps|, TrackKey(rule, server, entity))
    requires step.AllClear? ==> !(step.rule == rule && step.server == server)
    ensures Unbroken(steps + [step], i, rule, server, entity)
  {
    var longer := steps + [step];
    forall m | i <= m < |longer|
      ensures !AlertedAt(longer, m, TrackKey(rule, server, entity))
    {
      AlertsOfPrefix(steps, step, m, TrackKey(rule, server, entity));
    }
    hide AlertedAt, TrackKey;
  }

  lemma MeasureSurvives(steps: seq<Step>, step: Step, key: string)
    requires DurationsMeasure(steps, Run(START, steps).0)
    requires key in Run(START, steps + [step]).0.durations
    ensures exists i: nat, rule: nat, server: nat, entity: string ::
      key == TrackKey(rule, server, entity) && Unbroken(steps + [step], i, rule, server, entity)
      && (steps + [step])[i].now == Run(START, steps + [step]).0.durations[key]
  {
    var before, after, longer := Run(START, steps).0, Run(START, steps + [step]).0, steps + [step];
    RunAppend(START, steps, step);
    AlertsOfPrefix(steps, step, 0, key);
    DurationSource(before, step, key);
    hide Run, Apply, AlertedAt, TrackKey;
    if key in before.durations {
      var i: nat, rule: nat, server: nat, entity: string :|
        key == TrackKey(rule, server, entity) && Unbroken(steps, i, rule, server, entity)
          && steps[i].now == before.durations[key];
      ClearedIsGone(before, step, rule, server, entity);
      UnbrokenSurvives(steps, step, i, rule, server, entity);
      assert longer[i].now == after.durations[key];
    } else {
      assert longer[|steps|] == step;
      assert Unbroken(longer, |steps|, step.rule, step.server, step.entity);
      assert longer[|steps|].now == after.durations[key];
    }
  }

  /** A clock that is there after a step was there before with the same start, or starts with it. */
  lemma DurationSource(t: Tracker, step: Step, key: string)
    requires key in Apply(t, step).0.durations
    ensures !(Apply(t, step).1 && step.OverThreshold? && key == TrackKey(step.rule, step.server, step.entity))
    ensures if key in t.durations then Apply(t, step).0.durations[key] == t.durations[key]
            else step.OverThreshold? && key == TrackKey(step.rule, step.server, step.entity)
                 && Apply(t, step).0.durations[key] == step.now
  {
    hide TrackKey, Prefix;
  }

  lemma ClearedIsGone(t: Tracker, step: Step, rule: nat, server: nat, entity: string)
    requires TrackKey(rule, server, entity) in Apply(t, step).0.durations
    ensures step.AllClear? ==> !(step.rule == rule && step.server == server)
  {
    if step.AllClear? {
      PrefixIsExact(rule, server, step.rule, step.server, entity);
      hide TrackKey, Prefix;
    }
  }

  lemma {:induction false} DurationsAlwaysMeasure(steps: seq<Step>)
    ensures DurationsMeasure(steps, Run(START, steps).0)
  {
    if steps != [] {
      var n := |steps| - 1;
      assert steps == steps[..n] + [steps[n]];
      DurationsAlwaysMeasure(steps[..n]);
      forall key | key in Run(START, steps).0.durations
        ensures exists i: nat, rule: nat, server: nat, entity: string ::
          key == TrackKey(rule, server, entity) && Unbroken(steps, i, rule, server, entity)
            && steps[i].now == Run(START, steps).0.durations[key]
      {
        MeasureSurvives(steps[..n], steps[n], key);
      }
    }
  }

  /** On every run, an alert of a rule with a required duration ends a stretch at least that long
      (and at most a day) that began with the same entity over its threshold and in which no check
      of that rule and server came back empty and no alert for it was sent. */
  lemma AlertNeedsStretch(steps: seq<Step>, step: Step)
    requires step.OverThreshold? && step.limits.duration > 0
      && AlertedAt(steps + [step], |steps|, TrackKey(step.rule, step.server, step.entity))
    ensures exists i: nat ::
      Unbroken(steps, i, step.rule, step.server, step.entity) && Required(step.limits) <= step.now - steps[i].now <= DAY
  {
    var key := TrackKey(step.rule, step.server, step.entity);
    DurationsAlwaysMeasure(steps);
    RunAppend(START, steps, step);
    var before := Run(START, steps).0;
    assert Exceed(before, key, step.limits, step.now).1;
    assert key in before.durations;
    var i: nat, rule: nat, server: nat, entity: string :|
      key == TrackKey(rule, server, entity) && Unbroken(steps, i, rule, server, entity)
        && steps[i].now == before.durations[key];
    KeysAreInjective(rule, server, entity, step.rule, step.server, step.entity);
    hide Unbroken, TrackKey, Run;
    assert Required(step.limits) <= step.now - steps[i].now <= DAY;
  }

  /** A required duration beyond a day can never be reached: the start of the stretch is swept
      before it is read. Whatever was tracked, no alert goes out. */
  lemma BeyondADayNeverAlerts(t: Tracker, key: string, l: Limits, now: real)
    requires l.duration > 1440
    ensures !Exceed(t, key, l, now).1
  {
    var marked := Mark(t, key, now);
    assert Elapsed(marked, key, now) <= DAY;
  }

  // ── What keeps a clock running ──

  predicate IsFor(step: Step, rule: nat, server: nat, entity: string) {
    step.OverThreshold? && step.rule == rule && step.server == server && step.entity == entity
  }

  /** The step neither clears the entity's clock nor sweeps it nor alerts for it. */
  predicate KeepsClock(step: Step, rule: nat, server: nat, entity: string, start: real) {
    match step
    case AllClear(r, s, _) => !(r == rule && s == server)
    case OverThreshold(_, _, _, l, now) =>
      now - start <= DAY && (IsFor(step, rule, server, entity) ==> l.duration > 0 && now - start < Required(l))
  }

  lemma StepKeepsClock(t: Tracker, step: Step, rule: nat, server: nat, entity: string)
    requires var key := TrackKey(rule, server, entity);
             key in t.durations && KeepsClock(step, rule, server, entity, t.durations[key])
    ensures var key, (after, alert) := TrackKey(rule, server, entity), Apply(t, step);
            && key in after.durations && after.durations[key] == t.durations[key]
            && (IsFor(step, rule, server, entity) ==> !alert)
            && (!alert ==> after.cooldowns == t.cooldowns)
  {
    match step
    case AllClear(r, s, _) =>
      PrefixIsExact(rule, server, r, s, entity);
      hide Prefix;
    case OverThreshold(r, s, e, l, now) =>
      if TrackKey(r, s, e) == TrackKey(rule, server, entity) {
        KeysAreInjective(r, s, e, rule, server, entity);
      }
      hide TrackKey;
  }

  /** However often others exceed, alert or recover: the entity's clock keeps its start and the
      entity does not alert. */
  lemma {:induction false} ClockRuns(t: Tracker, steps: seq<Step>, rule: nat, server: nat, entity: string)
    requires TrackKey(rule, server, entity) in t.durations
    requires forall i :: 0 <= i < |steps| ==>
      KeepsClock(steps[i], rule, server, entity, t.durations[TrackKey(rule, server, entity)])
    ensures var key, (after, alerts) := TrackKey(rule, server, entity), Run(t, steps);
            && key in after.durations && after.durations[key] == t.durations[key]
            && (forall i :: 0 <= i < |steps| && IsFor(steps[i], rule, server, entity) ==> !alerts[i])
  {
    hide Apply, TrackKey, KeepsClock;
    if steps != [] {
      var n := |steps| - 1;
      ClockRuns(t, steps[..n], rule, server, entity);
      StepKeepsClock(Run(t, steps[..n]).0, steps[n], rule, server, entity);
    }
  }

  lemma SilentStep(t: Tracker, step: Step)
    ensures !Apply(t, step).1 ==> Apply(t, step).0.cooldowns == t.cooldowns
  {
    hide TrackKey, Prefix;
  }

  /** Only alerts write the cooldowns. */
  lemma {:induction false} SilentRunKeepsCooldowns(t: Tracker, steps: seq<Step>)
    requires forall i :: 0 <= i < |steps| ==> !Run(t, steps).1[i]
    ensures Run(t, steps).0.cooldowns == t.cooldowns
  {
    hide Apply;
    if steps != [] {
      var n := |steps| - 1;
      var (before, alerts) := Run(t, steps[..n]);
      assert Run(t, steps).1 == alerts + [Apply(before, steps[n]).1];
      assert forall i :: 0 <= i < n ==> Run(t, steps).1[i] == alerts[i];
      assert Run(t, steps).1[n] == Apply(before, steps[n]).1;
      SilentRunKeepsCooldowns(t, steps[..n]);
      SilentStep(before, steps[n]);
    }
  }

  /** The entity is in no reading of the check, and its clock is at most a day old at each. */
  predicate Silent(check: ServerCheck, server: nat, entity: string, start: real) {
    check.results.Some? ==> forall r :: r in check.results.value ==>
      r.now - start <= DAY && (check.server == server ==> r.entity != entity)
  }

  lemma {:induction false} ReadingsKeepClock(rule: nat, l: Limits, on: nat, readings: seq<Reading>, server: nat,
          entity: string, start: real)
    requires forall r :: r in readings ==> r.now - start <= DAY && (on == server ==> r.entity != entity)
    ensures forall i :: 0 <= i < |ReadingSteps(rule, on, l, readings)| ==>
      KeepsClock(ReadingSteps(rule, on, l, readings)[i], rule, server, entity, start)
  {
    if readings != [] {
      var n := |readings| - 1;
      assert readings[n] in readings && forall r :: r in readings[..n] ==> r in readings;
      ReadingsKeepClock(rule, l, on, readings[..n], server, entity, start);
    }
  }

  /** What one server's check does to the clock of a tracked entity that it does not report: it
      survives exactly if collection failed, another server was checked, or some other entity of
      the server is over its threshold. */
  lemma CheckKeepsClockIff(t: Tracker, rule: nat, l: Limits, check: ServerCheck, server: nat, entity: string)
    requires var key := TrackKey(rule, server, entity);
             key in t.durations && Silent(check, server, entity, t.durations[key])
    ensures var key := TrackKey(rule, server, entity);
            var after := Run(t, Steps(rule, l, [check])).0.durations;
            && (key in after <==> check.server != server || check.results != Some([]))
            && (key in after ==> after[key] == t.durations[key])
  {
    var key := TrackKey(rule, server, entity);
    OneCheck(rule, l, check);
    hide Run, Steps, ReadingSteps, Exceed;
    var steps := Steps(rule, l, [check]);
    if check.results == Some([]) {
      var step := AllClear(rule, check.server, check.now);
      RunAppend(t, [], step);
      RunOfNothing(t);
      assert [] + [step] == steps;
      PrefixIsExact(rule, server, rule, check.server, entity);
      hide Prefix, TrackKey;
    } else if check.results.None? {
      RunOfNothing(t);
    } else {
      ReadingsKeepClock(rule, l, check.server, check.results.value, server, entity, t.durations[key]);
      ClockRuns(t, steps, rule, server, entity);
    }
  }

  lemma OneCheck(rule: nat, l: Limits, check: ServerCheck)
    ensures Steps(rule, l, [check]) == match check.results
      case None => []
      case Some(readings) => if readings != [] then ReadingSteps(rule, check.server, l, readings)
        else [AllClear(rule, check.server, check.now)]
  {
    assert [check][..0] == [];
    assert Steps(rule, l, []) == [];
    hide ReadingSteps;
  }

  lemma {:induction false} AbsentStays(t: Tracker, steps: seq<Step>, rule: nat, server: nat, entity: string)
    requires TrackKey(rule, server, entity) !in t.durations
    requires forall i :: 0 <= i < |steps| ==> !IsFor(steps[i], rule, server, entity)
    ensures TrackKey(rule, server, entity) !in Run(t, steps).0.durations
  {
    if steps != [] {
      var n := |steps| - 1;
      AbsentStays(t, steps[..n], rule, server, entity);
      var step := steps[n];
      if step.OverThreshold? && TrackKey(step.rule, step.server, step.entity) == TrackKey(rule, server, entity) {
        KeysAreInjective(step.rule, step.server, step.entity, rule, server, entity);
      }
      hide TrackKey, Prefix;
    }
  }

  lemma {:induction false} StepsConcatLast(rule: nat, l: Limits, checks: seq<ServerCheck>)
    requires checks != []
    ensures Steps(rule, l, checks) == Steps(rule, l, checks[..|checks| - 1]) + Steps(rule, l, [checks[|checks| - 1]])
  {
    OneCheck(rule, l, checks[|checks| - 1]);
  }

  lemma {:induction false} ReadingsAreOthers(rule: nat, l: Limits, on: nat, readings: seq<Reading>, server: nat,
          entity: string)
    requires forall r :: r in readings ==> on == server ==> r.entity != entity
    ensures forall i :: 0 <= i < |ReadingSteps(rule, on, l, readings)| ==>
      !IsFor(ReadingSteps(rule, on, l, readings)[i], rule, server, entity)
  {
    if readings != [] {
      var n := |readings| - 1;
      assert readings[n] in readings && forall r :: r in readings[..n] ==> r in readings;
      ReadingsAreOthers(rule, l, on, readings[..n], server, entity);
    }
  }

  /** Exactly when an entity that is no longer over its threshold keeps its clock through any number
      of checks of its rule: none of them found its server without any entity over the threshold.
      Another entity of the server, or a failed collection, is enough to keep it. */
  lemma {:induction false} RecoveredEntityKeepsClockIff(t: Tracker, rule: nat, l: Limits, checks: seq<ServerCheck>,
          server: nat, entity: string)
    requires TrackKey(rule, server, entity) in t.durations
    requires forall c :: c in checks ==> Silent(c, server, entity, t.durations[TrackKey(rule, server, entity)])
    ensures var key := TrackKey(rule, server, entity);
            var after := Run(t, Steps(rule, l, checks)).0.durations;
            && (key in after <==> forall c :: c in checks && c.server == server ==> c.results != Some([]))
            && (key in after ==> after[key] == t.durations[key])
  {
    hide Run, Steps, TrackKey, Silent;
    if checks == [] {
      NoSteps(rule, l);
      RunOfNothing(t);
    } else {
      var n := |checks| - 1;
      var last := checks[n];
      assert last in checks && forall c :: c in checks <==> c in checks[..n] || c == last;
      RecoveredEntityKeepsClockIff(t, rule, l, checks[..n], server, entity);
      StepsConcatLast(rule, l, checks);
      RunConcat(t, Steps(rule, l, checks[..n]), Steps(rule, l, [last]));
      var before := Run(t, Steps(rule, l, checks[..n])).0;
      if TrackKey(rule, server, entity) in before.durations {
        CheckKeepsClockIff(before, rule, l, last, server, entity);
      } else {
        CheckStartsNoClock(before, rule, l, last, server, entity, t.durations[TrackKey(rule, server, entity)]);
      }
    }
  }

  lemma NoSteps(rule: nat, l: Limits)
    ensures Steps(rule, l, []) == []
  {
  }

  lemma CheckStartsNoClock(t: Tracker, rule: nat, l: Limits, check: ServerCheck, server: nat, entity: string,
          start: real)
    requires TrackKey(rule, server, entity) !in t.durations && Silent(check, server, entity, start)
    ensures TrackKey(rule, server, entity) !in Run(t, Steps(rule, l, [check])).0.durations
  {
    OneCheck(rule, l, check);
    if check.results.Some? {
      ReadingsAreOthers(rule, l, check.server, check.results.value, server, entity);
    }
    hide TrackKey, Run, ReadingSteps;
    AbsentStays(t, Steps(rule, l, [check]), rule, server, entity);
  }

  /** The first excess starts the clock and alerts nobody. */
  lemma FirstExcess(t: Tracker, key: string, l: Limits, start: real)
    requires key !in t.durations && l.duration > 0
    ensures var (after, alert) := Exceed(t, key, l, start);
            !alert && after.cooldowns == t.cooldowns && key in after.durations && after.durations[key] == start
  {
  }

  lemma LastExcess(t: Tracker, key: string, l: Limits, now: real)
    requires key in t.durations && t.durations[key] > 0.0 && l.duration > 0 && now - t.durations[key] >= Required(l)
    requires !InCooldown(t, key, l.cooldown, now)
    ensures Exceed(t, key, l, now).1 <==> now - t.durations[key] <= DAY
  {
  }

  lemma {:induction false} NeverBeyondADay(t: Tracker, steps: seq<Step>)
    requires forall i :: 0 <= i < |steps| ==> steps[i].OverThreshold? && steps[i].limits.duration > 1440
    ensures forall i :: 0 <= i < |steps| ==> !Run(t, steps).1[i]
  {
    if steps != [] {
      var n := |steps| - 1;
      NeverBeyondADay(t, steps[..n]);
      var step := steps[n];
      BeyondADayNeverAlerts(Run(t, steps[..n]).0, TrackKey(step.rule, step.server, step.entity), step.limits, step.now);
      hide TrackKey, Exceed;
    }
  }

  /** For any number of checks: a value that stays over its threshold is silent until the required
      duration is over, and the first excess after that alerts if and only if at most a day has
      passed since the first one, so never where the duration itself is longer than that. */
  lemma SteadyExcessAlertsIff(t: Tracker, rule: nat, server: nat, entity: string, l: Limits, times: seq<real>)
    requires l.duration > 0 && |times| >= 2 && times[0] > 0.0
    requires TrackKey(rule, server, entity) !in t.durations
    requires forall i :: 0 <= i < |times| - 1 ==> times[0] <= times[i] < times[0] + Required(l)
    requires times[|times| - 1] - times[0] >= Required(l)
    requires !InCooldown(t, TrackKey(rule, server, entity), l.cooldown, times[|times| - 1])
    ensures var alerts := Run(t, Excesses(rule, server, entity, l, times)).1;
            && (forall i :: 0 <= i < |times| - 1 ==> !alerts[i])
            && (alerts[|times| - 1] <==> times[|times| - 1] - times[0] <= 86400.0)
  {
    var n, key := |times| - 1, TrackKey(rule, server, entity);
    var all := Excesses(rule, server, entity, l, times);
    if l.duration > 1440 {
      NeverBeyondADay(t, all);
    } else {
      SteadyWithinADay(t, rule, server, entity, l, times);
    }
  }

  lemma SteadyWithinADay(t: Tracker, rule: nat, server: nat, entity: string, l: Limits, times: seq<real>)
    requires l.duration > 0 && |times| >= 2 && times[0] > 0.0 && Required(l) <= DAY
    requires TrackKey(rule, server, entity) !in t.durations
    requires forall i :: 0 <= i < |times| - 1 ==> times[0] <= times[i] < times[0] + Required(l)
    requires times[|times| - 1] - times[0] >= Required(l)
    requires !InCooldown(t, TrackKey(rule, server, entity), l.cooldown, times[|times| - 1])
    ensures var alerts := Run(t, Excesses(rule, server, entity, l, times)).1;
            && (forall i :: 0 <= i < |times| - 1 ==> !alerts[i])
            && (alerts[|times| - 1] <==> times[|times| - 1] - times[0] <= DAY)
  {
    var n, key := |times| - 1, TrackKey(rule, server, entity);
    var all := Excesses(rule, server, entity, l, times);
    hide TrackKey, Exceed, KeepsClock, Run, InCooldown;
    var u := SilentPrefix(t, rule, server, entity, l, times);
    assert all == all[..n] + [all[n]];
    RunAppend(t, all[..n], all[n]);
    assert !InCooldown(u, key, l.cooldown, times[n]) by {
      SameCooldowns(t, u, key, l.cooldown, times[n]);
    }
    LastExcess(u, key, l, times[n]);
  }

  lemma SameCooldowns(t: Tracker, u: Tracker, key: string, minutes: int, now: real)
    requires u.cooldowns == t.cooldowns
    ensures InCooldown(u, key, minutes, now) == InCooldown(t, key, minutes, now)
  {
  }

  lemma SilentPrefix(t: Tracker, rule: nat, server: nat, entity: string, l: Limits, times: seq<real>)
      returns (u: Tracker)
    requires l.duration > 0 && |times| >= 2 && times[0] > 0.0 && Required(l) <= DAY
    requires TrackKey(rule, server, entity) !in t.durations
    requires forall i :: 0 <= i < |times| - 1 ==> times[0] <= times[i] < times[0] + Required(l)
    ensures var (after, alerts) := Run(t, Excesses(rule, server, entity, l, times)[..|times| - 1]);
            && u == after && u.cooldowns == t.cooldowns
            && (forall i :: 0 <= i < |times| - 1 ==> !alerts[i])
            && TrackKey(rule, server, entity) in u.durations && u.durations[TrackKey(rule, server, entity)] == times[0]
  {
    hide TrackKey, Exceed, Run;
    var n, key := |times| - 1, TrackKey(rule, server, entity);
    var all := Excesses(rule, server, entity, l, times);
    var one, middle := [all[0]], all[1..n];
    assert all[..n] == one + middle;
    assert one == [] + [all[0]];
    assert forall i :: 0 <= i < |middle| ==> middle[i] == all[i + 1];
    RunOfNothing(t);
    RunAppend(t, [], all[0]);
    FirstExcess(t, key, l, times[0]);
    RunConcat(t, one, middle);
    ClockRuns(Run(t, one).0, middle, rule, server, entity);
    u := Run(t, one + middle).0;
    SilentRunKeepsCooldowns(t, one + middle);
  }

  function Excesses(rule: nat, server: nat, entity: string, l: Limits, times: seq<real>): (r: seq<Step>)
    ensures |r| == |times| && forall i :: 0 <= i < |r| ==> r[i] == OverThreshold(rule, server, entity, l, times[i])
  {
    seq(|times|, i requires 0 <= i < |times| => OverThreshold(rule, server, entity, l, times[i]))
  }

  /** So an entity that was over its threshold once, and not in between, alerts at its next excess,
      whatever kept its clock running. */
  lemma RecoveredEntityAlerts(t: Tracker, rule: nat, server: nat, entity: string, l: Limits, start: real,
          between: seq<Step>, now: real)
    requires l.duration > 0 && start > 0.0 && TrackKey(rule, server, entity) !in t.durations
    requires forall i :: 0 <= i < |between| ==>
      KeepsClock(between[i], rule, server, entity, start) && !IsFor(between[i], rule, server, entity)
    requires Required(l) <= now - start
    requires var first := OverThreshold(rule, server, entity, l, start);
             !InCooldown(Run(t, [first] + between).0, TrackKey(rule, server, entity), l.cooldown, now)
    ensures var first := OverThreshold(rule, server, entity, l, start);
            Run(t, ([first] + between) + [first.(now := now)]).1[1 + |between|] <==> now - start <= DAY
  {
    var key, first := TrackKey(rule, server, entity), OverThreshold(rule, server, entity, l, start);
    RunOfNothing(t);
    RunAppend(t, [], first);
    assert [] + [first] == [first];
    FirstExcess(t, key, l, start);
    RunConcat(t, [first], between);
    ClockRuns(Run(t, [first]).0, between, rule, server, entity);
    RunAppend(t, [first] + between, first.(now := now));
    LastExcess(Run(t, [first] + between).0, key, l, now);
    hide TrackKey, Exceed, KeepsClock;
  }

  lemma RunOfNothing(t: Tracker)
    ensures Run(t, []) == (t, [])
  {
  }
}
