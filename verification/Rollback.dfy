/** Which deploy a rollback goes back to, and how it is prepared. A successful replay leaves a new
    record that is itself the next rollback's starting point. */
module Rollback {
  import opened Wrappers
  import opened Text
  import opened Tables

  /** A successful record of the project with a stored request, in one mode or in any. */
  predicate Usable(l: DeployLog, project: string, mode: string) {
    l.project == project && l.status == LogOk && l.snapshot != NoSnapshot && (mode == "" || l.mode == mode)
  }

  /** `_find_record` */
  function FindRecord(db: Db, project: string, id: nat): (r: Option<nat>)
    ensures r.Some? ==> r.value == id && id in db.logs && db.logs[id].project == project
  {
    if id in db.logs && db.logs[id].project == project then Some(id) else None
  }

  /** `_find_latest_success` */
  function LatestSuccess(db: Db, project: string, mode: string): (r: Option<nat>)
    ensures r.Some? ==> r.value in db.logs && Usable(db.logs[r.value], project, mode)
    ensures forall id :: id in db.logs && id < db.nextLog && Usable(db.logs[id], project, mode) ==>
      r.Some? && id <= r.value
  {
    Newest(db.logs, db.nextLog, (l: DeployLog) => Usable(l, project, mode))
  }

  function Reference(db: Db, project: string, before: nat, mode: string): (r: Option<nat>)
    ensures r.Some? ==> r.value in db.logs
  {
    if before > 0 then FindRecord(db, project, before) else LatestSuccess(db, project, mode)
  }

  /** Same project and mode as the reference, older, successful, with a stored request and another tag. */
  predicate Candidate(db: Db, project: string, ref: nat, id: nat)
    requires ref in db.logs
  {
    id in db.logs && id < ref && Usable(db.logs[id], project, "")
    && db.logs[id].mode == db.logs[ref].mode && db.logs[id].tag != db.logs[ref].tag
  }

  /** `find_rollback_source`: the newest candidate below the reference, and none only if there is none. */
  function FindSource(db: Db, project: string, before: nat, mode: string): (r: Option<nat>)
    ensures var ref := Reference(db, project, before, mode);
            && (r.Some? ==> ref.Some? && Candidate(db, project, ref.value, r.value))
            && (ref.Some? ==> forall id: nat :: Candidate(db, project, ref.value, id) ==> r.Some? && id <= r.value)
  {
    var ref := Reference(db, project, before, mode);
    if ref.None? then None
    else
      var row := db.logs[ref.value];
      Newest(db.logs, ref.value, (l: DeployLog) => Usable(l, project, "") && l.mode == row.mode && l.tag != row.tag)
  }

  // ── Preparing ──

  datatype RollbackError = NotFound | InvalidTag | CorruptSnapshot | MissingSnapshot

  datatype Plan = Plan(mode: string, tag: string, native: bool, source: nat)

  predicate IsNative(mode: string) {
    mode in {"k8s/kubectl", "k8s/helm", "k8s/argocd"}
  }

  predicate IsWordChar(c: char) {
    'a' <= c <= 'z' || 'A' <= c <= 'Z' || IsDigit(c) || c == '_'
  }

  predicate IsTagText(s: string) {
    1 <= |s| <= 128 && IsWordChar(s[0]) && forall i :: 0 < i < |s| ==> IsWordChar(s[i]) || s[i] == '.' || s[i] == '-'
  }

  /** `validate_tag`; the pattern's `$` also accepts one line feed at the end. */
  predicate ValidTag(s: string) {
    IsTagText(s) || (s != "" && s[|s| - 1] == '\n' && IsTagText(s[..|s| - 1]))
  }

  /** The tags a rollback accepts: one to 128 letters, digits, underscores, dots and hyphens, not
      beginning with a dot or hyphen, and at most one line feed after them. */
  lemma ValidTagIff(body: string, feed: string)
    requires feed in {"", "\n"} && '\n' !in body
    ensures ValidTag(body + feed) <==>
      1 <= |body| <= 128 && body[0] !in {'.', '-'}
      && forall i :: 0 <= i < |body| ==> IsWordChar(body[i]) || body[i] in {'.', '-'}
  {
    hide IsWordChar;
    assert feed == "" ==> body + feed == body;
    assert feed == "\n" ==> (body + feed)[..|body|] == body;
    assert !IsWordChar('\n') && !IsWordChar('.') && !IsWordChar('-') by {
      NotWordChars();
    }
  }

  lemma NotWordChars()
    ensures !IsWordChar('\n') && !IsWordChar('.') && !IsWordChar('-')
  {
  }

  /** The mode that decides between native and replay: that of the given record, else the given one. */
  function ModeOf(db: Db, before: nat, mode: string): string {
    if before > 0 && before in db.logs then db.logs[before].mode else mode
  }

  /** Where the parameters come from. */
  function SourceOf(db: Db, project: string, before: nat, mode: string, tag: string): (r: Option<nat>)
    ensures r.Some? ==> r.value in db.logs
  {
    if tag != "" || IsNative(mode) then
      if before > 0 then FindRecord(db, project, before) else LatestSuccess(db, project, mode)
    else FindSource(db, project, before, mode)
  }

  function Prepared(db: Db, project: string, before: nat, wanted: string, tag: string): Result<Plan, RollbackError> {
    var mode := ModeOf(db, before, wanted);
    var source := SourceOf(db, project, before, mode, tag);
    if before > 0 && FindRecord(db, project, before).None? then Failure(NotFound)
    else if tag != "" && !ValidTag(tag) then Failure(InvalidTag)
    else if source.None? then Failure(NotFound)
    else
      var row := db.logs[source.value];
      match row.snapshot {
        case Unreadable => Failure(CorruptSnapshot)
        case NoSnapshot => Failure(MissingSnapshot)
        case Readable(m, t) =>
          if m == "" then Failure(MissingSnapshot)
          else
            var target := if tag != "" then tag else if t != "" then t else row.tag;
            Success(Plan(m, target, IsNative(mode) && tag == "", source.value))
      }
  }

  /** `prepare_rollback` up to the approval gate. */
  method PrepareRollback(db: Db, project: string, before: nat, wanted: string, tag: string) returns (r: Result<Plan,
          RollbackError>)
    ensures r == Prepared(db, project, before, wanted, tag)
  {
    var mode := wanted;
    if before > 0 {
      var ref := FindRecord(db, project, before);
      if ref.None? {
        return Failure(NotFound);
      }
      mode := db.logs[ref.value].mode;
    }
    var native := IsNative(mode);
    if tag != "" && !ValidTag(tag) {
      return Failure(InvalidTag);
    }
    var source: Option<nat>;
    if tag != "" {
      source := if before > 0 then FindRecord(db, project, before) else LatestSuccess(db, project, mode);
    } else if native {
      source := if before > 0 then FindRecord(db, project, before) else LatestSuccess(db, project, mode);
    } else {
      source := FindSource(db, project, before, mode);
    }
    if source.None? {
      return Failure(NotFound);
    }
    var row := db.logs[source.value];
    if row.snapshot.Unreadable? {
      return Failure(CorruptSnapshot);
    }
    if row.snapshot.NoSnapshot? || row.snapshot.mode == "" {
      return Failure(MissingSnapshot);
    }
    var target := row.snapshot.tag;
    if tag != "" {
      target := tag;
    }
    if target == "" {
      target := row.tag;
    }
    r := Success(Plan(row.snapshot.mode, target, native && tag == "", source.value));
  }

  /** The mode a request is about: that of the record it names, else the one it gives. */
  predicate IsAbout(db: Db, before: nat, wanted: string, mode: string) {
    if before > 0 then before in db.logs && db.logs[before].mode == mode else mode == wanted
  }

  /** What a prepared plan is, told from the tables: it repeats the stored request of its source in
      that request's mode, and is native exactly without a given tag in the three cluster modes. The
      source of a native plan, or of one with a tag, is the record named or else the project's last
      success in the mode; any other plan goes back to the newest older success of another tag. */
  lemma PlanIs(db: Db, project: string, before: nat, wanted: string, tag: string, mode: string)
    requires Prepared(db, project, before, wanted, tag).Success? && IsAbout(db, before, wanted, mode)
    ensures var plan := Prepared(db, project, before, wanted, tag).value;
            && (plan.native <==> tag == "" && mode in {"k8s/kubectl", "k8s/helm", "k8s/argocd"})
            && plan.source in db.logs && db.logs[plan.source].snapshot.Readable?
            && plan.mode == db.logs[plan.source].snapshot.mode != ""
            && plan.tag == (if tag != "" then tag
                            else if db.logs[plan.source].snapshot.tag != "" then db.logs[plan.source].snapshot.tag
                            else db.logs[plan.source].tag)
            && (before > 0 ==> before in db.logs && db.logs[before].project == project)
            && (if tag != "" || plan.native then
                  if before > 0 then plan.source == before else LatestSuccess(db, project, mode) == Some(plan.source)
                else
                  var ref := if before > 0 then Some(before) else LatestSuccess(db, project, mode);
                  ref.Some? && ref.value in db.logs && plan.source < ref.value
                  && db.logs[plan.source].project == project && db.logs[plan.source].status == LogOk
                  && db.logs[plan.source].mode == db.logs[ref.value].mode
                  && db.logs[plan.source].tag != db.logs[ref.value].tag
                  && forall id: nat :: Candidate(db, project, ref.value, id) ==> id <= plan.source)
  {
    var source := SourceOf(db, project, before, mode, tag);
    hide ValidTag, LatestSuccess;
  }

  /** Which refusal comes first: the named record is missing, the tag is malformed, there is nothing
      to go back to, its request cannot be read, or there is none. */
  lemma RefusalIs(db: Db, project: string, before: nat, wanted: string, tag: string, mode: string)
    requires before > 0 && before in db.logs && db.logs[before].project == project ==> db.logs[before].mode == mode
    requires before == 0 ==> mode == wanted
    ensures var r := Prepared(db, project, before, wanted, tag);
            var named := before > 0 ==> before in db.logs && db.logs[before].project == project;
            var source := SourceOf(db, project, before, mode, tag);
            && (!named ==> r == Failure(NotFound))
            && (named && tag != "" && !ValidTag(tag) ==> r == Failure(InvalidTag))
            && (named && (tag == "" || ValidTag(tag)) ==>
                && (r == Failure(NotFound) <==> source.None?)
                && (r == Failure(CorruptSnapshot) <==> source.Some? && db.logs[source.value].snapshot.Unreadable?)
                && (r == Failure(MissingSnapshot) <==>
                    source.Some? && (db.logs[source.value].snapshot.NoSnapshot?
                                     || (db.logs[source.value].snapshot.Readable?
                                         && db.logs[source.value].snapshot.mode == ""))))
  {
    hide ValidTag, LatestSuccess, FindSource;
  }

  // ── Replaying ──

  /** The stored request matches the row it is stored with, as the executors write them. */
  predicate Consistent(l: DeployLog) {
    l.snapshot.Readable? ==> l.snapshot.mode == l.mode && l.snapshot.tag == l.tag
  }

  /** A successful run of a plan: its record is started, with its request stored, and finished. */
  function Deployed(db: Db, project: string, plan: Plan, runner: string, now: int): Option<Db> {
    var started := InsertRunning(db, Request(project, plan.tag, plan.mode, Readable(plan.mode, plan.tag)), 0, runner,
      now);
    if started.None? then None else Some(FinishLog(started.value, db.nextLog, LogOk))
  }

  /** A replay rollback without a given record or tag, prepared and run successfully. */
  function Replayed(db: Db, project: string, mode: string, runner: string, now: int): Option<Db> {
    match Prepared(db, project, 0, mode, "") {
      case Failure(_) => None
      case Success(plan) => Deployed(db, project, plan, runner, now)
    }
  }

  lemma ReplayAddsRow(db: Db, project: string, mode: string, runner: string, now: int)
    requires IdsFresh(db) && !IsNative(mode) && Replayed(db, project, mode, runner, now).Some?
    requires forall id :: id in db.logs ==> Consistent(db.logs[id])
    ensures var db', s := Replayed(db, project, mode, runner, now).value, FindSource(db, project, 0, mode);
            && s.Some? && IdsFresh(db') && db'.nextLog == db.nextLog + 1
            && db'.logs == db.logs[db.nextLog := db'.logs[db.nextLog]]
            && var row := db'.logs[db.nextLog];
               Usable(row, project, "") && row.mode == db.logs[s.value].mode && row.tag == db.logs[s.value].tag
                 && Consistent(row)
  {
  }

  lemma NewestIs(db: Db, project: string, mode: string, id: nat)
    requires IdsFresh(db) && id in db.logs && Usable(db.logs[id], project, mode)
    requires forall j :: j in db.logs ==> j <= id
    ensures LatestSuccess(db, project, mode) == Some(id)
  {
  }

  /** A successful replay swaps the two tags: the project now runs the source's tag, and the record
      it ran before is what the next rollback goes back to. */
  lemma ReplaySwaps(db: Db, project: string, mode: string, runner: string, now: int)
    requires IdsFresh(db) && !IsNative(mode) && Replayed(db, project, mode, runner, now).Some?
    requires forall id :: id in db.logs ==> Consistent(db.logs[id])
    ensures var db' := Replayed(db, project, mode, runner, now).value;
            var ref, source := LatestSuccess(db, project, mode), FindSource(db, project, 0, mode);
            && ref.Some? && source.Some?
            && LatestSuccess(db', project, mode) == Some(db.nextLog)
            && db'.logs[db.nextLog].tag == db.logs[source.value].tag
            && FindSource(db', project, 0, mode) == ref && db'.logs[ref.value] == db.logs[ref.value]
  {
    hide Replayed, Consistent, LatestSuccess, FindSource, Usable;
    ReplayAddsRow(db, project, mode, runner, now);
    NewRowIsCurrent(db, Replayed(db, project, mode, runner, now).value, project, mode);
  }

  /** A new row that runs the source's tag in the source's mode is current, and goes back to the row
      that was current before. */
  lemma NewRowIsCurrent(db: Db, db': Db, project: string, mode: string)
    requires IdsFresh(db) && IdsFresh(db') && db'.nextLog == db.nextLog + 1 && db.nextLog in db'.logs
    requires FindSource(db, project, 0, mode).Some?
    requires var row, source := db'.logs[db.nextLog], FindSource(db, project, 0, mode).value;
             && db'.logs == db.logs[db.nextLog := row]
             && Usable(row, project, "") && row.mode == db.logs[source].mode && row.tag == db.logs[source].tag
    ensures var ref := LatestSuccess(db, project, mode);
            && ref.Some? && LatestSuccess(db', project, mode) == Some(db.nextLog)
            && FindSource(db', project, 0, mode) == ref && db'.logs[ref.value] == db.logs[ref.value]
  {
    var ref, source := LatestSuccess(db, project, mode).value, FindSource(db, project, 0, mode).value;
    assert Candidate(db, project, ref, source);
    NewestIs(db', project, mode, db.nextLog);
    hide LatestSuccess, FindSource;
    assert Candidate(db', project, db.nextLog, ref);
    var next := FindSource(db', project, 0, mode).value;
    assert Candidate(db', project, db.nextLog, next) && ref <= next;
    assert next in db.logs && Usable(db.logs[next], project, mode);
  }

  /** The tag the project runs, and the one a rollback would bring. */
  function CurrentTag(db: Db, project: string, mode: string): Option<string> {
    var ref := LatestSuccess(db, project, mode);
    if ref.None? then None else Some(db.logs[ref.value].tag)
  }

  function RollbackTag(db: Db, project: string, mode: string): Option<string> {
    var source := FindSource(db, project, 0, mode);
    if source.None? then None else Some(db.logs[source.value].tag)
  }

  lemma ReplaySwapsTags(db: Db, project: string, mode: string, runner: string, now: int)
    requires IdsFresh(db) && !IsNative(mode) && Replayed(db, project, mode, runner, now).Some?
    requires forall id :: id in db.logs ==> Consistent(db.logs[id])
    ensures var db' := Replayed(db, project, mode, runner, now).value;
            && CurrentTag(db, project, mode).Some? && RollbackTag(db, project, mode).Some?
            && CurrentTag(db', project, mode) == RollbackTag(db, project, mode)
            && RollbackTag(db', project, mode) == CurrentTag(db, project, mode)
  {
    ReplaySwaps(db, project, mode, runner, now);
    hide Replayed, Consistent;
  }

  /** Rolling back n times in a row, with nothing else deployed in between. */
  function ReplayedTimes(db: Db, project: string, mode: string, runner: string, now: int, n: nat): Option<Db>
    decreases n
  {
    if n == 0 then Some(db)
    else
      match Replayed(db, project, mode, runner, now) {
        case None => None
        case Some(db') => ReplayedTimes(db', project, mode, runner, now, n - 1)
      }
  }

  /** Rollbacks in a row alternate between two tags: after an even number the original tag runs
      again, after an odd number the one before it. */
  lemma {:induction false} ReplaysAlternate(db: Db, project: string, mode: string, runner: string, now: int, n: nat)
    requires IdsFresh(db) && !IsNative(mode)
    requires forall id :: id in db.logs ==> Consistent(db.logs[id])
    requires ReplayedTimes(db, project, mode, runner, now, n).Some?
    ensures var end := ReplayedTimes(db, project, mode, runner, now, n).value;
            CurrentTag(end, project, mode) == if n % 2 == 0 then CurrentTag(db, project, mode)
              else RollbackTag(db, project, mode)
    decreases n
  {
    hide Replayed, CurrentTag, RollbackTag, Consistent, IsNative, IdsFresh;
    if n > 0 {
      var next := Replayed(db, project, mode, runner, now);
      ReplaySwapsTags(db, project, mode, runner, now);
      RowsStayConsistent(db, project, mode, runner, now);
      ReplaysAlternate(next.value, project, mode, runner, now, n - 1);
      assert n % 2 == 0 <==> (n - 1) % 2 != 0;
    }
  }

  lemma RowsStayConsistent(db: Db, project: string, mode: string, runner: string, now: int)
    requires IdsFresh(db) && !IsNative(mode) && Replayed(db, project, mode, runner, now).Some?
    requires forall id :: id in db.logs ==> Consistent(db.logs[id])
    ensures var db' := Replayed(db, project, mode, runner, now).value;
            IdsFresh(db') && forall id :: id in db'.logs ==> Consistent(db'.logs[id])
  {
    ReplayAddsRow(db, project, mode, runner, now);
    hide Replayed, FindSource, Consistent;
  }

  /** A replay is prepared exactly when an older successful deploy of another tag exists and its
      stored request can be read and names a mode. */
  lemma ReplayPossibleIff(db: Db, project: string, mode: string)
    requires IdsFresh(db) && !IsNative(mode)
    ensures Prepared(db, project, 0, mode, "").Success? <==>
      var source := FindSource(db, project, 0, mode);
      source.Some? && db.logs[source.value].snapshot.Readable? && db.logs[source.value].snapshot.mode != ""
    ensures Prepared(db, project, 0, mode, "") == Failure(NotFound) <==>
      forall ref, id :: LatestSuccess(db, project, mode) == Some(ref) ==> !Candidate(db, project, ref, id)
  {
    var ref, source := LatestSuccess(db, project, mode), FindSource(db, project, 0, mode);
    if source.Some? {
      assert Candidate(db, project, ref.value, source.value);
    }
  }

  /** A given tag always means a replay with that tag, in the mode stored with the source, even
      where the mode has a native rollback. */
  lemma GivenTagReplays(db: Db, project: string, before: nat, wanted: string, tag: string)
    requires tag != "" && Prepared(db, project, before, wanted, tag).Success?
    ensures var plan := Prepared(db, project, before, wanted, tag).value;
            && ValidTag(tag) && plan.tag == tag && !plan.native
            && plan.source in db.logs && db.logs[plan.source].snapshot.Readable?
                && plan.mode == db.logs[plan.source].snapshot.mode
            && (before > 0 ==> plan.source == before)
            && (before == 0 ==>
                forall id :: id in db.logs && id < db.nextLog && Usable(db.logs[id], project, wanted) ==>
                  id <= plan.source)
  {
  }
}
