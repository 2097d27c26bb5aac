/** The identity cache in front of Glue: identities per account, permissions per role, a negative
    cache for missing roles, and a soft-fail window for outages. Glue's answers are inputs; a
    request is atomic and takes no time. */
module GlueIdentity {
  import opened Wrappers
  import opened Text

  /** What Glue says: a 200 with a well-formed body, a definite 404, or anything else. */
  datatype Answer<+T> = Found(value: T) | NotFound | Unavailable

  datatype UserBody = UserBody(username: string, role: string, systems: seq<string>, status: int)

  datatype Ident = Ident(username: string, role: string, systems: seq<string>, status: int)

  /** A cached identity; `permissions` is missing exactly when it is not usable. */
  datatype Entry = Entry(ident: Ident, permissions: Option<seq<string>>, usable: bool, checkedAt: real, lastOkAt: real)

  datatype PermEntry = PermEntry(permissions: seq<string>, checkedAt: real)

  datatype Refusal = BadName | UserMissing | RoleMissing | KnownUnusable | OutOfGrace

  datatype RoleFailure = NoSuchRole | RoleUnavailable

  datatype Config = Config(revalidate: int, grace: int)

  function Window(cfg: Config): real {
    if cfg.revalidate > 1 then cfg.revalidate as real else 1.0
  }

  function Grace(cfg: Config): real {
    cfg.grace as real
  }

  function LowerChar(c: char): char {
    if 'A' <= c <= 'Z' then (c as int + 32) as char else c
  }

  function Lower(s: string): (r: string)
    ensures |r| == |s| && forall i :: 0 <= i < |r| ==> r[i] == LowerChar(s[i])
  {
    if s == "" then "" else [LowerChar(s[0])] + Lower(s[1..])
  }

  /** `(username or "").strip().lower()` */
  function Key(username: Option<string>): string {
    Lower(Strip(if username.Some? then username.value else ""))
  }

  const USERNAME_MAX_LEN := 128

  predicate IsTrimmed(s: string) {
    s != "" ==> !IsSpace(s[0]) && !IsSpace(s[|s| - 1])
  }

  lemma StripOfTrimmed(s: string)
    requires IsTrimmed(s)
    ensures Strip(s) == s
  {
  }

  lemma StripIsTrimmed(s: string)
    ensures IsTrimmed(Strip(s))
  {
    var t := StripLeft(s);
    var u := StripRight(t);
    assert u <= t;
    hide StripLeft, StripRight;
    assert u != "" ==> u[0] == t[0];
  }

  lemma LowerOfTrimmed(s: string)
    requires IsTrimmed(s)
    ensures IsTrimmed(Lower(s)) && Lower(Lower(s)) == Lower(s)
  {
    LowerTwice(s);
  }

  lemma {:induction false} LowerTwice(s: string)
    ensures Lower(Lower(s)) == Lower(s)
  {
    if s != "" {
      LowerTwice(s[1..]);
      LowerFirst(LowerChar(s[0]), Lower(s[1..]));
      hide Lower;
    }
  }

  lemma LowerFirst(c: char, rest: string)
    ensures Lower([c] + rest) == [LowerChar(c)] + Lower(rest)
  {
    assert ([c] + rest)[1..] == rest;
  }

  /** A cache key is its own key, so dropping by key hits the entry it was stored under. */
  lemma KeyIsFixed(username: Option<string>)
    ensures Key(Some(Key(username))) == Key(username)
  {
    var s := if username.Some? then username.value else "";
    StripIsTrimmed(s);
    LowerOfTrimmed(Strip(s));
    StripOfTrimmed(Lower(Strip(s)));
    hide Lower, Strip, IsTrimmed;
  }

  datatype Cache = Cache(
    identities: map<string, Entry>, permissions: map<string, PermEntry>, negative: map<string, real>)

  const EMPTY := Cache(map[], map[], map[])

  /** What one request asked Glue, what it was told, and what it got. */
  datatype Trace = Trace(key: string, now: real, user: Option<Answer<UserBody>>,
          role: Option<(string, Answer<seq<string>>)>,
                         outcome: Result<Entry, Refusal>)

  // ── One request as a function ──

  predicate RoleIsFresh(cfg: Config, c: Cache, role: string, now: real) {
    role in c.permissions && now - c.permissions[role].checkedAt < Window(cfg)
  }

  predicate RoleIsBarred(c: Cache, role: string, now: real) {
    role in c.negative && c.negative[role] > now
  }

  predicate AsksRole(cfg: Config, c: Cache, role: string, now: real) {
    Strip(role) != "" && !RoleIsFresh(cfg, c, Strip(role), now) && !RoleIsBarred(c, Strip(role), now)
  }

  function RolePermissions(cfg: Config, c: Cache, rawRole: string, now: real, answer: Answer<seq<string>>): (Cache,
          Result<seq<string>, RoleFailure>) {
    var role := Strip(rawRole);
    if role == "" then (c, Success([]))
    else if RoleIsFresh(cfg, c, role, now) then (c, Success(c.permissions[role].permissions))
    else if RoleIsBarred(c, role, now) then (c, Failure(NoSuchRole))
    else match answer {
      case NotFound => (c.(negative := c.negative[role := now + Window(cfg)]), Failure(NoSuchRole))
      case Unavailable => (c, Failure(RoleUnavailable))
      case Found(perms) => (c.(permissions := c.permissions[role := PermEntry(perms, now)],
        negative := c.negative - {role}), Success(perms))
    }
  }

  function SoftFail(cfg: Config, cached: Option<Entry>, now: real): Result<Entry, Refusal> {
    if cached.Some? && cached.value.usable && cfg.grace > 0
      && now - cached.value.lastOkAt <= Grace(cfg) then Success(cached.value)
    else Failure(OutOfGrace)
  }

  function IdentOf(key: string, body: UserBody): Ident {
    Ident(Lower(Strip(if body.username == "" then key else body.username)), body.role, body.systems, body.status)
  }

  function Lookup(c: Cache, key: string): Option<Entry> {
    if key in c.identities then Some(c.identities[key]) else None
  }

  predicate WithinWindow(cfg: Config, cached: Option<Entry>, force: bool, now: real) {
    cached.Some? && !force && now - cached.value.checkedAt < Window(cfg)
  }

  function Refresh(cfg: Config, c: Cache, key: string, now: real, body: UserBody, role: Answer<seq<string>>)
    : (Cache, Trace)
  {
    var cached := Lookup(c, key);
    var ident := IdentOf(key, body);
    var (c', perms) := RolePermissions(cfg, c, ident.role, now, role);
    var asked := if AsksRole(cfg, c, ident.role, now) then Some((Strip(ident.role), role)) else None;
    match perms {
      case Failure(NoSuchRole) =>
        var entry := Entry(ident, None, false, now, if cached.Some? then cached.value.lastOkAt else 0.0);
        (c'.(identities := c'.identities[key := entry]),
          Trace(key, now, Some(Found(body)), asked, Failure(RoleMissing)))
      case Failure(RoleUnavailable) => (c', Trace(key, now, Some(Found(body)), asked, SoftFail(cfg, cached, now)))
      case Success(p) =>
        var entry := Entry(ident, Some(p), true, now, now);
        (c'.(identities := c'.identities[key := entry]), Trace(key, now, Some(Found(body)), asked, Success(entry)))
    }
  }

  function Get(cfg: Config, c: Cache, username: Option<string>, force: bool, now: real, user: Answer<UserBody>,
          role: Answer<seq<string>>): (Cache, Trace) {
    var key := Key(username);
    var cached := Lookup(c, key);
    if key == "" || |key| > USERNAME_MAX_LEN then (c, Trace(key, now, None, None, Failure(BadName)))
    else if WithinWindow(cfg, cached, force, now) then
      (c, Trace(key, now, None, None, if cached.value.usable then Success(cached.value) else Failure(KnownUnusable)))
    else match user {
      case NotFound => (c.(identities := c.identities - {key}), Trace(key, now, Some(user), None, Failure(UserMissing)))
      case Unavailable => (c, Trace(key, now, Some(user), None, SoftFail(cfg, cached, now)))
      case Found(body) => Refresh(cfg, c, key, now, body, role)
    }
  }

  /** A request case by case: which names are refused; when the cache answers alone, and with what; a
      definite 404 drops the entry, and one of the role leaves it unusable; an outage serves exactly a
      usable entry within grace and writes nothing. */
  lemma GetIs(cfg: Config, c: Cache, username: Option<string>, force: bool, now: real, user: Answer<UserBody>,
          role: Answer<seq<string>>)
    ensures var (c', t) := Get(cfg, c, username, force, now, user, role);
            var key, r := Lower(Strip(if username.Some? then username.value else "")), t.outcome;
            var window := if cfg.revalidate > 1 then cfg.revalidate as real else 1.0;
            var known := key in c.identities && !force && now - c.identities[key].checkedAt < window;
            var lasting := key in c.identities && c.identities[key].usable && cfg.grace > 0
              && now - c.identities[key].lastOkAt <= cfg.grace as real;
            && (r == Failure(BadName) <==> key == "" || |key| > 128)
            && (t.user.None? <==> r == Failure(BadName) || known)
            && (t.user.None? ==> c' == c)
            && (r != Failure(BadName) && known ==>
                r == if c.identities[key].usable then Success(c.identities[key]) else Failure(KnownUnusable))
            && (r != Failure(BadName) && !known && user == NotFound ==>
                r == Failure(UserMissing) && c' == c.(identities := c.identities - {key}))
            && (r != Failure(BadName) && !known && user == Unavailable ==>
                c' == c && r == if lasting then Success(c.identities[key]) else Failure(OutOfGrace))
  {
    hide Strip, Lower, Refresh;
    if !NeedsNoRefresh(cfg, c, Key(username), force, now, user) {
      RefreshAsks(cfg, c, Key(username), now, user.value, role);
    }
  }

  predicate NeedsNoRefresh(cfg: Config, c: Cache, key: string, force: bool, now: real, user: Answer<UserBody>) {
    key == "" || |key| > USERNAME_MAX_LEN || WithinWindow(cfg, Lookup(c, key), force, now) || !user.Found?
  }

  /** A refresh after which Glue knows the account: a missing role leaves an unusable entry that keeps
      its last good time, an outage of the role endpoint serves what softly failing serves. */
  lemma RefreshAsks(cfg: Config, c: Cache, key: string, now: real, body: UserBody, role: Answer<seq<string>>)
    ensures var (c', t) := Refresh(cfg, c, key, now, body, role);
            && t.user == Some(Found(body)) && t.outcome != Failure(BadName)
            && (t.outcome == Failure(RoleMissing) ==>
                && key in c'.identities && !c'.identities[key].usable && c'.identities[key].permissions.None?
                && c'.identities[key].checkedAt == now
                && c'.identities[key].lastOkAt == if key in c.identities then c.identities[key].lastOkAt else 0.0)
            && (t.outcome == Failure(OutOfGrace) ==> c' == c)
  {
    hide Strip;
  }

  // ── The module as it is written: three dictionaries updated in place ──

  class GlueClient {
    const cfg: Config
    var identities: map<string, Entry>
    var permissions: map<string, PermEntry>
    var roleNegative: map<string, real>
    ghost var history: seq<Trace>

    function View(): Cache
      reads this
    {
      Cache(identities, permissions, roleNegative)
    }

    constructor (cfg: Config)
      ensures View() == EMPTY && history == [] && this.cfg == cfg
    {
      this.cfg := cfg;
      identities, permissions, roleNegative, history := map[], map[], map[], [];
    }

    method FetchRolePermissions(rawRole: string, now: real,
            answer: Answer<seq<string>>) returns (r: Result<seq<string>, RoleFailure>)
      modifies this
      ensures (View(), r) == RolePermissions(cfg, old(View()), rawRole, now, answer) && history == old(history)
      ensures identities == old(identities)
      ensures var role, c := Strip(rawRole), old(View());
              && (role == "" ==> r == Success([]) && View() == c)
              && (role != "" && RoleIsFresh(cfg, c, role, now) ==>
                  r == Success(c.permissions[role].permissions) && View() == c)
              && (r == Failure(NoSuchRole) <==>
                  role != "" && !RoleIsFresh(cfg, c, role, now) && (answer == NotFound || RoleIsBarred(c, role, now)))
      ensures r == Failure(RoleUnavailable) ==> View() == old(View()) && answer == Unavailable
    {
      var role := Strip(rawRole);
      if role == "" {
        return Success([]);
      }
      if role in permissions && now - permissions[role].checkedAt < Window(cfg) {
        return Success(permissions[role].permissions);
      }
      if role in roleNegative && roleNegative[role] > now {
        return Failure(NoSuchRole);
      }
      match answer
      case NotFound =>
        roleNegative := roleNegative[role := now + Window(cfg)];
        r := Failure(NoSuchRole);
      case Unavailable =>
        r := Failure(RoleUnavailable);
      case Found(perms) =>
        permissions := permissions[role := PermEntry(perms, now)];
        roleNegative := roleNegative - {role};
        r := Success(perms);
    }

    method GetIdentity(username: Option<string>, force: bool, now: real, user: Answer<UserBody>,
            role: Answer<seq<string>>)
      returns (r: Result<Entry, Refusal>)
      modifies this
      ensures var (c, t) := Get(cfg, old(View()), username, force, now, user, role);
              View() == c && r == t.outcome && history == old(history) + [t]
    {
      hide Strip, Lower, SoftFail, RolePermissions, IdentOf, AsksRole;
      ghost var (c, t) := Get(cfg, View(), username, force, now, user, role);
      history := history + [t];
      var key := Key(username);
      if key == "" || |key| > USERNAME_MAX_LEN {
        return Failure(BadName);
      }
      var cached := if key in identities then Some(identities[key]) else None;
      if cached.Some? && !force && now - cached.value.checkedAt < Window(cfg) {
        return if cached.value.usable then Success(cached.value) else Failure(KnownUnusable);
      }
      match user {
        case NotFound =>
          KeyIsFixed(username);
          Invalidate(Some(key));
          return Failure(UserMissing);
        case Unavailable =>
          return SoftFail(cfg, cached, now);
        case Found(body) =>
          var ident := IdentOf(key, body);
          var perms := FetchRolePermissions(ident.role, now, role);
          match perms
          case Failure(NoSuchRole) =>
            var lastOkAt := if cached.Some? then cached.value.lastOkAt else 0.0;
            identities := identities[key := Entry(ident, None, false, now, lastOkAt)];
            r := Failure(RoleMissing);
          case Failure(RoleUnavailable) =>
            r := SoftFail(cfg, cached, now);
          case Success(p) =>
            var entry := Entry(ident, Some(p), true, now, now);
            identities := identities[key := entry];
            r := Success(entry);
      }
    }

    method Invalidate(username: Option<string>)
      modifies this
      ensures View() == old(View()).(identities := old(identities) - {Key(username)}) && history == old(history)
    {
      identities := identities - {Key(username)};
    }

    method ResetCache()
      modifies this
      ensures View() == EMPTY && history == old(history)
    {
      identities, permissions, roleNegative := map[], map[], map[];
    }
  }

  // ── Runs ──

  datatype Call =
    | Request(username: Option<string>, force: bool, now: real, user: Answer<UserBody>, role: Answer<seq<string>>)
    | Drop(account: Option<string>)
    | Reset

  function Run(cfg: Config, calls: seq<Call>): (Cache, seq<Trace>) {
    if calls == [] then (EMPTY, [])
    else
      var (c, history) := Run(cfg, calls[..|calls| - 1]);
      match calls[|calls| - 1] {
        case Request(username, force, now, user, role) =>
          var (c', t) := Get(cfg, c, username, force, now, user, role);
          (c', history + [t])
        case Drop(account) => (c.(identities := c.identities - {Key(account)}), history)
        case Reset => (EMPTY, history)
      }
  }

  /** The identity is what Glue's body says: its role, systems and status as they are, its user
      name trimmed and lower-cased, or the account asked for where the body has none. */
  predicate Describes(ident: Ident, key: string, body: UserBody) {
    && ident.role == body.role && ident.systems == body.systems && ident.status == body.status
    && ident.username == Lower(Strip(if body.username != "" then body.username else key))
  }

  /** Glue confirmed the account in this request and the request was served with `e`, made then. */
  predicate Confirms(t: Trace, key: string, e: Entry) {
    t.key == key && e.lastOkAt == t.now && t.user.Some? && t.user.value.Found?
      && Describes(e.ident, key, t.user.value.value) && t.outcome == Success(e)
  }

  predicate DefiniteNo(t: Trace) {
    t.outcome == Failure(UserMissing) || t.outcome == Failure(RoleMissing)
  }

  /** Glue itself gave these permissions for the role in this request. */
  predicate Grants(t: Trace, role: string, permissions: seq<string>) {
    t.role == Some((role, Found(permissions)))
  }

  predicate NoneSince(history: seq<Trace>, k: nat, key: string) {
    forall d :: k < d < |history| && history[d].key == key ==> !DefiniteNo(history[d])
  }

  /** Where an entry's permissions come from: none for no role, else Glue's own answer for the
      role, younger than the window when the identity was confirmed. */
  predicate PermissionsBacked(cfg: Config, history: seq<Trace>, k: nat, e: Entry)
    requires k < |history|
  {
    var role := Strip(e.ident.role);
    && e.permissions.Some?
    && (role == "" ==> e.permissions.value == [])
    && (role != "" ==>
        exists m :: 0 <= m <= k && Grants(history[m], role, e.permissions.value)
          && history[k].now - history[m].now < Window(cfg))
  }

  /** A usable entry stems from one confirming request, and no refusal of the account came after it. */
  predicate Backed(cfg: Config, history: seq<Trace>, k: nat, key: string, e: Entry) {
    && k < |history| && Confirms(history[k], key, e) && history[k].now == e.lastOkAt && e.checkedAt == e.lastOkAt
    && NoneSince(history, k, key) && PermissionsBacked(cfg, history, k, e)
  }

  ghost predicate IdentitiesBacked(cfg: Config, c: Cache, history: seq<Trace>) {
    && (forall key :: key in c.identities && c.identities[key].usable ==>
        exists k: nat :: Backed(cfg, history, k, key, c.identities[key]))
    && (forall key :: key in c.identities && !c.identities[key].usable ==>
      exists d :: 0 <= d < |history| && history[d].key == key && DefiniteNo(history[d])
        && history[d].now == c.identities[key].checkedAt)
  }

  predicate RolesBacked(cfg: Config, c: Cache, history: seq<Trace>) {
    && (forall role :: role in c.permissions ==>
      exists m :: 0 <= m < |history| && Grants(history[m], role, c.permissions[role].permissions)
        && history[m].now == c.permissions[role].checkedAt)
    && (forall role :: role in c.negative ==>
      exists m :: 0 <= m < |history| && history[m].role == Some((role, NotFound))
        && c.negative[role] == history[m].now + Window(cfg))
  }

  lemma BackedSurvives(cfg: Config, history: seq<Trace>, k: nat, key: string, e: Entry, t: Trace)
    requires Backed(cfg, history, k, key, e)
    requires t.key == key ==> !DefiniteNo(t)
    ensures Backed(cfg, history + [t], k, key, e)
  {
    var longer := history + [t];
    var role := Strip(e.ident.role);
    if role != "" {
      var m :| 0 <= m <= k && Grants(history[m], role, e.permissions.value)
        && history[k].now - history[m].now < Window(cfg);
      assert longer[m] == history[m] && longer[k] == history[k];
    }
    hide Strip;
    assert forall d :: 0 <= d < |history| ==> longer[d] == history[d];
  }

  // Existing witnesses stay witnesses when the history grows; the new one is the last index.
  lemma RolesKept(cfg: Config, c: Cache, history: seq<Trace>, t: Trace, role: string, now: real,
          answer: Answer<seq<string>>)
    requires RolesBacked(cfg, c, history)
    requires t.now == now && t.role == if AsksRole(cfg, c, role, now) then Some((Strip(role), answer)) else None
    ensures RolesBacked(cfg, RolePermissions(cfg, c, role, now, answer).0, history + [t])
  {
    var c' := RolePermissions(cfg, c, role, now, answer).0;
    var longer := history + [t];
    assert longer[|history|] == t;
    hide Strip;
    forall r | r in c'.permissions
      ensures exists m ::
        0 <= m < |longer| && Grants(longer[m], r, c'.permissions[r].permissions)
        && longer[m].now == c'.permissions[r].checkedAt
    {
      if r in c.permissions && c'.permissions[r] == c.permissions[r] {
        var m :| 0 <= m < |history| && Grants(history[m], r, c.permissions[r].permissions)
          && history[m].now == c.permissions[r].checkedAt;
        assert longer[m] == history[m];
      } else {
        assert Grants(longer[|history|], r, c'.permissions[r].permissions);
      }
    }
    forall r | r in c'.negative
      ensures exists m ::
        0 <= m < |longer| && longer[m].role == Some((r, NotFound))
        && c'.negative[r] == longer[m].now + Window(cfg)
    {
      if r in c.negative && c'.negative[r] == c.negative[r] {
        var m :| 0 <= m < |history| && history[m].role == Some((r, NotFound))
          && c.negative[r] == history[m].now + Window(cfg);
        assert longer[m] == history[m];
      } else {
        assert longer[|history|].role == Some((r, NotFound));
      }
    }
  }

  lemma RolesKeptUnasked(cfg: Config, c: Cache, history: seq<Trace>, t: Trace)
    requires RolesBacked(cfg, c, history)
    requires t.role.None?
    ensures RolesBacked(cfg, c, history + [t])
  {
    RolesKept(cfg, c, history, t.(now := 0.0), "", 0.0, Unavailable);
    var other, longer := history + [t.(now := 0.0)], history + [t];
    assert forall m :: 0 <= m < |history| ==> longer[m] == other[m] == history[m];
    assert forall m, r, p :: 0 <= m < |other| && Grants(other[m], r, p) ==> m < |history|;
  }

  /** A successful refresh of an account: its new entry is backed by this very request. */
  lemma FreshEntryBacked(cfg: Config, c: Cache, history: seq<Trace>, key: string, now: real, body: UserBody,
          role: Answer<seq<string>>)
    requires RolesBacked(cfg, c, history)
    requires Refresh(cfg, c, key, now, body, role).1.outcome.Success?
    requires RolePermissions(cfg, c, IdentOf(key, body).role, now, role).1.Success?
    ensures var t := Refresh(cfg, c, key, now, body, role).1;
            Backed(cfg, history + [t], |history|, key, t.outcome.value)
  {
    var t := Refresh(cfg, c, key, now, body, role).1;
    var e := t.outcome.value;
    var longer := history + [t];
    var r := Strip(e.ident.role);
    assert longer[|history|] == t;
    hide Strip, IdentOf;
    if r != "" {
      if RoleIsFresh(cfg, c, r, now) {
        var m :| 0 <= m < |history| && Grants(history[m], r, c.permissions[r].permissions)
          && history[m].now == c.permissions[r].checkedAt;
        assert Grants(longer[m], r, e.permissions.value);
      } else {
        assert Grants(longer[|history|], r, e.permissions.value);
      }
    }
  }

  /** Every answer is accounted for by what Glue said before it, at most so long ago. */
  predicate Accounted(cfg: Config, history: seq<Trace>, j: nat)
    requires j < |history|
  {
    var t := history[j];
    match t.outcome {
      case Success(e) =>
        exists k :: 0 <= k <= j && Backed(cfg, history[..j + 1], k, t.key, e) && t.now - history[k].now <= Longest(cfg)
      case Failure(UserMissing) => t.user == Some(NotFound)
      case Failure(RoleMissing) =>
        t.user.Some? && t.user.value.Found?
        && exists m :: 0 <= m <= j
            && history[m].role == Some((Strip(t.user.value.value.role), NotFound))
                && t.now - history[m].now < Window(cfg)
      case Failure(KnownUnusable) =>
        exists d :: 0 <= d < j && history[d].key == t.key && DefiniteNo(history[d])
          && t.now - history[d].now < Window(cfg)
      case Failure(_) => true
    }
  }

  function Longest(cfg: Config): real {
    if Grace(cfg) > Window(cfg) then Grace(cfg) else Window(cfg)
  }

  /** A cached entry served by the window path or by the soft-fail path. */
  lemma CachedIsAccounted(cfg: Config, c: Cache, history: seq<Trace>, t: Trace)
    requires IdentitiesBacked(cfg, c, history) && ServesCached(cfg, c, t)
    ensures Accounted(cfg, history + [t], |history|)
  {
    var e := c.identities[t.key];
    var k: nat :| Backed(cfg, history, k, t.key, e);
    BackedSurvives(cfg, history, k, t.key, e, t);
    var longer := history + [t];
    assert longer[..|history| + 1] == longer;
    assert longer[k] == history[k];
  }

  lemma IdentitiesSurvive(cfg: Config, c: Cache, c': Cache, history: seq<Trace>, t: Trace)
    requires IdentitiesBacked(cfg, c, history)
    requires forall key :: key in c'.identities && key != t.key ==>
      key in c.identities && c'.identities[key] == c.identities[key]
    requires t.key in c'.identities ==>
      if t.key in c.identities && c'.identities[t.key] == c.identities[t.key] then c.identities[t.key].usable ==>
        !DefiniteNo(t)
      else if c'.identities[t.key].usable then Backed(cfg, history + [t], |history|, t.key, c'.identities[t.key])
      else DefiniteNo(t) && t.now == c'.identities[t.key].checkedAt
    ensures IdentitiesBacked(cfg, c', history + [t])
  {
    var longer := history + [t];
    assert longer[|history|] == t;
    hide Backed, DefiniteNo;
    forall key | key in c'.identities && c'.identities[key].usable
      ensures exists k: nat :: Backed(cfg, longer, k, key, c'.identities[key])
    {
      if key in c.identities && c'.identities[key] == c.identities[key] {
        var k: nat :| Backed(cfg, history, k, key, c.identities[key]);
        BackedSurvives(cfg, history, k, key, c.identities[key], t);
      }
    }
    forall key | key in c'.identities && !c'.identities[key].usable
      ensures exists d ::
        0 <= d < |longer| && longer[d].key == key && DefiniteNo(longer[d])
        && longer[d].now == c'.identities[key].checkedAt
    {
      if key in c.identities && c'.identities[key] == c.identities[key] {
        var d :| 0 <= d < |history| && history[d].key == key && DefiniteNo(history[d])
          && history[d].now == c.identities[key].checkedAt;
        assert longer[d] == history[d];
      } else {
        assert longer[|history|].key == key;
      }
    }
  }

  predicate MarksUnusable(c: Cache, c': Cache, key: string, now: real) {
    key in c'.identities && c'.identities == c.identities[key := c'.identities[key]] && !c'.identities[key].usable
      && c'.identities[key].checkedAt == now
  }

  /** What each end of a refresh does to the account's entry. */
  lemma RefreshCases(cfg: Config, c: Cache, key: string, now: real, body: UserBody, role: Answer<seq<string>>)
    ensures var (c', t) := Refresh(cfg, c, key, now, body, role);
            var (c1, perms) := RolePermissions(cfg, c, IdentOf(key, body).role, now, role);
            && t.key == key && t.now == now && c1.identities == c.identities
            && c'.permissions == c1.permissions && c'.negative == c1.negative
            && (perms.Success? ==> t.outcome.Success? && c'.identities == c.identities[key := t.outcome.value])
            && (perms == Failure(NoSuchRole) ==> t.outcome == Failure(RoleMissing) && MarksUnusable(c, c', key, now))
            && (perms == Failure(RoleUnavailable) ==> c' == c && t.outcome == SoftFail(cfg, Lookup(c, key), now))
            && t.role == if AsksRole(cfg, c, IdentOf(key, body).role, now) then
                Some((Strip(IdentOf(key, body).role), role)) else None
  {
    hide Strip, IdentOf;
  }

  lemma RefreshIsAccounted(cfg: Config, c: Cache, history: seq<Trace>, key: string, now: real, body: UserBody,
          role: Answer<seq<string>>)
    requires IdentitiesBacked(cfg, c, history) && RolesBacked(cfg, c, history)
    ensures Accounted(cfg, history + [Refresh(cfg, c, key, now, body, role).1], |history|)
  {
    var t := Refresh(cfg, c, key, now, body, role).1;
    RefreshCases(cfg, c, key, now, body, role);
    hide RolesBacked, IdentitiesBacked, RolePermissions, Refresh, Strip, IdentOf;
    match RolePermissions(cfg, c, IdentOf(key, body).role, now, role).1
    case Success(p) =>
      FreshEntryBacked(cfg, c, history, key, now, body, role);
      var longer := history + [t];
      assert longer[..|history| + 1] == longer;
      hide Backed;
      assert longer[|history|] == t;
    case Failure(NoSuchRole) =>
      RoleRefusalIsBacked(cfg, c, history, key, now, body, role);
    case Failure(RoleUnavailable) =>
      if t.outcome.Success? {
        CachedIsAccounted(cfg, c, history, t);
      } else {
        assert (history + [t])[|history|] == t;
      }
  }

  lemma RefreshKeeps(cfg: Config, c: Cache, history: seq<Trace>, key: string, now: real, body: UserBody,
          role: Answer<seq<string>>)
    requires IdentitiesBacked(cfg, c, history) && RolesBacked(cfg, c, history)
    ensures var (c', t) := Refresh(cfg, c, key, now, body, role);
            IdentitiesBacked(cfg, c', history + [t]) && RolesBacked(cfg, c', history + [t])
  {
    var (c', t) := Refresh(cfg, c, key, now, body, role);
    RefreshCases(cfg, c, key, now, body, role);
    RolesKept(cfg, c, history, t, IdentOf(key, body).role, now, role);
    assert RolesBacked(cfg, c', history + [t]);
    var perms := RolePermissions(cfg, c, IdentOf(key, body).role, now, role).1;
    if perms.Success? {
      FreshEntryBacked(cfg, c, history, key, now, body, role);
    }
    hide RolesBacked, IdentitiesBacked, RolePermissions, Refresh, Strip, IdentOf, Backed;
    IdentitiesSurvive(cfg, c, c', history, t);
  }

  lemma RoleRefusalIsBacked(cfg: Config, c: Cache, history: seq<Trace>, key: string, now: real, body: UserBody,
          role: Answer<seq<string>>)
    requires RolesBacked(cfg, c, history)
    requires RolePermissions(cfg, c, IdentOf(key, body).role, now, role).1 == Failure(NoSuchRole)
    ensures var t := Refresh(cfg, c, key, now, body, role).1; Accounted(cfg, history + [t], |history|)
  {
    var t := Refresh(cfg, c, key, now, body, role).1;
    var r := Strip(IdentOf(key, body).role);
    var longer := history + [t];
    assert longer[|history|] == t;
    if RoleIsBarred(c, r, now) {
      var m :| 0 <= m < |history| && history[m].role == Some((r, NotFound))
        && c.negative[r] == history[m].now + Window(cfg);
      assert longer[m].role == Some((r, NotFound));
    } else {
      assert longer[|history|].role == Some((r, NotFound));
    }
  }

  lemma GetKeeps(cfg: Config, c: Cache, history: seq<Trace>, username: Option<string>, force: bool, now: real,
          user: Answer<UserBody>, role: Answer<seq<string>>)
    requires IdentitiesBacked(cfg, c, history) && RolesBacked(cfg, c, history)
    ensures var (c', t) := Get(cfg, c, username, force, now, user, role);
            IdentitiesBacked(cfg, c', history + [t]) && RolesBacked(cfg, c', history + [t])
              && Accounted(cfg, history + [t], |history|)
  {
    var key := Key(username);
    if !NeedsNoRefresh(cfg, c, key, force, now, user) {
      RefreshKeeps(cfg, c, history, key, now, user.value, role);
      RefreshIsAccounted(cfg, c, history, key, now, user.value, role);
      hide RolesBacked, IdentitiesBacked, Accounted, Key, Refresh;
    } else {
      GetKeepsWithoutRefresh(cfg, c, history, username, force, now, user, role);
    }
  }

  /** The ways a request can end without a refresh. */
  lemma GetCases(cfg: Config, c: Cache, username: Option<string>, force: bool, now: real, user: Answer<UserBody>,
          role: Answer<seq<string>>)
    requires NeedsNoRefresh(cfg, c, Key(username), force, now, user)
    ensures var (c', t) := Get(cfg, c, username, force, now, user, role);
            var key := Key(username);
            && t.key == key && t.now == now && t.role.None? && t.outcome != Failure(RoleMissing)
            && (if t.outcome == Failure(UserMissing) then t.user == Some(NotFound)
                && c' == c.(identities := c.identities - {key}) else c' == c)
            && (t.outcome.Success? ==> ServesCached(cfg, c, t))
            && (t.outcome == Failure(KnownUnusable) ==>
                key in c.identities && !c.identities[key].usable && now - c.identities[key].checkedAt < Window(cfg))
  {
    hide Key, Refresh, Window, Grace;
  }

  predicate ServesCached(cfg: Config, c: Cache, t: Trace) {
    && t.key in c.identities && c.identities[t.key].usable && t.outcome == Success(c.identities[t.key])
    && (t.now - c.identities[t.key].checkedAt < Window(cfg) || t.now - c.identities[t.key].lastOkAt <= Grace(cfg))
  }

  lemma GetKeepsWithoutRefresh(cfg: Config, c: Cache, history: seq<Trace>, username: Option<string>, force: bool,
          now: real, user: Answer<UserBody>, role: Answer<seq<string>>)
    requires IdentitiesBacked(cfg, c, history) && RolesBacked(cfg, c, history)
    requires NeedsNoRefresh(cfg, c, Key(username), force, now, user)
    ensures var (c', t) := Get(cfg, c, username, force, now, user, role);
            IdentitiesBacked(cfg, c', history + [t]) && RolesBacked(cfg, c', history + [t])
              && Accounted(cfg, history + [t], |history|)
  {
    hide RolesBacked, Key, Get, IdentitiesBacked, Accounted, ServesCached, Backed, NeedsNoRefresh, Window, Grace;
    var (c', t) := Get(cfg, c, username, force, now, user, role);
    GetCases(cfg, c, username, force, now, user, role);
    RolesKeptUnasked(cfg, c, history, t);
    SameRolesBacked(cfg, c, c', history + [t]);
    IdentitiesSurvive(cfg, c, c', history, t);
    if t.outcome.Success? {
      CachedIsAccounted(cfg, c, history, t);
    } else if t.outcome.error.KnownUnusable? {
      UnusableIsBacked(cfg, c, history, t);
    } else {
      PlainRefusalIsAccounted(cfg, history, t);
    }
  }

  lemma SameRolesBacked(cfg: Config, c: Cache, c': Cache, history: seq<Trace>)
    requires RolesBacked(cfg, c, history) && c'.permissions == c.permissions && c'.negative == c.negative
    ensures RolesBacked(cfg, c', history)
  {
  }

  lemma PlainRefusalIsAccounted(cfg: Config, history: seq<Trace>, t: Trace)
    requires t.outcome.Failure? && !t.outcome.error.RoleMissing? && !t.outcome.error.KnownUnusable?
    requires t.outcome.error.UserMissing? ==> t.user == Some(NotFound)
    ensures Accounted(cfg, history + [t], |history|)
  {
    assert (history + [t])[|history|] == t;
  }

  lemma UnusableIsBacked(cfg: Config, c: Cache, history: seq<Trace>, t: Trace)
    requires IdentitiesBacked(cfg, c, history) && t.key in c.identities && !c.identities[t.key].usable
    requires t.outcome == Failure(KnownUnusable) && t.now - c.identities[t.key].checkedAt < Window(cfg)
    ensures Accounted(cfg, history + [t], |history|)
  {
    var d :| 0 <= d < |history| && history[d].key == t.key && DefiniteNo(history[d])
      && history[d].now == c.identities[t.key].checkedAt;
    var longer := history + [t];
    assert longer[d] == history[d] && longer[|history|] == t;
  }

  lemma AccountedSurvives(cfg: Config, history: seq<Trace>, t: Trace, j: nat)
    requires j < |history| && Accounted(cfg, history, j)
    ensures Accounted(cfg, history + [t], j)
  {
    var longer := history + [t];
    assert longer[..j + 1] == history[..j + 1];
    assert forall i :: 0 <= i < |history| ==> longer[i] == history[i];
    hide Backed, Strip, IdentOf;
    match history[j].outcome
    case Success(e) =>
      var k :| 0 <= k <= j && Backed(cfg, history[..j + 1], k, history[j].key, e)
        && history[j].now - history[k].now <= Longest(cfg);
      assert longer[k] == history[k];
    case Failure(RoleMissing) =>
      var r := Strip(history[j].user.value.value.role);
      var m :| 0 <= m <= j && history[m].role == Some((r, NotFound)) && history[j].now - history[m].now < Window(cfg);
      assert longer[m].role == Some((r, NotFound));
    case Failure(KnownUnusable) =>
      var d :| 0 <= d < j && history[d].key == history[j].key && DefiniteNo(history[d])
        && history[j].now - history[d].now < Window(cfg);
      assert longer[d].key == longer[j].key;
    case Failure(_) =>
  }

  lemma RequestKeeps(cfg: Config, c: Cache, history: seq<Trace>, call: Call)
    requires call.Request? && IdentitiesBacked(cfg, c, history) && RolesBacked(cfg, c, history)
    requires forall j :: 0 <= j < |history| ==> Accounted(cfg, history, j)
    ensures var (c', t) := Get(cfg, c, call.username, call.force, call.now, call.user, call.role);
            && IdentitiesBacked(cfg, c', history + [t]) && RolesBacked(cfg, c', history + [t])
            && forall j :: 0 <= j < |history + [t]| ==> Accounted(cfg, history + [t], j)
  {
    hide IdentitiesBacked, RolesBacked, Accounted, Key, Get;
    GetKeeps(cfg, c, history, call.username, call.force, call.now, call.user, call.role);
    var t := Get(cfg, c, call.username, call.force, call.now, call.user, call.role).1;
    forall j | 0 <= j < |history| + 1
      ensures Accounted(cfg, history + [t], j)
    {
      if j < |history| {
        AccountedSurvives(cfg, history, t, j);
      }
    }
  }

  lemma {:induction false} RunKeeps(cfg: Config, calls: seq<Call>)
    ensures var (c, history) := Run(cfg, calls);
            && IdentitiesBacked(cfg, c, history) && RolesBacked(cfg, c, history)
            && forall j :: 0 <= j < |history| ==> Accounted(cfg, history, j)
  {
    if calls != [] {
      var n := |calls| - 1;
      RunKeeps(cfg, calls[..n]);
      var (c, history) := Run(cfg, calls[..n]);
      var call := calls[n];
      hide Accounted, Get;
      if call.Request? {
        hide IdentitiesBacked, RolesBacked, Key;
        RequestKeeps(cfg, c, history, call);
      }
    }
  }

  function Requests(calls: seq<Call>): seq<Call> {
    if calls == [] then []
    else Requests(calls[..|calls| - 1]) + if calls[|calls| - 1].Request? then [calls[|calls| - 1]] else []
  }

  /** The trace tells of this request: its account and time, and what Glue answered if it was asked. */
  predicate TellsOf(t: Trace, call: Call) {
    && call.Request? && t.key == Key(call.username) && t.now == call.now
    && (t.user.Some? ==> t.user.value == call.user) && (t.role.Some? ==> t.role.value.1 == call.role)
  }

  /** The history of a run is its requests, one trace each. */
  lemma {:induction false} HistoryTellsRequests(cfg: Config, calls: seq<Call>)
    ensures var history := Run(cfg, calls).1;
            |history| == |Requests(calls)| && forall j :: 0 <= j < |history| ==> TellsOf(history[j], Requests(calls)[j])
  {
    hide Get, TellsOf, Key;
    if calls != [] {
      var n := |calls| - 1;
      HistoryTellsRequests(cfg, calls[..n]);
      if calls[n].Request? {
        TraceTells(cfg, Run(cfg, calls[..n]).0, calls[n]);
      }
    }
  }

  lemma TraceTells(cfg: Config, c: Cache, call: Call)
    requires call.Request?
    ensures TellsOf(Get(cfg, c, call.username, call.force, call.now, call.user, call.role).1, call)
  {
    hide Key, Strip, SoftFail;
  }

  /** Over every run of requests, drops and resets, with any clock: a served identity is exactly
      the entry of a confirming request at most max(W, G) ago, with no definite refusal of the
      account since; and its permissions are Glue's own answer for its role, given at most W before
      that confirmation. So failures and soft-fails never extend either age. */
  lemma Staleness(cfg: Config, calls: seq<Call>, j: nat)
    requires j < |Run(cfg, calls).1| && Run(cfg, calls).1[j].outcome.Success?
    ensures |Run(cfg, calls).1| == |Requests(calls)|
    ensures var history := Run(cfg, calls).1;
            var t, e := history[j], history[j].outcome.value;
            exists k :: 0 <= k <= j && Confirms(history[k], t.key, e) && TellsOf(history[k], Requests(calls)[k])
              && t.now - history[k].now <= Longest(cfg)
              && (forall d :: k < d <= j && history[d].key == t.key ==> !DefiniteNo(history[d]))
              && PermissionsBacked(cfg, history, k, e)
  {
    HistoryTellsRequests(cfg, calls);
    hide Requests, TellsOf, Run, Accounted, IdentitiesBacked, RolesBacked, Confirms, PermissionsBacked;
    RunKeeps(cfg, calls);
    ServedIsConfirmed(cfg, Run(cfg, calls).1, j);
  }

  lemma ServedIsConfirmed(cfg: Config, history: seq<Trace>, j: nat)
    requires j < |history| && history[j].outcome.Success? && Accounted(cfg, history, j)
    ensures var t, e := history[j], history[j].outcome.value;
            exists k :: 0 <= k <= j && Confirms(history[k], t.key, e) && t.now - history[k].now <= Longest(cfg)
              && (forall d :: k < d <= j && history[d].key == t.key ==> !DefiniteNo(history[d]))
              && PermissionsBacked(cfg, history, k, e)
  {
    var t, e := history[j], history[j].outcome.value;
    var k :| 0 <= k <= j && Backed(cfg, history[..j + 1], k, t.key, e) && t.now - history[k].now <= Longest(cfg);
    hide Confirms, Strip;
    var before := history[..j + 1];
    assert forall i :: 0 <= i <= j ==> before[i] == history[i];
    var role := Strip(e.ident.role);
    if role != "" {
      var m :| 0 <= m <= k && Grants(before[m], role, e.permissions.value)
        && before[k].now - before[m].now < Window(cfg);
      assert Grants(history[m], role, e.permissions.value);
    }
    assert PermissionsBacked(cfg, history, k, e);
    assert Confirms(history[k], t.key, e);
  }

  /** After a definite 404 for an account or its role, nothing is served for the account until
      Glue has confirmed it again. */
  lemma NothingAfterDefiniteNo(cfg: Config, calls: seq<Call>, d: nat, j: nat)
    requires d < j < |Run(cfg, calls).1|
    requires var history := Run(cfg, calls).1;
             history[d].key == history[j].key && DefiniteNo(history[d]) && history[j].outcome.Success?
    ensures var history := Run(cfg, calls).1;
            exists k :: d < k <= j && Confirms(history[k], history[j].key, history[j].outcome.value)
  {
    hide Run, PermissionsBacked, Describes, TellsOf, Requests;
    Staleness(cfg, calls, j);
    var history := Run(cfg, calls).1;
    var k :| 0 <= k <= j && Confirms(history[k], history[j].key, history[j].outcome.value)
      && (forall i :: k < i <= j && history[i].key == history[j].key ==> !DefiniteNo(history[i]));
    assert k > d;
  }

  /** Refusals are backed too: no account or role is reported missing unless Glue said so, for a
      role within the last window. */
  lemma RefusalsAreGlues(cfg: Config, calls: seq<Call>, j: nat)
    requires j < |Run(cfg, calls).1| && DefiniteNo(Run(cfg, calls).1[j])
    ensures var history := Run(cfg, calls).1;
            var t := history[j];
            || t.user == Some(NotFound)
            || (t.user.Some? && t.user.value.Found?
                && exists m :: 0 <= m <= j && history[m].role == Some((Strip(t.user.value.value.role), NotFound))
                    && t.now - history[m].now < Window(cfg))
  {
    RunKeeps(cfg, calls);
    assert Accounted(cfg, Run(cfg, calls).1, j);
    hide Run;
  }

  /** Inside the window an answer is given without asking Glue: it is the same whatever Glue would say. */
  lemma WindowAsksNothing(cfg: Config, c: Cache, username: Option<string>, now: real, user: Answer<UserBody>,
          role: Answer<seq<string>>,
                          user': Answer<UserBody>, role': Answer<seq<string>>)
    requires WithinWindow(cfg, Lookup(c, Key(username)), false, now)
    ensures Get(cfg, c, username, false, now, user, role) == Get(cfg, c, username, false, now, user', role')
    ensures Get(cfg, c, username, false, now, user, role).1.user.None?
  {
  }

  // ── Outages ──

  /** The request ended in a full refresh of the account: Glue confirmed it and its role. */
  predicate Refreshes(cfg: Config, c: Cache, call: Call, key: string) {
    call.Request?
    && var t := Get(cfg, c, call.username, call.force, call.now, call.user, call.role).1;
       && t.key == key && t.user.Some? && t.user.value.Found? && t.outcome.Success?
       && !(t.role.Some? && t.role.value.1.Unavailable?)
  }

  /** The call makes the cache forget the account: a reset, its own drop, or a definite refusal. */
  predicate Forgets(cfg: Config, c: Cache, call: Call, key: string) {
    match call
    case Reset => true
    case Drop(account) => Key(account) == key
    case Request(username, force, now, user, role) =>
      var t := Get(cfg, c, username, force, now, user, role).1;
      t.key == key && DefiniteNo(t)
  }

  function After(cfg: Config, c: Cache, call: Call): Cache {
    match call
    case Request(username, force, now, user, role) => Get(cfg, c, username, force, now, user, role).0
    case Drop(account) => c.(identities := c.identities - {Key(account)})
    case Reset => EMPTY
  }

  predicate Usable(c: Cache, key: string) {
    key in c.identities && c.identities[key].usable
  }

  /** What one call does to the entry of one account. */
  lemma CallEffect(cfg: Config, c: Cache, call: Call, key: string)
    ensures var c' := After(cfg, c, call);
            && (Forgets(cfg, c, call, key) ==> !Usable(c', key))
            && (Refreshes(cfg, c, call, key) ==> Usable(c', key) && c'.identities[key].lastOkAt == call.now)
            && (!Forgets(cfg, c, call, key) && !Refreshes(cfg, c, call, key) ==> Lookup(c', key) == Lookup(c, key))
  {
    if call.Request? {
      RequestEffect(cfg, c, call.username, call.force, call.now, call.user, call.role, key);
    }
  }

  lemma RequestEffect(cfg: Config, c: Cache, username: Option<string>, force: bool, now: real, user: Answer<UserBody>,
                      role: Answer<seq<string>>, key: string)
    ensures var call := Request(username, force, now, user, role);
            var c' := After(cfg, c, call);
            && (Forgets(cfg, c, call, key) ==> !Usable(c', key))
            && (Refreshes(cfg, c, call, key) ==> Usable(c', key) && c'.identities[key].lastOkAt == now)
            && (!Forgets(cfg, c, call, key) && !Refreshes(cfg, c, call, key) ==> Lookup(c', key) == Lookup(c, key))
  {
    hide Key, ServesCached, Window, Grace, Refresh, RolePermissions, IdentOf, AsksRole;
    if NeedsNoRefresh(cfg, c, Key(username), force, now, user) {
      GetCases(cfg, c, username, force, now, user, role);
      hide Get, NeedsNoRefresh;
    } else {
      RefreshEffect(cfg, c, Key(username), now, user.value, role);
    }
  }

  lemma RefreshEffect(cfg: Config, c: Cache, k: string, now: real, body: UserBody, role: Answer<seq<string>>)
    ensures var (c', t) := Refresh(cfg, c, k, now, body, role);
            && t.key == k && t.user == Some(Found(body))
            && (DefiniteNo(t) ==> !Usable(c', k))
            && (t.outcome.Success? && !(t.role.Some? && t.role.value.1.Unavailable?) ==>
                Usable(c', k) && c'.identities[k].lastOkAt == now)
            && (!DefiniteNo(t) && !(t.outcome.Success? && !(t.role.Some? && t.role.value.1.Unavailable?)) ==>
                c'.identities == c.identities)
            && (forall other :: other != k ==> Lookup(c', other) == Lookup(c, other))
  {
    RefreshCases(cfg, c, k, now, body, role);
    RefreshAnswers(cfg, c, k, now, body, role);
    RoleCases(cfg, c, IdentOf(k, body).role, now, role);
    hide RolePermissions, IdentOf, AsksRole, Refresh;
    match RolePermissions(cfg, c, IdentOf(k, body).role, now, role).1
    case Success(_) =>
    case Failure(NoSuchRole) =>
    case Failure(RoleUnavailable) =>
  }

  lemma RoleCases(cfg: Config, c: Cache, role: string, now: real, answer: Answer<seq<string>>)
    ensures RolePermissions(cfg, c, role, now, answer).1 == Failure(RoleUnavailable)
            <==> AsksRole(cfg, c, role, now) && answer.Unavailable?
  {
    hide Strip;
  }

  lemma RefreshAnswers(cfg: Config, c: Cache, key: string, now: real, body: UserBody, role: Answer<seq<string>>)
    ensures var (c', t) := Refresh(cfg, c, key, now, body, role);
            && t.user == Some(Found(body)) && t.outcome != Failure(UserMissing)
            && (RolePermissions(cfg, c, IdentOf(key, body).role, now, role).1.Success? ==>
                key in c'.identities && c'.identities[key].usable && c'.identities[key].lastOkAt == now)
            && (t.outcome == Failure(RoleMissing)
                <==> RolePermissions(cfg, c, IdentOf(key, body).role, now, role).1 == Failure(NoSuchRole))
  {
    hide RolePermissions, IdentOf, AsksRole;
  }

  /** When the account was last refreshed, if nothing has made the cache forget it since. */
  function LastConfirmed(cfg: Config, calls: seq<Call>, key: string): Option<real> {
    if calls == [] then None
    else
      var n := |calls| - 1;
      var c := Run(cfg, calls[..n]).0;
      if Refreshes(cfg, c, calls[n], key) then Some(calls[n].now)
      else if Forgets(cfg, c, calls[n], key) then None
      else LastConfirmed(cfg, calls[..n], key)
  }

  lemma RefreshIsNoRefusal(cfg: Config, c: Cache, call: Call, key: string)
    ensures Refreshes(cfg, c, call, key) ==> !Forgets(cfg, c, call, key)
  {
  }

  /** The cache holds exactly the last refresh that was not forgotten, with its time. */
  lemma {:induction false} CacheRemembers(cfg: Config, calls: seq<Call>, key: string)
    ensures var c := Run(cfg, calls).0;
            LastConfirmed(cfg, calls, key) == if Usable(c, key) then Some(c.identities[key].lastOkAt) else None
  {
    if calls != [] {
      var n := |calls| - 1;
      var c := Run(cfg, calls[..n]).0;
      assert Run(cfg, calls).0 == After(cfg, c, calls[n]);
      hide Run, After, Forgets;
      CacheRemembers(cfg, calls[..n], key);
      CallEffect(cfg, c, calls[n], key);
      RefreshIsNoRefusal(cfg, c, calls[n], key);
      hide Get;
    }
  }

  /** Soft-fail over every history: while Glue is away, a request past the window is served exactly
      if a grace is configured and the account's last refresh, not forgotten since, is at most G
      old. Being served changes nothing, so requests during an outage never prolong it. */
  lemma OutageServesIff(cfg: Config, calls: seq<Call>, username: Option<string>, force: bool, now: real,
          role: Answer<seq<string>>)
    requires var key := Key(username);
             && key != "" && |key| <= USERNAME_MAX_LEN
             && !WithinWindow(cfg, Lookup(Run(cfg, calls).0, key), force, now)
    ensures var key, c := Key(username), Run(cfg, calls).0;
            var (c', t) := Get(cfg, c, username, force, now, Unavailable, role);
            var last := LastConfirmed(cfg, calls, key);
            && c' == c
            && (t.outcome.Success? <==> cfg.grace > 0 && last.Some? && now - last.value <= Grace(cfg))
            && (t.outcome.Success? ==> t.outcome.value == c.identities[key])
  {
    CacheRemembers(cfg, calls, Key(username));
    hide Run, Key, LastConfirmed, Refresh;
  }
}
