/** The mirror of the image registry: collecting a repository's tags page by page, and bringing the
    cached rows in line with what was reported. */
module RegistrySync {
  import opened Wrappers

  // ── Page collection ──

  const PAGE_SIZE := 200
  const MAX_PAGES := 50

  /** A reply of the tags endpoint: a paged envelope, or a bare list (older servers; also a 404). */
  datatype Reply<+T> = Envelope(items: seq<T>, totalPages: Option<int>) | Bare(tags: seq<T>)

  datatype FetchError = Unreachable | Denied

  function PageCount<T>(first: Reply<T>): (n: int)
    ensures 1 <= n <= MAX_PAGES
  {
    var total := if first.Envelope? && first.totalPages.Some? && first.totalPages.value > 1 then first.totalPages.value
      else 1;
    if total < MAX_PAGES then total else MAX_PAGES
  }

  function ItemsOf<T>(reply: Reply<T>): seq<T> {
    if reply.Envelope? then reply.items else []
  }

  /** Pages 2 to n, one after the other; pages that are no envelope add nothing. */
  function LaterItems<T>(pages: int -> Result<Reply<T>, FetchError>, n: int): Result<seq<T>, FetchError>
    decreases n
  {
    if n < 2 then Success([])
    else
      match LaterItems(pages, n - 1) {
        case Failure(e) => Failure(e)
        case Success(before) =>
          match pages(n) {
            case Failure(e) => Failure(e)
            case Success(reply) => Success(before + ItemsOf(reply))
          }
      }
  }

  function AllTags<T>(pages: int -> Result<Reply<T>, FetchError>): Result<seq<T>, FetchError> {
    match pages(1) {
      case Failure(e) => Failure(e)
      case Success(Bare(tags)) => Success(tags)
      case Success(Envelope(items, total)) =>
        match LaterItems(pages, PageCount(Envelope(items, total))) {
          case Failure(e) => Failure(e)
          case Success(later) => Success(items + later)
        }
    }
  }

  /** `_fetch_all_tags` */
  method FetchAllTags<T>(pages: int -> Result<Reply<T>, FetchError>) returns (r: Result<seq<T>, FetchError>)
    ensures r == AllTags(pages)
  {
    var first := pages(1);
    if first.Failure? {
      return Failure(first.error);
    }
    if first.value.Bare? {
      return Success(first.value.tags);
    }
    var all := first.value.items;
    var last := PageCount(first.value);
    ghost var later: seq<T> := [];
    for p := 2 to last + 1
      invariant LaterItems(pages, p - 1) == Success(later) && all == first.value.items + later
    {
      var page := pages(p);
      if page.Failure? {
        FailureStays(pages, p, last);
        return Failure(page.error);
      }
      assert first.value.items + (later + ItemsOf(page.value)) == all + ItemsOf(page.value);
      later := later + ItemsOf(page.value);
      all := all + ItemsOf(page.value);
    }
    r := Success(all);
  }

  lemma {:induction false} FailureStays<T>(pages: int -> Result<Reply<T>, FetchError>, p: int, n: int)
    requires 2 <= p <= n && LaterItems(pages, p - 1).Success? && pages(p).Failure?
    ensures LaterItems(pages, n) == Failure(pages(p).error)
    decreases n
  {
    if p < n {
      FailureStays(pages, p, n - 1);
    }
  }

  /** An older server, or one without the repository, answers with the bare list: it is taken as it
      is, in one request, whatever further pages would say; a page that fails fails the listing. */
  lemma BareListIsWhole<T>(pages: int -> Result<Reply<T>, FetchError>, other: int -> Result<Reply<T>, FetchError>)
    ensures pages(1).Success? && pages(1).value.Bare? ==> AllTags(pages) == Success(pages(1).value.tags)
    ensures pages(1).Failure? ==> AllTags(pages) == Failure(pages(1).error)
    ensures other(1) == pages(1) && (pages(1).Failure? || pages(1).value.Bare?) ==> AllTags(other) == AllTags(pages)
    ensures pages(1).Success? && pages(1).value.Envelope? && pages(1).value.totalPages.None? ==>
      AllTags(pages) == Success(pages(1).value.items)
  {
    if pages(1).Success? && pages(1).value.Envelope? {
      assert pages(1).value.items + [] == pages(1).value.items;
    }
  }

  /** A server that holds the list and cuts it into pages of 200. */
  function Served<T>(list: seq<T>, p: int): Reply<T> {
    var lo := (p - 1) * PAGE_SIZE;
    var hi := if p * PAGE_SIZE < |list| then p * PAGE_SIZE else |list|;
    Envelope(if 0 <= lo <= hi then list[lo..hi] else [], Some((|list| + PAGE_SIZE - 1) / PAGE_SIZE))
  }

  function Capped(n: int, list: nat): nat {
    if n * PAGE_SIZE < list then if n < 0 then 0 else n * PAGE_SIZE else list
  }

  lemma ServedItems<T>(list: seq<T>, p: int)
    requires p >= 2
    ensures Capped(1, |list|) <= Capped(p - 1, |list|) <= Capped(p, |list|) <= |list|
    ensures ItemsOf(Served(list, p)) == list[Capped(p - 1, |list|)..Capped(p, |list|)]
  {
  }

  lemma LaterItemsStep<T>(pages: int -> Result<Reply<T>, FetchError>, n: int, before: seq<T>, reply: Reply<T>)
    requires n >= 2 && LaterItems(pages, n - 1) == Success(before) && pages(n) == Success(reply)
    ensures LaterItems(pages, n) == Success(before + ItemsOf(reply))
  {
    hide ItemsOf;
  }

  lemma SlicesMeet<T>(list: seq<T>, a: nat, b: nat, c: nat)
    requires a <= b <= c <= |list|
    ensures list[a..b] + list[b..c] == list[a..c] && list[a..a] == []
  {
  }

  lemma {:induction false} LaterItemsOfServer<T>(list: seq<T>, pages: int -> Result<Reply<T>, FetchError>, n: int)
    requires forall p :: pages(p) == Success(Served(list, p))
    requires n >= 1
    ensures Capped(1, |list|) <= Capped(n, |list|)
    ensures LaterItems(pages, n) == Success(list[Capped(1, |list|)..Capped(n, |list|)])
    decreases n
  {
    var a := Capped(1, |list|);
    if n >= 2 {
      LaterItemsOfServer(list, pages, n - 1);
      ServedItems(list, n);
      hide Capped, Served, ItemsOf, LaterItems;
      LaterItemsStep(pages, n, list[a..Capped(n - 1, |list|)], Served(list, n));
      SlicesMeet(list, a, Capped(n - 1, |list|), Capped(n, |list|));
    } else {
      SlicesMeet(list, a, a, a);
    }
  }

  lemma ServerPages<T>(list: seq<T>)
    ensures var n := PageCount(Served(list, 1));
            Capped(n, |list|) == if |list| <= PAGE_SIZE * MAX_PAGES then |list| else PAGE_SIZE * MAX_PAGES
  {
  }

  /** From a fixed list the first 10000 tags are collected, in order and without gaps: the whole
      list exactly when it has no more than that. */
  lemma CollectsUpToFiftyPages<T>(list: seq<T>, pages: int -> Result<Reply<T>, FetchError>)
    requires forall p :: pages(p) == Success(Served(list, p))
    ensures AllTags(pages) == Success(if |list| <= 10000 then list else list[..10000])
    ensures AllTags(pages) == Success(list) <==> |list| <= 10000
  {
    var first := Served(list, 1);
    var n := PageCount(first);
    LaterItemsOfServer(list, pages, n);
    ServerPages(list);
    FirstPage(list);
    assert pages(1) == Success(first);
    var one, end := Capped(1, |list|), Capped(n, |list|);
    hide LaterItems, Capped, PageCount, Served;
    SlicesMeet(list, 0, one, end);
    assert list[0..one] == list[..one] && list[0..end] == list[..end] && list[..|list|] == list;
  }

  lemma FirstPage<T>(list: seq<T>)
    ensures Served(list, 1).items == list[..Capped(1, |list|)]
  {
  }

  /** The server as seen through failing pages: page 1 is served, and each later page is served or,
      if it is missing, answered by a 404, which reads as a bare empty list. */
  ghost predicate ServedExcept<T(!new)>(list: seq<T>, missing: set<int>, pages: int -> Result<Reply<T>, FetchError>) {
    && 1 !in missing
    && forall p :: pages(p) == Success(if p in missing then Bare([]) else Served(list, p))
  }

  /** The items of pages 1 to n that are not missing. */
  function Kept<T>(list: seq<T>, missing: set<int>, n: nat): seq<T> {
    if n == 0 then []
    else Kept(list, missing, n - 1) + if n in missing then [] else list[Capped(n - 1, |list|)..Capped(n, |list|)]
  }

  lemma {:induction false} KeptIsCollected<T(!new)>(list: seq<T>, missing: set<int>, pages: int -> Result<Reply<T>,
          FetchError>, n: nat)
    requires ServedExcept(list, missing, pages) && n >= 1
    ensures LaterItems(pages, n).Success?
    ensures Served(list, 1).items + LaterItems(pages, n).value == Kept(list, missing, n)
  {
    var first := Served(list, 1).items;
    if n == 1 {
      assert Kept(list, missing, 0) == [];
      assert Capped(0, |list|) == 0 && first == list[0..Capped(1, |list|)];
      assert first + [] == [] + first;
    } else {
      KeptIsCollected(list, missing, pages, n - 1);
      ServedItems(list, n);
      var reply := if n in missing then Bare([]) else Served(list, n);
      assert pages(n) == Success(reply);
      hide Capped, Served, ServedExcept;
      LaterItemsStep(pages, n, LaterItems(pages, n - 1).value, reply);
      JoinIsAssociative(first, LaterItems(pages, n - 1).value, ItemsOf(reply));
    }
  }

  lemma JoinIsAssociative<T>(a: seq<T>, b: seq<T>, c: seq<T>)
    ensures a + (b + c) == (a + b) + c
  {
  }

  function PageOf(i: nat): int {
    i / PAGE_SIZE + 1
  }

  /** An item is collected exactly if it stands on some page that was answered. */
  lemma {:induction false} KeptHolds<T>(list: seq<T>, missing: set<int>, n: nat, x: T)
    ensures x in Kept(list, missing, n)
      <==> exists i :: 0 <= i < Capped(n, |list|) && list[i] == x && PageOf(i) !in missing
  {
    if n > 0 {
      KeptHolds(list, missing, n - 1, x);
      var lo, hi := Capped(n - 1, |list|), Capped(n, |list|);
      assert lo <= hi <= |list|;
      forall i | lo <= i < hi
        ensures PageOf(i) == n && list[lo..hi][i - lo] == list[i]
      {
      }
      if x in list[lo..hi] && n !in missing {
        var k :| 0 <= k < hi - lo && list[lo..hi][k] == x;
        assert list[lo + k] == x && PageOf(lo + k) !in missing;
      }
      hide Capped;
      if i :| 0 <= i < hi && list[i] == x && PageOf(i) !in missing {
        assert i >= lo ==> x == list[lo..hi][i - lo];
      }
    }
  }

  lemma {:induction false} KeptLength<T>(list: seq<T>, missing: set<int>, n: nat)
    ensures |Kept(list, missing, n)| <= Capped(n, |list|)
    ensures |Kept(list, missing, n)| == Capped(n, |list|) <==>
      forall p :: 1 <= p <= n && Capped(p - 1, |list|) < Capped(p, |list|) ==> p !in missing
  {
    if n > 0 {
      KeptLength(list, missing, n - 1);
    }
  }

  lemma {:induction false} KeptWhole<T>(list: seq<T>, missing: set<int>, n: nat)
    requires forall p :: 1 <= p <= n ==> p !in missing
    ensures Kept(list, missing, n) == list[..Capped(n, |list|)]
  {
    if n > 0 {
      KeptWhole(list, missing, n - 1);
    }
  }

  /** What collection yields when pages are missing: exactly the pages that were answered, with no
      error. It is the whole list exactly if the list has at most 10000 tags and no page of it is
      missing: a 404 on a later page always loses its tags, silently. */
  lemma MissingPagesAreDropped<T(!new)>(list: seq<T>, missing: set<int>, pages: int -> Result<Reply<T>, FetchError>)
    requires ServedExcept(list, missing, pages)
    ensures var n := PageCount(Served(list, 1));
            && AllTags(pages) == Success(Kept(list, missing, n))
            && (AllTags(pages) == Success(list) <==>
                |list| <= 10000 && forall p :: 2 <= p <= n ==> p !in missing)
  {
    var n := PageCount(Served(list, 1));
    ServerPages(list);
    KeptIsCollected(list, missing, pages, n);
    KeptLength(list, missing, n);
    assert pages(1) == Success(Served(list, 1));
    if forall p :: 2 <= p <= n ==> p !in missing {
      KeptWhole(list, missing, n);
      assert list[..|list|] == list;
    } else {
      var p :| 2 <= p <= n && p in missing;
      PagesAreFull(list, p);
    }
  }

  lemma PagesAreFull<T>(list: seq<T>, p: int)
    requires 2 <= p <= PageCount(Served(list, 1))
    ensures Capped(p - 1, |list|) < Capped(p, |list|)
  {
  }

  // ── The mirror ──

  /** The columns that describe an artifact: size, times and scan results. */
  datatype Details = Details(size: int, pushTime: Option<string>, pullTime: Option<string>, scan: string,
          findings: seq<int>)

  datatype Artifact = Artifact(tag: string, digest: string, details: Details)

  datatype Repo = Repo(project: string, name: string)

  datatype Row = Row(repo: nat, tag: string, digest: string, details: Details, lastSync: string)

  datatype Mirror = Mirror(repos: map<nat, Repo>, rows: map<nat, Row>, nextRepo: nat, nextRow: nat)

  predicate Has(m: Mirror, id: nat, repo: nat, tag: string, digest: string) {
    id in m.rows && m.rows[id].repo == repo && m.rows[id].tag == tag && m.rows[id].digest == digest
  }

  /** Both unique indexes, and the foreign key from rows to repositories. */
  ghost predicate Valid(m: Mirror) {
    && (forall id :: id in m.repos ==> id < m.nextRepo)
    && (forall i, j :: i in m.repos && j in m.repos && m.repos[i] == m.repos[j] ==> i == j)
    && (forall id :: id in m.rows ==> id < m.nextRow && m.rows[id].repo in m.repos)
    && (forall i, j :: i in m.rows && Has(m, j, m.rows[i].repo, m.rows[i].tag, m.rows[i].digest) ==> i == j)
  }

  /** What the registry answers for one repository. */
  datatype Listing = Artifacts(list: seq<Artifact>) | Failed(error: FetchError) | Broken

  /** SELECT, then UPDATE the row found or INSERT a new one. */
  ghost function Upsert(m: Mirror, repo: nat, art: Artifact, now: string): Mirror {
    if exists id :: Has(m, id, repo, art.tag, art.digest) then
      var id :| Has(m, id, repo, art.tag, art.digest);
      m.(rows := m.rows[id := m.rows[id].(details := art.details, lastSync := now)])
    else
      m.(rows := m.rows[m.nextRow := Row(repo, art.tag, art.digest, art.details, now)], nextRow := m.nextRow + 1)
  }

  ghost function UpsertAll(m: Mirror, repo: nat, list: seq<Artifact>, now: string): Mirror {
    if list == [] then m
    else
      var before, art := UpsertAll(m, repo, list[..|list| - 1], now), list[|list| - 1];
      if art.tag == "" then before else Upsert(before, repo, art, now)
  }

  function ReportedTags(list: seq<Artifact>): set<string> {
    set i | 0 <= i < |list| && list[i].tag != "" :: list[i].tag
  }

  function CountTagged(list: seq<Artifact>): nat {
    if list == [] then 0 else CountTagged(list[..|list| - 1]) + if list[|list| - 1].tag != "" then 1 else 0
  }

  /** DELETE ... WHERE repo_id = ? AND tag NOT IN (...), only for a non-empty list. */
  function DeleteGone(m: Mirror, repo: nat, tags: set<string>): Mirror {
    if tags == {} then m
    else m.(rows := map id | id in m.rows && !(m.rows[id].repo == repo && m.rows[id].tag !in tags) :: m.rows[id])
  }

  /** The repository's id, from a new record if there is none. */
  ghost function EnsureRepo(m: Mirror, repo: Repo): (Mirror, nat) {
    if exists id :: id in m.repos && m.repos[id] == repo then
      var id :| id in m.repos && m.repos[id] == repo;
      (m, id)
    else (m.(repos := m.repos[m.nextRepo := repo], nextRepo := m.nextRepo + 1), m.nextRepo)
  }

  ghost function SyncedRows(m: Mirror, repo: nat, list: seq<Artifact>, now: string): Mirror {
    DeleteGone(UpsertAll(m, repo, list, now), repo, ReportedTags(list))
  }

  ghost function SyncedRepo(m: Mirror, repo: Repo, listing: Listing, now: string): (Mirror, Result<nat, FetchError>) {
    match listing
    case Failed(e) => (m, Failure(e))
    case Broken => (m, Success(0))
    case Artifacts(list) =>
      var (ready, id) := EnsureRepo(m, repo);
      (SyncedRows(ready, id, list, now), Success(CountTagged(list)))
  }

  lemma EnsureKeepsValid(m: Mirror, repo: Repo)
    requires Valid(m)
    ensures var (m', id) := EnsureRepo(m, repo);
            && Valid(m') && id in m'.repos && m'.repos[id] == repo && m'.rows == m.rows
            && m'.repos.Values == m.repos.Values + {repo}
            && forall i :: i in m.repos ==> i in m'.repos && m'.repos[i] == m.repos[i]
  {
    var (m', id) := EnsureRepo(m, repo);
    assert forall i, r, t, d :: Has(m', i, r, t, d) <==> Has(m, i, r, t, d);
    assert m'.repos[id] == repo;
    assert m'.repos.Values == m.repos.Values + {repo} by {
      assert forall i :: i in m.repos ==> m'.repos[i] == m.repos[i];
      assert forall i :: i in m'.repos ==> (i in m.repos || i == id);
    }
  }

  lemma UpsertKeepsValid(m: Mirror, repo: nat, art: Artifact, now: string)
    requires Valid(m) && repo in m.repos
    ensures var m' := Upsert(m, repo, art, now); Valid(m') && m'.repos == m.repos && m'.nextRepo == m.nextRepo
  {
    var m' := Upsert(m, repo, art, now);
    forall i, j | i in m'.rows && Has(m', j, m'.rows[i].repo, m'.rows[i].tag, m'.rows[i].digest)
      ensures i == j
    {
      assert i in m.rows && j in m.rows ==> Has(m, j, m.rows[i].repo, m.rows[i].tag, m.rows[i].digest);
      if i in m.rows && j !in m.rows {
        assert Has(m, i, repo, art.tag, art.digest);
      } else if i !in m.rows && j in m.rows {
        assert Has(m, j, repo, art.tag, art.digest);
      }
    }
  }

  lemma {:induction false} UpsertAllKeepsValid(m: Mirror, repo: nat, list: seq<Artifact>, now: string)
    requires Valid(m) && repo in m.repos
    ensures var m' := UpsertAll(m, repo, list, now); Valid(m') && m'.repos == m.repos && m'.nextRepo == m.nextRepo
  {
    if list != [] {
      var n := |list| - 1;
      UpsertAllKeepsValid(m, repo, list[..n], now);
      UpsertKeepsValid(UpsertAll(m, repo, list[..n], now), repo, list[n], now);
    }
  }

  lemma DeleteKeepsValid(m: Mirror, repo: nat, tags: set<string>)
    requires Valid(m)
    ensures Valid(DeleteGone(m, repo, tags))
  {
    var m' := DeleteGone(m, repo, tags);
    assert forall i, r, t, d :: Has(m', i, r, t, d) ==> Has(m, i, r, t, d);
  }

  lemma SyncKeepsValid(m: Mirror, repo: Repo, listing: Listing, now: string)
    requires Valid(m)
    ensures Valid(SyncedRepo(m, repo, listing, now).0)
  {
    if listing.Artifacts? {
      var (ready, id) := EnsureRepo(m, repo);
      EnsureKeepsValid(m, repo);
      UpsertAllKeepsValid(ready, id, listing.list, now);
      DeleteKeepsValid(UpsertAll(ready, id, listing.list, now), id, ReportedTags(listing.list));
    }
  }

  // ── What a sync leaves behind ──

  predicate Reports(list: seq<Artifact>, i: int, tag: string, digest: string) {
    0 <= i < |list| && list[i].tag == tag && list[i].digest == digest
  }

  /** The details of the last report of a key, which is the one that stays. */
  predicate LastReport(list: seq<Artifact>, i: int, tag: string, digest: string) {
    Reports(list, i, tag, digest) && forall j :: i < j < |list| ==> !Reports(list, j, tag, digest)
  }

  predicate SameKey(a: Row, b: Row) {
    a.repo == b.repo && a.tag == b.tag && a.digest == b.digest
  }

  /** The reported keys have their rows. */
  ghost predicate Stored(m: Mirror, repo: nat, list: seq<Artifact>, now: string) {
    forall i, tag, digest :: LastReport(list, i, tag, digest) && tag != "" ==>
      exists id :: Has(m, id, repo, tag, digest) && m.rows[id] == Row(repo, tag, digest, list[i].details, now)
  }

  /** All rows but those of one key are as before. */
  ghost predicate OnlyKey(before: Mirror, after: Mirror, repo: nat, art: Artifact) {
    && (forall id :: id in before.rows ==> id in after.rows && SameKey(before.rows[id], after.rows[id]))
    && (forall id :: id in after.rows && (art.tag == "" || !Has(after, id, repo, art.tag, art.digest)) ==>
        id in before.rows && after.rows[id] == before.rows[id])
  }

  lemma UpsertStep(m: Mirror, repo: nat, art: Artifact, now: string)
    requires Valid(m) && art.tag != ""
    ensures var m' := Upsert(m, repo, art, now);
            && (exists id ::
                && Has(m', id, repo, art.tag, art.digest)
                && m'.rows[id] == Row(repo, art.tag, art.digest, art.details, now))
            && OnlyKey(m, m', repo, art)
  {
    var m' := Upsert(m, repo, art, now);
    if exists id :: Has(m, id, repo, art.tag, art.digest) {
      var id :| Has(m, id, repo, art.tag, art.digest)
        && m' == m.(rows := m.rows[id := m.rows[id].(details := art.details, lastSync := now)]);
      assert Has(m', id, repo, art.tag, art.digest);
    } else {
      assert Has(m', m.nextRow, repo, art.tag, art.digest);
    }
  }

  ghost predicate Touched(m: Mirror, id: nat, repo: nat, list: seq<Artifact>)
    requires id in m.rows
  {
    m.rows[id].repo == repo && m.rows[id].tag != "" && exists i :: Reports(list, i, m.rows[id].tag, m.rows[id].digest)
  }

  /** The row of a reported key holds its last report; every other row is untouched. */
  ghost predicate Upserted(m: Mirror, m': Mirror, repo: nat, list: seq<Artifact>, now: string) {
    && Stored(m', repo, list, now)
    && (forall id :: id in m.rows ==> id in m'.rows && SameKey(m.rows[id], m'.rows[id]))
    && (forall id :: id in m'.rows && !Touched(m', id, repo, list) ==> id in m.rows && m'.rows[id] == m.rows[id])
  }

  lemma LastReportOfPrefix(front: seq<Artifact>, art: Artifact, i: int, tag: string, digest: string)
    requires LastReport(front + [art], i, tag, digest) && i < |front|
    ensures LastReport(front, i, tag, digest) && !(art.tag == tag && art.digest == digest)
  {
    var list := front + [art];
    assert forall j :: 0 <= j < |front| ==> (Reports(front, j, tag, digest) <==> Reports(list, j, tag, digest));
    assert !Reports(list, |front|, tag, digest);
  }

  lemma StoredStep(before: Mirror, after: Mirror, repo: nat, front: seq<Artifact>, art: Artifact, now: string)
    requires Stored(before, repo, front, now) && OnlyKey(before, after, repo, art)
    requires art.tag != "" ==>
      exists id :: Has(after, id, repo, art.tag, art.digest)
        && after.rows[id] == Row(repo, art.tag, art.digest, art.details, now)
    ensures Stored(after, repo, front + [art], now)
  {
    var list := front + [art];
    forall i, tag, digest | LastReport(list, i, tag, digest) && tag != ""
      ensures exists id ::
        Has(after, id, repo, tag, digest) && after.rows[id] == Row(repo, tag, digest, list[i].details, now)
    {
      if i < |front| {
        LastReportOfPrefix(front, art, i, tag, digest);
        var id :| Has(before, id, repo, tag, digest)
          && before.rows[id] == Row(repo, tag, digest, front[i].details, now);
        assert SameKey(before.rows[id], after.rows[id]);
        assert Has(after, id, repo, tag, digest);
      }
    }
  }

  lemma UntouchedStep(before: Mirror, after: Mirror, repo: nat, front: seq<Artifact>, art: Artifact, id: nat)
    requires id in after.rows && !Touched(after, id, repo, front + [art]) && OnlyKey(before, after, repo, art)
    ensures id in before.rows && before.rows[id] == after.rows[id] && !Touched(before, id, repo, front)
  {
    var list, row := front + [art], after.rows[id];
    assert art.tag != "" && Has(after, id, repo, art.tag, art.digest) ==> Reports(list, |front|, row.tag, row.digest);
    assert forall i :: Reports(front, i, row.tag, row.digest) ==> Reports(list, i, row.tag, row.digest);
  }

  lemma UpsertedStep(m: Mirror, before: Mirror, after: Mirror, repo: nat, front: seq<Artifact>, art: Artifact,
          now: string)
    requires Upserted(m, before, repo, front, now) && OnlyKey(before, after, repo, art)
    requires art.tag != "" ==>
      exists id :: Has(after, id, repo, art.tag, art.digest)
        && after.rows[id] == Row(repo, art.tag, art.digest, art.details, now)
    ensures Upserted(m, after, repo, front + [art], now)
  {
    StoredStep(before, after, repo, front, art, now);
    hide Stored;
    forall id | id in after.rows && !Touched(after, id, repo, front + [art])
      ensures id in m.rows && after.rows[id] == m.rows[id]
    {
      UntouchedStep(before, after, repo, front, art, id);
    }
    hide Touched, Has;
  }

  lemma {:induction false} UpsertAllUpserts(m: Mirror, repo: nat, list: seq<Artifact>, now: string)
    requires Valid(m) && repo in m.repos
    ensures Upserted(m, UpsertAll(m, repo, list, now), repo, list, now)
  {
    if list != [] {
      var front, art := list[..|list| - 1], list[|list| - 1];
      var before := UpsertAll(m, repo, front, now);
      UpsertAllUpserts(m, repo, front, now);
      UpsertAllKeepsValid(m, repo, front, now);
      assert list == front + [art];
      hide Valid, Upsert, Upserted;
      if art.tag != "" {
        UpsertStep(before, repo, art, now);
      }
      UpsertedStep(m, before, UpsertAll(m, repo, list, now), repo, front, art, now);
    }
  }

  function CachedTags(m: Mirror, repo: nat): set<string> {
    set id | id in m.rows && m.rows[id].repo == repo :: m.rows[id].tag
  }

  lemma {:induction false} LastOfReports(list: seq<Artifact>, i: int, tag: string, digest: string)
    requires Reports(list, i, tag, digest)
    ensures exists j :: LastReport(list, j, tag, digest)
    decreases |list| - i
  {
    if j :| i < j < |list| && Reports(list, j, tag, digest) {
      LastOfReports(list, j, tag, digest);
    } else {
      assert LastReport(list, i, tag, digest);
    }
  }

  /** The whole effect of a sync on the rows: every reported (tag, digest) has one row, holding its
      last report; a row whose tag is still reported under another digest stays as it was; the
      repository's other rows are gone; other repositories keep their rows; an answer without tags
      changes nothing. */
  lemma SyncMirrors(m: Mirror, repo: nat, list: seq<Artifact>, now: string)
    requires Valid(m) && repo in m.repos
    ensures var m' := SyncedRows(m, repo, list, now);
            && Valid(m') && m'.repos == m.repos && m'.nextRepo == m.nextRepo
            && (ReportedTags(list) != {} ==> CachedTags(m', repo) == ReportedTags(list))
            && (ReportedTags(list) == {} ==> m'.rows == m.rows)
            && Stored(m', repo, list, now)
            && (forall id :: id in m'.rows && !Touched(m', id, repo, list) ==>
                id in m.rows && m'.rows[id] == m.rows[id])
            && (forall id :: id in m.rows && (m.rows[id].repo != repo || m.rows[id].tag in ReportedTags(list)) ==>
                 id in m'.rows && SameKey(m'.rows[id], m.rows[id]))
            && (forall id :: id in m.rows && id in m'.rows ==> SameKey(m'.rows[id], m.rows[id]))
  {
    UpsertAllKeepsValid(m, repo, list, now);
    UpsertAllUpserts(m, repo, list, now);
    var mid := UpsertAll(m, repo, list, now);
    var tags := ReportedTags(list);
    DeleteKeepsValid(mid, repo, tags);
    var m' := SyncedRows(m, repo, list, now);
    if tags == {} {
      forall i | 0 <= i < |list| {
        TagIsReported(list, i);
      }
      NothingToUpsert(m, repo, list, now);
    } else {
      TagsAreReported(mid, m', repo, list, now);
    }
    StoredAfterDelete(mid, m', repo, list, now);
    hide Valid, UpsertAll, Stored;
    forall id | id in m'.rows && !Touched(m', id, repo, list)
      ensures id in m.rows && m'.rows[id] == m.rows[id]
    {
      assert !Touched(mid, id, repo, list);
    }
  }

  lemma TagIsReported(list: seq<Artifact>, i: nat)
    requires i < |list|
    ensures list[i].tag != "" ==> list[i].tag in ReportedTags(list)
  {
  }

  lemma {:induction false} NothingToUpsert(m: Mirror, repo: nat, list: seq<Artifact>, now: string)
    requires forall i :: 0 <= i < |list| ==> list[i].tag == ""
    ensures UpsertAll(m, repo, list, now) == m
  {
    if list != [] {
      NothingToUpsert(m, repo, list[..|list| - 1], now);
    }
  }

  lemma StoredAfterDelete(mid: Mirror, m': Mirror, repo: nat, list: seq<Artifact>, now: string)
    requires m' == DeleteGone(mid, repo, ReportedTags(list)) && Stored(mid, repo, list, now)
    ensures Stored(m', repo, list, now)
  {
    forall i, tag, digest | LastReport(list, i, tag, digest) && tag != ""
      ensures exists id :: Has(m', id, repo, tag, digest) && m'.rows[id] == Row(repo, tag, digest, list[i].details, now)
    {
      var id :| Has(mid, id, repo, tag, digest) && mid.rows[id] == Row(repo, tag, digest, list[i].details, now);
      TagIsReported(list, i);
      assert Has(m', id, repo, tag, digest);
    }
  }

  lemma TagsAreReported(mid: Mirror, m': Mirror, repo: nat, list: seq<Artifact>, now: string)
    requires ReportedTags(list) != {} && m' == DeleteGone(mid, repo, ReportedTags(list))
    requires Stored(mid, repo, list, now)
    ensures CachedTags(m', repo) == ReportedTags(list)
  {
    forall tag | tag in ReportedTags(list)
      ensures tag in CachedTags(m', repo)
    {
      var i :| 0 <= i < |list| && list[i].tag != "" && list[i].tag == tag;
      assert Reports(list, i, tag, list[i].digest);
      LastOfReports(list, i, tag, list[i].digest);
      var j :| LastReport(list, j, tag, list[i].digest);
      var id :| Has(mid, id, repo, tag, list[i].digest);
      assert id in m'.rows && m'.rows[id].tag == tag;
    }
  }

  /** Some item with this tag stands on a page that was asked for and answered. */
  ghost predicate Answered(list: seq<Artifact>, missing: set<int>, tag: string) {
    exists i :: 0 <= i < |list| && i < PAGE_SIZE * MAX_PAGES && list[i].tag == tag && PageOf(i) !in missing
  }

  /** A sync after a collection with missing pages: of the repository's rows exactly those go whose
      tag stands on no page that was answered; only an answer without any tag deletes nothing. */
  lemma MissingPagesAreDeleted(m: Mirror, repo: nat, list: seq<Artifact>, missing: set<int>,
                               pages: int -> Result<Reply<Artifact>, FetchError>, now: string)
    requires Valid(m) && repo in m.repos && ServedExcept(list, missing, pages)
    ensures AllTags(pages).Success?
    ensures var got := AllTags(pages).value;
            var m' := SyncedRows(m, repo, got, now);
            forall id :: id in m.rows && m.rows[id].repo == repo ==>
              (id in m'.rows <==>
               ReportedTags(got) == {} || (m.rows[id].tag != "" && Answered(list, missing, m.rows[id].tag)))
  {
    hide SyncedRows, Valid, Stored, AllTags, PageCount, Served, Kept, Touched, ReportedTags, CachedTags, Answered;
    MissingPagesAreDropped(list, missing, pages);
    var got := AllTags(pages).value;
    SyncMirrors(m, repo, got, now);
    forall id | id in m.rows && m.rows[id].repo == repo
      ensures id in SyncedRows(m, repo, got, now).rows
              <==> ReportedTags(got) == {} || (m.rows[id].tag != "" && Answered(list, missing, m.rows[id].tag))
    {
      TagsKept(list, missing, m.rows[id].tag);
      if ReportedTags(got) != {} {
        SurvivesIffReported(m, SyncedRows(m, repo, got, now), repo, got, id);
      }
    }
  }

  lemma SurvivesIffReported(m: Mirror, m': Mirror, repo: nat, got: seq<Artifact>, id: nat)
    requires id in m.rows && m.rows[id].repo == repo && CachedTags(m', repo) == ReportedTags(got)
    requires forall k :: k in m.rows && (m.rows[k].repo != repo || m.rows[k].tag in ReportedTags(got)) ==>
      k in m'.rows && SameKey(m'.rows[k], m.rows[k])
    requires id in m'.rows ==> SameKey(m'.rows[id], m.rows[id])
    ensures id in m'.rows <==> m.rows[id].tag in ReportedTags(got)
  {
    assert id in m'.rows ==> m'.rows[id].tag in CachedTags(m', repo);
  }

  lemma TagsKept(list: seq<Artifact>, missing: set<int>, tag: string)
    ensures tag in ReportedTags(Kept(list, missing, PageCount(Served(list, 1))))
            <==> tag != "" && Answered(list, missing, tag)
  {
    var n := PageCount(Served(list, 1));
    var got := Kept(list, missing, n);
    ServerPages(list);
    hide Kept, Capped, PageCount, Served;
    if tag in ReportedTags(got) {
      var k :| 0 <= k < |got| && got[k].tag != "" && got[k].tag == tag;
      KeptHolds(list, missing, n, got[k]);
    }
    if tag != "" && Answered(list, missing, tag) {
      var i :| 0 <= i < |list| && i < PAGE_SIZE * MAX_PAGES && list[i].tag == tag && PageOf(i) !in missing;
      KeptHolds(list, missing, n, list[i]);
      var k :| 0 <= k < |got| && got[k] == list[i];
      TagIsReported(got, k);
    }
  }

  // ── Syncing again ──

  ghost predicate AllPresent(m: Mirror, repo: nat, list: seq<Artifact>) {
    forall i :: 0 <= i < |list| && list[i].tag != "" ==> exists id :: Has(m, id, repo, list[i].tag, list[i].digest)
  }

  lemma {:induction false} NothingToInsert(m: Mirror, repo: nat, list: seq<Artifact>, now: string)
    requires Valid(m) && repo in m.repos && AllPresent(m, repo, list)
    ensures var m' := UpsertAll(m, repo, list, now); m'.rows.Keys == m.rows.Keys && m'.nextRow == m.nextRow
  {
    if list != [] {
      var n := |list| - 1;
      NothingToInsert(m, repo, list[..n], now);
      UpsertAllUpserts(m, repo, list[..n], now);
      var before, art := UpsertAll(m, repo, list[..n], now), list[n];
      if art.tag != "" {
        var id :| Has(m, id, repo, art.tag, art.digest);
        assert SameKey(m.rows[id], before.rows[id]);
        assert Has(before, id, repo, art.tag, art.digest);
      }
    }
  }

  /** Syncing the same answer twice changes only `last_sync`, also when keys are repeated in it. */
  lemma ResyncOnlyStamps(m: Mirror, repo: nat, list: seq<Artifact>, now: string, later: string)
    requires Valid(m) && repo in m.repos
    ensures var once := SyncedRows(m, repo, list, now);
            var twice := SyncedRows(once, repo, list, later);
            && twice.repos == once.repos && twice.nextRepo == once.nextRepo && twice.nextRow == once.nextRow
            && twice.rows.Keys == once.rows.Keys
            && forall id :: id in once.rows ==>
                 twice.rows[id] == if Touched(once, id, repo, list) then once.rows[id].(lastSync := later)
                   else once.rows[id]
  {
    var once := SyncedRows(m, repo, list, now);
    var twice := SyncedRows(once, repo, list, later);
    SyncMirrors(m, repo, list, now);
    SyncMirrors(once, repo, list, later);
    hide Upsert;
    KeysStay(m, repo, list, now, later);
    hide UpsertAll, SyncedRows, CachedTags, ReportedTags, Stored;
    forall id | id in once.rows
      ensures twice.rows[id] == if Touched(once, id, repo, list) then once.rows[id].(lastSync := later)
        else once.rows[id]
    {
      RowAfterResync(once, twice, repo, list, now, later, id);
    }
  }

  lemma KeysStay(m: Mirror, repo: nat, list: seq<Artifact>, now: string, later: string)
    requires Valid(m) && repo in m.repos
    ensures var once := SyncedRows(m, repo, list, now);
            var twice := SyncedRows(once, repo, list, later);
            twice.rows.Keys == once.rows.Keys && twice.nextRow == once.nextRow
            && forall id :: id in once.rows ==> SameKey(once.rows[id], twice.rows[id])
  {
    var once := SyncedRows(m, repo, list, now);
    SyncMirrors(m, repo, list, now);
    StoredArePresent(once, repo, list, now);
    hide Valid, AllPresent, Stored, UpsertAll;
    var mid := UpsertAll(once, repo, list, later);
    NothingToInsert(once, repo, list, later);
    UpsertAllUpserts(once, repo, list, later);
    hide SyncedRows;
    NothingToDelete(once, mid, repo, ReportedTags(list));
    SyncedIs(once, repo, list, later);
  }

  lemma SyncedIs(m: Mirror, repo: nat, list: seq<Artifact>, now: string)
    ensures SyncedRows(m, repo, list, now) == DeleteGone(UpsertAll(m, repo, list, now), repo, ReportedTags(list))
  {
  }

  lemma StoredArePresent(m: Mirror, repo: nat, list: seq<Artifact>, now: string)
    requires Stored(m, repo, list, now)
    ensures AllPresent(m, repo, list)
  {
    forall i | 0 <= i < |list| && list[i].tag != ""
      ensures exists id :: Has(m, id, repo, list[i].tag, list[i].digest)
    {
      assert Reports(list, i, list[i].tag, list[i].digest);
      LastOfReports(list, i, list[i].tag, list[i].digest);
    }
  }

  lemma NothingToDelete(once: Mirror, mid: Mirror, repo: nat, tags: set<string>)
    requires mid.rows.Keys == once.rows.Keys && forall id :: id in once.rows ==> SameKey(once.rows[id], mid.rows[id])
    requires tags != {} ==> CachedTags(once, repo) == tags
    ensures DeleteGone(mid, repo, tags) == mid
  {
    assert forall id :: id in once.rows && once.rows[id].repo == repo ==> once.rows[id].tag in CachedTags(once, repo);
  }

  lemma RowAfterResync(once: Mirror, twice: Mirror, repo: nat, list: seq<Artifact>, now: string, later: string, id: nat)
    requires Valid(once) && Valid(twice) && id in once.rows && id in twice.rows
      && SameKey(once.rows[id], twice.rows[id])
    requires Stored(once, repo, list, now) && Stored(twice, repo, list, later)
    requires forall id :: id in twice.rows && !Touched(twice, id, repo, list) ==>
      id in once.rows && twice.rows[id] == once.rows[id]
    ensures twice.rows[id] == if Touched(once, id, repo, list) then once.rows[id].(lastSync := later) else once.rows[id]
  {
    var tag, digest := once.rows[id].tag, once.rows[id].digest;
    if Touched(once, id, repo, list) {
      var i :| Reports(list, i, tag, digest);
      LastOfReports(list, i, tag, digest);
      var j :| LastReport(list, j, tag, digest);
      var a :| Has(once, a, repo, tag, digest) && once.rows[a] == Row(repo, tag, digest, list[j].details, now);
      var b :| Has(twice, b, repo, tag, digest) && twice.rows[b] == Row(repo, tag, digest, list[j].details, later);
      assert Has(once, a, once.rows[id].repo, once.rows[id].tag, once.rows[id].digest);
      assert Has(twice, b, twice.rows[id].repo, twice.rows[id].tag, twice.rows[id].digest);
    }
  }

  // ── Syncing everything ──

  /** The tags cached for a repository, by name. */
  function TagsOf(m: Mirror, repo: Repo): set<string> {
    set id | id in m.rows && m.rows[id].repo in m.repos && m.repos[m.rows[id].repo] == repo :: m.rows[id].tag
  }

  datatype Job = Job(repo: Repo, listing: Listing, now: string)

  function DropUnmapped(m: Mirror, mapped: set<Repo>): Mirror {
    m.(repos := map id | id in m.repos && m.repos[id] in mapped :: m.repos[id],
       rows := map id | id in m.rows && !(m.rows[id].repo in m.repos && m.repos[m.rows[id].repo] !in mapped) ::
         m.rows[id])
  }

  function DropEmpty(m: Mirror): Mirror {
    m.(repos := map id | id in m.repos && exists row :: row in m.rows && m.rows[row].repo == id :: m.repos[id])
  }

  /** The repositories one after the other; an unreachable or denying registry ends the run and
      keeps what was synced so far. */
  ghost function SyncEach(m: Mirror, jobs: seq<Job>): (Mirror, Result<nat, FetchError>)
    decreases |jobs|
  {
    if jobs == [] then (m, Success(0))
    else
      var (m', r) := SyncedRepo(m, jobs[0].repo, jobs[0].listing, jobs[0].now);
      if r.Failure? then (m', r)
      else
        var (end, total) := SyncEach(m', jobs[1..]);
        (end, if total.Success? then Success(r.value + total.value) else total)
  }

  function Mapped(jobs: seq<Job>): set<Repo> {
    set i | 0 <= i < |jobs| :: jobs[i].repo
  }

  ghost function SyncedAll(m: Mirror, jobs: seq<Job>): (Mirror, Result<nat, FetchError>) {
    SyncEach(DropEmpty(DropUnmapped(m, Mapped(jobs))), jobs)
  }

  /** The number a sync reports is that of the artifacts with a tag; a listing that broke off counts
      as none and leaves everything as it was, and so does an error, which is passed on. */
  lemma SyncReports(m: Mirror, repo: Repo, listing: Listing, now: string)
    ensures var (m', r) := SyncedRepo(m, repo, listing, now);
            && (listing.Artifacts? ==>
                r == Success(|set i | 0 <= i < |listing.list| && listing.list[i].tag != ""|))
            && (!listing.Artifacts? ==> m' == m && r == if listing.Broken? then Success(0) else Failure(listing.error))
  {
    if listing.Artifacts? {
      CountIsSize(listing.list);
    }
  }

  lemma {:induction false} CountIsSize(list: seq<Artifact>)
    ensures CountTagged(list) == |set i | 0 <= i < |list| && list[i].tag != ""|
  {
    if list != [] {
      var n := |list| - 1;
      CountIsSize(list[..n]);
      OneMoreTagged(list, n);
    }
  }

  lemma OneMoreTagged(list: seq<Artifact>, n: nat)
    requires n == |list| - 1
    ensures |set i | 0 <= i < |list| && list[i].tag != ""|
      == |set i | 0 <= i < n && list[..n][i].tag != ""| + if list[n].tag != "" then 1 else 0
  {
    var before := set i | 0 <= i < n && list[..n][i].tag != "";
    var now := set i | 0 <= i < |list| && list[i].tag != "";
    if list[n].tag != "" {
      assert now == before + {n} && n !in before;
    } else {
      assert now == before;
    }
  }

  /** A full sync adds up what its repositories report; the first one that is unreachable or denied
      ends it with that error, and what was synced before stays. */
  lemma {:induction false} SyncEachAppends(m: Mirror, jobs: seq<Job>, job: Job)
    ensures var (mid, r) := SyncEach(m, jobs);
            var (m', one) := SyncedRepo(mid, job.repo, job.listing, job.now);
            SyncEach(m, jobs + [job])
              == if r.Failure? then (mid, r) else (m', if one.Success? then Success(r.value + one.value) else one)
    decreases |jobs|
  {
    hide SyncedRepo;
    if jobs == [] {
      assert [job][1..] == [];
      var (m', one) := SyncedRepo(m, job.repo, job.listing, job.now);
      assert SyncEach(m, [job]) == (m', if one.Success? then Success(0 + one.value) else one);
      assert jobs + [job] == [job];
    } else {
      assert (jobs + [job])[1..] == jobs[1..] + [job];
      SyncEachAppends(SyncedRepo(m, jobs[0].repo, jobs[0].listing, jobs[0].now).0, jobs[1..], job);
    }
  }

  lemma OneRepoTags(m: Mirror, repo: Repo, listing: Listing, now: string, other: Repo)
    requires Valid(m) && !listing.Failed?
    ensures var m' := SyncedRepo(m, repo, listing, now).0;
            && m'.repos.Values == m.repos.Values + (if listing.Artifacts? then {repo} else {})
            && TagsOf(m', other) == NewTags(TagsOf(m, other), other, Job(repo, listing, now))
  {
    if listing.Artifacts? {
      var list := listing.list;
      var (ready, id) := EnsureRepo(m, repo);
      EnsureKeepsValid(m, repo);
      hide EnsureRepo;
      TagsStay(m, ready, other);
      var m' := SyncedRows(ready, id, list, now);
      SyncMirrors(ready, id, list, now);
      TagsOfIsCached(m', id);
      if other != repo {
        OtherTagsStay(ready, m', id, list, other);
      }
    }
  }

  lemma TagsStay(m: Mirror, ready: Mirror, repo: Repo)
    requires Valid(m) && ready.rows == m.rows
    requires forall i :: i in m.repos ==> i in ready.repos && ready.repos[i] == m.repos[i]
    ensures TagsOf(ready, repo) == TagsOf(m, repo)
  {
  }

  lemma TagsOfIsCached(m: Mirror, id: nat)
    requires Valid(m) && id in m.repos
    ensures TagsOf(m, m.repos[id]) == CachedTags(m, id)
  {
  }

  lemma OtherTagsStay(m: Mirror, m': Mirror, repo: nat, list: seq<Artifact>, other: Repo)
    requires repo in m.repos && m.repos[repo] != other && m'.repos == m.repos
    requires forall id :: id in m'.rows && !Touched(m', id, repo, list) ==> id in m.rows && m'.rows[id] == m.rows[id]
    requires forall id :: id in m.rows && m.rows[id].repo != repo ==> id in m'.rows && SameKey(m'.rows[id], m.rows[id])
    ensures TagsOf(m', other) == TagsOf(m, other)
  {
  }

  /** What one answer leaves for a repository: the tags reported for it, if there are any. */
  function NewTags(tags: set<string>, repo: Repo, job: Job): set<string> {
    var reported := if job.repo == repo && job.listing.Artifacts? then ReportedTags(job.listing.list) else {};
    if reported != {} then reported else tags
  }

  /** What a run leaves for one repository: its last answer that had tags, or what was there. */
  function FinalTags(tags: set<string>, repo: Repo, jobs: seq<Job>): set<string>
    decreases |jobs|
  {
    if jobs == [] then tags
    else FinalTags(NewTags(tags, repo, jobs[0]), repo, jobs[1..])
  }

  function Listed(jobs: seq<Job>): set<Repo> {
    if jobs == [] then {} else (if jobs[0].listing.Artifacts? then {jobs[0].repo} else {}) + Listed(jobs[1..])
  }

  lemma {:induction false} SyncEachTags(m: Mirror, jobs: seq<Job>, repo: Repo)
    requires Valid(m) && forall i :: 0 <= i < |jobs| ==> !jobs[i].listing.Failed?
    ensures var (m', r) := SyncEach(m, jobs);
            && Valid(m') && r.Success?
            && m'.repos.Values == m.repos.Values + Listed(jobs)
            && TagsOf(m', repo) == FinalTags(TagsOf(m, repo), repo, jobs)
    decreases |jobs|
  {
    if jobs != [] {
      var job := jobs[0];
      SyncKeepsValid(m, job.repo, job.listing, job.now);
      OneRepoTags(m, job.repo, job.listing, job.now, repo);
      var m' := SyncedRepo(m, job.repo, job.listing, job.now).0;
      SyncEachTags(m', jobs[1..], repo);
      hide Valid, TagsOf;
    }
  }

  lemma DropUnmappedKeeps(m: Mirror, mapped: set<Repo>, repo: Repo)
    requires Valid(m)
    ensures var m' := DropUnmapped(m, mapped);
            && Valid(m') && TagsOf(m', repo) == (if repo in mapped then TagsOf(m, repo) else {})
            && forall id :: id in m'.repos ==> m'.repos[id] in mapped
  {
    var m' := DropUnmapped(m, mapped);
    assert forall i, r, t, d :: Has(m', i, r, t, d) ==> Has(m, i, r, t, d);
    forall id | id in m.rows && m.repos[m.rows[id].repo] == repo && repo in mapped
      ensures m.rows[id].tag in TagsOf(m', repo)
    {
      assert id in m'.rows && m'.rows[id] == m.rows[id];
    }
  }

  lemma DropEmptyIsValid(m: Mirror)
    requires Valid(m)
    ensures Valid(DropEmpty(m)) && forall row :: row in m.rows ==> m.rows[row].repo in m.repos
  {
    assert forall i, r, t, d :: Has(DropEmpty(m), i, r, t, d) <==> Has(m, i, r, t, d);
  }

  lemma DropEmptyKeeps(m: Mirror, repo: Repo)
    requires Valid(m)
    ensures var m' := DropEmpty(m);
            && Valid(m') && TagsOf(m', repo) == TagsOf(m, repo)
            && (repo in m'.repos.Values <==> TagsOf(m, repo) != {})
  {
    var m' := DropEmpty(m);
    DropEmptyIsValid(m);
    assert forall row :: row in m.rows ==> m.rows[row].repo in m'.repos;
    hide Valid;
    if tag :| tag in TagsOf(m, repo) {
      var row :| row in m.rows && m.rows[row].repo in m.repos && m.repos[m.rows[row].repo] == repo
        && m.rows[row].tag == tag;
      assert m'.repos[m.rows[row].repo] == repo;
    }
    if repo in m'.repos.Values {
      var id :| id in m'.repos && m'.repos[id] == repo;
      var row :| row in m.rows && m.rows[row].repo == id;
      assert m.rows[row].tag in TagsOf(m, repo);
    }
  }

  lemma DropsKeep(m: Mirror, mapped: set<Repo>, repo: Repo)
    requires Valid(m)
    ensures var m' := DropEmpty(DropUnmapped(m, mapped));
            && Valid(m')
            && TagsOf(m', repo) == (if repo in mapped then TagsOf(m, repo) else {})
            && (repo in m'.repos.Values <==> repo in mapped && TagsOf(m, repo) != {})
  {
    DropUnmappedKeeps(m, mapped, repo);
    DropEmptyKeeps(DropUnmapped(m, mapped), repo);
    hide Valid, TagsOf, DropEmpty, DropUnmapped;
  }

  /** After a full sync that no failure cut short, no unmapped repository is left, a mapped one is
      listed if the registry answered for it or tags of it are cached, and its cached tags are those
      of its last answer that had any. */
  lemma FullSyncMirrors(m: Mirror, jobs: seq<Job>, repo: Repo)
    requires Valid(m) && forall i :: 0 <= i < |jobs| ==> !jobs[i].listing.Failed?
    ensures var (m', r) := SyncedAll(m, jobs);
            && Valid(m') && r.Success?
            && (repo in m'.repos.Values <==> repo in Listed(jobs) || (repo in Mapped(jobs) && TagsOf(m, repo) != {}))
            && TagsOf(m', repo) == if repo in Mapped(jobs) then FinalTags(TagsOf(m, repo), repo, jobs) else {}
  {
    DropsKeep(m, Mapped(jobs), repo);
    SyncEachTags(DropEmpty(DropUnmapped(m, Mapped(jobs))), jobs, repo);
    hide Valid, TagsOf, DropEmpty, DropUnmapped, SyncEach;
    if repo !in Mapped(jobs) {
      NoTagsWithoutJob(repo, jobs);
    }
  }

  lemma {:induction false} NoTagsWithoutJob(repo: Repo, jobs: seq<Job>)
    requires repo !in Mapped(jobs)
    ensures FinalTags({}, repo, jobs) == {} && repo !in Listed(jobs)
  {
    if jobs != [] {
      assert jobs[0].repo in Mapped(jobs);
      assert forall i :: 0 <= i < |jobs[1..]| ==> jobs[1..][i].repo in Mapped(jobs) by {
        assert forall i :: 0 <= i < |jobs[1..]| ==> jobs[1..][i] == jobs[i + 1];
      }
      NoTagsWithoutJob(repo, jobs[1..]);
    }
  }

  // ── The service ──

  class Registry {
    var repos: map<nat, Repo>
    var rows: map<nat, Row>
    var nextRepo: nat
    var nextRow: nat

    function View(): Mirror
      reads this
    {
      Mirror(repos, rows, nextRepo, nextRow)
    }

    constructor ()
      ensures Valid(View()) && repos == map[] && rows == map[]
    {
      repos, rows, nextRepo, nextRow := map[], map[], 0, 0;
    }

    method UpsertRow(repo: nat, art: Artifact, now: string)
      requires Valid(View())
      modifies this
      ensures View() == Upsert(old(View()), repo, art, now)
    {
      ghost var m := View();
      if exists id :: id in rows && rows[id].repo == repo && rows[id].tag == art.tag && rows[id].digest == art.digest {
        var id :| id in rows && rows[id].repo == repo && rows[id].tag == art.tag && rows[id].digest == art.digest;
        assert Has(m, id, repo, art.tag, art.digest);
        assert forall j :: Has(m, j, repo, art.tag, art.digest) ==>
          Has(m, j, rows[id].repo, rows[id].tag, rows[id].digest);
        rows := rows[id := rows[id].(details := art.details, lastSync := now)];
      } else {
        assert forall j :: Has(m, j, repo, art.tag, art.digest) ==> j in rows;
        rows := rows[nextRow := Row(repo, art.tag, art.digest, art.details, now)];
        nextRow := nextRow + 1;
      }
    }

    method RepoId(repo: Repo) returns (id: nat)
      requires Valid(View())
      modifies this
      ensures (View(), id) == EnsureRepo(old(View()), repo)
    {
      if exists i :: i in repos && repos[i] == repo {
        id :| id in repos && repos[id] == repo;
      } else {
        id := nextRepo;
        repos := repos[id := repo];
        nextRepo := nextRepo + 1;
      }
    }

    method UpsertList(repo: nat, list: seq<Artifact>, now: string) returns (count: nat)
      requires Valid(View()) && repo in repos
      modifies this
      ensures View() == UpsertAll(old(View()), repo, list, now) && count == CountTagged(list)
    {
      ghost var start := View();
      count := 0;
      for i := 0 to |list|
        invariant View() == UpsertAll(start, repo, list[..i], now) && count == CountTagged(list[..i])
      {
        assert list[..i + 1][..i] == list[..i];
        UpsertAllKeepsValid(start, repo, list[..i], now);
        hide Upsert, Valid;
        if list[i].tag != "" {
          UpsertRow(repo, list[i], now);
          count := count + 1;
        }
      }
      assert list[..|list|] == list;
    }

    method SyncRepo(repo: Repo, listing: Listing, now: string) returns (r: Result<nat, FetchError>)
      requires Valid(View())
      modifies this
      ensures (View(), r) == SyncedRepo(old(View()), repo, listing, now) && Valid(View())
    {
      SyncKeepsValid(View(), repo, listing, now);
      if listing.Failed? {
        return Failure(listing.error);
      }
      if listing.Broken? {
        return Success(0);
      }
      EnsureKeepsValid(View(), repo);
      hide Valid, EnsureRepo, UpsertAll;
      var id := RepoId(repo);
      var count := UpsertList(id, listing.list, now);
      var tags := ReportedTags(listing.list);
      if tags != {} {
        rows := map k | k in rows && !(rows[k].repo == id && rows[k].tag !in tags) :: rows[k];
      }
      r := Success(count);
    }

    /** The two cleanups: unmapped repositories with their rows, then repositories without rows. */
    method CleanUp(mapped: set<Repo>)
      modifies this
      ensures View() == DropEmpty(DropUnmapped(old(View()), mapped))
    {
      rows := map id | id in rows && !(rows[id].repo in repos && repos[rows[id].repo] !in mapped) :: rows[id];
      repos := map id | id in repos && repos[id] in mapped :: repos[id];
      repos := map id | id in repos && exists row :: row in rows && rows[row].repo == id :: repos[id];
    }

    method SyncAll(jobs: seq<Job>) returns (r: Result<nat, FetchError>)
      requires Valid(View())
      modifies this
      ensures (View(), r) == SyncedAll(old(View()), jobs)
    {
      hide Valid, SyncedRepo, DropEmpty, DropUnmapped;
      var mapped := Mapped(jobs);
      DropsKeep(View(), mapped, Repo("", ""));
      CleanUp(mapped);
      ghost var clean := View();
      var total := 0;
      assert jobs[0..] == jobs;
      for i := 0 to |jobs|
        invariant Valid(View())
        invariant var (end, rest) := SyncEach(View(), jobs[i..]);
                  SyncEach(clean, jobs) == (end, if rest.Success? then Success(total + rest.value) else rest)
      {
        assert jobs[i..][0] == jobs[i] && jobs[i..][1..] == jobs[i + 1..];
        var one := SyncRepo(jobs[i].repo, jobs[i].listing, jobs[i].now);
        if one.Failure? {
          return one;
        }
        total := total + one.value;
      }
      r := Success(total);
    }
  }
}
