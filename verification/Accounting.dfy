/** The scan summary against the rows: what each counter means once the scan is over. */
module Accounting {
  import opened Prelude
  import opened Catalog
  import opened Ingest
  import opened Upkeep
  import opened Scan

  ghost function RowsOf(db: Db, library: nat): set<nat>
    requires ForeignKeys(db)
  {
    set f | f in db.files && LibraryOf(db, f) == library
  }

  /** The rows of every other library. */
  ghost function Elsewhere(db: Db, library: nat): map<nat, File>
    requires ForeignKeys(db)
  {
    map f | f in db.files && LibraryOf(db, f) != library :: db.files[f]
  }

  /** What a walk of k files has done to the tables so far, in terms of its own counters. */
  ghost predicate Tally(start: Db, library: nat, p: Progress, k: nat) {
    && ForeignKeys(start) && ForeignKeys(p.db)
    && p.sum.seen == k == p.sum.added + p.sum.changed + p.sum.same + p.sum.errors
    && p.sum.removed == 0
    && |RowsOf(p.db, library)| == |RowsOf(start, library)| + p.sum.added
    && |ItemsOf(p.db, library)| <= |ItemsOf(start, library)| + p.sum.itemsAdded
    && Elsewhere(p.db, library) == Elsewhere(start, library)
  }

  lemma UpsertLibraries(db: Db, next: Db, item: nat, season: nat, file: nat)
    requires ForeignKeys(db) && ForeignKeys(next) && Upserts(db, next, item, season, file)
    ensures forall f | f in db.files && f != file :: LibraryOf(next, f) == LibraryOf(db, f)
    ensures LibraryOf(next, file) == next.items[item].library
    ensures file in db.files ==> LibraryOf(db, file) == next.items[item].library
  {
    forall f | f in db.files && f != file ensures LibraryOf(next, f) == LibraryOf(db, f) {
      assert next.files[f] == db.files[f];
      var s := db.files[f].season;
      assert next.seasons[s] == db.seasons[s];
    }
    if file in db.files {
      assert IsFile(db.files, season, next.files[file].path, file);
    }
  }

  lemma UpsertAddsOneRow(db: Db, next: Db, item: nat, season: nat, file: nat)
    requires ForeignKeys(db) && ForeignKeys(next) && Upserts(db, next, item, season, file)
    ensures var library := next.items[item].library;
            && RowsOf(next, library) == RowsOf(db, library) + {file}
            && (file in RowsOf(db, library) <==> file in db.files)
            && Elsewhere(next, library) == Elsewhere(db, library)
            && ItemsOf(next, library) == ItemsOf(db, library) + {item}
            && (item in ItemsOf(db, library) <==> item in db.items)
  {
    UpsertLibraries(db, next, item, season, file);
    assert forall f :: f in next.files <==> f in db.files || f == file;
  }

  lemma RetouchKeepsRows(db: Db, next: Db, library: nat)
    requires ForeignKeys(db) && ForeignKeys(next) && Retouches(db, next)
    ensures RowsOf(next, library) == RowsOf(db, library) && Elsewhere(next, library) == Elsewhere(db, library)
    ensures ItemsOf(next, library) == ItemsOf(db, library)
  {
    assert forall f <- db.files :: LibraryOf(next, f) == LibraryOf(db, f);
  }

  lemma UpsertCounts(db: Db, next: Db, item: nat, season: nat, file: nat)
    requires ForeignKeys(db) && ForeignKeys(next) && Upserts(db, next, item, season, file)
    ensures var library := next.items[item].library;
            && |RowsOf(next, library)| == |RowsOf(db, library)| + (if file in db.files then 0 else 1)
            && |ItemsOf(next, library)| <= |ItemsOf(db, library)| + (if item in db.items then 0 else 1)
            && Elsewhere(next, library) == Elsewhere(db, library)
  {
    var library := next.items[item].library;
    UpsertAddsOneRow(db, next, item, season, file);
    if file in db.files {
      assert RowsOf(next, library) == RowsOf(db, library);
    }
    if item in db.items {
      assert ItemsOf(next, library) == ItemsOf(db, library);
    }
  }

  /** One file's contribution to the rows and titles of its library. */
  ghost predicate Contributes(db: Db, next: Db, library: nat, s: Step) {
    && ForeignKeys(db) && ForeignKeys(next)
    && |RowsOf(next, library)| == |RowsOf(db, library)| + (if s.Committed? && s.outcome == FilesAdded then 1 else 0)
    && |ItemsOf(next, library)| <= |ItemsOf(db, library)| + (if s.created then 1 else 0)
    && Elsewhere(next, library) == Elsewhere(db, library)
  }

  lemma ProcessRows(db: Db, library: nat, path: Path, obs: Observation, force: bool)
    requires ForeignKeys(db) && ForeignKeys(After(db, Process(db, library, path, obs, force)))
    ensures var s := Process(db, library, path, obs, force); Contributes(db, After(db, s), library, s)
  {
    var s := Process(db, library, path, obs, force);
    if s.Committed? {
      ProcessUpserts(db, library, path, obs, force);
      UpsertCounts(db, s.db, s.item, s.season, s.file);
    }
  }

  /** Counters that move together with the rows. */
  lemma CountersFollow(start: Db, db: Db, next: Db, library: nat, p: Progress, q: Progress, s: Step, k: nat)
    requires p.db == db && q.db == next && q.sum == Counted(p.sum, s) && Tally(start, library, p, k)
    requires Contributes(db, next, library, s)
    ensures Tally(start, library, q, k + 1)
  {
  }

  ghost predicate KeepsTally(start: Db, library: nat, p: Progress, q: Progress, k: nat) {
    Tally(start, library, p, k) ==> Tally(start, library, q, k + 1)
  }

  lemma TurnTallies(start: Db, p: Progress, library: nat, v: Visit, force: bool, judge: Judge, q: Progress, k: nat)
    ensures Structural(p.db) && Turn(p, library, v, force, judge, q) ==> KeepsTally(start, library, p, q, k)
  {
    if Structural(p.db) && Turn(p, library, v, force, judge, q) && Tally(start, library, p, k) {
      var s := Process(p.db, library, v.path, v.obs, force);
      ProcessKeepsStructure(p.db, library, v.path, v.obs, force);
      ProcessRows(p.db, library, v.path, v.obs, force);
      TurnKeepsStructure(p, library, v, force, judge, q);
      RetouchKeepsRows(After(p.db, s), q.db, library);
      CountersFollow(start, p.db, q.db, library, p, q, s, k);
    }
  }

  lemma {:induction false} TallyWalk(trail: seq<Progress>, start: Db, library: nat, k: nat)
    requires k < |trail| && trail[0] == Progress(start, NOTHING_YET) && ForeignKeys(start)
    requires forall m: nat | m + 1 < |trail| :: KeepsTally(start, library, trail[m], trail[m + 1], m)
    ensures Tally(start, library, trail[k], k)
  {
    if k > 0 {
      TallyWalk(trail, start, library, k - 1);
      assert KeepsTally(start, library, trail[k - 1], trail[k - 1 + 1], k - 1);
    }
  }

  lemma WalkTallies(trail: seq<Progress>, start: Db, library: nat, walk: seq<Visit>, force: bool, judge: Judge)
    requires Structural(start) && IsWalk(trail, start, library, walk, force, judge)
    ensures Tally(start, library, trail[|walk|], |walk|)
  {
    forall m: nat | m + 1 < |trail| ensures KeepsTally(start, library, trail[m], trail[m + 1], m) {
      WalkKeepsStructure(trail, start, library, walk, force, judge, m);
      assert TurnAt(trail, library, walk, force, judge, m);
      TurnTallies(start, trail[m], library, walk[m], force, judge, trail[m + 1], m);
    }
    TallyWalk(trail, start, library, |walk|);
  }

  /** `next` is `db` less the rows in `gone`; the titles and seasons left are as they were. */
  ghost predicate Thinned(db: Db, next: Db, gone: set<nat>) {
    && next.files == db.files - gone
    && (forall s <- next.seasons :: s in db.seasons && next.seasons[s] == db.seasons[s])
    && (forall i <- next.items :: i in db.items && next.items[i] == db.items[i])
  }

  lemma SweepThins(db: Db, gone: seq<nat>)
    requires forall f <- gone :: f in db.files
    ensures Thinned(db, Swept(db, gone), set f | f in gone)
  {
  }

  lemma ThinnedRows(db: Db, next: Db, missing: set<nat>, library: nat, disk: set<Path>)
    requires ForeignKeys(db) && ForeignKeys(next) && Thinned(db, next, missing)
    requires missing == Missing(db, library, disk)
    ensures RowsOf(next, library) == RowsOf(db, library) - missing && missing <= RowsOf(db, library)
    ensures ItemsOf(next, library) <= ItemsOf(db, library)
    ensures Elsewhere(next, library) == Elsewhere(db, library)
  {
    assert forall f <- next.files :: LibraryOf(next, f) == LibraryOf(db, f);
  }

  lemma SweepRows(db: Db, next: Db, gone: seq<nat>, library: nat, disk: set<Path>)
    requires ForeignKeys(db) && ForeignKeys(next) && Lists(gone, Missing(db, library, disk))
    requires Thinned(db, next, set f | f in gone)
    ensures |RowsOf(next, library)| == |RowsOf(db, library)| - |gone|
    ensures |ItemsOf(next, library)| <= |ItemsOf(db, library)|
    ensures Elsewhere(next, library) == Elsewhere(db, library)
  {
    var missing := Missing(db, library, disk);
    assert (set f | f in gone) == missing;
    ThinnedRows(db, next, missing, library, disk);
    ListsSize(gone, missing);
    SubsetSize(ItemsOf(next, library), ItemsOf(db, library));
  }

  /** When a scan is over: every file seen is exactly one of added, changed, unchanged and failed;
      the library's row count has grown by exactly added - removed although failed files rolled
      back; items_added is an upper bound on the titles gained, since it is counted before commit;
      and no row of any other library has moved. */
  lemma ScanAccounts(trail: seq<Progress>, gone: seq<nat>, start: Db, library: nat, walk: seq<Visit>,
                     disk: set<Path>, force: bool, judge: Judge, end: Progress)
    requires Structural(start) && IsScan(trail, gone, start, library, walk, disk, force, judge, end)
    ensures Structural(end.db)
    ensures end.sum.seen == |walk| == end.sum.added + end.sum.changed + end.sum.same + end.sum.errors
    ensures |RowsOf(end.db, library)| == |RowsOf(start, library)| + end.sum.added - end.sum.removed
    ensures |ItemsOf(end.db, library)| <= |ItemsOf(start, library)| + end.sum.itemsAdded
    ensures Elsewhere(end.db, library) == Elsewhere(start, library)
  {
    ScanKeepsStructure(trail, gone, start, library, walk, disk, force, judge, end);
    WalkTallies(trail, start, library, walk, force, judge);
    SweepThins(trail[|walk|].db, gone);
    SweepRows(trail[|walk|].db, Swept(trail[|walk|].db, gone), gone, library, disk);
    RetouchKeepsRows(Swept(trail[|walk|].db, gone), end.db, library);
  }

  // ----- the summary against the outbox -----

  /** How many file events of that kind a log holds. */
  ghost function FileEvents(log: seq<Event>, change: FileChange): nat {
    if log == [] then 0
    else
      var e := log[|log| - 1];
      FileEvents(log[..|log| - 1], change) + if e.FileEvent? && e.change == change then 1 else 0
  }

  lemma {:induction false} FileEventsJoin(a: seq<Event>, b: seq<Event>, change: FileChange)
    ensures FileEvents(a + b, change) == FileEvents(a, change) + FileEvents(b, change)
    decreases |b|
  {
    if b == [] {
      assert a + b == a;
    } else {
      assert (a + b)[..|a + b| - 1] == a + b[..|b| - 1];
      FileEventsJoin(a, b[..|b| - 1], change);
    }
  }

  /** If all of `more` are file events of one kind, or none is a file event at all. */
  lemma {:induction false} Uniform(more: seq<Event>, kind: Option<FileChange>, change: FileChange)
    requires forall e <- more :: if kind.Some? then e.FileEvent? && e.change == kind.value else !e.FileEvent?
    ensures FileEvents(more, change) == if kind == Some(change) then |more| else 0
  {
    if more != [] {
      Uniform(more[..|more| - 1], kind, change);
      assert more[|more| - 1] in more;
    }
  }

  /** `next` is `log` and n more events, all file events of that kind (or none a file event). */
  ghost predicate Appends(log: seq<Event>, next: seq<Event>, kind: Option<FileChange>, n: nat) {
    && log <= next && (kind.Some? ==> |next| == |log| + n)
    && forall e <- next[|log|..] :: if kind.Some? then e.FileEvent? && e.change == kind.value else !e.FileEvent?
  }

  lemma AppendsCounts(log: seq<Event>, next: seq<Event>, kind: Option<FileChange>, n: nat)
    requires Appends(log, next, kind, n)
    ensures forall change :: FileEvents(next, change) == FileEvents(log, change) + if kind == Some(change) then n else 0
  {
    assert next == log + next[|log|..];
    forall change ensures FileEvents(next, change) == FileEvents(log, change) + if kind == Some(change) then n else 0 {
      FileEventsJoin(log, next[|log|..], change);
      Uniform(next[|log|..], kind, change);
    }
  }

  ghost function KindOf(s: Step): Option<FileChange> {
    if s.RolledBack? || s.outcome == FilesUnchanged then None
    else if s.outcome == FilesAdded then Some(Added) else Some(Changed)
  }

  lemma RescanAppends(db: Db, shelf: Shelf, f: nat, obs: Observation, force: bool)
    requires f in db.files
    ensures var s := Rescan(db, shelf, f, obs, force); Appends(db.log, After(db, s).log, KindOf(s), 1)
  {
    var s := Rescan(db, shelf, f, obs, force);
    if s.Committed? && s.outcome == FilesChanged {
      assert s.db.log[|db.log|..] == [s.db.log[|db.log|]];
    }
  }

  lemma InsertionAppends(db: Db, shelf: Shelf, path: Path, obs: Observation)
    ensures var s := Insertion(db, shelf, path, obs); Appends(db.log, After(db, s).log, KindOf(s), 1)
  {
    var s := Insertion(db, shelf, path, obs);
    if s.Committed? {
      assert s.db.log[|db.log|..] == [s.db.log[|db.log|]];
    }
  }

  lemma PlacementAppends(db: Db, shelf: Shelf, path: Path, obs: Observation, force: bool)
    ensures var s := Placement(db, shelf, path, obs, force); Appends(db.log, After(db, s).log, KindOf(s), 1)
  {
    var row := FindFile(db.files, shelf.season, path);
    if row.Some? {
      RescanAppends(db, shelf, row.value, obs, force);
    } else {
      InsertionAppends(db, shelf, path, obs);
    }
  }

  lemma ProcessAppends(db: Db, library: nat, path: Path, obs: Observation, force: bool)
    ensures var s := Process(db, library, path, obs, force); Appends(db.log, After(db, s).log, KindOf(s), 1)
  {
    if obs.found.Some? {
      PlacementAppends(db, Shelve(db, library, obs.found.value), path, obs, force);
    }
  }

  /** The counters agree with the file events since `start`, kind by kind, and with the files that failed. */
  ghost predicate Agrees(start: Db, p: Progress, failed: nat) {
    && FileEvents(p.db.log, Added) == FileEvents(start.log, Added) + p.sum.added
    && FileEvents(p.db.log, Changed) == FileEvents(start.log, Changed) + p.sum.changed
    && FileEvents(p.db.log, Removed) == FileEvents(start.log, Removed) + p.sum.removed
    && p.sum.errors == failed
  }

  lemma StepAgrees(start: Db, p: Progress, s: Step, mid: Db, q: Progress, failed: nat)
    requires Agrees(start, p, failed) && q.sum == Counted(p.sum, s) && mid == After(p.db, s)
    requires Appends(p.db.log, mid.log, KindOf(s), 1) && Appends(mid.log, q.db.log, None, 0)
    ensures Agrees(start, q, failed + if s.RolledBack? then 1 else 0)
  {
    AppendsCounts(p.db.log, mid.log, KindOf(s), 1);
    AppendsCounts(mid.log, q.db.log, None, 0);
  }

  lemma PassAppends(db: Db, removed: map<nat, Item>, library: nat, judge: Judge, next: Db)
    requires Pass(db, removed, library, judge, next)
    ensures Appends(db.log, next.log, None, 0)
  {
    var order :| Lists(order, ItemsOf(db, library) + removed.Keys) && next == RelabelledAll(db, removed, order, judge);
    PassRetouches(db, removed, order, judge);
  }

  lemma TurnAgrees(start: Db, p: Progress, library: nat, v: Visit, force: bool, judge: Judge, q: Progress, failed: nat)
    requires Agrees(start, p, failed) && Turn(p, library, v, force, judge, q)
    ensures Agrees(start, q, failed + if Process(p.db, library, v.path, v.obs, force).RolledBack? then 1 else 0)
  {
    var s := Process(p.db, library, v.path, v.obs, force);
    var mid := After(p.db, s);
    ProcessAppends(p.db, library, v.path, v.obs, force);
    if s.Committed? && q.sum.seen % RECLASSIFY_EVERY_N_FILES == 0 {
      PassAppends(s.db, map[], library, judge, q.db);
    }
    StepAgrees(start, p, s, mid, q, failed);
  }

  /** The transactions of a walk, one for each file. */
  ghost function Steps(trail: seq<Progress>, library: nat, walk: seq<Visit>, force: bool): seq<Step>
    requires |walk| <= |trail|
  {
    seq(|walk|, k requires 0 <= k < |walk| => Process(trail[k].db, library, walk[k].path, walk[k].obs, force))
  }

  /** The first n of them that rolled back. */
  ghost function Failed(steps: seq<Step>, n: nat): set<nat>
    requires n <= |steps|
  {
    set k: nat | k < n && steps[k].RolledBack?
  }

  lemma OneMoreWalked(steps: seq<Step>, n: nat)
    requires n < |steps|
    ensures |Failed(steps, n + 1)| == |Failed(steps, n)| + if steps[n].RolledBack? then 1 else 0
  {
    assert Failed(steps, n + 1) == if steps[n].RolledBack? then Failed(steps, n) + {n} else Failed(steps, n);
  }

  lemma {:induction false} WalkAgrees(trail: seq<Progress>, start: Db, library: nat, walk: seq<Visit>, force: bool,
                                      judge: Judge, steps: seq<Step>, n: nat)
    requires IsWalk(trail, start, library, walk, force, judge) && n <= |walk|
    requires steps == Steps(trail, library, walk, force)
    ensures Agrees(start, trail[n], |Failed(steps, n)|)
  {
    if n > 0 {
      var k := n - 1;
      WalkAgrees(trail, start, library, walk, force, judge, steps, k);
      assert TurnAt(trail, library, walk, force, judge, k);
      TurnAgrees(start, trail[k], library, walk[k], force, judge, trail[k + 1], |Failed(steps, k)|);
      OneMoreWalked(steps, k);
    } else {
      assert Failed(steps, 0) == {};
    }
  }

  lemma SweepAppends(db: Db, gone: seq<nat>)
    requires forall f <- gone :: f in db.files
    ensures Appends(db.log, Swept(db, gone).log, Some(Removed), |gone|)
  {
    SweptExactly(db, gone, Swept(db, gone));
  }

  lemma EndAgrees(start: Db, last: Progress, gone: seq<nat>, swept: Db, end: Progress, failed: nat)
    requires Agrees(start, last, failed) && last.sum.removed == 0 && end.sum == last.sum.(removed := |gone|)
    requires Appends(last.db.log, swept.log, Some(Removed), |gone|) && Appends(swept.log, end.db.log, None, 0)
    ensures Agrees(start, end, failed)
  {
    AppendsCounts(last.db.log, swept.log, Some(Removed), |gone|);
    AppendsCounts(swept.log, end.db.log, None, 0);
  }

  /** A scan's summary is what it wrote to the outbox: as many file.added, file.changed and file.removed events
      as it counted, and as many errors as files whose transaction rolled back. */
  lemma SummaryMatchesOutbox(trail: seq<Progress>, gone: seq<nat>, start: Db, library: nat, walk: seq<Visit>,
                             disk: set<Path>, force: bool, judge: Judge, end: Progress)
    requires Structural(start) && IsScan(trail, gone, start, library, walk, disk, force, judge, end)
    ensures FileEvents(end.db.log, Added) == FileEvents(start.log, Added) + end.sum.added
    ensures FileEvents(end.db.log, Changed) == FileEvents(start.log, Changed) + end.sum.changed
    ensures FileEvents(end.db.log, Removed) == FileEvents(start.log, Removed) + end.sum.removed
    ensures end.sum.errors == |Failed(Steps(trail, library, walk, force), |walk|)|
  {
    var steps := Steps(trail, library, walk, force);
    WalkAgrees(trail, start, library, walk, force, judge, steps, |walk|);
    WalkTallies(trail, start, library, walk, force, judge);
    var last := trail[|walk|];
    var swept := Swept(last.db, gone);
    SweepAppends(last.db, gone);
    PassAppends(swept, RemovedTitles(last.db, swept, library), library, judge, end.db);
    EndAgrees(start, last, gone, swept, end, |Failed(steps, |walk|)|);
  }
}
