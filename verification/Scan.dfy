/** A whole library scan: what it converges to, what a second one does, and what its summary counts. */
module Scan {
  import opened Prelude
  import opened Catalog
  import opened Ingest
  import opened Upkeep

  const RECLASSIFY_EVERY_N_FILES := 200

  datatype Visit = Visit(path: Path, obs: Observation)

  datatype Summary = Summary(seen: nat, itemsAdded: nat, added: nat, changed: nat, same: nat,
                             removed: nat, errors: nat)

  const NOTHING_YET := Summary(0, 0, 0, 0, 0, 0, 0)

  datatype Progress = Progress(db: Db, sum: Summary)

  /** The counters after one file: a title is counted as soon as it is created, even when the
      transaction then rolls back. */
  ghost function Counted(sum: Summary, s: Step): Summary {
    var n := sum.(seen := sum.seen + 1, itemsAdded := sum.itemsAdded + if s.created then 1 else 0);
    match s
    case RolledBack(_) => n.(errors := n.errors + 1)
    case Committed(_, FilesAdded, _, _, _, _) => n.(added := n.added + 1)
    case Committed(_, FilesChanged, _, _, _, _) => n.(changed := n.changed + 1)
    case Committed(_, FilesUnchanged, _, _, _, _) => n.(same := n.same + 1)
  }

  ghost function ItemsOf(db: Db, library: nat): set<nat> {
    set i | i in db.items && db.items[i].library == library
  }

  /** The titles of a library that `next` no longer has, as they last were. */
  ghost function RemovedTitles(db: Db, next: Db, library: nat): map<nat, Item> {
    map i | i in db.items && db.items[i].library == library && i !in next.items :: db.items[i]
  }

  /** Every title of the library, relabelled once, in whatever order the database hands them out; the
      titles this transaction has removed are still handed out with them. */
  ghost predicate Pass(db: Db, removed: map<nat, Item>, library: nat, judge: Judge, next: Db) {
    exists order :: Lists(order, ItemsOf(db, library) + removed.Keys) && next == RelabelledAll(db, removed, order, judge)
  }

  /** One turn of the scan loop. */
  ghost predicate Turn(p: Progress, library: nat, v: Visit, force: bool, judge: Judge, q: Progress) {
    var s := Process(p.db, library, v.path, v.obs, force);
    && q.sum == Counted(p.sum, s)
    && (if s.Committed? && q.sum.seen % RECLASSIFY_EVERY_N_FILES == 0 then Pass(s.db, map[], library, judge, q.db)
        else q.db == After(p.db, s))
  }

  ghost predicate TurnAt(trail: seq<Progress>, library: nat, walk: seq<Visit>, force: bool, judge: Judge, k: nat)
    requires |trail| == |walk| + 1 && k < |walk|
  {
    Turn(trail[k], library, walk[k], force, judge, trail[k + 1])
  }

  ghost predicate IsWalk(trail: seq<Progress>, start: Db, library: nat, walk: seq<Visit>, force: bool, judge: Judge) {
    && |trail| == |walk| + 1 && trail[0] == Progress(start, NOTHING_YET)
    && forall k | 0 <= k < |walk| :: TurnAt(trail, library, walk, force, judge, k)
  }

  lemma TurnAtGrows(trail: seq<Progress>, library: nat, walk: seq<Visit>, v: Visit, force: bool, judge: Judge,
                    q: Progress, k: nat)
    requires |trail| == |walk| + 1 && k <= |walk|
    requires if k < |walk| then TurnAt(trail, library, walk, force, judge, k)
             else Turn(trail[k], library, v, force, judge, q)
    ensures TurnAt(trail + [q], library, walk + [v], force, judge, k)
  {
    var p, w, next := (trail + [q])[k], (walk + [v])[k], (trail + [q])[k + 1];
    assert p == trail[k] && w == (if k < |walk| then walk[k] else v) && next == (if k < |walk| then trail[k + 1] else q);
  }

  lemma WalkGrows(trail: seq<Progress>, start: Db, library: nat, walk: seq<Visit>, v: Visit, force: bool,
                  judge: Judge, q: Progress)
    requires IsWalk(trail, start, library, walk, force, judge)
    requires Turn(trail[|walk|], library, v, force, judge, q)
    ensures IsWalk(trail + [q], start, library, walk + [v], force, judge)
  {
    forall k | 0 <= k < |walk + [v]| ensures TurnAt(trail + [q], library, walk + [v], force, judge, k) {
      TurnAtGrows(trail, library, walk, v, force, judge, q, k);
    }
  }

  /** The last transaction of a scan: what is gone from disk is pruned, then every title is relabelled. */
  ghost predicate Finishes(last: Progress, gone: seq<nat>, library: nat, disk: set<Path>, judge: Judge, end: Progress) {
    && ForeignKeys(last.db) && Lists(gone, Missing(last.db, library, disk))
    && var swept := Swept(last.db, gone);
    && Pass(swept, RemovedTitles(last.db, swept, library), library, judge, end.db)
    && end.sum == last.sum.(removed := |gone|)
  }

  /** A completed scan: the walk, then that transaction. */
  ghost predicate IsScan(trail: seq<Progress>, gone: seq<nat>, start: Db, library: nat, walk: seq<Visit>,
                         disk: set<Path>, force: bool, judge: Judge, end: Progress) {
    IsWalk(trail, start, library, walk, force, judge) && Finishes(trail[|walk|], gone, library, disk, judge, end)
  }

  // ----- structure -----

  lemma {:induction false} PassRetouches(db: Db, removed: map<nat, Item>, order: seq<nat>, judge: Judge)
    ensures var next := RelabelledAll(db, removed, order, judge);
            Retouches(db, next) && db.log <= next.log && forall e <- next.log[|db.log|..] :: !e.FileEvent?
    decreases |order|
  {
    if order != [] {
      var last := |order| - 1;
      PassRetouches(db, removed, order[..last], judge);
      var mid := RelabelledAll(db, removed, order[..last], judge);
      VisitRetouches(mid, removed, order[last], judge);
      var next := Visited(mid, removed, order[last], judge);
      assert next.log[|db.log|..] == mid.log[|db.log|..] + next.log[|mid.log|..];
    }
  }

  lemma PassIsHarmless(db: Db, removed: map<nat, Item>, library: nat, judge: Judge, next: Db)
    requires Structural(db) && Pass(db, removed, library, judge, next)
    ensures Structural(next) && Retouches(db, next)
    ensures db.log <= next.log && forall e <- next.log[|db.log|..] :: !e.FileEvent?
  {
    var order :| Lists(order, ItemsOf(db, library) + removed.Keys) && next == RelabelledAll(db, removed, order, judge);
    PassRetouches(db, removed, order, judge);
    RetouchKeepsStructure(db, next);
  }

  lemma TurnKeepsStructure(p: Progress, library: nat, v: Visit, force: bool, judge: Judge, q: Progress)
    requires Structural(p.db) && Turn(p, library, v, force, judge, q)
    ensures Structural(q.db) && Retouches(After(p.db, Process(p.db, library, v.path, v.obs, force)), q.db)
  {
    ProcessKeepsStructure(p.db, library, v.path, v.obs, force);
    var s := Process(p.db, library, v.path, v.obs, force);
    if s.Committed? && q.sum.seen % RECLASSIFY_EVERY_N_FILES == 0 {
      PassIsHarmless(s.db, map[], library, judge, q.db);
    }
  }

  lemma {:induction false} WalkKeepsStructure(trail: seq<Progress>, start: Db, library: nat, walk: seq<Visit>,
                                              force: bool, judge: Judge, k: nat)
    requires Structural(start) && IsWalk(trail, start, library, walk, force, judge) && k <= |walk|
    ensures Structural(trail[k].db)
  {
    if k > 0 {
      WalkKeepsStructure(trail, start, library, walk, force, judge, k - 1);
      assert TurnAt(trail, library, walk, force, judge, k - 1);
      TurnKeepsStructure(trail[k - 1], library, walk[k - 1], force, judge, trail[k]);
    }
  }

  lemma ScanKeepsStructure(trail: seq<Progress>, gone: seq<nat>, start: Db, library: nat, walk: seq<Visit>,
                           disk: set<Path>, force: bool, judge: Judge, end: Progress)
    requires Structural(start) && IsScan(trail, gone, start, library, walk, disk, force, judge, end)
    ensures Structural(trail[|walk|].db) && Structural(Swept(trail[|walk|].db, gone)) && Structural(end.db)
    ensures Retouches(Swept(trail[|walk|].db, gone), end.db)
  {
    WalkKeepsStructure(trail, start, library, walk, force, judge, |walk|);
    SweepKeepsStructure(trail[|walk|].db, gone);
    var swept := Swept(trail[|walk|].db, gone);
    PassIsHarmless(swept, RemovedTitles(trail[|walk|].db, swept, library), library, judge, end.db);
  }

  /** A scan that removes a title relabels it all the same: the events its last transaction writes about that
      title are the one that judging it without files calls for, exactly when that moves its last label. */
  lemma RemovedTitleEchoesExactlyWhen(last: Progress, gone: seq<nat>, library: nat, disk: set<Path>, judge: Judge,
                                      end: Progress, i: nat)
    requires Finishes(last, gone, library, disk, judge, end)
    requires i in last.db.items && last.db.items[i].library == library && i !in end.db.items
    ensures var before, item := Swept(last.db, gone).log, last.db.items[i];
            before <= end.db.log && OnlyEchoes(end.db.log[|before|..], i, EchoOf(i, item, judge), Echoes(item, judge))
  {
    var swept := Swept(last.db, gone);
    var removed := RemovedTitles(last.db, swept, library);
    var order :| Lists(order, ItemsOf(swept, library) + removed.Keys)
                 && end.db == RelabelledAll(swept, removed, order, judge);
    Upkeep.RemovedTitleEchoesExactlyWhen(swept, removed, order, judge, i);
  }

  // ----- convergence -----

  /** The disk does not change under the scan: one path, one answer, and every walked path exists. */
  ghost predicate FixedDisk(walk: seq<Visit>, disk: set<Path>) {
    && (forall v <- walk :: v.path in disk)
    && (forall i, j | 0 <= i < |walk| && 0 <= j < |walk| && walk[i].path == walk[j].path :: walk[i] == walk[j])
  }

  /** Row `f` is what a converged index holds for a visited path: filed under the title and season
      its match names, with its current fingerprint and mtime. */
  ghost predicate IsIndexRow(db: Db, library: nat, v: Visit, f: nat)
    requires ForeignKeys(db)
  {
    && f in db.files && db.files[f].path == v.path
    && v.obs.found.Some? && HomeOf(db, f) == Destination(library, v.obs.found.value)
    && v.obs.stat.Some? && db.files[f].body.fingerprint == Some(v.obs.stat.value.digest)
    && db.files[f].body.mtime == Some(v.obs.stat.value.mtime)
  }

  ghost predicate Indexed(db: Db, library: nat, v: Visit)
    requires ForeignKeys(db)
  {
    exists f :: IsIndexRow(db, library, v, f)
  }

  lemma CommittedIsIndexed(db: Db, library: nat, v: Visit, force: bool)
    requires Structural(db) && Process(db, library, v.path, v.obs, force).Committed?
    ensures var s := Process(db, library, v.path, v.obs, force);
            ForeignKeys(s.db) && IsIndexRow(s.db, library, v, s.file)
  {
    ProcessKeepsStructure(db, library, v.path, v.obs, force);
    ProcessUpserts(db, library, v.path, v.obs, force);
    CommittedIsCurrent(db, library, v, force);
  }

  lemma CommittedIsCurrent(db: Db, library: nat, v: Visit, force: bool)
    requires Process(db, library, v.path, v.obs, force).Committed?
    ensures var s := Process(db, library, v.path, v.obs, force);
            && s.file in s.db.files && v.obs.stat.Some?
            && s.db.files[s.file].body.fingerprint == Some(v.obs.stat.value.digest)
            && s.db.files[s.file].body.mtime == Some(v.obs.stat.value.mtime)
  {
    var shelf := Shelve(db, library, v.obs.found.value);
    var row := FindFile(db.files, shelf.season, v.path);
    if row.Some? {
      RescanIsCurrent(db, shelf, row.value, v.obs, force);
    }
  }

  lemma RescanIsCurrent(db: Db, shelf: Shelf, f: nat, obs: Observation, force: bool)
    requires f in db.files && Rescan(db, shelf, f, obs, force).Committed?
    ensures var s := Rescan(db, shelf, f, obs, force);
            && s.file == f && f in s.db.files && obs.stat.Some?
            && s.db.files[f].body.fingerprint == Some(obs.stat.value.digest)
            && s.db.files[f].body.mtime == Some(obs.stat.value.mtime)
  {
  }

  lemma UpsertKeepsIndexRow(db: Db, next: Db, item: nat, season: nat, file: nat, library: nat, v: Visit, f: nat)
    requires ForeignKeys(db) && ForeignKeys(next) && IsIndexRow(db, library, v, f)
    requires Upserts(db, next, item, season, file) && next.files[file].path != v.path
    ensures IsIndexRow(next, library, v, f)
  {
    var s := db.files[f].season;
    assert f != file && next.files[f] == db.files[f];
    assert next.seasons[s] == db.seasons[s];
  }

  lemma RetouchKeepsIndexed(db: Db, next: Db, library: nat, v: Visit)
    requires ForeignKeys(db) && ForeignKeys(next) && Retouches(db, next) && Indexed(db, library, v)
    ensures Indexed(next, library, v)
  {
    var f :| IsIndexRow(db, library, v, f);
    assert IsIndexRow(next, library, v, f);
  }

  lemma TurnIndexes(p: Progress, library: nat, v: Visit, w: Visit, force: bool, judge: Judge, q: Progress)
    requires Structural(p.db) && Turn(p, library, w, force, judge, q) && Structural(q.db)
    requires Process(p.db, library, w.path, w.obs, force).Committed?
    requires v == w || (v.path != w.path && Indexed(p.db, library, v))
    ensures Indexed(q.db, library, v)
  {
    var s := Process(p.db, library, w.path, w.obs, force);
    ProcessKeepsStructure(p.db, library, w.path, w.obs, force);
    TurnKeepsStructure(p, library, w, force, judge, q);
    if v == w {
      CommittedIsIndexed(p.db, library, w, force);
    } else {
      var f :| IsIndexRow(p.db, library, v, f);
      ProcessUpserts(p.db, library, w.path, w.obs, force);
      UpsertKeepsIndexRow(p.db, s.db, s.item, s.season, s.file, library, v, f);
    }
    RetouchKeepsIndexed(s.db, q.db, library, v);
  }

  ghost predicate CommitsAt(trail: seq<Progress>, library: nat, walk: seq<Visit>, force: bool, k: nat)
    requires |trail| == |walk| + 1 && k < |walk|
  {
    Process(trail[k].db, library, walk[k].path, walk[k].obs, force).Committed?
  }

  lemma {:induction false} ErrorsOnlyGrow(trail: seq<Progress>, start: Db, library: nat, walk: seq<Visit>,
                                          force: bool, judge: Judge, k: nat)
    requires IsWalk(trail, start, library, walk, force, judge) && k <= |walk|
    ensures trail[k].sum.errors <= trail[|walk|].sum.errors
    ensures trail[|walk|].sum.errors == 0 ==>
              forall m | k <= m < |walk| :: CommitsAt(trail, library, walk, force, m)
    decreases |walk| - k
  {
    if k < |walk| {
      ErrorsOnlyGrow(trail, start, library, walk, force, judge, k + 1);
      assert TurnAt(trail, library, walk, force, judge, k);
    }
  }

  ghost predicate SoundlyIndexed(db: Db, library: nat, v: Visit) {
    ForeignKeys(db) && Indexed(db, library, v)
  }

  /** What indexing does to one visited path at one turn. */
  ghost predicate CarriesOn(db: Db, next: Db, library: nat, v: Visit, w: Visit) {
    v == w || (v.path != w.path && SoundlyIndexed(db, library, v)) ==> SoundlyIndexed(next, library, v)
  }

  lemma IndexingTurn(trail: seq<Progress>, start: Db, library: nat, walk: seq<Visit>, force: bool, judge: Judge,
                     k: nat, v: Visit)
    requires Structural(start) && IsWalk(trail, start, library, walk, force, judge)
    requires k < |walk| && CommitsAt(trail, library, walk, force, k)
    ensures CarriesOn(trail[k].db, trail[k + 1].db, library, v, walk[k])
  {
    if v == walk[k] || (v.path != walk[k].path && SoundlyIndexed(trail[k].db, library, v)) {
      WalkKeepsStructure(trail, start, library, walk, force, judge, k);
      WalkKeepsStructure(trail, start, library, walk, force, judge, k + 1);
      assert TurnAt(trail, library, walk, force, judge, k);
      TurnIndexes(trail[k], library, v, walk[k], force, judge, trail[k + 1]);
    }
  }

  lemma {:induction false} CarriedAlong(trail: seq<Progress>, library: nat, walk: seq<Visit>, disk: set<Path>,
                                        k: nat, i: nat)
    requires |trail| == |walk| + 1 && FixedDisk(walk, disk) && i < k <= |walk|
    requires forall m | 0 <= m < |walk| :: CarriesOn(trail[m].db, trail[m + 1].db, library, walk[i], walk[m])
    ensures SoundlyIndexed(trail[k].db, library, walk[i])
    decreases k
  {
    if walk[i] != walk[k - 1] {
      CarriedAlong(trail, library, walk, disk, k - 1, i);
    }
    assert CarriesOn(trail[k - 1].db, trail[k - 1 + 1].db, library, walk[i], walk[k - 1]);
  }

  lemma WalkIndexes(trail: seq<Progress>, start: Db, library: nat, walk: seq<Visit>,
                    disk: set<Path>, force: bool, judge: Judge, i: nat)
    requires Structural(start) && IsWalk(trail, start, library, walk, force, judge)
    requires FixedDisk(walk, disk) && trail[|walk|].sum.errors == 0 && i < |walk|
    ensures SoundlyIndexed(trail[|walk|].db, library, walk[i])
  {
    ErrorsOnlyGrow(trail, start, library, walk, force, judge, 0);
    forall m | 0 <= m < |walk|
      ensures CarriesOn(trail[m].db, trail[m + 1].db, library, walk[i], walk[m])
    {
      assert CommitsAt(trail, library, walk, force, m);
      IndexingTurn(trail, start, library, walk, force, judge, m, walk[i]);
    }
    CarriedAlong(trail, library, walk, disk, |walk|, i);
  }

  lemma SweepKeepsIndexed(db: Db, gone: seq<nat>, library: nat, v: Visit, disk: set<Path>)
    requires ForeignKeys(db) && Lists(gone, Missing(db, library, disk)) && v.path in disk
    requires ForeignKeys(Swept(db, gone)) && Indexed(db, library, v)
    ensures Indexed(Swept(db, gone), library, v)
  {
    var f :| IsIndexRow(db, library, v, f);
    assert f !in gone;
    assert IsIndexRow(Swept(db, gone), library, v, f);
  }

  /** After an error-free completed scan of a fixed disk, every walked path has its one row (paths are
      unique), under the season its match names and with its current fingerprint and mtime; and every
      row of the library has its path on disk. */
  lemma ScanConverges(trail: seq<Progress>, gone: seq<nat>, start: Db, library: nat, walk: seq<Visit>,
                      disk: set<Path>, force: bool, judge: Judge, end: Progress)
    requires Structural(start) && IsScan(trail, gone, start, library, walk, disk, force, judge, end)
    requires FixedDisk(walk, disk) && end.sum.errors == 0
    ensures Structural(end.db)
    ensures forall v <- walk :: Indexed(end.db, library, v)
    ensures forall f <- end.db.files | LibraryOf(end.db, f) == library :: end.db.files[f].path in disk
  {
    ScanKeepsStructure(trail, gone, start, library, walk, disk, force, judge, end);
    var db := trail[|walk|].db;
    forall v <- walk ensures Indexed(end.db, library, v) {
      var i :| 0 <= i < |walk| && walk[i] == v;
      WalkIndexes(trail, start, library, walk, disk, force, judge, i);
      SweepKeepsIndexed(db, gone, library, v, disk);
      RetouchKeepsIndexed(Swept(db, gone), end.db, library, v);
    }
    NothingMissingAfter(db, gone, library, disk, end.db);
  }

  lemma NothingMissingAfter(db: Db, gone: seq<nat>, library: nat, disk: set<Path>, next: Db)
    requires ForeignKeys(db) && Lists(gone, Missing(db, library, disk))
    requires ForeignKeys(Swept(db, gone)) && ForeignKeys(next) && Retouches(Swept(db, gone), next)
    ensures Missing(next, library, disk) == {}
  {
    var mid := Swept(db, gone);
    forall f <- next.files ensures f !in Missing(next, library, disk) {
      assert f !in gone && f in db.files && mid.files[f] == db.files[f] && next.files[f] == db.files[f];
      assert LibraryOf(next, f) == LibraryOf(mid, f) == LibraryOf(db, f);
      assert f !in Missing(db, library, disk);
    }
  }

  // ----- the second scan -----

  /** Same files, same seasons, same titles; only the titles' own columns and relabel events may differ. */
  ghost predicate SameFiles(db: Db, next: Db) {
    && next.files == db.files && next.seasons == db.seasons && next.items.Keys == db.items.Keys
    && (forall i <- db.items ::
          next.items[i].library == db.items[i].library && next.items[i].title == db.items[i].title)
    && db.log <= next.log && (forall e <- next.log[|db.log|..] :: !e.FileEvent?)
  }

  lemma SameFilesReflexive(db: Db)
    ensures SameFiles(db, db)
  {
  }

  lemma SameFilesChains(a: Db, b: Db, c: Db)
    requires SameFiles(a, b) && SameFiles(b, c)
    ensures SameFiles(a, c)
  {
    assert c.log[|a.log|..] == b.log[|a.log|..] + c.log[|b.log|..];
  }

  lemma IndexedIsUnchanged(db: Db, library: nat, v: Visit)
    requires Structural(db) && Indexed(db, library, v)
    ensures var s := Process(db, library, v.path, v.obs, false);
            s.Committed? && s.outcome == FilesUnchanged && !s.created && SameFiles(db, s.db)
  {
    var f :| IsIndexRow(db, library, v, f);
    var m := v.obs.found.value;
    FoundIffHome(db, library, m, f);
    RowAtHomeIsUnchanged(db, library, v, f);
  }

  lemma RowAtHomeIsUnchanged(db: Db, library: nat, v: Visit, f: nat)
    requires ForeignKeys(db) && UniquePaths(db) && IsIndexRow(db, library, v, f)
    requires db.files[f].season == Shelve(db, library, v.obs.found.value).season
    ensures var s := Process(db, library, v.path, v.obs, false);
            s.Committed? && s.outcome == FilesUnchanged && !s.created && SameFiles(db, s.db)
  {
    var m := v.obs.found.value;
    ShelveUpserts(db, library, m);
    var shelf := Shelve(db, library, m);
    assert IsFile(db.files, shelf.season, v.path, f);
    assert shelf.season in db.seasons && shelf.item in db.items;
    assert shelf.seasons == db.seasons;
    assert FindFile(db.files, shelf.season, v.path) == Some(f);
  }

  ghost predicate OneMoreUnchanged(p: Progress, q: Progress) {
    SameFiles(p.db, q.db) && q.sum == p.sum.(seen := p.sum.seen + 1, same := p.sum.same + 1)
  }

  lemma QuietTurn(p: Progress, library: nat, s: Step, judge: Judge, q: Progress)
    requires s.Committed? && s.outcome == FilesUnchanged && !s.created && SameFiles(p.db, s.db)
    requires Structural(s.db) && q.sum == Counted(p.sum, s)
    requires q.db == s.db || Pass(s.db, map[], library, judge, q.db)
    ensures OneMoreUnchanged(p, q)
  {
    if q.db != s.db {
      PassIsHarmless(s.db, map[], library, judge, q.db);
      SameFilesChains(p.db, s.db, q.db);
    }
  }

  lemma TurnOverIndexed(p: Progress, library: nat, v: Visit, judge: Judge, q: Progress)
    requires Structural(p.db) && Indexed(p.db, library, v) && Turn(p, library, v, false, judge, q)
    ensures OneMoreUnchanged(p, q)
  {
    var s := Process(p.db, library, v.path, v.obs, false);
    IndexedIsUnchanged(p.db, library, v);
    ProcessKeepsStructure(p.db, library, v.path, v.obs, false);
    QuietTurn(p, library, s, judge, q);
  }

  lemma SameFilesKeepsIndexed(db: Db, next: Db, library: nat, v: Visit)
    requires Structural(db) && SameFiles(db, next) && Indexed(db, library, v)
    ensures Structural(next) && Indexed(next, library, v)
  {
    assert Retouches(db, next);
    RetouchKeepsStructure(db, next);
    RetouchKeepsIndexed(db, next, library, v);
  }

  /** An unforced walk so far over an index that already holds every visited path. */
  ghost predicate QuietSoFar(start: Db, p: Progress, k: nat) {
    SameFiles(start, p.db) && p.sum == NOTHING_YET.(seen := k, same := k)
  }

  ghost predicate Holds(db: Db, library: nat, walk: seq<Visit>) {
    Structural(db) && forall v <- walk :: Indexed(db, library, v)
  }

  ghost predicate StaysQuiet(start: Db, p: Progress, q: Progress, k: nat) {
    QuietSoFar(start, p, k) ==> QuietSoFar(start, q, k + 1)
  }

  lemma OneMoreQuietTurn(start: Db, p: Progress, library: nat, v: Visit, judge: Judge, q: Progress, k: nat)
    ensures Structural(start) && Indexed(start, library, v) && Turn(p, library, v, false, judge, q)
            ==> StaysQuiet(start, p, q, k)
  {
    if Structural(start) && Indexed(start, library, v) && QuietSoFar(start, p, k) {
      SameFilesKeepsIndexed(start, p.db, library, v);
      QuietAfterIndexed(start, p, library, v, judge, q, k);
    }
  }

  lemma QuietAfterIndexed(start: Db, p: Progress, library: nat, v: Visit, judge: Judge, q: Progress, k: nat)
    ensures Structural(p.db) && Indexed(p.db, library, v) && Turn(p, library, v, false, judge, q)
            ==> StaysQuiet(start, p, q, k)
  {
    QuietTurnsAdd(start, p, q, k);
    if Structural(p.db) && Indexed(p.db, library, v) && Turn(p, library, v, false, judge, q) {
      TurnOverIndexed(p, library, v, judge, q);
    }
  }

  lemma QuietTurnsAdd(start: Db, p: Progress, q: Progress, k: nat)
    ensures OneMoreUnchanged(p, q) ==> StaysQuiet(start, p, q, k)
  {
    if OneMoreUnchanged(p, q) && QuietSoFar(start, p, k) {
      SameFilesChains(start, p.db, q.db);
    }
  }

  lemma {:induction false} QuietWalk(trail: seq<Progress>, start: Db, k: nat)
    requires k < |trail| && trail[0] == Progress(start, NOTHING_YET)
    requires forall m: nat | m + 1 < |trail| :: StaysQuiet(start, trail[m], trail[m + 1], m)
    ensures QuietSoFar(start, trail[k], k)
  {
    if k == 0 {
      SameFilesReflexive(start);
    } else {
      QuietWalk(trail, start, k - 1);
      assert StaysQuiet(start, trail[k - 1], trail[k - 1 + 1], k - 1);
    }
  }

  lemma WalkOverIndexed(trail: seq<Progress>, start: Db, library: nat, walk: seq<Visit>, judge: Judge)
    requires Holds(start, library, walk) && IsWalk(trail, start, library, walk, false, judge)
    ensures QuietSoFar(start, trail[|walk|], |walk|)
  {
    forall m: nat | m + 1 < |trail| ensures StaysQuiet(start, trail[m], trail[m + 1], m) {
      assert walk[m] in walk && TurnAt(trail, library, walk, false, judge, m);
      OneMoreQuietTurn(start, trail[m], library, walk[m], judge, trail[m + 1], m);
    }
    QuietWalk(trail, start, |walk|);
  }

  lemma NothingToSweep(db: Db)
    requires ForeignKeys(db) && NoEmptyParents(db)
    ensures Swept(db, []) == db
  {
    assert db.files - (set f: nat | f in []) == db.files;
    assert Detached(db, []) == db;
    NothingIsEmpty(db);
  }

  lemma NothingIsEmpty(db: Db)
    requires ForeignKeys(db) && NoEmptyParents(db)
    ensures WithoutEmpties(db) == db
  {
    var seasons := map s | s in db.seasons && HasFile(db, s) :: db.seasons[s];
    assert seasons == db.seasons;
    assert db.(seasons := seasons) == db;
    assert (map i | i in db.items && HasSeason(db, i) :: db.items[i]) == db.items;
  }

  lemma SweepOverIndexed(start: Db, db: Db, gone: seq<nat>, library: nat, disk: set<Path>)
    requires Structural(start) && Missing(start, library, disk) == {}
    requires SameFiles(start, db) && Structural(db) && Lists(gone, Missing(db, library, disk))
    ensures gone == [] && Swept(db, gone) == db
  {
    forall f <- db.files ensures f !in Missing(db, library, disk) {
      assert LibraryOf(db, f) == LibraryOf(start, f);
      assert f !in Missing(start, library, disk);
    }
    ListsSize(gone, Missing(db, library, disk));
    NothingToSweep(db);
  }

  /** Scanning an indexed library again, unforced, with the disk as it was: every file is reported
      unchanged, nothing is added, changed, removed or failed, no row of any file or season moves, and no
      file event is written. */
  lemma SecondScanIsQuiet(trail: seq<Progress>, gone: seq<nat>, start: Db, library: nat, walk: seq<Visit>,
                          disk: set<Path>, judge: Judge, end: Progress)
    requires Structural(start) && (forall v <- walk :: Indexed(start, library, v))
    requires Missing(start, library, disk) == {}
    requires IsScan(trail, gone, start, library, walk, disk, false, judge, end)
    ensures end.sum == NOTHING_YET.(seen := |walk|, same := |walk|)
    ensures SameFiles(start, end.db)
  {
    WalkOverIndexed(trail, start, library, walk, judge);
    var db := trail[|walk|].db;
    WalkKeepsStructure(trail, start, library, walk, false, judge, |walk|);
    SweepOverIndexed(start, db, gone, library, disk);
    PassIsHarmless(db, RemovedTitles(db, db, library), library, judge, end.db);
    assert SameFiles(db, end.db);
    SameFilesChains(start, db, end.db);
  }

  /** The two together: whatever the index held before, one error-free scan makes the next one quiet. */
  lemma ScansSettle(trail1: seq<Progress>, gone1: seq<nat>, start: Db, library: nat, walk: seq<Visit>,
                    disk: set<Path>, force: bool, judge: Judge, mid: Progress,
                    trail2: seq<Progress>, gone2: seq<nat>, end: Progress)
    requires Structural(start) && FixedDisk(walk, disk)
    requires IsScan(trail1, gone1, start, library, walk, disk, force, judge, mid) && mid.sum.errors == 0
    requires IsScan(trail2, gone2, mid.db, library, walk, disk, false, judge, end)
    ensures end.sum == NOTHING_YET.(seen := |walk|, same := |walk|)
    ensures SameFiles(mid.db, end.db)
  {
    ScanConverges(trail1, gone1, start, library, walk, disk, force, judge, mid);
    SecondScanIsQuiet(trail2, gone2, mid.db, library, walk, disk, judge, end);
  }

  // ----- what a scan leaves of the verdicts -----

  /** A title's stored verdict is what its rows call for, unless set by hand. */
  ghost predicate CarriesItsVerdict(db: Db, i: nat, judge: Judge)
    requires i in db.items
  {
    db.items[i].overridden ||
    var v := judge(EvidenceOf(db, i));
    && db.items[i].classification == Some(v.classification) && db.items[i].confidence == Some(v.confidence)
    && db.items[i].reasons == v.reasons
  }

  lemma PassLeavesVerdicts(db: Db, removed: map<nat, Item>, library: nat, judge: Judge, next: Db)
    requires Pass(db, removed, library, judge, next)
    ensures next.items.Keys == db.items.Keys
    ensures forall i <- next.items | next.items[i].library == library :: CarriesItsVerdict(next, i, judge)
  {
    var order :| Lists(order, ItemsOf(db, library) + removed.Keys) && next == RelabelledAll(db, removed, order, judge);
    PassSettles(db, removed, order, judge);
    PassRetouches(db, removed, order, judge);
    forall i <- next.items | next.items[i].library == library ensures CarriesItsVerdict(next, i, judge) {
      assert i in ItemsOf(db, library);
    }
  }

  /** When a scan has completed, every title of its library carries the verdict its rows call for. */
  lemma ScansEndJudged(trail: seq<Progress>, gone: seq<nat>, start: Db, library: nat, walk: seq<Visit>,
                       disk: set<Path>, force: bool, judge: Judge, end: Progress)
    requires IsScan(trail, gone, start, library, walk, disk, force, judge, end)
    ensures forall i <- end.db.items | end.db.items[i].library == library :: CarriesItsVerdict(end.db, i, judge)
  {
    var last := trail[|walk|];
    var swept := Swept(last.db, gone);
    PassLeavesVerdicts(swept, RemovedTitles(last.db, swept, library), library, judge, end.db);
  }

  /** And so it does in between, after every committed file that is the two-hundredth, four-hundredth and so
      on; any other file's turn leaves what its own transaction leaves. */
  lemma TurnsJudgeExactlyWhen(p: Progress, library: nat, v: Visit, force: bool, judge: Judge, q: Progress)
    requires Turn(p, library, v, force, judge, q)
    ensures q.sum.seen == p.sum.seen + 1
    ensures q.sum.seen % 200 == 0 && Process(p.db, library, v.path, v.obs, force).Committed? ==>
              forall i <- q.db.items | q.db.items[i].library == library :: CarriesItsVerdict(q.db, i, judge)
    ensures q.sum.seen % 200 != 0 || Process(p.db, library, v.path, v.obs, force).RolledBack? ==>
              q.db == After(p.db, Process(p.db, library, v.path, v.obs, force))
  {
    var s := Process(p.db, library, v.path, v.obs, force);
    if s.Committed? && q.sum.seen % 200 == 0 {
      PassLeavesVerdicts(s.db, map[], library, judge, q.db);
    }
  }
}
