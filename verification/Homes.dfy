/** Where a file row sits over a run: for as long as it is stored it never moves, so a file whose match has
    moved fails on every scan. */
module Homes {
  import opened Catalog
  import opened Ingest
  import opened Upkeep
  import opened Runs
  import opened Scan

  /** Row `f` of `next` is the row it was, under the title and season it was. */
  ghost predicate Stays(db: Db, next: Db, f: nat)
    requires ForeignKeys(db) && ForeignKeys(next) && f in db.files && f in next.files
  {
    next.files[f].path == db.files[f].path && HomeOf(next, f) == HomeOf(db, f)
  }

  lemma UpsertStays(db: Db, next: Db, item: nat, season: nat, file: nat, f: nat)
    requires ForeignKeys(db) && ForeignKeys(next) && Upserts(db, next, item, season, file) && f in db.files
    ensures f in next.files && Stays(db, next, f)
  {
    var s := db.files[f].season;
    if f == file {
      assert IsFile(db.files, season, next.files[file].path, file);
    }
    assert next.files[f].season == s && next.seasons[s] == db.seasons[s];
    var i := db.seasons[s].item;
    if i == item {
      assert IsItem(db.items, next.items[item].library, next.items[item].title, item);
    }
  }

  lemma SweepStays(db: Db, gone: seq<nat>, f: nat)
    requires ForeignKeys(db) && forall g <- gone :: g in db.files
    requires ForeignKeys(Swept(db, gone)) && f in db.files && f in Swept(db, gone).files
    ensures Stays(db, Swept(db, gone), f)
  {
  }

  lemma RetouchStays(db: Db, next: Db, f: nat)
    requires ForeignKeys(db) && ForeignKeys(next) && Retouches(db, next) && f in db.files
    ensures f in next.files && Stays(db, next, f)
  {
  }

  lemma StepStays(db: Db, a: Action, next: Db, f: nat)
    requires ForeignKeys(db) && ForeignKeys(next) && Next(db, a, next) && f in db.files && f in next.files
    ensures Stays(db, next, f)
  {
    StepShapes(db, a, next);
    if IsCommitOf(db, a, next) {
      ProcessUpserts(db, a.library, a.path, a.obs, a.force);
      var s := Process(db, a.library, a.path, a.obs, a.force);
      UpsertStays(db, next, s.item, s.season, s.file, f);
    } else if gone :| Removes(db, next, gone) {
      SweepStays(db, gone, f);
    } else if next != db {
      RetouchStays(db, next, f);
    }
  }

  /** Row `f` is stored all the way from trace[i] to trace[j]. */
  ghost predicate Stored(trace: seq<Db>, f: nat, i: nat, j: nat) {
    i <= j < |trace| && forall k | i <= k <= j :: f in trace[k].files
  }

  lemma RunsKeepKeys(trace: seq<Db>, actions: seq<Action>, k: nat)
    requires IsRun(trace, actions) && k < |trace|
    ensures ForeignKeys(trace[k])
  {
    RunsStaySound(trace, actions, k);
  }

  ghost predicate StaysPut(db: Db, next: Db, f: nat) {
    ForeignKeys(db) && ForeignKeys(next) && f in db.files && f in next.files && Stays(db, next, f)
  }

  lemma StepStaysPut(trace: seq<Db>, actions: seq<Action>, f: nat, k: nat)
    requires IsRun(trace, actions) && k < |actions| && f in trace[k].files && f in trace[k + 1].files
    ensures StaysPut(trace[k], trace[k + 1], f)
  {
    RunsKeepKeys(trace, actions, k);
    RunsKeepKeys(trace, actions, k + 1);
    assert StepAt(trace, actions, k);
    StepStays(trace[k], actions[k], trace[k + 1], f);
  }

  lemma {:induction false} StayingChains(trace: seq<Db>, f: nat, i: nat, j: nat)
    requires i <= j < |trace| && StaysPut(trace[i], trace[i], f)
    requires forall k | i <= k < j :: StaysPut(trace[k], trace[k + 1], f)
    ensures StaysPut(trace[i], trace[j], f)
    decreases j - i
  {
    if i < j {
      StayingChains(trace, f, i, j - 1);
      assert StaysPut(trace[j - 1], trace[j - 1 + 1], f);
    }
  }

  /** In every run: while a row is stored, its path, its title and its season number never change, whatever
      its file is later matched to. */
  lemma HomesNeverMove(trace: seq<Db>, actions: seq<Action>, f: nat, i: nat, j: nat)
    requires IsRun(trace, actions) && Stored(trace, f, i, j)
    ensures ForeignKeys(trace[i]) && ForeignKeys(trace[j]) && Stays(trace[i], trace[j], f)
  {
    RunsKeepKeys(trace, actions, i);
    forall k | i <= k < j ensures StaysPut(trace[k], trace[k + 1], f) {
      StepStaysPut(trace, actions, f, k);
    }
    StayingChains(trace, f, i, j);
  }

  /** In every run: from the moment a row is stored until it is removed, every scan of its path whose match
      names another title or season rolls back and leaves the database as it was. */
  lemma MovedFilesKeepFailing(trace: seq<Db>, actions: seq<Action>, f: nat, i: nat, j: nat)
    requires IsRun(trace, actions) && Stored(trace, f, i, j) && j < |actions|
    requires ForeignKeys(trace[i])
    requires actions[j].ScanFile? && actions[j].path == trace[i].files[f].path && actions[j].obs.found.Some?
    requires Destination(actions[j].library, actions[j].obs.found.value) != HomeOf(trace[i], f)
    ensures Process(trace[j], actions[j].library, actions[j].path, actions[j].obs, actions[j].force).RolledBack?
    ensures trace[j + 1] == trace[j]
  {
    HomesNeverMove(trace, actions, f, i, j);
    RunsStaySound(trace, actions, j);
    var a := actions[j];
    ProcessFailsExactlyWhen(trace[j], a.library, a.path, a.obs, a.force);
    assert FiledElsewhere(trace[j], a.path, Destination(a.library, a.obs.found.value));
    assert StepAt(trace, actions, j);
  }

  // ----- it happens -----

  function Twice(library: nat, path: Path, was: Observation, now: Observation, force: bool): seq<Action> {
    [ScanFile(library, path, was, false), ScanFile(library, path, now, force)]
  }

  lemma FirstScanStores(library: nat, path: Path, was: Observation)
    requires was.found.Some? && Readable(was)
    ensures var s := Process(EMPTY, library, path, was, false);
            && s.Committed? && Structural(s.db) && s.file in s.db.files && s.db.files[s.file].path == path
            && HomeOf(s.db, s.file) == Destination(library, was.found.value)
  {
    assert Structural(EMPTY);
    ProcessFailsExactlyWhen(EMPTY, library, path, was, false);
    ProcessKeepsStructure(EMPTY, library, path, was, false);
    ProcessUpserts(EMPTY, library, path, was, false);
  }

  lemma SecondScanFails(db: Db, f: nat, library: nat, path: Path, now: Observation, force: bool)
    requires Structural(db) && f in db.files && db.files[f].path == path && now.found.Some?
    requires HomeOf(db, f) != Destination(library, now.found.value)
    ensures path in Paths(db) && Process(db, library, path, now, force).RolledBack?
  {
    ProcessFailsExactlyWhen(db, library, path, now, force);
    assert FiledElsewhere(db, path, Destination(library, now.found.value));
  }

  lemma TwoSteps(a: Action, b: Action, mid: Db, end: Db)
    requires Next(EMPTY, a, mid) && Next(mid, b, end)
    ensures IsRun([EMPTY, mid, end], [a, b])
  {
    var trace, actions := [EMPTY, mid, end], [a, b];
    forall k | 0 <= k < |actions| ensures StepAt(trace, actions, k) {
      assert k == 0 || k == 1;
    }
  }

  /** From the empty database: any readable file, scanned and then matched elsewhere, is such a case. Its
      second scan fails, forced or not, although everything about it can be read. */
  lemma AnyMovedFileFails(library: nat, path: Path, was: Observation, now: Observation, force: bool)
    requires was.found.Some? && now.found.Some? && Readable(was) && Readable(now)
    requires Destination(library, was.found.value) != Destination(library, now.found.value)
    ensures var first := Process(EMPTY, library, path, was, false);
            && first.Committed? && path in Paths(first.db)
            && Process(first.db, library, path, now, force).RolledBack?
            && IsRun([EMPTY, first.db, first.db], Twice(library, path, was, now, force))
  {
    FirstScanStores(library, path, was);
    var first := Process(EMPTY, library, path, was, false);
    SecondScanFails(first.db, first.file, library, path, now, force);
    TwoSteps(ScanFile(library, path, was, false), ScanFile(library, path, now, force), first.db, first.db);
  }

  // ----- whole scans -----

  lemma TurnStaysPut(p: Progress, library: nat, v: Visit, force: bool, judge: Judge, q: Progress, f: nat)
    requires Structural(p.db) && Turn(p, library, v, force, judge, q) && f in p.db.files
    ensures StaysPut(p.db, q.db, f)
  {
    var s := Process(p.db, library, v.path, v.obs, force);
    TurnKeepsStructure(p, library, v, force, judge, q);
    ProcessKeepsStructure(p.db, library, v.path, v.obs, force);
    if s.Committed? {
      ProcessUpserts(p.db, library, v.path, v.obs, force);
      UpsertStays(p.db, s.db, s.item, s.season, s.file, f);
      RetouchStays(s.db, q.db, f);
    } else {
      RetouchStays(p.db, q.db, f);
    }
  }

  ghost predicate KeepsPut(db: Db, next: Db, f: nat) {
    f in db.files ==> StaysPut(db, next, f)
  }

  lemma {:induction false} StayingAlong(trail: seq<Progress>, f: nat, k: nat)
    requires k < |trail| && StaysPut(trail[0].db, trail[0].db, f)
    requires forall m | 0 <= m < |trail| - 1 :: KeepsPut(trail[m].db, trail[m + 1].db, f)
    ensures StaysPut(trail[0].db, trail[k].db, f)
  {
    if k > 0 {
      StayingAlong(trail, f, k - 1);
      assert KeepsPut(trail[k - 1].db, trail[k - 1 + 1].db, f);
    }
  }

  lemma WalkStaysPut(trail: seq<Progress>, start: Db, library: nat, walk: seq<Visit>, force: bool, judge: Judge,
                     f: nat, k: nat)
    requires Structural(start) && IsWalk(trail, start, library, walk, force, judge)
    requires f in start.files && k <= |walk|
    ensures Structural(trail[k].db) && StaysPut(start, trail[k].db, f)
  {
    forall m | 0 <= m < |walk| ensures KeepsPut(trail[m].db, trail[m + 1].db, f) {
      if f in trail[m].db.files {
        WalkKeepsStructure(trail, start, library, walk, force, judge, m);
        assert TurnAt(trail, library, walk, force, judge, m);
        TurnStaysPut(trail[m], library, walk[m], force, judge, trail[m + 1], f);
      }
    }
    WalkKeepsStructure(trail, start, library, walk, force, judge, k);
    StayingAlong(trail, f, k);
  }

  lemma EndStaysPut(last: Progress, gone: seq<nat>, library: nat, disk: set<Path>, judge: Judge, end: Progress, f: nat)
    requires Structural(last.db) && Finishes(last, gone, library, disk, judge, end)
    requires f in last.db.files && last.db.files[f].path in disk
    ensures StaysPut(last.db, end.db, f) && end.sum.errors == last.sum.errors
  {
    var swept := Swept(last.db, gone);
    SweepKeepsStructure(last.db, gone);
    PassIsHarmless(swept, RemovedTitles(last.db, swept, library), library, judge, end.db);
    assert f !in gone;
    SweepStays(last.db, gone, f);
    RetouchStays(swept, end.db, f);
  }

  lemma MovedFileIsAnError(trail: seq<Progress>, start: Db, library: nat, walk: seq<Visit>, force: bool, judge: Judge,
                           f: nat, k: nat)
    requires Structural(start) && IsWalk(trail, start, library, walk, force, judge) && k < |walk|
    requires f in start.files && start.files[f].path == walk[k].path && walk[k].obs.found.Some?
    requires HomeOf(start, f) != Destination(library, walk[k].obs.found.value)
    ensures trail[|walk|].sum.errors > 0
  {
    WalkStaysPut(trail, start, library, walk, force, judge, f, k);
    SecondScanFails(trail[k].db, f, library, walk[k].path, walk[k].obs, force);
    assert TurnAt(trail, library, walk, force, judge, k);
    ErrorsOnlyGrow(trail, start, library, walk, force, judge, k + 1);
  }

  /** A stored file that still exists, and is matched to another title or season than it is filed under,
      is an error in every scan of its library; the scan leaves its row where it is, so the next one fails
      on it too. */
  lemma MovedFilesFailEveryScan(trail: seq<Progress>, gone: seq<nat>, start: Db, library: nat, walk: seq<Visit>,
                                disk: set<Path>, force: bool, judge: Judge, end: Progress, f: nat, k: nat)
    requires Structural(start) && IsScan(trail, gone, start, library, walk, disk, force, judge, end) && k < |walk|
    requires f in start.files && start.files[f].path == walk[k].path && walk[k].path in disk && walk[k].obs.found.Some?
    requires HomeOf(start, f) != Destination(library, walk[k].obs.found.value)
    ensures end.sum.errors > 0
    ensures Structural(end.db) && StaysPut(start, end.db, f)
  {
    MovedFileIsAnError(trail, start, library, walk, force, judge, f, k);
    WalkStaysPut(trail, start, library, walk, force, judge, f, |walk|);
    EndStaysPut(trail[|walk|], gone, library, disk, judge, end, f);
    ScanKeepsStructure(trail, gone, start, library, walk, disk, force, judge, end);
  }
}
