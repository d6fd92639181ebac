/** The scanner service on its mutable tables: service.py's transactions statement by statement,
    each proved to take exactly the step that Ingest, Upkeep, Runs and Scan specify. */
module Service {
  import opened Prelude
  import opened Catalog
  import opened Probing
  import opened Ingest
  import opened Upkeep
  import opened Runs
  import opened Scan

  /** Removing `more` after `gone` is removing both. */
  lemma DetachChains(db: Db, gone: seq<nat>, more: seq<nat>)
    requires (forall f <- gone :: f in db.files) && (forall f <- more :: f in db.files && f !in gone)
    ensures forall f <- more :: f in Detached(db, gone).files
    ensures forall f <- gone + more :: f in db.files
    ensures Detached(Detached(db, gone), more) == Detached(db, gone + more)
  {
    assert (set f | f in gone + more) == (set f | f in gone) + (set f | f in more);
    assert Detached(Detached(db, gone), more).files == Detached(db, gone + more).files;
    assert Detached(Detached(db, gone), more).log == Detached(db, gone + more).log;
  }

  /** _cleanup_empty over the titles `done` only. */
  ghost function CleanedUp(db: Db, done: set<nat>): Db {
    var seasons := map s | s in db.seasons && (db.seasons[s].item in done ==> HasFile(db, s)) :: db.seasons[s];
    db.(seasons := seasons,
        items := map i | i in db.items && (i in done ==> HasSeason(db.(seasons := seasons), i)) :: db.items[i])
  }

  /** The rows a prune has to remove from the titles `done`. */
  ghost function MissingIn(db: Db, done: set<nat>, disk: set<Path>): set<nat>
    requires ForeignKeys(db)
  {
    set f | f in db.files && db.seasons[db.files[f].season].item in done && db.files[f].path !in disk
  }

  lemma MissingByTitle(db: Db, library: nat, disk: set<Path>)
    requires ForeignKeys(db)
    ensures MissingIn(db, ItemsOf(db, library), disk) == Missing(db, library, disk)
  {
  }

  /** Cleaning up the titles whose files went is cleaning up everywhere. */
  lemma CleanupIsEnough(db: Db, gone: seq<nat>, done: set<nat>)
    requires ForeignKeys(db) && NoEmptyParents(db) && forall f <- gone :: f in db.files
    requires forall f <- gone :: db.seasons[db.files[f].season].item in done
    ensures CleanedUp(Detached(db, gone), done) == Swept(db, gone)
  {
    var mid := Detached(db, gone);
    forall s | s in db.seasons && db.seasons[s].item !in done ensures HasFile(mid, s) {
      assert HasFile(db, s);
      var f :| f in db.files && db.files[f].season == s;
      assert f !in gone && mid.files[f].season == s;
    }
    assert CleanedUp(mid, done).seasons == WithoutEmpties(mid).seasons;
    var seasons := WithoutEmpties(mid).seasons;
    forall i | i in db.items && i !in done ensures HasSeason(mid.(seasons := seasons), i) {
      assert HasSeason(db, i);
      var s :| s in db.seasons && db.seasons[s].item == i;
      assert s in seasons && seasons[s].item == i;
    }
    assert CleanedUp(mid, done).items == WithoutEmpties(mid).items;
  }

  /** The state between two titles of a prune. */
  ghost function Pruned(db: Db, gone: seq<nat>, done: set<nat>): Db
    requires forall f <- gone :: f in db.files
  {
    CleanedUp(Detached(db, gone), done)
  }

  lemma NothingPruned(db: Db)
    ensures Pruned(db, [], {}) == db
  {
    assert db.files - (set f: nat | f in []) == db.files;
    assert Detached(db, []) == db;
    assert (map s | s in db.seasons && (db.seasons[s].item in {} ==> HasFile(db, s)) :: db.seasons[s]) == db.seasons;
    assert (map i | i in db.items && (i in {} ==> HasSeason(db, i)) :: db.items[i]) == db.items;
    assert CleanedUp(db, {}).seasons == db.seasons && CleanedUp(db, {}).items == db.items;
  }

  lemma PrunedKeepsKeys(db: Db, gone: seq<nat>, done: set<nat>)
    requires ForeignKeys(db) && forall f <- gone :: f in db.files
    ensures ForeignKeys(Pruned(db, gone, done))
    ensures forall i | i in db.items && i !in done :: i in Pruned(db, gone, done).items
  {
    var mid, next := Detached(db, gone), Pruned(db, gone, done);
    forall f <- next.files ensures next.files[f].season in next.seasons {
      assert mid.files[f].season in mid.seasons && HasFile(mid, mid.files[f].season);
    }
    forall s <- next.seasons ensures next.seasons[s].item in next.items {
      assert HasSeason(mid.(seasons := next.seasons), next.seasons[s].item);
    }
  }

  /** One more title: what is missing from it is the same before and after the others were pruned,
      and cleaning it up on its own is cleaning up along with them. */
  lemma PruneOneMore(db: Db, gone: seq<nat>, done: set<nat>, item: nat, more: seq<nat>, disk: set<Path>)
    requires ForeignKeys(db) && item !in done && Lists(gone, MissingIn(db, done, disk))
    requires ForeignKeys(Pruned(db, gone, done)) && Lists(more, MissingIn(Pruned(db, gone, done), {item}, disk))
    ensures forall f <- more :: f in db.files
    ensures Lists(gone + more, MissingIn(db, done + {item}, disk))
    ensures CleanedUp(Detached(Pruned(db, gone, done), more), {item}) == Pruned(db, gone + more, done + {item})
  {
    var now := Pruned(db, gone, done);
    assert MissingIn(now, {item}, disk) == MissingIn(db, {item}, disk) by {
      forall f <- MissingIn(db, {item}, disk) ensures f in now.files {
        assert f !in MissingIn(db, done, disk);
      }
    }
    assert MissingIn(db, done + {item}, disk) == MissingIn(db, done, disk) + MissingIn(db, {item}, disk);
    ListsJoin(gone, MissingIn(db, done, disk), more, MissingIn(db, {item}, disk));
    DetachChains(db, gone, more);
    PrunedTables(db, gone, done, item, more);
  }

  lemma PrunedTables(db: Db, gone: seq<nat>, done: set<nat>, item: nat, more: seq<nat>)
    requires ForeignKeys(db) && item !in done && (forall f <- gone :: f in db.files)
    requires forall f <- more :: f in db.files && f !in gone && db.seasons[db.files[f].season].item == item
    requires forall f <- gone + more :: f in db.files
    requires forall f <- more :: f in Pruned(db, gone, done).files
    requires Detached(Detached(db, gone), more) == Detached(db, gone + more)
    ensures CleanedUp(Detached(Pruned(db, gone, done), more), {item}) == Pruned(db, gone + more, done + {item})
  {
    var first, both := Detached(db, gone), Detached(db, gone + more);
    var now := Detached(Pruned(db, gone, done), more);
    assert now.files == both.files && now.log == both.log;
    forall s | s in db.seasons && db.seasons[s].item != item ensures HasFile(first, s) <==> HasFile(both, s) {
      if HasFile(first, s) {
        var f :| f in first.files && first.files[f].season == s;
        assert f !in more && f in both.files && both.files[f].season == s;
      }
      if HasFile(both, s) {
        var f :| f in both.files && both.files[f].season == s;
        assert f in first.files && first.files[f].season == s;
      }
    }
    assert forall s :: HasFile(now, s) <==> HasFile(both, s);
    var l, r := CleanedUp(now, {item}), CleanedUp(both, done + {item});
    assert l.seasons == r.seasons;
    PrunedItems(first, now, both, done, item);
  }

  lemma PrunedItems(first: Db, now: Db, both: Db, done: set<nat>, item: nat)
    requires now.items == CleanedUp(first, done).items && both.items == first.items
    requires CleanedUp(now, {item}).seasons == CleanedUp(both, done + {item}).seasons
    requires now.seasons == CleanedUp(first, done).seasons && item !in done
    requires forall s | s in now.seasons && now.seasons[s].item != item :: s in CleanedUp(now, {item}).seasons
    ensures CleanedUp(now, {item}).items == CleanedUp(both, done + {item}).items
  {
    var seasons := CleanedUp(now, {item}).seasons;
    forall i | i in first.items && i != item
      ensures HasSeason(first.(seasons := now.seasons), i) <==> HasSeason(now.(seasons := seasons), i)
    {
      if HasSeason(first.(seasons := now.seasons), i) {
        var s :| s in now.seasons && now.seasons[s].item == i;
        assert s in seasons && seasons[s].item == i;
      }
    }
    assert forall i :: HasSeason(now.(seasons := seasons), i) <==> HasSeason(both.(seasons := seasons), i);
  }

  lemma OneSeasonMore(db: Db, item: nat, disk: set<Path>, gone: seq<nat>, more: seq<nat>, todo: set<nat>, s: nat)
    requires ForeignKeys(db) && s in todo && s in db.seasons && db.seasons[s].item == item
    requires Lists(gone, set f | f in MissingIn(db, {item}, disk) && db.files[f].season !in todo)
    requires Lists(more, set f | f in db.files && f !in gone && db.files[f].season == s && db.files[f].path !in disk)
    ensures Lists(gone + more, set f | f in MissingIn(db, {item}, disk) && db.files[f].season !in todo - {s})
  {
    var before := set f | f in MissingIn(db, {item}, disk) && db.files[f].season !in todo;
    var here := set f | f in MissingIn(db, {item}, disk) && db.files[f].season == s;
    assert here == set f | f in db.files && f !in gone && db.files[f].season == s && db.files[f].path !in disk;
    ListsJoin(gone, before, more, here);
    assert before + here == set f | f in MissingIn(db, {item}, disk) && db.files[f].season !in todo - {s};
  }

  /** The titles a library had before a sweep are the ones it has left and the ones just removed. */
  lemma LoadedBeforeSweep(db: Db, gone: seq<nat>, library: nat)
    requires forall f <- gone :: f in db.files
    ensures var loaded := map i | i in db.items && db.items[i].library == library :: db.items[i];
            var next := Swept(db, gone);
            && (forall i <- next.items :: i in loaded <==> next.items[i].library == library)
            && loaded - next.items.Keys == RemovedTitles(db, next, library)
  {
  }

  class Store {
    var items: map<nat, Item>
    var seasons: map<nat, Season>
    var files: map<nat, File>
    var log: seq<Event>

    ghost function State(): Db
      reads this
    {
      Db(items, seasons, files, log)
    }

    constructor ()
      ensures State() == EMPTY && Structural(State())
    {
      items, seasons, files, log := map[], map[], map[], [];
    }

    /** bus.record_event: the outbox row joins the caller's transaction. */
    method RecordEvent(e: Event)
      modifies this`log
      ensures log == old(log) + [e]
    {
      log := log + [e];
    }

    // ----- one file -----

    method ItemRecord(library: nat, m: Match) returns (item: nat, created: bool)
      requires UniqueTitles(State())
      modifies this`items
      ensures var shelf := Shelve(old(State()), library, m);
              item == shelf.item && items == shelf.items && created == shelf.created
    {
      if i: nat :| i in items && items[i].library == library && items[i].title == m.title
                   && items[i].ids.year == m.ids.year
      {
        assert IsItem(items, library, m.title, i);
        item, created := i, false;
      } else if i: nat :| i in items && items[i].library == library && items[i].title == m.title {
        assert IsItem(items, library, m.title, i);
        item, created := i, false;
      } else {
        assert forall i :: !IsItem(items, library, m.title, i);
        item := FreshId(items.Keys);
        created := true;
      }
      if created {
        items := items[item := NewItem(library, m)];
      } else {
        items := items[item := Backfilled(items[item], m)];
      }
    }

    method SeasonRecord(item: nat, number: Option<int>) returns (season: nat)
      requires UniqueSeasons(State())
      modifies this`seasons
      ensures var found := FindSeason(old(State()).seasons, item, number);
              && season == (if found.Some? then found.value else NextId(old(seasons.Keys)))
              && seasons == old(seasons)[season := Season(item, number)]
    {
      if s: nat :| s in seasons && seasons[s] == Season(item, number) {
        assert IsSeason(seasons, item, number, s);
        season := s;
      } else {
        assert forall s :: !IsSeason(seasons, item, number, s);
        season := FreshId(seasons.Keys);
        seasons := seasons[season := Season(item, number)];
      }
    }

    /** The title and the season a match belongs under. */
    method SelectShelf(library: nat, m: Match) returns (season: nat, created: bool, ghost shelf: Shelf)
      requires UniqueTitles(State()) && UniqueSeasons(State())
      modifies this`items, this`seasons
      ensures shelf == Shelve(old(State()), library, m)
      ensures items == shelf.items && seasons == shelf.seasons
      ensures season == shelf.season && created == shelf.created
    {
      shelf := Shelve(State(), library, m);
      var item;
      item, created := ItemRecord(library, m);
      season := SeasonRecord(item, SeasonNumber(m));
    }

    method FileRecord(season: nat, path: Path) returns (row: Option<nat>)
      requires UniquePaths(State())
      ensures row == FindFile(files, season, path)
    {
      row := None;
      if f: nat :| f in files && files[f].season == season && files[f].path == path {
        assert IsFile(files, season, path, f);
        row := Some(f);
      }
    }

    /** Probe the file and bring row f up to date. */
    method Refresh(f: nat, obs: Observation) returns (before: Body, after: Body)
      requires f in files && Readable(obs)
      modifies this`files
      ensures before == old(files)[f].body
      ensures after == Refreshed(before, obs.probe.value, obs.stat.value, obs.sidecars.value)
      ensures files == old(files)[f := old(files)[f].(body := after)]
    {
      before := files[f].body;
      after := ApplyProbe(before, obs.probe.value, obs.stat.value);
      after := AddSidecars(after, obs.sidecars.value);
      after := after.(subtitleSummary := Compact(after.tracks, Subtitle));
      files := files[f := files[f].(body := after)];
    }

    /** The row is where the match says: skip it when it is current, otherwise probe it again. */
    method RescanRow(f: nat, obs: Observation, force: bool, ghost shelf: Shelf) returns (outcome: Option<Outcome>)
      requires f in files && shelf.items == items && shelf.seasons == seasons
      modifies this`files, this`log
      ensures var s := Rescan(old(State()), shelf, f, obs, force);
              && outcome == (if s.Committed? then Some(s.outcome) else None)
              && (s.Committed? ==> State() == s.db)
    {
      if !force {
        if obs.stat.None? {
          return None;
        }
        if Current(files[f].body, obs.stat.value) {
          return Some(FilesUnchanged);
        }
      }
      if !Readable(obs) {
        return None;
      }
      var before, after := Refresh(f, obs);
      if MeaningfulChange(before, after) {
        RecordEvent(FileEvent(Changed, f, files[f].path, Some(before), Some(after)));
        return Some(FilesChanged);
      }
      return Some(FilesUnchanged);
    }

    /** No row under this season: insert one, unless the unique index on path refuses it. */
    method InsertRow(season: nat, path: Path, obs: Observation, ghost shelf: Shelf) returns (outcome: Option<Outcome>)
      requires shelf.items == items && shelf.seasons == seasons && shelf.season == season
      modifies this`files, this`log
      ensures var s := Insertion(old(State()), shelf, path, obs);
              && outcome == (if s.Committed? then Some(s.outcome) else None)
              && (s.Committed? ==> State() == s.db)
    {
      if exists g: nat :: g in files && files[g].path == path {
        return None;
      }
      var f := FreshId(files.Keys);
      files := files[f := File(season, path, BLANK)];
      if !Readable(obs) {
        return None;
      }
      var before, after := Refresh(f, obs);
      RecordEvent(FileEvent(Added, f, path, None, Some(after)));
      return Some(FilesAdded);
    }

    /** _process_file: None stands for an exception, which leaves the tables as they happen to be. */
    method ProcessFile(library: nat, path: Path, obs: Observation, force: bool)
      returns (outcome: Option<Outcome>, created: bool)
      requires UniqueTitles(State()) && UniqueSeasons(State()) && UniquePaths(State())
      modifies this
      ensures var s := Process(old(State()), library, path, obs, force);
              && created == s.created
              && outcome == (if s.Committed? then Some(s.outcome) else None)
              && (s.Committed? ==> State() == s.db)
    {
      if obs.found.None? {
        return None, false;
      }
      var season;
      ghost var db := State();
      ghost var shelf;
      season, created, shelf := SelectShelf(library, obs.found.value);
      PlacementCreates(db, shelf, path, obs, force);
      outcome := PlaceFile(season, path, obs, force, shelf, db);
    }

    /** `db` is the state before the shelf was selected. */
    method PlaceFile(season: nat, path: Path, obs: Observation, force: bool, ghost shelf: Shelf, ghost db: Db)
      returns (outcome: Option<Outcome>)
      requires UniquePaths(State()) && db.files == files && db.log == log
      requires shelf.items == items && shelf.seasons == seasons && shelf.season == season
      modifies this`files, this`log
      ensures var s := Placement(db, shelf, path, obs, force);
              && outcome == (if s.Committed? then Some(s.outcome) else None)
              && (s.Committed? ==> State() == s.db)
    {
      PlacementReadsFilesAndLog(db, State(), shelf, path, obs, force);
      var row := FileRecord(season, path);
      if row.Some? {
        outcome := RescanRow(row.value, obs, force, shelf);
      } else {
        outcome := InsertRow(season, path, obs, shelf);
      }
    }

    /** The same inside session_scope: an exception rolls everything back. */
    method ScanFile(library: nat, path: Path, obs: Observation, force: bool)
      returns (outcome: Option<Outcome>, created: bool)
      requires UniqueTitles(State()) && UniqueSeasons(State()) && UniquePaths(State())
      modifies this
      ensures var s := Process(old(State()), library, path, obs, force);
              && State() == After(old(State()), s)
              && created == s.created
              && outcome == (if s.Committed? then Some(s.outcome) else None)
    {
      var items0, seasons0, files0, log0 := items, seasons, files, log;
      outcome, created := ProcessFile(library, path, obs, force);
      if outcome.None? {
        items, seasons, files, log := items0, seasons0, files0, log0;
      }
    }

    // ----- removing rows -----

    method RemoveFile(f: nat)
      requires f in files
      modifies this`files, this`log
      ensures State() == Detached(old(State()), [f])
    {
      RecordEvent(FileEvent(Removed, f, files[f].path, Some(files[f].body), None));
      files := files - {f};
      assert (set g | g in [f]) == {f};
    }

    method CleanupEmpty(item: nat)
      requires item in items
      modifies this`items, this`seasons
      ensures State() == CleanedUp(old(State()), {item})
    {
      ghost var db := State();
      var todo := set s | s in seasons && seasons[s].item == item;
      while todo != {}
        invariant items == db.items && todo <= seasons.Keys && todo <= db.seasons.Keys
        invariant forall s <- todo :: db.seasons[s].item == item
        invariant seasons == map s | s in db.seasons
                                     && (db.seasons[s].item == item && s !in todo ==> HasFile(db, s)) :: db.seasons[s]
        decreases todo
      {
        var s :| s in todo;
        if !exists f: nat :: f in files && files[f].season == s {
          assert !HasFile(db, s);
          seasons := seasons - {s};
        } else {
          assert HasFile(db, s);
        }
        todo := todo - {s};
      }
      assert seasons == CleanedUp(db, {item}).seasons;
      if !exists s: nat :: s in seasons && seasons[s].item == item {
        assert !HasSeason(db.(seasons := seasons), item);
        items := items - {item};
      } else {
        assert HasSeason(db.(seasons := seasons), item);
      }
    }

    /** The inner loop of _prune_missing: one season's files. */
    method PruneSeason(season: nat, disk: set<Path>) returns (removed: nat, ghost gone: seq<nat>)
      modifies this`files, this`log
      ensures removed == |gone|
      ensures Lists(gone, set f | f in old(files) && old(files)[f].season == season && old(files)[f].path !in disk)
      ensures State() == Detached(old(State()), gone)
    {
      ghost var db := State();
      removed, gone := 0, [];
      var todo := set f | f in files && files[f].season == season;
      assert Detached(db, []).files == db.files;
      while todo != {}
        invariant removed == |gone| && todo <= db.files.Keys
        invariant forall f <- todo :: db.files[f].season == season && f !in gone
        invariant Lists(gone, set f | f in db.files && db.files[f].season == season && f !in todo && db.files[f].path !in disk)
        invariant State() == Detached(db, gone)
        decreases todo
      {
        var f :| f in todo;
        assert f in files && files[f] == db.files[f];
        if files[f].path !in disk {
          DetachChains(db, gone, [f]);
          RemoveFile(f);
          gone := gone + [f];
          removed := removed + 1;
        }
        todo := todo - {f};
      }
    }

    /** The next loop out: one title's seasons. */
    method PruneItem(item: nat, disk: set<Path>) returns (removed: nat, ghost gone: seq<nat>)
      requires ForeignKeys(State())
      modifies this`files, this`log
      ensures removed == |gone| && Lists(gone, MissingIn(old(State()), {item}, disk))
      ensures State() == Detached(old(State()), gone)
    {
      ghost var db := State();
      removed, gone := 0, [];
      var todo := set s | s in seasons && seasons[s].item == item;
      assert Detached(db, []).files == db.files;
      while todo != {}
        invariant removed == |gone| && todo <= db.seasons.Keys && forall s <- todo :: db.seasons[s].item == item
        invariant Lists(gone, set f | f in MissingIn(db, {item}, disk) && db.files[f].season !in todo)
        invariant State() == Detached(db, gone)
        decreases todo
      {
        var s :| s in todo;
        var n;
        ghost var more;
        n, more := PruneSeason(s, disk);
        DetachChains(db, gone, more);
        OneSeasonMore(db, item, disk, gone, more, todo, s);
        gone := gone + more;
        removed := removed + n;
        todo := todo - {s};
      }
    }

    /** One turn of the outermost loop: prune a title, then clean it up. */
    method PruneTitle(item: nat, disk: set<Path>, ghost db: Db, ghost gone: seq<nat>, ghost done: set<nat>)
      returns (removed: nat, ghost more: seq<nat>)
      requires ForeignKeys(db) && item in db.items && item !in done && Lists(gone, MissingIn(db, done, disk))
      requires State() == Pruned(db, gone, done)
      modifies this
      ensures removed == |more| && (forall f <- more :: f in db.files)
      ensures Lists(gone + more, MissingIn(db, done + {item}, disk))
      ensures State() == Pruned(db, gone + more, done + {item})
    {
      PrunedKeepsKeys(db, gone, done);
      removed, more := PruneItem(item, disk);
      CleanupEmpty(item);
      PruneOneMore(db, gone, done, item, more, disk);
    }

    /** The outermost loop of _prune_missing. */
    method PruneTitles(library: nat, disk: set<Path>) returns (removed: nat, ghost gone: seq<nat>)
      requires ForeignKeys(State())
      modifies this
      ensures removed == |gone| && Lists(gone, Missing(old(State()), library, disk))
      ensures State() == Pruned(old(State()), gone, ItemsOf(old(State()), library))
    {
      ghost var db := State();
      removed, gone := 0, [];
      var todo := set i | i in items && items[i].library == library;
      ghost var done := {};
      NothingPruned(db);
      while todo != {}
        invariant removed == |gone| && todo !! done && todo + done == ItemsOf(db, library)
        invariant Lists(gone, MissingIn(db, done, disk))
        invariant State() == Pruned(db, gone, done)
        decreases todo
      {
        var i :| i in todo;
        var n;
        ghost var more;
        n, more := PruneTitle(i, disk, db, gone, done);
        gone, done := gone + more, done + {i};
        removed := removed + n;
        todo := todo - {i};
      }
      assert done == ItemsOf(db, library);
      MissingByTitle(db, library, disk);
    }

    /** _prune_missing. */
    method PruneMissing(library: nat, disk: set<Path>) returns (removed: nat, ghost gone: seq<nat>)
      requires ForeignKeys(State()) && NoEmptyParents(State())
      modifies this
      ensures removed == |gone| && Lists(gone, Missing(old(State()), library, disk))
      ensures State() == Swept(old(State()), gone)
    {
      ghost var db := State();
      removed, gone := PruneTitles(library, disk);
      CleanupIsEnough(db, gone, ItemsOf(db, library));
    }

    /** handle_missing_path. */
    method HandleMissingPath(path: Path) returns (found: bool)
      requires ForeignKeys(State()) && NoEmptyParents(State())
      modifies this
      ensures found == old(PathTaken(State(), path))
      ensures Loses(old(State()), path, State())
      ensures UniquePaths(old(State())) ==>
                forall f <- old(files) :: f in files <==> old(files)[f].path != path
    {
      if f: nat :| f in files && files[f].path == path {
        RemoveRow(f);
        found := true;
      } else {
        found := false;
      }
    }

    method RemoveRow(f: nat)
      requires f in files && ForeignKeys(State()) && NoEmptyParents(State())
      modifies this
      ensures State() == Swept(old(State()), [f])
    {
      var item := seasons[files[f].season].item;
      CleanupIsEnough(State(), [f], {item});
      RemoveFile(f);
      CleanupEmpty(item);
    }

    // ----- relabelling -----

    /** _reclassify_item. */
    method ReclassifyItem(item: nat, judge: Judge) returns (changed: bool)
      requires item in items
      modifies this`items, this`log
      ensures State() == Relabelled(old(State()), item, judge)
      ensures changed == (State().log != old(log))
    {
      if items[item].overridden {
        return false;
      }
      var shelves := map s | s in seasons && seasons[s].item == item :: seasons[s];
      var rows := map f | f in files && files[f].season in shelves :: files[f];
      var result := judge(Evidence(Unjudged(items[item]), shelves, rows));
      changed := Some(result.classification) != items[item].classification;
      var before := items[item].classification;
      items := items[item := Judged(items[item], result)];
      if changed {
        RecordEvent(Reclassified(item, before, items[item].classification));
      }
    }

    /** _reclassify_item on a title deleted earlier in the same transaction. */
    method ReclassifyDeleted(item: nat, last: Item, judge: Judge)
      modifies this`log
      ensures State() == Echoed(old(State()), item, last, judge)
    {
      if last.overridden {
        return;
      }
      var result := EmptyVerdict(last, judge);
      if Some(result.classification) != last.classification {
        RecordEvent(Reclassified(item, last.classification, Some(result.classification)));
      }
    }

    /** The loop of _reclassify_library over the collection as it was loaded: rows deleted since then are
        still in it. */
    method ReclassifyLoaded(library: nat, loaded: map<nat, Item>, judge: Judge)
      requires forall i <- items :: i in loaded <==> items[i].library == library
      modifies this`items, this`log
      ensures Pass(old(State()), loaded - old(items.Keys), library, judge, State())
    {
      ghost var db, removed := State(), loaded - items.Keys;
      ghost var order: seq<nat> := [];
      ghost var done := {};
      var todo := loaded.Keys;
      while todo != {}
        invariant todo !! done && todo + done == loaded.Keys
        invariant Lists(order, done) && State() == RelabelledAll(db, removed, order, judge)
        decreases todo
      {
        var i :| i in todo;
        if i in items {
          var _ := ReclassifyItem(i, judge);
        } else {
          ReclassifyDeleted(i, loaded[i], judge);
        }
        assert (order + [i])[..|order|] == order;
        order, done := order + [i], done + {i};
        todo := todo - {i};
      }
      assert done == loaded.Keys == ItemsOf(db, library) + removed.Keys;
    }

    /** _reclassify_library in a transaction of its own. */
    method ReclassifyLibrary(library: nat, judge: Judge)
      modifies this`items, this`log
      ensures Pass(old(State()), map[], library, judge, State())
    {
      var loaded := map i | i in items && items[i].library == library :: items[i];
      assert loaded - items.Keys == map[];
      ReclassifyLoaded(library, loaded, judge);
    }

    // ----- a whole scan -----

    /** The loop of scan_library. */
    method ScanWalk(library: nat, walk: seq<Visit>, force: bool, judge: Judge)
      returns (sum: Summary, ghost trail: seq<Progress>)
      requires Structural(State())
      modifies this
      ensures IsWalk(trail, old(State()), library, walk, force, judge)
      ensures trail[|walk|] == Progress(State(), sum)
    {
      ghost var db := State();
      sum := NOTHING_YET;
      trail := [Progress(db, sum)];
      for k := 0 to |walk|
        invariant IsWalk(trail, db, library, walk[..k], force, judge)
        invariant trail[k] == Progress(State(), sum)
      {
        WalkKeepsStructure(trail, db, library, walk[..k], force, judge, k);
        sum := ScanNext(library, walk[k], force, judge, sum);
        WalkGrows(trail, db, library, walk[..k], walk[k], force, judge, Progress(State(), sum));
        assert walk[..k] + [walk[k]] == walk[..k + 1];
        trail := trail + [Progress(State(), sum)];
      }
      assert walk[..|walk|] == walk;
    }

    /** The transaction that ends a scan. The prune loads the library's titles, and the relabelling goes
        over that same collection. */
    method FinishScan(library: nat, disk: set<Path>, judge: Judge, before: Summary)
      returns (sum: Summary, ghost gone: seq<nat>)
      requires ForeignKeys(State()) && NoEmptyParents(State())
      modifies this
      ensures Finishes(Progress(old(State()), before), gone, library, disk, judge, Progress(State(), sum))
    {
      ghost var last := State();
      var loaded := map i | i in items && items[i].library == library :: items[i];
      var removed;
      removed, gone := PruneMissing(library, disk);
      sum := before.(removed := removed);
      LoadedBeforeSweep(last, gone, library);
      ReclassifyLoaded(library, loaded, judge);
    }

    /** scan_library, with the walk, the answers and the disk as they are at the time. */
    method ScanLibrary(library: nat, walk: seq<Visit>, disk: set<Path>, force: bool, judge: Judge)
      returns (sum: Summary, ghost trail: seq<Progress>, ghost gone: seq<nat>)
      requires Structural(State())
      modifies this
      ensures IsScan(trail, gone, old(State()), library, walk, disk, force, judge, Progress(State(), sum))
    {
      ghost var db := State();
      sum, trail := ScanWalk(library, walk, force, judge);
      WalkKeepsStructure(trail, db, library, walk, force, judge, |walk|);
      sum, gone := FinishScan(library, disk, judge, sum);
    }

    method Count(before: Summary, outcome: Option<Outcome>, created: bool, ghost s: Step) returns (sum: Summary)
      requires created == s.created && outcome == (if s.Committed? then Some(s.outcome) else None)
      ensures sum == Counted(before, s)
    {
      sum := before.(seen := before.seen + 1);
      if created {
        sum := sum.(itemsAdded := sum.itemsAdded + 1);
      }
      match outcome {
        case None => sum := sum.(errors := sum.errors + 1);
        case Some(FilesAdded) => sum := sum.(added := sum.added + 1);
        case Some(FilesChanged) => sum := sum.(changed := sum.changed + 1);
        case Some(FilesUnchanged) => sum := sum.(same := sum.same + 1);
      }
    }

    /** One turn of scan_library's loop. */
    method ScanNext(library: nat, v: Visit, force: bool, judge: Judge, before: Summary) returns (sum: Summary)
      requires UniqueTitles(State()) && UniqueSeasons(State()) && UniquePaths(State())
      modifies this
      ensures Turn(Progress(old(State()), before), library, v, force, judge, Progress(State(), sum))
    {
      ghost var p := Progress(State(), before);
      var outcome, created := ScanFile(library, v.path, v.obs, force);
      sum := Count(before, outcome, created, Process(p.db, library, v.path, v.obs, force));
      if outcome.Some? && sum.seen % RECLASSIFY_EVERY_N_FILES == 0 {
        ReclassifyLibrary(library, judge);
      }
    }
  }
}
