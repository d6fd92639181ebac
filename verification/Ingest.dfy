/** The scanner's transactions as functions of the committed state. Each is all or nothing. */
module Ingest {
  import opened Prelude
  import opened Catalog
  import opened Probing

  /** What match_observation made of one path. */
  datatype Match = Match(title: string, kind: Kind, season: Option<int>, status: MatchStatus, ids: Ids)

  /** Everything the outside world answers about one path during one transaction;
      None stands for a call that raised. */
  datatype Observation = Observation(found: Option<Match>, stat: Option<Stat>,
                                     probe: Option<Probe>, sidecars: Option<seq<Sidecar>>)

  datatype Outcome = FilesAdded | FilesChanged | FilesUnchanged

  /** A transaction either commits, naming the rows it settled on, or rolls back. `created`
      says whether a title row was inserted before the end, committed or not. */
  datatype Step =
    | Committed(db: Db, outcome: Outcome, created: bool, item: nat, season: nat, file: nat)
    | RolledBack(created: bool)

  // ----- looking rows up -----

  ghost predicate IsItem(items: map<nat, Item>, library: nat, title: string, i: nat) {
    i in items && items[i].library == library && items[i].title == title
  }

  ghost predicate IsSeason(seasons: map<nat, Season>, item: nat, number: Option<int>, s: nat) {
    s in seasons && seasons[s] == Season(item, number)
  }

  ghost predicate IsFile(files: map<nat, File>, season: nat, path: Path, f: nat) {
    f in files && files[f].season == season && files[f].path == path
  }

  ghost function FindItem(items: map<nat, Item>, library: nat, title: string): (r: Option<nat>)
    ensures r.Some? ==> IsItem(items, library, title, r.value)
    ensures r.None? ==> forall i :: !IsItem(items, library, title, i)
  {
    if i: nat :| IsItem(items, library, title, i) then Some(i) else None
  }

  ghost function FindSeason(seasons: map<nat, Season>, item: nat, number: Option<int>): (r: Option<nat>)
    ensures r.Some? ==> IsSeason(seasons, item, number, r.value)
    ensures r.None? ==> forall s :: !IsSeason(seasons, item, number, s)
  {
    if s: nat :| IsSeason(seasons, item, number, s) then Some(s) else None
  }

  ghost function FindFile(files: map<nat, File>, season: nat, path: Path): (r: Option<nat>)
    ensures r.Some? ==> IsFile(files, season, path, r.value)
    ensures r.None? ==> forall f :: !IsFile(files, season, path, f)
  {
    if f: nat :| IsFile(files, season, path, f) then Some(f) else None
  }

  // ----- titles -----

  /** A match carries no anilist id; only a provider supplies one. */
  function NewItem(library: nat, m: Match): Item {
    Item(library, m.title, m.kind, m.ids.(anilist := None), m.status, None, None, None, [], false)
  }

  function FillText(stored: Option<string>, offered: Option<string>): Option<string> {
    if Given(offered) && !Given(stored) then offered else stored
  }

  function FillInt(stored: Option<int>, offered: Option<int>): Option<int> {
    if offered.Some? && offered.value != 0 && (stored.None? || stored.value == 0) then offered else stored
  }

  /** A title already known: external ids are only ever filled in, never overwritten. */
  function Backfilled(i: Item, m: Match): Item {
    i.(kind := m.kind,
       ids := Ids(FillInt(i.ids.year, m.ids.year), FillText(i.ids.imdb, m.ids.imdb),
                  FillInt(i.ids.tmdb, m.ids.tmdb), FillInt(i.ids.tvdb, m.ids.tvdb),
                  FillInt(i.ids.anidb, m.ids.anidb), i.ids.anilist),
       status := if m.status == Matched && i.status in {Unmatched, Unresolved} then Matched else i.status)
  }

  function SeasonNumber(m: Match): Option<int> {
    if m.kind == Show then m.season else None
  }

  // ----- _process_file -----

  function Current(b: Body, st: Stat): bool {
    b.fingerprint == Some(st.digest) && b.mtime == Some(st.mtime)
  }

  /** The title and season rows a match selects, inserted when missing. */
  datatype Shelf = Shelf(item: nat, season: nat, items: map<nat, Item>, seasons: map<nat, Season>, created: bool)

  ghost function Shelve(db: Db, library: nat, m: Match): Shelf {
    var known := FindItem(db.items, library, m.title);
    var item := if known.Some? then known.value else NextId(db.items.Keys);
    var items := db.items[item := if known.Some? then Backfilled(db.items[item], m) else NewItem(library, m)];
    var shelf := FindSeason(db.seasons, item, SeasonNumber(m));
    var season := if shelf.Some? then shelf.value else NextId(db.seasons.Keys);
    Shelf(item, season, items, db.seasons[season := Season(item, SeasonNumber(m))], known.None?)
  }

  predicate Readable(obs: Observation) {
    obs.probe.Some? && obs.stat.Some? && obs.sidecars.Some?
  }

  /** One file, one transaction. */
  ghost function Process(db: Db, library: nat, path: Path, obs: Observation, force: bool): Step {
    if obs.found.None? then RolledBack(false)
    else
      var shelf := Shelve(db, library, obs.found.value);
      Placement(db, shelf, path, obs, force)
  }

  /** Once title and season are known: look for the row by season and path. */
  ghost function Placement(db: Db, shelf: Shelf, path: Path, obs: Observation, force: bool): Step {
    var row := FindFile(db.files, shelf.season, path);
    if row.Some? then Rescan(db, shelf, row.value, obs, force) else Insertion(db, shelf, path, obs)
  }

  lemma PlacementReadsFilesAndLog(db: Db, other: Db, shelf: Shelf, path: Path, obs: Observation, force: bool)
    requires db.files == other.files && db.log == other.log
    ensures Placement(db, shelf, path, obs, force) == Placement(other, shelf, path, obs, force)
  {
  }

  lemma PlacementCreates(db: Db, shelf: Shelf, path: Path, obs: Observation, force: bool)
    ensures Placement(db, shelf, path, obs, force).created == shelf.created
  {
  }

  /** No row under that season: a new one, unless the unique index on path refuses it. */
  ghost function Insertion(db: Db, shelf: Shelf, path: Path, obs: Observation): Step {
    if PathTaken(db, path) || !Readable(obs) then RolledBack(shelf.created)
    else
      var id := NextId(db.files.Keys);
      var after := Refreshed(BLANK, obs.probe.value, obs.stat.value, obs.sidecars.value);
      Committed(Db(shelf.items, shelf.seasons, db.files[id := File(shelf.season, path, after)],
                   db.log + [FileEvent(Added, id, path, None, Some(after))]),
                FilesAdded, shelf.created, shelf.item, shelf.season, id)
  }

  /** The row is already filed where the match says. */
  ghost function Rescan(db: Db, shelf: Shelf, f: nat, obs: Observation, force: bool): Step
    requires f in db.files
  {
    var row := db.files[f];
    if !force && obs.stat.None? then RolledBack(shelf.created)
    else if !force && Current(row.body, obs.stat.value) then
      Committed(db.(items := shelf.items, seasons := shelf.seasons), FilesUnchanged,
                shelf.created, shelf.item, shelf.season, f)
    else if !Readable(obs) then RolledBack(shelf.created)
    else
      var after := Refreshed(row.body, obs.probe.value, obs.stat.value, obs.sidecars.value);
      var files := db.files[f := row.(body := after)];
      if MeaningfulChange(row.body, after) then
        Committed(Db(shelf.items, shelf.seasons, files,
                     db.log + [FileEvent(Changed, f, row.path, Some(row.body), Some(after))]),
                  FilesChanged, shelf.created, shelf.item, shelf.season, f)
      else
        Committed(Db(shelf.items, shelf.seasons, files, db.log), FilesUnchanged,
                  shelf.created, shelf.item, shelf.season, f)
  }

  ghost function After(db: Db, s: Step): Db {
    if s.Committed? then s.db else db
  }

  // ----- what one transaction does to the rows -----

  /** Rows `item`, `season` and `file` of `next` are upserted over `db`, nothing else is touched,
      and the three sit under one another. */
  ghost predicate Upserts(db: Db, next: Db, item: nat, season: nat, file: nat) {
    && item in next.items && season in next.seasons && file in next.files
    && next.items == db.items[item := next.items[item]]
    && next.seasons == db.seasons[season := next.seasons[season]]
    && next.files == db.files[file := next.files[file]]
    && next.seasons[season].item == item && next.files[file].season == season
    && (if item in db.items then IsItem(db.items, next.items[item].library, next.items[item].title, item)
        else FindItem(db.items, next.items[item].library, next.items[item].title).None?)
    && (if season in db.seasons then db.seasons[season] == next.seasons[season]
        else FindSeason(db.seasons, item, next.seasons[season].number).None?)
    && (if file in db.files then IsFile(db.files, season, next.files[file].path, file)
        else !PathTaken(db, next.files[file].path))
  }

  lemma ShelveUpserts(db: Db, library: nat, m: Match)
    ensures var s := Shelve(db, library, m);
            && s.item in s.items && s.season in s.seasons
            && s.items == db.items[s.item := s.items[s.item]]
            && s.seasons == db.seasons[s.season := Season(s.item, SeasonNumber(m))]
            && s.items[s.item].library == library && s.items[s.item].title == m.title
            && (s.created <==> s.item !in db.items)
            && (if s.created then FindItem(db.items, library, m.title).None? else IsItem(db.items, library, m.title, s.item))
            && (if s.season in db.seasons then db.seasons[s.season] == Season(s.item, SeasonNumber(m))
                else FindSeason(db.seasons, s.item, SeasonNumber(m)).None?)
  {
  }

  /** Storing any contents in row `f` of the selected shelf is such an upsert. */
  lemma StoreUpserts(db: Db, library: nat, m: Match, f: nat, row: File, log: seq<Event>)
    requires row.season == Shelve(db, library, m).season
    requires if f in db.files then IsFile(db.files, row.season, row.path, f) else !PathTaken(db, row.path)
    ensures var s := Shelve(db, library, m);
            Upserts(db, Db(s.items, s.seasons, db.files[f := row], log), s.item, s.season, f)
  {
    ShelveUpserts(db, library, m);
  }

  /** Every committed call upserts one title, one season and one file row, filed where the match says. */
  lemma ProcessUpserts(db: Db, library: nat, path: Path, obs: Observation, force: bool)
    requires Process(db, library, path, obs, force).Committed?
    ensures var s := Process(db, library, path, obs, force); var m := obs.found.value;
            && Upserts(db, s.db, s.item, s.season, s.file)
            && IsItem(s.db.items, library, m.title, s.item)
            && s.db.seasons[s.season].number == SeasonNumber(m)
            && s.db.files[s.file].path == path
            && (s.created <==> s.item !in db.items)
            && (s.outcome == FilesAdded <==> s.file !in db.files)
  {
    var s := Process(db, library, path, obs, force);
    var m := obs.found.value;
    ShelveUpserts(db, library, m);
    var shelf := Shelve(db, library, m);
    var row := FindFile(db.files, shelf.season, path);
    if row.Some? {
      assert db.files == db.files[row.value := db.files[row.value]];
      RescanShape(db, shelf, row.value, obs, force);
    }
    StoreUpserts(db, library, m, s.file, s.db.files[s.file], s.db.log);
  }

  lemma RescanShape(db: Db, shelf: Shelf, f: nat, obs: Observation, force: bool)
    requires f in db.files && Rescan(db, shelf, f, obs, force).Committed?
    ensures var s := Rescan(db, shelf, f, obs, force);
            && s.file == f && s.item == shelf.item && s.season == shelf.season && s.created == shelf.created
            && s.outcome != FilesAdded && f in s.db.files
            && s.db.files[f] == db.files[f].(body := s.db.files[f].body)
            && s.db == Db(shelf.items, shelf.seasons, db.files[f := s.db.files[f]], s.db.log)
  {
    assert db.files == db.files[f := db.files[f]];
  }

  // ----- the structural invariant, one conjunct at a time -----

  lemma UpsertKeepsKeys(db: Db, next: Db, item: nat, season: nat, file: nat)
    requires ForeignKeys(db) && NoEmptyParents(db) && Upserts(db, next, item, season, file)
    ensures ForeignKeys(next) && NoEmptyParents(next)
  {
    forall s <- next.seasons ensures HasFile(next, s) {
      if s == season {
        assert next.files[file].season == s;
      } else {
        assert HasFile(db, s);
        var f :| f in db.files && db.files[f].season == s;
        assert next.files[f].season == s;
      }
    }
    forall i <- next.items ensures HasSeason(next, i) {
      if i == item {
        assert next.seasons[season].item == i;
      } else {
        assert HasSeason(db, i);
        var s :| s in db.seasons && db.seasons[s].item == i;
        assert next.seasons[s].item == i;
      }
    }
  }

  lemma UpsertKeepsUniqueness(db: Db, next: Db, item: nat, season: nat, file: nat)
    requires UniqueTitles(db) && UniqueSeasons(db) && UniquePaths(db)
    requires Upserts(db, next, item, season, file)
    ensures UniqueTitles(next) && UniqueSeasons(next) && UniquePaths(next)
  {
    UniqueTitlesAfter(db, next, item, season, file);
    UniqueSeasonsAfter(db, next, item, season, file);
    UniquePathsAfter(db, next, item, season, file);
  }

  lemma UniqueTitlesAfter(db: Db, next: Db, item: nat, season: nat, file: nat)
    requires UniqueTitles(db) && Upserts(db, next, item, season, file)
    ensures UniqueTitles(next)
  {
    var library, title := next.items[item].library, next.items[item].title;
    forall i | i in next.items && i != item ensures !IsItem(db.items, library, title, i) {
      if item in db.items {
        assert IsItem(db.items, library, title, item);
      }
    }
  }

  lemma UniqueSeasonsAfter(db: Db, next: Db, item: nat, season: nat, file: nat)
    requires UniqueSeasons(db) && Upserts(db, next, item, season, file)
    ensures UniqueSeasons(next)
  {
    forall s | s in next.seasons && s != season
      ensures !IsSeason(db.seasons, item, next.seasons[season].number, s)
    {
    }
  }

  lemma UniquePathsAfter(db: Db, next: Db, item: nat, season: nat, file: nat)
    requires UniquePaths(db) && Upserts(db, next, item, season, file)
    ensures UniquePaths(next)
  {
  }

  lemma ProcessKeepsStructure(db: Db, library: nat, path: Path, obs: Observation, force: bool)
    requires Structural(db)
    ensures Structural(After(db, Process(db, library, path, obs, force)))
  {
    var s := Process(db, library, path, obs, force);
    if s.Committed? {
      ProcessUpserts(db, library, path, obs, force);
      UpsertKeepsKeys(db, s.db, s.item, s.season, s.file);
      UpsertKeepsUniqueness(db, s.db, s.item, s.season, s.file);
    }
  }

  // ----- exactly when a file fails -----

  function Destination(library: nat, m: Match): Home {
    Home(library, m.title, SeasonNumber(m))
  }

  ghost predicate FiledElsewhere(db: Db, path: Path, home: Home)
    requires ForeignKeys(db)
  {
    exists f :: f in db.files && db.files[f].path == path && HomeOf(db, f) != home
  }

  ghost predicate UpToDate(db: Db, path: Path, st: Stat) {
    exists f :: f in db.files && db.files[f].path == path
                && db.files[f].body.fingerprint == Some(st.digest) && db.files[f].body.mtime == Some(st.mtime)
  }

  /** A row with the path is found under the shelf the match selects iff that is its home. */
  lemma FoundIffHome(db: Db, library: nat, m: Match, f: nat)
    requires ForeignKeys(db) && UniqueTitles(db) && UniqueSeasons(db) && f in db.files
    ensures HomeOf(db, f) == Destination(library, m) <==> db.files[f].season == Shelve(db, library, m).season
  {
    var s := db.files[f].season;
    var i := db.seasons[s].item;
    ShelveUpserts(db, library, m);
    if HomeOf(db, f) == Destination(library, m) {
      assert IsItem(db.items, library, m.title, i);
      assert IsSeason(db.seasons, i, SeasonNumber(m), s);
    }
  }

  /** A file's transaction rolls back exactly when the match raises; or the path is already filed
      under another title or season, so the unique index refuses the insert; or something that has
      to be read cannot be. */
  lemma ProcessFailsExactlyWhen(db: Db, library: nat, path: Path, obs: Observation, force: bool)
    requires Structural(db)
    ensures Process(db, library, path, obs, force).RolledBack? <==>
            || obs.found.None?
            || (var m := obs.found.value;
                FiledElsewhere(db, path, Home(library, m.title, if m.kind == Show then m.season else None)))
            || ((obs.probe.None? || obs.stat.None? || obs.sidecars.None?)
                && (force || obs.stat.None? || !UpToDate(db, path, obs.stat.value)))
  {
    if obs.found.Some? {
      forall f | f in db.files
        ensures HomeOf(db, f) == Destination(library, obs.found.value)
                <==> db.files[f].season == Shelve(db, library, obs.found.value).season
      {
        FoundIffHome(db, library, obs.found.value, f);
      }
    }
    RowsDecide(db, library, path, obs, force);
  }

  lemma RowsDecide(db: Db, library: nat, path: Path, obs: Observation, force: bool)
    requires ForeignKeys(db) && UniquePaths(db)
    requires obs.found.Some? ==> forall f <- db.files ::
               HomeOf(db, f) == Destination(library, obs.found.value)
               <==> db.files[f].season == Shelve(db, library, obs.found.value).season
    ensures Process(db, library, path, obs, force).RolledBack? <==>
            || obs.found.None?
            || FiledElsewhere(db, path, Destination(library, obs.found.value))
            || (!Readable(obs) && (force || obs.stat.None? || !UpToDate(db, path, obs.stat.value)))
  {
    if obs.found.Some? {
      var season := Shelve(db, library, obs.found.value).season;
      if f :| f in db.files && db.files[f].path == path {
        assert forall g | g in db.files && db.files[g].path == path :: g == f;
        assert db.files[f].season == season <==> IsFile(db.files, season, path, f);
      }
    }
  }

  // ----- what a committed file reports -----

  /** A row found at home is probed again when forced or out of date. */
  predicate Probes(b: Body, st: Stat, force: bool) {
    force || b.fingerprint != Some(st.digest) || b.mtime != Some(st.mtime)
  }

  predicate SameDigest(before: Body, after: Body) {
    Given(before.fingerprint) && before.fingerprint == after.fingerprint
  }

  /** The same nine columns, the same subtitle summary, as many tracks. */
  predicate LooksAlike(before: Body, after: Body) {
    && before.facts == after.facts && before.subtitleSummary == after.subtitleSummary
    && |before.tracks| == |after.tracks|
  }

  lemma QuietExactlyWhen(before: Body, after: Body)
    ensures !MeaningfulChange(before, after) <==> SameDigest(before, after) || LooksAlike(before, after)
  {
  }

  /** The contents a probe of this observation gives a row. */
  function Seen(b: Body, obs: Observation): Body
    requires Readable(obs)
  {
    Refreshed(b, obs.probe.value, obs.stat.value, obs.sidecars.value)
  }

  lemma RescanOutcome(db: Db, shelf: Shelf, f: nat, obs: Observation, force: bool)
    requires f in db.files && Rescan(db, shelf, f, obs, force).Committed?
    ensures var s := Rescan(db, shelf, f, obs, force); var before := db.files[f].body;
            && obs.stat.Some? && (Probes(before, obs.stat.value, force) ==> Readable(obs)) && f in s.db.files
            && s.db.files[f].body == (if Probes(before, obs.stat.value, force) then Seen(before, obs) else before)
            && (s.outcome == FilesChanged <==> s.db.log != db.log)
            && (s.outcome == FilesChanged <==> Probes(before, obs.stat.value, force)
                                               && !SameDigest(before, Seen(before, obs))
                                               && !LooksAlike(before, Seen(before, obs)))
  {
    if Readable(obs) {
      QuietExactlyWhen(db.files[f].body, Seen(db.files[f].body, obs));
    }
  }

  /** The row a committed call settled on was there before: what it holds now, and when that is an event. */
  ghost predicate Reports(before: Body, after: Body, obs: Observation, force: bool, event: bool) {
    && obs.stat.Some? && (Probes(before, obs.stat.value, force) ==> Readable(obs))
    && after == (if Probes(before, obs.stat.value, force) then Seen(before, obs) else before)
    && (event <==> Probes(before, obs.stat.value, force) && !SameDigest(before, after) && !LooksAlike(before, after))
  }

  /** The transaction's outcome, from the row it found or did not find. */
  lemma PlacementOutcome(db: Db, shelf: Shelf, path: Path, obs: Observation, force: bool)
    requires Placement(db, shelf, path, obs, force).Committed?
    ensures var s := Placement(db, shelf, path, obs, force); var row := FindFile(db.files, shelf.season, path);
            && s.file in s.db.files && (s.outcome == FilesAdded <==> row.None?)
            && (s.outcome == FilesUnchanged <==> s.db.log == db.log)
            && (row.Some? ==>
                  && s.file == row.value
                  && Reports(db.files[s.file].body, s.db.files[s.file].body, obs, force, s.outcome == FilesChanged))
  {
    var row := FindFile(db.files, shelf.season, path);
    if row.Some? {
      RescanShape(db, shelf, row.value, obs, force);
      RescanOutcome(db, shelf, row.value, obs, force);
    }
  }

  lemma TakenMeansFound(db: Db, shelf: Shelf, path: Path, obs: Observation, force: bool)
    requires UniquePaths(db) && Placement(db, shelf, path, obs, force).Committed?
    ensures FindFile(db.files, shelf.season, path).Some? <==> PathTaken(db, path)
  {
  }

  /** A committed file is reported added exactly when its path was not stored; otherwise its row is probed
      exactly when forced or out of date, and reported changed, with an event, exactly when it was probed,
      its digest moved, and some gap-free column, the subtitle summary or the number of tracks with it. */
  lemma OutcomesExactlyWhen(db: Db, library: nat, path: Path, obs: Observation, force: bool)
    requires Structural(db) && Process(db, library, path, obs, force).Committed?
    ensures var s := Process(db, library, path, obs, force);
            && s.file in s.db.files && (s.outcome == FilesAdded <==> !PathTaken(db, path))
            && (s.outcome == FilesUnchanged <==> s.db.log == db.log)
            && (PathTaken(db, path) ==>
                  && s.file in db.files && db.files[s.file].path == path
                  && Reports(db.files[s.file].body, s.db.files[s.file].body, obs, force, s.outcome == FilesChanged))
  {
    var shelf := Shelve(db, library, obs.found.value);
    TakenMeansFound(db, shelf, path, obs, force);
    PlacementOutcome(db, shelf, path, obs, force);
  }

  /** Contents that move without any event: exactly when the row was probed and either its digest stayed
      the same, so that new sidecars, say, move the subtitle columns alone, or nothing the event looks at
      moved, so that only the tracks themselves, the bit rate or the file's stamps did. */
  lemma SilentMovesExactlyWhen(db: Db, library: nat, path: Path, obs: Observation, force: bool)
    requires Structural(db) && Process(db, library, path, obs, force).Committed? && PathTaken(db, path)
    ensures var s := Process(db, library, path, obs, force);
            && s.file in s.db.files && s.file in db.files && obs.stat.Some?
            && var before, after := db.files[s.file].body, s.db.files[s.file].body;
            && (Probes(before, obs.stat.value, force) ==> Readable(obs))
            && (s.db.log == db.log && after != before <==>
                  && Probes(before, obs.stat.value, force) && Seen(before, obs) != before
                  && (SameDigest(before, Seen(before, obs)) || LooksAlike(before, Seen(before, obs))))
            && (s.db.log == db.log && after.subtitleSummary != before.subtitleSummary <==>
                  && Probes(before, obs.stat.value, force) && SameDigest(before, Seen(before, obs))
                  && Seen(before, obs).subtitleSummary != before.subtitleSummary)
  {
    OutcomesExactlyWhen(db, library, path, obs, force);
  }
}
