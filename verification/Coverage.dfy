/** Subtitle-language coverage of shows (subtitle_coverage.py): a join of shows, seasons and files, grouped
    by title in one pass, against what the stored rows say title by title. */
module Coverage {
  import opened Prelude
  import opened Catalog
  import Audio

  datatype Head = Head(title: string, year: Option<int>, library: nat, libraryName: string)
  datatype Episode = Episode(file: nat, path: Path, season: Option<int>, hasLanguage: bool)
  datatype Row = Row(item: nat, head: Head, episode: Episode)
  datatype ItemCoverage = ItemCoverage(item: nat, head: Head, total: nat, covered: nat, missing: nat,
                                       complete: bool, episodes: seq<Episode>)

  // ----- the query -----

  /** EXISTS a subtitle track of the file in this language. */
  predicate Subtitled(f: File, code: string) {
    exists t <- f.body.tracks :: t.kind == Subtitle && t.language == Some(code)
  }

  ghost predicate Joinable(db: Db, libraries: map<nat, string>) {
    ForeignKeys(db) && forall i <- db.items :: db.items[i].library in libraries
  }

  function ItemOf(db: Db, f: nat): nat
    requires ForeignKeys(db) && f in db.files
  {
    db.seasons[db.files[f].season].item
  }

  /** The title takes part: it is a show, in the asked-for library if one was asked for. */
  predicate Asked(item: Item, library: Option<nat>) {
    item.kind == Show && (library.None? || item.library == library.value)
  }

  ghost function Selected(db: Db, library: Option<nat>): set<nat>
    requires ForeignKeys(db)
  {
    set f | f in db.files && Asked(db.items[ItemOf(db, f)], library)
  }

  function RowOf(db: Db, libraries: map<nat, string>, code: string, f: nat): Row
    requires Joinable(db, libraries) && f in db.files
  {
    var item := db.items[ItemOf(db, f)];
    Row(ItemOf(db, f), Head(item.title, item.ids.year, item.library, libraries[item.library]),
        Episode(f, db.files[f].path, db.seasons[db.files[f].season].number, Subtitled(db.files[f], code)))
  }

  /** `rows` is the joined query's answer, in some order. */
  ghost predicate IsAnswer(db: Db, libraries: map<nat, string>, code: string, library: Option<nat>, rows: seq<Row>)
    requires Joinable(db, libraries)
  {
    && NoDuplicates(rows)
    && (forall r <- rows :: r.episode.file in Selected(db, library) && r == RowOf(db, libraries, code, r.episode.file))
    && (forall f <- Selected(db, library) :: RowOf(db, libraries, code, f) in rows)
  }

  // ----- the grouping loop -----

  function Started(r: Row): ItemCoverage {
    ItemCoverage(r.item, r.head, 0, 0, 0, false, [])
  }

  function Counted(c: ItemCoverage, e: Episode): ItemCoverage {
    var d := c.(episodes := c.episodes + [e], total := c.total + 1);
    if e.hasLanguage then d.(covered := d.covered + 1) else d.(missing := d.missing + 1)
  }

  function Finished(c: ItemCoverage): ItemCoverage {
    c.(complete := c.total > 0 && c.missing == 0)
  }

  /** by_item and its key order after reading `rows`. */
  function ByItem(rows: seq<Row>): map<nat, ItemCoverage> {
    if rows == [] then map[]
    else
      var m, r := ByItem(rows[..|rows| - 1]), rows[|rows| - 1];
      m[r.item := Counted(if r.item in m then m[r.item] else Started(r), r.episode)]
  }

  function Items(rows: seq<Row>): seq<nat> {
    if rows == [] then []
    else
      var keys, r := Items(rows[..|rows| - 1]), rows[|rows| - 1];
      if r.item in keys then keys else keys + [r.item]
  }

  lemma {:induction false} KeysAreItems(rows: seq<Row>, item: nat)
    ensures item in ByItem(rows) <==> item in Items(rows)
    ensures item in Items(rows) <==> exists r <- rows :: r.item == item
  {
    if rows != [] {
      var front, last := rows[..|rows| - 1], rows[|rows| - 1];
      KeysAreItems(front, item);
      KeysAreItems(front, last.item);
      assert forall r :: r in rows <==> r in front || r == last;
    }
  }

  /** compute_coverage, after the query. */
  method ComputeCoverage(rows: seq<Row>) returns (results: seq<ItemCoverage>)
    ensures |results| == |Items(rows)|
    ensures forall k | 0 <= k < |results| ::
              Items(rows)[k] in ByItem(rows) && results[k] == Finished(ByItem(rows)[Items(rows)[k]])
  {
    var byItem: map<nat, ItemCoverage> := map[];
    var keys: seq<nat> := [];
    for i := 0 to |rows|
      invariant byItem == ByItem(rows[..i]) && keys == Items(rows[..i])
    {
      var r := rows[i];
      assert rows[..i + 1][..i] == rows[..i];
      KeysAreItems(rows[..i], r.item);
      if r.item !in byItem {
        byItem := byItem[r.item := Started(r)];
        keys := keys + [r.item];
      }
      var c := byItem[r.item];
      c := c.(episodes := c.episodes + [r.episode], total := c.total + 1);
      if r.episode.hasLanguage {
        c := c.(covered := c.covered + 1);
      } else {
        c := c.(missing := c.missing + 1);
      }
      byItem := byItem[r.item := c];
    }
    assert rows[..|rows|] == rows;
    results := [];
    for k := 0 to |keys|
      invariant |results| == k
      invariant forall j | 0 <= j < k :: keys[j] in byItem && results[j] == Finished(byItem[keys[j]])
    {
      KeysAreItems(rows, keys[k]);
      var c := byItem[keys[k]];
      results := results + [c.(complete := c.total > 0 && c.missing == 0)];
    }
  }

  // ----- what a group holds -----

  /** The item's rows, in the order read. */
  function EpisodesOf(rows: seq<Row>, item: nat): seq<Episode> {
    if rows == [] then []
    else
      var r := rows[|rows| - 1];
      EpisodesOf(rows[..|rows| - 1], item) + if r.item == item then [r.episode] else []
  }

  function WithLanguage(episodes: seq<Episode>): seq<Episode> {
    if episodes == [] then []
    else
      var e := episodes[|episodes| - 1];
      WithLanguage(episodes[..|episodes| - 1]) + if e.hasLanguage then [e] else []
  }

  lemma WithLanguageOneMore(episodes: seq<Episode>, e: Episode)
    ensures WithLanguage(episodes + [e]) == WithLanguage(episodes) + if e.hasLanguage then [e] else []
  {
    assert (episodes + [e])[..|episodes|] == episodes;
  }

  predicate Consistent(c: ItemCoverage) {
    c.total == |c.episodes| && c.covered == |WithLanguage(c.episodes)| && c.covered + c.missing == c.total
  }

  lemma CountingStaysConsistent(c: ItemCoverage, e: Episode)
    requires Consistent(c)
    ensures Consistent(Counted(c, e))
  {
    WithLanguageOneMore(c.episodes, e);
  }

  /** The counters of a group are those of its episode list, and that list is its rows. */
  lemma {:induction false} GroupHolds(rows: seq<Row>, item: nat)
    requires item in ByItem(rows)
    ensures var c := ByItem(rows)[item];
            c.item == item && c.episodes == EpisodesOf(rows, item) && Consistent(c) && c.total > 0
  {
    var front, last := rows[..|rows| - 1], rows[|rows| - 1];
    if item in ByItem(front) {
      GroupHolds(front, item);
      CountingStaysConsistent(ByItem(front)[item], last.episode);
    } else {
      NotYetSeen(front, item);
      CountingStaysConsistent(Started(last), last.episode);
    }
  }

  lemma {:induction false} HeadIsThatOfARow(rows: seq<Row>, item: nat)
    requires item in ByItem(rows)
    ensures exists r <- rows :: r.item == item && r.head == ByItem(rows)[item].head
  {
    var front, last := rows[..|rows| - 1], rows[|rows| - 1];
    assert forall r :: r in rows <==> r in front || r == last;
    if item in ByItem(front) {
      HeadIsThatOfARow(front, item);
    } else {
      assert last in rows && last.head == Started(last).head;
    }
  }

  lemma {:induction false} NotYetSeen(rows: seq<Row>, item: nat)
    requires item !in ByItem(rows)
    ensures EpisodesOf(rows, item) == []
  {
    if rows != [] {
      NotYetSeen(rows[..|rows| - 1], item);
    }
  }

  lemma {:induction false} EpisodesAreRows(rows: seq<Row>, item: nat)
    ensures forall e :: e in EpisodesOf(rows, item) <==> exists r <- rows :: r.item == item && r.episode == e
  {
    if rows != [] {
      var front, last := rows[..|rows| - 1], rows[|rows| - 1];
      EpisodesAreRows(front, item);
      assert forall r :: r in rows <==> r in front || r == last;
    }
  }

  lemma {:induction false} WithLanguageHolds(episodes: seq<Episode>)
    ensures forall e :: e in WithLanguage(episodes) <==> e in episodes && e.hasLanguage
    ensures NoDuplicates(episodes) ==> NoDuplicates(WithLanguage(episodes))
  {
    if episodes != [] {
      var front, last := episodes[..|episodes| - 1], episodes[|episodes| - 1];
      WithLanguageHolds(front);
      assert forall e :: e in episodes <==> e in front || e == last;
      assert NoDuplicates(episodes) ==> last !in front;
    }
  }

  lemma {:induction false} ItemsOnce(rows: seq<Row>)
    ensures NoDuplicates(Items(rows))
  {
    if rows != [] {
      ItemsOnce(rows[..|rows| - 1]);
    }
  }

  // ----- against the stored rows -----

  ghost function FilesOfItem(db: Db, item: nat): set<nat>
    requires ForeignKeys(db)
  {
    set f | f in db.files && ItemOf(db, f) == item
  }

  ghost function SubtitledFiles(db: Db, item: nat, code: string): set<nat>
    requires ForeignKeys(db)
  {
    set f | f in db.files && ItemOf(db, f) == item && Subtitled(db.files[f], code)
  }

  /** GET /api/items?missing_subtitle_language=token keeps the item: no track of any of its files matches
      the lower-cased token. */
  ghost predicate PassesMissingFilter(db: Db, item: nat, token: string)
    requires ForeignKeys(db)
  {
    !exists f <- db.files :: ItemOf(db, f) == item && Subtitled(db.files[f], Audio.Lower(token))
  }

  function FileIds(episodes: seq<Episode>): seq<nat> {
    seq(|episodes|, i requires 0 <= i < |episodes| => episodes[i].file)
  }

  lemma {:induction false} EpisodesOnce(rows: seq<Row>, item: nat)
    requires NoDuplicates(rows)
    requires forall r, q | r in rows && q in rows && r.episode.file == q.episode.file :: r == q
    ensures NoDuplicates(FileIds(EpisodesOf(rows, item)))
  {
    if rows != [] {
      var front, last := rows[..|rows| - 1], rows[|rows| - 1];
      EpisodesOnce(front, item);
      EpisodesAreRows(front, item);
      assert last !in front;
      var before, ids := EpisodesOf(front, item), FileIds(EpisodesOf(rows, item));
      forall i, j | 0 <= i < j < |ids| ensures ids[i] != ids[j] {
        if j < |before| {
          assert FileIds(before)[i] != FileIds(before)[j];
        } else {
          assert before[i] in EpisodesOf(front, item);
          var r :| r in front && r.item == item && r.episode == before[i];
          assert r in rows && last in rows && r != last;
        }
      }
    }
  }

  lemma ItemsAreShowsWithFiles(db: Db, libraries: map<nat, string>, code: string, library: Option<nat>,
                               rows: seq<Row>, item: nat)
    requires Joinable(db, libraries) && IsAnswer(db, libraries, code, library, rows)
    ensures item in Items(rows)
            <==> item in db.items && Asked(db.items[item], library) && FilesOfItem(db, item) != {}
  {
    KeysAreItems(rows, item);
    if item in db.items && Asked(db.items[item], library) && FilesOfItem(db, item) != {} {
      var f :| f in FilesOfItem(db, item);
      assert f in Selected(db, library);
      assert RowOf(db, libraries, code, f).item == item;
    }
    if item in Items(rows) {
      var r :| r in rows && r.item == item;
      assert r.episode.file in FilesOfItem(db, item);
    }
  }

  lemma EpisodesAreTheFiles(db: Db, libraries: map<nat, string>, code: string, library: Option<nat>,
                            rows: seq<Row>, item: nat)
    requires Joinable(db, libraries) && IsAnswer(db, libraries, code, library, rows) && item in Items(rows)
    ensures Lists(FileIds(EpisodesOf(rows, item)), FilesOfItem(db, item))
    ensures forall e <- EpisodesOf(rows, item) ::
              e.file in FilesOfItem(db, item) && e.hasLanguage == Subtitled(db.files[e.file], code)
  {
    EpisodesOnce(rows, item);
    EpisodesAreRows(rows, item);
    ItemsAreShowsWithFiles(db, libraries, code, library, rows, item);
    var episodes := EpisodesOf(rows, item);
    forall f <- FilesOfItem(db, item) ensures f in FileIds(episodes) {
      var e := RowOf(db, libraries, code, f).episode;
      assert f in Selected(db, library);
      var r := RowOf(db, libraries, code, f);
      assert r in rows && r.item == item && r.episode == e;
      assert e in episodes;
      var k :| 0 <= k < |episodes| && episodes[k] == e;
      assert FileIds(episodes)[k] == f;
    }
    forall e <- episodes ensures e.file in FilesOfItem(db, item) && e.hasLanguage == Subtitled(db.files[e.file], code) {
      var r :| r in rows && r.item == item && r.episode == e;
    }
  }

  lemma LastIdIsOnlyLast(episodes: seq<Episode>)
    requires episodes != [] && NoDuplicates(FileIds(episodes))
    ensures var front, last := episodes[..|episodes| - 1], episodes[|episodes| - 1];
            && NoDuplicates(FileIds(front)) && (forall e <- front :: e.file != last.file)
            && (forall f <- FileIds(episodes) :: f in FileIds(front) || f == last.file)
  {
    var front, last := episodes[..|episodes| - 1], episodes[|episodes| - 1];
    var ids := FileIds(episodes);
    assert ids == FileIds(front) + [last.file];
    forall i, j | 0 <= i < j < |front| ensures FileIds(front)[i] != FileIds(front)[j] {
      assert ids[i] == FileIds(front)[i] && ids[j] == FileIds(front)[j];
    }
    forall e <- front ensures e.file != last.file {
      var i :| 0 <= i < |front| && front[i] == e;
      assert ids[i] == e.file && ids[|front|] == last.file;
    }
  }

  lemma {:induction false} CoveredAreSubtitled(episodes: seq<Episode>, files: set<nat>)
    requires NoDuplicates(FileIds(episodes))
    requires forall e <- episodes :: e.hasLanguage <==> e.file in files
    requires forall f <- files :: f in FileIds(episodes)
    ensures |WithLanguage(episodes)| == |files|
    decreases |episodes|
  {
    if episodes == [] {
      assert files == {};
    } else {
      var front, last := episodes[..|episodes| - 1], episodes[|episodes| - 1];
      var rest := files - {last.file};
      LastIdIsOnlyLast(episodes);
      CoveredAreSubtitled(front, rest);
      assert files == if last.hasLanguage then rest + {last.file} else rest;
    }
  }

  /** The whole report, title by title. Every show with at least one file that was asked for appears, exactly
      once; its counts are the sizes of the sets of its files and of its files with the language; it is
      complete exactly when no file lacks the language; and it has no covered episode exactly when the
      missing-subtitle filter of the API would list it for the same language. */
  lemma ReportIsExact(db: Db, libraries: map<nat, string>, code: string, library: Option<nat>, rows: seq<Row>,
                      item: nat, token: string)
    requires Joinable(db, libraries) && IsAnswer(db, libraries, code, library, rows)
    requires Audio.Lower(token) == code
    ensures NoDuplicates(Items(rows))
    ensures item in Items(rows)
            <==> && item in db.items && db.items[item].kind == Show
                 && library in {None, Some(db.items[item].library)} && FilesOfItem(db, item) != {}
    ensures item in Items(rows) ==>
              item in ByItem(rows) &&
              var c := Finished(ByItem(rows)[item]);
              && c.head == Head(db.items[item].title, db.items[item].ids.year, db.items[item].library,
                                libraries[db.items[item].library])
              && Lists(FileIds(c.episodes), FilesOfItem(db, item))
              && c.total == |FilesOfItem(db, item)| && c.covered == |SubtitledFiles(db, item, code)|
              && c.covered + c.missing == c.total
              && (c.complete <==> forall f <- FilesOfItem(db, item) :: Subtitled(db.files[f], code))
              && (c.covered == 0 <==> PassesMissingFilter(db, item, token))
  {
    ItemsOnce(rows);
    KeysAreItems(rows, item);
    ItemsAreShowsWithFiles(db, libraries, code, library, rows, item);
    if item in Items(rows) {
      GroupHolds(rows, item);
      HeadIsThatOfARow(rows, item);
      EpisodesAreTheFiles(db, libraries, code, library, rows, item);
      var episodes := EpisodesOf(rows, item);
      var files, subtitled := FilesOfItem(db, item), SubtitledFiles(db, item, code);
      ListsSize(FileIds(episodes), files);
      CoveredAreSubtitled(episodes, subtitled);
      CountsDecide(db, item, code);
    }
  }

  /** Every file is reported with its own path and season, and as having the language exactly when one of its
      subtitle streams is in it. */
  lemma EpisodesTellTheFiles(db: Db, libraries: map<nat, string>, code: string, library: Option<nat>, rows: seq<Row>,
                             item: nat)
    requires Joinable(db, libraries) && IsAnswer(db, libraries, code, library, rows) && item in ByItem(rows)
    ensures forall e <- ByItem(rows)[item].episodes ::
              && e.file in FilesOfItem(db, item) && e.path == db.files[e.file].path
              && e.season == db.seasons[db.files[e.file].season].number
              && (e.hasLanguage
                  <==> exists t <- db.files[e.file].body.tracks :: t.kind == Subtitle && t.language == Some(code))
  {
    GroupHolds(rows, item);
    EpisodesAreRows(rows, item);
    forall e <- EpisodesOf(rows, item) ensures e.file in Selected(db, library) && ItemOf(db, e.file) == item
                                               && e == RowOf(db, libraries, code, e.file).episode {
      var r :| r in rows && r.item == item && r.episode == e;
    }
  }

  function PlacesOf(rows: seq<Row>, item: nat): seq<nat> {
    if rows == [] then []
    else
      var n := |rows| - 1;
      PlacesOf(rows[..n], item) + if rows[n].item == item then [n] else []
  }

  /** A group lists its episodes in the order read. */
  lemma {:induction false} EpisodesKeepOrder(rows: seq<Row>, item: nat, at: seq<nat>)
    requires at == PlacesOf(rows, item)
    ensures |at| == |EpisodesOf(rows, item)|
    ensures forall i | 0 <= i < |at| ::
              at[i] < |rows| && rows[at[i]].item == item && rows[at[i]].episode == EpisodesOf(rows, item)[i]
    ensures forall i, j | 0 <= i < j < |at| :: at[i] < at[j]
  {
    if rows != [] {
      EpisodesKeepOrder(rows[..|rows| - 1], item, PlacesOf(rows[..|rows| - 1], item));
    }
  }

  function FirstsOf(rows: seq<Row>): seq<nat> {
    if rows == [] then []
    else
      var n := |rows| - 1;
      FirstsOf(rows[..n]) + if rows[n].item in Items(rows[..n]) then [] else [n]
  }

  lemma {:induction false} FirstsAscend(rows: seq<Row>, at: seq<nat>)
    requires at == FirstsOf(rows)
    ensures forall i | 0 <= i < |at| :: at[i] < |rows|
    ensures forall i, j | 0 <= i < j < |at| :: at[i] < at[j]
  {
    if rows != [] {
      FirstsAscend(rows[..|rows| - 1], FirstsOf(rows[..|rows| - 1]));
    }
  }

  /** rows[k] is the first row of its title. */
  ghost predicate FirstOf(rows: seq<Row>, k: nat, item: nat) {
    k < |rows| && rows[k].item == item && forall j | 0 <= j < k :: rows[j].item != item
  }

  lemma {:induction false} FirstsAreFirst(rows: seq<Row>, at: seq<nat>)
    requires at == FirstsOf(rows)
    ensures |at| == |Items(rows)|
    ensures forall i | 0 <= i < |at| :: FirstOf(rows, at[i], Items(rows)[i])
  {
    if rows != [] {
      var front, last := rows[..|rows| - 1], rows[|rows| - 1];
      FirstsAreFirst(front, FirstsOf(front));
      forall i | 0 <= i < |FirstsOf(front)| ensures FirstOf(rows, FirstsOf(front)[i], Items(front)[i]) {
        assert FirstOf(front, FirstsOf(front)[i], Items(front)[i]);
      }
      if last.item !in Items(front) {
        NotAmongThem(front, last.item);
        assert FirstOf(rows, |front|, last.item);
      }
    }
  }

  lemma NotAmongThem(rows: seq<Row>, item: nat)
    requires item !in Items(rows)
    ensures forall j | 0 <= j < |rows| :: rows[j].item != item
  {
    KeysAreItems(rows, item);
  }

  /** The report lists the titles in the order of their first rows: `at` are the places of those rows. */
  lemma TitlesKeepOrder(rows: seq<Row>, at: seq<nat>)
    requires at == FirstsOf(rows)
    ensures |at| == |Items(rows)|
    ensures forall i, j | 0 <= i < j < |at| :: at[i] < at[j]
    ensures forall i | 0 <= i < |at| ::
              at[i] < |rows| && rows[at[i]].item == Items(rows)[i]
              && forall k | 0 <= k < at[i] :: rows[k].item != Items(rows)[i]
  {
    FirstsAscend(rows, at);
    FirstsAreFirst(rows, at);
    assert forall i | 0 <= i < |at| :: FirstOf(rows, at[i], Items(rows)[i]);
  }

  lemma CountsDecide(db: Db, item: nat, code: string)
    requires ForeignKeys(db)
    ensures |SubtitledFiles(db, item, code)| == |FilesOfItem(db, item)|
            <==> forall f <- FilesOfItem(db, item) :: Subtitled(db.files[f], code)
    ensures |SubtitledFiles(db, item, code)| == 0
            <==> !exists f <- db.files :: ItemOf(db, f) == item && Subtitled(db.files[f], code)
  {
    var files, subtitled := FilesOfItem(db, item), SubtitledFiles(db, item, code);
    var without := files - subtitled;
    assert files == subtitled + without;
    assert |files| == |subtitled| + |without|;
    if forall f <- files :: Subtitled(db.files[f], code) {
      assert without == {};
    } else {
      var f :| f in files && !Subtitled(db.files[f], code);
      assert f in without;
    }
    if f :| f in db.files && ItemOf(db, f) == item && Subtitled(db.files[f], code) {
      assert f in subtitled;
    }
  }

  // ----- every joined row is counted once -----

  function Totals(rows: seq<Row>, keys: seq<nat>): nat {
    if keys == [] then 0 else Totals(rows, keys[..|keys| - 1]) + |EpisodesOf(rows, keys[|keys| - 1])|
  }

  lemma {:induction false} TotalsGrow(rows: seq<Row>, r: Row, keys: seq<nat>)
    requires NoDuplicates(keys)
    ensures Totals(rows + [r], keys) == Totals(rows, keys) + if r.item in keys then 1 else 0
    decreases |keys|
  {
    assert (rows + [r])[..|rows|] == rows;
    if keys != [] {
      var front, last := keys[..|keys| - 1], keys[|keys| - 1];
      TotalsGrow(rows, r, front);
      assert forall k :: k in keys <==> k in front || k == last;
    }
  }

  /** The totals of all groups add up to the number of joined rows. */
  lemma {:induction false} EachRowCountedOnce(rows: seq<Row>)
    ensures Totals(rows, Items(rows)) == |rows|
  {
    if rows != [] {
      var front, last := rows[..|rows| - 1], rows[|rows| - 1];
      assert rows == front + [last];
      EachRowCountedOnce(front);
      ItemsOnce(front);
      TotalsGrow(front, last, Items(front));
      if last.item !in Items(front) {
        KeysAreItems(front, last.item);
        NotYetSeen(front, last.item);
        assert Items(rows)[..|Items(rows)| - 1] == Items(front);
      }
    }
  }
}
