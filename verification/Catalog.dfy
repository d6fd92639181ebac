/** The stored rows (models.py), the outbox log, and what every committed state satisfies. */
module Catalog {
  import opened Prelude

  type Path = string

  // ----- media files and their streams -----

  datatype StreamKind = Video | Audio | Subtitle | Data

  datatype Track = Track(position: int, kind: StreamKind, codec: Option<string>,
                         language: Option<string>, languageRaw: Option<string>,
                         isDefault: bool, isExternal: bool)

  datatype Picture = Picture(codec: Option<string>, width: Option<int>, height: Option<int>,
                             dynamicRange: Option<string>)

  /** The columns whose history the outbox promises to carry without gaps. */
  datatype Facts = Facts(size: Option<int>, container: Option<string>, duration: Option<real>,
                         picture: Picture, audioSummary: Option<string>)

  /** Everything a snapshot of a file row holds besides its id and path. */
  datatype Body = Body(facts: Facts, bitRate: Option<int>, subtitleSummary: Option<string>,
                       tracks: seq<Track>, fingerprint: Option<string>, mtime: Option<real>)

  const BLANK := Body(Facts(None, None, None, Picture(None, None, None, None), None),
                      None, None, [], None, None)

  // ----- titles -----

  datatype Kind = Movie | Show
  datatype Label = MovieLabel | TvLabel | AnimeLabel | AnimeMovieLabel
  datatype MatchStatus = Matched | Unresolved | Unmatched | Manual

  datatype Ids = Ids(year: Option<int>, imdb: Option<string>, tmdb: Option<int>,
                     tvdb: Option<int>, anidb: Option<int>, anilist: Option<int>)

  datatype ProviderAnswer = ProviderAnswer(source: string, isAnime: Option<bool>,
                                           originCountry: Option<string>, genres: seq<string>)

  datatype Verdict = Verdict(classification: Label, confidence: real, reasons: seq<string>)

  datatype Item = Item(library: nat, title: string, kind: Kind, ids: Ids, status: MatchStatus,
                       provider: Option<ProviderAnswer>,
                       classification: Option<Label>, confidence: Option<real>, reasons: seq<string>,
                       overridden: bool)

  datatype Season = Season(item: nat, number: Option<int>)

  datatype File = File(season: nat, path: Path, body: Body)

  // ----- the outbox -----

  datatype FileChange = Added | Changed | Removed

  datatype Event =
    | FileEvent(change: FileChange, id: nat, path: Path, before: Option<Body>, after: Option<Body>)
    | Reclassified(item: nat, oldLabel: Option<Label>, newLabel: Option<Label>)
    | Identified(item: nat)

  datatype Db = Db(items: map<nat, Item>, seasons: map<nat, Season>, files: map<nat, File>,
                   log: seq<Event>)

  const EMPTY := Db(map[], map[], map[], [])

  // ----- what every committed state satisfies -----

  ghost predicate ForeignKeys(db: Db) {
    && (forall s <- db.seasons :: db.seasons[s].item in db.items)
    && (forall f <- db.files :: db.files[f].season in db.seasons)
  }

  /** The unique index on media_files.path. */
  ghost predicate UniquePaths(db: Db) {
    forall f, g | f in db.files && g in db.files && db.files[f].path == db.files[g].path :: f == g
  }

  ghost predicate UniqueTitles(db: Db) {
    forall i, j | i in db.items && j in db.items && db.items[i].library == db.items[j].library
                  && db.items[i].title == db.items[j].title :: i == j
  }

  /** One season per number, the unnumbered season included: SQL's own constraint on
      (item_id, number) lets any number of NULLs through. */
  ghost predicate UniqueSeasons(db: Db) {
    forall s, t | s in db.seasons && t in db.seasons && db.seasons[s] == db.seasons[t] :: s == t
  }

  ghost predicate HasFile(db: Db, season: nat) {
    exists f :: f in db.files && db.files[f].season == season
  }

  ghost predicate HasSeason(db: Db, item: nat) {
    exists s :: s in db.seasons && db.seasons[s].item == item
  }

  ghost predicate NoEmptyParents(db: Db) {
    && (forall s <- db.seasons :: HasFile(db, s))
    && (forall i <- db.items :: HasSeason(db, i))
  }

  ghost predicate Structural(db: Db) {
    ForeignKeys(db) && UniquePaths(db) && UniqueTitles(db) && UniqueSeasons(db) && NoEmptyParents(db)
  }

  ghost function Paths(db: Db): set<Path> {
    set f | f in db.files :: db.files[f].path
  }

  ghost predicate PathTaken(db: Db, path: Path) {
    exists f :: f in db.files && db.files[f].path == path
  }

  function LibraryOf(db: Db, f: nat): nat
    requires ForeignKeys(db) && f in db.files
  {
    db.items[db.seasons[db.files[f].season].item].library
  }

  /** Where a row sits: the title and season number it is filed under. */
  datatype Home = Home(library: nat, title: string, number: Option<int>)

  function HomeOf(db: Db, f: nat): Home
    requires ForeignKeys(db) && f in db.files
  {
    var season := db.seasons[db.files[f].season];
    Home(db.items[season.item].library, db.items[season.item].title, season.number)
  }
}
