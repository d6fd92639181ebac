/** Telling anime, series and film apart (classify/classifier.py). Scores are whole hundredths, so the
    float rounding of the weights is not part of this model. */
module Classifier {
  import opened Prelude
  import opened Catalog
  import opened Audio

  // ----- what a verdict is made from -----

  datatype Signals = Signals(source: string, kind: Option<Kind>, isAnime: Option<bool>,
                             originCountry: Option<string>)

  datatype Parsed = Parsed(anime: bool, releaseGroup: Option<string>)

  /** kind is None for anything but the two kinds the matcher produces. */
  datatype Title = Title(kind: Option<Kind>, ids: Ids, hint: string, files: nat, tracks: seq<Stream>,
                         parsed: Option<Parsed>, rawName: Option<string>, provider: Option<Signals>)

  datatype Axis = Film | Series | Anime

  /** Why an axis scored; the rendered sentence is left to the reader. */
  datatype Reason =
    | ProviderAnime(source: string, origin: Option<string>)
    | ProviderNotAnime(source: string, origin: Option<string>)
    | ProviderFilm(source: string)
    | ProviderSeries(source: string)
    | ParsedAsMovie
    | ParsedAsShow
    | AnidbId
    | TvdbId
    | JapaneseAudio
    | ForeignSubtitles
    | NonJapaneseAudio
    | OneFile
    | ManyFiles(count: nat)
    | GuessitFlag
    | FansubGroup(group: string)
    | BracketName
    | LibraryHint(hint: string)
    | NoEvidence
    | OverrodeHint(overruled: Axis, winner: Axis)

  datatype Classification = Classification(verdict: Label, confidence: real, reasons: seq<Reason>)

  const HINT_WEIGHT := 15

  function Weight(r: Reason): nat {
    match r
    case ProviderAnime(_, _) => 70
    case ProviderNotAnime(_, _) => 40
    case ProviderFilm(_) => 60
    case ProviderSeries(_) => 60
    case ParsedAsMovie => 30
    case ParsedAsShow => 15
    case AnidbId => 60
    case TvdbId => 20
    case JapaneseAudio => 45
    case ForeignSubtitles => 25
    case NonJapaneseAudio => 10
    case OneFile => 15
    case ManyFiles(_) => 5
    case GuessitFlag => 20
    case FansubGroup(_) => 40
    case BracketName => 15
    case LibraryHint(_) => HINT_WEIGHT
    case NoEvidence => 0
    case OverrodeHint(_, _) => 0
  }

  // ----- release names -----

  const FANSUB_GROUPS: set<string> := {
    "SubsPlease", "Erai-raws", "HorribleSubs", "Underwater", "Anime Time", "EMBER", "Judas", "Sokrates",
    "ASW", "Commie", "GJM", "Kaleido", "LostYears", "Nii-sama", "Ohys-Raws", "Pas"
  }

  function IndexOf(s: string, c: char): (k: nat)
    ensures k <= |s| && (k < |s| ==> s[k] == c)
    ensures forall i | 0 <= i < k :: s[i] != c
  {
    if s == "" || s[0] == c then 0
    else
      var k := 1 + IndexOf(s[1..], c);
      assert forall i | 1 <= i < k :: s[i] == s[1..][i - 1];
      k
  }

  predicate LeadsWith(name: string, group: string) {
    group != "" && ']' !in group && "[" + group + "]" <= name
  }

  /** The leading [Group] of a file name: what the pattern ^\[([^\]]+)\] captures. */
  function BracketGroup(name: string): Option<string> {
    if name == "" || name[0] != '[' then None
    else
      var k := IndexOf(name, ']');
      if k == |name| || k == 1 then None else Some(name[1..k])
  }

  lemma IndexAt(s: string, c: char, k: nat)
    requires k < |s| && s[k] == c && forall i | 0 <= i < k :: s[i] != c
    ensures IndexOf(s, c) == k
  {
  }

  lemma LeadingGroup(name: string, group: string)
    requires LeadsWith(name, group)
    ensures |group| + 1 < |name| && name[0] == '[' && name[|group| + 1] == ']'
    ensures name[1..|group| + 1] == group && forall i | 0 <= i <= |group| :: name[i] != ']'
  {
    var tag := "[" + group + "]";
    assert name[..|tag|] == tag;
    assert name[0] == tag[0] && name[|group| + 1] == tag[|group| + 1];
    assert name[1..|group| + 1] == tag[1..|group| + 1] == group;
    forall i | 0 < i <= |group| ensures name[i] != ']' {
      assert name[i] == group[i - 1];
    }
  }

  lemma BracketGroupExactlyWhen(name: string, group: string)
    ensures BracketGroup(name) == Some(group) <==> LeadsWith(name, group)
  {
    if LeadsWith(name, group) {
      LeadingGroup(name, group);
      IndexAt(name, ']', |group| + 1);
    }
    if BracketGroup(name) == Some(group) {
      var k := IndexOf(name, ']');
      forall i | 0 <= i < |group| ensures group[i] != ']' {
        assert group[i] == name[i + 1];
      }
      assert name[..k + 1] == "[" + group + "]";
    }
  }

  // ----- scores and lists of reasons -----

  /** The three scores. */
  datatype Score = Score(film: nat, series: nat, anime: nat) {
    function Of(a: Axis): nat {
      match a case Film => film case Series => series case Anime => anime
    }

    function Total(): nat { film + series + anime }

    /** max over a dict keeps the first of equals: movie, tv, anime. */
    function Top(): Axis {
      if film >= series && film >= anime then Film else if series >= anime then Series else Anime
    }

    predicate LeansAnime() { anime > series && anime > 0 }

    function Plus(a: Axis, points: nat): Score {
      match a
      case Film => this.(film := film + points)
      case Series => this.(series := series + points)
      case Anime => this.(anime := anime + points)
    }

    function WithHint(h: Option<Axis>): Score {
      if h.None? then this else Plus(h.value, HINT_WEIGHT)
    }
  }

  /** One score given, with its reason. */
  datatype Entry = Entry(axis: Axis, points: nat, reason: Reason)

  /** The reasons of the three axes, each list in the order it was appended to. */
  datatype Board = Board(film: seq<Reason>, series: seq<Reason>, anime: seq<Reason>) {
    function Of(a: Axis): seq<Reason> {
      match a case Film => film case Series => series case Anime => anime
    }

    function With(a: Axis, r: Reason): Board {
      match a
      case Film => this.(film := film + [r])
      case Series => this.(series := series + [r])
      case Anime => this.(anime := anime + [r])
    }
  }

  function Points(log: seq<Entry>): Score {
    if log == [] then Score(0, 0, 0)
    else
      var last := log[|log| - 1];
      Points(log[..|log| - 1]).Plus(last.axis, last.points)
  }

  function BoardOf(log: seq<Entry>): Board {
    if log == [] then Board([], [], [])
    else
      var last := log[|log| - 1];
      BoardOf(log[..|log| - 1]).With(last.axis, last.reason)
  }

  lemma OneMore(log: seq<Entry>, e: Entry)
    ensures Points(log + [e]) == Points(log).Plus(e.axis, e.points)
    ensures BoardOf(log + [e]) == BoardOf(log).With(e.axis, e.reason)
  {
    assert (log + [e])[..|log|] == log;
  }

  // ----- the signals -----

  function AnimeAnswer(s: Signals): seq<Entry> {
    match s.isAnime
    case Some(true) => [Entry(Anime, 70, ProviderAnime(s.source, s.originCountry))]
    case Some(false) =>
      var no := ProviderNotAnime(s.source, s.originCountry);
      [Entry(Series, 40, no), Entry(Film, 40, no)]
    case None => []
  }

  function KindAnswer(s: Signals): seq<Entry> {
    match s.kind
    case Some(Movie) => [Entry(Film, 60, ProviderFilm(s.source))]
    case Some(Show) => [Entry(Series, 60, ProviderSeries(s.source)), Entry(Anime, 60, ProviderSeries(s.source))]
    case None => []
  }

  function ProviderReasons(p: Option<Signals>): seq<Entry> {
    if p.None? then [] else AnimeAnswer(p.value) + KindAnswer(p.value)
  }

  function FormatReasons(kind: Option<Kind>): seq<Entry> {
    match kind
    case Some(Movie) => [Entry(Film, 30, ParsedAsMovie)]
    case Some(Show) => [Entry(Series, 15, ParsedAsShow)]
    case None => []
  }

  /** An anidb id silences a tvdb id, and so does an imdb id. */
  function IdReasons(ids: Ids): seq<Entry> {
    if ids.anidb.Some? then [Entry(Anime, 60, AnidbId)]
    else if ids.tvdb.Some? && (ids.imdb.None? || ids.imdb.value == "") then [Entry(Series, 20, TvdbId)]
    else []
  }

  function AudioReasons(japanese: bool, foreignSubs: bool, anyAudio: bool): seq<Entry> {
    if japanese && foreignSubs then [Entry(Anime, 45, JapaneseAudio), Entry(Anime, 25, ForeignSubtitles)]
    else if japanese then [Entry(Anime, 45, JapaneseAudio)]
    else if anyAudio then [Entry(Series, 10, NonJapaneseAudio)]
    else []
  }

  function StructureReasons(files: nat, kind: Option<Kind>): seq<Entry> {
    if files == 1 && kind != Some(Show) then [Entry(Film, 15, OneFile)]
    else if files > 1 then [Entry(Series, 5, ManyFiles(files)), Entry(Anime, 5, ManyFiles(files))]
    else []
  }

  function FlagReasons(parsed: Option<Parsed>): seq<Entry> {
    if parsed.Some? && parsed.value.anime then [Entry(Anime, 20, GuessitFlag)] else []
  }

  /** A known group, as parsed or failing that as bracketed, outranks an unknown bracket. */
  function GroupReasons(parsed: Option<string>, bracket: Option<string>): seq<Entry> {
    if parsed.Some? && parsed.value in FANSUB_GROUPS then [Entry(Anime, 40, FansubGroup(parsed.value))]
    else if bracket.None? then []
    else if bracket.value in FANSUB_GROUPS then [Entry(Anime, 40, FansubGroup(bracket.value))]
    else [Entry(Anime, 15, BracketName)]
  }

  function ParsedGroup(parsed: Option<Parsed>): Option<string> {
    if parsed.Some? then parsed.value.releaseGroup else None
  }

  function Bracketed(rawName: Option<string>): Option<string> {
    if rawName.Some? then BracketGroup(rawName.value) else None
  }

  function Gathered(t: Title, japanese: bool, foreignSubs: bool, anyAudio: bool, bracket: Option<string>): seq<Entry> {
    ProviderReasons(t.provider) + FormatReasons(t.kind) + IdReasons(t.ids)
    + AudioReasons(japanese, foreignSubs, anyAudio) + StructureReasons(t.files, t.kind)
    + FlagReasons(t.parsed) + GroupReasons(ParsedGroup(t.parsed), bracket)
  }

  /** Everything but the library's hint, in the order classify gathers it. */
  function Evidence(t: Title): seq<Entry> {
    Gathered(t, JapanesePrimary(t.tracks), ForeignSubs(t.tracks), PrimariesOf(t.tracks) != [], Bracketed(t.rawName))
  }

  function HintAxis(hint: string): Option<Axis> {
    if hint == "movie" then Some(Film) else if hint == "tv" then Some(Series)
    else if hint == "anime" then Some(Anime) else None
  }

  /** The evidence and the folder's hint. */
  function Ledger(evidence: seq<Entry>, axis: Option<Axis>, hint: string): seq<Entry> {
    if axis.None? then evidence else evidence + [Entry(axis.value, HINT_WEIGHT, LibraryHint(hint))]
  }

  // ----- picking -----

  predicate MovieFormat(t: Title) {
    if t.provider.Some? && t.provider.value.kind.Some? then t.provider.value.kind == Some(Movie)
    else t.kind == Some(Movie)
  }

  function LabelOf(a: Axis): Label {
    match a case Film => MovieLabel case Series => TvLabel case Anime => AnimeLabel
  }

  function FinalLabel(s: Score, movieFormat: bool): Label {
    if s.LeansAnime() && movieFormat then AnimeMovieLabel else LabelOf(s.Top())
  }

  function Share(part: nat, total: nat): real {
    if total == 0 then 0.0 else part as real / total as real
  }

  function Confidence(s: Score, movieFormat: bool): real {
    Share(if s.LeansAnime() && movieFormat then s.anime + s.film else s.Of(s.Top()), s.Total())
  }

  /** The ledger with the notes _pick adds to the winner's reasons; neither is worth anything. */
  function Noted(ledger: seq<Entry>, e: Score, hint: Option<Axis>): seq<Entry> {
    var top := e.WithHint(hint).Top();
    var some := if BoardOf(ledger).Of(top) == [] then ledger + [Entry(top, 0, NoEvidence)] else ledger;
    if hint.Some? && hint.value != top && e.Of(top) > e.Of(hint.value) then
      some + [Entry(top, 0, OverrodeHint(hint.value, top))]
    else some
  }

  /** `shown` holds the reasons with their notes, `s` the score with the hint. */
  function Settled(shown: Board, s: Score, movieFormat: bool): Classification {
    Classification(FinalLabel(s, movieFormat), Confidence(s, movieFormat),
                   if s.LeansAnime() && movieFormat then shown.anime + shown.film else shown.Of(s.Top()))
  }

  function Judged(evidence: seq<Entry>, hint: string, movieFormat: bool): Classification {
    var e, axis := Points(evidence), HintAxis(hint);
    Settled(BoardOf(Noted(Ledger(evidence, axis, hint), e, axis)), e.WithHint(axis), movieFormat)
  }

  function Classified(t: Title): Classification {
    Judged(Evidence(t), t.hint, MovieFormat(t))
  }

  // ----- the label, seen from the scores -----

  /** A film that leans anime is an anime movie, and nothing else is; plain anime never goes to a
      movie-format title. */
  lemma LabelsExactlyWhen(s: Score, movieFormat: bool)
    ensures FinalLabel(s, movieFormat) == AnimeMovieLabel <==> movieFormat && s.anime > s.series
    ensures FinalLabel(s, movieFormat) == AnimeLabel <==> !movieFormat && s.anime > s.series && s.anime > s.film
    ensures FinalLabel(s, movieFormat) == TvLabel <==> s.series > s.film && s.series >= s.anime
  {
  }

  lemma Ratio(p: real, n: real, c: real)
    requires n > 0.0
    ensures p >= c * n <==> p / n >= c
    ensures p > c * n <==> p / n > c
  {
    var x := p / n;
    assert x * n == p;
    assert (x - c) * n == p - c * n;
    if x > c {
      assert (x - c) * n > 0.0;
    } else if x < c {
      assert (c - x) * n > 0.0;
    }
  }

  lemma ShareBounds(part: nat, total: nat)
    requires part <= total && total > 0
    ensures Share(part, total) <= 1.0
    ensures 3 * part >= total ==> Share(part, total) >= 1.0 / 3.0
    ensures 2 * part > total ==> Share(part, total) > 0.5
  {
    var p, n := part as real, total as real;
    Ratio(p, n, 1.0);
    Ratio(p, n, 1.0 / 3.0);
    Ratio(p, n, 0.5);
    assert 3.0 * p == (3 * part) as real && 2.0 * p == (2 * part) as real;
  }

  /** With any score at all the confidence lies between a third and one, and above a half for an anime
      movie; with none the title is a movie by default, with confidence zero. */
  lemma ConfidenceIsAShare(s: Score, movieFormat: bool)
    ensures s.Total() > 0 ==> 1.0 / 3.0 <= Confidence(s, movieFormat) <= 1.0
    ensures FinalLabel(s, movieFormat) == AnimeMovieLabel ==> Confidence(s, movieFormat) > 0.5
    ensures s.Total() == 0 ==> FinalLabel(s, movieFormat) == MovieLabel && Confidence(s, movieFormat) == 0.0
  {
    if s.Total() > 0 {
      var part := if s.LeansAnime() && movieFormat then s.anime + s.film else s.Of(s.Top());
      assert 3 * part >= s.Total();
      ShareBounds(part, s.Total());
    }
  }

  predicate AnimeSide(verdict: Label) {
    verdict == AnimeLabel || verdict == AnimeMovieLabel
  }

  /** More anime evidence never takes a title off the anime side. */
  lemma AnimeIsMonotone(s: Score, more: nat, movieFormat: bool)
    requires AnimeSide(FinalLabel(s, movieFormat))
    ensures AnimeSide(FinalLabel(s.(anime := s.anime + more), movieFormat))
  {
  }

  // ----- what the folder hint can do -----

  predicate Precedes(a: Axis, b: Axis) {
    (a == Film && b != Film) || (a == Series && b == Anime)
  }

  /** A hint changes the raw winner exactly when it lifts its own axis over it, so the new winner is the
      hinted axis and its evidence was within the hint's weight of the best. */
  lemma HintChangesTheWinnerExactlyWhen(e: Score, h: Axis)
    ensures e.WithHint(Some(h)).Top() != e.Top()
            <==> h != e.Top() && (e.Of(h) + HINT_WEIGHT > e.Of(e.Top())
                                  || (e.Of(h) + HINT_WEIGHT == e.Of(e.Top()) && Precedes(h, e.Top())))
    ensures e.WithHint(Some(h)).Top() != e.Top() ==>
              e.WithHint(Some(h)).Top() == h && e.Of(e.Top()) - e.Of(h) <= HINT_WEIGHT
  {
  }

  ghost predicate HintProof(e: Score, movieFormat: bool) {
    forall h: Option<Axis> :: FinalLabel(e.WithHint(h), movieFormat) == FinalLabel(e, movieFormat)
  }

  /** Evidence out of the hint's reach, axis against axis: in a movie format anime against series, and if
      series leads, film against series; otherwise the best axis against the other two. */
  predicate OutOfReach(e: Score, movieFormat: bool) {
    if movieFormat then
      || e.anime > e.series + HINT_WEIGHT
      || (e.series >= e.anime + HINT_WEIGHT
          && (e.film >= e.series + HINT_WEIGHT || e.series > e.film + HINT_WEIGHT))
    else
      || (e.film >= e.series + HINT_WEIGHT && e.film >= e.anime + HINT_WEIGHT)
      || (e.series > e.film + HINT_WEIGHT && e.series >= e.anime + HINT_WEIGHT)
      || (e.anime > e.film + HINT_WEIGHT && e.anime > e.series + HINT_WEIGHT)
  }

  /** Exactly which evidence fixes the final label whatever the library's kind. */
  lemma HintCannotMatterExactlyWhen(e: Score, movieFormat: bool)
    ensures HintProof(e, movieFormat) <==> OutOfReach(e, movieFormat)
  {
    AllAxesAreHinted(e, movieFormat, FinalLabel(e.WithHint(Some(Film)), movieFormat),
                     FinalLabel(e.WithHint(Some(Series)), movieFormat),
                     FinalLabel(e.WithHint(Some(Anime)), movieFormat));
  }

  predicate Apart(x: nat, y: nat) {
    x > y + HINT_WEIGHT || y > x + HINT_WEIGHT
  }

  /** Titles whose evidence is clear by more than the hint's weight are labelled the same in every library. */
  lemma ClearEvidenceOutvotesEveryFolder(e: Score, movieFormat: bool)
    requires forall a | a != e.Top() :: e.Of(e.Top()) > e.Of(a) + HINT_WEIGHT
    requires Apart(e.anime, e.series)
    ensures HintProof(e, movieFormat)
  {
    HintCannotMatterExactlyWhen(e, movieFormat);
    assert e.Of(Film) == e.film && e.Of(Series) == e.series && e.Of(Anime) == e.anime;
  }

  /** Evidence for one axis alone: a contrary folder outvotes it exactly when it is worth less than the
      hint, or the same and the folder's axis comes first. */
  lemma LoneEvidenceOutvotedExactlyWhen(e: Score, winner: Axis, h: Axis)
    requires h != winner && e.Of(winner) > 0 && e.Total() == e.Of(winner)
    ensures e.WithHint(Some(h)).Top() == h
            <==> e.Of(winner) < HINT_WEIGHT || (e.Of(winner) == HINT_WEIGHT && Precedes(h, winner))
  {
    match h case Film => case Series => case Anime =>
  }

  // ----- the two cases the comments rule out -----

  const NO_IDS := Ids(None, None, None, None, None, None)

  lemma VerdictFromScores(t: Title)
    ensures Classified(t).verdict == FinalLabel(Points(Evidence(t)).WithHint(HintAxis(t.hint)), MovieFormat(t))
  {
  }

  /** The verdict the title would get in a library with this hint. */
  function VerdictUnder(t: Title, hint: string): Label {
    Classified(t.(hint := hint)).verdict
  }

  lemma VerdictUnderHint(t: Title, hint: string)
    ensures VerdictUnder(t, hint) == FinalLabel(Points(Evidence(t)).WithHint(HintAxis(hint)), MovieFormat(t))
  {
    var u := t.(hint := hint);
    VerdictFromScores(u);
    assert Evidence(u) == Evidence(t);
  }

  ghost predicate SameForEveryHint(verdict: string -> Label) {
    forall h: string :: verdict(h) == verdict("")
  }

  lemma SameExactlyWhenProof(verdict: string -> Label, e: Score, movieFormat: bool)
    requires forall h: string :: verdict(h) == FinalLabel(e.WithHint(HintAxis(h)), movieFormat)
    ensures SameForEveryHint(verdict) <==> HintProof(e, movieFormat)
  {
    AllAxesAreHinted(e, movieFormat, verdict("movie"), verdict("tv"), verdict("anime"));
    assert verdict("") == FinalLabel(e, movieFormat);
  }

  /** Whole titles: every kind of library gives the same verdict exactly when the scores its evidence adds
      up to are out of the hint's reach. */
  lemma FoldersAgreeExactlyWhen(t: Title)
    ensures SameForEveryHint((h: string) => VerdictUnder(t, h)) <==> OutOfReach(Points(Evidence(t)), MovieFormat(t))
  {
    var verdict := (h: string) => VerdictUnder(t, h);
    forall h: string ensures verdict(h) == FinalLabel(Points(Evidence(t)).WithHint(HintAxis(h)), MovieFormat(t)) {
      VerdictUnderHint(t, h);
    }
    SameExactlyWhenProof(verdict, Points(Evidence(t)), MovieFormat(t));
    HintCannotMatterExactlyWhen(Points(Evidence(t)), MovieFormat(t));
  }

  lemma AllAxesAreHinted(e: Score, movieFormat: bool, film: Label, series: Label, anime: Label)
    requires film == FinalLabel(e.WithHint(Some(Film)), movieFormat)
    requires series == FinalLabel(e.WithHint(Some(Series)), movieFormat)
    requires anime == FinalLabel(e.WithHint(Some(Anime)), movieFormat)
    ensures HintProof(e, movieFormat) <==> FinalLabel(e, movieFormat) == film == series == anime
    ensures HintAxis("movie") == Some(Film) && HintAxis("tv") == Some(Series) && HintAxis("anime") == Some(Anime)
    ensures HintAxis("") == None
  {
    if FinalLabel(e, movieFormat) == film == series == anime {
      forall h: Option<Axis> ensures FinalLabel(e.WithHint(h), movieFormat) == FinalLabel(e, movieFormat) {
        match h
        case None =>
        case Some(a) => assert a == Film || a == Series || a == Anime;
      }
    }
  }

  lemma ParsedShowScores(t: Title)
    requires t == Title(Some(Show), NO_IDS, t.hint, 1, [], None, None, None)
    ensures Points(Evidence(t)) == Score(0, 15, 0)
  {
    OneMore([], Entry(Series, 15, ParsedAsShow));
    assert Evidence(t) == [] + [Entry(Series, 15, ParsedAsShow)];
  }

  lemma HintsOnAParsedShow(hint: string)
    ensures FinalLabel(Score(0, 15, 0).WithHint(HintAxis(hint)), false)
            == if hint == "movie" then MovieLabel else TvLabel
  {
  }

  /** "Any actual evidence outvotes the folder" is false: a name parsed as an episode, with nothing else to
      go on, is called a movie in a movie library, because the hint weighs as much as that evidence. */
  lemma ParsedShowLosesToAMovieFolder(t: Title)
    requires t == Title(Some(Show), NO_IDS, t.hint, 1, [], None, None, None)
    ensures Classified(t).verdict == if t.hint == "movie" then MovieLabel else TvLabel
  {
    ParsedShowScores(t);
    VerdictFromScores(t);
    HintsOnAParsedShow(t.hint);
  }

  /** The anime lean is read after the hint: a movie-format title in an anime library is an anime movie
      exactly when its series evidence is less than its anime evidence plus the hint, anime or not. */
  lemma AnimeFolderMakesAnimeMoviesExactlyWhen(t: Title)
    requires t.hint == "anime"
    ensures Classified(t).verdict == AnimeMovieLabel
            <==> MovieFormat(t) && Points(Evidence(t)).anime + HINT_WEIGHT > Points(Evidence(t)).series
  {
    VerdictFromScores(t);
    LabelsExactlyWhen(Points(Evidence(t)).WithHint(Some(Anime)), MovieFormat(t));
  }

  const ENGLISH := Stream(1, Track(0, Audio, None, Some("en"), None, true, false))

  lemma EnglishFilmEvidence(t: Title)
    requires t == Title(Some(Movie), NO_IDS, t.hint, 1, [ENGLISH], None, None, None)
    ensures Evidence(t)
            == [Entry(Film, 30, ParsedAsMovie)] + [Entry(Series, 10, NonJapaneseAudio)] + [Entry(Film, 15, OneFile)]
  {
    LoneStream(ENGLISH);
    EnglishIsNotJapanese();
  }

  lemma ThreePoints(a: Entry, b: Entry, c: Entry)
    ensures Points([a] + [b] + [c])
            == Score(0, 0, 0).Plus(a.axis, a.points).Plus(b.axis, b.points).Plus(c.axis, c.points)
  {
    OneMore([], a);
    assert [] + [a] == [a];
    OneMore([a], b);
    OneMore([a] + [b], c);
  }

  lemma EnglishFilmScores(t: Title)
    requires t == Title(Some(Movie), NO_IDS, t.hint, 1, [ENGLISH], None, None, None)
    ensures Points(Evidence(t)) == Score(45, 10, 0)
  {
    EnglishFilmEvidence(t);
    ThreePoints(Entry(Film, 30, ParsedAsMovie), Entry(Series, 10, NonJapaneseAudio), Entry(Film, 15, OneFile));
  }

  /** One English-audio film with no anime evidence at all is an anime movie in an anime library. */
  lemma EnglishFilmInAnimeFolder(t: Title)
    requires t == Title(Some(Movie), NO_IDS, t.hint, 1, [ENGLISH], None, None, None)
    ensures Points(Evidence(t)).anime == 0
    ensures Classified(t).verdict == if t.hint == "anime" then AnimeMovieLabel else MovieLabel
  {
    EnglishFilmScores(t);
    VerdictFromScores(t);
  }

  // ----- dubs -----

  /** Dub insensitivity: for every title, however many dubs in whatever language are muxed into its files,
      and wherever their streams land, the whole verdict stays the same. */
  lemma DubsChangeNothing(t: Title, dubs: seq<Dub>)
    requires AreDubs(t.tracks, dubs)
    ensures Classified(t.(tracks := Dubbed(t.tracks, dubs))) == Classified(t)
  {
    DubsKeepEvidence(t.tracks, dubs);
  }

  /** Of the tracks classify sees only three things. */
  lemma OnlyThreeThingsCount(t: Title, tracks: seq<Stream>)
    requires JapanesePrimary(tracks) == JapanesePrimary(t.tracks) && ForeignSubs(tracks) == ForeignSubs(t.tracks)
    requires PrimariesOf(tracks) != [] <==> PrimariesOf(t.tracks) != []
    ensures Classified(t.(tracks := tracks)) == Classified(t)
  {
  }

  // ----- the reasons account for the verdict -----

  function Worth(reasons: seq<Reason>): nat {
    if reasons == [] then 0 else Worth(reasons[..|reasons| - 1]) + Weight(reasons[|reasons| - 1])
  }

  lemma {:induction false} WorthJoin(a: seq<Reason>, b: seq<Reason>)
    ensures Worth(a + b) == Worth(a) + Worth(b)
    decreases |b|
  {
    if b == [] {
      assert a + b == a;
    } else {
      WorthJoin(a, b[..|b| - 1]);
      assert (a + b)[..|a + b| - 1] == a + b[..|b| - 1];
    }
  }

  lemma WorthOneMore(list: seq<Reason>, r: Reason)
    ensures Worth(list + [r]) == Worth(list) + Weight(r)
  {
    assert (list + [r])[..|list|] == list;
  }

  lemma BackedOneMore(b: Board, s: Score, e: Entry, a: Axis)
    requires Worth(b.Of(a)) == s.Of(a) && e.points == Weight(e.reason)
    ensures Worth(b.With(e.axis, e.reason).Of(a)) == s.Plus(e.axis, e.points).Of(a)
  {
    WorthOneMore(b.Of(a), e.reason);
    assert b.With(e.axis, e.reason).Of(a) == if a == e.axis then b.Of(a) + [e.reason] else b.Of(a);
    assert s.Plus(e.axis, e.points).Of(a) == if a == e.axis then s.Of(a) + e.points else s.Of(a);
  }

  /** Each axis's score is what its listed reasons are worth. */
  lemma {:induction false} ScoresAreBacked(log: seq<Entry>, a: Axis)
    requires forall e <- log :: e.points == Weight(e.reason)
    ensures Worth(BoardOf(log).Of(a)) == Points(log).Of(a)
  {
    if log != [] {
      var front, last := log[..|log| - 1], log[|log| - 1];
      ScoresAreBacked(front, a);
      BackedOneMore(BoardOf(front), Points(front), last, a);
    }
  }

  lemma {:induction false} BoardHolds(log: seq<Entry>, a: Axis, r: Reason)
    ensures r in BoardOf(log).Of(a) <==> exists e <- log :: e.axis == a && e.reason == r
  {
    if log != [] {
      var front, last := log[..|log| - 1], log[|log| - 1];
      BoardHolds(front, a, r);
      assert forall e :: e in log <==> e in front || e == last;
    }
  }

  lemma NoteIsWorthless(log: seq<Entry>, a: Axis, r: Reason)
    ensures Points(log + [Entry(a, 0, r)]) == Points(log)
    ensures BoardOf(log + [Entry(a, 0, r)]).Of(a) != []
  {
    OneMore(log, Entry(a, 0, r));
  }

  lemma NotesAreWorthless(ledger: seq<Entry>, e: Score, hint: Option<Axis>)
    ensures Points(Noted(ledger, e, hint)) == Points(ledger)
    ensures BoardOf(Noted(ledger, e, hint)).Of(e.WithHint(hint).Top()) != []
  {
    var top := e.WithHint(hint).Top();
    NoteIsWorthless(ledger, top, NoEvidence);
    var some := if BoardOf(ledger).Of(top) == [] then ledger + [Entry(top, 0, NoEvidence)] else ledger;
    if hint.Some? {
      NoteIsWorthless(some, top, OverrodeHint(hint.value, top));
    }
  }

  lemma MergedAccounts(shown: Board, s: Score)
    requires Worth(shown.anime) == s.anime && Worth(shown.film) == s.film && s.LeansAnime()
    ensures shown.anime + shown.film != [] && Worth(shown.anime + shown.film) == s.anime + s.film
  {
    WorthJoin(shown.anime, shown.film);
  }

  lemma SettledAccounts(shown: seq<Entry>, s: Score, movieFormat: bool)
    requires forall e <- shown :: e.points == Weight(e.reason)
    requires Points(shown) == s && BoardOf(shown).Of(s.Top()) != []
    ensures Settled(BoardOf(shown), s, movieFormat).reasons != []
    ensures Settled(BoardOf(shown), s, movieFormat).confidence
            == Share(Worth(Settled(BoardOf(shown), s, movieFormat).reasons), s.Total())
  {
    ScoresAreBacked(shown, Anime);
    ScoresAreBacked(shown, Film);
    ScoresAreBacked(shown, s.Top());
    if s.LeansAnime() && movieFormat {
      MergedAccounts(BoardOf(shown), s);
    }
  }

  /** On which axes a reason can appear. */
  predicate Fits(r: Reason, a: Axis) {
    match r
    case ProviderAnime(_, _) | AnidbId | JapaneseAudio | ForeignSubtitles | GuessitFlag | FansubGroup(_)
      | BracketName => a == Anime
    case ProviderNotAnime(_, _) => a != Anime
    case ProviderFilm(_) | ParsedAsMovie | OneFile => a == Film
    case ProviderSeries(_) | ManyFiles(_) => a != Film
    case ParsedAsShow | TvdbId | NonJapaneseAudio => a == Series
    case LibraryHint(hint) => HintAxis(hint) == Some(a)
    case NoEvidence => false
    case OverrodeHint(_, winner) => winner == a
  }

  /** The order in which kinds of reasons are appended. */
  function Rank(r: Reason): nat {
    match r
    case ProviderAnime(_, _) => 0
    case ProviderNotAnime(_, _) => 1
    case ProviderFilm(_) => 2
    case ProviderSeries(_) => 3
    case ParsedAsMovie => 4
    case ParsedAsShow => 5
    case AnidbId => 6
    case TvdbId => 7
    case JapaneseAudio => 8
    case ForeignSubtitles => 9
    case NonJapaneseAudio => 10
    case OneFile => 11
    case ManyFiles(_) => 12
    case GuessitFlag => 13
    case FansubGroup(_) => 14
    case BracketName => 15
    case LibraryHint(_) => 16
    case NoEvidence => 17
    case OverrodeHint(_, _) => 18
  }

  predicate Priced(e: Entry) {
    Fits(e.reason, e.axis) && e.points == Weight(e.reason)
  }

  /** No reason twice on an axis, each on an axis it fits and with its weight, kinds of reasons from lo up
      to hi. */
  ghost predicate Tidy(log: seq<Entry>, lo: nat, hi: nat) {
    && NoDuplicates(log)
    && (forall i | 0 <= i < |log| :: Priced(log[i]) && lo <= Rank(log[i].reason) < hi)
  }

  lemma TidyJoin(a: seq<Entry>, b: seq<Entry>, lo: nat, mid: nat, hi: nat)
    requires Tidy(a, lo, mid) && Tidy(b, mid, hi) && lo <= mid <= hi
    ensures Tidy(a + b, lo, hi)
  {
    forall i, j | 0 <= i < j < |a + b| ensures (a + b)[i] != (a + b)[j] {
      if i < |a| <= j {
        assert Rank(a[i].reason) < mid <= Rank(b[j - |a|].reason);
      }
    }
  }

  lemma ProviderIsTidy(p: Option<Signals>)
    ensures Tidy(ProviderReasons(p), 0, 4)
  {
    if p.Some? {
      assert Tidy(AnimeAnswer(p.value), 0, 2);
      assert Tidy(KindAnswer(p.value), 2, 4);
      TidyJoin(AnimeAnswer(p.value), KindAnswer(p.value), 0, 2, 4);
    }
  }

  lemma MatchIsTidy(kind: Option<Kind>, ids: Ids)
    ensures Tidy(FormatReasons(kind), 4, 6) && Tidy(IdReasons(ids), 6, 8)
  {
  }

  lemma FilesAreTidy(japanese: bool, foreignSubs: bool, anyAudio: bool, files: nat, kind: Option<Kind>)
    ensures Tidy(AudioReasons(japanese, foreignSubs, anyAudio), 8, 11)
    ensures Tidy(StructureReasons(files, kind), 11, 13)
  {
  }

  lemma NamesAreTidy(parsed: Option<Parsed>, group: Option<string>, bracket: Option<string>)
    ensures Tidy(FlagReasons(parsed), 13, 14) && Tidy(GroupReasons(group, bracket), 14, 16)
  {
  }

  lemma GatheredIsTidy(t: Title, japanese: bool, foreignSubs: bool, anyAudio: bool, bracket: Option<string>)
    ensures Tidy(Gathered(t, japanese, foreignSubs, anyAudio, bracket), 0, 16)
  {
    ProviderIsTidy(t.provider);
    MatchIsTidy(t.kind, t.ids);
    FilesAreTidy(japanese, foreignSubs, anyAudio, t.files, t.kind);
    NamesAreTidy(t.parsed, ParsedGroup(t.parsed), bracket);
    SevenTidy(ProviderReasons(t.provider), FormatReasons(t.kind), IdReasons(t.ids),
              AudioReasons(japanese, foreignSubs, anyAudio), StructureReasons(t.files, t.kind),
              FlagReasons(t.parsed), GroupReasons(ParsedGroup(t.parsed), bracket));
  }

  lemma SevenTidy(a: seq<Entry>, b: seq<Entry>, c: seq<Entry>, d: seq<Entry>, e: seq<Entry>, f: seq<Entry>,
                  g: seq<Entry>)
    requires Tidy(a, 0, 4) && Tidy(b, 4, 6) && Tidy(c, 6, 8) && Tidy(d, 8, 11)
    requires Tidy(e, 11, 13) && Tidy(f, 13, 14) && Tidy(g, 14, 16)
    ensures Tidy(a + b + c + d + e + f + g, 0, 16)
  {
    TidyJoin(a, b, 0, 4, 6);
    TidyJoin(a + b, c, 0, 6, 8);
    TidyJoin(a + b + c, d, 0, 8, 11);
    TidyJoin(a + b + c + d, e, 0, 11, 13);
    TidyJoin(a + b + c + d + e, f, 0, 13, 14);
    TidyJoin(a + b + c + d + e + f, g, 0, 14, 16);
  }

  lemma LedgerIsTidy(evidence: seq<Entry>, axis: Option<Axis>, hint: string)
    requires Tidy(evidence, 0, 16) && axis == HintAxis(hint)
    ensures Tidy(Ledger(evidence, axis, hint), 0, 17)
  {
    if axis.Some? {
      TidyJoin(evidence, [Entry(axis.value, HINT_WEIGHT, LibraryHint(hint))], 0, 16, 17);
    }
  }

  lemma NotedIsTidy(ledger: seq<Entry>, e: Score, hint: Option<Axis>)
    requires Tidy(ledger, 0, 17) && BoardOf(ledger).Of(e.WithHint(hint).Top()) != []
    ensures Tidy(Noted(ledger, e, hint), 0, 19)
  {
    var top := e.WithHint(hint).Top();
    if hint.Some? {
      TidyJoin(ledger, [Entry(top, 0, OverrodeHint(hint.value, top))], 0, 18, 19);
    }
  }

  /** Conservation: the points of the listed reasons are the whole numerator of the confidence, so a
      verdict's reasons account for all of it; and there is always at least one reason. */
  lemma ReasonsAccountForConfidence(t: Title)
    ensures Classified(t).reasons != []
    ensures Classified(t).confidence
            == Share(Worth(Classified(t).reasons), Points(Evidence(t)).WithHint(HintAxis(t.hint)).Total())
  {
    var evidence := Gathered(t, JapanesePrimary(t.tracks), ForeignSubs(t.tracks), PrimariesOf(t.tracks) != [],
                             Bracketed(t.rawName));
    GatheredIsTidy(t, JapanesePrimary(t.tracks), ForeignSubs(t.tracks), PrimariesOf(t.tracks) != [],
                   Bracketed(t.rawName));
    JudgedAccounts(evidence, t.hint, MovieFormat(t));
  }

  lemma JudgedAccounts(evidence: seq<Entry>, hint: string, movieFormat: bool)
    requires Tidy(evidence, 0, 16)
    ensures var c := Judged(evidence, hint, movieFormat);
            && c.reasons != []
            && c.confidence == Share(Worth(c.reasons), Points(evidence).WithHint(HintAxis(hint)).Total())
  {
    var e, axis := Points(evidence), HintAxis(hint);
    LedgerIsTidy(evidence, axis, hint);
    NotedAccounts(Ledger(evidence, axis, hint), e, axis, movieFormat, evidence, hint);
  }

  lemma NotesKeepPrices(ledger: seq<Entry>, e: Score, hint: Option<Axis>)
    requires Tidy(ledger, 0, 17)
    ensures forall x <- Noted(ledger, e, hint) :: x.points == Weight(x.reason)
  {
    forall x <- Noted(ledger, e, hint) ensures x.points == Weight(x.reason) {
      if x in ledger {
        assert Priced(x);
      } else {
        assert x.reason.NoEvidence? || x.reason.OverrodeHint?;
      }
    }
  }

  lemma NotedAccounts(ledger: seq<Entry>, e: Score, axis: Option<Axis>, movieFormat: bool,
                      evidence: seq<Entry>, hint: string)
    requires ledger == Ledger(evidence, axis, hint) && Tidy(ledger, 0, 17) && e == Points(evidence)
    ensures var c := Settled(BoardOf(Noted(ledger, e, axis)), e.WithHint(axis), movieFormat);
            && c.reasons != [] && c.confidence == Share(Worth(c.reasons), e.WithHint(axis).Total())
  {
    if axis.Some? {
      OneMore(evidence, Entry(axis.value, HINT_WEIGHT, LibraryHint(hint)));
    }
    NotesAreWorthless(ledger, e, axis);
    NotesKeepPrices(ledger, e, axis);
    SettledAccounts(Noted(ledger, e, axis), e.WithHint(axis), movieFormat);
  }

  /** list(dict.fromkeys(s)): first occurrences, in order. */
  function Distinct(s: seq<Reason>): seq<Reason> {
    if s == [] then []
    else
      var front := Distinct(s[..|s| - 1]);
      if s[|s| - 1] in s[..|s| - 1] then front else front + [s[|s| - 1]]
  }

  lemma {:induction false} DistinctKeepsAll(s: seq<Reason>)
    requires NoDuplicates(s)
    ensures Distinct(s) == s
  {
    if s != [] {
      var front := s[..|s| - 1];
      DistinctKeepsAll(front);
      assert s == front + [s[|s| - 1]];
    }
  }

  lemma {:induction false} TidyLists(log: seq<Entry>, a: Axis)
    requires NoDuplicates(log) && forall e <- log :: Priced(e)
    ensures NoDuplicates(BoardOf(log).Of(a))
  {
    if log != [] {
      var front, last := log[..|log| - 1], log[|log| - 1];
      TidyLists(front, a);
      if last.axis == a {
        BoardHolds(front, a, last.reason);
        assert Priced(last) && last !in front;
        assert forall e <- front :: e.axis == a && e.reason == last.reason ==> Priced(e) && e == last;
      }
    }
  }

  lemma ListsShareNothing(log: seq<Entry>)
    requires Tidy(log, 0, 19)
    ensures NoDuplicates(BoardOf(log).anime + BoardOf(log).film)
  {
    var x, y := BoardOf(log).anime, BoardOf(log).film;
    TidyLists(log, Anime);
    TidyLists(log, Film);
    forall i, j | 0 <= i < |x| && 0 <= j < |y| ensures x[i] != y[j] {
      BoardHolds(log, Anime, x[i]);
      BoardHolds(log, Film, y[j]);
      assert exists e <- log :: Priced(e) && e.axis == Anime && e.reason == x[i];
      assert exists e <- log :: Priced(e) && e.axis == Film && e.reason == y[j];
    }
  }

  /** Merging the two ledgers of an anime movie drops nothing: no reason stands on both. */
  lemma MergeDropsNothing(ledger: seq<Entry>, e: Score, hint: Option<Axis>)
    requires Tidy(ledger, 0, 17) && Points(ledger) == e.WithHint(hint) && e.WithHint(hint).LeansAnime()
    ensures var shown := BoardOf(Noted(ledger, e, hint));
            Distinct(shown.anime + shown.film) == shown.anime + shown.film
  {
    var s := e.WithHint(hint);
    assert forall x <- ledger :: Priced(x);
    ScoresAreBacked(ledger, s.Top());
    assert s.Of(s.Top()) >= s.Of(Anime) > 0;
    NotedIsTidy(ledger, e, hint);
    ListsShareNothing(Noted(ledger, e, hint));
    var shown := BoardOf(Noted(ledger, e, hint));
    DistinctKeepsAll(shown.anime + shown.film);
  }

  // ----- the scoring as it runs -----

  /** The end of _pick: the confidence, and an anime movie's merged reasons. */
  method Settle(shown: Board, s: Score, movieFormat: bool) returns (c: Classification)
    requires s.LeansAnime() && movieFormat ==> Distinct(shown.anime + shown.film) == shown.anime + shown.film
    ensures c == Settled(shown, s, movieFormat)
  {
    var top := s.Top();
    var confidence := Share(s.Of(top), s.Total());
    if s.LeansAnime() && movieFormat {
      return Classification(AnimeMovieLabel, Share(s.anime + s.film, s.Total()), Distinct(shown.anime + shown.film));
    }
    return Classification(LabelOf(top), confidence, shown.Of(top));
  }

  /** The scores and reasons dicts classify and its helpers update in place; their three keys are fixed,
      so each dict is a record. */
  class Tally {
    var scores: Score
    var reasons: Board
    ghost var log: seq<Entry>

    /** Every point scored so far is backed by a recorded reason. */
    ghost predicate Backed()
      reads this
    {
      scores == Points(log) && reasons == BoardOf(log)
    }

    constructor ()
      ensures Backed() && log == []
    {
      scores, reasons, log := Score(0, 0, 0), Board([], [], []), [];
    }

    method Add(a: Axis, weight: nat, r: Reason)
      requires Backed()
      modifies this
      ensures Backed() && log == old(log) + [Entry(a, weight, r)]
    {
      OneMore(log, Entry(a, weight, r));
      scores := scores.Plus(a, weight);
      reasons := reasons.With(a, r);
      log := log + [Entry(a, weight, r)];
    }

    /** The same points and sentence on two axes. */
    method AddToBoth(a: Axis, b: Axis, weight: nat, r: Reason)
      requires Backed()
      modifies this
      ensures Backed() && log == old(log) + [Entry(a, weight, r), Entry(b, weight, r)]
    {
      Add(a, weight, r);
      Add(b, weight, r);
    }

    method ApplyAnimeAnswer(s: Signals)
      requires Backed()
      modifies this
      ensures Backed() && log == old(log) + AnimeAnswer(s)
    {
      match s.isAnime {
        case Some(true) => Add(Anime, 70, ProviderAnime(s.source, s.originCountry));
        case Some(false) =>
          AddToBoth(Series, Film, 40, ProviderNotAnime(s.source, s.originCountry));
        case None =>
      }
    }

    method ApplyKindAnswer(s: Signals)
      requires Backed()
      modifies this
      ensures Backed() && log == old(log) + KindAnswer(s)
    {
      match s.kind {
        case Some(Movie) => Add(Film, 60, ProviderFilm(s.source));
        case Some(Show) =>
          AddToBoth(Series, Anime, 60, ProviderSeries(s.source));
        case None =>
      }
    }

    method ApplyProviderSignals(provider: Option<Signals>)
      requires Backed()
      modifies this
      ensures Backed() && log == old(log) + ProviderReasons(provider)
    {
      if provider.None? {
        return;
      }
      ApplyAnimeAnswer(provider.value);
      ApplyKindAnswer(provider.value);
    }

    method ApplyFormat(kind: Option<Kind>)
      requires Backed()
      modifies this
      ensures Backed() && log == old(log) + FormatReasons(kind)
    {
      if kind == Some(Movie) {
        Add(Film, 30, ParsedAsMovie);
      } else if kind == Some(Show) {
        Add(Series, 15, ParsedAsShow);
      }
    }

    method ApplyIds(ids: Ids)
      requires Backed()
      modifies this
      ensures Backed() && log == old(log) + IdReasons(ids)
    {
      if ids.anidb.Some? {
        Add(Anime, 60, AnidbId);
      } else if ids.tvdb.Some? && ids.anidb.None? && (ids.imdb.None? || ids.imdb.value == "") {
        Add(Series, 20, TvdbId);
      }
    }

    method ApplyAudio(japanese: bool, foreignSubs: bool, anyAudio: bool)
      requires Backed()
      modifies this
      ensures Backed() && log == old(log) + AudioReasons(japanese, foreignSubs, anyAudio)
    {
      if japanese {
        Add(Anime, 45, JapaneseAudio);
        if foreignSubs {
          Add(Anime, 25, ForeignSubtitles);
        }
      } else if anyAudio {
        Add(Series, 10, NonJapaneseAudio);
      }
    }

    method ApplyStructure(files: nat, kind: Option<Kind>)
      requires Backed()
      modifies this
      ensures Backed() && log == old(log) + StructureReasons(files, kind)
    {
      if files == 1 && kind != Some(Show) {
        Add(Film, 15, OneFile);
      } else if files > 1 {
        AddToBoth(Series, Anime, 5, ManyFiles(files));
      }
    }

    method ApplyGroup(parsed: Option<string>, bracket: Option<string>)
      requires Backed()
      modifies this
      ensures Backed() && log == old(log) + GroupReasons(parsed, bracket)
    {
      if parsed.Some? && parsed.value in FANSUB_GROUPS {
        Add(Anime, 40, FansubGroup(parsed.value));
        return;
      }
      if bracket.None? {
        return;
      }
      if bracket.value in FANSUB_GROUPS {
        Add(Anime, 40, FansubGroup(bracket.value));
      } else {
        Add(Anime, 15, BracketName);
      }
    }

    /** apply_parsed_signals. */
    method ApplyParsedSignals(parsed: Option<Parsed>, bracket: Option<string>)
      requires Backed()
      modifies this
      ensures Backed() && log == old(log) + FlagReasons(parsed) + GroupReasons(ParsedGroup(parsed), bracket)
    {
      if parsed.Some? && parsed.value.anime {
        Add(Anime, 20, GuessitFlag);
      }
      assert log == old(log) + FlagReasons(parsed);
      ApplyGroup(ParsedGroup(parsed), bracket);
    }

    /** All of classify up to the hint, given what the tracks say. */
    method Gather(t: Title, japanese: bool, foreignSubs: bool, anyAudio: bool, bracket: Option<string>)
      requires Backed() && log == []
      modifies this
      ensures Backed() && log == Gathered(t, japanese, foreignSubs, anyAudio, bracket)
    {
      ApplyProviderSignals(t.provider);
      assert log == ProviderReasons(t.provider);
      ApplyFormat(t.kind);
      ApplyIds(t.ids);
      ApplyAudio(japanese, foreignSubs, anyAudio);
      ApplyStructure(t.files, t.kind);
      ApplyParsedSignals(t.parsed, bracket);
    }

    /** Notes score nothing: only the list of the winner grows. */
    method AddNotes(before: Score, hint: Option<Axis>, top: Axis)
      requires Backed() && top == before.WithHint(hint).Top()
      modifies this
      ensures Backed() && log == Noted(old(log), before, hint)
    {
      if reasons.Of(top) == [] {
        Add(top, 0, NoEvidence);
      }
      if hint.Some? && hint.value != top && before.Of(top) > before.Of(hint.value) {
        Add(top, 0, OverrodeHint(hint.value, top));
      }
    }

    /** _pick, on the scores as they stand after the hint. */
    method Pick(before: Score, hint: Option<Axis>, movieFormat: bool) returns (c: Classification)
      requires Backed() && Tidy(log, 0, 17) && scores == before.WithHint(hint)
      modifies this
      ensures c == Settled(BoardOf(Noted(old(log), before, hint)), before.WithHint(hint), movieFormat)
    {
      var s := scores;
      if s.LeansAnime() && movieFormat {
        MergeDropsNothing(log, before, hint);
      }
      AddNotes(before, hint, s.Top());
      c := Settle(reasons, s, movieFormat);
    }

    /** The end of classify: the hint goes in last, after a copy of the evidence is kept. */
    method Conclude(hint: string, movieFormat: bool) returns (c: Classification)
      requires Backed() && Tidy(log, 0, 16)
      modifies this
      ensures c == Judged(old(log), hint, movieFormat)
    {
      var before := scores;
      var axis := HintAxis(hint);
      LedgerIsTidy(log, axis, hint);
      if axis.Some? {
        OneMore(log, Entry(axis.value, HINT_WEIGHT, LibraryHint(hint)));
        Add(axis.value, HINT_WEIGHT, LibraryHint(hint));
      }
      c := Pick(before, axis, movieFormat);
    }
  }

  /** classify. */
  method Classify(t: Title) returns (c: Classification)
    ensures c == Classified(t)
  {
    var japanese, anyAudio := AudioEvidence(t.tracks);
    var foreign := ForeignSubs(t.tracks);
    var bracket := Bracketed(t.rawName);
    var tally := new Tally();
    tally.Gather(t, japanese, foreign, anyAudio, bracket);
    GatheredIsTidy(t, japanese, foreign, anyAudio, bracket);
    c := tally.Conclude(t.hint, MovieFormat(t));
  }
}
