/** The scoring of classify read axis by axis: which signal of a title is worth what to which axis, which
    reason it puts on the record, and what adding or taking away one signal does to the verdict. */
module ScoreSheet {
  import opened Prelude
  import opened Catalog
  import opened Audio
  import opened Classifier

  // ----- the signals a title carries -----

  predicate ProviderSays(p: Option<Signals>, anime: bool) {
    p.Some? && p.value.isAnime == Some(anime)
  }

  predicate ProviderKind(p: Option<Signals>, kind: Kind) {
    p.Some? && p.value.kind == Some(kind)
  }

  ghost predicate JapanesePrimaryAudio(tracks: seq<Stream>) {
    exists f: nat, language: string :: PrimaryOf(tracks, f) == Some(language) && IsJapanese(language)
  }

  ghost predicate SomePrimaryAudio(tracks: seq<Stream>) {
    exists f: nat :: PrimaryOf(tracks, f).Some?
  }

  predicate OtherSubtitles(tracks: seq<Stream>) {
    exists s <- tracks :: s.track.kind == Subtitle && s.track.language.Some? && s.track.language.value != ""
                          && !IsJapanese(s.track.language.value)
  }

  /** A tvdb id counts only without an anidb id and without an imdb id. */
  predicate TvdbAlone(ids: Ids) {
    ids.tvdb.Some? && ids.anidb.None? && (ids.imdb.None? || ids.imdb.value == "")
  }

  predicate Flagged(parsed: Option<Parsed>) {
    parsed.Some? && parsed.value.anime
  }

  predicate ParsedAs(parsed: Option<Parsed>, group: string) {
    parsed.Some? && parsed.value.releaseGroup == Some(group)
  }

  predicate Bracketing(rawName: Option<string>, group: string) {
    rawName.Some? && LeadsWith(rawName.value, group)
  }

  ghost predicate KnownGroup(parsed: Option<Parsed>, rawName: Option<string>) {
    exists g <- FANSUB_GROUPS :: ParsedAs(parsed, g) || Bracketing(rawName, g)
  }

  ghost predicate UnknownBracket(parsed: Option<Parsed>, rawName: Option<string>) {
    !KnownGroup(parsed, rawName) && exists g: string :: Bracketing(rawName, g)
  }

  function If(b: bool, points: nat): nat {
    if b then points else 0
  }

  // ----- the sheet: what every title scores before the library's hint -----

  function FilmPoints(t: Title): nat {
    If(ProviderSays(t.provider, false), 40) + If(ProviderKind(t.provider, Movie), 60)
    + If(t.kind == Some(Movie), 30) + If(t.files == 1 && t.kind != Some(Show), 15)
  }

  ghost function SeriesPoints(t: Title): nat {
    If(ProviderSays(t.provider, false), 40) + If(ProviderKind(t.provider, Show), 60)
    + If(t.kind == Some(Show), 15) + If(TvdbAlone(t.ids), 20)
    + If(SomePrimaryAudio(t.tracks) && !JapanesePrimaryAudio(t.tracks), 10) + If(t.files > 1, 5)
  }

  ghost function AnimePoints(t: Title): nat {
    If(ProviderSays(t.provider, true), 70) + If(ProviderKind(t.provider, Show), 60) + If(t.ids.anidb.Some?, 60)
    + If(JapanesePrimaryAudio(t.tracks), 45) + If(JapanesePrimaryAudio(t.tracks) && OtherSubtitles(t.tracks), 25)
    + If(t.files > 1, 5) + If(Flagged(t.parsed), 20) + If(KnownGroup(t.parsed, t.rawName), 40)
    + If(UnknownBracket(t.parsed, t.rawName), 15)
  }

  // ----- points add up -----

  function Earned(log: seq<Entry>, a: Axis): nat {
    if log == [] then 0
    else Earned(log[..|log| - 1], a) + If(log[|log| - 1].axis == a, log[|log| - 1].points)
  }

  lemma {:induction false} EarnedIsScored(log: seq<Entry>, a: Axis)
    ensures Points(log).Of(a) == Earned(log, a)
  {
    if log != [] {
      EarnedIsScored(log[..|log| - 1], a);
    }
  }

  lemma {:induction false} EarnedJoin(x: seq<Entry>, y: seq<Entry>, a: Axis)
    ensures Earned(x + y, a) == Earned(x, a) + Earned(y, a)
    decreases |y|
  {
    if y == [] {
      assert x + y == x;
    } else {
      assert (x + y)[..|x + y| - 1] == x + y[..|y| - 1];
      EarnedJoin(x, y[..|y| - 1], a);
    }
  }

  lemma OneEarned(e: Entry, a: Axis)
    ensures Earned([e], a) == If(e.axis == a, e.points)
  {
    assert [e][..0] == [];
  }

  lemma TwoEarned(d: Entry, e: Entry, a: Axis)
    ensures Earned([d, e], a) == If(d.axis == a, d.points) + If(e.axis == a, e.points)
  {
    OneEarned(d, a);
    assert [d, e][..1] == [d];
  }

  lemma SegmentEarned(log: seq<Entry>, a: Axis)
    requires |log| <= 2
    ensures Earned(log, a) == (if |log| >= 1 then If(log[0].axis == a, log[0].points) else 0)
                              + if |log| == 2 then If(log[1].axis == a, log[1].points) else 0
  {
    if |log| == 1 {
      assert log == [log[0]];
      OneEarned(log[0], a);
    } else if |log| == 2 {
      assert log == [log[0], log[1]];
      TwoEarned(log[0], log[1], a);
    }
  }

  lemma AnimeAnswerEarned(s: Signals, a: Axis)
    ensures Earned(AnimeAnswer(s), a)
            == If(s.isAnime == Some(false) && a != Anime, 40) + If(s.isAnime == Some(true) && a == Anime, 70)
  {
    SegmentEarned(AnimeAnswer(s), a);
  }

  lemma KindAnswerEarned(s: Signals, a: Axis)
    ensures Earned(KindAnswer(s), a)
            == If(s.kind == Some(Movie) && a == Film, 60) + If(s.kind == Some(Show) && a != Film, 60)
  {
    SegmentEarned(KindAnswer(s), a);
  }

  lemma ProviderEarned(p: Option<Signals>, a: Axis)
    ensures Earned(ProviderReasons(p), a)
            == If(ProviderSays(p, false) && a != Anime, 40) + If(ProviderSays(p, true) && a == Anime, 70)
               + If(ProviderKind(p, Movie) && a == Film, 60) + If(ProviderKind(p, Show) && a != Film, 60)
  {
    match p
    case None =>
    case Some(s) =>
      AnimeAnswerEarned(s, a);
      KindAnswerEarned(s, a);
      EarnedJoin(AnimeAnswer(s), KindAnswer(s), a);
  }

  lemma FormatEarned(kind: Option<Kind>, a: Axis)
    ensures Earned(FormatReasons(kind), a)
            == If(kind == Some(Movie) && a == Film, 30) + If(kind == Some(Show) && a == Series, 15)
  {
    SegmentEarned(FormatReasons(kind), a);
  }

  lemma IdsEarned(ids: Ids, a: Axis)
    ensures Earned(IdReasons(ids), a)
            == If(TvdbAlone(ids) && a == Series, 20) + If(ids.anidb.Some? && a == Anime, 60)
  {
    SegmentEarned(IdReasons(ids), a);
  }

  lemma AudioEarned(japanese: bool, foreignSubs: bool, anyAudio: bool, a: Axis)
    ensures Earned(AudioReasons(japanese, foreignSubs, anyAudio), a)
            == If(anyAudio && !japanese && a == Series, 10) + If(japanese && a == Anime, 45)
               + If(japanese && foreignSubs && a == Anime, 25)
  {
    SegmentEarned(AudioReasons(japanese, foreignSubs, anyAudio), a);
  }

  lemma StructureEarned(files: nat, kind: Option<Kind>, a: Axis)
    ensures Earned(StructureReasons(files, kind), a)
            == If(files == 1 && kind != Some(Show) && a == Film, 15) + If(files > 1 && a != Film, 5)
  {
    SegmentEarned(StructureReasons(files, kind), a);
  }

  lemma FlagEarned(parsed: Option<Parsed>, a: Axis)
    ensures Earned(FlagReasons(parsed), a) == If(Flagged(parsed) && a == Anime, 20)
  {
    SegmentEarned(FlagReasons(parsed), a);
  }

  /** The bracketed group is the only one that leads the name. */
  lemma BracketIsLead(rawName: Option<string>)
    ensures forall g: string :: Bracketing(rawName, g) <==> Bracketed(rawName) == Some(g)
  {
    forall g: string ensures Bracketing(rawName, g) <==> Bracketed(rawName) == Some(g) {
      if rawName.Some? {
        BracketGroupExactlyWhen(rawName.value, g);
      }
    }
  }

  lemma GroupsDecide(parsed: Option<Parsed>, rawName: Option<string>)
    ensures KnownGroup(parsed, rawName)
            <==> (ParsedGroup(parsed).Some? && ParsedGroup(parsed).value in FANSUB_GROUPS)
                 || (Bracketed(rawName).Some? && Bracketed(rawName).value in FANSUB_GROUPS)
    ensures UnknownBracket(parsed, rawName) <==> !KnownGroup(parsed, rawName) && Bracketed(rawName).Some?
  {
    BracketIsLead(rawName);
    var group, bracket := ParsedGroup(parsed), Bracketed(rawName);
    assert forall g: string :: ParsedAs(parsed, g) <==> group == Some(g);
    if group.Some? && group.value in FANSUB_GROUPS {
      assert ParsedAs(parsed, group.value);
    }
    if bracket.Some? {
      assert Bracketing(rawName, bracket.value);
    }
  }

  lemma GroupEarned(parsed: Option<Parsed>, rawName: Option<string>, a: Axis)
    ensures Earned(GroupReasons(ParsedGroup(parsed), Bracketed(rawName)), a)
            == If(KnownGroup(parsed, rawName) && a == Anime, 40) + If(UnknownBracket(parsed, rawName) && a == Anime, 15)
  {
    GroupsDecide(parsed, rawName);
    SegmentEarned(GroupReasons(ParsedGroup(parsed), Bracketed(rawName)), a);
  }

  lemma PrimariesDecide(tracks: seq<Stream>)
    ensures JapanesePrimary(tracks) <==> JapanesePrimaryAudio(tracks)
    ensures PrimariesOf(tracks) != [] <==> SomePrimaryAudio(tracks)
    ensures ForeignSubs(tracks) <==> OtherSubtitles(tracks)
  {
    forall language ensures language in PrimariesOf(tracks) <==> exists f :: PrimaryOf(tracks, f) == Some(language) {
      PrimariesAreOnePerFile(tracks, language);
    }
    if PrimariesOf(tracks) != [] {
      assert PrimariesOf(tracks)[0] in PrimariesOf(tracks);
    }
    if f: nat :| PrimaryOf(tracks, f).Some? {
      assert PrimaryOf(tracks, f).value in PrimariesOf(tracks);
    }
  }

  lemma SevenEarned(b: seq<Entry>, c: seq<Entry>, d: seq<Entry>, e: seq<Entry>, f: seq<Entry>, g: seq<Entry>,
                    h: seq<Entry>, a: Axis)
    ensures Earned(b + c + d + e + f + g + h, a)
            == Earned(b, a) + Earned(c, a) + Earned(d, a) + Earned(e, a) + Earned(f, a) + Earned(g, a) + Earned(h, a)
  {
    EarnedJoin(b, c, a);
    EarnedJoin(b + c, d, a);
    EarnedJoin(b + c + d, e, a);
    EarnedJoin(b + c + d + e, f, a);
    EarnedJoin(b + c + d + e + f, g, a);
    EarnedJoin(b + c + d + e + f + g, h, a);
  }

  ghost function OnTheSheet(t: Title, a: Axis): nat {
    match a
    case Film => FilmPoints(t)
    case Series => SeriesPoints(t)
    case Anime => AnimePoints(t)
  }

  lemma AxisAddsUp(t: Title, a: Axis, p: nat, m: nat, i: nat, u: nat, s: nat, r: nat, n: nat)
    requires p == If(ProviderSays(t.provider, false) && a != Anime, 40)
                  + If(ProviderSays(t.provider, true) && a == Anime, 70)
                  + If(ProviderKind(t.provider, Movie) && a == Film, 60)
                  + If(ProviderKind(t.provider, Show) && a != Film, 60)
    requires m == If(t.kind == Some(Movie) && a == Film, 30) + If(t.kind == Some(Show) && a == Series, 15)
    requires i == If(TvdbAlone(t.ids) && a == Series, 20) + If(t.ids.anidb.Some? && a == Anime, 60)
    requires u == If(SomePrimaryAudio(t.tracks) && !JapanesePrimaryAudio(t.tracks) && a == Series, 10)
                  + If(JapanesePrimaryAudio(t.tracks) && a == Anime, 45)
                  + If(JapanesePrimaryAudio(t.tracks) && OtherSubtitles(t.tracks) && a == Anime, 25)
    requires s == If(t.files == 1 && t.kind != Some(Show) && a == Film, 15) + If(t.files > 1 && a != Film, 5)
    requires r == If(Flagged(t.parsed) && a == Anime, 20)
    requires n == If(KnownGroup(t.parsed, t.rawName) && a == Anime, 40)
                  + If(UnknownBracket(t.parsed, t.rawName) && a == Anime, 15)
    ensures p + m + i + u + s + r + n == OnTheSheet(t, a)
  {
    match a case Film => case Series => case Anime =>
  }

  lemma EvidenceEarned(t: Title, a: Axis, japanese: bool, foreignSubs: bool, anyAudio: bool)
    requires japanese == JapanesePrimary(t.tracks) && foreignSubs == ForeignSubs(t.tracks)
    requires anyAudio == (PrimariesOf(t.tracks) != [])
    ensures Earned(Evidence(t), a)
            == Earned(ProviderReasons(t.provider), a) + Earned(FormatReasons(t.kind), a) + Earned(IdReasons(t.ids), a)
               + Earned(AudioReasons(japanese, foreignSubs, anyAudio), a)
               + Earned(StructureReasons(t.files, t.kind), a) + Earned(FlagReasons(t.parsed), a)
               + Earned(GroupReasons(ParsedGroup(t.parsed), Bracketed(t.rawName)), a)
  {
    SevenEarned(ProviderReasons(t.provider), FormatReasons(t.kind), IdReasons(t.ids),
                AudioReasons(japanese, foreignSubs, anyAudio), StructureReasons(t.files, t.kind),
                FlagReasons(t.parsed), GroupReasons(ParsedGroup(t.parsed), Bracketed(t.rawName)), a);
  }

  lemma AxisIsOnTheSheet(t: Title, a: Axis)
    ensures Earned(Evidence(t), a) == OnTheSheet(t, a)
  {
    var japanese, foreignSubs, anyAudio :=
      JapanesePrimary(t.tracks), ForeignSubs(t.tracks), PrimariesOf(t.tracks) != [];
    PrimariesDecide(t.tracks);
    ProviderEarned(t.provider, a);
    FormatEarned(t.kind, a);
    IdsEarned(t.ids, a);
    AudioEarned(japanese, foreignSubs, anyAudio, a);
    StructureEarned(t.files, t.kind, a);
    FlagEarned(t.parsed, a);
    GroupEarned(t.parsed, t.rawName, a);
    EvidenceEarned(t, a, japanese, foreignSubs, anyAudio);
    AxisAddsUp(t, a, Earned(ProviderReasons(t.provider), a), Earned(FormatReasons(t.kind), a),
               Earned(IdReasons(t.ids), a), Earned(AudioReasons(japanese, foreignSubs, anyAudio), a),
               Earned(StructureReasons(t.files, t.kind), a), Earned(FlagReasons(t.parsed), a),
               Earned(GroupReasons(ParsedGroup(t.parsed), Bracketed(t.rawName)), a));
  }

  /** Every title scores what the sheet says. */
  lemma ScoresAreTheSheet(t: Title)
    ensures Points(Evidence(t)).film == FilmPoints(t)
    ensures Points(Evidence(t)).series == SeriesPoints(t)
    ensures Points(Evidence(t)).anime == AnimePoints(t)
  {
    AxisIsOnTheSheet(t, Film);
    AxisIsOnTheSheet(t, Series);
    AxisIsOnTheSheet(t, Anime);
    EarnedIsScored(Evidence(t), Film);
    EarnedIsScored(Evidence(t), Series);
    EarnedIsScored(Evidence(t), Anime);
  }

  // ----- the verdict, read off the sheet -----

  lemma FolderPoints(e: Score, hint: string)
    ensures e.WithHint(HintAxis(hint)).film == e.film + If(hint == "movie", 15)
    ensures e.WithHint(HintAxis(hint)).series == e.series + If(hint == "tv", 15)
    ensures e.WithHint(HintAxis(hint)).anime == e.anime + If(hint == "anime", 15)
  {
    assert "movie"[0] != "tv"[0] && "movie"[0] != "anime"[0] && "tv"[0] != "anime"[0];
  }

  /** A provider that names a kind overrules the parsed name. */
  predicate FilmFormat(t: Title) {
    ProviderKind(t.provider, Movie) || (!ProviderKind(t.provider, Show) && t.kind == Some(Movie))
  }

  lemma FormatOnTheSheet(t: Title)
    ensures MovieFormat(t) <==> FilmFormat(t)
  {
    if t.provider.Some? && t.provider.value.kind.Some? {
      match t.provider.value.kind.value case Movie => case Show =>
    }
  }

  /** The scores a verdict rests on. */
  function WorthOf(verdict: Label, film: nat, series: nat, anime: nat): nat {
    match verdict
    case MovieLabel => film
    case TvLabel => series
    case AnimeLabel => anime
    case AnimeMovieLabel => anime + film
  }

  lemma VerdictOnScores(c: Classification, s: Score, movieFormat: bool, film: nat, series: nat, anime: nat)
    requires c.verdict == FinalLabel(s, movieFormat) && c.confidence == Confidence(s, movieFormat)
    requires s.film == film && s.series == series && s.anime == anime
    ensures c.verdict == AnimeMovieLabel <==> movieFormat && anime > series
    ensures c.verdict == AnimeLabel <==> !movieFormat && anime > series && anime > film
    ensures c.verdict == TvLabel <==> series > film && series >= anime
  {
  }

  lemma ConfidenceOnScores(c: Classification, s: Score, movieFormat: bool, film: nat, series: nat, anime: nat)
    requires c.verdict == FinalLabel(s, movieFormat) && c.confidence == Confidence(s, movieFormat)
    requires s.film == film && s.series == series && s.anime == anime
    ensures c.confidence == Share(WorthOf(c.verdict, film, series, anime), film + series + anime)
  {
  }

  lemma ClassifiedOnScores(t: Title, s: Score)
    requires s == Points(Evidence(t)).WithHint(HintAxis(t.hint))
    ensures Classified(t).verdict == FinalLabel(s, MovieFormat(t))
    ensures Classified(t).confidence == Confidence(s, MovieFormat(t))
  {
  }

  // The sheet with the folder's points.

  function FilmTotal(t: Title): nat { FilmPoints(t) + If(t.hint == "movie", 15) }
  ghost function SeriesTotal(t: Title): nat { SeriesPoints(t) + If(t.hint == "tv", 15) }
  ghost function AnimeTotal(t: Title): nat { AnimePoints(t) + If(t.hint == "anime", 15) }

  lemma TotalsOnTheSheet(t: Title, s: Score)
    requires s == Points(Evidence(t)).WithHint(HintAxis(t.hint))
    ensures s.film == FilmTotal(t) && s.series == SeriesTotal(t) && s.anime == AnimeTotal(t)
  {
    ScoresAreTheSheet(t);
    FolderPoints(Points(Evidence(t)), t.hint);
  }

  /** The label of every title. */
  lemma VerdictOnTheSheet(t: Title)
    ensures Classified(t).verdict == AnimeMovieLabel <==> FilmFormat(t) && AnimeTotal(t) > SeriesTotal(t)
    ensures Classified(t).verdict == AnimeLabel
            <==> !FilmFormat(t) && AnimeTotal(t) > SeriesTotal(t) && AnimeTotal(t) > FilmTotal(t)
    ensures Classified(t).verdict == TvLabel <==> SeriesTotal(t) > FilmTotal(t) && SeriesTotal(t) >= AnimeTotal(t)
  {
    var s := Points(Evidence(t)).WithHint(HintAxis(t.hint));
    TotalsOnTheSheet(t, s);
    FormatOnTheSheet(t);
    ClassifiedOnScores(t, s);
    VerdictOnScores(Classified(t), s, FilmFormat(t), FilmTotal(t), SeriesTotal(t), AnimeTotal(t));
  }

  lemma ConfidenceFrom(t: Title, s: Score, c: Classification)
    requires s.film == FilmTotal(t) && s.series == SeriesTotal(t) && s.anime == AnimeTotal(t)
    requires c.verdict == FinalLabel(s, MovieFormat(t)) && c.confidence == Confidence(s, MovieFormat(t))
    ensures c.confidence == Share(WorthOf(c.verdict, FilmTotal(t), SeriesTotal(t), AnimeTotal(t)),
                                  FilmTotal(t) + SeriesTotal(t) + AnimeTotal(t))
  {
    ConfidenceOnScores(c, s, MovieFormat(t), FilmTotal(t), SeriesTotal(t), AnimeTotal(t));
  }

  /** The confidence of every title: the share of the scores it rests on, 0 if nothing scored. */
  lemma ConfidenceOnTheSheet(t: Title)
    ensures Classified(t).confidence
            == Share(WorthOf(Classified(t).verdict, FilmTotal(t), SeriesTotal(t), AnimeTotal(t)),
                     FilmTotal(t) + SeriesTotal(t) + AnimeTotal(t))
  {
    var s := Points(Evidence(t)).WithHint(HintAxis(t.hint));
    TotalsOnTheSheet(t, s);
    ClassifiedOnScores(t, s);
    ConfidenceFrom(t, s, Classified(t));
  }

  lemma ShareIsAQuotient(part: nat, total: nat)
    ensures total > 0 ==> Share(part, total) * total as real == part as real
    ensures total == 0 ==> Share(part, total) == 0.0
  {
  }

  // ----- what each signal does to a title -----

  function Verdict(t: Title): Label {
    Classified(t).verdict
  }

  lemma SideOnTheSheet(t: Title)
    ensures AnimeSide(Verdict(t))
            <==> AnimeTotal(t) > SeriesTotal(t) && (FilmFormat(t) || AnimeTotal(t) > FilmTotal(t))
  {
    VerdictOnTheSheet(t);
  }

  /** `after` scores that much more than `before` on each axis. */
  ghost predicate Gains(before: Title, after: Title, film: int, series: int, anime: int) {
    && Points(Evidence(after)).film == Points(Evidence(before)).film + film
    && Points(Evidence(after)).series == Points(Evidence(before)).series + series
    && Points(Evidence(after)).anime == Points(Evidence(before)).anime + anime
  }

  lemma GainsOnTheSheet(before: Title, after: Title, film: int, series: int, anime: int)
    requires FilmPoints(after) == FilmPoints(before) + film
    requires SeriesPoints(after) == SeriesPoints(before) + series
    requires AnimePoints(after) == AnimePoints(before) + anime
    ensures Gains(before, after, film, series, anime)
  {
    ScoresAreTheSheet(before);
    ScoresAreTheSheet(after);
  }

  lemma GainsMoveTheSide(before: Title, after: Title, film: int, series: int, anime: int)
    requires FilmPoints(after) == FilmPoints(before) + film
    requires SeriesPoints(after) == SeriesPoints(before) + series
    requires AnimePoints(after) == AnimePoints(before) + anime
    requires before.hint == after.hint && FilmFormat(before) == FilmFormat(after)
    ensures film <= anime && series <= anime && AnimeSide(Verdict(before)) ==> AnimeSide(Verdict(after))
    ensures anime <= film && anime <= series && AnimeSide(Verdict(after)) ==> AnimeSide(Verdict(before))
  {
    SideOnTheSheet(before);
    SideOnTheSheet(after);
  }

  /** The title, its provider having answered this about anime. */
  function Answering(t: Title, s: Signals, isAnime: Option<bool>): Title {
    t.(provider := Some(s.(isAnime := isAnime)))
  }

  lemma AnAnimeAnswer(t: Title, s: Signals)
    ensures Gains(Answering(t, s, None), Answering(t, s, Some(true)), 0, 0, 70)
    ensures AnimeSide(Verdict(Answering(t, s, None))) ==> AnimeSide(Verdict(Answering(t, s, Some(true))))
  {
    GainsOnTheSheet(Answering(t, s, None), Answering(t, s, Some(true)), 0, 0, 70);
    GainsMoveTheSide(Answering(t, s, None), Answering(t, s, Some(true)), 0, 0, 70);
  }

  lemma ANotAnimeAnswer(t: Title, s: Signals)
    ensures Gains(Answering(t, s, None), Answering(t, s, Some(false)), 40, 40, 0)
    ensures AnimeSide(Verdict(Answering(t, s, Some(false)))) ==> AnimeSide(Verdict(Answering(t, s, None)))
  {
    GainsOnTheSheet(Answering(t, s, None), Answering(t, s, Some(false)), 40, 40, 0);
    GainsMoveTheSide(Answering(t, s, None), Answering(t, s, Some(false)), 40, 40, 0);
  }

  /** In every library: "anime" never takes a title off the anime side, and "not anime" never puts one on. */
  lemma AnimeAnswersMatter(t: Title, s: Signals)
    ensures Gains(Answering(t, s, None), Answering(t, s, Some(true)), 0, 0, 70)
    ensures Gains(Answering(t, s, None), Answering(t, s, Some(false)), 40, 40, 0)
    ensures AnimeSide(Verdict(Answering(t, s, None))) ==> AnimeSide(Verdict(Answering(t, s, Some(true))))
    ensures AnimeSide(Verdict(Answering(t, s, Some(false)))) ==> AnimeSide(Verdict(Answering(t, s, None)))
  {
    AnAnimeAnswer(t, s);
    ANotAnimeAnswer(t, s);
  }

  /** The title, its provider having answered this about its format. */
  function Listing(t: Title, s: Signals, kind: Option<Kind>): Title {
    t.(provider := Some(s.(kind := kind)))
  }

  /** A provider that lists a film never leaves plain anime, one that lists a series never an anime movie. */
  lemma KindAnswersMatter(t: Title, s: Signals)
    ensures Gains(Listing(t, s, None), Listing(t, s, Some(Movie)), 60, 0, 0)
    ensures Gains(Listing(t, s, None), Listing(t, s, Some(Show)), 0, 60, 60)
    ensures Verdict(Listing(t, s, Some(Movie))) != AnimeLabel
    ensures Verdict(Listing(t, s, Some(Show))) != AnimeMovieLabel
  {
    var none, film, show := Listing(t, s, None), Listing(t, s, Some(Movie)), Listing(t, s, Some(Show));
    GainsOnTheSheet(none, film, 60, 0, 0);
    GainsOnTheSheet(none, show, 0, 60, 60);
    ScoredVerdict(film);
    ScoredVerdict(show);
  }

  lemma ScoredVerdict(t: Title)
    ensures Verdict(t) == AnimeLabel ==> !FilmFormat(t)
    ensures Verdict(t) == AnimeMovieLabel ==> FilmFormat(t)
  {
    VerdictOnTheSheet(t);
  }

  /** A provider that answers neither question changes nothing. */
  lemma SilentProvidersChangeNothing(t: Title, s: Signals)
    requires s.isAnime.None? && s.kind.None?
    ensures Gains(t.(provider := None), t.(provider := Some(s)), 0, 0, 0)
    ensures Classified(t.(provider := None)) == Classified(t.(provider := Some(s)))
  {
    GainsOnTheSheet(t.(provider := None), t.(provider := Some(s)), 0, 0, 0);
  }

  lemma TracklessAudio()
    ensures !JapanesePrimaryAudio([]) && !SomePrimaryAudio([]) && !OtherSubtitles([])
  {
  }

  /** A title's streams against the same title without any: one Japanese primary is worth 45 to anime, 70
      with subtitles in another language; primaries that are all something else are worth 10 to series. */
  lemma StreamsMatter(t: Title)
    ensures Gains(t.(tracks := []), t, 0,
                  if SomePrimaryAudio(t.tracks) && !JapanesePrimaryAudio(t.tracks) then 10 else 0,
                  if !JapanesePrimaryAudio(t.tracks) then 0 else if OtherSubtitles(t.tracks) then 70 else 45)
    ensures JapanesePrimaryAudio(t.tracks) && AnimeSide(Verdict(t.(tracks := []))) ==> AnimeSide(Verdict(t))
    ensures !JapanesePrimaryAudio(t.tracks) && AnimeSide(Verdict(t)) ==> AnimeSide(Verdict(t.(tracks := [])))
  {
    TracklessAudio();
    var series := if SomePrimaryAudio(t.tracks) && !JapanesePrimaryAudio(t.tracks) then 10 else 0;
    var anime := if !JapanesePrimaryAudio(t.tracks) then 0 else if OtherSubtitles(t.tracks) then 70 else 45;
    GainsOnTheSheet(t.(tracks := []), t, 0, series, anime);
    GainsMoveTheSide(t.(tracks := []), t, 0, series, anime);
  }

  /** An anidb id is worth 60 to anime; a tvdb id 20 to series, but only without an anidb and an imdb id. */
  lemma IdsMatter(t: Title)
    ensures Gains(t.(ids := NO_IDS), t, 0,
                  if t.ids.anidb.None? && t.ids.tvdb.Some? && t.ids.imdb in {None, Some("")} then 20 else 0,
                  if t.ids.anidb.Some? then 60 else 0)
    ensures t.ids.anidb.Some? && AnimeSide(Verdict(t.(ids := NO_IDS))) ==> AnimeSide(Verdict(t))
    ensures t.ids.anidb.None? && AnimeSide(Verdict(t)) ==> AnimeSide(Verdict(t.(ids := NO_IDS)))
  {
    var series := if t.ids.anidb.None? && t.ids.tvdb.Some? && t.ids.imdb in {None, Some("")} then 20 else 0;
    var anime := if t.ids.anidb.Some? then 60 else 0;
    GainsOnTheSheet(t.(ids := NO_IDS), t, 0, series, anime);
    GainsMoveTheSide(t.(ids := NO_IDS), t, 0, series, anime);
  }

  /** A lone file not parsed as an episode speaks for a film, several for a series of either style. */
  lemma FileCountMatters(t: Title)
    ensures t.files == 1 && t.kind != Some(Show) ==> Gains(t.(files := 0), t, 15, 0, 0)
    ensures t.files == 1 && t.kind == Some(Show) ==> Gains(t.(files := 0), t, 0, 0, 0)
    ensures t.files > 1 ==> Gains(t.(files := 0), t, 0, 5, 5)
  {
    var film := if t.files == 1 && t.kind != Some(Show) then 15 else 0;
    var several := if t.files > 1 then 5 else 0;
    GainsOnTheSheet(t.(files := 0), t, film, several, several);
  }

  /** A parsed film is worth 30 to film, a parsed episode 15 to series; an episode's lone file no longer
      speaks for a film. */
  lemma ParsedKindMatters(t: Title)
    ensures Gains(t.(kind := None), t.(kind := Some(Movie)), 30, 0, 0)
    ensures Gains(t.(kind := Some(Show)), t.(kind := None), if t.files == 1 then 15 else 0, -15, 0)
  {
    GainsOnTheSheet(t.(kind := None), t.(kind := Some(Movie)), 30, 0, 0);
    GainsOnTheSheet(t.(kind := Some(Show)), t.(kind := None), if t.files == 1 then 15 else 0, -15, 0);
  }

  /** What the release name can add, all of it to anime: 20 for the parser's flag, 40 for a known group
      wherever it stands, 15 for an unknown one in brackets. */
  lemma NamesMatter(t: Title)
    ensures Gains(t.(parsed := None, rawName := None), t, 0, 0,
                  If(t.parsed.Some? && t.parsed.value.anime, 20) + If(KnownGroup(t.parsed, t.rawName), 40)
                  + If(UnknownBracket(t.parsed, t.rawName), 15))
    ensures AnimeSide(Verdict(t.(parsed := None, rawName := None))) ==> AnimeSide(Verdict(t))
  {
    var anime := If(t.parsed.Some? && t.parsed.value.anime, 20) + If(KnownGroup(t.parsed, t.rawName), 40)
                 + If(UnknownBracket(t.parsed, t.rawName), 15);
    GainsOnTheSheet(t.(parsed := None, rawName := None), t, 0, 0, anime);
    GainsMoveTheSide(t.(parsed := None, rawName := None), t, 0, 0, anime);
  }

  // ----- which reasons are on record -----

  /** What has to hold of a title for a reason to stand on an axis. */
  ghost predicate CalledFor(t: Title, a: Axis, r: Reason) {
    match r
    case ProviderAnime(source, origin) =>
      a == Anime && ProviderSays(t.provider, true)
      && source == t.provider.value.source && origin == t.provider.value.originCountry
    case ProviderNotAnime(source, origin) =>
      a != Anime && ProviderSays(t.provider, false)
      && source == t.provider.value.source && origin == t.provider.value.originCountry
    case ProviderFilm(source) => a == Film && ProviderKind(t.provider, Movie) && source == t.provider.value.source
    case ProviderSeries(source) => a != Film && ProviderKind(t.provider, Show) && source == t.provider.value.source
    case ParsedAsMovie => a == Film && t.kind == Some(Movie)
    case ParsedAsShow => a == Series && t.kind == Some(Show)
    case AnidbId => a == Anime && t.ids.anidb.Some?
    case TvdbId => a == Series && TvdbAlone(t.ids)
    case JapaneseAudio => a == Anime && JapanesePrimaryAudio(t.tracks)
    case ForeignSubtitles => a == Anime && JapanesePrimaryAudio(t.tracks) && OtherSubtitles(t.tracks)
    case NonJapaneseAudio => a == Series && SomePrimaryAudio(t.tracks) && !JapanesePrimaryAudio(t.tracks)
    case OneFile => a == Film && t.files == 1 && t.kind != Some(Show)
    case ManyFiles(count) => a != Film && count == t.files > 1
    case GuessitFlag => a == Anime && Flagged(t.parsed)
    case FansubGroup(group) =>
      a == Anime && group in FANSUB_GROUPS
      && (ParsedAs(t.parsed, group)
          || (Bracketing(t.rawName, group) && !exists g <- FANSUB_GROUPS :: ParsedAs(t.parsed, g)))
    case BracketName => a == Anime && UnknownBracket(t.parsed, t.rawName)
    case LibraryHint(_) => false
    case NoEvidence => false
    case OverrodeHint(_, _) => false
  }

  ghost predicate Holds(log: seq<Entry>, a: Axis, r: Reason) {
    exists e <- log :: e.axis == a && e.reason == r
  }

  lemma HoldsJoin(x: seq<Entry>, y: seq<Entry>, a: Axis, r: Reason)
    ensures Holds(x + y, a, r) <==> Holds(x, a, r) || Holds(y, a, r)
  {
    assert forall e :: e in x + y <==> e in x || e in y;
  }

  lemma SevenHold(b: seq<Entry>, c: seq<Entry>, d: seq<Entry>, e: seq<Entry>, f: seq<Entry>, g: seq<Entry>,
                  h: seq<Entry>, a: Axis, r: Reason)
    ensures Holds(b + c + d + e + f + g + h, a, r)
            <==> Holds(b, a, r) || Holds(c, a, r) || Holds(d, a, r) || Holds(e, a, r) || Holds(f, a, r)
                 || Holds(g, a, r) || Holds(h, a, r)
  {
    HoldsJoin(b, c, a, r);
    HoldsJoin(b + c, d, a, r);
    HoldsJoin(b + c + d, e, a, r);
    HoldsJoin(b + c + d + e, f, a, r);
    HoldsJoin(b + c + d + e + f, g, a, r);
    HoldsJoin(b + c + d + e + f + g, h, a, r);
  }

  lemma ProviderHolds(t: Title, a: Axis, r: Reason)
    ensures Holds(ProviderReasons(t.provider), a, r) <==> Rank(r) < 4 && CalledFor(t, a, r)
  {
  }

  lemma MatchHolds(t: Title, a: Axis, r: Reason)
    ensures Holds(FormatReasons(t.kind), a, r) <==> 4 <= Rank(r) < 6 && CalledFor(t, a, r)
    ensures Holds(IdReasons(t.ids), a, r) <==> 6 <= Rank(r) < 8 && CalledFor(t, a, r)
  {
  }

  lemma AudioHolds(t: Title, a: Axis, r: Reason, japanese: bool, foreignSubs: bool, anyAudio: bool)
    requires japanese == JapanesePrimaryAudio(t.tracks) && foreignSubs == OtherSubtitles(t.tracks)
    requires anyAudio == SomePrimaryAudio(t.tracks)
    ensures Holds(AudioReasons(japanese, foreignSubs, anyAudio), a, r) <==> 8 <= Rank(r) < 11 && CalledFor(t, a, r)
  {
  }

  lemma StructureHolds(t: Title, a: Axis, r: Reason)
    ensures Holds(StructureReasons(t.files, t.kind), a, r) <==> 11 <= Rank(r) < 13 && CalledFor(t, a, r)
  {
  }

  lemma FlagHolds(t: Title, a: Axis, r: Reason)
    ensures Holds(FlagReasons(t.parsed), a, r) <==> Rank(r) == 13 && CalledFor(t, a, r)
  {
  }

  predicate GroupCallsFor(group: Option<string>, bracket: Option<string>, r: Reason) {
    match r
    case FansubGroup(g) =>
      g in FANSUB_GROUPS
      && (group == Some(g) || (bracket == Some(g) && (group.None? || group.value !in FANSUB_GROUPS)))
    case BracketName =>
      bracket.Some? && bracket.value !in FANSUB_GROUPS && (group.None? || group.value !in FANSUB_GROUPS)
    case _ => false
  }

  lemma GroupHolds(group: Option<string>, bracket: Option<string>, a: Axis, r: Reason)
    ensures Holds(GroupReasons(group, bracket), a, r) <==> a == Anime && GroupCallsFor(group, bracket, r)
  {
  }

  lemma KnownGroupCalls(parsed: Option<Parsed>, rawName: Option<string>, g: string)
    ensures GroupCallsFor(ParsedGroup(parsed), Bracketed(rawName), FansubGroup(g))
            <==> g in FANSUB_GROUPS
                 && (ParsedAs(parsed, g)
                     || (Bracketing(rawName, g) && !exists k <- FANSUB_GROUPS :: ParsedAs(parsed, k)))
  {
    var group := ParsedGroup(parsed);
    BracketIsLead(rawName);
    assert ParsedAs(parsed, g) <==> group == Some(g);
    assert group.Some? ==> ParsedAs(parsed, group.value);
    assert (exists k <- FANSUB_GROUPS :: ParsedAs(parsed, k)) <==> group.Some? && group.value in FANSUB_GROUPS;
  }

  lemma NameCalls(parsed: Option<Parsed>, rawName: Option<string>)
    ensures GroupCallsFor(ParsedGroup(parsed), Bracketed(rawName), BracketName) <==> UnknownBracket(parsed, rawName)
  {
    GroupsDecide(parsed, rawName);
  }

  lemma NameHolds(t: Title, a: Axis, r: Reason)
    ensures Holds(GroupReasons(ParsedGroup(t.parsed), Bracketed(t.rawName)), a, r)
            <==> 14 <= Rank(r) < 16 && CalledFor(t, a, r)
  {
    GroupHolds(ParsedGroup(t.parsed), Bracketed(t.rawName), a, r);
    match r
    case FansubGroup(g) => KnownGroupCalls(t.parsed, t.rawName, g);
    case BracketName => NameCalls(t.parsed, t.rawName);
    case _ =>
  }

  lemma EvidenceHolds(t: Title, a: Axis, r: Reason, japanese: bool, foreignSubs: bool, anyAudio: bool)
    requires japanese == JapanesePrimary(t.tracks) && foreignSubs == ForeignSubs(t.tracks)
    requires anyAudio == (PrimariesOf(t.tracks) != [])
    ensures Holds(Evidence(t), a, r)
            <==> Holds(ProviderReasons(t.provider), a, r) || Holds(FormatReasons(t.kind), a, r)
                 || Holds(IdReasons(t.ids), a, r) || Holds(AudioReasons(japanese, foreignSubs, anyAudio), a, r)
                 || Holds(StructureReasons(t.files, t.kind), a, r) || Holds(FlagReasons(t.parsed), a, r)
                 || Holds(GroupReasons(ParsedGroup(t.parsed), Bracketed(t.rawName)), a, r)
  {
    SevenHold(ProviderReasons(t.provider), FormatReasons(t.kind), IdReasons(t.ids),
              AudioReasons(japanese, foreignSubs, anyAudio), StructureReasons(t.files, t.kind),
              FlagReasons(t.parsed), GroupReasons(ParsedGroup(t.parsed), Bracketed(t.rawName)), a, r);
  }

  lemma HoldsExactlyWhen(t: Title, a: Axis, r: Reason)
    ensures Holds(Evidence(t), a, r) <==> Rank(r) < 16 && CalledFor(t, a, r)
  {
    var japanese, foreignSubs, anyAudio :=
      JapanesePrimary(t.tracks), ForeignSubs(t.tracks), PrimariesOf(t.tracks) != [];
    PrimariesDecide(t.tracks);
    ProviderHolds(t, a, r);
    MatchHolds(t, a, r);
    AudioHolds(t, a, r, japanese, foreignSubs, anyAudio);
    StructureHolds(t, a, r);
    FlagHolds(t, a, r);
    NameHolds(t, a, r);
    EvidenceHolds(t, a, r, japanese, foreignSubs, anyAudio);
  }

  /** A reason stands on an axis exactly when the title calls for it there. */
  lemma ReasonsExactlyWhen(t: Title, a: Axis, r: Reason)
    ensures r in BoardOf(Evidence(t)).Of(a) <==> CalledFor(t, a, r)
  {
    HoldsExactlyWhen(t, a, r);
    BoardHolds(Evidence(t), a, r);
  }

  // ----- which reasons a verdict lists -----

  predicate FolderSays(hint: string, a: Axis) {
    (hint == "movie" && a == Film) || (hint == "tv" && a == Series) || (hint == "anime" && a == Anime)
  }

  /** No signal scored, and the folder says nothing. */
  ghost predicate Blank(t: Title) {
    FilmPoints(t) == 0 && SeriesPoints(t) == 0 && AnimePoints(t) == 0 && forall a :: !FolderSays(t.hint, a)
  }

  /** The notes go to the axis that won. */
  ghost predicate Noting(t: Title, winner: Axis, r: Reason) {
    || (r == NoEvidence && Blank(t))
    || (r.OverrodeHint? && r.winner == winner && r.overruled != winner && FolderSays(t.hint, r.overruled)
        && OnTheSheet(t, winner) > OnTheSheet(t, r.overruled))
  }

  ghost predicate Listed(t: Title, a: Axis, winner: Axis, r: Reason) {
    CalledFor(t, a, r) || (r == LibraryHint(t.hint) && FolderSays(t.hint, a)) || (a == winner && Noting(t, winner, r))
  }

  lemma OneReasonMore(log: seq<Entry>, e: Entry, a: Axis, r: Reason)
    ensures r in BoardOf(log + [e]).Of(a) <==> r in BoardOf(log).Of(a) || (a == e.axis && r == e.reason)
  {
    OneMore(log, e);
    ReasonJoins(BoardOf(log), e.axis, e.reason, a, r);
  }

  lemma ReasonJoins(b: Board, at: Axis, reason: Reason, a: Axis, r: Reason)
    ensures r in b.With(at, reason).Of(a) <==> r in b.Of(a) || (a == at && r == reason)
  {
    match a case Film => case Series => case Anime =>
  }

  lemma LedgerHolds(evidence: seq<Entry>, axis: Option<Axis>, hint: string, a: Axis, r: Reason)
    ensures r in BoardOf(Ledger(evidence, axis, hint)).Of(a)
            <==> r in BoardOf(evidence).Of(a) || (axis == Some(a) && r == LibraryHint(hint))
  {
    if axis.Some? {
      OneReasonMore(evidence, Entry(axis.value, HINT_WEIGHT, LibraryHint(hint)), a, r);
    }
  }

  lemma NotedHolds(ledger: seq<Entry>, e: Score, hint: Option<Axis>, top: Axis, a: Axis, r: Reason)
    requires top == e.WithHint(hint).Top()
    ensures r in BoardOf(Noted(ledger, e, hint)).Of(a)
            <==> || r in BoardOf(ledger).Of(a)
                 || (a == top && r == NoEvidence && BoardOf(ledger).Of(top) == [])
                 || (a == top && hint.Some? && hint.value != top && e.Of(top) > e.Of(hint.value)
                     && r == OverrodeHint(hint.value, top))
  {
    var some := if BoardOf(ledger).Of(top) == [] then ledger + [Entry(top, 0, NoEvidence)] else ledger;
    OneReasonMore(ledger, Entry(top, 0, NoEvidence), a, r);
    if hint.Some? {
      OneReasonMore(some, Entry(top, 0, OverrodeHint(hint.value, top)), a, r);
    }
  }

  lemma {:induction false} EmptyMeansNothingEarned(log: seq<Entry>, a: Axis)
    requires forall e <- log :: e.points > 0
    ensures BoardOf(log).Of(a) == [] <==> Points(log).Of(a) == 0
  {
    if log != [] {
      EmptyMeansNothingEarned(log[..|log| - 1], a);
    }
  }

  lemma EvidenceScores(t: Title)
    ensures forall e <- Evidence(t) :: e.points > 0
  {
    GatheredIsTidy(t, JapanesePrimary(t.tracks), ForeignSubs(t.tracks), PrimariesOf(t.tracks) != [],
                   Bracketed(t.rawName));
    forall e <- Evidence(t) ensures e.points > 0 {
      assert Priced(e) && Rank(e.reason) < 16;
    }
  }

  lemma NothingOnTopExactlyWhen(evidence: seq<Entry>, axis: Option<Axis>, hint: string, e: Score)
    requires e == Points(evidence) && forall x <- evidence :: x.points > 0
    ensures BoardOf(Ledger(evidence, axis, hint)).Of(e.WithHint(axis).Top()) == [] <==> axis.None? && e.Total() == 0
  {
    EmptyMeansNothingEarned(Ledger(evidence, axis, hint), e.WithHint(axis).Top());
    if axis.Some? {
      OneMore(evidence, Entry(axis.value, HINT_WEIGHT, LibraryHint(hint)));
    }
  }

  lemma HintIsTheFolder(hint: string)
    ensures forall a :: HintAxis(hint) == Some(a) <==> FolderSays(hint, a)
  {
    assert "movie"[0] != "tv"[0] && "movie"[0] != "anime"[0] && "tv"[0] != "anime"[0];
  }

  lemma BlankOnScores(t: Title, e: Score)
    requires e == Points(Evidence(t))
    ensures Blank(t) <==> HintAxis(t.hint).None? && e.Total() == 0
  {
    HintIsTheFolder(t.hint);
    ScoresAreTheSheet(t);
    assert HintAxis(t.hint).Some? ==> FolderSays(t.hint, HintAxis(t.hint).value);
  }

  lemma SheetOnScores(t: Title, e: Score)
    requires e == Points(Evidence(t))
    ensures forall a :: OnTheSheet(t, a) == e.Of(a)
  {
    ScoresAreTheSheet(t);
  }

  lemma NotingOnScores(t: Title, e: Score, axis: Option<Axis>, top: Axis, r: Reason)
    requires e == Points(Evidence(t)) && axis == HintAxis(t.hint)
    ensures Noting(t, top, r)
            <==> || (r == NoEvidence && axis.None? && e.Total() == 0)
                 || (axis.Some? && axis.value != top && e.Of(top) > e.Of(axis.value)
                     && r == OverrodeHint(axis.value, top))
  {
    HintIsTheFolder(t.hint);
    BlankOnScores(t, e);
    SheetOnScores(t, e);
  }

  lemma ListedOnTheLedger(t: Title, e: Score, axis: Option<Axis>, top: Axis, a: Axis, r: Reason)
    requires e == Points(Evidence(t)) && axis == HintAxis(t.hint) && top == e.WithHint(axis).Top()
    ensures r in BoardOf(Noted(Ledger(Evidence(t), axis, t.hint), e, axis)).Of(a) <==> Listed(t, a, top, r)
  {
    NotedHolds(Ledger(Evidence(t), axis, t.hint), e, axis, top, a, r);
    LedgerHolds(Evidence(t), axis, t.hint, a, r);
    ReasonsExactlyWhen(t, a, r);
    EvidenceScores(t);
    NothingOnTopExactlyWhen(Evidence(t), axis, t.hint, e);
    HintIsTheFolder(t.hint);
    NotingOnScores(t, e, axis, top, r);
  }

  /** The axis a verdict comes from; an anime movie's is the better of its two, film if they are equal. */
  ghost function Winner(t: Title, verdict: Label): Axis {
    match verdict
    case MovieLabel => Film
    case TvLabel => Series
    case AnimeLabel => Anime
    case AnimeMovieLabel =>
      if FilmTotal(t) >= AnimeTotal(t) then Film else Anime
  }

  lemma SettledLists(shown: Board, s: Score, movieFormat: bool, c: Classification, r: Reason)
    requires c == Settled(shown, s, movieFormat)
    ensures c.verdict == AnimeMovieLabel ==>
              (r in c.reasons <==> r in shown.Of(Anime) || r in shown.Of(Film))
              && s.Top() == if s.film >= s.anime then Film else Anime
    ensures c.verdict != AnimeMovieLabel ==>
              (r in c.reasons <==> r in shown.Of(s.Top())) && c.verdict == LabelOf(s.Top())
  {
  }

  lemma WinnerIsTop(t: Title, s: Score, verdict: Label)
    requires s == Points(Evidence(t)).WithHint(HintAxis(t.hint))
    requires if verdict == AnimeMovieLabel then s.Top() == if s.film >= s.anime then Film else Anime
             else verdict == LabelOf(s.Top())
    ensures Winner(t, verdict) == s.Top()
  {
    TotalsOnTheSheet(t, s);
  }

  /** A verdict lists the reasons of its own axis and no others; an anime movie those of both its facets. */
  lemma VerdictListsExactly(t: Title, r: Reason)
    ensures var c := Classified(t);
            var winner := Winner(t, c.verdict);
            r in c.reasons
            <==> || Listed(t, winner, winner, r)
                 || (c.verdict == AnimeMovieLabel && (Listed(t, Anime, winner, r) || Listed(t, Film, winner, r)))
  {
    var c := Classified(t);
    var e, axis := Points(Evidence(t)), HintAxis(t.hint);
    var s, shown := e.WithHint(axis), BoardOf(Noted(Ledger(Evidence(t), axis, t.hint), e, axis));
    SettledLists(shown, s, MovieFormat(t), c, r);
    WinnerIsTop(t, s, c.verdict);
    ListedOnTheLedger(t, e, axis, s.Top(), s.Top(), r);
    ListedOnTheLedger(t, e, axis, s.Top(), Anime, r);
    ListedOnTheLedger(t, e, axis, s.Top(), Film, r);
  }
}
