/** The classifier applied to stored rows: what reclassification really stores for a title. */
module Verdicts {
  import opened Prelude
  import opened Catalog
  import opened Audio
  import opened Upkeep
  import Scan
  import C = Classifier

  /** What the rows alone do not say: each library's kind, the order in which a title's rows are handed out,
      how guessit reads a file name, and how a reason is put in words. */
  datatype Reader = Reader(kindOf: nat -> string, order: (map<nat, Season>, map<nat, nat>) -> seq<nat>,
                           parse: string -> C.Parsed, render: C.Reason -> string)

  ghost predicate HandsOutAll(r: Reader) {
    forall seasons, homes :: Lists(r.order(seasons, homes), homes.Keys)
  }

  function Homes(files: map<nat, File>): map<nat, nat> {
    map f | f in files :: files[f].season
  }

  function TracksOf(files: map<nat, File>, f: nat): seq<Track> {
    if f in files then files[f].body.tracks else []
  }

  function Labelled(f: nat, tracks: seq<Track>): seq<Stream> {
    seq(|tracks|, i requires 0 <= i < |tracks| => Stream(f, tracks[i]))
  }

  /** Every stream of every file, file after file. */
  function StreamsOf(files: map<nat, File>, order: seq<nat>): seq<Stream> {
    if order == [] then [] else Labelled(order[0], TracksOf(files, order[0])) + StreamsOf(files, order[1..])
  }

  /** The last component of a path. */
  function BaseName(path: Path): string {
    var k := C.IndexOf(path, '/');
    if k == |path| then path else BaseName(path[k + 1..])
  }

  /** _stored_provider_signals: the stored answer, with the title's own kind. */
  function StoredSignals(i: Item): Option<C.Signals> {
    if i.provider.None? || i.provider.value.source == "" then None
    else Some(C.Signals(i.provider.value.source, Some(i.kind), i.provider.value.isAnime, i.provider.value.originCountry))
  }

  /** The title _reclassify_item puts together from the rows; its first file speaks for the release name. */
  function TitleOf(e: Evidence, r: Reader): C.Title {
    var order := r.order(e.seasons, Homes(e.files));
    var rawName := if order == [] || order[0] !in e.files then None else Some(BaseName(e.files[order[0]].path));
    C.Title(Some(e.item.kind), e.item.ids, r.kindOf(e.item.library), |order|, StreamsOf(e.files, order),
            if rawName.Some? && rawName.value != "" then Some(r.parse(rawName.value)) else None,
            rawName, StoredSignals(e.item))
  }

  function Rendered(reasons: seq<C.Reason>, render: C.Reason -> string): seq<string> {
    seq(|reasons|, i requires 0 <= i < |reasons| => render(reasons[i]))
  }

  /** classify(), as reclassification calls it. */
  function ByClassify(r: Reader): Judge {
    (e: Evidence) =>
      var c := C.Classified(TitleOf(e, r));
      Verdict(c.verdict, c.confidence, Rendered(c.reasons, r.render))
  }

  // ----- reclassification passes -----

  predicate PutInWords(words: seq<string>, reasons: seq<C.Reason>, render: C.Reason -> string) {
    |words| == |reasons| && forall k | 0 <= k < |reasons| :: words[k] == render(reasons[k])
  }

  lemma RenderedIsInWords(reasons: seq<C.Reason>, render: C.Reason -> string)
    ensures PutInWords(Rendered(reasons, render), reasons, render)
  {
  }

  lemma PassStoresVerdict(db: Db, removed: map<nat, Item>, order: seq<nat>, judge: Judge, i: nat, v: Verdict)
    requires i in order && i in db.items && v == judge(EvidenceOf(db, i))
    ensures var next := RelabelledAll(db, removed, order, judge);
            && i in next.items && EvidenceOf(next, i) == EvidenceOf(db, i)
            && next.items[i].overridden == db.items[i].overridden
            && (!next.items[i].overridden ==>
                  && next.items[i].classification == Some(v.classification)
                  && next.items[i].confidence == Some(v.confidence) && next.items[i].reasons == v.reasons)
  {
    PassSettles(db, removed, order, judge);
    PassKeepsEvidence(db, removed, order, judge, i);
  }

  /** What a pass stores for a title that is not overridden is what classify makes of its rows, before the
      pass and after it alike: its label, its confidence, and its reasons, each put in words. */
  lemma PassStoresClassify(db: Db, removed: map<nat, Item>, order: seq<nat>, r: Reader, i: nat)
    requires i in order && i in db.items
    ensures var next := RelabelledAll(db, removed, order, ByClassify(r));
            var c := C.Classified(TitleOf(EvidenceOf(db, i), r));
            && i in next.items && EvidenceOf(next, i) == EvidenceOf(db, i)
            && next.items[i].overridden == db.items[i].overridden
            && (!next.items[i].overridden ==>
                  && next.items[i].classification == Some(c.verdict) && next.items[i].confidence == Some(c.confidence)
                  && PutInWords(next.items[i].reasons, c.reasons, r.render))
  {
    var c := C.Classified(TitleOf(EvidenceOf(db, i), r));
    RenderedIsInWords(c.reasons, r.render);
    PassStoresVerdict(db, removed, order, ByClassify(r), i,
                      Verdict(c.verdict, c.confidence, Rendered(c.reasons, r.render)));
  }

  lemma {:induction false} PassKeepsEvidence(db: Db, removed: map<nat, Item>, order: seq<nat>, judge: Judge, i: nat)
    requires i in db.items
    ensures var next := RelabelledAll(db, removed, order, judge);
            && i in next.items && EvidenceOf(next, i) == EvidenceOf(db, i)
            && next.items[i].overridden == db.items[i].overridden
    decreases |order|
  {
    if order != [] {
      PassKeepsEvidence(db, removed, order[..|order| - 1], judge, i);
    }
  }

  /** reclassify twice with nothing changed in between: the second time no row moves and nothing is logged. */
  lemma ReclassifyingTwiceIsOnce(db: Db, removed: map<nat, Item>, first: seq<nat>, second: seq<nat>, r: Reader)
    requires forall i <- second :: i in first && i in db.items
    ensures var once := RelabelledAll(db, removed, first, ByClassify(r));
            RelabelledAll(once, map[], second, ByClassify(r)) == once
  {
    SecondPassIsSilent(db, removed, first, second, ByClassify(r));
  }

  // ----- what of the rows reaches classify -----

  /** `name` is what stands behind the last slash of `path`. */
  ghost predicate LastComponent(path: Path, name: string) {
    '/' !in name && (path == name || exists dir: string :: path == dir + "/" + name)
  }

  lemma AnotherComponent(path: Path, k: nat, name: string)
    requires k < |path| && path[k] == '/' && LastComponent(path[k + 1..], name)
    ensures LastComponent(path, name)
  {
    var rest := path[k + 1..];
    if rest == name {
      assert path == path[..k] + "/" + name;
    } else {
      var dir: string :| rest == dir + "/" + name;
      assert path == path[..k + 1] + rest == (path[..k + 1] + dir) + "/" + name;
    }
  }

  lemma {:induction false} BaseNameIsLast(path: Path)
    ensures LastComponent(path, BaseName(path))
  {
    var k := C.IndexOf(path, '/');
    if k < |path| {
      BaseNameIsLast(path[k + 1..]);
      AnotherComponent(path, k, BaseName(path));
    }
  }

  /** The streams of one file, in order. */
  function OfFile(streams: seq<Stream>, f: nat): seq<Track> {
    if streams == [] then []
    else (if streams[0].file == f then [streams[0].track] else []) + OfFile(streams[1..], f)
  }

  lemma {:induction false} OfFileJoin(a: seq<Stream>, b: seq<Stream>, f: nat)
    ensures OfFile(a + b, f) == OfFile(a, f) + OfFile(b, f)
  {
    if a == [] {
      assert a + b == b;
    } else {
      assert (a + b)[1..] == a[1..] + b;
      OfFileJoin(a[1..], b, f);
    }
  }

  lemma {:induction false} OfLabelled(g: nat, tracks: seq<Track>, f: nat)
    ensures OfFile(Labelled(g, tracks), f) == if f == g then tracks else []
  {
    if tracks != [] {
      assert Labelled(g, tracks)[1..] == Labelled(g, tracks[1..]);
      OfLabelled(g, tracks[1..], f);
    }
  }

  lemma {:induction false} StreamsAreTheFiles(files: map<nat, File>, order: seq<nat>, f: nat)
    requires NoDuplicates(order)
    ensures OfFile(StreamsOf(files, order), f) == if f in order then TracksOf(files, f) else []
  {
    if order != [] {
      StreamsAreTheFiles(files, order[1..], f);
      OfFileJoin(Labelled(order[0], TracksOf(files, order[0])), StreamsOf(files, order[1..]), f);
      OfLabelled(order[0], TracksOf(files, order[0]), f);
    }
  }

  /** The files of a title: those filed under one of its seasons. */
  ghost function FilesUnder(db: Db, i: nat): set<nat> {
    set f | f in db.files && db.files[f].season in db.seasons && db.seasons[db.files[f].season].item == i
  }

  lemma OrderOfTheRows(db: Db, i: nat, r: Reader, order: seq<nat>)
    requires HandsOutAll(r) && i in db.items
    requires order == r.order(EvidenceOf(db, i).seasons, Homes(EvidenceOf(db, i).files))
    ensures Lists(order, FilesUnder(db, i)) && |order| == |FilesUnder(db, i)|
    ensures EvidenceOf(db, i).files.Keys == FilesUnder(db, i)
    ensures forall f <- FilesUnder(db, i) :: EvidenceOf(db, i).files[f] == db.files[f]
  {
    assert Homes(EvidenceOf(db, i).files).Keys == FilesUnder(db, i);
    ListsSize(order, FilesUnder(db, i));
  }

  /** Reclassification hands classify the title's own columns, the number of its files and all their
      streams, file by file in the order stored. */
  lemma RowsReachClassify(db: Db, i: nat, r: Reader, t: C.Title)
    requires HandsOutAll(r) && i in db.items && t == TitleOf(EvidenceOf(db, i), r)
    ensures t.kind == Some(db.items[i].kind) && t.ids == db.items[i].ids && t.hint == r.kindOf(db.items[i].library)
    ensures t.files == |FilesUnder(db, i)|
    ensures forall f :: OfFile(t.tracks, f) == if f in FilesUnder(db, i) then db.files[f].body.tracks else []
  {
    var order := r.order(EvidenceOf(db, i).seasons, Homes(EvidenceOf(db, i).files));
    OrderOfTheRows(db, i, r, order);
    forall f ensures OfFile(t.tracks, f) == if f in FilesUnder(db, i) then db.files[f].body.tracks else [] {
      StreamsAreTheFiles(EvidenceOf(db, i).files, order, f);
    }
  }

  /** A stored provider answer reaches classify whenever its source has a name, with the title's own kind. */
  lemma StoredAnswersReachClassify(db: Db, i: nat, r: Reader, t: C.Title)
    requires i in db.items && t == TitleOf(EvidenceOf(db, i), r)
    ensures t.provider.None? <==> db.items[i].provider.None? || db.items[i].provider.value.source == ""
    ensures t.provider.Some? ==>
              && t.provider.value.source == db.items[i].provider.value.source
              && t.provider.value.kind == Some(db.items[i].kind)
              && t.provider.value.isAnime == db.items[i].provider.value.isAnime
              && t.provider.value.originCountry == db.items[i].provider.value.originCountry
  {
  }

  /** The release name is the last path component of one of the title's files, the first handed out; without
      files there is none. */
  lemma FirstFileNames(db: Db, i: nat, r: Reader, t: C.Title)
    requires HandsOutAll(r) && i in db.items && t == TitleOf(EvidenceOf(db, i), r)
    ensures t.rawName.None? <==> FilesUnder(db, i) == {}
    ensures t.rawName.Some? ==>
              exists f <- FilesUnder(db, i) :: [f] <= r.order(EvidenceOf(db, i).seasons, Homes(EvidenceOf(db, i).files))
                                               && LastComponent(db.files[f].path, t.rawName.value)
    ensures t.parsed == if t.rawName.Some? && t.rawName.value != "" then Some(r.parse(t.rawName.value)) else None
  {
    var order := r.order(EvidenceOf(db, i).seasons, Homes(EvidenceOf(db, i).files));
    OrderOfTheRows(db, i, r, order);
    if order != [] {
      assert order[0] in FilesUnder(db, i);
      BaseNameIsLast(db.files[order[0]].path);
    }
  }

  // ----- a dub muxed into a stored file -----

  predicate DefaultAudio(t: Track) {
    t.kind == Audio && HasLanguage(t) && t.isDefault
  }

  function WithTrack(tracks: seq<Track>, at: nat, t: Track): seq<Track>
    requires at <= |tracks|
  {
    tracks[..at] + [t] + tracks[at..]
  }

  lemma LabelledInsert(f: nat, tracks: seq<Track>, at: nat, t: Track)
    requires at <= |tracks|
    ensures Labelled(f, WithTrack(tracks, at, t)) == Inserted(Labelled(f, tracks), at, Stream(f, t))
  {
  }

  lemma InsertedBefore(a: seq<Stream>, b: seq<Stream>, at: nat, s: Stream)
    requires at <= |b|
    ensures a + Inserted(b, at, s) == Inserted(a + b, |a| + at, s)
  {
    assert (a + b)[..|a| + at] == a + b[..at] && (a + b)[|a| + at..] == b[at..];
  }

  lemma InsertedAhead(a: seq<Stream>, b: seq<Stream>, at: nat, s: Stream)
    requires at <= |a|
    ensures Inserted(a, at, s) + b == Inserted(a + b, at, s)
  {
    assert (a + b)[..at] == a[..at] && (a + b)[at..] == a[at..] + b;
  }

  /** The rows of `after` are those of `files`, but for one more track in file f. */
  ghost predicate OneTrackMore(files: map<nat, File>, after: map<nat, File>, f: nat, at: nat, t: Track) {
    && at <= |TracksOf(files, f)| && TracksOf(after, f) == WithTrack(TracksOf(files, f), at, t)
    && forall g :: g != f ==> TracksOf(after, g) == TracksOf(files, g)
  }

  ghost predicate InsertedAt(before: seq<Stream>, after: seq<Stream>, at: nat, s: Stream) {
    at <= |before| && after == Inserted(before, at, s)
  }

  lemma {:induction false} OtherFilesSameStreams(files: map<nat, File>, after: map<nat, File>, order: seq<nat>, f: nat)
    requires forall g :: g != f ==> TracksOf(after, g) == TracksOf(files, g)
    requires f !in order
    ensures StreamsOf(after, order) == StreamsOf(files, order)
  {
    if order != [] {
      OtherFilesSameStreams(files, after, order[1..], f);
    }
  }

  lemma FirstFileDubbed(files: map<nat, File>, after: map<nat, File>, order: seq<nat>, at: nat, t: Track)
    requires order != [] && OneTrackMore(files, after, order[0], at, t)
    requires StreamsOf(after, order[1..]) == StreamsOf(files, order[1..])
    ensures InsertedAt(StreamsOf(files, order), StreamsOf(after, order), at, Stream(order[0], t))
  {
    LabelledInsert(order[0], TracksOf(files, order[0]), at, t);
    InsertedAhead(Labelled(order[0], TracksOf(files, order[0])), StreamsOf(files, order[1..]), at, Stream(order[0], t));
  }

  lemma LaterFileDubbed(files: map<nat, File>, after: map<nat, File>, order: seq<nat>, at: nat, s: Stream)
    requires order != [] && TracksOf(after, order[0]) == TracksOf(files, order[0])
    requires InsertedAt(StreamsOf(files, order[1..]), StreamsOf(after, order[1..]), at, s)
    ensures InsertedAt(StreamsOf(files, order), StreamsOf(after, order), |TracksOf(files, order[0])| + at, s)
  {
    InsertedBefore(Labelled(order[0], TracksOf(files, order[0])), StreamsOf(files, order[1..]), at, s);
  }

  lemma SplitOrder(order: seq<nat>, f: nat)
    requires NoDuplicates(order) && f in order
    ensures order != [] && NoDuplicates(order[1..]) && (f in order[1..] <==> f != order[0])
  {
  }

  lemma {:induction false} DubbedStreams(files: map<nat, File>, after: map<nat, File>, order: seq<nat>,
                                         f: nat, at: nat, t: Track) returns (p: nat)
    requires NoDuplicates(order) && f in order && OneTrackMore(files, after, f, at, t)
    ensures InsertedAt(StreamsOf(files, order), StreamsOf(after, order), p, Stream(f, t))
  {
    SplitOrder(order, f);
    if order[0] == f {
      OtherFilesSameStreams(files, after, order[1..], f);
      FirstFileDubbed(files, after, order, at, t);
      p := at;
    } else {
      p := DubbedStreams(files, after, order[1..], f, at, t);
      LaterFileDubbed(files, after, order, p, Stream(f, t));
      p := |TracksOf(files, order[0])| + p;
    }
  }

  lemma {:induction false} StreamListed(files: map<nat, File>, order: seq<nat>, f: nat, k: nat)
    requires f in order && f in files && k < |files[f].body.tracks|
    ensures Stream(f, files[f].body.tracks[k]) in StreamsOf(files, order)
  {
    if order[0] == f {
      assert Labelled(f, TracksOf(files, f))[k] in Labelled(f, TracksOf(files, f));
    } else {
      StreamListed(files, order[1..], f, k);
    }
  }

  lemma {:induction false} TaggedIsAudioOf(tracks: seq<Stream>, s: Stream)
    requires s in tracks && TaggedAudio(s)
    ensures s in AudioOf(tracks, s.file)
  {
    if s != tracks[|tracks| - 1] {
      TaggedIsAudioOf(tracks[..|tracks| - 1], s);
    }
  }

  lemma DefaultIsHeard(files: map<nat, File>, order: seq<nat>, f: nat)
    requires f in order && f in files && exists t <- files[f].body.tracks :: DefaultAudio(t)
    ensures HasDefault(StreamsOf(files, order), f)
  {
    var k :| 0 <= k < |files[f].body.tracks| && DefaultAudio(files[f].body.tracks[k]);
    var s := Stream(f, files[f].body.tracks[k]);
    StreamListed(files, order, f, k);
    TaggedIsAudioOf(StreamsOf(files, order), s);
    var j :| 0 <= j < |AudioOf(StreamsOf(files, order), f)| && AudioOf(StreamsOf(files, order), f)[j] == s;
  }

  ghost predicate SameButPositions(a: seq<Track>, b: seq<Track>) {
    |a| == |b| && forall i | 0 <= i < |a| :: b[i] == a[i].(position := b[i].position)
  }

  /** `row` is the stored file `was` after a dub was muxed in: one more audio stream, not a default one, at
      place `at` of its track list, which may renumber the others; `was` has a default audio stream with a
      language. Every other column may differ too. */
  ghost predicate Dubs(was: File, row: File, at: nat, t: Track) {
    && row.season == was.season && row.path == was.path
    && at <= |was.body.tracks| && SameButPositions(WithTrack(was.body.tracks, at, t), row.body.tracks)
    && t.kind == Audio && !t.isDefault && exists u <- was.body.tracks :: DefaultAudio(u)
  }

  lemma {:induction false} RenumberedStreams(files: map<nat, File>, after: map<nat, File>, order: seq<nat>, f: nat)
    requires forall g :: g != f ==> TracksOf(after, g) == TracksOf(files, g)
    requires SameButPositions(TracksOf(files, f), TracksOf(after, f))
    ensures Renumbered(StreamsOf(files, order), StreamsOf(after, order), f)
  {
    if order != [] {
      RenumberedStreams(files, after, order[1..], f);
      RenumberedFile(order[0], f, TracksOf(files, order[0]), TracksOf(after, order[0]),
                     StreamsOf(files, order[1..]), StreamsOf(after, order[1..]));
    }
  }

  lemma RenumberedFile(g: nat, f: nat, x: seq<Track>, y: seq<Track>, rest: seq<Stream>, later: seq<Stream>)
    requires if g == f then SameButPositions(x, y) else x == y
    requires Renumbered(rest, later, f)
    ensures Renumbered(Labelled(g, x) + rest, Labelled(g, y) + later, f)
  {
  }

  /** Two lists of streams, one with a dub more: classify cannot tell them apart. */
  lemma OneMoreDub(title: C.Title, after: seq<Stream>, at: nat, s: Stream)
    requires InsertedAt(title.tracks, after, at, s)
    requires s.track.kind == Audio && !s.track.isDefault && HasDefault(title.tracks, s.file)
    ensures C.Classified(title.(tracks := after)) == C.Classified(title)
  {
    var dubs := [Dub(at, s)];
    assert dubs[1..] == [];
    assert AreDubs(after, dubs[1..]);
    C.DubsChangeNothing(title, dubs);
  }

  function WithFile(e: Evidence, f: nat, row: File): Evidence {
    e.(files := e.files[f := row])
  }

  /** One more track in file f, the others as they were. */
  lemma MuxedTitle(e: Evidence, r: Reader, f: nat, muxed: File, at: nat, t: Track)
    requires HandsOutAll(r) && f in e.files && Dubs(e.files[f], muxed, at, t)
    requires muxed.body.tracks == WithTrack(e.files[f].body.tracks, at, t)
    ensures C.Classified(TitleOf(WithFile(e, f, muxed), r)) == C.Classified(TitleOf(e, r))
  {
    var after := e.files[f := muxed];
    var order := r.order(e.seasons, Homes(e.files));
    assert Homes(after) == Homes(e.files);
    assert Lists(order, Homes(e.files).Keys) && f in Homes(e.files).Keys;
    DefaultIsHeard(e.files, order, f);
    var p := DubbedStreams(e.files, after, order, f, at, t);
    OneMoreDub(TitleOf(e, r), StreamsOf(after, order), p, Stream(f, t));
    DubbedRowSameTitle(e, r, f, muxed);
  }

  /** File f renumbered. */
  lemma RenumberedTitle(e: Evidence, r: Reader, f: nat, row: File)
    requires HandsOutAll(r) && f in e.files && row.season == e.files[f].season && row.path == e.files[f].path
    requires SameButPositions(e.files[f].body.tracks, row.body.tracks)
    requires exists u <- e.files[f].body.tracks :: DefaultAudio(u)
    ensures C.Classified(TitleOf(WithFile(e, f, row), r)) == C.Classified(TitleOf(e, r))
  {
    var after := e.files[f := row];
    var order := r.order(e.seasons, Homes(e.files));
    assert Lists(order, Homes(e.files).Keys) && f in Homes(e.files).Keys;
    DefaultIsHeard(e.files, order, f);
    RenumberedStreams(e.files, after, order, f);
    RenumberingKeepsEvidence(StreamsOf(e.files, order), StreamsOf(after, order), f);
    C.OnlyThreeThingsCount(TitleOf(e, r), StreamsOf(after, order));
    DubbedRowSameTitle(e, r, f, row);
  }

  /** The row between muxing and renumbering. */
  lemma MuxedRow(was: File, row: File, at: nat, t: Track) returns (muxed: File)
    requires Dubs(was, row, at, t)
    ensures Dubs(was, muxed, at, t) && muxed.body.tracks == WithTrack(was.body.tracks, at, t)
    ensures muxed.season == row.season && muxed.path == row.path
    ensures SameButPositions(muxed.body.tracks, row.body.tracks)
    ensures exists u <- muxed.body.tracks :: DefaultAudio(u)
  {
    muxed := row.(body := row.body.(tracks := WithTrack(was.body.tracks, at, t)));
    DefaultStays(was.body.tracks, at, t);
  }

  lemma DubbedTitle(e: Evidence, r: Reader, f: nat, row: File, at: nat, t: Track)
    requires HandsOutAll(r) && f in e.files && Dubs(e.files[f], row, at, t)
    ensures C.Classified(TitleOf(WithFile(e, f, row), r)) == C.Classified(TitleOf(e, r))
  {
    var muxed := MuxedRow(e.files[f], row, at, t);
    MuxedTitle(e, r, f, muxed, at, t);
    RenumberedTitle(WithFile(e, f, muxed), r, f, row);
    FileTwice(e, f, muxed, row);
  }

  lemma FileTwice(e: Evidence, f: nat, first: File, second: File)
    ensures WithFile(WithFile(e, f, first), f, second) == WithFile(e, f, second)
  {
    assert e.files[f := first][f := second] == e.files[f := second];
  }

  lemma DefaultStays(tracks: seq<Track>, at: nat, t: Track)
    requires at <= |tracks| && exists u <- tracks :: DefaultAudio(u)
    ensures exists u <- WithTrack(tracks, at, t) :: DefaultAudio(u)
  {
    var k :| 0 <= k < |tracks| && DefaultAudio(tracks[k]);
    assert WithTrack(tracks, at, t)[if k < at then k else k + 1] == tracks[k];
  }

  /** Only the streams tell the two titles apart. */
  lemma DubbedRowSameTitle(e: Evidence, r: Reader, f: nat, row: File)
    requires f in e.files && row.season == e.files[f].season && row.path == e.files[f].path
    ensures var after := e.files[f := row];
            && Homes(after) == Homes(e.files)
            && TitleOf(e.(files := after), r)
               == TitleOf(e, r).(tracks := StreamsOf(after, r.order(e.seasons, Homes(e.files))))
  {
    assert Homes(e.files[f := row]) == Homes(e.files);
  }

  function WithRow(db: Db, f: nat, row: File): Db {
    db.(files := db.files[f := row])
  }

  lemma EvidenceWithRow(db: Db, f: nat, row: File, i: nat)
    requires f in db.files && row.season == db.files[f].season && i in db.items
    ensures var e := EvidenceOf(db, i);
            EvidenceOf(WithRow(db, f, row), i) == if f in e.files then WithFile(e, f, row) else e
  {
    var e, later := EvidenceOf(db, i), EvidenceOf(WithRow(db, f, row), i);
    assert later.seasons == e.seasons;
    assert later.files == if f in e.files then e.files[f := row] else e.files;
  }

  lemma SameVerdictStaysSettled(db: Db, next: Db, i: nat, judge: Judge)
    requires i in db.items && next.items == db.items && Settled(db, i, judge)
    requires judge(EvidenceOf(next, i)) == judge(EvidenceOf(db, i))
    ensures Relabelled(next, i, judge) == next
  {
    SettledIsFixed(next, i, judge);
  }

  lemma DubsKeepVerdicts(db: Db, r: Reader, f: nat, row: File, at: nat, t: Track, i: nat)
    requires HandsOutAll(r) && f in db.files && Dubs(db.files[f], row, at, t) && i in db.items
    ensures ByClassify(r)(EvidenceOf(WithRow(db, f, row), i)) == ByClassify(r)(EvidenceOf(db, i))
  {
    var e := EvidenceOf(db, i);
    EvidenceWithRow(db, f, row, i);
    if f in e.files {
      DubbedTitle(e, r, f, row, at, t);
    }
  }

  /** Muxing a dub into any stored file leaves every title's verdict as it is: a title whose verdict was up
      to date still is, so reclassifying it changes no row and writes no event. */
  lemma StoredDubsAreSilent(db: Db, r: Reader, f: nat, row: File, at: nat, t: Track, i: nat)
    requires HandsOutAll(r) && f in db.files && Dubs(db.files[f], row, at, t) && i in db.items
    ensures ByClassify(r)(EvidenceOf(WithRow(db, f, row), i)) == ByClassify(r)(EvidenceOf(db, i))
    ensures Settled(db, i, ByClassify(r)) ==>
              Relabelled(WithRow(db, f, row), i, ByClassify(r)) == WithRow(db, f, row)
  {
    DubsKeepVerdicts(db, r, f, row, at, t, i);
    if Settled(db, i, ByClassify(r)) {
      SameVerdictStaysSettled(db, WithRow(db, f, row), i, ByClassify(r));
    }
  }

  // ----- a title without files -----

  lemma EmptyTitle(i: Item, r: Reader)
    requires HandsOutAll(r)
    ensures TitleOf(Evidence(i, map[], map[]), r)
            == C.Title(Some(i.kind), i.ids, r.kindOf(i.library), 0, [], None, None, StoredSignals(i))
  {
    var order := r.order(map[], Homes(map[]));
    assert Homes(map[]).Keys == {};
    ListsSize(order, {});
  }

  lemma EmptyShowScores(t: C.Title)
    requires t == C.Title(Some(Show), C.NO_IDS, t.hint, 0, [], None, None, None)
    ensures C.Points(C.Evidence(t)) == C.Score(0, 15, 0)
  {
    C.OneMore([], C.Entry(C.Series, 15, C.ParsedAsShow));
    assert C.Evidence(t) == [] + [C.Entry(C.Series, 15, C.ParsedAsShow)];
  }

  lemma EmptyShowVerdict(i: Item, r: Reader)
    requires HandsOutAll(r) && i.kind == Show && i.ids == C.NO_IDS && i.provider == None
    ensures EmptyVerdict(i, ByClassify(r)).classification == if r.kindOf(i.library) == "movie" then MovieLabel else TvLabel
  {
    var bare := Unjudged(i);
    EmptyTitle(bare, r);
    var t := TitleOf(Evidence(bare, map[], map[]), r);
    EmptyShowScores(t);
    C.VerdictFromScores(t);
    C.HintsOnAParsedShow(t.hint);
  }

  /** A show called anime on the strength of its files alone: when a scan finds the last of them gone, it
      announces the removed title as a series (or a film, in a film library). */
  lemma EmptiedAnimeIsAnnounced(last: Scan.Progress, gone: seq<nat>, library: nat, disk: set<Path>, r: Reader,
                                end: Scan.Progress, i: nat)
    requires HandsOutAll(r) && Scan.Finishes(last, gone, library, disk, ByClassify(r), end)
    requires i in last.db.items && last.db.items[i].library == library && i !in end.db.items
    requires var item := last.db.items[i];
             && item.kind == Show && item.ids == C.NO_IDS && item.provider == None
             && !item.overridden && item.classification == Some(AnimeLabel)
    ensures Reclassified(i, Some(AnimeLabel), Some(if r.kindOf(library) == "movie" then MovieLabel else TvLabel))
            in end.db.log
  {
    Scan.RemovedTitleEchoesExactlyWhen(last, gone, library, disk, ByClassify(r), end, i);
    EmptyShowVerdict(last.db.items[i], r);
    var before := Swept(last.db, gone).log;
    assert EchoOf(i, last.db.items[i], ByClassify(r)) in end.db.log[|before|..];
  }
}
