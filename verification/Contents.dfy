/** What a stored row says of its file, column by column: which probed value wins, what the summaries list,
    and that no run lets a row's summaries and its tracks drift apart. */
module Contents {
  import opened Prelude
  import opened Catalog
  import opened Probing
  import opened Ingest
  import opened Runs

  // ----- summaries -----

  /** One track's entry: language, failing that the raw tag, failing that "und"; then the codec or "?". */
  function Entry(t: Track): string {
    (if t.language.Some? && t.language.value != "" then t.language.value
     else if t.languageRaw.Some? && t.languageRaw.value != "" then t.languageRaw.value
     else "und")
    + "/" + (if t.codec.Some? && t.codec.value != "" then t.codec.value else "?")
  }

  function CommaSeparated(entries: seq<string>): string {
    if entries == [] then ""
    else if |entries| == 1 then entries[0]
    else CommaSeparated(entries[..|entries| - 1]) + ", " + entries[|entries| - 1]
  }

  /** `at` are the places of the tracks of this kind, all of them, in order. */
  ghost predicate PlacesOf(at: seq<nat>, tracks: seq<Track>, kind: StreamKind) {
    && (forall i, j | 0 <= i < j < |at| :: at[i] < at[j])
    && (forall i | 0 <= i < |at| :: at[i] < |tracks| && tracks[at[i]].kind == kind)
    && (forall k | 0 <= k < |tracks| && tracks[k].kind == kind :: k in at)
  }

  function PickedAt(tracks: seq<Track>, at: seq<nat>): seq<Track>
    requires forall i | 0 <= i < |at| :: at[i] < |tracks|
  {
    seq(|at|, i requires 0 <= i < |at| => tracks[at[i]])
  }

  function EntriesOf(tracks: seq<Track>): seq<string> {
    seq(|tracks|, i requires 0 <= i < |tracks| => Entry(tracks[i]))
  }

  /** No summary exactly when there is no such track; otherwise one entry per track, in order. */
  ghost predicate Summarises(text: Option<string>, tracks: seq<Track>, kind: StreamKind) {
    && (text.None? <==> forall t <- tracks :: t.kind != kind)
    && (text.Some? ==> exists at :: PlacesOf(at, tracks, kind)
                                    && text.value == CommaSeparated(EntriesOf(PickedAt(tracks, at))))
  }

  /** Both summaries of a row, of its own tracks. */
  ghost predicate RowSummarises(b: Body) {
    Summarises(b.facts.audioSummary, b.tracks, Audio) && Summarises(b.subtitleSummary, b.tracks, Subtitle)
  }

  lemma {:induction false} OfKindOneMore(tracks: seq<Track>, t: Track, kind: StreamKind)
    ensures OfKind(tracks + [t], kind) == OfKind(tracks, kind) + if t.kind == kind then [t] else []
  {
    if tracks == [] {
      assert OfKind([t], kind) == if t.kind == kind then [t] else [];
      assert tracks + [t] == [t];
    } else {
      OfKindOneMore(tracks[1..], t, kind);
      assert (tracks + [t])[1..] == tracks[1..] + [t];
      var first, last := if tracks[0].kind == kind then [tracks[0]] else [], if t.kind == kind then [t] else [];
      assert OfKind(tracks + [t], kind) == first + OfKind(tracks[1..] + [t], kind);
      assert first + (OfKind(tracks[1..], kind) + last) == first + OfKind(tracks[1..], kind) + last;
    }
  }

  lemma PlacesBeforeOthers(tracks: seq<Track>, more: seq<Track>, kind: StreamKind, at: seq<nat>)
    requires PlacesOf(at, tracks, kind) && forall i | 0 <= i < |more| :: more[i].kind != kind
    ensures PlacesOf(at, tracks + more, kind) && PickedAt(tracks + more, at) == PickedAt(tracks, at)
  {
  }

  lemma PlacesAndOneMore(tracks: seq<Track>, t: Track, at: seq<nat>)
    requires PlacesOf(at, tracks, t.kind)
    ensures PlacesOf(at + [|tracks|], tracks + [t], t.kind)
    ensures PickedAt(tracks + [t], at + [|tracks|]) == PickedAt(tracks, at) + [t]
  {
    assert (at + [|tracks|])[|at|] == |tracks|;
  }

  lemma {:induction false} KindsAreListed(tracks: seq<Track>, kind: StreamKind) returns (at: seq<nat>)
    ensures PlacesOf(at, tracks, kind) && OfKind(tracks, kind) == PickedAt(tracks, at)
    decreases |tracks|
  {
    if tracks == [] {
      at := [];
    } else {
      var front, t := tracks[..|tracks| - 1], tracks[|tracks| - 1];
      assert tracks == front + [t];
      OfKindOneMore(front, t, kind);
      at := KindsAreListed(front, kind);
      if t.kind == kind {
        PlacesAndOneMore(front, t, at);
        at := at + [|front|];
      } else {
        PlacesBeforeOthers(front, [t], kind, at);
      }
    }
  }

  lemma {:induction false} FirstThenRest(first: string, rest: seq<string>)
    requires rest != []
    ensures CommaSeparated([first] + rest) == first + ", " + CommaSeparated(rest)
    decreases |rest|
  {
    var all, n := [first] + rest, |rest| - 1;
    assert all[..|all| - 1] == [first] + rest[..n] && all[|all| - 1] == rest[n];
    if n > 0 {
      FirstThenRest(first, rest[..n]);
      assert CommaSeparated(all) == first + ", " + (CommaSeparated(rest[..n]) + ", " + rest[n]);
    } else {
      assert rest[..n] == [] && [first] + rest[..n] == [first];
    }
  }

  lemma {:induction false} JoinedIsSeparated(tracks: seq<Track>)
    ensures Joined(tracks) == CommaSeparated(EntriesOf(tracks))
    ensures tracks != [] ==> Joined(tracks) != ""
  {
    if |tracks| > 1 {
      JoinedIsSeparated(tracks[1..]);
      assert EntriesOf(tracks) == [Entry(tracks[0])] + EntriesOf(tracks[1..]);
      FirstThenRest(Entry(tracks[0]), EntriesOf(tracks[1..]));
    }
  }

  lemma SomeAreListed(tracks: seq<Track>, kind: StreamKind, at: seq<nat>)
    requires PlacesOf(at, tracks, kind)
    ensures at == [] <==> forall t <- tracks :: t.kind != kind
  {
    if at != [] {
      assert tracks[at[0]] in tracks;
    }
    if t :| t in tracks && t.kind == kind {
      var k :| 0 <= k < |tracks| && tracks[k] == t;
      assert k in at;
    }
  }

  lemma CompactSummarises(tracks: seq<Track>, kind: StreamKind)
    ensures Summarises(Compact(tracks, kind), tracks, kind)
  {
    var at := KindsAreListed(tracks, kind);
    JoinedIsSeparated(OfKind(tracks, kind));
    SomeAreListed(tracks, kind, at);
  }

  // ----- a row after a probe -----

  ghost predicate TextWins(given: Option<string>, kept: Option<string>, now: Option<string>) {
    now == if given.Some? && given.value != "" then given else kept
  }

  /** The picture columns are those of the first video stream, all four at once, or stay as they were. */
  ghost predicate PictureOf(streams: seq<StreamInfo>, kept: Picture, now: Picture) {
    && ((forall s <- streams :: s.kind != Video) ==> now == kept)
    && forall k | 0 <= k < |streams| && streams[k].kind == Video && forall j | 0 <= j < k :: streams[j].kind != Video ::
         now == Picture(streams[k].codec, streams[k].width, streams[k].height, streams[k].dynamicRange)
  }

  /** One past the largest position in use; 0 when there is none. */
  ghost predicate PastAll(streams: seq<StreamInfo>, next: int) {
    if streams == [] then next == 0
    else (forall s <- streams :: s.position < next) && exists s <- streams :: s.position + 1 == next
  }

  /** Every stream as an embedded track, then every sidecar as an external subtitle. */
  ghost predicate TracksShow(tracks: seq<Track>, streams: seq<StreamInfo>, sidecars: seq<Sidecar>, next: int) {
    && |tracks| == |streams| + |sidecars| && PastAll(streams, next)
    && (forall i | 0 <= i < |streams| ::
          tracks[i] == Track(streams[i].position, streams[i].kind, streams[i].codec, streams[i].language,
                             streams[i].languageRaw, streams[i].isDefault, false))
    && (forall j | 0 <= j < |sidecars| ::
          tracks[|streams| + j] == Track(next + j, Subtitle, sidecars[j].codec, sidecars[j].language,
                                         sidecars[j].languageRaw, sidecars[j].isDefault, true))
  }

  /** `after` is what a probe of this content makes of a row that held `before`. */
  ghost predicate Shows(before: Body, after: Body, p: Probe, st: Stat, sidecars: seq<Sidecar>) {
    && after.fingerprint == Some(st.digest) && after.mtime == Some(st.mtime) && after.facts.size == Some(st.size)
    && TextWins(p.container, before.facts.container, after.facts.container)
    && after.facts.duration == (if p.duration.Some? && p.duration.value != 0.0 then p.duration else before.facts.duration)
    && after.bitRate == (if p.bitRate.Some? && p.bitRate.value != 0 then p.bitRate else before.bitRate)
    && PictureOf(p.streams, before.facts.picture, after.facts.picture)
    && (exists next :: TracksShow(after.tracks, p.streams, sidecars, next))
    && RowSummarises(after)
  }

  lemma {:induction false} FirstVideoIsPrimary(streams: seq<StreamInfo>, kept: Picture)
    ensures var video := PrimaryVideo(streams);
            PictureOf(streams, kept, if video.None? then kept
                      else Picture(video.value.codec, video.value.width, video.value.height, video.value.dynamicRange))
    ensures PrimaryVideo(streams).None? <==> forall s <- streams :: s.kind != Video
  {
    if streams != [] {
      FirstVideoIsPrimary(streams[1..], kept);
      if streams[0].kind != Video {
        forall k | 0 <= k < |streams| && streams[k].kind == Video && forall j | 0 <= j < k :: streams[j].kind != Video
          ensures PrimaryVideo(streams) == Some(streams[k])
        {
          FirstVideoFound(streams, k);
        }
        assert forall s <- streams :: s == streams[0] || s in streams[1..];
      } else {
        assert streams[0] in streams;
      }
    }
  }

  lemma {:induction false} FirstVideoFound(streams: seq<StreamInfo>, k: nat)
    requires k < |streams| && streams[k].kind == Video && forall j | 0 <= j < k :: streams[j].kind != Video
    ensures PrimaryVideo(streams) == Some(streams[k])
  {
    if k > 0 {
      FirstVideoFound(streams[1..], k - 1);
    }
  }

  lemma {:induction false} NextIsPastAll(streams: seq<StreamInfo>, tracks: seq<Track>)
    requires |tracks| == |streams| && forall i | 0 <= i < |streams| :: tracks[i].position == streams[i].position
    ensures PastAll(streams, NextPosition(tracks))
  {
    if streams != [] {
      NextIsPastAll(streams[1..], tracks[1..]);
      assert forall s <- streams :: s == streams[0] || s in streams[1..];
      assert streams[0] in streams;
      assert forall s <- streams[1..] :: s in streams;
    }
  }

  /** Tracks of another kind at the end do not show in a summary. */
  lemma OtherKindsDoNotShow(tracks: seq<Track>, more: seq<Track>, kind: StreamKind, text: Option<string>)
    requires Summarises(text, tracks, kind) && forall i | 0 <= i < |more| :: more[i].kind != kind
    ensures Summarises(text, tracks + more, kind)
  {
    if text.Some? {
      var at :| PlacesOf(at, tracks, kind) && text.value == CommaSeparated(EntriesOf(PickedAt(tracks, at)));
      PlacesBeforeOthers(tracks, more, kind, at);
      var t :| t in tracks && t.kind == kind;
      assert t in tracks + more;
    }
  }

  lemma RefreshedTracks(before: Body, p: Probe, st: Stat, sidecars: seq<Sidecar>)
    ensures var probed, after := ProbedTracks(p), Refreshed(before, p, st, sidecars);
            && after.tracks == probed + SidecarTracks(sidecars, NextPosition(probed))
            && after.facts.audioSummary == Compact(probed, Audio)
            && after.subtitleSummary == Compact(after.tracks, Subtitle)
  {
  }

  lemma TracksAreShown(p: Probe, sidecars: seq<Sidecar>)
    ensures var probed := ProbedTracks(p);
            TracksShow(probed + SidecarTracks(sidecars, NextPosition(probed)), p.streams, sidecars, NextPosition(probed))
  {
    NextIsPastAll(p.streams, ProbedTracks(p));
  }

  lemma SummariesFit(b: Body, probed: seq<Track>, more: seq<Track>)
    requires b.tracks == probed + more && forall i | 0 <= i < |more| :: more[i].kind == Subtitle
    requires b.facts.audioSummary == Compact(probed, Audio) && b.subtitleSummary == Compact(b.tracks, Subtitle)
    ensures RowSummarises(b)
  {
    CompactSummarises(b.tracks, Subtitle);
    CompactSummarises(probed, Audio);
    OtherKindsDoNotShow(probed, more, Audio, Compact(probed, Audio));
  }

  lemma RefreshedSummaries(before: Body, p: Probe, st: Stat, sidecars: seq<Sidecar>)
    ensures RowSummarises(Refreshed(before, p, st, sidecars))
  {
    RefreshedTracks(before, p, st, sidecars);
    SummariesFit(Refreshed(before, p, st, sidecars), ProbedTracks(p),
                 SidecarTracks(sidecars, NextPosition(ProbedTracks(p))));
  }

  /** What the scanner makes of a probe is what the row is meant to show: the values it gave win, the ones it
      left out are kept, external subtitles are listed with the embedded ones. */
  lemma RefreshedShows(before: Body, p: Probe, st: Stat, sidecars: seq<Sidecar>)
    ensures Shows(before, Refreshed(before, p, st, sidecars), p, st, sidecars)
  {
    FirstVideoIsPrimary(p.streams, before.facts.picture);
    RefreshedTracks(before, p, st, sidecars);
    TracksAreShown(p, sidecars);
    RefreshedSummaries(before, p, st, sidecars);
  }

  // ----- what a committed file leaves in its row -----

  /** A file that is new or forced, or whose stored fingerprint or mtime is not the present one: once its
      transaction has committed its row shows the probe. */
  lemma OutdatedFilesAreProbed(db: Db, library: nat, path: Path, obs: Observation, force: bool)
    requires Structural(db) && Process(db, library, path, obs, force).Committed?
    requires force || forall f | f in db.files && db.files[f].path == path && obs.stat.Some? ::
               || db.files[f].body.fingerprint != Some(obs.stat.value.digest)
               || db.files[f].body.mtime != Some(obs.stat.value.mtime)
    ensures var s := Process(db, library, path, obs, force);
            && obs.stat.Some? && obs.probe.Some? && obs.sidecars.Some?
            && s.file in s.db.files && s.db.files[s.file].path == path
            && Shows(if s.file in db.files then db.files[s.file].body else BLANK, s.db.files[s.file].body,
                     obs.probe.value, obs.stat.value, obs.sidecars.value)
  {
    var s := Process(db, library, path, obs, force);
    OutcomesExactlyWhen(db, library, path, obs, force);
    ProcessUpserts(db, library, path, obs, force);
    if s.file in db.files {
      RefreshedShows(db.files[s.file].body, obs.probe.value, obs.stat.value, obs.sidecars.value);
    } else {
      AddedRowIsRefreshed(db, library, path, obs, force);
      RefreshedShows(BLANK, obs.probe.value, obs.stat.value, obs.sidecars.value);
    }
  }

  lemma AddedRowIsRefreshed(db: Db, library: nat, path: Path, obs: Observation, force: bool)
    requires Process(db, library, path, obs, force).Committed?
    requires Process(db, library, path, obs, force).file !in db.files
    ensures var s := Process(db, library, path, obs, force);
            && Readable(obs) && s.file in s.db.files
            && s.db.files[s.file].body == Refreshed(BLANK, obs.probe.value, obs.stat.value, obs.sidecars.value)
  {
    var shelf := Shelve(db, library, obs.found.value);
    var row := FindFile(db.files, shelf.season, path);
    if row.Some? {
      RescanShape(db, shelf, row.value, obs, force);
    }
  }

  // ----- over every run -----

  ghost predicate AllSummarise(db: Db) {
    forall f <- db.files :: RowSummarises(db.files[f].body)
  }

  /** A committed file's row holds what it held, or what a probe made of it. */
  lemma CommittedBody(db: Db, library: nat, path: Path, obs: Observation, force: bool)
    requires Process(db, library, path, obs, force).Committed?
    ensures var s := Process(db, library, path, obs, force);
            && s.file in s.db.files
            && (|| (s.file in db.files && s.db.files[s.file].body == db.files[s.file].body)
                || (Readable(obs) && s.file in db.files && s.db.files[s.file].body == Seen(db.files[s.file].body, obs))
                || (Readable(obs) && s.db.files[s.file].body == Seen(BLANK, obs)))
  {
    var shelf := Shelve(db, library, obs.found.value);
    PlacementOutcome(db, shelf, path, obs, force);
  }

  lemma CommittedRowSummarises(db: Db, library: nat, path: Path, obs: Observation, force: bool)
    requires AllSummarise(db) && Process(db, library, path, obs, force).Committed?
    ensures var s := Process(db, library, path, obs, force);
            s.file in s.db.files && RowSummarises(s.db.files[s.file].body)
  {
    CommittedBody(db, library, path, obs, force);
    var f := Process(db, library, path, obs, force).file;
    if Readable(obs) {
      RefreshedSummaries(BLANK, obs.probe.value, obs.stat.value, obs.sidecars.value);
      if f in db.files {
        RefreshedSummaries(db.files[f].body, obs.probe.value, obs.stat.value, obs.sidecars.value);
      }
    }
  }

  lemma OneRowSummarises(db: Db, next: Db, f: nat)
    requires AllSummarise(db) && f in next.files && RowSummarises(next.files[f].body)
    requires next.files == db.files[f := next.files[f]]
    ensures AllSummarise(next)
  {
    forall g <- next.files ensures RowSummarises(next.files[g].body) {
      assert g != f ==> next.files[g] == db.files[g];
    }
  }

  lemma CommitSummarises(db: Db, library: nat, path: Path, obs: Observation, force: bool)
    requires AllSummarise(db) && Process(db, library, path, obs, force).Committed?
    ensures AllSummarise(Process(db, library, path, obs, force).db)
  {
    var s := Process(db, library, path, obs, force);
    CommittedRowSummarises(db, library, path, obs, force);
    ProcessUpserts(db, library, path, obs, force);
    OneRowSummarises(db, s.db, s.file);
  }

  lemma FewerRowsSummarise(db: Db, next: Db)
    requires AllSummarise(db) && forall f <- next.files :: f in db.files && next.files[f] == db.files[f]
    ensures AllSummarise(next)
  {
  }

  lemma StepSummarises(db: Db, a: Action, next: Db)
    requires AllSummarise(db) && Next(db, a, next)
    ensures AllSummarise(next)
  {
    StepShapes(db, a, next);
    if IsCommitOf(db, a, next) {
      CommitSummarises(db, a.library, a.path, a.obs, a.force);
    } else {
      FewerRowsSummarise(db, next);
    }
  }

  /** In every state of every run, each stored row's two summaries are those of its own stored tracks, the
      external subtitles included. */
  lemma {:induction false} RowsStaySummarised(trace: seq<Db>, actions: seq<Action>, k: nat)
    requires IsRun(trace, actions) && k < |trace|
    ensures forall f <- trace[k].files ::
              && Summarises(trace[k].files[f].body.facts.audioSummary, trace[k].files[f].body.tracks, Audio)
              && Summarises(trace[k].files[f].body.subtitleSummary, trace[k].files[f].body.tracks, Subtitle)
  {
    if k > 0 {
      RowsStaySummarised(trace, actions, k - 1);
      assert AllSummarise(trace[k - 1]);
      assert StepAt(trace, actions, k - 1);
      StepSummarises(trace[k - 1], actions[k - 1], trace[k]);
      assert AllSummarise(trace[k]);
    }
  }
}
