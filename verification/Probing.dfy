/** Turning one probe of a file into row contents, and deciding whether the row really changed. */
module Probing {
  import opened Prelude
  import opened Catalog

  datatype StreamInfo = StreamInfo(position: int, kind: StreamKind, codec: Option<string>,
                                   language: Option<string>, languageRaw: Option<string>,
                                   isDefault: bool, width: Option<int>, height: Option<int>,
                                   dynamicRange: Option<string>)

  /** What the opaque probe of one file reports. */
  datatype Probe = Probe(container: Option<string>, duration: Option<real>, bitRate: Option<int>,
                         streams: seq<StreamInfo>)

  /** What fingerprinting and stat report for the same file. */
  datatype Stat = Stat(digest: string, mtime: real, size: nat)

  datatype Sidecar = Sidecar(codec: Option<string>, language: Option<string>,
                             languageRaw: Option<string>, isDefault: bool)

  // The source's `new or old`: empty strings and zeros count as missing.

  predicate Given(text: Option<string>) { text.Some? && text.value != "" }

  function TextOr(newer: Option<string>, prior: Option<string>): Option<string> {
    if Given(newer) then newer else prior
  }

  function RealOr(newer: Option<real>, prior: Option<real>): Option<real> {
    if newer.Some? && newer.value != 0.0 then newer else prior
  }

  function IntOr(newer: Option<int>, prior: Option<int>): Option<int> {
    if newer.Some? && newer.value != 0 then newer else prior
  }

  // ----- compact summaries -----

  function TextOf(text: Option<string>, otherwise: string): string {
    if Given(text) then text.value else otherwise
  }

  function Tag(t: Track): string {
    TextOf(t.language, TextOf(t.languageRaw, "und")) + "/" + TextOf(t.codec, "?")
  }

  function OfKind(tracks: seq<Track>, kind: StreamKind): seq<Track> {
    if tracks == [] then []
    else (if tracks[0].kind == kind then [tracks[0]] else []) + OfKind(tracks[1..], kind)
  }

  function Joined(tracks: seq<Track>): string {
    if tracks == [] then ""
    else if |tracks| == 1 then Tag(tracks[0])
    else Tag(tracks[0]) + ", " + Joined(tracks[1..])
  }

  function Compact(tracks: seq<Track>, kind: StreamKind): Option<string> {
    var text := Joined(OfKind(tracks, kind));
    if text == "" then None else Some(text)
  }

  // ----- tracks -----

  function TrackOf(s: StreamInfo): Track {
    Track(s.position, s.kind, s.codec, s.language, s.languageRaw, s.isDefault, false)
  }

  function ProbedTracks(p: Probe): (tracks: seq<Track>) {
    seq(|p.streams|, i requires 0 <= i < |p.streams| => TrackOf(p.streams[i]))
  }

  function NextPosition(tracks: seq<Track>): (next: int)
    ensures forall t <- tracks :: t.position < next
  {
    if tracks == [] then 0
    else
      var rest := NextPosition(tracks[1..]);
      if |tracks| > 1 && rest > tracks[0].position then rest else tracks[0].position + 1
  }

  function SidecarTrack(s: Sidecar, position: int): Track {
    Track(position, Subtitle, s.codec, s.language, s.languageRaw, s.isDefault, true)
  }

  function SidecarTracks(sidecars: seq<Sidecar>, next: int): (tracks: seq<Track>) {
    seq(|sidecars|, i requires 0 <= i < |sidecars| => SidecarTrack(sidecars[i], next + i))
  }

  function PrimaryVideo(streams: seq<StreamInfo>): Option<StreamInfo> {
    if streams == [] then None
    else if streams[0].kind == Video then Some(streams[0])
    else PrimaryVideo(streams[1..])
  }

  // ----- the row after a probe -----

  /** The gap-free columns after probing `p` on top of the columns already stored. */
  function Observed(prior: Facts, p: Probe, size: nat): Facts {
    var video := PrimaryVideo(p.streams);
    Facts(Some(size),
          TextOr(p.container, prior.container),
          RealOr(p.duration, prior.duration),
          if video.None? then prior.picture
          else Picture(video.value.codec, video.value.width, video.value.height, video.value.dynamicRange),
          Compact(ProbedTracks(p), Audio))
  }

  function Refreshed(prior: Body, p: Probe, st: Stat, sidecars: seq<Sidecar>): Body {
    var probed := ProbedTracks(p);
    var tracks := probed + SidecarTracks(sidecars, NextPosition(probed));
    Body(Observed(prior.facts, p, st.size), IntOr(p.bitRate, prior.bitRate),
         Compact(tracks, Subtitle), tracks, Some(st.digest), Some(st.mtime))
  }

  /** _has_meaningful_change: equal fingerprints silence everything else. */
  predicate MeaningfulChange(before: Body, after: Body) {
    if Given(before.fingerprint) && Given(after.fingerprint) && before.fingerprint == after.fingerprint then false
    else
      || before.facts != after.facts
      || before.subtitleSummary != after.subtitleSummary
      || |before.tracks| != |after.tracks|
  }

  /** Probing the same content a second time leaves the gap-free columns where they are,
      whatever was stored before the first time. */
  lemma ObservedIsStable(prior: Facts, p: Probe, size: nat)
    ensures var once := Observed(prior, p, size); Observed(once, p, size) == once
  {
  }

  /** Of two probes of the same content the later one decides the whole row: with the same sidecars the row
      stays as it is, with others only the track list and the subtitle summary move. */
  lemma ReprobeIsStable(prior: Body, p: Probe, st: Stat, sidecars: seq<Sidecar>, others: seq<Sidecar>)
    ensures var once := Refreshed(prior, p, st, sidecars);
            && Refreshed(once, p, st, sidecars) == once
            && Refreshed(once, p, st, others) == Refreshed(prior, p, st, others)
            && (var again := Refreshed(once, p, st, others);
                again == once.(tracks := again.tracks, subtitleSummary := again.subtitleSummary))
  {
    ObservedIsStable(prior.facts, p, st.size);
  }

  ghost predicate StrictlyOrdered(tracks: seq<Track>) {
    forall i, j | 0 <= i < j < |tracks| :: tracks[i].position < tracks[j].position
  }

  lemma OrderedJoin(a: seq<Track>, b: seq<Track>, bound: int)
    requires StrictlyOrdered(a) && StrictlyOrdered(b)
    requires forall i | 0 <= i < |a| :: a[i].position < bound
    requires forall i | 0 <= i < |b| :: bound <= b[i].position
    ensures StrictlyOrdered(a + b)
  {
  }

  /** External subtitles never collide with an embedded stream: row positions stay distinct. */
  lemma PositionsStayDistinct(prior: Body, p: Probe, st: Stat, sidecars: seq<Sidecar>)
    requires forall i, j | 0 <= i < j < |p.streams| :: p.streams[i].position < p.streams[j].position
    ensures StrictlyOrdered(Refreshed(prior, p, st, sidecars).tracks)
  {
    var probed := ProbedTracks(p);
    var next := NextPosition(probed);
    forall i | 0 <= i < |probed| ensures probed[i].position < next {
      assert probed[i] in probed;
    }
    OrderedJoin(probed, SidecarTracks(sidecars, next), next);
  }

  // ----- the same, as the scanner does it: step by step on the row -----

  /** _apply_probe. */
  method ApplyProbe(row: Body, p: Probe, st: Stat) returns (r: Body)
    ensures r == Body(Observed(row.facts, p, st.size), IntOr(p.bitRate, row.bitRate),
                      row.subtitleSummary, ProbedTracks(p), Some(st.digest), Some(st.mtime))
  {
    r := row;
    r := r.(facts := r.facts.(container := TextOr(p.container, r.facts.container),
                              duration := RealOr(p.duration, r.facts.duration)),
            bitRate := IntOr(p.bitRate, r.bitRate));
    var video := PrimaryVideo(p.streams);
    if video.Some? {
      r := r.(facts := r.facts.(picture := Picture(video.value.codec, video.value.width,
                                                   video.value.height, video.value.dynamicRange)));
    }
    r := r.(facts := r.facts.(audioSummary := Compact(ProbedTracks(p), Audio)));
    r := r.(tracks := []);
    ghost var facts, bits := r.facts, r.bitRate;
    for i := 0 to |p.streams|
      invariant r.facts == facts && r.bitRate == bits && r.subtitleSummary == row.subtitleSummary
      invariant r.tracks == ProbedTracks(p)[..i]
    {
      r := r.(tracks := r.tracks + [TrackOf(p.streams[i])]);
    }
    r := r.(fingerprint := Some(st.digest), mtime := Some(st.mtime));
    r := r.(facts := r.facts.(size := Some(st.size)));
  }

  /** _add_sidecars. */
  method AddSidecars(row: Body, sidecars: seq<Sidecar>) returns (r: Body)
    ensures r == row.(tracks := row.tracks + SidecarTracks(sidecars, NextPosition(row.tracks)))
  {
    var next := NextPosition(row.tracks);
    r := row;
    for i := 0 to |sidecars|
      invariant next == NextPosition(row.tracks) + i
      invariant r == row.(tracks := row.tracks + SidecarTracks(sidecars, NextPosition(row.tracks))[..i])
    {
      r := r.(tracks := r.tracks + [SidecarTrack(sidecars[i], next)]);
      next := next + 1;
    }
  }
}
