/** Which audio language counts as evidence (classify/classifier.py, primary_audio_languages): one language
    for each file, however many dubs the file carries. */
module Audio {
  import opened Prelude
  import opened Catalog

  /** One stored stream together with the file it belongs to. */
  datatype Stream = Stream(file: nat, track: Track)

  function Lower(s: string): string {
    seq(|s|, i requires 0 <= i < |s| =>
      if 'A' <= s[i] <= 'Z' then ((s[i] as int) + 32) as char else s[i])
  }

  /** Only ASCII letters fold into these three words, so folding ASCII decides the test. */
  predicate IsJapanese(language: string) {
    language != "" && Lower(language) in {"ja", "jpn", "japanese"}
  }

  predicate HasLanguage(t: Track) {
    t.language.Some? && t.language.value != ""
  }

  predicate TaggedAudio(s: Stream) {
    s.track.kind == Audio && HasLanguage(s.track)
  }

  /** The tagged audio streams of one file, in stream order. */
  function AudioOf(tracks: seq<Stream>, file: nat): (r: seq<Stream>)
    ensures forall s <- r :: TaggedAudio(s) && s.file == file && s in tracks
  {
    if tracks == [] then []
    else
      var front, last := tracks[..|tracks| - 1], tracks[|tracks| - 1];
      AudioOf(front, file) + if TaggedAudio(last) && last.file == file then [last] else []
  }

  /** The files with tagged audio, in order of first appearance: a Python dict's key order. */
  function FilesOf(tracks: seq<Stream>): seq<nat> {
    if tracks == [] then []
    else
      var front, last := tracks[..|tracks| - 1], tracks[|tracks| - 1];
      FilesOf(front) + if TaggedAudio(last) && last.file !in FilesOf(front) then [last.file] else []
  }

  function FirstDefault(audio: seq<Stream>): (k: nat)
    ensures k <= |audio|
    ensures k < |audio| ==> audio[k].track.isDefault
    ensures forall j | 0 <= j < k :: !audio[j].track.isDefault
  {
    if audio == [] || audio[0].track.isDefault then 0 else 1 + FirstDefault(audio[1..])
  }

  function Earliest(audio: seq<Stream>): (k: nat)
    requires audio != []
    ensures k < |audio|
    ensures forall j | 0 <= j < |audio| :: audio[k].track.position <= audio[j].track.position
    ensures forall j | 0 <= j < k :: audio[k].track.position < audio[j].track.position
  {
    if |audio| == 1 then 0
    else
      var k := 1 + Earliest(audio[1..]);
      if audio[0].track.position <= audio[k].track.position then 0 else k
  }

  /** The stream a player would pick: the first default, or failing that the first by position. */
  function Chosen(audio: seq<Stream>): Stream
    requires audio != []
  {
    var k := FirstDefault(audio);
    if k < |audio| then audio[k] else audio[Earliest(audio)]
  }

  function LanguageOf(audio: seq<Stream>): Option<string> {
    if audio == [] then None else Chosen(audio).track.language
  }

  function PrimaryOf(tracks: seq<Stream>, file: nat): Option<string> {
    LanguageOf(AudioOf(tracks, file))
  }

  lemma {:induction false} FilesHaveAudio(tracks: seq<Stream>)
    ensures NoDuplicates(FilesOf(tracks))
    ensures forall f :: f in FilesOf(tracks) <==> AudioOf(tracks, f) != []
  {
    if tracks != [] {
      FilesHaveAudio(tracks[..|tracks| - 1]);
    }
  }

  function LanguagesOf(tracks: seq<Stream>, files: seq<nat>): seq<string> {
    if files == [] then []
    else
      var primary := PrimaryOf(tracks, files[|files| - 1]);
      LanguagesOf(tracks, files[..|files| - 1]) + if primary.Some? then [primary.value] else []
  }

  function PrimariesOf(tracks: seq<Stream>): seq<string> {
    LanguagesOf(tracks, FilesOf(tracks))
  }

  lemma {:induction false} LanguagesComeFromFiles(tracks: seq<Stream>, files: seq<nat>, language: string)
    ensures language in LanguagesOf(tracks, files) <==> exists f <- files :: PrimaryOf(tracks, f) == Some(language)
  {
    if files != [] {
      LanguagesComeFromFiles(tracks, files[..|files| - 1], language);
      assert forall f :: f in files <==> f in files[..|files| - 1] || f == files[|files| - 1];
    }
  }

  /** The languages listed are those of the files' primary streams, and nothing else. */
  lemma PrimariesAreOnePerFile(tracks: seq<Stream>, language: string)
    ensures language in PrimariesOf(tracks) <==> exists f :: PrimaryOf(tracks, f) == Some(language)
  {
    FilesHaveAudio(tracks);
    LanguagesComeFromFiles(tracks, FilesOf(tracks), language);
  }

  function Added(byFile: map<nat, seq<Stream>>, s: Stream): map<nat, seq<Stream>> {
    byFile[s.file := (if s.file in byFile then byFile[s.file] else []) + [s]]
  }

  /** The dict after reading `tracks`. */
  function GroupsOf(tracks: seq<Stream>): map<nat, seq<Stream>> {
    if tracks == [] then map[]
    else
      var front, last := tracks[..|tracks| - 1], tracks[|tracks| - 1];
      if TaggedAudio(last) then Added(GroupsOf(front), last) else GroupsOf(front)
  }

  lemma {:induction false} GroupsHoldEachFilesAudio(tracks: seq<Stream>, file: nat)
    ensures file in GroupsOf(tracks) <==> file in FilesOf(tracks)
    ensures file in GroupsOf(tracks) ==> GroupsOf(tracks)[file] == AudioOf(tracks, file)
    ensures file !in GroupsOf(tracks) ==> AudioOf(tracks, file) == []
  {
    if tracks != [] {
      var front, last := tracks[..|tracks| - 1], tracks[|tracks| - 1];
      GroupsHoldEachFilesAudio(front, file);
      GroupsHoldEachFilesAudio(front, last.file);
    }
  }

  lemma LanguagesOneMore(tracks: seq<Stream>, files: seq<nat>, i: nat)
    requires i < |files|
    ensures LanguagesOf(tracks, files[..i + 1])
            == LanguagesOf(tracks, files[..i])
               + if PrimaryOf(tracks, files[i]).Some? then [PrimaryOf(tracks, files[i]).value] else []
  {
    assert files[..i + 1][..i] == files[..i] && files[..i + 1][i] == files[i];
  }

  lemma GroupIsAudio(tracks: seq<Stream>, file: nat)
    requires file in FilesOf(tracks)
    ensures file in GroupsOf(tracks) && GroupsOf(tracks)[file] == AudioOf(tracks, file) != []
    ensures Chosen(AudioOf(tracks, file)) in AudioOf(tracks, file)
  {
    FilesHaveAudio(tracks);
    GroupsHoldEachFilesAudio(tracks, file);
  }

  lemma PrimaryAt(tracks: seq<Stream>, i: nat)
    requires i < |FilesOf(tracks)|
    ensures var file := FilesOf(tracks)[i];
            && file in GroupsOf(tracks) && GroupsOf(tracks)[file] != []
            && HasLanguage(Chosen(GroupsOf(tracks)[file]).track)
            && LanguagesOf(tracks, FilesOf(tracks)[..i + 1])
               == LanguagesOf(tracks, FilesOf(tracks)[..i]) + [Chosen(GroupsOf(tracks)[file]).track.language.value]
  {
    LanguagesOneMore(tracks, FilesOf(tracks), i);
    GroupIsAudio(tracks, FilesOf(tracks)[i]);
  }

  /** The first loop of primary_audio_languages: group by file in a dict, whose key order is `keys`. */
  method GroupAudioByFile(tracks: seq<Stream>) returns (byFile: map<nat, seq<Stream>>, keys: seq<nat>)
    ensures byFile == GroupsOf(tracks) && keys == FilesOf(tracks)
    ensures forall f :: f in byFile <==> f in keys
  {
    byFile, keys := map[], [];
    for i := 0 to |tracks|
      invariant byFile == GroupsOf(tracks[..i]) && keys == FilesOf(tracks[..i])
      invariant forall f :: f in byFile <==> f in keys
    {
      var s := tracks[i];
      assert tracks[..i + 1][..i] == tracks[..i];
      if s.track.kind != Audio || !HasLanguage(s.track) {
        continue;
      }
      if s.file !in byFile {
        byFile := byFile[s.file := []];
        keys := keys + [s.file];
      }
      byFile := byFile[s.file := byFile[s.file] + [s]];
    }
    assert tracks[..|tracks|] == tracks;
  }

  /** primary_audio_languages. */
  method PrimaryAudioLanguages(tracks: seq<Stream>) returns (primaries: seq<string>)
    ensures primaries == PrimariesOf(tracks)
  {
    var byFile, keys := GroupAudioByFile(tracks);
    primaries := [];
    for i := 0 to |keys|
      invariant primaries == LanguagesOf(tracks, keys[..i])
    {
      PrimaryAt(tracks, i);
      var chosen := Chosen(byFile[keys[i]]);
      if HasLanguage(chosen.track) {
        primaries := primaries + [chosen.track.language.value];
      }
    }
    assert keys[..|keys|] == keys;
  }

  predicate JapanesePrimary(tracks: seq<Stream>) {
    exists language <- PrimariesOf(tracks) :: IsJapanese(language)
  }

  /** The two questions classify asks about the primaries. */
  method AudioEvidence(tracks: seq<Stream>) returns (japanese: bool, anyAudio: bool)
    ensures japanese == JapanesePrimary(tracks)
    ensures anyAudio == (PrimariesOf(tracks) != [])
  {
    var languages := PrimaryAudioLanguages(tracks);
    japanese := exists language <- languages :: IsJapanese(language);
    anyAudio := languages != [];
  }

  predicate ForeignSubs(tracks: seq<Stream>) {
    exists s <- tracks :: s.track.kind == Subtitle && HasLanguage(s.track) && !IsJapanese(s.track.language.value)
  }

  // ----- dubs -----

  lemma {:induction false} AudioSplit(a: seq<Stream>, b: seq<Stream>, file: nat)
    ensures AudioOf(a + b, file) == AudioOf(a, file) + AudioOf(b, file)
    decreases |b|
  {
    if b == [] {
      assert a + b == a;
    } else {
      var front := b[..|b| - 1];
      assert (a + b)[..|a + b| - 1] == a + front;
      AudioSplit(a, front, file);
    }
  }

  /** The file has a default-flagged, language-tagged audio stream. */
  ghost predicate HasDefault(tracks: seq<Stream>, file: nat) {
    exists k :: 0 <= k < |AudioOf(tracks, file)| && AudioOf(tracks, file)[k].track.isDefault
  }

  lemma ChosenIgnoresDub(x: seq<Stream>, dub: Stream, y: seq<Stream>)
    requires !dub.track.isDefault
    requires exists k :: 0 <= k < |x + y| && (x + y)[k].track.isDefault
    ensures Chosen(x + [dub] + y) == Chosen(x + y)
  {
    var k, long := FirstDefault(x + y), x + [dub] + y;
    var m := if k < |x| then k else k + 1;
    assert long[m] == (x + y)[k];
    forall j | 0 <= j < m ensures !long[j].track.isDefault {
      if j != |x| {
        assert long[j] == (x + y)[if j < |x| then j else j - 1];
      }
    }
    assert FirstDefault(long) == m;
  }

  function Inserted(tracks: seq<Stream>, at: nat, s: Stream): seq<Stream>
    requires at <= |tracks|
  {
    tracks[..at] + [s] + tracks[at..]
  }

  lemma InsertedAudio(tracks: seq<Stream>, at: nat, s: Stream, file: nat)
    requires at <= |tracks|
    ensures AudioOf(tracks, file) == AudioOf(tracks[..at], file) + AudioOf(tracks[at..], file)
    ensures AudioOf(Inserted(tracks, at, s), file)
            == AudioOf(tracks[..at], file) + (if TaggedAudio(s) && s.file == file then [s] else [])
               + AudioOf(tracks[at..], file)
  {
    var a, b := tracks[..at], tracks[at..];
    assert tracks == a + b;
    AudioSplit(a, b, file);
    AudioSplit(a + [s], b, file);
    assert (a + [s])[..at] == a;
  }

  lemma OneDub(tracks: seq<Stream>, at: nat, dub: Stream, file: nat)
    requires at <= |tracks| && dub.track.kind == Audio && !dub.track.isDefault && HasDefault(tracks, dub.file)
    ensures PrimaryOf(Inserted(tracks, at, dub), file) == PrimaryOf(tracks, file)
  {
    InsertedAudio(tracks, at, dub, file);
    var x, y := AudioOf(tracks[..at], file), AudioOf(tracks[at..], file);
    LanguageIgnoresDub(x, dub, y, AudioOf(tracks, file), AudioOf(Inserted(tracks, at, dub), file), file);
  }

  lemma LanguageIgnoresDub(x: seq<Stream>, dub: Stream, y: seq<Stream>, audio: seq<Stream>,
                           more: seq<Stream>, file: nat)
    requires !dub.track.isDefault && audio == x + y
    requires more == x + (if TaggedAudio(dub) && dub.file == file then [dub] else []) + y
    requires dub.file == file ==> exists k :: 0 <= k < |audio| && audio[k].track.isDefault
    ensures LanguageOf(more) == LanguageOf(audio)
  {
    if TaggedAudio(dub) && dub.file == file {
      ChosenIgnoresDub(x, dub, y);
    } else {
      assert more == audio;
    }
  }

  datatype Dub = Dub(at: nat, stream: Stream)

  /** `dubs` put non-default audio streams, one after another, anywhere into the list; each belongs to a
      file that already has a default, tagged audio stream. */
  ghost predicate AreDubs(tracks: seq<Stream>, dubs: seq<Dub>)
    decreases |dubs|
  {
    dubs == [] ||
    (var d := dubs[0];
     && d.at <= |tracks| && d.stream.track.kind == Audio && !d.stream.track.isDefault
     && HasDefault(tracks, d.stream.file)
     && AreDubs(Inserted(tracks, d.at, d.stream), dubs[1..]))
  }

  ghost function Dubbed(tracks: seq<Stream>, dubs: seq<Dub>): seq<Stream>
    requires AreDubs(tracks, dubs)
    decreases |dubs|
  {
    if dubs == [] then tracks else Dubbed(Inserted(tracks, dubs[0].at, dubs[0].stream), dubs[1..])
  }

  /** No dub changes any file's primary language, nor the subtitle evidence. */
  lemma {:induction false} DubsKeepPrimaries(tracks: seq<Stream>, dubs: seq<Dub>)
    requires AreDubs(tracks, dubs)
    ensures forall f :: PrimaryOf(Dubbed(tracks, dubs), f) == PrimaryOf(tracks, f)
    ensures ForeignSubs(Dubbed(tracks, dubs)) == ForeignSubs(tracks)
    decreases |dubs|
  {
    if dubs != [] {
      var d := dubs[0];
      var next := Inserted(tracks, d.at, d.stream);
      forall f ensures PrimaryOf(next, f) == PrimaryOf(tracks, f) {
        OneDub(tracks, d.at, d.stream, f);
      }
      assert forall s :: s in next <==> s in tracks || s == d.stream by {
        assert tracks == tracks[..d.at] + tracks[d.at..];
      }
      DubsKeepPrimaries(next, dubs[1..]);
    }
  }

  lemma SamePrimariesSameEvidence(a: seq<Stream>, b: seq<Stream>)
    requires forall f :: PrimaryOf(a, f) == PrimaryOf(b, f)
    ensures JapanesePrimary(a) == JapanesePrimary(b)
    ensures PrimariesOf(a) != [] <==> PrimariesOf(b) != []
  {
    forall language ensures language in PrimariesOf(a) <==> language in PrimariesOf(b) {
      PrimariesAreOnePerFile(a, language);
      PrimariesAreOnePerFile(b, language);
    }
    assert PrimariesOf(a) != [] ==> PrimariesOf(a)[0] in PrimariesOf(b);
    assert PrimariesOf(b) != [] ==> PrimariesOf(b)[0] in PrimariesOf(a);
  }

  lemma DubsKeepEvidence(tracks: seq<Stream>, dubs: seq<Dub>)
    requires AreDubs(tracks, dubs)
    ensures JapanesePrimary(Dubbed(tracks, dubs)) == JapanesePrimary(tracks)
    ensures ForeignSubs(Dubbed(tracks, dubs)) == ForeignSubs(tracks)
    ensures PrimariesOf(Dubbed(tracks, dubs)) != [] <==> PrimariesOf(tracks) != []
  {
    DubsKeepPrimaries(tracks, dubs);
    SamePrimariesSameEvidence(tracks, Dubbed(tracks, dubs));
  }

  // ----- renumbered streams -----

  /** The same stream; if it is one of file f, its position may differ. */
  predicate Moved(s: Stream, t: Stream, f: nat) {
    t == s || (s.file == f && t == s.(track := s.track.(position := t.track.position)))
  }

  /** The same streams in the same order; those of file f may have other positions. */
  ghost predicate Renumbered(a: seq<Stream>, b: seq<Stream>, f: nat) {
    |a| == |b| && forall i | 0 <= i < |a| :: Moved(a[i], b[i], f)
  }

  lemma RenumberedOneMore(x: seq<Stream>, y: seq<Stream>, more: seq<Stream>, moved: seq<Stream>, f: nat)
    requires Renumbered(x, y, f) && Renumbered(more, moved, f)
    ensures Renumbered(x + more, y + moved, f)
  {
  }

  lemma {:induction false} RenumberedAudio(a: seq<Stream>, b: seq<Stream>, f: nat, file: nat)
    requires Renumbered(a, b, f)
    ensures Renumbered(AudioOf(a, file), AudioOf(b, file), f)
    ensures file != f ==> AudioOf(a, file) == AudioOf(b, file)
  {
    if a != [] {
      var n := |a| - 1;
      RenumberedAudio(a[..n], b[..n], f, file);
      assert Moved(a[n], b[n], f);
      var more := if TaggedAudio(a[n]) && a[n].file == file then [a[n]] else [];
      var moved := if TaggedAudio(b[n]) && b[n].file == file then [b[n]] else [];
      RenumberedOneMore(AudioOf(a[..n], file), AudioOf(b[..n], file), more, moved, f);
    }
  }

  lemma RenumberedChoice(x: seq<Stream>, y: seq<Stream>, f: nat)
    requires Renumbered(x, y, f) && FirstDefault(x) < |x|
    ensures LanguageOf(x) == LanguageOf(y)
  {
    var k := FirstDefault(x);
    assert y[k].track.isDefault;
    assert forall j | 0 <= j < k :: !y[j].track.isDefault;
  }

  /** Positions only matter in a file without a default stream. */
  lemma RenumberingKeepsEvidence(a: seq<Stream>, b: seq<Stream>, f: nat)
    requires Renumbered(a, b, f) && HasDefault(a, f)
    ensures JapanesePrimary(a) == JapanesePrimary(b) && ForeignSubs(a) == ForeignSubs(b)
    ensures PrimariesOf(a) != [] <==> PrimariesOf(b) != []
  {
    forall file ensures PrimaryOf(a, file) == PrimaryOf(b, file) {
      RenumberedAudio(a, b, f, file);
      if file == f {
        RenumberedChoice(AudioOf(a, f), AudioOf(b, f), f);
      }
    }
    SamePrimariesSameEvidence(a, b);
    RenumberedSubs(a, b, f);
  }

  lemma RenumberedSubs(a: seq<Stream>, b: seq<Stream>, f: nat)
    requires Renumbered(a, b, f)
    ensures ForeignSubs(a) == ForeignSubs(b)
  {
    forall i | 0 <= i < |a|
      ensures a[i] in a && b[i] in b && a[i].track.kind == b[i].track.kind && a[i].track.language == b[i].track.language
    {
    }
  }

  // ----- a single stream -----

  lemma LoneStream(s: Stream)
    requires TaggedAudio(s)
    ensures PrimariesOf([s]) == [s.track.language.value]
  {
    var tracks, files := [s], [s.file];
    assert tracks[..0] == [] && files[..0] == [];
    assert AudioOf(tracks, s.file) == [s] && FilesOf(tracks) == files;
    assert LanguagesOf(tracks, files[..0]) == [];
  }

  lemma EnglishIsNotJapanese()
    ensures !IsJapanese("en")
  {
    assert Lower("en")[0] == 'e';
  }

  /** w is v, but for capital letters. */
  predicate CapitalisedFrom(w: string, v: string) {
    |w| == |v| && forall i | 0 <= i < |v| :: w[i] == v[i] || ('A' <= w[i] <= 'Z' && w[i] as int + 32 == v[i] as int)
  }

  lemma FoldsTo(w: string, v: string)
    requires forall i | 0 <= i < |v| :: 'a' <= v[i] <= 'z'
    ensures Lower(w) == v <==> CapitalisedFrom(w, v)
  {
    if Lower(w) == v {
      assert forall i | 0 <= i < |v| :: Lower(w)[i] == v[i];
    }
    if CapitalisedFrom(w, v) {
      assert forall i | 0 <= i < |v| :: Lower(w)[i] == v[i];
    }
  }

  /** Three words say Japanese, in any capitalisation. */
  lemma JapaneseExactlyWhen(w: string)
    ensures IsJapanese(w)
            <==> CapitalisedFrom(w, "ja") || CapitalisedFrom(w, "jpn") || CapitalisedFrom(w, "japanese")
  {
    FoldsTo(w, "ja");
    FoldsTo(w, "jpn");
    FoldsTo(w, "japanese");
  }

  // ----- the stream a player picks, seen in the list of all streams -----

  /** tracks[k] is an audio stream of the file and says its language. */
  predicate Candidate(tracks: seq<Stream>, file: nat, k: nat) {
    && k < |tracks| && tracks[k].file == file && tracks[k].track.kind == Audio
    && tracks[k].track.language.Some? && tracks[k].track.language.value != ""
  }

  /** The first default, or where no candidate is one, the first of those with the least position. */
  ghost predicate Picked(tracks: seq<Stream>, file: nat, k: nat) {
    Candidate(tracks, file, k)
    && if tracks[k].track.isDefault then
      forall j: nat | j < k && Candidate(tracks, file, j) :: !tracks[j].track.isDefault
    else
      forall j: nat | Candidate(tracks, file, j) ::
        && !tracks[j].track.isDefault && tracks[k].track.position <= tracks[j].track.position
        && (j < k ==> tracks[k].track.position < tracks[j].track.position)
  }

  function CandidatesOf(tracks: seq<Stream>, file: nat): seq<nat> {
    if tracks == [] then []
    else
      var n := |tracks| - 1;
      CandidatesOf(tracks[..n], file) + if Candidate(tracks, file, n) then [n] else []
  }

  lemma {:induction false} CandidatesExactly(tracks: seq<Stream>, file: nat, at: seq<nat>)
    requires at == CandidatesOf(tracks, file)
    ensures forall i, j | 0 <= i < j < |at| :: at[i] < at[j]
    ensures forall k: nat :: k in at <==> Candidate(tracks, file, k)
  {
    if tracks != [] {
      var n := |tracks| - 1;
      var front := CandidatesOf(tracks[..n], file);
      CandidatesExactly(tracks[..n], file, front);
      assert forall i | 0 <= i < |front| :: front[i] in front;
      assert forall k: nat | k < n :: Candidate(tracks, file, k) <==> Candidate(tracks[..n], file, k);
    }
  }

  lemma OnePlaceMore(tracks: seq<Stream>, front: seq<Stream>, places: seq<nat>, n: nat)
    requires n < |tracks| && |front| == |places|
    requires forall i | 0 <= i < |places| :: places[i] < n && front[i] == tracks[places[i]]
    ensures forall i | 0 <= i < |places + [n]| ::
              (places + [n])[i] < |tracks| && (front + [tracks[n]])[i] == tracks[(places + [n])[i]]
  {
  }

  lemma {:induction false} AudioAtCandidates(tracks: seq<Stream>, file: nat, at: seq<nat>)
    requires at == CandidatesOf(tracks, file)
    ensures |AudioOf(tracks, file)| == |at|
    ensures forall i | 0 <= i < |at| :: at[i] < |tracks| && AudioOf(tracks, file)[i] == tracks[at[i]]
  {
    if tracks != [] {
      var n := |tracks| - 1;
      var front, places := AudioOf(tracks[..n], file), CandidatesOf(tracks[..n], file);
      AudioAtCandidates(tracks[..n], file, places);
      assert TaggedAudio(tracks[n]) && tracks[n].file == file <==> Candidate(tracks, file, n);
      if Candidate(tracks, file, n) {
        OnePlaceMore(tracks, front, places, n);
      }
    }
  }

  /** Candidate j is the i-th of the file's audio streams, and those before places[m] come before m. */
  lemma CandidateIsAudio(tracks: seq<Stream>, file: nat, audio: seq<Stream>, places: seq<nat>, m: nat, j: nat)
    requires audio == AudioOf(tracks, file) && places == CandidatesOf(tracks, file)
    requires m < |places| && Candidate(tracks, file, j)
    ensures |audio| == |places|
    ensures exists i: nat :: i < |audio| && audio[i] == tracks[j] && (j < places[m] ==> i < m)
  {
    AudioAtCandidates(tracks, file, places);
    CandidatesExactly(tracks, file, places);
    var i: nat :| i < |places| && places[i] == j;
    assert audio[i] == tracks[j];
    assert m < i ==> places[m] < places[i];
  }

  lemma ChosenIsPicked(tracks: seq<Stream>, file: nat, audio: seq<Stream>, places: seq<nat>) returns (k: nat)
    requires audio == AudioOf(tracks, file) && places == CandidatesOf(tracks, file) && audio != []
    ensures Picked(tracks, file, k) && Chosen(audio) == tracks[k]
  {
    AudioAtCandidates(tracks, file, places);
    CandidatesExactly(tracks, file, places);
    var m := if FirstDefault(audio) < |audio| then FirstDefault(audio) else Earliest(audio);
    k := places[m];
    assert k in places && audio[m] == tracks[k];
    forall j: nat | Candidate(tracks, file, j)
      ensures exists i: nat :: i < |audio| && audio[i] == tracks[j] && (j < k ==> i < m)
    {
      CandidateIsAudio(tracks, file, audio, places, m, j);
    }
  }

  lemma PickedIsUnique(tracks: seq<Stream>, file: nat, j: nat, k: nat)
    requires Picked(tracks, file, j) && Picked(tracks, file, k)
    ensures j == k
  {
  }

  /** A file's primary language is that of the stream picked; it has none without a candidate. */
  lemma PrimaryIsPicked(tracks: seq<Stream>, file: nat)
    ensures forall k: nat | Picked(tracks, file, k) :: PrimaryOf(tracks, file) == tracks[k].track.language
    ensures PrimaryOf(tracks, file).Some? <==> exists k: nat :: Picked(tracks, file, k)
    ensures (exists k: nat :: Picked(tracks, file, k)) <==> exists k: nat :: Candidate(tracks, file, k)
  {
    AudioAtCandidates(tracks, file, CandidatesOf(tracks, file));
    CandidatesExactly(tracks, file, CandidatesOf(tracks, file));
    if AudioOf(tracks, file) != [] {
      var k := ChosenIsPicked(tracks, file, AudioOf(tracks, file), CandidatesOf(tracks, file));
      forall j: nat | Picked(tracks, file, j) ensures j == k {
        PickedIsUnique(tracks, file, j, k);
      }
    }
  }
}
