/** The bytes a fingerprint feeds to its hash (fingerprint.py), and what equal feeds say about files.
    The hash itself is any function that is injective on what it is fed. */
module Fingerprint {
  import opened Prelude

  type Byte = b: int | 0 <= b < 256

  datatype Strategy = Mtime | Partial | Full

  datatype File = File(content: seq<Byte>, mtime: real)

  // ----- decimal numbers -----

  const ZERO := 48    // '0'
  const COLON := 58   // ':'
  const MINUS := 45   // '-'

  function Decimal(n: nat): (digits: seq<Byte>)
    ensures |digits| > 0
    ensures forall d <- digits :: ZERO <= d < ZERO + 10
  {
    if n < 10 then [ZERO + n] else Decimal(n / 10) + [ZERO + n % 10]
  }

  function Signed(n: int): seq<Byte> {
    if n < 0 then [MINUS] + Decimal(-n) else Decimal(n)
  }

  lemma {:induction false} DecimalInjective(m: nat, n: nat)
    requires Decimal(m) == Decimal(n)
    ensures m == n
  {
    var a, b := Decimal(m), Decimal(n);
    assert a[|a| - 1] == b[|b| - 1];
    if m >= 10 && n >= 10 {
      assert a[..|a| - 1] == Decimal(m / 10) && b[..|b| - 1] == Decimal(n / 10);
      DecimalInjective(m / 10, n / 10);
    }
  }

  lemma {:induction false} DecimalLengthMonotone(m: nat, n: nat)
    requires m <= n
    ensures |Decimal(m)| <= |Decimal(n)|
  {
    if n >= 10 && m >= 10 {
      DecimalLengthMonotone(m / 10, n / 10);
    }
  }

  lemma SignedInjective(m: int, n: int)
    requires Signed(m) == Signed(n)
    ensures m == n
  {
    SignShows(m);
    SignShows(n);
    if m < 0 {
      assert Signed(m)[1..] == Decimal(-m) && Signed(n)[1..] == Decimal(-n);
      DecimalInjective(-m, -n);
    } else {
      DecimalInjective(m, n);
    }
  }

  lemma SignShows(n: int)
    ensures Signed(n)[0] == MINUS <==> n < 0
  {
    if n >= 0 {
      assert Decimal(n)[0] in Decimal(n);
    }
  }

  function Reads(digits: seq<Byte>): int {
    if digits == [] then 0 else 10 * Reads(digits[..|digits| - 1]) + digits[|digits| - 1] - ZERO
  }

  /** Decimal writes its number in base ten, without leading zeros. */
  lemma {:induction false} DecimalReads(n: nat)
    ensures Reads(Decimal(n)) == n
    ensures n > 0 ==> Decimal(n)[0] != ZERO
  {
    if n >= 10 {
      DecimalReads(n / 10);
      assert Decimal(n)[..|Decimal(n)| - 1] == Decimal(n / 10);
    } else {
      assert Decimal(n)[..0] == [];
    }
  }

  // ----- what each strategy feeds to the hash -----

  /** The sampled bytes: everything up to two chunks, then the first and the last chunk. */
  function Sampled(content: seq<Byte>, chunk: nat): (sample: seq<Byte>)
    ensures |sample| == if |content| <= 2 * chunk then |content| else 2 * chunk
  {
    if |content| <= 2 * chunk then content else content[..chunk] + content[|content| - chunk..]
  }

  function PartialFeed(content: seq<Byte>, chunk: nat): seq<Byte> {
    Decimal(|content|) + Sampled(content, chunk)
  }

  /** int() truncates toward zero. */
  function Truncated(t: real): int {
    if t >= 0.0 then t.Floor else -((-t).Floor)
  }

  function StatFeed(f: File): seq<Byte> {
    Decimal(|f.content|) + [COLON] + Signed(Truncated(f.mtime))
  }

  /** Truncated drops the fraction and keeps the sign. */
  lemma TruncatedDropsTheFraction(t: real, n: int)
    ensures Truncated(t) == n
            <==> (t >= 0.0 && n as real <= t < n as real + 1.0) || (t < 0.0 && n as real >= t > n as real - 1.0)
  {
  }

  /** A hash object: it digests the concatenation of its updates. */
  class Hasher {
    var fed: seq<Byte>

    constructor ()
      ensures fed == []
    {
      fed := [];
    }

    method Update(block: seq<Byte>)
      modifies this
      ensures fed == old(fed) + block
    {
      fed := fed + block;
    }
  }

  function ReadChunk(content: seq<Byte>, offset: nat, size: nat): seq<Byte>
    requires offset <= |content|
  {
    if offset + size <= |content| then content[offset..offset + size] else content[offset..]
  }

  /** partial_fingerprint. */
  method PartialFingerprint(content: seq<Byte>, chunk: nat) returns (h: Hasher)
    ensures fresh(h) && h.fed == PartialFeed(content, chunk)
  {
    h := new Hasher();
    var size := Decimal(|content|);
    h.Update(size);
    if |content| == 0 {
      assert Sampled(content, chunk) == [];
      return;
    }
    var headSize := if chunk < |content| then chunk else |content|;
    h.Update(ReadChunk(content, 0, headSize));
    assert h.fed == size + content[..headSize];
    if |content| > chunk * 2 {
      h.Update(ReadChunk(content, |content| - chunk, chunk));
      assert h.fed == size + Sampled(content, chunk);
    } else if |content| > headSize {
      h.Update(ReadChunk(content, headSize, |content| - headSize));
      assert content == content[..headSize] + content[headSize..];
    }
  }

  const BLOCK: nat := 1024 * 1024

  /** full_fingerprint: block after block until the file is exhausted. */
  method FullFingerprint(content: seq<Byte>) returns (h: Hasher)
    ensures fresh(h) && h.fed == content
  {
    h := new Hasher();
    var position := 0;
    var block := ReadChunk(content, position, BLOCK);
    while block != []
      invariant position <= |content| && h.fed == content[..position]
      invariant block == ReadChunk(content, position, BLOCK)
      decreases |content| - position
    {
      h.Update(block);
      position := position + |block|;
      block := ReadChunk(content, position, BLOCK);
    }
  }

  // ----- faithfulness -----

  /** The decimal size prefix has no delimiter, yet two files feed the same bytes exactly when they
      have the same size and the same sampled bytes. */
  lemma PartialFeedFaithful(a: seq<Byte>, b: seq<Byte>, chunk: nat)
    ensures PartialFeed(a, chunk) == PartialFeed(b, chunk)
            <==> |a| == |b| && Sampled(a, chunk) == Sampled(b, chunk)
  {
    if PartialFeed(a, chunk) == PartialFeed(b, chunk) {
      SameFeedSamePrefix(a, b, chunk);
      SameFeedSamePrefix(b, a, chunk);
      assert |Decimal(|a|)| == |Decimal(|b|)|;
      assert Decimal(|a|) == PartialFeed(a, chunk)[..|Decimal(|a|)|];
      assert Decimal(|b|) == PartialFeed(b, chunk)[..|Decimal(|b|)|];
      DecimalInjective(|a|, |b|);
      assert Sampled(a, chunk) == PartialFeed(a, chunk)[|Decimal(|a|)|..];
      assert Sampled(b, chunk) == PartialFeed(b, chunk)[|Decimal(|b|)|..];
    }
  }

  /** Prefix and sample both grow with the size, so equal totals mean equal prefixes. */
  lemma SameFeedSamePrefix(a: seq<Byte>, b: seq<Byte>, chunk: nat)
    requires |PartialFeed(a, chunk)| == |PartialFeed(b, chunk)|
    ensures |a| <= |b| ==> |Decimal(|a|)| == |Decimal(|b|)|
  {
    if |a| <= |b| {
      DecimalLengthMonotone(|a|, |b|);
    }
  }

  /** Behind the size, byte for byte: the file itself, or its first and then its last chunk. */
  lemma PartialFeedAt(content: seq<Byte>, chunk: nat, i: nat)
    requires i < |PartialFeed(content, chunk)| - |Decimal(|content|)|
    ensures i < |content|
    ensures PartialFeed(content, chunk)[|Decimal(|content|)| + i]
            == if |content| <= 2 * chunk || i < chunk then content[i] else content[|content| - 2 * chunk + i]
  {
    assert PartialFeed(content, chunk)[|Decimal(|content|)| + i] == Sampled(content, chunk)[i];
  }

  /** Up to two chunks the sample is the file: equal feeds mean identical content. */
  lemma SmallFilesAreExact(a: seq<Byte>, b: seq<Byte>, chunk: nat)
    requires |a| <= 2 * chunk
    ensures PartialFeed(a, chunk) == PartialFeed(b, chunk) <==> a == b
  {
    PartialFeedFaithful(a, b, chunk);
  }

  ghost predicate AgreeAt(a: seq<Byte>, b: seq<Byte>, lo: nat, hi: nat)
    requires lo <= hi <= |a| && hi <= |b|
  {
    forall i | lo <= i < hi :: a[i] == b[i]
  }

  lemma AgreeingSlices(a: seq<Byte>, b: seq<Byte>, lo: nat, hi: nat)
    requires lo <= hi <= |a| && hi <= |b|
    ensures AgreeAt(a, b, lo, hi) <==> a[lo..hi] == b[lo..hi]
  {
    if a[lo..hi] == b[lo..hi] {
      forall i | lo <= i < hi ensures a[i] == b[i] {
        assert a[lo..hi][i - lo] == b[lo..hi][i - lo];
      }
    }
  }

  lemma JoinedSamples(head: seq<Byte>, tail: seq<Byte>, otherHead: seq<Byte>, otherTail: seq<Byte>)
    requires |head| == |otherHead|
    ensures head + tail == otherHead + otherTail <==> head == otherHead && tail == otherTail
  {
    if head + tail == otherHead + otherTail {
      assert head == (head + tail)[..|head|] && tail == (head + tail)[|head|..];
      assert otherHead == (otherHead + otherTail)[..|head|] && otherTail == (otherHead + otherTail)[|head|..];
    }
  }

  lemma SamplesAgree(a: seq<Byte>, b: seq<Byte>, chunk: nat)
    requires |a| == |b| > 2 * chunk
    ensures Sampled(a, chunk) == Sampled(b, chunk)
            <==> a[..chunk] == b[..chunk] && a[|a| - chunk..] == b[|a| - chunk..]
  {
    JoinedSamples(a[..chunk], a[|a| - chunk..], b[..chunk], b[|a| - chunk..]);
  }

  lemma EndsAgree(a: seq<Byte>, b: seq<Byte>, chunk: nat)
    requires |a| == |b| > 2 * chunk
    ensures a[..chunk] == b[..chunk] <==> AgreeAt(a, b, 0, chunk)
    ensures a[|a| - chunk..] == b[|a| - chunk..] <==> AgreeAt(a, b, |a| - chunk, |a|)
  {
    var n := |a|;
    AgreeingSlices(a, b, 0, chunk);
    AgreeingSlices(a, b, n - chunk, n);
    assert a[0..chunk] == a[..chunk] && b[0..chunk] == b[..chunk];
    assert a[n - chunk..n] == a[n - chunk..] && b[n - chunk..n] == b[n - chunk..];
  }

  /** Beyond two chunks the fingerprint sees exactly the first and the last chunk, which do not overlap:
      two files of one size share it iff they agree on those offsets, whatever lies between. */
  lemma LargeFilesSeeBothEnds(a: seq<Byte>, b: seq<Byte>, chunk: nat)
    requires |a| == |b| > 2 * chunk
    ensures PartialFeed(a, chunk) == PartialFeed(b, chunk)
            <==> forall i | 0 <= i < |a| && (i < chunk || i >= |a| - chunk) :: a[i] == b[i]
  {
    PartialFeedFaithful(a, b, chunk);
    SamplesAgree(a, b, chunk);
    EndsAgree(a, b, chunk);
  }

  lemma FirstColon(f: File)
    ensures var digits := |Decimal(|f.content|)|;
            && |StatFeed(f)| > digits && StatFeed(f)[digits] == COLON
            && forall i | 0 <= i < digits :: StatFeed(f)[i] != COLON
  {
    var x := Decimal(|f.content|);
    assert forall i | 0 <= i < |x| :: StatFeed(f)[i] == x[i] && x[i] in x;
  }

  /** The cheapest strategy has a delimiter: its feed determines the size and the whole-second mtime. */
  lemma StatFeedFaithful(a: File, b: File)
    ensures StatFeed(a) == StatFeed(b)
            <==> |a.content| == |b.content| && Truncated(a.mtime) == Truncated(b.mtime)
  {
    if StatFeed(a) == StatFeed(b) {
      var x, y := Decimal(|a.content|), Decimal(|b.content|);
      FirstColon(a);
      FirstColon(b);
      assert |x| == |y|;
      assert StatFeed(a)[..|x|] == x && StatFeed(b)[..|y|] == y;
      DecimalInjective(|a.content|, |b.content|);
      assert StatFeed(a)[|x| + 1..] == Signed(Truncated(a.mtime));
      assert StatFeed(b)[|y| + 1..] == Signed(Truncated(b.mtime));
      SignedInjective(Truncated(a.mtime), Truncated(b.mtime));
    }
  }

  // ----- choosing a strategy -----

  datatype Digest = Digest(bits: int, fed: seq<Byte>)

  function FeedOf(f: File, strategy: Strategy, chunk: nat): Digest {
    match strategy
    case Mtime => Digest(128, StatFeed(f))
    case Full => Digest(256, f.content)
    case Partial => Digest(256, PartialFeed(f.content, chunk))
  }

  /** fingerprint(). */
  function FingerprintOf<D>(f: File, strategy: Strategy, chunk: nat, hash: Digest -> D): (D, real) {
    (hash(FeedOf(f, strategy, chunk)), f.mtime)
  }

  /** fingerprint_changed(), which takes its own route to the digest. */
  predicate FingerprintChanged<D(==)>(f: File, storedDigest: Option<D>, storedMtime: Option<real>,
                                      strategy: Strategy, chunk: nat, hash: Digest -> D)
  {
    if storedDigest.None? || storedMtime.None? then true
    else
      var now := if strategy == Mtime then (hash(Digest(128, StatFeed(f))), f.mtime)
                 else (hash(if strategy == Full then Digest(256, f.content)
                            else Digest(256, PartialFeed(f.content, chunk))), f.mtime);
      now.0 != storedDigest.value || now.1 != storedMtime.value
  }

  ghost predicate Injective<D(!new)>(hash: Digest -> D) {
    forall a, b :: hash(a) == hash(b) ==> a == b
  }

  /** Everything a strategy looks at. */
  ghost predicate LooksSame(a: File, b: File, strategy: Strategy, chunk: nat) {
    match strategy
    case Mtime => |a.content| == |b.content| && Truncated(a.mtime) == Truncated(b.mtime)
    case Full => a.content == b.content
    case Partial => |a.content| == |b.content| && Sampled(a.content, chunk) == Sampled(b.content, chunk)
  }

  /** With an injective hash, a file is reported unchanged since it was fingerprinted exactly when its
      mtime is the same and it looks the same to the strategy; the two routes to the digest agree. */
  lemma ChangedExactlyWhen<D(!new)>(was: File, now: File, strategy: Strategy, chunk: nat, hash: Digest -> D)
    requires Injective(hash)
    ensures var stored := FingerprintOf(was, strategy, chunk, hash);
            !FingerprintChanged(now, Some(stored.0), Some(stored.1), strategy, chunk, hash)
            <==> was.mtime == now.mtime && LooksSame(was, now, strategy, chunk)
  {
    PartialFeedFaithful(was.content, now.content, chunk);
    StatFeedFaithful(was, now);
  }
}
