/** The providers' client-side throttle (matching/providers/http.py, RateLimiter). The clock is monotonic and
    sleep never returns early; both are stated as what a caller of Wait supplies. */
module RateLimit {
  import opened Prelude

  function AtLeastOne(perMinute: int): (n: nat)
    ensures n >= 1
  {
    if perMinute < 1 then 1 else perMinute
  }

  function Interval(perMinute: int): real {
    60.0 / AtLeastOne(perMinute) as real
  }

  /** Consecutive releases are at least `gap` apart. */
  ghost predicate Spaced(releases: seq<real>, gap: real) {
    forall i | 0 < i < |releases| :: releases[i] - releases[i - 1] >= gap
  }

  class RateLimiter {
    const perMinute: int
    const minInterval: real
    var last: real
    ghost var releases: seq<real>

    ghost predicate Valid()
      reads this
    {
      && minInterval == Interval(perMinute)
      && Spaced(releases, minInterval)
      && (releases != [] ==> last == releases[|releases| - 1])
    }

    constructor (requests: int)
      ensures Valid() && perMinute == requests && releases == [] && last == 0.0
      ensures minInterval == 60.0 / (if requests < 1 then 1 else requests) as real
    {
      perMinute, minInterval, last, releases := requests, Interval(requests), 0.0, [];
    }

    /** wait, holding the lock throughout: `now` is the first reading of the clock, `woken` the second. */
    method Wait(now: real, woken: real)
      requires Valid()
      requires now >= last && woken >= now
      requires minInterval - (now - last) > 0.0 ==> woken - now >= minInterval - (now - last)
      modifies this
      ensures Valid() && last == woken
      ensures releases == old(releases) + [woken]
      ensures woken >= old(last) + minInterval
    {
      var sleepFor := minInterval - (now - last);
      if sleepFor > 0.0 {
        assert woken >= last + minInterval;
      }
      last := woken;
      releases := releases + [woken];
    }
  }

  /** The i-th and the j-th release are at least j - i intervals apart. */
  lemma {:induction false} SpacedApart(releases: seq<real>, gap: real, i: nat, j: nat)
    requires Spaced(releases, gap) && i <= j < |releases|
    ensures releases[j] - releases[i] >= (j - i) as real * gap
    decreases j - i
  {
    if i < j {
      SpacedApart(releases, gap, i, j - 1);
      assert (j - i) as real * gap == (j - 1 - i) as real * gap + gap;
    }
  }

  /** The releases in the half-open minute that starts at `from`. */
  ghost function InMinute(releases: seq<real>, from: real): set<nat> {
    set i: nat | i < |releases| && from <= releases[i] < from + 60.0
  }

  lemma {:induction false} FirstIndex(indices: set<nat>) returns (m: nat)
    requires indices != {}
    ensures m in indices && forall i <- indices :: m <= i
  {
    var x :| x in indices;
    var rest := indices - {x};
    assert forall i <- indices :: i == x || i in rest;
    m := x;
    if rest != {} {
      var y := FirstIndex(rest);
      m := if x < y then x else y;
    }
  }

  ghost function Range(lo: nat, n: nat): (r: set<nat>)
    ensures forall i :: i in r <==> lo <= i < lo + n
    ensures |r| == n
  {
    if n == 0 then {} else Range(lo, n - 1) + {lo + n - 1}
  }

  lemma MinuteApart(n: nat, k: nat)
    requires n >= 1 && k >= n
    ensures k as real * (60.0 / n as real) >= 60.0
  {
    var gap := 60.0 / n as real;
    assert n as real * gap == 60.0;
    assert (k - n) as real * gap >= 0.0;
    assert k as real * gap == n as real * gap + (k - n) as real * gap;
  }

  lemma HitsAreClose(releases: seq<real>, n: nat, from: real, m: nat, i: nat)
    requires n >= 1 && Spaced(releases, 60.0 / n as real) && m <= i
    requires m in InMinute(releases, from) && i in InMinute(releases, from)
    ensures i < m + n
  {
    SpacedApart(releases, 60.0 / n as real, m, i);
    if i >= m + n {
      MinuteApart(n, i - m);
      assert false;
    }
  }

  /** At most per_minute releases (at least one) in any half-open minute, for every schedule of calls. */
  lemma MinuteHoldsAtMost(releases: seq<real>, perMinute: int, from: real)
    requires Spaced(releases, Interval(perMinute))
    ensures |InMinute(releases, from)| <= if perMinute < 1 then 1 else perMinute
  {
    var n, hits := if perMinute < 1 then 1 else perMinute, InMinute(releases, from);
    if hits != {} {
      var m := FirstIndex(hits);
      forall i <- hits ensures i in Range(m, n) {
        HitsAreClose(releases, n, from, m, i);
      }
      SubsetSize(hits, Range(m, n));
    }
  }
}
