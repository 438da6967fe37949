/** Fixed-window request counting: what a limiter should answer, said of the whole history of
    requests, and the in-memory limiter, which answers it from one small bucket per key. Times are
    nanoseconds since the start of year 1, the zero of Go's time.Time. */
module Quota {
  import opened Arithmetic

  /** A request for key at time t. */
  datatype Hit = Hit(t: int, key: string)

  /** Windows of one width, side by side, one of them starting at base. */
  datatype Grid = Grid(base: int, width: int)

  function Slot(g: Grid, t: int): int
    requires g.width > 0
  {
    (t - g.base) / g.width
  }

  ghost predicate Clocked(hits: seq<Hit>) { forall i, j | 0 <= i < j < |hits| :: hits[i].t <= hits[j].t }

  /** How many of the hits were for key in window v. */
  function Count(g: Grid, hits: seq<Hit>, key: string, v: int): nat
    requires g.width > 0
  {
    if hits == [] then 0
    else
      var h := hits[|hits| - 1];
      Count(g, hits[..|hits| - 1], key, v) + (if h.key == key && Slot(g, h.t) == v then 1 else 0)
  }

  /** The answer a fixed-window limiter should give to h after the given past. */
  predicate Admits(limit: int, g: Grid, past: seq<Hit>, h: Hit)
    requires g.width > 0
  {
    limit <= 0 || Count(g, past, h.key, Slot(g, h.t)) < limit
  }

  lemma CountSnoc(g: Grid, hits: seq<Hit>, h: Hit, key: string, v: int)
    requires g.width > 0
    ensures Count(g, hits + [h], key, v) ==
            Count(g, hits, key, v) + (if h.key == key && Slot(g, h.t) == v then 1 else 0)
  {
    assert (hits + [h])[..|hits|] == hits;
  }

  // ----- Window arithmetic -----

  lemma SlotMonotone(g: Grid, t: int, u: int)
    requires g.width > 0 && t <= u
    ensures Slot(g, t) <= Slot(g, u)
  {
    DivMonotone(t - g.base, u - g.base, g.width);
  }

  lemma {:induction false} NoneLater(g: Grid, hits: seq<Hit>, key: string, v: int)
    requires g.width > 0 && forall i | 0 <= i < |hits| :: Slot(g, hits[i].t) < v
    ensures Count(g, hits, key, v) == 0
  {
    if hits != [] { NoneLater(g, hits[..|hits| - 1], key, v); }
  }

  // ----- The in-memory limiter -----

  datatype Bucket = Bucket(start: int, count: int)
  type Buckets = map<string, Bucket>

  /** Rounding down to a multiple of d since year 1; unchanged when d is not positive. */
  function Truncate(t: int, d: int): int { if d <= 0 then t else t - t % d }

  function WindowStep(limit: int, window: int, buckets: Buckets, h: Hit): (Buckets, bool) {
    if limit <= 0 then (buckets, true)
    else
      var ws := Truncate(h.t, window);
      var b := if h.key in buckets && buckets[h.key].start == ws then buckets[h.key] else Bucket(ws, 0);
      if b.count >= limit then (buckets[h.key := b], false)
      else (buckets[h.key := Bucket(ws, b.count + 1)], true)
  }

  class WindowLimiter {
    const limit: int
    const window: int
    var buckets: Buckets

    constructor (limit: int, window: int)
      ensures this.limit == limit && this.window == window && buckets == map[]
    {
      this.limit, this.window, buckets := limit, window, map[];
    }

    method Allow(key: string, now: int) returns (ok: bool)
      modifies this
      ensures (buckets, ok) == WindowStep(limit, window, old(buckets), Hit(now, key))
    {
      if limit <= 0 { return true; }
      var ws := Truncate(now, window);
      if key !in buckets || buckets[key].start != ws {
        buckets := buckets[key := Bucket(ws, 0)];
      }
      assert buckets == old(buckets)[key := buckets[key]];
      if buckets[key].count >= limit { return false; }
      var n := buckets[key].count;
      buckets := buckets[key := buckets[key].(count := n + 1)];
      assert buckets == old(buckets)[key := Bucket(ws, n + 1)];
      return true;
    }
  }

  function WindowRun(limit: int, window: int, hits: seq<Hit>): Buckets {
    if hits == [] then map[]
    else WindowStep(limit, window, WindowRun(limit, window, hits[..|hits| - 1]), hits[|hits| - 1]).0
  }

  /** The limiter's answer to h after the hits. */
  predicate WindowOk(limit: int, window: int, hits: seq<Hit>, h: Hit) {
    WindowStep(limit, window, WindowRun(limit, window, hits), h).1
  }

  /** The windows the in-memory limiter goes by; each instant is its own when there is no width. */
  function WindowGrid(window: int): Grid { Grid(0, if window <= 0 then 1 else window) }

  lemma SameMultiple(d: int, p: int, q: int)
    requires d > 0
    ensures d * p == d * q <==> p == q
  {
    if p != q { DivUnique(d * p, d, p, 0); DivUnique(d * q, d, q, 0); }
  }

  lemma TruncateIsSlot(window: int, t: int, u: int)
    ensures Truncate(t, window) == Truncate(u, window) <==> Slot(WindowGrid(window), t) == Slot(WindowGrid(window), u)
  {
    if window > 0 {
      var p, q := t / window, u / window;
      DivMod(t, window);
      DivMod(u, window);
      SameMultiple(window, p, q);
    }
  }

  function Min(a: int, b: int): int { if a < b then a else b }

  lemma ClockedPrefix(hits: seq<Hit>, last: Hit)
    requires Clocked(hits + [last]) && hits != []
    ensures var n := |hits| - 1;
            Clocked(hits) && Clocked(hits[..n] + [last]) && hits[n].t <= last.t &&
            forall i | 0 <= i < n :: hits[i].t <= hits[n].t
  {
    var all, n := hits + [last], |hits| - 1;
    assert forall i | 0 <= i < |hits| :: all[i] == hits[i];
    assert all[n + 1] == last;
  }

  /** Under a clock that does not go back, the one bucket kept for a key tells how many of all its
      requests fell into the window of any time from now on, up to the limit. */
  lemma {:induction false} BucketTracksCount(limit: int, window: int, hits: seq<Hit>, key: string, t: int)
    requires limit > 0 && Clocked(hits + [Hit(t, key)])
    ensures var buckets, g := WindowRun(limit, window, hits), WindowGrid(window);
            var n := Count(g, hits, key, Slot(g, t));
            if key in buckets && buckets[key].start == Truncate(t, window) then buckets[key].count == Min(limit, n)
            else n == 0
  {
    if hits != [] {
      var n := |hits| - 1;
      var h, past, g := hits[n], hits[..n], WindowGrid(window);
      ClockedPrefix(hits, Hit(t, key));
      BucketTracksCount(limit, window, past, key, t);
      TruncateIsSlot(window, h.t, t);
      if h.key == key && Slot(g, h.t) != Slot(g, t) {
        SlotMonotone(g, h.t, t);
        forall i | 0 <= i < n ensures Slot(g, past[i].t) < Slot(g, t) { SlotMonotone(g, past[i].t, h.t); }
        NoneLater(g, past, key, Slot(g, t));
      }
    }
  }

  /** The in-memory limiter gives the answer the whole history calls for. */
  lemma WindowLimiterRefines(limit: int, window: int, hits: seq<Hit>, h: Hit)
    requires Clocked(hits + [h])
    ensures WindowOk(limit, window, hits, h) <==> Admits(limit, WindowGrid(window), hits, h)
  {
    if limit > 0 { BucketTracksCount(limit, window, hits, h.key, h.t); }
  }

  // ----- How many requests get through -----

  /** Those of the hits for key in windows lo up to hi that were answered yes. */
  function PassedIn(g: Grid, hits: seq<Hit>, yes: seq<bool>, key: string, lo: int, hi: int): nat
    requires g.width > 0 && |yes| == |hits|
  {
    if hits == [] then 0
    else
      var n := |hits| - 1;
      PassedIn(g, hits[..n], yes[..n], key, lo, hi) +
      (if yes[n] && hits[n].key == key && lo <= Slot(g, hits[n].t) < hi then 1 else 0)
  }

  /** Those of the hits for key from time a up to time b that were answered yes. */
  function PassedBetween(hits: seq<Hit>, yes: seq<bool>, key: string, a: int, b: int): nat
    requires |yes| == |hits|
  {
    if hits == [] then 0
    else
      var n := |hits| - 1;
      PassedBetween(hits[..n], yes[..n], key, a, b) +
        (if yes[n] && hits[n].key == key && a <= hits[n].t < b then 1 else 0)
  }

  /** No answer is more generous than the history calls for. */
  ghost predicate Strict(limit: int, g: Grid, hits: seq<Hit>, yes: seq<bool>)
    requires g.width > 0
  {
    |yes| == |hits| && forall i | 0 <= i < |hits| :: yes[i] ==> Admits(limit, g, hits[..i], hits[i])
  }

  lemma StrictPrefix(limit: int, g: Grid, hits: seq<Hit>, yes: seq<bool>)
    requires g.width > 0 && hits != [] && Strict(limit, g, hits, yes)
    ensures Strict(limit, g, hits[..|hits| - 1], yes[..|hits| - 1])
  {
    var n := |hits| - 1;
    forall i | 0 <= i < n && yes[..n][i] ensures Admits(limit, g, hits[..n][..i], hits[..n][i]) {
      assert hits[..n][..i] == hits[..i];
    }
  }

  lemma {:induction false} OneWindow(limit: int, g: Grid, hits: seq<Hit>, yes: seq<bool>, key: string, v: int)
    requires limit > 0 && g.width > 0 && Strict(limit, g, hits, yes)
    ensures PassedIn(g, hits, yes, key, v, v + 1) <= Min(limit, Count(g, hits, key, v))
  {
    if hits != [] {
      var n := |hits| - 1;
      StrictPrefix(limit, g, hits, yes);
      OneWindow(limit, g, hits[..n], yes[..n], key, v);
      assert yes[n] ==> Admits(limit, g, hits[..n], hits[n]);
    }
  }

  lemma {:induction false} SplitWindows(g: Grid, hits: seq<Hit>, yes: seq<bool>, key: string, lo: int, mid: int,
                                        hi: int)
    requires g.width > 0 && |yes| == |hits| && lo <= mid <= hi
    ensures PassedIn(g, hits, yes, key, lo, hi) ==
            PassedIn(g, hits, yes, key, lo, mid) + PassedIn(g, hits, yes, key, mid, hi)
  {
    if hits != [] { SplitWindows(g, hits[..|hits| - 1], yes[..|hits| - 1], key, lo, mid, hi); }
  }

  lemma {:induction false} ManyWindows(limit: int, g: Grid, hits: seq<Hit>, yes: seq<bool>, key: string, lo: int,
                                       n: nat)
    requires limit > 0 && g.width > 0 && Strict(limit, g, hits, yes)
    ensures PassedIn(g, hits, yes, key, lo, lo + n) <= limit * n
  {
    if n == 0 {
      EmptyRange(g, hits, yes, key, lo);
    } else {
      ManyWindows(limit, g, hits, yes, key, lo, n - 1);
      OneMore(limit, n);
      OneWindow(limit, g, hits, yes, key, lo + n - 1);
      SplitWindows(g, hits, yes, key, lo, lo + n - 1, lo + n);
    }
  }

  lemma {:induction false} EmptyRange(g: Grid, hits: seq<Hit>, yes: seq<bool>, key: string, lo: int)
    requires g.width > 0 && |yes| == |hits|
    ensures PassedIn(g, hits, yes, key, lo, lo) == 0
  {
    if hits != [] { EmptyRange(g, hits[..|hits| - 1], yes[..|hits| - 1], key, lo); }
  }

  lemma {:induction false} BetweenWithin(g: Grid, hits: seq<Hit>, yes: seq<bool>, key: string, a: int, b: int, lo: int,
                                         hi: int)
    requires g.width > 0 && |yes| == |hits| && lo <= Slot(g, a) && Slot(g, b - 1) < hi
    ensures PassedBetween(hits, yes, key, a, b) <= PassedIn(g, hits, yes, key, lo, hi)
  {
    if hits != [] {
      var n := |hits| - 1;
      BetweenWithin(g, hits[..n], yes[..n], key, a, b, lo, hi);
      if a <= hits[n].t < b {
        SlotMonotone(g, a, hits[n].t);
        SlotMonotone(g, hits[n].t, b - 1);
      }
    }
  }

  function CeilDiv(x: int, d: int): int
    requires d > 0
  {
    (x + d - 1) / d
  }

  lemma WindowsTouched(g: Grid, a: int, b: int)
    requires g.width > 0 && a < b
    ensures Slot(g, b - 1) - Slot(g, a) <= CeilDiv(b - a, g.width)
  {
    var w, x, y, z := g.width, a - g.base, b - 1 - g.base, b - a + g.width - 1;
    var p, q, c := x / w, y / w, z / w;
    DivMod(x, w);
    DivMod(y, w);
    DivMod(z, w);
    if q - p > c {
      Distribute(w, q, p);
      Distribute(w, q - p, c);
      AtLeastOnce(w, q - p - c);
    }
  }

  /** In any stretch of time, at most one limit's worth of a key's requests per window touched, of
      which there is at most one more than fit. */
  lemma RateBound(limit: int, g: Grid, hits: seq<Hit>, yes: seq<bool>, key: string, a: int, b: int)
    requires limit > 0 && g.width > 0 && Strict(limit, g, hits, yes) && a < b
    ensures PassedBetween(hits, yes, key, a, b) <= limit * (CeilDiv(b - a, g.width) + 1)
    ensures b - a <= g.width ==> PassedBetween(hits, yes, key, a, b) <= 2 * limit
  {
    var lo, n := Slot(g, a), CeilDiv(b - a, g.width) + 1;
    DivMonotone(0, b - a + g.width - 1, g.width);
    WindowsTouched(g, a, b);
    BetweenWithin(g, hits, yes, key, a, b, lo, lo + n);
    ManyWindows(limit, g, hits, yes, key, lo, n);
    if b - a <= g.width { DivUnique(b - a + g.width - 1, g.width, 1, b - a - 1); }
  }

  /** What the limiter answers to each of the hits. */
  function WindowAnswers(limit: int, window: int, hits: seq<Hit>): seq<bool> {
    seq(|hits|, i requires 0 <= i < |hits| => WindowOk(limit, window, hits[..i], hits[i]))
  }

  /** The in-memory limiter keeps the rate; in any span of one window, to twice the limit. */
  lemma WindowRateBound(limit: int, window: int, hits: seq<Hit>, key: string, a: int, b: int)
    requires limit > 0 && window > 0 && Clocked(hits) && a < b
    ensures PassedBetween(hits, WindowAnswers(limit, window, hits), key, a, b) <= limit * (CeilDiv(b - a, window) + 1)
    ensures b - a <= window ==> PassedBetween(hits, WindowAnswers(limit, window, hits), key, a, b) <= 2 * limit
  {
    var g, yes := WindowGrid(window), WindowAnswers(limit, window, hits);
    forall i | 0 <= i < |hits| ensures yes[i] <==> Admits(limit, g, hits[..i], hits[i]) {
      WindowLimiterRefines(limit, window, hits[..i], hits[i]);
    }
    RateBound(limit, g, hits, yes, key, a, b);
  }
}
