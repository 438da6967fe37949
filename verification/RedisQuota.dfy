/** The limiter whose counters live in Redis, one key for each limiter key and window, shared by all
    gateway replicas; and when it answers as the in-memory limiter does. */
module RedisQuota {
  import opened Arithmetic
  import opened Text
  import opened Quota

  /** The Unix epoch, in nanoseconds since the start of year 1. */
  const EPOCH := 62135596800 * 1000000000
  const NANOS_PER_MILLI := 1000000

  function UnixMilli(t: int): int { (t - EPOCH) / NANOS_PER_MILLI }

  /** Division as Go does it, toward zero. */
  function Quo(a: int, b: int): int
    requires b > 0
  {
    if a >= 0 then a / b else -(-a / b)
  }

  function Millis(window: int): int { Quo(window, NANOS_PER_MILLI) }

  function RedisKey(key: string, idx: int): string { "quota:" + key + ":" + Decimal(idx) }

  /** A counter and the time, in Unix milliseconds, from which it is gone. */
  datatype Counter = Counter(count: int, expireAt: int)
  type Store = map<string, Counter>

  /** Redis drops what has expired. */
  function Swept(store: Store, nowMs: int): Store { map k | k in store && nowMs < store[k].expireAt :: store[k] }

  /** The script: INCR, and PEXPIRE when that made the key. */
  function IncrExpire(store: Store, key: string, ttl: int, nowMs: int): (Store, int) {
    var live := Swept(store, nowMs);
    if key in live then (live[key := live[key].(count := live[key].count + 1)], live[key].count + 1)
    else (live[key := Counter(1, nowMs + ttl)], 1)
  }

  function RedisStep(limit: int, window: int, store: Store, h: Hit): (Store, bool) {
    var ms := Millis(window);
    if limit <= 0 || ms <= 0 then (store, true)
    else
      var (store2, n) := IncrExpire(store, RedisKey(h.key, Quo(UnixMilli(h.t), ms)), ms, UnixMilli(h.t));
      (store2, n <= limit)
  }

  class Redis {
    var store: Store

    constructor ()
      ensures store == map[]
    {
      store := map[];
    }

    method RunIncrExpire(key: string, ttl: int, nowMs: int) returns (c: int)
      modifies this
      ensures (store, c) == IncrExpire(old(store), key, ttl, nowMs)
    {
      store := Swept(store, nowMs);
      if key !in store {
        store := store[key := Counter(1, nowMs + ttl)];
        return 1;
      }
      c := store[key].count + 1;
      store := store[key := store[key].(count := c)];
    }
  }

  class RedisLimiter {
    const rdb: Redis
    const limit: int
    const window: int

    constructor (rdb: Redis, limit: int, window: int)
      ensures this.rdb == rdb && this.limit == limit && this.window == window
    {
      this.rdb, this.limit, this.window := rdb, limit, window;
    }

    /** reachable is whether Redis answers; when it does not, the request is let through. */
    method Allow(key: string, now: int, reachable: bool) returns (ok: bool)
      modifies rdb
      ensures (rdb.store, ok) == LimiterStep(limit, window, old(rdb.store), Try(Hit(now, key), reachable))
    {
      if limit <= 0 { return true; }
      var ms := Millis(window);
      if ms <= 0 || !reachable { return true; }
      var n := rdb.RunIncrExpire(RedisKey(key, Quo(UnixMilli(now), ms)), ms, UnixMilli(now));
      return n <= limit;
    }
  }

  /** The counters after the hits, from any number of limiters that share them; what the limit is
      makes no difference to the counters as long as there is one. */
  function RedisRun(window: int, hits: seq<Hit>): Store {
    if hits == [] then map[] else RedisStep(1, window, RedisRun(window, hits[..|hits| - 1]), hits[|hits| - 1]).0
  }

  predicate RedisOk(limit: int, window: int, hits: seq<Hit>, h: Hit) {
    RedisStep(limit, window, RedisRun(window, hits), h).1
  }

  // ----- Counters hold the history -----

  function RedisGrid(window: int): Grid
    requires Millis(window) > 0
    ensures RedisGrid(window).width > 0
  {
    Grid(EPOCH, NANOS_PER_MILLI * Millis(window))
  }

  lemma IndexIsSlot(window: int, t: int)
    requires Millis(window) > 0 && t >= EPOCH
    ensures UnixMilli(t) >= 0
    ensures Quo(UnixMilli(t), Millis(window)) == Slot(RedisGrid(window), t) >= 0
    ensures UnixMilli(t) < Millis(window) * Slot(RedisGrid(window), t) + Millis(window)
    ensures UnixMilli(t) >= Millis(window) * Slot(RedisGrid(window), t)
  {
    DivMonotone(0, t - EPOCH, NANOS_PER_MILLI);
    DivDiv(t - EPOCH, NANOS_PER_MILLI, Millis(window));
    DivMod(UnixMilli(t), Millis(window));
    DivMonotone(0, UnixMilli(t), Millis(window));
  }

  lemma RedisKeyInjective(k: string, v: int, l: string, w: int)
    requires RedisKey(k, v) == RedisKey(l, w)
    ensures k == l && v == w
  {
    DecimalLacks(v, ':');
    DecimalLacks(w, ':');
    assert "quota:" + k + [':'] + Decimal(v) == RedisKey(k, v);
    assert "quota:" + l + [':'] + Decimal(w) == RedisKey(l, w);
    LastCutUnique(':', "quota:" + k, Decimal(v), "quota:" + l, Decimal(w));
    assert k == ("quota:" + k)[6..] && l == ("quota:" + l)[6..];
    DecimalInjective(v, w);
  }

  ghost predicate SinceEpoch(hits: seq<Hit>) { forall i | 0 <= i < |hits| :: hits[i].t >= EPOCH }

  /** Under a clock that does not go back, the counter of the window that is current at any time from
      the last hit on holds exactly the number of hits in it, and outlives that window. */
  lemma {:induction false} CounterTracksCount(window: int, hits: seq<Hit>, key: string, t: int)
    requires Millis(window) > 0 && SinceEpoch(hits) && t >= EPOCH && Clocked(hits + [Hit(t, key)])
    ensures var v := Slot(RedisGrid(window), t);
            var store, n, k := RedisRun(window, hits), Count(RedisGrid(window), hits, key, v), RedisKey(key, v);
            if n == 0 then k !in store
            else k in store && store[k].count == n && Millis(window) * v + Millis(window) <= store[k].expireAt
  {
    if hits != [] {
      var h, past, v := hits[|hits| - 1], hits[..|hits| - 1], Slot(RedisGrid(window), t);
      ClockedPrefix(hits, Hit(t, key));
      CounterTracksCount(window, past, key, t);
      IndexIsSlot(window, h.t);
      IndexIsSlot(window, t);
      DivMonotone(h.t - EPOCH, t - EPOCH, NANOS_PER_MILLI);
      var idx := Quo(UnixMilli(h.t), Millis(window));
      if RedisKey(h.key, idx) == RedisKey(key, v) { RedisKeyInjective(h.key, idx, key, v); }
    }
  }

  /** Hit i is for key in window v. */
  predicate IsIn(window: int, hits: seq<Hit>, i: nat, key: string, v: int)
    requires i < |hits| && Millis(window) > 0
  {
    hits[i].key == key && Slot(RedisGrid(window), hits[i].t) == v
  }

  /** A live counter was made by the first request of its window and expires one window's length after it,
      however many have followed. */
  lemma {:induction false} ExpiresFromTheFirst(window: int, hits: seq<Hit>, key: string, t: int) returns (i: nat)
    requires Millis(window) > 0 && SinceEpoch(hits) && t >= EPOCH && Clocked(hits + [Hit(t, key)])
    requires Count(RedisGrid(window), hits, key, Slot(RedisGrid(window), t)) > 0
    ensures var v := Slot(RedisGrid(window), t);
            var store, k := RedisRun(window, hits), RedisKey(key, v);
            && i < |hits| && IsIn(window, hits, i, key, v)
            && (forall j | 0 <= j < i :: !IsIn(window, hits, j, key, v))
            && k in store && store[k].expireAt == UnixMilli(hits[i].t) + Millis(window)
  {
    var n, v := |hits| - 1, Slot(RedisGrid(window), t);
    var h, past := hits[n], hits[..n];
    ClockedPrefix(hits, Hit(t, key));
    CounterTracksCount(window, past, key, t);
    IndexIsSlot(window, h.t);
    IndexIsSlot(window, t);
    DivMonotone(h.t - EPOCH, t - EPOCH, NANOS_PER_MILLI);
    var idx := Quo(UnixMilli(h.t), Millis(window));
    if RedisKey(h.key, idx) == RedisKey(key, v) { RedisKeyInjective(h.key, idx, key, v); }
    if Count(RedisGrid(window), past, key, v) > 0 {
      i := ExpiresFromTheFirst(window, past, key, t);
      forall j | 0 <= j < i ensures !IsIn(window, hits, j, key, v) { assert !IsIn(window, past, j, key, v); }
    } else {
      i := n;
      NoneIn(window, past, key, v);
      forall j | 0 <= j < i ensures !IsIn(window, hits, j, key, v) { assert !IsIn(window, past, j, key, v); }
    }
  }

  lemma {:induction false} NoneIn(window: int, hits: seq<Hit>, key: string, v: int)
    requires Millis(window) > 0 && Count(RedisGrid(window), hits, key, v) == 0
    ensures forall j | 0 <= j < |hits| :: !IsIn(window, hits, j, key, v)
  {
    if hits != [] {
      var n := |hits| - 1;
      NoneIn(window, hits[..n], key, v);
      forall j | 0 <= j < |hits| ensures !IsIn(window, hits, j, key, v) {
        if j < n { assert !IsIn(window, hits[..n], j, key, v); }
      }
    }
  }

  /** As long as Redis answers, the limiter gives the answer the whole history calls for. */
  lemma CountersRefine(limit: int, window: int, hits: seq<Hit>, h: Hit)
    requires Millis(window) > 0 && Clocked(hits + [h]) && SinceEpoch(hits) && h.t >= EPOCH
    ensures RedisOk(limit, window, hits, h) <==> Admits(limit, RedisGrid(window), hits, h)
  {
    IndexIsSlot(window, h.t);
    CounterTracksCount(window, hits, h.key, h.t);
    assert Hit(h.t, h.key) == h;
  }

  // ----- When Redis cannot be reached -----

  /** A request, and whether Redis answers then. */
  datatype Try = Try(hit: Hit, up: bool)

  /** The requests Redis gets to see. */
  function Heard(tries: seq<Try>): seq<Hit> {
    if tries == [] then []
    else
      var past, x := Heard(tries[..|tries| - 1]), tries[|tries| - 1];
      if x.up then past + [x.hit] else past
  }

  function LimiterStep(limit: int, window: int, store: Store, x: Try): (Store, bool) {
    if x.up then RedisStep(limit, window, store, x.hit) else (store, true)
  }

  function LimiterRun(window: int, tries: seq<Try>): Store {
    if tries == [] then map[]
    else LimiterStep(1, window, LimiterRun(window, tries[..|tries| - 1]), tries[|tries| - 1]).0
  }

  /** The limiter's answer to x after the tries. */
  predicate LimiterOk(limit: int, window: int, tries: seq<Try>, x: Try) {
    LimiterStep(limit, window, LimiterRun(window, tries), x).1
  }

  ghost predicate TriesClocked(tries: seq<Try>, t: int) {
    && (forall i, j | 0 <= i < j < |tries| :: tries[i].hit.t <= tries[j].hit.t)
    && (forall i | 0 <= i < |tries| :: EPOCH <= tries[i].hit.t <= t)
  }

  lemma {:induction false} HeardRun(window: int, tries: seq<Try>)
    ensures LimiterRun(window, tries) == RedisRun(window, Heard(tries))
  {
    if tries != [] {
      var p, x := tries[..|tries| - 1], tries[|tries| - 1];
      HeardRun(window, p);
      assert x.up ==> Heard(tries)[..|Heard(tries)| - 1] == Heard(p);
    }
  }

  lemma {:induction false} HeardClocked(tries: seq<Try>, h: Hit)
    requires TriesClocked(tries, h.t)
    ensures Clocked(Heard(tries) + [h]) && SinceEpoch(Heard(tries))
  {
    if tries != [] {
      var p, x := tries[..|tries| - 1], tries[|tries| - 1];
      HeardClocked(p, x.hit);
      var hits := Heard(p) + [x.hit];
      assert forall i | 0 <= i < |hits| :: hits[i].t <= hits[|hits| - 1].t;
      assert forall i | 0 <= i < |Heard(p)| :: hits[i] == Heard(p)[i];
    }
  }

  /** Unless it cannot reach Redis, and then lets the request through, the limiter gives the answer
      called for by those requests of the history that reached Redis. */
  lemma RedisLimiterRefines(limit: int, window: int, tries: seq<Try>, x: Try)
    requires Millis(window) > 0 && TriesClocked(tries, x.hit.t) && x.hit.t >= EPOCH
    ensures LimiterOk(limit, window, tries, x) <==> !x.up || Admits(limit, RedisGrid(window), Heard(tries), x.hit)
  {
    HeardRun(window, tries);
    HeardClocked(tries, x.hit);
    CountersRefine(limit, window, Heard(tries), x.hit);
  }

  // ----- When the two limiters agree -----

  /** The same answer to every request of every history since the epoch under a clock that does not
      go back. */
  ghost predicate Agree(limit: int, window: int) {
    forall hits, h | Clocked(hits + [h]) && SinceEpoch(hits + [h]) ::
      WindowOk(limit, window, hits, h) == RedisOk(limit, window, hits, h)
  }

  /** Whole milliseconds that divide the time from year 1 to the epoch. */
  predicate Aligned(window: int) { window > 0 && window % NANOS_PER_MILLI == 0 && EPOCH % window == 0 }

  lemma {:induction false} CountSamePartition(g: Grid, f: Grid, hits: seq<Hit>, key: string, v: int, w: int)
    requires g.width > 0 && f.width > 0
    requires forall i | 0 <= i < |hits| :: Slot(g, hits[i].t) == v <==> Slot(f, hits[i].t) == w
    ensures Count(g, hits, key, v) == Count(f, hits, key, w)
  {
    if hits != [] { CountSamePartition(g, f, hits[..|hits| - 1], key, v, w); }
  }

  lemma AlignedGrids(window: int, t: int)
    requires Aligned(window)
    ensures Millis(window) > 0 && RedisGrid(window).width == window
    ensures Slot(WindowGrid(window), t) == Slot(RedisGrid(window), t) + EPOCH / window
  {
    DivMod(window, NANOS_PER_MILLI);
    var x, q, e := t - EPOCH, (t - EPOCH) / window, EPOCH / window;
    DivMod(x, window);
    DivMod(EPOCH, window);
    Distribute(window, q, -e);
    DivUnique(t, window, q + e, x % window);
  }

  lemma AlignedAdmits(limit: int, window: int, hits: seq<Hit>, h: Hit)
    requires Aligned(window)
    ensures Millis(window) > 0
    ensures Admits(limit, WindowGrid(window), hits, h) <==> Admits(limit, RedisGrid(window), hits, h)
  {
    AlignedGrids(window, h.t);
    var g, f := WindowGrid(window), RedisGrid(window);
    forall i | 0 <= i < |hits| ensures Slot(g, hits[i].t) == Slot(g, h.t) <==> Slot(f, hits[i].t) == Slot(f, h.t) {
      AlignedGrids(window, hits[i].t);
    }
    CountSamePartition(g, f, hits, h.key, Slot(g, h.t), Slot(f, h.t));
  }

  lemma AlignedAgree(limit: int, window: int, hits: seq<Hit>, h: Hit)
    requires Aligned(window) && Clocked(hits + [h]) && SinceEpoch(hits + [h])
    ensures WindowOk(limit, window, hits, h) == RedisOk(limit, window, hits, h)
  {
    assert forall i | 0 <= i < |hits| :: (hits + [h])[i] == hits[i];
    assert (hits + [h])[|hits|] == h;
    AlignedAdmits(limit, window, hits, h);
    WindowLimiterRefines(limit, window, hits, h);
    CountersRefine(limit, window, hits, h);
  }

  // Histories on which they part: the limit used up at one time, then one more request.

  function Burst(t: int, n: nat): seq<Hit> { seq(n, i => Hit(t, "k")) }

  lemma {:induction false} BurstCount(g: Grid, t: int, n: nat, v: int)
    requires g.width > 0
    ensures Count(g, Burst(t, n), "k", v) == if Slot(g, t) == v then n else 0
  {
    if n > 0 {
      assert Burst(t, n)[..n - 1] == Burst(t, n - 1);
      BurstCount(g, t, n - 1, v);
    }
  }

  lemma BurstAnswers(limit: int, window: int, t: int, u: int)
    requires limit > 0 && EPOCH <= t <= u
    ensures Clocked(Burst(t, limit) + [Hit(u, "k")]) && SinceEpoch(Burst(t, limit) + [Hit(u, "k")])
    ensures WindowOk(limit, window, Burst(t, limit), Hit(u, "k")) <==>
            Slot(WindowGrid(window), t) != Slot(WindowGrid(window), u)
    ensures RedisOk(limit, window, Burst(t, limit), Hit(u, "k")) <==>
            Millis(window) <= 0 || Slot(RedisGrid(window), t) != Slot(RedisGrid(window), u)
  {
    WindowLimiterRefines(limit, window, Burst(t, limit), Hit(u, "k"));
    BurstCount(WindowGrid(window), t, limit, Slot(WindowGrid(window), u));
    if Millis(window) > 0 {
      CountersRefine(limit, window, Burst(t, limit), Hit(u, "k"));
      BurstCount(RedisGrid(window), t, limit, Slot(RedisGrid(window), u));
    }
  }

  /** Two times the two grids do not agree on putting in one window. */
  lemma Parting(window: int) returns (t: int, u: int)
    requires !Aligned(window)
    ensures EPOCH <= t <= u
    ensures (Slot(WindowGrid(window), t) == Slot(WindowGrid(window), u)) !=
            (Millis(window) > 0 && Slot(RedisGrid(window), t) == Slot(RedisGrid(window), u))
  {
    if window < NANOS_PER_MILLI {
      return EPOCH, EPOCH;
    }
    var g, f := WindowGrid(window), RedisGrid(window);
    var q := EPOCH / window + 1;
    var b := window * q;
    DivMod(EPOCH, window);
    Distribute(window, q, 1);
    assert EPOCH < b <= EPOCH + window;
    DivMod(window, NANOS_PER_MILLI);
    if window % NANOS_PER_MILLI == 0 {
      // A boundary of the year-1 grid falls strictly inside the first window of the epoch grid.
      DivUnique(b, window, q, 0);
      DivUnique(b - EPOCH, window, 0, b - EPOCH);
      DivUnique(0, window, 0, 0);
      return EPOCH, b;
    } else {
      // The epoch grid's windows are narrower: from a boundary of the year-1 grid, one of them on.
      DivUnique(b, window, q, 0);
      DivUnique(b + f.width, window, q, f.width);
      DivMod(b - EPOCH, f.width);
      Distribute(f.width, (b - EPOCH) / f.width, -1);
      DivUnique(b - EPOCH + f.width, f.width, (b - EPOCH) / f.width + 1, (b - EPOCH) % f.width);
      return b, b + f.width;
    }
  }

  /** The two limiters agree on every history exactly when there is no limit or the window is a
      whole number of milliseconds dividing the time from year 1 to the epoch. */
  lemma AgreeIffAligned(limit: int, window: int)
    ensures Agree(limit, window) <==> limit <= 0 || Aligned(window)
  {
    if limit > 0 && Aligned(window) {
      forall hits, h | Clocked(hits + [h]) && SinceEpoch(hits + [h])
        ensures WindowOk(limit, window, hits, h) == RedisOk(limit, window, hits, h)
      {
        AlignedAgree(limit, window, hits, h);
      }
    }
    if limit > 0 && !Aligned(window) {
      var t, u := Parting(window);
      BurstAnswers(limit, window, t, u);
      assert WindowOk(limit, window, Burst(t, limit), Hit(u, "k")) !=
             RedisOk(limit, window, Burst(t, limit), Hit(u, "k"));
    }
  }

  /** The gateway's window of one minute is such a window. */
  lemma MinuteAligned()
    ensures Aligned(60 * 1000000000)
  {
    DivUnique(EPOCH, 60 * 1000000000, 1035593280, 0);
  }

  /** Before the epoch the two answers can differ even then: window zero of Redis is twice as wide. */
  lemma BeforeEpochDiffers(t: int, u: int)
    requires t == EPOCH - 1 && u == EPOCH
    ensures !RedisOk(1, 60 * 1000000000, [Hit(t, "k")], Hit(u, "k"))
    ensures WindowOk(1, 60 * 1000000000, [Hit(t, "k")], Hit(u, "k"))
  {
    var w := 60 * 1000000000;
    MinuteAligned();
    DivUnique(EPOCH - 1, w, EPOCH / w - 1, w - 1);
    assert [Hit(t, "k")][..0] == [];
    assert UnixMilli(t) == -1 && UnixMilli(u) == 0 && Millis(w) == 60000;
    assert Quo(-1, 60000) == 0;
    assert RedisRun(w, [Hit(t, "k")]) == map[RedisKey("k", 0) := Counter(1, 59999)];
  }

  // ----- The rate across replicas -----

  /** What the limiters answer to each of the tries, whatever replicas they come through. */
  function LimiterAnswers(limit: int, window: int, tries: seq<Try>): seq<bool> {
    seq(|tries|, i requires 0 <= i < |tries| => LimiterOk(limit, window, tries[..i], tries[i]))
  }

  /** What they answer to those that reach Redis. */
  function HeardAnswers(limit: int, window: int, tries: seq<Try>): (yes: seq<bool>)
    ensures |yes| == |Heard(tries)|
  {
    if tries == [] then []
    else
      var n := |tries| - 1;
      var past := HeardAnswers(limit, window, tries[..n]);
      if tries[n].up then past + [LimiterOk(limit, window, tries[..n], tries[n])] else past
  }

  function Hits(tries: seq<Try>): (hits: seq<Hit>)
    ensures |hits| == |tries| && forall i | 0 <= i < |hits| :: hits[i] == tries[i].hit
  {
    seq(|tries|, i requires 0 <= i < |tries| => tries[i].hit)
  }

  /** How many of the tries for key, from time a up to time b, did not reach Redis. */
  function Unheard(tries: seq<Try>, key: string, a: int, b: int): nat {
    if tries == [] then 0
    else
      var n := |tries| - 1;
      var h := tries[n].hit;
      Unheard(tries[..n], key, a, b) + (if !tries[n].up && h.key == key && a <= h.t < b then 1 else 0)
  }

  lemma PassedNext(hits: seq<Hit>, h: Hit, yes: seq<bool>, ok: bool, key: string, a: int, b: int)
    requires |yes| == |hits|
    ensures PassedBetween(hits + [h], yes + [ok], key, a, b) ==
            PassedBetween(hits, yes, key, a, b) + (if ok && h.key == key && a <= h.t < b then 1 else 0)
  {
    assert (hits + [h])[..|hits|] == hits && (yes + [ok])[..|hits|] == yes;
  }

  lemma AnswersNext(limit: int, window: int, tries: seq<Try>)
    requires tries != []
    ensures var n := |tries| - 1;
            LimiterAnswers(limit, window, tries) ==
            LimiterAnswers(limit, window, tries[..n]) + [LimiterOk(limit, window, tries[..n], tries[n])]
  {
    var n := |tries| - 1;
    forall i | 0 <= i < n
      ensures LimiterAnswers(limit, window, tries)[i] == LimiterAnswers(limit, window, tries[..n])[i]
    {
      assert tries[..n][..i] == tries[..i];
    }
  }

  lemma HeardNext(limit: int, window: int, tries: seq<Try>)
    requires tries != []
    ensures var p, x := tries[..|tries| - 1], tries[|tries| - 1];
            && Hits(tries) == Hits(p) + [x.hit]
            && (x.up ==> Heard(tries) == Heard(p) + [x.hit] &&
                         HeardAnswers(limit, window, tries) ==
                         HeardAnswers(limit, window, p) + [LimiterOk(limit, window, p, x)])
            && (!x.up ==> LimiterOk(limit, window, p, x) && Heard(tries) == Heard(p) &&
                          HeardAnswers(limit, window, tries) == HeardAnswers(limit, window, p))
  {
  }

  /** Over all the tries, the number let through is that among those heard and that of the others. */
  ghost predicate Splits(all: seq<Hit>, yes: seq<bool>, heard: seq<Hit>, heardYes: seq<bool>, others: int,
                         key: string, a: int, b: int)
  {
    |yes| == |all| && |heardYes| == |heard| &&
    PassedBetween(all, yes, key, a, b) == PassedBetween(heard, heardYes, key, a, b) + others
  }

  lemma SplitsNext(all: seq<Hit>, yes: seq<bool>, heard: seq<Hit>, heardYes: seq<bool>, others: int,
                   key: string, a: int, b: int, h: Hit, ok: bool)
    requires Splits(all, yes, heard, heardYes, others, key, a, b)
    ensures Splits(all + [h], yes + [ok], heard + [h], heardYes + [ok], others, key, a, b)
    ensures ok ==> Splits(all + [h], yes + [ok], heard, heardYes,
                          others + (if h.key == key && a <= h.t < b then 1 else 0), key, a, b)
  {
    PassedNext(all, h, yes, ok, key, a, b);
    PassedNext(heard, h, heardYes, ok, key, a, b);
  }

  lemma {:induction false} PassedSplits(limit: int, window: int, tries: seq<Try>, key: string, a: int, b: int)
    ensures Splits(Hits(tries), LimiterAnswers(limit, window, tries), Heard(tries), HeardAnswers(limit, window, tries),
                   Unheard(tries, key, a, b), key, a, b)
  {
    if tries != [] {
      var n := |tries| - 1;
      var p, x, ok := tries[..n], tries[n], LimiterOk(limit, window, tries[..n], tries[n]);
      PassedSplits(limit, window, p, key, a, b);
      AnswersNext(limit, window, tries);
      HeardNext(limit, window, tries);
      SplitsNext(Hits(p), LimiterAnswers(limit, window, p), Heard(p), HeardAnswers(limit, window, p),
                 Unheard(p, key, a, b), key, a, b, x.hit, ok);
    }
  }

  lemma {:induction false} HeardIsStrict(limit: int, window: int, tries: seq<Try>, t: int)
    requires Millis(window) > 0 && TriesClocked(tries, t)
    ensures Strict(limit, RedisGrid(window), Heard(tries), HeardAnswers(limit, window, tries))
  {
    if tries != [] {
      var n := |tries| - 1;
      var p, x := tries[..n], tries[n];
      HeardIsStrict(limit, window, p, x.hit.t);
      if x.up {
        RedisLimiterRefines(limit, window, p, x);
        StrictNext(limit, RedisGrid(window), Heard(p), HeardAnswers(limit, window, p), x.hit,
                   LimiterOk(limit, window, p, x));
      }
    }
  }

  lemma StrictNext(limit: int, g: Grid, hits: seq<Hit>, yes: seq<bool>, h: Hit, ok: bool)
    requires g.width > 0 && Strict(limit, g, hits, yes) && (ok ==> Admits(limit, g, hits, h))
    ensures Strict(limit, g, hits + [h], yes + [ok])
  {
    var hits2, yes2 := hits + [h], yes + [ok];
    forall i | 0 <= i < |hits2| && yes2[i] ensures Admits(limit, g, hits2[..i], hits2[i]) {
      assert i < |hits| ==> hits2[..i] == hits[..i];
      assert i == |hits| ==> hits2[..i] == hits;
    }
  }

  /** A bound on what passes in a stretch of time of the given length. */
  ghost predicate KeepsRate(limit: int, g: Grid, passed: int, length: int)
    requires g.width > 0
  {
    passed <= limit * (CeilDiv(length, g.width) + 1) && (length <= g.width ==> passed <= 2 * limit)
  }

  lemma HeardRate(limit: int, g: Grid, hits: seq<Hit>, yes: seq<bool>, key: string, a: int, b: int, passed: int,
                  extra: int)
    requires limit > 0 && g.width > 0 && Strict(limit, g, hits, yes) && a < b
    requires passed == PassedBetween(hits, yes, key, a, b) + extra
    ensures KeepsRate(limit, g, passed - extra, b - a)
  {
    RateBound(limit, g, hits, yes, key, a, b);
  }

  /** Whatever replicas the requests come through, together they keep the rate, but for the requests
      made while Redis could not be reached. */
  lemma RedisRateBound(limit: int, window: int, tries: seq<Try>, t: int, key: string, a: int, b: int)
    requires limit > 0 && Millis(window) > 0 && TriesClocked(tries, t) && a < b
    ensures var passed := PassedBetween(Hits(tries), LimiterAnswers(limit, window, tries), key, a, b);
            KeepsRate(limit, RedisGrid(window), passed - Unheard(tries, key, a, b), b - a)
  {
    PassedSplits(limit, window, tries, key, a, b);
    HeardIsStrict(limit, window, tries, t);
    HeardRate(limit, RedisGrid(window), Heard(tries), HeardAnswers(limit, window, tries), key, a, b,
              PassedBetween(Hits(tries), LimiterAnswers(limit, window, tries), key, a, b), Unheard(tries, key, a, b));
  }
}
