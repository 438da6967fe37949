/** The two-level quota of the gateway: a request must be within its organization's limit and then
    within its user's. One tenant's traffic never changes the answers another gets. */
module Enforcers {
  import opened Quota
  import opened RedisQuota

  datatype Req = Req(t: int, org: string, user: string)
  datatype Limits = Limits(org: int, user: int)

  function OrgHit(r: Req): Hit { Hit(r.t, "org:" + r.org) }

  function UserHit(r: Req): Hit { Hit(r.t, "user:" + r.org + "/" + r.user) }

  // ----- What the answers should be -----

  function OrgHits(reqs: seq<Req>): (hits: seq<Hit>)
    ensures |hits| == |reqs| && forall i | 0 <= i < |reqs| :: hits[i] == OrgHit(reqs[i])
  {
    seq(|reqs|, i requires 0 <= i < |reqs| => OrgHit(reqs[i]))
  }

  /** One more hit if yes. */
  function Keep(hits: seq<Hit>, yes: bool, h: Hit): seq<Hit> { if yes then hits + [h] else hits }

  lemma CountKeep(g: Grid, hits: seq<Hit>, yes: bool, h: Hit, key: string, v: int)
    requires g.width > 0
    ensures Count(g, Keep(hits, yes, h), key, v) ==
            Count(g, hits, key, v) + (if yes && h.key == key && Slot(g, h.t) == v then 1 else 0)
  {
    CountSnoc(g, hits, h, key, v);
  }

  /** The requests the organization level lets through, as the user level sees them. */
  function UserHits(orgLimit: int, g: Grid, reqs: seq<Req>): seq<Hit>
    requires g.width > 0
  {
    if reqs == [] then []
    else
      var past, r := reqs[..|reqs| - 1], reqs[|reqs| - 1];
      Keep(UserHits(orgLimit, g, past), Admits(orgLimit, g, OrgHits(past), OrgHit(r)), UserHit(r))
  }

  predicate Permits(l: Limits, g: Grid, past: seq<Req>, r: Req)
    requires g.width > 0
  {
    Admits(l.org, g, OrgHits(past), OrgHit(r)) && Admits(l.user, g, UserHits(l.org, g, past), UserHit(r))
  }

  ghost predicate InOrder(reqs: seq<Req>) { forall i, j | 0 <= i < j < |reqs| :: reqs[i].t <= reqs[j].t }

  // ----- The enforcer over in-memory limiters -----

  datatype Pair = Pair(org: Buckets, user: Buckets)

  function EnforcerStep(l: Limits, window: int, st: Pair, r: Req): (Pair, bool) {
    var (org, orgOk) := WindowStep(l.org, window, st.org, OrgHit(r));
    if !orgOk then (Pair(org, st.user), false)
    else
      var (user, ok) := WindowStep(l.user, window, st.user, UserHit(r));
      (Pair(org, user), ok)
  }

  class Enforcer {
    const org: WindowLimiter
    const user: WindowLimiter

    ghost predicate Valid() { org != user && org.window == user.window }

    ghost function View(): Pair reads org, user { Pair(org.buckets, user.buckets) }

    constructor (orgPerWindow: int, userPerWindow: int, window: int)
      ensures Valid() && View() == Pair(map[], map[])
      ensures fresh(org) && fresh(user) && org.limit == orgPerWindow && user.limit == userPerWindow &&
              org.window == window
    {
      org := new WindowLimiter(orgPerWindow, window);
      user := new WindowLimiter(userPerWindow, window);
    }

    method Allow(orgName: string, userName: string, now: int) returns (ok: bool)
      requires Valid()
      modifies org, user
      ensures (View(), ok) == EnforcerStep(Limits(org.limit, user.limit), org.window, old(View()),
                                           Req(now, orgName, userName))
    {
      ok := org.Allow("org:" + orgName, now);
      if !ok { return; }
      ok := user.Allow("user:" + orgName + "/" + userName, now);
    }
  }

  function EnforcerRun(l: Limits, window: int, reqs: seq<Req>): Pair {
    if reqs == [] then Pair(map[], map[])
    else EnforcerStep(l, window, EnforcerRun(l, window, reqs[..|reqs| - 1]), reqs[|reqs| - 1]).0
  }

  predicate EnforcerOk(l: Limits, window: int, past: seq<Req>, r: Req) {
    EnforcerStep(l, window, EnforcerRun(l, window, past), r).1
  }

  lemma {:induction false} UserHitsInOrder(orgLimit: int, g: Grid, reqs: seq<Req>, last: Hit)
    requires g.width > 0 && InOrder(reqs) && forall i | 0 <= i < |reqs| :: reqs[i].t <= last.t
    ensures Clocked(UserHits(orgLimit, g, reqs) + [last])
  {
    if reqs != [] {
      var n := |reqs| - 1;
      UserHitsInOrder(orgLimit, g, reqs[..n], UserHit(reqs[n]));
      var all := UserHits(orgLimit, g, reqs[..n]) + [UserHit(reqs[n])];
      forall i | 0 <= i < |all| ensures all[i].t <= last.t { assert all[|all| - 1].t <= last.t; }
      var hits := UserHits(orgLimit, g, reqs);
      forall i, j | 0 <= i < j < |hits + [last]| ensures (hits + [last])[i].t <= (hits + [last])[j].t {
        assert i < |hits| && hits[i] == all[i];
        assert j < |hits| ==> hits[j] == all[j];
      }
    }
  }

  lemma RunSnoc(hits: seq<Hit>, h: Hit, limit: int, window: int)
    ensures WindowRun(limit, window, hits + [h]) == WindowStep(limit, window, WindowRun(limit, window, hits), h).0
    ensures RedisRun(window, hits + [h]) == RedisStep(1, window, RedisRun(window, hits), h).0
  {
    assert (hits + [h])[..|hits|] == hits;
  }

  /** Each level's buckets are those of the requests that reached it, and the answer is the one called
      for. */
  lemma {:induction false} EnforcerRefines(l: Limits, window: int, past: seq<Req>, r: Req)
    requires InOrder(past) && forall i | 0 <= i < |past| :: past[i].t <= r.t
    ensures EnforcerRun(l, window, past) ==
            Pair(WindowRun(l.org, window, OrgHits(past)),
                 WindowRun(l.user, window, UserHits(l.org, WindowGrid(window), past)))
    ensures EnforcerOk(l, window, past, r) <==> Permits(l, WindowGrid(window), past, r)
  {
    var g := WindowGrid(window);
    if past != [] {
      var p, q := past[..|past| - 1], past[|past| - 1];
      EnforcerRefines(l, window, p, q);
      assert OrgHits(past) == OrgHits(p) + [OrgHit(q)];
      RunSnoc(OrgHits(p), OrgHit(q), l.org, window);
      RunSnoc(UserHits(l.org, g, p), UserHit(q), l.user, window);
      assert Clocked(OrgHits(p) + [OrgHit(q)]);
      WindowLimiterRefines(l.org, window, OrgHits(p), OrgHit(q));
    }
    assert Clocked(OrgHits(past) + [OrgHit(r)]);
    WindowLimiterRefines(l.org, window, OrgHits(past), OrgHit(r));
    UserHitsInOrder(l.org, g, past, UserHit(r));
    WindowLimiterRefines(l.user, window, UserHits(l.org, g, past), UserHit(r));
  }

  // ----- The enforcer over Redis, both levels sharing its counters -----

  function RedisEnforcerStep(l: Limits, window: int, store: Store, r: Req): (Store, bool) {
    var (store1, orgOk) := RedisStep(l.org, window, store, OrgHit(r));
    if !orgOk then (store1, false) else RedisStep(l.user, window, store1, UserHit(r))
  }

  class RedisEnforcer {
    const rdb: Redis
    const org: RedisLimiter
    const user: RedisLimiter

    ghost predicate Valid() { org.rdb == rdb && user.rdb == rdb && org.window == user.window }

    constructor (rdb: Redis, orgPerWindow: int, userPerWindow: int, window: int)
      ensures Valid() && this.rdb == rdb
      ensures org.limit == orgPerWindow && user.limit == userPerWindow && org.window == window
    {
      this.rdb := rdb;
      org := new RedisLimiter(rdb, orgPerWindow, window);
      user := new RedisLimiter(rdb, userPerWindow, window);
    }

    /** reachable is whether Redis answers throughout. */
    method Allow(orgName: string, userName: string, now: int, reachable: bool) returns (ok: bool)
      requires Valid()
      modifies rdb
      ensures (rdb.store, ok) ==
              CallStep(Limits(org.limit, user.limit), org.window, old(rdb.store),
                       Call(Req(now, orgName, userName), reachable))
    {
      ok := org.Allow("org:" + orgName, now, reachable);
      if !ok { return; }
      ok := user.Allow("user:" + orgName + "/" + userName, now, reachable);
    }
  }

  function RedisEnforcerRun(l: Limits, window: int, reqs: seq<Req>): Store {
    if reqs == [] then map[]
    else RedisEnforcerStep(l, window, RedisEnforcerRun(l, window, reqs[..|reqs| - 1]), reqs[|reqs| - 1]).0
  }

  predicate RedisEnforcerOk(l: Limits, window: int, past: seq<Req>, r: Req) {
    RedisEnforcerStep(l, window, RedisEnforcerRun(l, window, past), r).1
  }

  /** The requests come in order, since the epoch and up to time t. */
  ghost predicate Timely(reqs: seq<Req>, t: int) {
    InOrder(reqs) && forall i | 0 <= i < |reqs| :: EPOCH <= reqs[i].t <= t
  }

  /** All increments the requests cause, of both levels; a level without a limit makes none. */
  function RedisHits(l: Limits, g: Grid, reqs: seq<Req>): seq<Hit>
    requires g.width > 0
  {
    if reqs == [] then []
    else
      var past, r := reqs[..|reqs| - 1], reqs[|reqs| - 1];
      Incremented(l, g, past, r, RedisHits(l, g, past))
  }

  function Incremented(l: Limits, g: Grid, past: seq<Req>, r: Req, hits: seq<Hit>): seq<Hit>
    requires g.width > 0
  {
    var yes := Admits(l.org, g, OrgHits(past), OrgHit(r));
    Keep(Keep(hits, l.org > 0, OrgHit(r)), l.user > 0 && yes, UserHit(r))
  }

  lemma KeepClocked(hits: seq<Hit>, yes: bool, h: Hit, last: Hit)
    requires Clocked(hits + [h]) && h.t <= last.t
    ensures Clocked(Keep(hits, yes, h) + [last])
  {
    var all := hits + [h];
    assert forall i | 0 <= i < |hits| :: all[i] == hits[i];
    assert all[|hits|] == h;
  }

  lemma {:induction false} RedisHitsClocked(l: Limits, g: Grid, reqs: seq<Req>, last: Hit)
    requires g.width > 0 && Timely(reqs, last.t)
    ensures Clocked(RedisHits(l, g, reqs) + [last]) && SinceEpoch(RedisHits(l, g, reqs))
  {
    if reqs != [] {
      var p, q := reqs[..|reqs| - 1], reqs[|reqs| - 1];
      var hits, yes := RedisHits(l, g, p), Admits(l.org, g, OrgHits(p), OrgHit(q));
      RedisHitsClocked(l, g, p, OrgHit(q));
      KeepClocked(hits, l.org > 0, OrgHit(q), UserHit(q));
      KeepClocked(Keep(hits, l.org > 0, OrgHit(q)), l.user > 0 && yes, UserHit(q), last);
    }
  }

  lemma {:induction false} OrgLevel(l: Limits, g: Grid, reqs: seq<Req>, key: string, v: int)
    requires g.width > 0 && l.org > 0 && forall q :: UserHit(q).key != key
    ensures Count(g, RedisHits(l, g, reqs), key, v) == Count(g, OrgHits(reqs), key, v)
  {
    if reqs != [] {
      var p, q := reqs[..|reqs| - 1], reqs[|reqs| - 1];
      OrgLevel(l, g, p, key, v);
      var hits, yes := RedisHits(l, g, p), Admits(l.org, g, OrgHits(p), OrgHit(q));
      assert OrgHits(reqs) == OrgHits(p) + [OrgHit(q)];
      CountSnoc(g, OrgHits(p), OrgHit(q), key, v);
      CountKeep(g, hits, l.org > 0, OrgHit(q), key, v);
      CountKeep(g, Keep(hits, l.org > 0, OrgHit(q)), l.user > 0 && yes, UserHit(q), key, v);
    }
  }

  lemma {:induction false} UserLevel(l: Limits, g: Grid, reqs: seq<Req>, key: string, v: int)
    requires g.width > 0 && l.user > 0 && forall q :: OrgHit(q).key != key
    ensures Count(g, RedisHits(l, g, reqs), key, v) == Count(g, UserHits(l.org, g, reqs), key, v)
  {
    if reqs != [] {
      var p, q := reqs[..|reqs| - 1], reqs[|reqs| - 1];
      UserLevel(l, g, p, key, v);
      var hits, yes := RedisHits(l, g, p), Admits(l.org, g, OrgHits(p), OrgHit(q));
      CountKeep(g, hits, l.org > 0, OrgHit(q), key, v);
      CountKeep(g, Keep(hits, l.org > 0, OrgHit(q)), l.user > 0 && yes, UserHit(q), key, v);
      CountKeep(g, UserHits(l.org, g, p), yes, UserHit(q), key, v);
    }
  }

  /** Though they share one store, each level's counters are those of its own hits. */
  lemma LevelsApart(l: Limits, g: Grid, reqs: seq<Req>, r: Req, v: int)
    requires g.width > 0
    ensures l.org > 0 ==> Count(g, RedisHits(l, g, reqs), OrgHit(r).key, v) == Count(g, OrgHits(reqs), OrgHit(r).key, v)
    ensures l.user > 0 ==>
              Count(g, RedisHits(l, g, reqs), UserHit(r).key, v) ==
                Count(g, UserHits(l.org, g, reqs), UserHit(r).key, v)
  {
    forall q ensures UserHit(q).key != OrgHit(r).key { LevelKeysDiffer(r, q); }
    forall q ensures OrgHit(q).key != UserHit(r).key { LevelKeysDiffer(q, r); }
    if l.org > 0 { OrgLevel(l, g, reqs, OrgHit(r).key, v); }
    if l.user > 0 { UserLevel(l, g, reqs, UserHit(r).key, v); }
  }

  lemma LevelKeysDiffer(r: Req, q: Req)
    ensures OrgHit(r).key != UserHit(q).key
  {
    assert OrgHit(r).key[0] == 'o' && UserHit(q).key[0] == 'u';
  }

  /** What a level of the enforcer does, its counters being those of the given hits. */
  lemma LevelStep(limit: int, window: int, hits: seq<Hit>, h: Hit)
    requires Millis(window) > 0 && Clocked(hits + [h]) && SinceEpoch(hits) && h.t >= EPOCH
    ensures RedisStep(limit, window, RedisRun(window, hits), h) ==
            (RedisRun(window, Keep(hits, limit > 0, h)), Admits(limit, RedisGrid(window), hits, h))
  {
    RunSnoc(hits, h, 1, window);
    CountersRefine(limit, window, hits, h);
  }

  lemma OrgAnswer(l: Limits, g: Grid, past: seq<Req>, r: Req)
    requires g.width > 0
    ensures Admits(l.org, g, RedisHits(l, g, past), OrgHit(r)) <==> Admits(l.org, g, OrgHits(past), OrgHit(r))
  {
    LevelsApart(l, g, past, r, Slot(g, r.t));
  }

  lemma UserAnswer(l: Limits, g: Grid, past: seq<Req>, r: Req)
    requires g.width > 0
    ensures Admits(l.user, g, Keep(RedisHits(l, g, past), l.org > 0, OrgHit(r)), UserHit(r))
            <==> Admits(l.user, g, UserHits(l.org, g, past), UserHit(r))
  {
    LevelsApart(l, g, past, r, Slot(g, r.t));
    LevelKeysDiffer(r, r);
    CountKeep(g, RedisHits(l, g, past), l.org > 0, OrgHit(r), UserHit(r).key, Slot(g, r.t));
  }

  lemma TwoLevels(l: Limits, window: int, hits: seq<Hit>, r: Req, orgOk: bool, userOk: bool)
    requires var hits1 := Keep(hits, l.org > 0, OrgHit(r));
             && RedisStep(l.org, window, RedisRun(window, hits), OrgHit(r)) == (RedisRun(window, hits1), orgOk)
             && RedisStep(l.user, window, RedisRun(window, hits1), UserHit(r)) ==
                (RedisRun(window, Keep(hits1, l.user > 0, UserHit(r))), userOk)
    ensures var hits1 := Keep(hits, l.org > 0, OrgHit(r));
            RedisEnforcerStep(l, window, RedisRun(window, hits), r) ==
            (RedisRun(window, Keep(hits1, l.user > 0 && orgOk, UserHit(r))), orgOk && userOk)
  {
  }

  /** One request of the enforcer, level by level. */
  lemma RedisLevels(l: Limits, window: int, past: seq<Req>, r: Req)
    requires Millis(window) > 0 && Timely(past, r.t) && r.t >= EPOCH
    ensures var g := RedisGrid(window);
            var hits := RedisHits(l, g, past);
            RedisEnforcerStep(l, window, RedisRun(window, hits), r) ==
            (RedisRun(window, Incremented(l, g, past, r, hits)), Permits(l, g, past, r))
  {
    var g := RedisGrid(window);
    var hits := RedisHits(l, g, past);
    RedisHitsClocked(l, g, past, OrgHit(r));
    LevelStep(l.org, window, hits, OrgHit(r));
    OrgAnswer(l, g, past, r);
    KeepClocked(hits, l.org > 0, OrgHit(r), UserHit(r));
    LevelStep(l.user, window, Keep(hits, l.org > 0, OrgHit(r)), UserHit(r));
    UserAnswer(l, g, past, r);
    TwoLevels(l, window, hits, r, Admits(l.org, g, OrgHits(past), OrgHit(r)),
              Admits(l.user, g, UserHits(l.org, g, past), UserHit(r)));
  }

  lemma TimelyPrefix(reqs: seq<Req>, t: int)
    requires reqs != [] && Timely(reqs, t)
    ensures var n := |reqs| - 1; Timely(reqs[..n], reqs[n].t) && EPOCH <= reqs[n].t <= t
  {
  }

  /** The shared counters are those of all increments. */
  lemma {:induction false} RedisEnforcerState(l: Limits, window: int, reqs: seq<Req>, t: int)
    requires Millis(window) > 0 && Timely(reqs, t)
    ensures RedisEnforcerRun(l, window, reqs) == RedisRun(window, RedisHits(l, RedisGrid(window), reqs))
  {
    if reqs != [] {
      var p, q := reqs[..|reqs| - 1], reqs[|reqs| - 1];
      TimelyPrefix(reqs, t);
      RedisEnforcerState(l, window, p, q.t);
      RedisLevels(l, window, p, q);
    }
  }

  /** As long as Redis answers, the enforcer gives the answer called for. */
  lemma SharedCountersRefine(l: Limits, window: int, past: seq<Req>, r: Req)
    requires Millis(window) > 0 && Timely(past, r.t) && r.t >= EPOCH
    ensures RedisEnforcerOk(l, window, past, r) <==> Permits(l, RedisGrid(window), past, r)
  {
    RedisEnforcerState(l, window, past, r.t);
    RedisLevels(l, window, past, r);
  }

  /** A request, and whether Redis answers throughout. */
  datatype Call = Call(req: Req, up: bool)

  /** The requests Redis gets to see. */
  function HeardReqs(calls: seq<Call>): seq<Req> {
    if calls == [] then []
    else
      var past, c := HeardReqs(calls[..|calls| - 1]), calls[|calls| - 1];
      if c.up then past + [c.req] else past
  }

  function CallStep(l: Limits, window: int, store: Store, c: Call): (Store, bool) {
    if c.up then RedisEnforcerStep(l, window, store, c.req) else (store, true)
  }

  function CallRun(l: Limits, window: int, calls: seq<Call>): Store {
    if calls == [] then map[] else CallStep(l, window, CallRun(l, window, calls[..|calls| - 1]), calls[|calls| - 1]).0
  }

  predicate CallOk(l: Limits, window: int, calls: seq<Call>, c: Call) {
    CallStep(l, window, CallRun(l, window, calls), c).1
  }

  ghost predicate CallsTimely(calls: seq<Call>, t: int) {
    && (forall i, j | 0 <= i < j < |calls| :: calls[i].req.t <= calls[j].req.t)
    && (forall i | 0 <= i < |calls| :: EPOCH <= calls[i].req.t <= t)
  }

  lemma {:induction false} HeardState(l: Limits, window: int, calls: seq<Call>)
    ensures CallRun(l, window, calls) == RedisEnforcerRun(l, window, HeardReqs(calls))
  {
    if calls != [] {
      var p, c := calls[..|calls| - 1], calls[|calls| - 1];
      HeardState(l, window, p);
      assert c.up ==> HeardReqs(calls)[..|HeardReqs(calls)| - 1] == HeardReqs(p);
    }
  }

  lemma {:induction false} HeardTimely(calls: seq<Call>, t: int)
    requires CallsTimely(calls, t)
    ensures Timely(HeardReqs(calls), t)
  {
    if calls != [] {
      var p, c := calls[..|calls| - 1], calls[|calls| - 1];
      HeardTimely(p, c.req.t);
    }
  }

  /** Unless it cannot reach Redis, and then lets the request through, the enforcer gives the answer
      called for by those requests of the history that reached Redis. */
  lemma RedisEnforcerRefines(l: Limits, window: int, calls: seq<Call>, c: Call)
    requires Millis(window) > 0 && CallsTimely(calls, c.req.t) && c.req.t >= EPOCH
    ensures CallOk(l, window, calls, c) <==> !c.up || Permits(l, RedisGrid(window), HeardReqs(calls), c.req)
  {
    HeardState(l, window, calls);
    HeardTimely(calls, c.req.t);
    SharedCountersRefine(l, window, HeardReqs(calls), c.req);
  }

  // ----- The two enforcers agree -----

  lemma {:induction false} SameUserHits(orgLimit: int, window: int, reqs: seq<Req>)
    requires Aligned(window)
    ensures Millis(window) > 0
    ensures UserHits(orgLimit, WindowGrid(window), reqs) == UserHits(orgLimit, RedisGrid(window), reqs)
  {
    AlignedGrids(window, 0);
    if reqs != [] {
      var p, q := reqs[..|reqs| - 1], reqs[|reqs| - 1];
      SameUserHits(orgLimit, window, p);
      AlignedAdmits(orgLimit, window, OrgHits(p), OrgHit(q));
    }
  }

  lemma EnforcersAgree(l: Limits, window: int, past: seq<Req>, r: Req)
    requires Aligned(window) && Timely(past, r.t) && r.t >= EPOCH
    ensures EnforcerOk(l, window, past, r) <==> RedisEnforcerOk(l, window, past, r)
  {
    SameUserHits(l.org, window, past);
    EnforcerRefines(l, window, past, r);
    SharedCountersRefine(l, window, past, r);
    AlignedAdmits(l.org, window, OrgHits(past), OrgHit(r));
    AlignedAdmits(l.user, window, UserHits(l.org, WindowGrid(window), past), UserHit(r));
  }

  // ----- Noisy-neighbour isolation -----

  /** The requests of one organization. */
  function Only(reqs: seq<Req>, org: string): seq<Req> {
    if reqs == [] then []
    else
      var past, r := reqs[..|reqs| - 1], reqs[|reqs| - 1];
      Only(past, org) + (if r.org == org then [r] else [])
  }

  /** Neither name followed by a slash begins the other. */
  predicate Apart(a: string, b: string) { !(a + "/" <= b) && !(b + "/" <= a) }

  /** Organizations other than org have names apart from it. */
  ghost predicate Neighbours(reqs: seq<Req>, org: string) {
    forall i | 0 <= i < |reqs| :: reqs[i].org == org || Apart(reqs[i].org, org)
  }

  lemma SlashFreeApart(a: string, b: string)
    requires '/' !in a && '/' !in b
    ensures Apart(a, b)
  {
    assert (a + "/")[|a|] == '/' && (b + "/")[|b|] == '/';
    assert |a| < |b| ==> b[|a|] in b;
    assert |b| < |a| ==> a[|b|] in a;
  }

  /** Two organizations can share a user counter exactly when their names are not apart. */
  lemma SharedCounterIff(a: string, b: string)
    requires a != b
    ensures (exists u, v :: UserHit(Req(0, a, u)).key == UserHit(Req(0, b, v)).key) <==> !Apart(a, b)
  {
    if u, v :| UserHit(Req(0, a, u)).key == UserHit(Req(0, b, v)).key { SharedCounter(a, u, b, v); }
    if !Apart(a, b) {
      var u, v := CommonKey(a, b);
      assert UserHit(Req(0, a, u)) == UserHit(Req(0, b, v));
    }
  }

  lemma SharedCounter(a: string, u: string, b: string, v: string)
    requires a != b && UserHit(Req(0, a, u)).key == UserHit(Req(0, b, v)).key
    ensures !Apart(a, b)
  {
    var x, y := "user:" + a + "/" + u, "user:" + b + "/" + v;
    assert x[5..] == a + "/" + u && y[5..] == b + "/" + v;
    SharedStart(a, u, b, v);
  }

  lemma CommonKey(a: string, b: string) returns (u: string, v: string)
    requires !Apart(a, b)
    ensures forall t :: UserHit(Req(t, a, u)) == UserHit(Req(t, b, v))
  {
    if a + "/" <= b {
      u, v := b[|a| + 1..] + "/", "";
    } else {
      u, v := "", a[|b| + 1..] + "/";
    }
    assert a + "/" + u == b + "/" + v;
    assert "user:" + a + "/" + u == "user:" + (a + "/" + u);
    assert "user:" + b + "/" + v == "user:" + (b + "/" + v);
  }

  lemma SharedStart(a: string, u: string, b: string, v: string)
    requires a + "/" + u == b + "/" + v
    ensures a == b || a + "/" <= b || b + "/" <= a
  {
    var x := a + "/" + u;
    assert a == x[..|a|] && b == x[..|b|];
    assert a + "/" == x[..|a| + 1] && b + "/" == x[..|b| + 1];
  }

  lemma {:induction false} OrgCountsOwn(g: Grid, reqs: seq<Req>, org: string, v: int)
    requires g.width > 0
    ensures Count(g, OrgHits(reqs), "org:" + org, v) == Count(g, OrgHits(Only(reqs, org)), "org:" + org, v)
  {
    if reqs != [] {
      var p, q := reqs[..|reqs| - 1], reqs[|reqs| - 1];
      OrgCountsOwn(g, p, org, v);
      assert OrgHits(reqs) == OrgHits(p) + [OrgHit(q)];
      CountSnoc(g, OrgHits(p), OrgHit(q), "org:" + org, v);
      assert OrgHit(q).key[4..] == q.org && ("org:" + org)[4..] == org;
      if q.org == org {
        assert OrgHits(Only(reqs, org)) == OrgHits(Only(p, org)) + [OrgHit(q)];
        CountSnoc(g, OrgHits(Only(p, org)), OrgHit(q), "org:" + org, v);
      } else {
        assert Only(reqs, org) == Only(p, org);
      }
    }
  }

  lemma AdmitsOwn(orgLimit: int, g: Grid, past: seq<Req>, r: Req)
    requires g.width > 0
    ensures Admits(orgLimit, g, OrgHits(past), OrgHit(r)) <==>
            Admits(orgLimit, g, OrgHits(Only(past, r.org)), OrgHit(r))
  {
    OrgCountsOwn(g, past, r.org, Slot(g, r.t));
  }

  lemma OnlySnoc(p: seq<Req>, q: Req, org: string)
    ensures Only(p + [q], org) == if q.org == org then Only(p, org) + [q] else Only(p, org)
  {
    assert (p + [q])[..|p|] == p;
  }

  lemma UserHitsSnoc(orgLimit: int, g: Grid, p: seq<Req>, q: Req)
    requires g.width > 0
    ensures UserHits(orgLimit, g, p + [q]) ==
            Keep(UserHits(orgLimit, g, p), Admits(orgLimit, g, OrgHits(p), OrgHit(q)), UserHit(q))
  {
    assert (p + [q])[..|p|] == p;
  }

  /** The user counter of a key that only requests of org hit. */
  lemma {:induction false} UserCountsOwn(orgLimit: int, g: Grid, reqs: seq<Req>, org: string, key: string, v: int)
    requires g.width > 0 && forall i | 0 <= i < |reqs| :: UserHit(reqs[i]).key == key ==> reqs[i].org == org
    ensures Count(g, UserHits(orgLimit, g, reqs), key, v) == Count(g, UserHits(orgLimit, g, Only(reqs, org)), key, v)
  {
    if reqs != [] {
      var p, q := reqs[..|reqs| - 1], reqs[|reqs| - 1];
      UserCountsOwn(orgLimit, g, p, org, key, v);
      OneMoreOwn(orgLimit, g, p, q, org, key, v);
      assert reqs == p + [q];
    }
  }

  lemma OneMoreOwn(orgLimit: int, g: Grid, p: seq<Req>, q: Req, org: string, key: string, v: int)
    requires g.width > 0 && (UserHit(q).key == key ==> q.org == org)
    requires Count(g, UserHits(orgLimit, g, p), key, v) == Count(g, UserHits(orgLimit, g, Only(p, org)), key, v)
    ensures Count(g, UserHits(orgLimit, g, p + [q]), key, v) ==
            Count(g, UserHits(orgLimit, g, Only(p + [q], org)), key, v)
  {
    var yes, h := Admits(orgLimit, g, OrgHits(p), OrgHit(q)), UserHit(q);
    OnlySnoc(p, q, org);
    UserHitsSnoc(orgLimit, g, p, q);
    CountKeep(g, UserHits(orgLimit, g, p), yes, h, key, v);
    if q.org == org {
      AdmitsOwn(orgLimit, g, p, q);
      UserHitsSnoc(orgLimit, g, Only(p, org), q);
      CountKeep(g, UserHits(orgLimit, g, Only(p, org)), yes, h, key, v);
    }
  }

  /** An organization is answered as if it were alone. */
  lemma NeighboursUnheard(l: Limits, g: Grid, past: seq<Req>, r: Req)
    requires g.width > 0 && Neighbours(past, r.org)
    ensures Permits(l, g, past, r) <==> Permits(l, g, Only(past, r.org), r)
  {
    AdmitsOwn(l.org, g, past, r);
    forall i | 0 <= i < |past| && UserHit(past[i]).key == UserHit(r).key ensures past[i].org == r.org {
      if past[i].org != r.org { SharedCounter(past[i].org, past[i].user, r.org, r.user); }
    }
    UserCountsOwn(l.org, g, past, r.org, UserHit(r).key, Slot(g, r.t));
  }

  lemma {:induction false} OnlyKeeps(reqs: seq<Req>, org: string)
    ensures InOrder(reqs) ==> InOrder(Only(reqs, org))
    ensures forall x | x in Only(reqs, org) :: x in reqs
  {
    if reqs != [] {
      var p, q := reqs[..|reqs| - 1], reqs[|reqs| - 1];
      OnlyKeeps(p, org);
      assert forall x | x in p :: x in reqs;
      if InOrder(reqs) {
        assert InOrder(p);
        forall x | x in Only(p, org) ensures x.t <= q.t {
          var i :| 0 <= i < |p| && p[i] == x;
        }
      }
    }
  }

  /** Isolation of the in-memory enforcer. */
  lemma EnforcerIsolates(l: Limits, window: int, past: seq<Req>, r: Req)
    requires InOrder(past) && (forall x | x in past :: x.t <= r.t) && Neighbours(past, r.org)
    ensures EnforcerOk(l, window, past, r) <==> EnforcerOk(l, window, Only(past, r.org), r)
  {
    OnlyKeeps(past, r.org);
    EnforcerRefines(l, window, past, r);
    EnforcerRefines(l, window, Only(past, r.org), r);
    NeighboursUnheard(l, WindowGrid(window), past, r);
  }

  /** The calls of one organization. */
  function OnlyCalls(calls: seq<Call>, org: string): seq<Call> {
    if calls == [] then []
    else
      var past, c := OnlyCalls(calls[..|calls| - 1], org), calls[|calls| - 1];
      if c.req.org == org then past + [c] else past
  }

  lemma {:induction false} OnlyHeard(calls: seq<Call>, org: string)
    ensures HeardReqs(OnlyCalls(calls, org)) == Only(HeardReqs(calls), org)
  {
    if calls != [] {
      var p, c := calls[..|calls| - 1], calls[|calls| - 1];
      OnlyHeard(p, org);
      if c.up { OnlySnoc(HeardReqs(p), c.req, org); }
      var own := OnlyCalls(calls, org);
      assert c.req.org == org ==> own[..|own| - 1] == OnlyCalls(p, org);
    }
  }

  lemma {:induction false} OnlyCallsTimely(calls: seq<Call>, org: string, t: int)
    requires CallsTimely(calls, t)
    ensures CallsTimely(OnlyCalls(calls, org), t)
  {
    if calls != [] {
      var p, c := calls[..|calls| - 1], calls[|calls| - 1];
      OnlyCallsTimely(p, org, c.req.t);
    }
  }

  lemma {:induction false} HeardNeighbours(calls: seq<Call>, org: string)
    requires forall i | 0 <= i < |calls| :: calls[i].req.org == org || Apart(calls[i].req.org, org)
    ensures Neighbours(HeardReqs(calls), org)
  {
    if calls != [] { HeardNeighbours(calls[..|calls| - 1], org); }
  }

  /** Isolation of the Redis enforcer, whenever Redis may fail to answer. */
  lemma RedisEnforcerIsolates(l: Limits, window: int, calls: seq<Call>, c: Call)
    requires Millis(window) > 0 && CallsTimely(calls, c.req.t) && c.req.t >= EPOCH
    requires forall i | 0 <= i < |calls| :: calls[i].req.org == c.req.org || Apart(calls[i].req.org, c.req.org)
    ensures CallOk(l, window, calls, c) <==> CallOk(l, window, OnlyCalls(calls, c.req.org), c)
  {
    var org := c.req.org;
    OnlyCallsTimely(calls, org, c.req.t);
    OnlyHeard(calls, org);
    HeardNeighbours(calls, org);
    RedisEnforcerRefines(l, window, calls, c);
    RedisEnforcerRefines(l, window, OnlyCalls(calls, org), c);
    NeighboursUnheard(l, RedisGrid(window), HeardReqs(calls), c.req);
  }

  lemma OtherOnly(q: Req, org: string)
    requires q.org != org
    ensures Only([q], org) == []
  {
    assert [q][..0] == [];
  }

  lemma NotApartPermits(a: string, u: string, b: string, v: string, t: int, g: Grid)
    requires a != b && g.width > 0 && UserHit(Req(t, a, u)) == UserHit(Req(t, b, v))
    ensures !Permits(Limits(0, 1), g, [Req(t, a, u)], Req(t, b, v))
    ensures Permits(Limits(0, 1), g, Only([Req(t, a, u)], b), Req(t, b, v))
  {
    var q, r := Req(t, a, u), Req(t, b, v);
    OtherOnly(q, b);
    assert [q][..0] == [];
    assert UserHits(0, g, [q]) == [UserHit(r)];
    assert [UserHit(r)][..0] == [];
  }

  /** Names that are not apart do interfere: with a limit of one for each user, some user of the one
      organization locks a user of the other out. */
  lemma NotApartInterferes(a: string, b: string, t: int, window: int) returns (q: Req, r: Req)
    requires a != b && !Apart(a, b)
    ensures q == Req(t, a, q.user) && r == Req(t, b, r.user)
    ensures !EnforcerOk(Limits(0, 1), window, [q], r) && EnforcerOk(Limits(0, 1), window, Only([q], b), r)
    ensures Millis(window) > 0 && t >= EPOCH ==>
              !RedisEnforcerOk(Limits(0, 1), window, [q], r) && RedisEnforcerOk(Limits(0, 1), window, Only([q], b), r)
  {
    var u, v := CommonKey(a, b);
    q, r := Req(t, a, u), Req(t, b, v);
    OtherOnly(q, b);
    NotApartPermits(a, u, b, v, t, WindowGrid(window));
    EnforcerRefines(Limits(0, 1), window, [q], r);
    EnforcerRefines(Limits(0, 1), window, [], r);
    if Millis(window) > 0 && t >= EPOCH {
      NotApartPermits(a, u, b, v, t, RedisGrid(window));
      SharedCountersRefine(Limits(0, 1), window, [q], r);
      SharedCountersRefine(Limits(0, 1), window, [], r);
    }
  }
}
