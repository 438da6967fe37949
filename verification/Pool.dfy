/** The warm pool of sandbox instances: idle ones are kept as a stack, handed out one holder at a time,
    and closed when idle too long. Call number n of the factory yields factory(n), None being its
    error; reading number n of the clock yields clock(n). */
module Pool {
  import opened Wrappers

  /** An instance, known by its identity. */
  datatype Instance = Instance(id: int)

  datatype Config = Config(minWarm: int, maxSize: int, idleTimeout: int)

  datatype Pooled = Pooled(inst: Instance, lastUsed: int)

  /** closed lists the instances whose Close has been called, in order; made and ticks count the calls
      of the factory and the clock. */
  datatype State = State(warm: seq<Pooled>, inUse: map<Instance, Pooled>, closed: seq<Instance>, made: int, ticks: int)

  type Factory = int -> Option<Instance>
  type Clock = int -> int

  /** The settings in force: room for at least one, and no more kept warm than there is room for. */
  function Normal(cfg: Config): Config {
    var size := if cfg.maxSize < 1 then 1 else cfg.maxSize;
    Config(if cfg.minWarm > size then size else cfg.minWarm, size, cfg.idleTimeout)
  }

  function Total(st: State): nat { |st.warm| + |st.inUse| }

  function Insts(xs: seq<Pooled>): (r: seq<Instance>)
    ensures |r| == |xs| && forall i | 0 <= i < |xs| :: r[i] == xs[i].inst
  {
    seq(|xs|, i requires 0 <= i < |xs| => xs[i].inst)
  }

  function Prewarmed(cfg: Config, factory: Factory, clock: Clock, st: State): State
    decreases cfg.minWarm - Total(st)
  {
    if Total(st) >= cfg.minWarm then st
    else
      match factory(st.made)
      case None => st.(made := st.made + 1)
      case Some(x) =>
        Prewarmed(cfg, factory, clock,
                  st.(warm := st.warm + [Pooled(x, clock(st.ticks))], made := st.made + 1, ticks := st.ticks + 1))
  }

  /** The instance handed out; None is an error, of exhaustion or of the factory. */
  function Acquired(cfg: Config, factory: Factory, clock: Clock, st: State): (State, Option<Instance>) {
    if st.warm != [] then
      var n := |st.warm| - 1;
      var x := st.warm[n].inst;
      (st.(warm := st.warm[..n], inUse := st.inUse[x := Pooled(x, clock(st.ticks))], ticks := st.ticks + 1), Some(x))
    else if |st.inUse| >= cfg.maxSize then (st, None)
    else
      match factory(st.made)
      case None => (st.(made := st.made + 1), None)
      case Some(x) =>
        (st.(inUse := st.inUse[x := Pooled(x, clock(st.ticks))], made := st.made + 1, ticks := st.ticks + 1), Some(x))
  }

  function Released(clock: Clock, st: State, x: Instance): State {
    if x !in st.inUse then st
    else
      var p := st.inUse[x].(lastUsed := clock(st.ticks));
      st.(warm := st.warm + [p], inUse := st.inUse - {x}, ticks := st.ticks + 1)
  }

  /** The first k of xs, and of the rest those used after cutoff. */
  function Kept(xs: seq<Pooled>, k: nat, cutoff: int): seq<Pooled> {
    if |xs| <= k then xs
    else
      var n := |xs| - 1;
      Kept(xs[..n], k, cutoff) + (if xs[n].lastUsed > cutoff then [xs[n]] else [])
  }

  /** The others. */
  function Shut(xs: seq<Pooled>, k: nat, cutoff: int): seq<Pooled> {
    if |xs| <= k then []
    else
      var n := |xs| - 1;
      Shut(xs[..n], k, cutoff) + (if xs[n].lastUsed > cutoff then [] else [xs[n]])
  }

  lemma KeptSnoc(xs: seq<Pooled>, k: nat, cutoff: int, i: nat)
    requires i < |xs|
    ensures Kept(xs[..i + 1], k, cutoff) ==
            Kept(xs[..i], k, cutoff) + (if i < k || xs[i].lastUsed > cutoff then [xs[i]] else [])
    ensures Shut(xs[..i + 1], k, cutoff) ==
            Shut(xs[..i], k, cutoff) + (if i < k || xs[i].lastUsed > cutoff then [] else [xs[i]])
  {
    assert xs[..i + 1][..i] == xs[..i];
    assert i < k ==> xs[..i + 1] == xs[..i] + [xs[i]];
  }

  /** How many of the warm instances are needed to keep the minimum ready. */
  function Floor(cfg: Config, st: State): (k: nat)
    ensures k <= |st.warm|
  {
    var k := cfg.minWarm - |st.inUse|;
    if k < 0 then 0 else if k > |st.warm| then |st.warm| else k
  }

  /** The first so many warm instances stay, however old, and of the rest those used recently. */
  function Reaped(cfg: Config, clock: Clock, st: State): State {
    var k, cutoff := Floor(cfg, st), clock(st.ticks) - cfg.idleTimeout;
    st.(warm := Kept(st.warm, k, cutoff), closed := st.closed + Insts(Shut(st.warm, k, cutoff)), ticks := st.ticks + 1)
  }

  /** order is the instances in use, as ranging over the map yields them. */
  function Emptied(st: State, order: seq<Instance>): State {
    st.(warm := [], inUse := map[], closed := st.closed + Insts(st.warm) + order)
  }

  /** How often x occurs in xs. */
  function Copies(xs: seq<Instance>, x: Instance): nat {
    if xs == [] then 0 else Copies(xs[..|xs| - 1], x) + (if xs[|xs| - 1] == x then 1 else 0)
  }

  lemma CopiesSnoc(xs: seq<Instance>, y: Instance, x: Instance)
    ensures Copies(xs + [y], x) == Copies(xs, x) + (if y == x then 1 else 0)
  {
    assert (xs + [y])[..|xs|] == xs;
  }

  /** order holds each of keys once, and nothing else. */
  ghost predicate Enumerates(order: seq<Instance>, keys: set<Instance>) {
    forall x :: Copies(order, x) == if x in keys then 1 else 0
  }

  class Pool {
    const cfg: Config
    const factory: Factory
    const clock: Clock
    var warm: seq<Pooled>
    var inUse: map<Instance, Pooled>
    var made: int
    var ticks: int
    ghost var closed: seq<Instance>

    ghost function View(): State reads this { State(warm, inUse, closed, made, ticks) }

    constructor (cfg: Config, factory: Factory, clock: Clock)
      ensures this.cfg == Normal(cfg) && this.factory == factory && this.clock == clock
      ensures View() == State([], map[], [], 0, 0)
    {
      var c := cfg;
      if c.maxSize < 1 { c := c.(maxSize := 1); }
      if c.minWarm > c.maxSize { c := c.(minWarm := c.maxSize); }
      this.cfg, this.factory, this.clock := c, factory, clock;
      warm, inUse, made, ticks, closed := [], map[], 0, 0, [];
    }

    method Create() returns (x: Option<Instance>)
      modifies this`made
      ensures x == factory(old(made)) && made == old(made) + 1
    {
      x := factory(made);
      made := made + 1;
    }

    method Now() returns (t: int)
      modifies this`ticks
      ensures t == clock(old(ticks)) && ticks == old(ticks) + 1
    {
      t := clock(ticks);
      ticks := ticks + 1;
    }

    method Prewarm() returns (ok: bool)
      modifies this
      ensures View() == Prewarmed(cfg, factory, clock, old(View()))
      ensures ok <==> Total(View()) >= cfg.minWarm
    {
      while |warm| + |inUse| < cfg.minWarm
        invariant Prewarmed(cfg, factory, clock, old(View())) == Prewarmed(cfg, factory, clock, View())
        decreases cfg.minWarm - |warm| - |inUse|
      {
        var x := Create();
        if x.None? { return false; }
        var t := Now();
        warm := warm + [Pooled(x.value, t)];
      }
      return true;
    }

    method Acquire() returns (x: Option<Instance>)
      modifies this
      ensures (View(), x) == Acquired(cfg, factory, clock, old(View()))
    {
      var n := |warm|;
      if n > 0 {
        var p := warm[n - 1];
        warm := warm[..n - 1];
        var t := Now();
        inUse := inUse[p.inst := p.(lastUsed := t)];
        return Some(p.inst);
      }
      if |inUse| >= cfg.maxSize { return None; }
      x := Create();
      if x.None? { return; }
      var t := Now();
      inUse := inUse[x.value := Pooled(x.value, t)];
    }

    method Release(x: Instance)
      modifies this
      ensures View() == Released(clock, old(View()), x)
    {
      if x !in inUse { return; }
      var p := inUse[x];
      inUse := inUse - {x};
      var t := Now();
      warm := warm + [p.(lastUsed := t)];
    }

    method Reap() returns (reaped: nat)
      modifies this
      ensures View() == Reaped(cfg, clock, old(View()))
      ensures reaped == |closed| - |old(closed)|
    {
      var t := Now();
      var kept;
      kept, reaped := Sweep(t - cfg.idleTimeout);
      warm := kept;
    }

    /** Reap's loop: goes through the warm instances, closing those that are to go. */
    method Sweep(cutoff: int) returns (kept: seq<Pooled>, reaped: nat)
      modifies this`closed
      ensures var k := Floor(cfg, View());
              kept == Kept(warm, k, cutoff) && closed == old(closed) + Insts(Shut(warm, k, cutoff)) &&
                reaped == |Shut(warm, k, cutoff)|
    {
      ghost var k := Floor(cfg, View());
      ghost var shut: seq<Pooled> := [];
      kept, reaped := [], 0;
      for i := 0 to |warm|
        invariant kept == Kept(warm[..i], k, cutoff) && (if i <= k then |kept| == i else |kept| >= k)
        invariant shut == Shut(warm[..i], k, cutoff) && closed == old(closed) + Insts(shut) && reaped == |shut|
      {
        KeptSnoc(warm, k, cutoff, i);
        assert |kept| + |inUse| < cfg.minWarm <==> i < k;
        if |kept| + |inUse| < cfg.minWarm || warm[i].lastUsed > cutoff {
          kept := kept + [warm[i]];
          continue;
        }
        closed, shut := closed + [warm[i].inst], shut + [warm[i]];
        reaped := reaped + 1;
      }
      assert warm[..|warm|] == warm;
    }

    method Close() returns (ghost order: seq<Instance>)
      modifies this
      ensures Enumerates(order, old(inUse).Keys) && View() == Emptied(old(View()), order)
    {
      for i := 0 to |warm|
        modifies this`closed
        invariant closed == old(closed) + Insts(warm[..i])
      {
        closed := closed + [warm[i].inst];
        assert Insts(warm[..i + 1]) == Insts(warm[..i]) + [warm[i].inst];
      }
      assert warm[..|warm|] == warm;
      var rest := inUse.Keys;
      order := [];
      while rest != {}
        modifies this`closed
        invariant rest <= inUse.Keys && Enumerates(order, inUse.Keys - rest)
        invariant closed == old(closed) + Insts(warm) + order
        decreases rest
      {
        var x :| x in rest;
        forall y
          ensures Copies(order + [x], y) == if y in inUse.Keys - (rest - {x}) then 1 else 0
        {
          CopiesSnoc(order, x, y);
        }
        closed, order := closed + [x], order + [x];
        rest := rest - {x};
      }
      warm, inUse := [], map[];
    }
  }
}
