/** What every run of the warm pool keeps, the factory never yielding the same instance twice. */
module PoolSafety {
  import opened Wrappers
  import opened Pool

  ghost predicate Fresh(factory: Factory) {
    forall i, j | 0 <= i < j && factory(i).Some? && factory(j).Some? :: factory(i) != factory(j)
  }

  ghost predicate Steady(clock: Clock) { forall i, j | 0 <= i <= j :: clock(i) <= clock(j) }

  /** How often the first n calls of the factory yielded x. */
  function Created(factory: Factory, n: int, x: Instance): nat {
    if n <= 0 then 0 else Created(factory, n - 1, x) + (if factory(n - 1) == Some(x) then 1 else 0)
  }

  function WarmCopies(xs: seq<Pooled>, x: Instance): nat {
    if xs == [] then 0 else WarmCopies(xs[..|xs| - 1], x) + (if xs[|xs| - 1].inst == x then 1 else 0)
  }

  /** How often x is anywhere: warm, in use or closed. */
  function Places(st: State, x: Instance): nat {
    WarmCopies(st.warm, x) + (if x in st.inUse then 1 else 0) + Copies(st.closed, x)
  }

  /** x is in as many places as it was created times. */
  ghost predicate ConservedAt(factory: Factory, st: State, x: Instance) {
    Places(st, x) == Created(factory, st.made, x)
  }

  /** Nothing is lost, duplicated or made up. */
  ghost predicate Conserved(factory: Factory, st: State) {
    st.made >= 0 && forall x :: ConservedAt(factory, st, x)
  }

  ghost predicate Fits(cfg: Config, st: State) {
    Total(st) <= cfg.maxSize && forall x | x in st.inUse :: st.inUse[x].inst == x
  }

  ghost predicate Sorted(xs: seq<Pooled>) { forall i, j | 0 <= i < j < |xs| :: xs[i].lastUsed <= xs[j].lastUsed }

  ghost predicate Past(xs: seq<Pooled>, now: int) { forall i | 0 <= i < |xs| :: xs[i].lastUsed <= now }

  /** The warm instances are in order of last use, the most recent last. */
  ghost predicate Ordered(clock: Clock, st: State) {
    st.ticks >= 0 && Sorted(st.warm) && Past(st.warm, clock(st.ticks))
  }

  ghost predicate Inv(cfg: Config, factory: Factory, clock: Clock, st: State) {
    Conserved(factory, st) && Fits(cfg, st) && Ordered(clock, st)
  }

  lemma {:induction false} NotYetCreated(factory: Factory, n: int, m: int, x: Instance)
    requires Fresh(factory) && 0 <= n <= m && factory(m) == Some(x)
    ensures Created(factory, n, x) == 0
  {
    if n > 0 {
      NotYetCreated(factory, n - 1, m, x);
      assert factory(n - 1).Some? && n - 1 < m ==> factory(n - 1) != factory(m);
    }
  }

  lemma {:induction false} CreatedOnce(factory: Factory, n: int, x: Instance)
    requires Fresh(factory) && n >= 0
    ensures Created(factory, n, x) <= 1
  {
    if n > 0 {
      CreatedOnce(factory, n - 1, x);
      if factory(n - 1) == Some(x) { NotYetCreated(factory, n - 1, n - 1, x); }
    }
  }

  /** An instance is in at most one place, and there once; one that was created is in exactly one. */
  lemma OnePlace(factory: Factory, st: State, x: Instance)
    requires Fresh(factory) && Conserved(factory, st)
    ensures Places(st, x) <= 1 && (Places(st, x) == 1 <==> Created(factory, st.made, x) > 0)
  {
    CreatedOnce(factory, st.made, x);
    assert ConservedAt(factory, st, x);
  }

  // ----- Counting -----

  lemma WarmSnoc(xs: seq<Pooled>, p: Pooled, x: Instance)
    ensures WarmCopies(xs + [p], x) == WarmCopies(xs, x) + (if p.inst == x then 1 else 0)
  {
    assert (xs + [p])[..|xs|] == xs;
  }

  lemma {:induction false} CopiesConcat(a: seq<Instance>, b: seq<Instance>, x: Instance)
    ensures Copies(a + b, x) == Copies(a, x) + Copies(b, x)
  {
    if b == [] {
      assert a + b == a;
    } else {
      var n := |b| - 1;
      CopiesConcat(a, b[..n], x);
      CopiesSnoc(a + b[..n], b[n], x);
      assert (a + b[..n]) + [b[n]] == a + b;
    }
  }

  lemma {:induction false} CopiesInsts(xs: seq<Pooled>, x: Instance)
    ensures Copies(Insts(xs), x) == WarmCopies(xs, x)
  {
    if xs != [] {
      var n := |xs| - 1;
      CopiesInsts(xs[..n], x);
      CopiesSnoc(Insts(xs[..n]), xs[n].inst, x);
      assert Insts(xs) == Insts(xs[..n]) + [xs[n].inst];
    }
  }

  lemma {:induction false} CopiesIn(xs: seq<Instance>, x: Instance)
    ensures x in xs <==> Copies(xs, x) > 0
  {
    if xs != [] {
      var n := |xs| - 1;
      CopiesIn(xs[..n], x);
      assert xs == xs[..n] + [xs[n]];
    }
  }

  lemma {:induction false} KeptAndShut(xs: seq<Pooled>, k: nat, cutoff: int, x: Instance)
    ensures WarmCopies(Kept(xs, k, cutoff), x) + WarmCopies(Shut(xs, k, cutoff), x) == WarmCopies(xs, x)
  {
    if |xs| > k {
      var n := |xs| - 1;
      KeptAndShut(xs[..n], k, cutoff, x);
      var kept, shut := Kept(xs[..n], k, cutoff), Shut(xs[..n], k, cutoff);
      WarmSnoc(kept, xs[n], x);
      WarmSnoc(shut, xs[n], x);
      assert kept + [] == kept && shut + [] == shut;
    }
  }

  // ----- Reaping in closed form -----

  /** Where the block that goes ends: before the first recent one. */
  lemma BlockEnd(xs: seq<Pooled>, k: nat, cutoff: int) returns (j: nat)
    requires Sorted(xs) && k <= |xs|
    ensures k <= j <= |xs|
    ensures (forall i | k <= i < j :: xs[i].lastUsed <= cutoff) && (forall i | j <= i < |xs| :: xs[i].lastUsed > cutoff)
  {
    j := k;
    while j < |xs| && xs[j].lastUsed <= cutoff
      invariant k <= j <= |xs|
      invariant forall i | k <= i < j :: xs[i].lastUsed <= cutoff
    {
      j := j + 1;
    }
  }

  lemma {:induction false} StaleGo(xs: seq<Pooled>, k: nat, n: nat, cutoff: int)
    requires k <= n <= |xs| && forall i | k <= i < n :: xs[i].lastUsed <= cutoff
    ensures Kept(xs[..n], k, cutoff) == xs[..k] && Shut(xs[..n], k, cutoff) == xs[k..n]
  {
    if n > k {
      StaleGo(xs, k, n - 1, cutoff);
      KeptSnoc(xs, k, cutoff, n - 1);
      assert xs[..k] + [] == xs[..k] && xs[k..n] == xs[k..n - 1] + [xs[n - 1]];
    }
  }

  lemma {:induction false} RecentStay(xs: seq<Pooled>, k: nat, j: nat, n: nat, cutoff: int)
    requires k <= j <= n <= |xs| && forall i | j <= i < n :: xs[i].lastUsed > cutoff
    ensures Kept(xs[..n], k, cutoff) == Kept(xs[..j], k, cutoff) + xs[j..n] &&
            Shut(xs[..n], k, cutoff) == Shut(xs[..j], k, cutoff)
  {
    if n > j {
      RecentStay(xs, k, j, n - 1, cutoff);
      KeptSnoc(xs, k, cutoff, n - 1);
    }
  }

  /** What is kept and what goes, in one piece each. */
  lemma BlockForm(xs: seq<Pooled>, k: nat, cutoff: int) returns (j: nat)
    requires Sorted(xs) && k <= |xs|
    ensures k <= j <= |xs| && Kept(xs, k, cutoff) == xs[..k] + xs[j..] && Shut(xs, k, cutoff) == xs[k..j]
    ensures (forall i | k <= i < j :: xs[i].lastUsed <= cutoff) && (forall i | j <= i < |xs| :: xs[i].lastUsed > cutoff)
  {
    j := BlockEnd(xs, k, cutoff);
    StaleGo(xs, k, j, cutoff);
    RecentStay(xs, k, j, |xs|, cutoff);
    assert xs[..|xs|] == xs && xs[j..|xs|] == xs[j..];
  }

  /** Of the warm instances k are needed to keep min ready, or all of them if these are too few. */
  ghost predicate Needs(min: int, st: State, k: nat) {
    && k <= |st.warm|
    && (k < |st.warm| ==> k + |st.inUse| >= min)
    && (k > 0 ==> k + |st.inUse| <= min)
  }

  /** Reaping closes one block of warm instances, all of them idle too long, and keeps all before it,
      which are as many as the minimum needs, and all after it, which are recent; the total does not
      fall below the minimum unless it was below already. */
  lemma ReapClosesBlock(cfg: Config, clock: Clock, st: State) returns (k: nat, j: nat)
    requires Ordered(clock, st)
    ensures Needs(cfg.minWarm, st, k) && k <= j <= |st.warm|
    ensures var cutoff, st2 := clock(st.ticks) - cfg.idleTimeout, Reaped(cfg, clock, st);
            && st2.warm == st.warm[..k] + st.warm[j..] && st2.closed == st.closed + Insts(st.warm[k..j])
            && (forall i | k <= i < j :: st.warm[i].lastUsed <= cutoff)
            && (forall i | j <= i < |st.warm| :: st.warm[i].lastUsed > cutoff)
            && st2.inUse == st.inUse && st2.made == st.made
            && Total(st2) >= (if cfg.minWarm < Total(st) then cfg.minWarm else Total(st))
  {
    k := Floor(cfg, st);
    j := BlockForm(st.warm, k, clock(st.ticks) - cfg.idleTimeout);
  }

  // ----- Each operation, seen from one instance -----

  lemma AcquireCounts(cfg: Config, factory: Factory, clock: Clock, st: State, x: Instance)
    requires st.made >= 0 && ConservedAt(factory, st, x)
    requires Acquired(cfg, factory, clock, st).1.Some? ==> Acquired(cfg, factory, clock, st).1.value !in st.inUse
    ensures ConservedAt(factory, Acquired(cfg, factory, clock, st).0, x)
  {
  }

  lemma ReleaseCounts(factory: Factory, clock: Clock, st: State, y: Instance, x: Instance)
    requires ConservedAt(factory, st, x) && (y in st.inUse ==> st.inUse[y].inst == y)
    ensures ConservedAt(factory, Released(clock, st, y), x)
  {
    if y in st.inUse { WarmSnoc(st.warm, st.inUse[y].(lastUsed := clock(st.ticks)), x); }
  }

  lemma ReapCounts(cfg: Config, factory: Factory, clock: Clock, st: State, x: Instance)
    requires ConservedAt(factory, st, x)
    ensures ConservedAt(factory, Reaped(cfg, clock, st), x)
  {
    var k, cutoff := Floor(cfg, st), clock(st.ticks) - cfg.idleTimeout;
    KeptAndShut(st.warm, k, cutoff, x);
    ClosingSome(st, Kept(st.warm, k, cutoff), Shut(st.warm, k, cutoff), st.ticks + 1, x);
  }

  lemma ClosingSome(st: State, kept: seq<Pooled>, shut: seq<Pooled>, ticks: int, x: Instance)
    requires WarmCopies(kept, x) + WarmCopies(shut, x) == WarmCopies(st.warm, x)
    ensures Places(st.(warm := kept, closed := st.closed + Insts(shut), ticks := ticks), x) == Places(st, x)
  {
    CopiesConcat(st.closed, Insts(shut), x);
    CopiesInsts(shut, x);
  }

  lemma CloseCounts(factory: Factory, st: State, order: seq<Instance>, x: Instance)
    requires ConservedAt(factory, st, x) && Enumerates(order, st.inUse.Keys)
    ensures ConservedAt(factory, Emptied(st, order), x)
  {
    CopiesConcat(st.closed + Insts(st.warm), order, x);
    CopiesConcat(st.closed, Insts(st.warm), x);
    CopiesInsts(st.warm, x);
  }

  // ----- Each operation -----

  /** Using an instance now and putting it on the stack keeps the order. */
  lemma PushOrdered(clock: Clock, warm: seq<Pooled>, p: Pooled, ticks: int)
    requires clock(ticks) <= clock(ticks + 1) && Sorted(warm) && Past(warm, clock(ticks)) && p.lastUsed == clock(ticks)
    ensures Sorted(warm + [p]) && Past(warm + [p], clock(ticks + 1))
  {
  }

  /** Taking any block out keeps it too. */
  lemma PartOrdered(clock: Clock, warm: seq<Pooled>, k: nat, j: nat, ticks: int)
    requires clock(ticks) <= clock(ticks + 1) && Sorted(warm) && Past(warm, clock(ticks)) && k <= j <= |warm|
    ensures Sorted(warm[..k] + warm[j..]) && Past(warm[..k] + warm[j..], clock(ticks + 1))
  {
  }

  function Prewarm1(st: State, p: Pooled): State {
    st.(warm := st.warm + [p], made := st.made + 1, ticks := st.ticks + 1)
  }

  /** One turn of Prewarm's loop. */
  lemma CreateKeeps(cfg: Config, factory: Factory, clock: Clock, st: State, p: Pooled)
    requires clock(st.ticks) <= clock(st.ticks + 1) && Inv(cfg, factory, clock, st) && Total(st) < cfg.maxSize
    requires factory(st.made) == Some(p.inst) && p.lastUsed == clock(st.ticks)
    ensures Inv(cfg, factory, clock, Prewarm1(st, p))
  {
    forall x ensures ConservedAt(factory, Prewarm1(st, p), x) {
      assert ConservedAt(factory, st, x);
      WarmSnoc(st.warm, p, x);
    }
    PushOrdered(clock, st.warm, p, st.ticks);
  }

  lemma FailedCreate(cfg: Config, factory: Factory, clock: Clock, st: State)
    requires Inv(cfg, factory, clock, st) && factory(st.made).None?
    ensures Inv(cfg, factory, clock, st.(made := st.made + 1))
  {
    var st2 := st.(made := st.made + 1);
    forall x ensures ConservedAt(factory, st2, x) { assert ConservedAt(factory, st, x); }
  }

  lemma {:induction false} PrewarmKeeps(cfg: Config, factory: Factory, clock: Clock, st: State)
    requires Steady(clock) && cfg.minWarm <= cfg.maxSize && Inv(cfg, factory, clock, st)
    ensures var st2 := Prewarmed(cfg, factory, clock, st);
            Inv(cfg, factory, clock, st2) && st2.inUse == st.inUse && st2.closed == st.closed
    decreases cfg.minWarm - Total(st)
  {
    if Total(st) < cfg.minWarm {
      match factory(st.made)
      case None => FailedCreate(cfg, factory, clock, st);
      case Some(x) =>
        var p := Pooled(x, clock(st.ticks));
        CreateKeeps(cfg, factory, clock, st, p);
        PrewarmKeeps(cfg, factory, clock, Prewarm1(st, p));
    }
  }

  /** Whom Acquire takes, nobody holds and nobody closed. */
  lemma AcquireTakesFree(cfg: Config, factory: Factory, clock: Clock, st: State, x: Instance)
    requires Fresh(factory) && Conserved(factory, st) && Acquired(cfg, factory, clock, st).1 == Some(x)
    ensures x !in st.inUse && Copies(st.closed, x) == 0
  {
    OnePlace(factory, st, x);
    if st.warm == [] { NotYetCreated(factory, st.made, st.made, x); }
  }

  lemma AcquireKeeps(cfg: Config, factory: Factory, clock: Clock, st: State)
    requires clock(st.ticks) <= clock(st.ticks + 1) && Inv(cfg, factory, clock, st)
    requires Acquired(cfg, factory, clock, st).1.Some? ==> Acquired(cfg, factory, clock, st).1.value !in st.inUse
    ensures Inv(cfg, factory, clock, Acquired(cfg, factory, clock, st).0)
  {
    var st2 := Acquired(cfg, factory, clock, st).0;
    forall x ensures ConservedAt(factory, st2, x) {
      assert ConservedAt(factory, st, x);
      AcquireCounts(cfg, factory, clock, st, x);
    }
    if st.warm != [] {
      var n := |st.warm| - 1;
      PartOrdered(clock, st.warm, n, n + 1, st.ticks);
      assert st.warm[..n] + st.warm[n + 1..] == st.warm[..n];
    }
  }

  lemma ReleaseKeeps(cfg: Config, factory: Factory, clock: Clock, st: State, y: Instance)
    requires clock(st.ticks) <= clock(st.ticks + 1) && Inv(cfg, factory, clock, st)
    ensures Inv(cfg, factory, clock, Released(clock, st, y))
  {
    forall x ensures ConservedAt(factory, Released(clock, st, y), x) {
      assert ConservedAt(factory, st, x);
      ReleaseCounts(factory, clock, st, y, x);
    }
    if y in st.inUse {
      PushOrdered(clock, st.warm, st.inUse[y].(lastUsed := clock(st.ticks)), st.ticks);
      assert |st.inUse - {y}| == |st.inUse| - 1 by { assert (st.inUse - {y})[y := st.inUse[y]] == st.inUse; }
    }
  }

  lemma ReapKeeps(cfg: Config, factory: Factory, clock: Clock, st: State)
    requires clock(st.ticks) <= clock(st.ticks + 1) && Inv(cfg, factory, clock, st)
    ensures Inv(cfg, factory, clock, Reaped(cfg, clock, st))
  {
    forall x ensures ConservedAt(factory, Reaped(cfg, clock, st), x) {
      assert ConservedAt(factory, st, x);
      ReapCounts(cfg, factory, clock, st, x);
    }
    var k, j := ReapClosesBlock(cfg, clock, st);
    PartOrdered(clock, st.warm, k, j, st.ticks);
  }

  lemma CloseKeeps(cfg: Config, factory: Factory, clock: Clock, st: State, order: seq<Instance>)
    requires cfg.maxSize >= 0 && Inv(cfg, factory, clock, st) && Enumerates(order, st.inUse.Keys)
    ensures Inv(cfg, factory, clock, Emptied(st, order))
  {
    forall x ensures ConservedAt(factory, Emptied(st, order), x) {
      assert ConservedAt(factory, st, x);
      CloseCounts(factory, st, order, x);
    }
  }

  // ----- Every run -----

  datatype Op = DoPrewarm | DoAcquire | DoRelease(x: Instance) | DoReap | DoClose(order: seq<Instance>)

  ghost predicate Possible(st: State, op: Op) { op.DoClose? ==> Enumerates(op.order, st.inUse.Keys) }

  /** The new state, and the instance handed out if any. */
  function Step(cfg: Config, factory: Factory, clock: Clock, st: State, op: Op): (State, Option<Instance>) {
    match op
    case DoPrewarm => (Prewarmed(cfg, factory, clock, st), None)
    case DoAcquire => Acquired(cfg, factory, clock, st)
    case DoRelease(x) => (Released(clock, st, x), None)
    case DoReap => (Reaped(cfg, clock, st), None)
    case DoClose(order) => (Emptied(st, order), None)
  }

  ghost predicate IsRun(cfg: Config, factory: Factory, clock: Clock, run: seq<State>, ops: seq<Op>) {
    && |run| == |ops| + 1 && run[0] == State([], map[], [], 0, 0)
    && forall i | 0 <= i < |ops| :: Moves(cfg, factory, clock, run, ops, i)
  }

  ghost predicate Moves(cfg: Config, factory: Factory, clock: Clock, run: seq<State>, ops: seq<Op>, i: nat)
    requires i < |ops| < |run|
  {
    Possible(run[i], ops[i]) && run[i + 1] == Step(cfg, factory, clock, run[i], ops[i]).0
  }

  /** What holds of the pool between any two operations. */
  ghost predicate Sound(cfg: Config, factory: Factory, clock: Clock) {
    Fresh(factory) && Steady(clock) && cfg == Normal(cfg)
  }

  lemma StepKeepsInv(cfg: Config, factory: Factory, clock: Clock, st: State, op: Op)
    requires Sound(cfg, factory, clock) && Inv(cfg, factory, clock, st) && Possible(st, op)
    ensures Inv(cfg, factory, clock, Step(cfg, factory, clock, st, op).0)
  {
    assert clock(st.ticks) <= clock(st.ticks + 1);
    match op
    case DoPrewarm => PrewarmKeeps(cfg, factory, clock, st);
    case DoAcquire =>
      var r := Acquired(cfg, factory, clock, st).1;
      if r.Some? { AcquireTakesFree(cfg, factory, clock, st, r.value); }
      AcquireKeeps(cfg, factory, clock, st);
    case DoRelease(x) => ReleaseKeeps(cfg, factory, clock, st, x);
    case DoReap => ReapKeeps(cfg, factory, clock, st);
    case DoClose(order) => CloseKeeps(cfg, factory, clock, st, order);
  }

  lemma {:induction false} PrewarmLeaves(cfg: Config, factory: Factory, clock: Clock, st: State)
    ensures var st2 := Prewarmed(cfg, factory, clock, st); st2.inUse == st.inUse && st2.closed == st.closed
    decreases cfg.minWarm - Total(st)
  {
    if Total(st) < cfg.minWarm && factory(st.made).Some? {
      PrewarmLeaves(cfg, factory, clock, Prewarm1(st, Pooled(factory(st.made).value, clock(st.ticks))));
    }
  }

  /** What a step makes of one instance: closed it stays closed, in use it stays so unless it is
      released or everything is closed. */
  lemma StepOn(cfg: Config, factory: Factory, clock: Clock, st: State, op: Op, x: Instance)
    requires Possible(st, op)
    ensures var (st2, r) := Step(cfg, factory, clock, st, op);
            && Copies(st2.closed, x) >= Copies(st.closed, x)
            && (r == Some(x) ==> op == DoAcquire && x in st2.inUse)
            && (x in st.inUse && op != DoRelease(x) ==> x in st2.inUse || Copies(st2.closed, x) > 0)
  {
    match op
    case DoPrewarm => PrewarmLeaves(cfg, factory, clock, st);
    case DoReap =>
      CopiesConcat(st.closed, Insts(Shut(st.warm, Floor(cfg, st), clock(st.ticks) - cfg.idleTimeout)), x);
    case DoClose(order) =>
      CopiesConcat(st.closed + Insts(st.warm), order, x);
      CopiesConcat(st.closed, Insts(st.warm), x);
    case _ =>
  }

  /** In every run: never more instances than there is room for, each created instance in exactly one
      place, the warm ones in order of last use. */
  lemma {:induction false} RunKeepsInv(cfg: Config, factory: Factory, clock: Clock, run: seq<State>, ops: seq<Op>,
                                       n: nat)
    requires Sound(cfg, factory, clock) && IsRun(cfg, factory, clock, run, ops) && n <= |ops|
    ensures Inv(cfg, factory, clock, run[n])
  {
    if n == 0 {
      assert forall x :: ConservedAt(factory, run[0], x);
    } else {
      RunKeepsInv(cfg, factory, clock, run, ops, n - 1);
      assert Moves(cfg, factory, clock, run, ops, n - 1);
      StepKeepsInv(cfg, factory, clock, run[n - 1], ops[n - 1]);
    }
  }

  /** What is handed out was neither in use nor closed, and is in use from then on. */
  lemma HandsOut(cfg: Config, factory: Factory, clock: Clock, run: seq<State>, ops: seq<Op>, i: nat, x: Instance)
    requires Sound(cfg, factory, clock) && IsRun(cfg, factory, clock, run, ops) && i < |ops|
    requires Step(cfg, factory, clock, run[i], ops[i]).1 == Some(x)
    ensures x !in run[i].inUse && Copies(run[i].closed, x) == 0 && x in run[i + 1].inUse
  {
    RunKeepsInv(cfg, factory, clock, run, ops, i);
    assert Moves(cfg, factory, clock, run, ops, i);
    StepOn(cfg, factory, clock, run[i], ops[i], x);
    AcquireTakesFree(cfg, factory, clock, run[i], x);
  }

  /** Without a release, an instance in use or closed stays one or the other; closed, it stays closed. */
  lemma {:induction false} StaysTaken(cfg: Config, factory: Factory, clock: Clock, run: seq<State>, ops: seq<Op>,
                                      i: nat, j: nat, x: Instance)
    requires IsRun(cfg, factory, clock, run, ops) && i <= j <= |ops|
    ensures Copies(run[j].closed, x) >= Copies(run[i].closed, x)
    ensures (x in run[i].inUse || Copies(run[i].closed, x) > 0) && (forall k | i <= k < j :: ops[k] != DoRelease(x)) ==>
              x in run[j].inUse || Copies(run[j].closed, x) > 0
    decreases j - i
  {
    if i < j {
      assert Moves(cfg, factory, clock, run, ops, i);
      StepOn(cfg, factory, clock, run[i], ops[i], x);
      StaysTaken(cfg, factory, clock, run, ops, i + 1, j, x);
    }
  }

  /** Once closed, an instance is never handed out again, nor is it closed again. */
  lemma ClosedForGood(cfg: Config, factory: Factory, clock: Clock, run: seq<State>, ops: seq<Op>, i: nat, j: nat,
                      x: Instance)
    requires Sound(cfg, factory, clock) && IsRun(cfg, factory, clock, run, ops) && i <= j < |ops| && x in run[i].closed
    ensures Step(cfg, factory, clock, run[j], ops[j]).1 != Some(x) && Copies(run[j].closed, x) == 1
    ensures x !in run[j].inUse
  {
    CopiesIn(run[i].closed, x);
    StaysTaken(cfg, factory, clock, run, ops, i, j, x);
    RunKeepsInv(cfg, factory, clock, run, ops, j);
    OnePlace(factory, run[j], x);
    if Step(cfg, factory, clock, run[j], ops[j]).1 == Some(x) { HandsOut(cfg, factory, clock, run, ops, j, x); }
  }

  /** Between two acquisitions of one instance it was released: it is never held twice at once. */
  lemma HeldByOne(cfg: Config, factory: Factory, clock: Clock, run: seq<State>, ops: seq<Op>, i: nat, j: nat,
                  x: Instance)
    requires Sound(cfg, factory, clock) && IsRun(cfg, factory, clock, run, ops) && i < j < |ops|
    requires Step(cfg, factory, clock, run[i], ops[i]).1 == Some(x) &&
             Step(cfg, factory, clock, run[j], ops[j]).1 == Some(x)
    ensures exists k :: i < k < j && ops[k] == DoRelease(x)
  {
    HandsOut(cfg, factory, clock, run, ops, i, x);
    HandsOut(cfg, factory, clock, run, ops, j, x);
    if forall k | i + 1 <= k < j :: ops[k] != DoRelease(x) {
      StaysTaken(cfg, factory, clock, run, ops, i + 1, j, x);
    }
  }

  /** When there is a warm instance, the one acquired is one most recently used. */
  lemma AcquiresMostRecent(cfg: Config, factory: Factory, clock: Clock, run: seq<State>, ops: seq<Op>, n: nat)
    requires Sound(cfg, factory, clock) && IsRun(cfg, factory, clock, run, ops) && n <= |ops| && run[n].warm != []
    ensures var r := Acquired(cfg, factory, clock, run[n]).1;
            r.Some? && exists p :: p in run[n].warm && p.inst == r.value &&
                                   forall q | q in run[n].warm :: q.lastUsed <= p.lastUsed
  {
    RunKeepsInv(cfg, factory, clock, run, ops, n);
    var warm := run[n].warm;
    var p := warm[|warm| - 1];
    assert p in warm;
    forall q | q in warm ensures q.lastUsed <= p.lastUsed {
      var i :| 0 <= i < |warm| && warm[i] == q;
    }
  }

  /** After prewarming, the minimum is ready unless the factory failed. */
  lemma {:induction false} PrewarmReaches(cfg: Config, factory: Factory, clock: Clock, st: State)
    requires forall i | i >= st.made :: factory(i).Some?
    ensures Total(Prewarmed(cfg, factory, clock, st)) == if Total(st) >= cfg.minWarm then Total(st) else cfg.minWarm
    decreases cfg.minWarm - Total(st)
  {
    if Total(st) < cfg.minWarm {
      var p := Pooled(factory(st.made).value, clock(st.ticks));
      PrewarmReaches(cfg, factory, clock, st.(warm := st.warm + [p], made := st.made + 1, ticks := st.ticks + 1));
    }
  }

  // ----- What each operation does -----

  /** The settings in force: room as asked for, but for one at least, and as much kept warm as asked for, but
      no more than there is room for. */
  lemma NormalSettings(cfg: Config)
    ensures var c := Normal(cfg);
            && c.maxSize >= 1 && (cfg.maxSize >= 1 ==> c.maxSize == cfg.maxSize)
            && (cfg.maxSize < 1 ==> c.maxSize == 1)
            && c.minWarm <= c.maxSize && (cfg.minWarm <= c.maxSize ==> c.minWarm == cfg.minWarm)
            && (cfg.minWarm > c.maxSize ==> c.minWarm == c.maxSize)
            && c.idleTimeout == cfg.idleTimeout && Normal(c) == c
  {
  }

  /** But for x, what is in use is as it was. */
  ghost predicate OthersInUse(st: State, st2: State, x: Instance) {
    forall y | y != x :: (y in st2.inUse <==> y in st.inUse) && (y in st.inUse ==> st2.inUse[y] == st.inUse[y])
  }

  /** Acquire hands out the top of the stack, or a new instance when there is none and there is room and the
      factory makes one; otherwise it fails and changes nothing but the count of calls. */
  lemma AcquireEffect(cfg: Config, factory: Factory, clock: Clock, st: State)
    ensures var (st2, r) := Acquired(cfg, factory, clock, st);
            && (r.Some? <==> st.warm != [] || (|st.inUse| < cfg.maxSize && factory(st.made).Some?))
            && (r.Some? && st.warm != [] ==>
                  st.warm == st2.warm + [st.warm[|st.warm| - 1]] && r.value == st.warm[|st.warm| - 1].inst)
            && (r.Some? && st.warm == [] ==> st2.warm == [] && r == factory(st.made))
            && (r.Some? ==> r.value in st2.inUse && st2.inUse[r.value] == Pooled(r.value, clock(st.ticks)) &&
                            OthersInUse(st, st2, r.value))
            && (r.None? ==> st2.warm == st.warm && st2.inUse == st.inUse)
            && st2.closed == st.closed
            && st2.made == st.made + (if st.warm == [] && |st.inUse| < cfg.maxSize then 1 else 0)
  {
  }

  /** Release puts an instance in use on top of the stack, used now; one not in use is ignored. */
  lemma ReleaseEffect(clock: Clock, st: State, x: Instance)
    requires x in st.inUse ==> st.inUse[x].inst == x
    ensures var st2 := Released(clock, st, x);
            && (x !in st.inUse ==> st2 == st)
            && (x in st.inUse ==> x !in st2.inUse && st2.warm == st.warm + [Pooled(x, clock(st.ticks))])
            && OthersInUse(st, st2, x) && st2.closed == st.closed && st2.made == st.made
  {
  }

  /** In every run, what is released is what is acquired next, the rest of the pool being as it was. */
  lemma ReleasedIsAcquiredNext(cfg: Config, factory: Factory, clock: Clock, run: seq<State>, ops: seq<Op>, n: nat,
                               x: Instance)
    requires Sound(cfg, factory, clock) && IsRun(cfg, factory, clock, run, ops) && n + 1 < |ops|
    requires ops[n] == DoRelease(x) && ops[n + 1] == DoAcquire && x in run[n].inUse
    ensures Step(cfg, factory, clock, run[n + 1], ops[n + 1]).1 == Some(x)
    ensures run[n + 2].warm == run[n].warm && OthersInUse(run[n], run[n + 2], x) && x in run[n + 2].inUse
  {
    RunKeepsInv(cfg, factory, clock, run, ops, n);
    assert Moves(cfg, factory, clock, run, ops, n) && Moves(cfg, factory, clock, run, ops, n + 1);
    ReleaseEffect(clock, run[n], x);
    AcquireEffect(cfg, factory, clock, run[n + 1]);
  }

  /** Close empties the pool and closes once more each instance for each place it was in. */
  lemma CloseEffect(st: State, order: seq<Instance>, x: Instance)
    requires Enumerates(order, st.inUse.Keys)
    ensures var st2 := Emptied(st, order);
            && st2.warm == [] && st2.inUse == map[] && st2.made == st.made && st2.ticks == st.ticks
            && Copies(st2.closed, x) ==
               Copies(st.closed, x) + WarmCopies(st.warm, x) + (if x in st.inUse then 1 else 0)
  {
    CopiesConcat(st.closed + Insts(st.warm), order, x);
    CopiesConcat(st.closed, Insts(st.warm), x);
    CopiesInsts(st.warm, x);
  }

  /** p is what the factory and the clock yield for place j of the stack, places being filled in turn. */
  predicate MadeFor(factory: Factory, clock: Clock, st: State, j: nat, p: Pooled) {
    factory(st.made + (j - |st.warm|)) == Some(p.inst) && p.lastUsed == clock(st.ticks + (j - |st.warm|))
  }

  /** Prewarming adds to the stack instances as the factory yields them, no more than the minimum calls for;
      it ends with the minimum ready or with the factory's first error. */
  lemma {:induction false} PrewarmEffect(cfg: Config, factory: Factory, clock: Clock, st: State)
    ensures var st2 := Prewarmed(cfg, factory, clock, st);
            var m := |st2.warm| - |st.warm|;
            && m >= 0 && st2.warm[..|st.warm|] == st.warm
            && (forall j | |st.warm| <= j < |st2.warm| :: MadeFor(factory, clock, st, j, st2.warm[j]))
            && st2.inUse == st.inUse && st2.closed == st.closed
            && (m > 0 ==> Total(st2) <= cfg.minWarm)
            && (if Total(st2) >= cfg.minWarm then st2.made == st.made + m
                else factory(st.made + m).None? && st2.made == st.made + m + 1)
    decreases cfg.minWarm - Total(st)
  {
    if Total(st) < cfg.minWarm && factory(st.made).Some? {
      var p := Pooled(factory(st.made).value, clock(st.ticks));
      PrewarmEffect(cfg, factory, clock, Prewarm1(st, p));
      PrewarmOneMore(factory, clock, st, p, Prewarmed(cfg, factory, clock, st).warm);
    }
  }

  lemma PrewarmOneMore(factory: Factory, clock: Clock, st: State, p: Pooled, warm: seq<Pooled>)
    requires MadeFor(factory, clock, st, |st.warm|, p)
    requires |warm| > |st.warm| && warm[..|st.warm| + 1] == st.warm + [p]
    requires forall j | |st.warm| + 1 <= j < |warm| :: MadeFor(factory, clock, Prewarm1(st, p), j, warm[j])
    ensures warm[..|st.warm|] == st.warm
    ensures forall j | |st.warm| <= j < |warm| :: MadeFor(factory, clock, st, j, warm[j])
  {
    var k := |st.warm|;
    assert warm[..k] == warm[..k + 1][..k];
    assert warm[k] == warm[..k + 1][k] == p;
    forall j | k <= j < |warm| ensures MadeFor(factory, clock, st, j, warm[j]) {
      if j > k { assert MadeFor(factory, clock, Prewarm1(st, p), j, warm[j]); }
    }
  }
}
