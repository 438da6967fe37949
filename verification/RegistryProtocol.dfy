/** The registry under concurrency. A per-user lookup reads under the lock, builds outside it and
    commits under it again; adding, removing and invalidating unlink under the lock and close after
    it. Threads interleave between those phases in any way. An entry's users are a Go map, shared by
    reference, so they live in a heap of maps and an entry holds a map's address. */
module RegistryProtocol {
  import opened Wrappers
  import Downstream

  type Inst = int
  type MapId = int
  type Thread = int

  datatype Entry = Shared(ds: Inst) | PerUser(users: MapId)

  /** What a thread still has to do; a thread with nothing to do is not in the table. */
  datatype Pc =
    | Building(slug: string, user: string)                 // provider running outside the lock
    | Committing(slug: string, user: string, inst: Inst)   // built, about to take the lock again
    | Adding(slug: string, inst: Inst)                     // shared client built, not yet registered
    | ClosingOne(inst: Inst)                               // after unlock: one instance to close
    | ClosingUsers(users: MapId, done: set<string>)        // after unlock: ranging over an unlinked map
    | ClosingList(todo: seq<Inst>)                         // after unlock: instances Invalidate collected

  datatype State = State(
    servers: map<string, Entry>,
    heap: map<MapId, map<string, Inst>>,
    threads: map<Thread, Pc>,
    built: Inst,             // instances are numbered 0, 1, ... as they are built
    closed: seq<Inst>)       // every Close call, in order

  datatype Step =
    | StartGet(t: Thread, slug: string, user: string)
    | BuildOk(t: Thread)
    | BuildErr(t: Thread)
    | Commit(t: Thread)
    | BuildShared(t: Thread, slug: string)
    | LinkShared(t: Thread)
    | LinkProvider(t: Thread, slug: string, mint: MapId)
    | Unlink(t: Thread, slug: string)
    | InvalidateAll(t: Thread, slug: string, listing: seq<string>)
    | InvalidateOne(t: Thread, slug: string, user: string)
    | CloseOne(t: Thread)
    | CloseUser(t: Thread, user: string)
    | CloseNext(t: Thread)
    | Finish(t: Thread)

  ghost predicate Listing(xs: seq<string>, keys: set<string>) {
    && (forall i, j | 0 <= i < j < |xs| :: xs[i] != xs[j])
    && (forall x :: x in xs <==> x in keys)
  }

  predicate HasUsers(s: State, slug: string) {
    slug in s.servers && s.servers[slug].PerUser? && s.servers[slug].users in s.heap
  }

  ghost predicate Enabled(s: State, step: Step) {
    match step
    case StartGet(t, slug, user) =>
      t !in s.threads && HasUsers(s, slug) && user !in s.heap[s.servers[slug].users]
    case BuildOk(t) => t in s.threads && s.threads[t].Building?
    case BuildErr(t) => t in s.threads && s.threads[t].Building?
    case Commit(t) => t in s.threads && s.threads[t].Committing?
    case BuildShared(t, slug) => t !in s.threads
    case LinkShared(t) => t in s.threads && s.threads[t].Adding?
    case LinkProvider(t, slug, mint) => t !in s.threads && mint !in s.heap
    case Unlink(t, slug) => t !in s.threads && slug in s.servers
    case InvalidateAll(t, slug, listing) =>
      t !in s.threads && HasUsers(s, slug) && Listing(listing, s.heap[s.servers[slug].users].Keys)
    case InvalidateOne(t, slug, user) =>
      t !in s.threads && user != "" && HasUsers(s, slug) && user in s.heap[s.servers[slug].users]
    case CloseOne(t) => t in s.threads && s.threads[t].ClosingOne?
    case CloseUser(t, user) =>
      t in s.threads && s.threads[t].ClosingUsers? && s.threads[t].users in s.heap
      && user in s.heap[s.threads[t].users] && user !in s.threads[t].done
    case CloseNext(t) => t in s.threads && s.threads[t].ClosingList? && s.threads[t].todo != []
    case Finish(t) =>
      t in s.threads &&
      match s.threads[t] {
        case ClosingUsers(m, done) => m in s.heap && s.heap[m].Keys <= done
        case ClosingList(todo) => todo == []
        case _ => false
      }
  }

  /** closeEntry's work for an entry that has just left the table. */
  function CloseLater(e: Entry): Pc {
    match e
    case Shared(ds) => ClosingOne(ds)
    case PerUser(m) => ClosingUsers(m, {})
  }

  /** Replaces slug's entry; t goes on to close the one that was there. */
  function Relinked(s: State, t: Thread, slug: string, e: Entry): State {
    s.(servers := s.servers[slug := e],
       threads := if slug in s.servers then s.threads[t := CloseLater(s.servers[slug])] else s.threads - {t})
  }

  function Collected(users: map<string, Inst>, listing: seq<string>): (todo: seq<Inst>)
    requires forall u | u in listing :: u in users
    ensures |todo| == |listing| && forall i | 0 <= i < |listing| :: todo[i] == users[listing[i]]
  {
    seq(|listing|, i requires 0 <= i < |listing| => users[listing[i]])
  }

  ghost function Next(s: State, step: Step): State
    requires Enabled(s, step)
  {
    match step
    case StartGet(t, slug, user) => s.(threads := s.threads[t := Building(slug, user)])
    case BuildOk(t) =>
      var Building(slug, user) := s.threads[t];
      s.(threads := s.threads[t := Committing(slug, user, s.built)], built := s.built + 1)
    case BuildErr(t) => s.(threads := s.threads - {t})
    case Commit(t) =>
      var Committing(slug, user, inst) := s.threads[t];
      if !HasUsers(s, slug) || user in s.heap[s.servers[slug].users]
      then s.(threads := s.threads[t := ClosingOne(inst)])
      else
        var m := s.servers[slug].users;
        s.(heap := s.heap[m := s.heap[m][user := inst]], threads := s.threads - {t})
    case BuildShared(t, slug) => s.(threads := s.threads[t := Adding(slug, s.built)], built := s.built + 1)
    case LinkShared(t) =>
      var Adding(slug, inst) := s.threads[t];
      Relinked(s, t, slug, Shared(inst))
    case LinkProvider(t, slug, mint) =>
      Relinked(s.(heap := s.heap[mint := map[]]), t, slug, PerUser(mint))
    case Unlink(t, slug) =>
      s.(servers := s.servers - {slug}, threads := s.threads[t := CloseLater(s.servers[slug])])
    case InvalidateAll(t, slug, listing) =>
      var m := s.servers[slug].users;
      s.(heap := s.heap[m := map[]], threads := s.threads[t := ClosingList(Collected(s.heap[m], listing))])
    case InvalidateOne(t, slug, user) =>
      var m := s.servers[slug].users;
      s.(heap := s.heap[m := s.heap[m] - {user}], threads := s.threads[t := ClosingList([s.heap[m][user]])])
    case CloseOne(t) => s.(closed := s.closed + [s.threads[t].inst], threads := s.threads - {t})
    case CloseUser(t, user) =>
      var ClosingUsers(m, done) := s.threads[t];
      s.(closed := s.closed + [s.heap[m][user]], threads := s.threads[t := ClosingUsers(m, done + {user})])
    case CloseNext(t) =>
      var todo := s.threads[t].todo;
      s.(closed := s.closed + [todo[0]], threads := s.threads[t := ClosingList(todo[1..])])
    case Finish(t) => s.(threads := s.threads - {t})
  }

  // ----- Where an instance can be -----

  datatype Stage = InFlight | Registered | Detached | Closed

  datatype Place =
    | Flying(t: Thread)
    | SharedSlot(slug: string)
    | UserSlot(slug: string, user: string)
    | ToClose(t: Thread, k: int)
    | ToCloseUser(t: Thread, user: string)
    | ClosedAt(k: int)
  {
    function Stage(): Stage {
      match this
      case Flying(_) => InFlight
      case SharedSlot(_) | UserSlot(_, _) => Registered
      case ToClose(_, _) | ToCloseUser(_, _) => Detached
      case ClosedAt(_) => Closed
    }
  }

  function At(s: State, p: Place): Option<Inst> {
    match p
    case Flying(t) =>
      if t in s.threads && (s.threads[t].Committing? || s.threads[t].Adding?) then Some(s.threads[t].inst) else None
    case SharedSlot(slug) =>
      if slug in s.servers && s.servers[slug].Shared? then Some(s.servers[slug].ds) else None
    case UserSlot(slug, user) =>
      if HasUsers(s, slug) && user in s.heap[s.servers[slug].users]
      then Some(s.heap[s.servers[slug].users][user]) else None
    case ToClose(t, k) =>
      if t !in s.threads then None
      else if s.threads[t].ClosingOne? && k == 0 then Some(s.threads[t].inst)
      else if s.threads[t].ClosingList? && 0 <= k < |s.threads[t].todo| then Some(s.threads[t].todo[k])
      else None
    case ToCloseUser(t, user) =>
      if t in s.threads && s.threads[t].ClosingUsers? && s.threads[t].users in s.heap
         && user in s.heap[s.threads[t].users] && user !in s.threads[t].done
      then Some(s.heap[s.threads[t].users][user]) else None
    case ClosedAt(k) => if 0 <= k < |s.closed| then Some(s.closed[k]) else None
  }

  /** Every map is reachable from at most one entry or closing thread. */
  ghost predicate MapsOwned(s: State) {
    && (forall a | a in s.servers && s.servers[a].PerUser? :: s.servers[a].users in s.heap)
    && (forall t | t in s.threads && s.threads[t].ClosingUsers? :: s.threads[t].users in s.heap)
    && (forall a, b | a in s.servers && b in s.servers && s.servers[a].PerUser? && s.servers[b].PerUser? ::
          s.servers[a].users == s.servers[b].users ==> a == b)
    && (forall t, u | t in s.threads && u in s.threads && s.threads[t].ClosingUsers? && s.threads[u].ClosingUsers? ::
          s.threads[t].users == s.threads[u].users ==> t == u)
    && (forall a, t | a in s.servers && t in s.threads && s.servers[a].PerUser? && s.threads[t].ClosingUsers? ::
          s.servers[a].users != s.threads[t].users)
  }

  ghost predicate Holds(s: State, p: Place, i: Inst) { At(s, p) == Some(i) }

  ghost predicate Somewhere(s: State, i: Inst) { exists p :: Holds(s, p, i) }

  /** Each instance built is in exactly one place. */
  ghost predicate OnePlaceEach(s: State) {
    && 0 <= s.built
    && (forall p, i | Holds(s, p, i) :: 0 <= i < s.built)
    && (forall p, q, i | Holds(s, p, i) && Holds(s, q, i) :: p == q)
    && (forall i | 0 <= i < s.built :: Somewhere(s, i))
  }

  ghost predicate Inv(s: State) { MapsOwned(s) && OnePlaceEach(s) }

  const Initial := State(map[], map[], map[], 0, [])

  ghost predicate IsRun(run: seq<State>, steps: seq<Step>) {
    && |run| == |steps| + 1 && run[0] == Initial
    && forall i | 0 <= i < |steps| :: Enabled(run[i], steps[i]) && run[i + 1] == Next(run[i], steps[i])
  }

  // ----- A step moves instances between places without losing or copying one -----

  /** Where a step takes what is at place p. */
  function To(s: State, step: Step, p: Place): Place {
    match step
    case Commit(t) =>
      if p != Flying(t) || t !in s.threads || !s.threads[t].Committing? then p
      else
        var Committing(slug, user, _) := s.threads[t];
        if !HasUsers(s, slug) || user in s.heap[s.servers[slug].users] then ToClose(t, 0) else UserSlot(slug, user)
    case LinkShared(t) =>
      if t !in s.threads || !s.threads[t].Adding? then p
      else if p == Flying(t) then SharedSlot(s.threads[t].slug)
      else Out(t, s.threads[t].slug, p)
    case LinkProvider(t, slug, _) => Out(t, slug, p)
    case Unlink(t, slug) => Out(t, slug, p)
    case InvalidateAll(t, slug, listing) =>
      if p.UserSlot? && p.slug == slug then ToClose(t, Position(listing, p.user)) else p
    case InvalidateOne(t, slug, user) => if p == UserSlot(slug, user) then ToClose(t, 0) else p
    case CloseOne(t) => if p == ToClose(t, 0) then ClosedAt(|s.closed|) else p
    case CloseUser(t, user) => if p == ToCloseUser(t, user) then ClosedAt(|s.closed|) else p
    case CloseNext(t) =>
      if p == ToClose(t, 0) then ClosedAt(|s.closed|)
      else if p.ToClose? && p.t == t then ToClose(t, p.k - 1) else p
    case _ => p
  }

  /** Where what is at place p after a step was before it. */
  function From(s: State, step: Step, p: Place): Place {
    match step
    case Commit(t) => if p == To(s, step, Flying(t)) then Flying(t) else p
    case LinkShared(t) =>
      if t !in s.threads || !s.threads[t].Adding? then p
      else if p == SharedSlot(s.threads[t].slug) then Flying(t)
      else In(t, s.threads[t].slug, p)
    case LinkProvider(t, slug, _) => In(t, slug, p)
    case Unlink(t, slug) => In(t, slug, p)
    case InvalidateAll(t, slug, listing) =>
      if p.ToClose? && p.t == t && 0 <= p.k < |listing| then UserSlot(slug, listing[p.k]) else p
    case InvalidateOne(t, slug, user) => if p == ToClose(t, 0) then UserSlot(slug, user) else p
    case CloseOne(t) => if p == ClosedAt(|s.closed|) then ToClose(t, 0) else p
    case CloseUser(t, user) => if p == ClosedAt(|s.closed|) then ToCloseUser(t, user) else p
    case CloseNext(t) =>
      if p == ClosedAt(|s.closed|) then ToClose(t, 0)
      else if p.ToClose? && p.t == t then ToClose(t, p.k + 1) else p
    case _ => p
  }

  /** Unlinking slug's entry hands its instances to thread t for closing. */
  function Out(t: Thread, slug: string, p: Place): Place {
    if p == SharedSlot(slug) then ToClose(t, 0)
    else if p.UserSlot? && p.slug == slug then ToCloseUser(t, p.user)
    else p
  }

  function In(t: Thread, slug: string, p: Place): Place {
    if p == ToClose(t, 0) then SharedSlot(slug)
    else if p.ToCloseUser? && p.t == t then UserSlot(slug, p.user)
    else p
  }

  function Position(xs: seq<string>, x: string): (k: nat)
    ensures x in xs ==> k < |xs| && xs[k] == x
  {
    if xs == [] || xs[0] == x then 0 else 1 + Position(xs[1..], x)
  }

  predicate Builds(step: Step) { step.BuildOk? || step.BuildShared? }

  lemma RelinkKeepsMaps(s: State, step: Step)
    requires step.LinkShared? || step.LinkProvider? || step.Unlink?
    requires MapsOwned(s) && Enabled(s, step)
    ensures MapsOwned(Next(s, step))
  {
  }

  lemma NextKeepsMaps(s: State, step: Step)
    requires MapsOwned(s) && Enabled(s, step)
    ensures MapsOwned(Next(s, step))
  {
    match step
    case LinkShared(_) | LinkProvider(_, _, _) | Unlink(_, _) => RelinkKeepsMaps(s, step);
    case _ =>
  }

  /** What is at place p is, after the step, where the step takes it. */
  ghost predicate Forth(s: State, step: Step, p: Place, i: Inst)
    requires Enabled(s, step)
  {
    Holds(s, p, i) ==> Holds(Next(s, step), To(s, step, p), i)
  }

  /** What is at place p after the step came from one place, unless it was just built there. */
  ghost predicate Back(s: State, step: Step, p: Place, i: Inst)
    requires Enabled(s, step)
  {
    Holds(Next(s, step), p, i) && !(Builds(step) && p == Flying(step.t)) ==>
      Holds(s, From(s, step, p), i) && To(s, step, From(s, step, p)) == p
  }

  lemma ThreadForth(s: State, step: Step, p: Place, i: Inst)
    requires step.StartGet? || step.BuildOk? || step.BuildErr? || step.BuildShared? || step.Finish?
    requires MapsOwned(s) && Enabled(s, step)
    ensures Forth(s, step, p, i)
  {
  }

  lemma AddForth(s: State, step: Step, p: Place, i: Inst)
    requires step.LinkShared? || step.LinkProvider?
    requires MapsOwned(s) && Enabled(s, step)
    ensures Forth(s, step, p, i)
  {
  }

  lemma RemoveForth(s: State, step: Step, p: Place, i: Inst)
    requires step.Unlink? || step.Commit?
    requires MapsOwned(s) && Enabled(s, step)
    ensures Forth(s, step, p, i)
  {
  }

  lemma InvalidateForth(s: State, step: Step, p: Place, i: Inst)
    requires step.InvalidateAll? || step.InvalidateOne?
    requires MapsOwned(s) && Enabled(s, step)
    ensures Forth(s, step, p, i)
  {
  }

  lemma CloseForth(s: State, step: Step, p: Place, i: Inst)
    requires step.CloseOne? || step.CloseUser? || step.CloseNext?
    requires MapsOwned(s) && Enabled(s, step)
    ensures Forth(s, step, p, i)
  {
  }

  lemma ThreadBack(s: State, step: Step, p: Place, i: Inst)
    requires step.StartGet? || step.BuildOk? || step.BuildErr? || step.BuildShared? || step.Finish?
    requires MapsOwned(s) && Enabled(s, step)
    ensures Back(s, step, p, i)
  {
  }

  lemma AddBack(s: State, step: Step, p: Place, i: Inst)
    requires step.LinkShared? || step.LinkProvider?
    requires MapsOwned(s) && Enabled(s, step)
    ensures Back(s, step, p, i)
  {
  }

  lemma RemoveBack(s: State, step: Step, p: Place, i: Inst)
    requires step.Unlink? || step.Commit?
    requires MapsOwned(s) && Enabled(s, step)
    ensures Back(s, step, p, i)
  {
  }

  lemma InvalidateBack(s: State, step: Step, p: Place, i: Inst)
    requires step.InvalidateAll? || step.InvalidateOne?
    requires MapsOwned(s) && Enabled(s, step)
    ensures Back(s, step, p, i)
  {
  }

  lemma CloseBack(s: State, step: Step, p: Place, i: Inst)
    requires step.CloseOne? || step.CloseUser? || step.CloseNext?
    requires MapsOwned(s) && Enabled(s, step)
    ensures Back(s, step, p, i)
  {
  }

  lemma NextCarries(s: State, step: Step, p: Place, i: Inst)
    requires MapsOwned(s) && Enabled(s, step)
    ensures Forth(s, step, p, i) && Back(s, step, p, i)
  {
    match step
    case LinkShared(_) | LinkProvider(_, _, _) => AddForth(s, step, p, i); AddBack(s, step, p, i);
    case Unlink(_, _) | Commit(_) => RemoveForth(s, step, p, i); RemoveBack(s, step, p, i);
    case InvalidateAll(_, _, _) | InvalidateOne(_, _, _) =>
      InvalidateForth(s, step, p, i);
      InvalidateBack(s, step, p, i);
    case CloseOne(_) | CloseUser(_, _) | CloseNext(_) => CloseForth(s, step, p, i); CloseBack(s, step, p, i);
    case _ => ThreadForth(s, step, p, i); ThreadBack(s, step, p, i);
  }

  lemma NextKeepsPlaces(s: State, step: Step)
    requires Inv(s) && Enabled(s, step)
    ensures OnePlaceEach(Next(s, step))
  {
    var s2 := Next(s, step);
    assert s.built <= s2.built <= s.built + 1;
    forall i | 0 <= i < s2.built ensures Somewhere(s2, i) {
      if i < s.built {
        assert Somewhere(s, i);
        var p :| Holds(s, p, i);
        NextCarries(s, step, p, i);
      } else {
        assert Holds(s2, Flying(step.t), i);
      }
    }
    forall p, i | Holds(s2, p, i)
      ensures 0 <= i < s2.built
      ensures Builds(step) && p == Flying(step.t) ==> i == s.built
      ensures !(Builds(step) && p == Flying(step.t)) ==>
              Holds(s, From(s, step, p), i) && To(s, step, From(s, step, p)) == p
    {
      NextCarries(s, step, p, i);
      assert Holds(s, From(s, step, p), i) || i == s.built;
    }
  }

  lemma NextKeepsInv(s: State, step: Step)
    requires Inv(s) && Enabled(s, step)
    ensures Inv(Next(s, step))
  {
    NextKeepsMaps(s, step);
    NextKeepsPlaces(s, step);
  }

  lemma {:induction false} RunKeepsInv(run: seq<State>, steps: seq<Step>, i: nat)
    requires IsRun(run, steps) && i <= |steps|
    ensures Inv(run[i])
  {
    if i > 0 {
      RunKeepsInv(run, steps, i - 1);
      NextKeepsInv(run[i - 1], steps[i - 1]);
    }
  }

  // ----- What it means -----

  ghost predicate IsIn(s: State, i: Inst, stage: Stage) {
    exists p: Place :: p.Stage() == stage && Holds(s, p, i)
  }

  /** In every state of every run, every instance built is in flight, registered, detached or
      closed, in one of these only, and no instance has been closed twice. */
  lemma ExactlyOneStage(run: seq<State>, steps: seq<Step>, k: nat, i: Inst)
    requires IsRun(run, steps) && k <= |steps| && 0 <= i < run[k].built
    ensures exists stage :: IsIn(run[k], i, stage)
    ensures forall a, b | IsIn(run[k], i, a) && IsIn(run[k], i, b) :: a == b
    ensures forall x, y | 0 <= x < y < |run[k].closed| :: run[k].closed[x] != run[k].closed[y]
  {
    var s := run[k];
    RunKeepsInv(run, steps, k);
    assert Somewhere(s, i);
    var p :| Holds(s, p, i);
    assert IsIn(s, i, p.Stage());
    forall x, y | 0 <= x < y < |s.closed| ensures s.closed[x] != s.closed[y] {
      assert Holds(s, ClosedAt(x), s.closed[x]) && Holds(s, ClosedAt(y), s.closed[y]);
    }
  }

  /** Once every thread has finished, the instances built are those registered and those closed. */
  lemma QuiescentBalance(run: seq<State>, steps: seq<Step>, k: nat)
    requires IsRun(run, steps) && k <= |steps| && run[k].threads == map[]
    ensures forall i: Inst :: 0 <= i < run[k].built <==> IsIn(run[k], i, Registered) || IsIn(run[k], i, Closed)
    ensures forall i: Inst :: !(IsIn(run[k], i, Registered) && IsIn(run[k], i, Closed))
    ensures run[k].servers == map[] ==> forall i: Inst | 0 <= i < run[k].built :: i in run[k].closed
  {
    var s := run[k];
    RunKeepsInv(run, steps, k);
    forall i: Inst | 0 <= i < s.built
      ensures IsIn(s, i, Registered) || IsIn(s, i, Closed)
      ensures s.servers == map[] ==> i in s.closed
    {
      assert Somewhere(s, i);
      var p :| Holds(s, p, i);
      assert IsIn(s, i, p.Stage());
    }
  }

  /** A map that has left the table, and is being closed, is never written again. */
  lemma UnlinkedMapsAreFrozen(s: State, step: Step, t: Thread)
    requires Inv(s) && Enabled(s, step)
    requires t in s.threads && s.threads[t].ClosingUsers?
    ensures var m := s.threads[t].users;
            m in Next(s, step).heap && Next(s, step).heap[m] == s.heap[m]
  {
  }

  // ----- The locked phases are the registry's operations -----

  function TableEntry(s: State, e: Entry): Downstream.Entry<(), Inst> {
    match e
    case Shared(ds) => Downstream.Shared(ds, [])
    case PerUser(m) => Downstream.PerUser((), if m in s.heap then s.heap[m] else map[], [])
  }

  /** The table with every address replaced by the map it points to. */
  function Table(s: State): map<string, Downstream.Entry<(), Inst>> {
    map slug | slug in s.servers :: TableEntry(s, s.servers[slug])
  }

  ghost function Locked(r: Downstream.State<(), Inst>, s: State, step: Step): Downstream.State<(), Inst>
    requires Enabled(s, step)
  {
    match step
    case Commit(t) =>
      var Committing(slug, user, inst) := s.threads[t];
      Downstream.Looked(r, slug, user, (p, u) => Some(inst)).0
    case LinkShared(t) => Downstream.Linked(r, s.threads[t].slug, Downstream.Shared(s.threads[t].inst, []))
    case LinkProvider(t, slug, _) => Downstream.Linked(r, slug, Downstream.PerUser((), map[], []))
    case Unlink(t, slug) => Downstream.Unlinked(r, slug)
    case InvalidateAll(t, slug, _) => Downstream.Dropped(r, slug, "")
    case InvalidateOne(t, slug, user) => Downstream.Dropped(r, slug, user)
    case _ => r
  }

  lemma LinksRefine(s: State, step: Step, order: seq<string>)
    requires step.LinkShared? || step.LinkProvider? || step.Unlink?
    requires Inv(s) && Enabled(s, step)
    ensures Table(Next(s, step)) == Locked(Downstream.State(Table(s), order), s, step).servers
  {
  }

  lemma CommitRefines(s: State, step: Step, order: seq<string>)
    requires step.Commit?
    requires Inv(s) && Enabled(s, step)
    ensures Table(Next(s, step)) == Locked(Downstream.State(Table(s), order), s, step).servers
  {
  }

  /** Each phase changes the table exactly as the operation it belongs to does when run alone; the
      phases outside the lock do not change it. */
  lemma PhasesRefineOperations(s: State, step: Step, order: seq<string>)
    requires Inv(s) && Enabled(s, step)
    ensures Table(Next(s, step)) == Locked(Downstream.State(Table(s), order), s, step).servers
  {
    match step
    case LinkShared(_) | LinkProvider(_, _, _) | Unlink(_, _) => LinksRefine(s, step, order);
    case Commit(_) => CommitRefines(s, step, order);
    case _ =>
  }
}
