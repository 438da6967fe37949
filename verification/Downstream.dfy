/** The gateway's per-org registry of downstream servers, keyed by slug.
    P is what a per-user provider is made from; I is a built downstream instance. */
module Downstream {
  import opened Wrappers

  /** A shared instance (modes none and org_shared), or a provider with the instances built so far. */
  datatype Entry<P, I> =
    | Shared(ds: I, roles: seq<string>)
    | PerUser(provider: P, users: map<string, I>, roles: seq<string>)

  datatype State<P, I> = State(servers: map<string, Entry<P, I>>, order: seq<string>)

  datatype Lookup<I> = Found(inst: I) | NotFound | BuildFailed

  /** What a provider yields for a user at some moment; None is the provider's error. */
  type Builder<!P, !I> = (P, string) -> Option<I>

  // ----- The registry as a value -----

  ghost predicate WellOrdered<P, I>(r: State<P, I>) {
    && (forall i, j | 0 <= i < j < |r.order| :: r.order[i] != r.order[j])
    && (forall s :: s in r.order <==> s in r.servers)
  }

  function Empty<P, I>(): State<P, I> { State(map[], []) }

  function Linked<P, I>(r: State<P, I>, slug: string, e: Entry<P, I>): State<P, I> {
    State(r.servers[slug := e], if slug in r.servers then r.order else r.order + [slug])
  }

  function Without(order: seq<string>, slug: string): seq<string> {
    if order == [] then []
    else if order[0] == slug then order[1..]
    else [order[0]] + Without(order[1..], slug)
  }

  function Unlinked<P, I>(r: State<P, I>, slug: string): State<P, I> {
    if slug in r.servers then State(r.servers - {slug}, Without(r.order, slug)) else r
  }

  function DropUser<I>(users: map<string, I>, user: string): map<string, I> {
    if user == "" then map[] else users - {user}
  }

  function Dropped<P, I>(r: State<P, I>, slug: string, user: string): State<P, I> {
    if slug in r.servers && r.servers[slug].PerUser? then
      var e := r.servers[slug];
      r.(servers := r.servers[slug := e.(users := DropUser(e.users, user))])
    else r
  }

  /** A lookup with nothing running in between its read and its commit. */
  function Looked<P, I>(r: State<P, I>, slug: string, user: string, build: Builder<P, I>): (State<P, I>, Lookup<I>) {
    if slug !in r.servers then (r, NotFound)
    else
      match r.servers[slug]
      case Shared(ds, _) => (r, Found(ds))
      case PerUser(provider, users, roles) =>
        if user in users then (r, Found(users[user]))
        else
          match build(provider, user)
          case None => (r, BuildFailed)
          case Some(inst) => (r.(servers := r.servers[slug := PerUser(provider, users[user := inst], roles)]),
                              Found(inst))
  }

  function Instances<P, I(==)>(e: Entry<P, I>): set<I> {
    match e
    case Shared(ds, _) => {ds}
    case PerUser(_, users, _) => users.Values
  }

  /** The instances registered under slug. */
  function Held<P, I(==)>(servers: map<string, Entry<P, I>>, slug: string): set<I> {
    if slug in servers then Instances(servers[slug]) else {}
  }

  /** The instances cached for user, or for everyone when no user is named. */
  function HeldFor<I(==)>(users: map<string, I>, user: string): set<I> {
    if user == "" then users.Values else if user in users then {users[user]} else {}
  }

  ghost predicate Closes<I>(closed: seq<I>, gone: set<I>) {
    (forall c | c in closed :: c in gone) && (forall c | c in gone :: c in closed)
  }

  ghost predicate RolesAllow(allowed: seq<string>, have: seq<string>) {
    allowed == [] || exists a :: a in allowed && a in have
  }

  ghost predicate CanAccess<P, I>(r: State<P, I>, slug: string, roles: seq<string>) {
    slug in r.servers && RolesAllow(r.servers[slug].roles, roles)
  }

  ghost function Visible<P, I>(servers: map<string, Entry<P, I>>, order: seq<string>, roles: seq<string>): seq<string> {
    if order == [] then []
    else
      var rest := Visible(servers, order[..|order| - 1], roles);
      var s := order[|order| - 1];
      if s in servers && RolesAllow(servers[s].roles, roles) then rest + [s] else rest
  }

  // ----- What every operation keeps -----

  lemma {:induction false} WithoutRemoves(order: seq<string>, slug: string)
    requires forall i, j | 0 <= i < j < |order| :: order[i] != order[j]
    ensures forall s :: s in Without(order, slug) <==> s in order && s != slug
    ensures forall i, j | 0 <= i < j < |Without(order, slug)| :: Without(order, slug)[i] != Without(order, slug)[j]
  {
    if order != [] {
      assert order == [order[0]] + order[1..];
      if order[0] != slug {
        WithoutRemoves(order[1..], slug);
        var rest := Without(order[1..], slug);
        assert order[0] !in order[1..];
        forall j | 0 <= j < |rest| ensures rest[j] != order[0] { assert rest[j] in rest; }
        forall i, j | 0 <= i < j < |rest| + 1 ensures ([order[0]] + rest)[i] != ([order[0]] + rest)[j] {
          assert rest[j - 1] in rest;
        }
      } else {
        assert forall i | 0 <= i < |order[1..]| :: order[1..][i] == order[i + 1];
      }
    }
  }

  lemma LinkedKeepsOrder<P, I>(r: State<P, I>, slug: string, e: Entry<P, I>)
    requires WellOrdered(r)
    ensures WellOrdered(Linked(r, slug, e))
    ensures r.order <= Linked(r, slug, e).order
    ensures forall s :: s in Linked(r, slug, e).order <==> s in r.order || s == slug
  {
  }

  lemma UnlinkedKeepsOrder<P, I>(r: State<P, I>, slug: string)
    requires WellOrdered(r)
    ensures WellOrdered(Unlinked(r, slug))
  {
    WithoutRemoves(r.order, slug);
  }

  lemma DroppedKeepsOrder<P, I>(r: State<P, I>, slug: string, user: string)
    requires WellOrdered(r)
    ensures WellOrdered(Dropped(r, slug, user))
  {
  }

  lemma LookedKeepsOrder<P, I>(r: State<P, I>, slug: string, user: string, build: Builder<P, I>)
    requires WellOrdered(r)
    ensures WellOrdered(Looked(r, slug, user, build).0)
  {
  }

  // ----- What is closed is what leaves the registry -----

  /** The entry holds the instance, for everyone or for some user. */
  ghost predicate HasInstance<P, I>(e: Entry<P, I>, inst: I) {
    match e
    case Shared(ds, _) => ds == inst
    case PerUser(_, users, _) => exists u :: u in users && users[u] == inst
  }

  ghost predicate Registered<P, I>(r: State<P, I>, inst: I) {
    exists s :: s in r.servers && HasInstance(r.servers[s], inst)
  }

  lemma HeldIs<P, I>(r: State<P, I>, slug: string, inst: I)
    ensures inst in Held(r.servers, slug) <==> slug in r.servers && HasInstance(r.servers[slug], inst)
  {
  }

  lemma HeldForIs<I>(users: map<string, I>, user: string, inst: I)
    ensures inst in HeldFor(users, user) <==>
            exists u :: u in users && (user == "" || u == user) && users[u] == inst
  {
    if inst in HeldFor(users, user) {
      var u :| u in users && (user == "" || u == user) && users[u] == inst;
    }
  }

  /** What registering, removing or invalidating takes out of the registry was held under the slug, for the
      user if one is named: none leaves it unclosed. */
  lemma LeavingAreHeld<P, I>(r: State<P, I>, slug: string, e: Entry<P, I>, user: string, inst: I)
    requires Registered(r, inst)
    ensures !Registered(Linked(r, slug, e), inst) ==> inst in Held(r.servers, slug)
    ensures !Registered(Unlinked(r, slug), inst) ==> inst in Held(r.servers, slug)
    ensures !Registered(Dropped(r, slug, user), inst) ==>
              slug in r.servers && r.servers[slug].PerUser? && inst in HeldFor(r.servers[slug].users, user)
  {
    var s :| s in r.servers && HasInstance(r.servers[s], inst);
    if s == slug {
      HeldIs(r, slug, inst);
      if r.servers[slug].PerUser? {
        var users := r.servers[slug].users;
        var u :| u in users && users[u] == inst;
        HeldForIs(users, user, inst);
        if user != "" && u != user {
          assert u in DropUser(users, user) && DropUser(users, user)[u] == inst;
          assert HasInstance(Dropped(r, slug, user).servers[slug], inst);
        }
      } else {
        assert HasInstance(Dropped(r, slug, user).servers[slug], inst);
      }
    } else {
      assert HasInstance(Linked(r, slug, e).servers[s], inst);
      assert HasInstance(Unlinked(r, slug).servers[s], inst);
      assert HasInstance(Dropped(r, slug, user).servers[s], inst);
    }
  }

  /** Subsequences, witnessed by a strictly increasing list of positions. */
  ghost predicate SubsequenceAt(xs: seq<string>, ys: seq<string>, at: seq<nat>) {
    && |at| == |xs|
    && (forall i, j | 0 <= i < j < |at| :: at[i] < at[j])
    && (forall i | 0 <= i < |at| :: at[i] < |ys| && xs[i] == ys[at[i]])
  }

  lemma {:induction false} VisibleMembers<P, I>(servers: map<string, Entry<P, I>>, order: seq<string>,
                                                roles: seq<string>)
    returns (at: seq<nat>)
    ensures forall s :: s in Visible(servers, order, roles) <==>
            s in order && s in servers && RolesAllow(servers[s].roles, roles)
    ensures SubsequenceAt(Visible(servers, order, roles), order, at)
  {
    at := [];
    if order != [] {
      var n := |order| - 1;
      at := VisibleMembers(servers, order[..n], roles);
      assert order == order[..n] + [order[n]];
      if order[n] in servers && RolesAllow(servers[order[n]].roles, roles) {
        at := at + [n];
      }
    }
  }

  /** Listing and access agree, and the listing keeps the order of first registration. */
  lemma VisibleIffAccess<P, I>(r: State<P, I>, roles: seq<string>) returns (at: seq<nat>)
    requires WellOrdered(r)
    ensures forall s :: s in Visible(r.servers, r.order, roles) <==> CanAccess(r, s, roles)
    ensures SubsequenceAt(Visible(r.servers, r.order, roles), r.order, at)
    ensures forall i, j | 0 <= i < j < |Visible(r.servers, r.order, roles)| ::
              Visible(r.servers, r.order, roles)[i] != Visible(r.servers, r.order, roles)[j]
  {
    at := VisibleMembers(r.servers, r.order, roles);
  }

  lemma {:induction false} WithoutAbsent(order: seq<string>, slug: string)
    requires slug !in order
    ensures Without(order, slug) == order
  {
    if order != [] {
      assert order[0] in order && order == [order[0]] + order[1..];
      WithoutAbsent(order[1..], slug);
    }
  }

  lemma {:induction false} WithoutSnoc(order: seq<string>, s: string, slug: string)
    ensures Without(order + [s], slug) ==
            if slug in order then Without(order, slug) + [s] else if s == slug then order else order + [s]
  {
    if order == [] {
      assert [] + [s] == [s] && [s][1..] == [];
    } else {
      assert (order + [s])[1..] == order[1..] + [s] && order == [order[0]] + order[1..];
      WithoutSnoc(order[1..], s, slug);
      if slug !in order { WithoutAbsent(order[1..], slug); }
    }
  }

  lemma {:induction false} VisibleAbsent<P, I>(servers: map<string, Entry<P, I>>, order: seq<string>,
                                               roles: seq<string>, slug: string)
    requires slug !in order
    ensures Visible(servers - {slug}, order, roles) == Visible(servers, order, roles)
  {
    if order != [] {
      var n := |order| - 1;
      assert order[n] in order && order == order[..n] + [order[n]];
      VisibleAbsent(servers, order[..n], roles, slug);
    }
  }

  lemma VisibleSnoc<P, I>(servers: map<string, Entry<P, I>>, order: seq<string>, s: string, roles: seq<string>)
    ensures Visible(servers, order + [s], roles) ==
            if s in servers && RolesAllow(servers[s].roles, roles) then Visible(servers, order, roles) + [s]
            else Visible(servers, order, roles)
  {
    assert (order + [s])[..|order|] == order;
  }

  /** Removing a server takes it out of the listing and leaves the rest in place. */
  lemma {:induction false} VisibleWithout<P, I>(servers: map<string, Entry<P, I>>, order: seq<string>,
                                                roles: seq<string>, slug: string)
    requires forall i, j | 0 <= i < j < |order| :: order[i] != order[j]
    ensures Visible(servers - {slug}, Without(order, slug), roles) == Without(Visible(servers, order, roles), slug)
  {
    if order != [] {
      var n := |order| - 1;
      assert order == order[..n] + [order[n]] && order[n] !in order[..n];
      VisibleWithout(servers, order[..n], roles, slug);
      VisibleWithoutNext(servers, order[..n], order[n], roles, slug);
    }
  }

  lemma VisibleWithoutNext<P, I>(servers: map<string, Entry<P, I>>, p: seq<string>, s: string, roles: seq<string>,
                                 slug: string)
    requires s !in p
    requires Visible(servers - {slug}, Without(p, slug), roles) == Without(Visible(servers, p, roles), slug)
    ensures Visible(servers - {slug}, Without(p + [s], slug), roles) ==
            Without(Visible(servers, p + [s], roles), slug)
  {
    var shown := Visible(servers, p, roles);
    WithoutSnoc(p, s, slug);
    WithoutSnoc(shown, s, slug);
    VisibleSnoc(servers, p, s, roles);
    var at := VisibleMembers(servers, p, roles);
    if slug in p {
      VisibleSnoc(servers - {slug}, Without(p, slug), s, roles);
      if slug !in shown { WithoutAbsent(shown, slug); }
    } else {
      VisibleAbsent(servers, p, roles, slug);
      WithoutAbsent(shown, slug);
      VisibleSnoc(servers - {slug}, p, s, roles);
    }
  }

  // ----- The registry as the gateway holds it -----

  method AnyRole(allowed: seq<string>, have: seq<string>) returns (ok: bool)
    ensures ok <==> RolesAllow(allowed, have)
  {
    if |allowed| == 0 { return true; }
    for i := 0 to |allowed|
      invariant forall a | a in allowed[..i] :: a !in have
    {
      for j := 0 to |have|
        invariant allowed[i] !in have[..j]
      {
        if allowed[i] == have[j] {
          assert allowed[i] in allowed && allowed[i] in have;
          return true;
        }
      }
      assert have[..|have|] == have;
    }
    assert allowed[..|allowed|] == allowed;
    return false;
  }

  /** Every instance an entry holds, in the order closeEntry closes them. */
  method CloseEntry<P, I(==)>(e: Entry<P, I>) returns (closed: seq<I>)
    ensures Closes(closed, Instances(e))
    ensures |closed| == if e.Shared? then 1 else |e.users|
  {
    match e
    case Shared(ds, _) => closed := [ds];
    case PerUser(_, users, _) =>
      closed := [];
      var rest := users.Keys;
      while rest != {}
        invariant rest <= users.Keys
        invariant forall u | u in users.Keys - rest :: users[u] in closed
        invariant forall c | c in closed :: c in users.Values
        invariant |closed| + |rest| == |users|
        decreases rest
      {
        var u :| u in rest;
        closed := closed + [users[u]];
        rest := rest - {u};
      }
  }

  class Registry<P, I(==)> {
    var servers: map<string, Entry<P, I>>
    var order: seq<string>

    ghost predicate Valid() reads this { WellOrdered(View()) }

    ghost function View(): State<P, I> reads this { State(servers, order) }

    constructor ()
      ensures View() == Empty() && Valid()
    {
      servers, order := map[], [];
    }

    method Link(slug: string, e: Entry<P, I>) returns (closed: seq<I>)
      modifies this
      ensures View() == Linked(old(View()), slug, e)
      ensures old(Valid()) ==> Valid()
      ensures Closes(closed, Held(old(servers), slug))
    {
      if Valid() { LinkedKeepsOrder(View(), slug, e); }
      var existed := slug in servers;
      closed := [];
      if existed {
        closed := CloseEntry(servers[slug]);
      } else {
        order := order + [slug];
      }
      servers := servers[slug := e];
    }

    method AddScoped(slug: string, ds: I, roles: seq<string>) returns (closed: seq<I>)
      modifies this
      ensures View() == Linked(old(View()), slug, Shared(ds, roles))
      ensures old(Valid()) ==> Valid()
      ensures Closes(closed, Held(old(servers), slug))
    {
      closed := Link(slug, Shared(ds, roles));
    }

    method AddProvider(slug: string, provider: P, roles: seq<string>) returns (closed: seq<I>)
      modifies this
      ensures View() == Linked(old(View()), slug, PerUser(provider, map[], roles))
      ensures old(Valid()) ==> Valid()
      ensures Closes(closed, Held(old(servers), slug))
    {
      closed := Link(slug, PerUser(provider, map[], roles));
    }

    method Remove(slug: string) returns (closed: seq<I>)
      modifies this
      ensures View() == Unlinked(old(View()), slug)
      ensures old(Valid()) ==> Valid()
      ensures Closes(closed, Held(old(servers), slug))
    {
      if Valid() { UnlinkedKeepsOrder(View(), slug); }
      closed := [];
      if slug !in servers { return; }
      var e := servers[slug];
      servers := servers - {slug};
      var i := 0;
      while i < |order| && order[i] != slug
        invariant i <= |order| && slug !in order[..i]
      {
        i := i + 1;
      }
      WithoutAt(order, slug, i);
      if i < |order| {
        order := order[..i] + order[i + 1..];
      }
      closed := CloseEntry(e);
    }

    method Invalidate(slug: string, user: string) returns (closed: seq<I>)
      modifies this
      ensures View() == Dropped(old(View()), slug, user)
      ensures old(Valid()) ==> Valid()
      ensures Closes(closed, if slug in old(servers) && old(servers)[slug].PerUser?
                             then HeldFor(old(servers)[slug].users, user) else {})
    {
      closed := [];
      if slug !in servers || servers[slug].Shared? { return; }
      var e := servers[slug];
      if user == "" {
        closed := CloseEntry(e);
        servers := servers[slug := e.(users := map[])];
      } else {
        if user in e.users {
          closed := [e.users[user]];
        }
        servers := servers[slug := e.(users := e.users - {user})];
      }
    }

    method GetForUser(slug: string, user: string, build: Builder<P, I>) returns (found: Lookup<I>)
      modifies this
      ensures (View(), found) == Looked(old(View()), slug, user, build)
      ensures old(Valid()) ==> Valid()
    {
      if slug !in servers { return NotFound; }
      match servers[slug]
      case Shared(ds, _) => return Found(ds);
      case PerUser(provider, users, roles) =>
        if user in users { return Found(users[user]); }
        match build(provider, user)
        case None => return BuildFailed;
        case Some(inst) =>
          servers := servers[slug := PerUser(provider, users[user := inst], roles)];
          return Found(inst);
    }

    method MayUse(slug: string, roles: seq<string>) returns (ok: bool)
      ensures ok <==> CanAccess(View(), slug, roles)
    {
      if slug !in servers { return false; }
      ok := AnyRole(servers[slug].roles, roles);
    }

    method VisibleSlugs(roles: seq<string>) returns (out: seq<string>)
      requires Valid()
      ensures out == Visible(servers, order, roles)
    {
      out := [];
      for i := 0 to |order|
        invariant out == Visible(servers, order[..i], roles)
      {
        assert order[i] in order;
        assert order[..i + 1][..i] == order[..i];
        var ok := AnyRole(servers[order[i]].roles, roles);
        if ok { out := out + [order[i]]; }
      }
      assert order[..|order|] == order;
    }
  }

  lemma {:induction false} WithoutAt(order: seq<string>, slug: string, i: nat)
    requires i <= |order| && slug !in order[..i] && (i < |order| ==> order[i] == slug)
    ensures Without(order, slug) == if i < |order| then order[..i] + order[i + 1..] else order
  {
    if i > 0 {
      assert order[0] in order[..i];
      assert order[..i][1..] == order[1..][..i - 1];
      WithoutAt(order[1..], slug, i - 1);
    }
  }
}
