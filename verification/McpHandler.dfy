/** What the gateway answers to tools/list and tools/call over an organization's registry. A listing of a
    downstream instance's tools is a parameter, None being its error; so is whether the caller is within
    quota, and what per-user providers build at the time. */
module McpHandler {
  import opened Wrappers
  import opened Text
  import opened Aggregation
  import opened Downstream

  type Lister<!I> = I -> Option<seq<Tool>>

  /** A refusal, or the downstream instance and tool the call goes to. */
  datatype Reply<I> =
    | RateLimited
    | InvalidParams
    | UnknownTool
    | Unavailable(slug: string)
    | NoCredentials(slug: string)
    | Called(inst: I, tool: string)

  // ----- The two requests -----

  /** Looking the slugs up in turn; those that have an instance which lists its tools are kept. */
  function Reached<P, I>(r: State<P, I>, slugs: seq<string>, user: string, build: Builder<P, I>, lister: Lister<I>)
    : (State<P, I>, seq<ServerTools>)
  {
    if slugs == [] then (r, [])
    else
      var n := |slugs| - 1;
      var (r1, servers) := Reached(r, slugs[..n], user, build, lister);
      var (r2, found) := Looked(r1, slugs[n], user, build);
      (r2, if found.Found? && lister(found.inst).Some?
           then servers + [ServerTools(slugs[n], lister(found.inst).value)] else servers)
  }

  ghost function ListTools<P, I>(r: State<P, I>, user: string, roles: seq<string>, build: Builder<P, I>,
                                 lister: Lister<I>)
    : (State<P, I>, Surface)
  {
    var (r2, servers) := Reached(r, Visible(r.servers, r.order, roles), user, build, lister);
    (r2, Merged(Offers(servers)))
  }

  ghost function CallTool<P, I>(r: State<P, I>, withinQuota: bool, user: string, roles: seq<string>, name: string,
                                build: Builder<P, I>)
    : (State<P, I>, Reply<I>)
  {
    if !withinQuota then (r, RateLimited)
    else if name == "" then (r, InvalidParams)
    else
      var cut := Cut(name, SEPARATOR);
      if !cut.found || !CanAccess(r, cut.before, roles) then (r, UnknownTool)
      else
        var (r2, found) := Looked(r, cut.before, user, build);
        (r2, match found
             case NotFound => Unavailable(cut.before)
             case BuildFailed => NoCredentials(cut.before)
             case Found(inst) => Called(inst, cut.after))
  }

  method AggregateTools<P, I(==)>(reg: Registry<P, I>, user: string, roles: seq<string>, build: Builder<P, I>,
                                  lister: Lister<I>)
    returns (res: Surface)
    requires reg.Valid()
    modifies reg
    ensures (reg.View(), res) == ListTools(old(reg.View()), user, roles, build, lister)
  {
    var servers: seq<ServerTools> := [];
    var slugs := reg.VisibleSlugs(roles);
    for i := 0 to |slugs|
      invariant (reg.View(), servers) == Reached(old(reg.View()), slugs[..i], user, build, lister)
    {
      assert slugs[..i + 1][..i] == slugs[..i];
      var found := reg.GetForUser(slugs[i], user, build);
      if !found.Found? { continue; }
      var tools := lister(found.inst);
      if tools.None? { continue; }
      servers := servers + [ServerTools(slugs[i], tools.value)];
    }
    assert slugs[..|slugs|] == slugs;
    res := Aggregate(servers);
  }

  method ToolsCall<P, I(==)>(reg: Registry<P, I>, withinQuota: bool, user: string, roles: seq<string>, name: string,
                             build: Builder<P, I>)
    returns (reply: Reply<I>)
    modifies reg
    ensures (reg.View(), reply) == CallTool(old(reg.View()), withinQuota, user, roles, name, build)
  {
    if !withinQuota { return RateLimited; }
    if name == "" { return InvalidParams; }
    var cut := Cut(name, SEPARATOR);
    var may := reg.MayUse(cut.before, roles);
    if !cut.found || !may { return UnknownTool; }
    var found := reg.GetForUser(cut.before, user, build);
    match found
    case NotFound => reply := Unavailable(cut.before);
    case BuildFailed => reply := NoCredentials(cut.before);
    case Found(inst) => reply := Called(inst, cut.after);
  }

  // ----- A call reaches only what the caller may see -----

  /** The instance the registry holds for the user under slug. */
  function InstanceFor<P, I>(r: State<P, I>, slug: string, user: string): Option<I> {
    if slug !in r.servers then None
    else
      match r.servers[slug]
      case Shared(ds, _) => Some(ds)
      case PerUser(_, users, _) => if user in users then Some(users[user]) else None
  }

  lemma CallReachesVisible<P, I>(r: State<P, I>, withinQuota: bool, user: string, roles: seq<string>, name: string,
                                 build: Builder<P, I>)
    requires WellOrdered(r) && CallTool(r, withinQuota, user, roles, name, build).1.Called?
    ensures var (r2, reply) := CallTool(r, withinQuota, user, roles, name, build);
            var slug := Cut(name, SEPARATOR).before;
            && withinQuota && name == Namespaced(slug, reply.tool)
            && CanAccess(r, slug, roles) && slug in Visible(r.servers, r.order, roles)
            && InstanceFor(r2, slug, user) == Some(reply.inst)
  {
    var cut := Cut(name, SEPARATOR);
    var i := Index(name, SEPARATOR, 0).value;
    assert name == name[..i] + name[i..i + 2] + name[i + 2..];
    var at := VisibleMembers(r.servers, r.order, roles);
  }

  // ----- Listing and calling agree -----

  /** Looking up changes no roles and no order, and what is held for a user stays. */
  ghost predicate Grown<P, I>(r: State<P, I>, r2: State<P, I>, user: string, slug: string) {
    && r2.order == r.order && (slug in r2.servers <==> slug in r.servers)
    && (slug in r.servers ==> r2.servers[slug].roles == r.servers[slug].roles)
    && (InstanceFor(r, slug, user).Some? ==> InstanceFor(r2, slug, user) == InstanceFor(r, slug, user))
  }

  lemma LookedGrows<P, I>(r: State<P, I>, s: string, user: string, build: Builder<P, I>, slug: string)
    ensures Grown(r, Looked(r, s, user, build).0, user, slug)
    ensures Looked(r, s, user, build).1.Found? ==>
            InstanceFor(Looked(r, s, user, build).0, s, user) == Some(Looked(r, s, user, build).1.inst)
  {
  }

  lemma {:induction false} ReachedGrows<P, I>(r: State<P, I>, slugs: seq<string>, user: string, build: Builder<P, I>,
                                              lister: Lister<I>, slug: string)
    ensures Grown(r, Reached(r, slugs, user, build, lister).0, user, slug)
  {
    if slugs != [] {
      var n := |slugs| - 1;
      ReachedGrows(r, slugs[..n], user, build, lister, slug);
      LookedGrows(Reached(r, slugs[..n], user, build, lister).0, slugs[n], user, build, slug);
    }
  }

  /** Whatever server was kept is one of those asked, and its tools are those of the instance that is
      now held for the user. */
  lemma {:induction false} KeptServer<P, I>(r: State<P, I>, slugs: seq<string>, user: string, build: Builder<P, I>,
                                            lister: Lister<I>, a: nat)
    returns (inst: I)
    requires a < |Reached(r, slugs, user, build, lister).1|
    ensures var (r2, servers) := Reached(r, slugs, user, build, lister);
            servers[a].slug in slugs && InstanceFor(r2, servers[a].slug, user) == Some(inst) &&
              lister(inst) == Some(servers[a].tools)
  {
    var n := |slugs| - 1;
    var (r1, servers1) := Reached(r, slugs[..n], user, build, lister);
    if a < |servers1| {
      inst := KeptServer(r, slugs[..n], user, build, lister, a);
      LookedGrows(r1, slugs[n], user, build, servers1[a].slug);
      assert servers1[a].slug in slugs by { assert slugs == slugs[..n] + [slugs[n]]; }
    } else {
      LookedGrows(r1, slugs[n], user, build, slugs[n]);
      inst := Looked(r1, slugs[n], user, build).1.inst;
    }
  }

  /** Every name shown stands for a tool of an instance the caller may use; and calling it, whatever
      providers would build by then, changes nothing and reaches that same instance with the tool's own
      name, exactly when the slug is clear. */
  lemma ListCallAgree<P, I>(r: State<P, I>, user: string, roles: seq<string>, build: Builder<P, I>, lister: Lister<I>,
                            name: string, later: Builder<P, I>)
    returns (slug: string, tool: string, inst: I)
    requires WellOrdered(r) && name in ListTools(r, user, roles, build, lister).1.routes
    ensures var (r2, res) := ListTools(r, user, roles, build, lister);
            && name == Namespaced(slug, tool) && res.routes[name] == Route(slug, tool)
            && CanAccess(r, slug, roles)
            && InstanceFor(r2, slug, user) == Some(inst)
            && lister(inst).Some? && (exists t :: t in lister(inst).value && t.name == tool)
            && (CallTool(r2, true, user, roles, name, later) == (r2, Called(inst, tool)) <==> Clear(slug))
  {
    var slugs := Visible(r.servers, r.order, roles);
    var (r2, servers) := Reached(r, slugs, user, build, lister);
    var a, b := RoutesLeadBack(servers, name);
    slug, tool := servers[a].slug, servers[a].tools[b].name;
    inst := KeptServer(r, slugs, user, build, lister, a);
    assert servers[a].tools[b] in lister(inst).value;
    var at := VisibleMembers(r.servers, r.order, roles);
    ReachedGrows(r, slugs, user, build, lister, slug);
    CallsBack(r2, user, roles, slug, tool, inst, later);
  }

  lemma CallsBack<P, I>(r: State<P, I>, user: string, roles: seq<string>, slug: string, tool: string, inst: I,
                        build: Builder<P, I>)
    requires CanAccess(r, slug, roles) && InstanceFor(r, slug, user) == Some(inst)
    ensures CallTool(r, true, user, roles, Namespaced(slug, tool), build) == (r, Called(inst, tool)) <==> Clear(slug)
  {
    CutUndoes(slug, tool);
    assert |Namespaced(slug, tool)| >= 2;
  }

  // ----- What the caller may not see makes no difference -----

  /** Two registries that show the caller the same servers. */
  ghost predicate SameSight<P, I>(r: State<P, I>, q: State<P, I>, roles: seq<string>) {
    && Visible(r.servers, r.order, roles) == Visible(q.servers, q.order, roles)
    && forall s | s in Visible(r.servers, r.order, roles) :: SameEntry(r, q, s)
  }

  ghost predicate SameEntry<P, I>(r: State<P, I>, q: State<P, I>, s: string) {
    s in r.servers && s in q.servers && r.servers[s] == q.servers[s]
  }

  lemma LookedSame<P, I>(r: State<P, I>, q: State<P, I>, s: string, user: string, build: Builder<P, I>, t: string)
    requires SameEntry(r, q, s) && SameEntry(r, q, t)
    ensures Looked(r, s, user, build).1 == Looked(q, s, user, build).1
    ensures SameEntry(Looked(r, s, user, build).0, Looked(q, s, user, build).0, t)
  {
  }

  /** A server hidden from the caller cannot be told from one that does not exist: every call gets the
      same reply. */
  lemma HiddenFromCalls<P, I>(r: State<P, I>, q: State<P, I>, withinQuota: bool, user: string, roles: seq<string>,
                              name: string, build: Builder<P, I>)
    requires WellOrdered(r) && WellOrdered(q) && SameSight(r, q, roles)
    ensures CallTool(r, withinQuota, user, roles, name, build).1 == CallTool(q, withinQuota, user, roles, name, build).1
  {
    var slug := Cut(name, SEPARATOR).before;
    var at := VisibleMembers(r.servers, r.order, roles);
    var at2 := VisibleMembers(q.servers, q.order, roles);
    if CanAccess(r, slug, roles) || CanAccess(q, slug, roles) {
      assert slug in Visible(r.servers, r.order, roles);
      assert SameEntry(r, q, slug);
      LookedSame(r, q, slug, user, build, slug);
    }
  }

  lemma {:induction false} ReachedSame<P, I>(r: State<P, I>, q: State<P, I>, slugs: seq<string>, user: string,
                                             build: Builder<P, I>,
                                             lister: Lister<I>, t: string)
    requires (forall s | s in slugs :: SameEntry(r, q, s)) && SameEntry(r, q, t)
    ensures Reached(r, slugs, user, build, lister).1 == Reached(q, slugs, user, build, lister).1
    ensures SameEntry(Reached(r, slugs, user, build, lister).0, Reached(q, slugs, user, build, lister).0, t)
  {
    if slugs != [] {
      var n := |slugs| - 1;
      assert slugs == slugs[..n] + [slugs[n]];
      ReachedSame(r, q, slugs[..n], user, build, lister, t);
      ReachedSame(r, q, slugs[..n], user, build, lister, slugs[n]);
      LookedSame(Reached(r, slugs[..n], user, build, lister).0, Reached(q, slugs[..n], user, build, lister).0,
                 slugs[n], user, build, t);
    }
  }

  /** And every listing shows the same. */
  lemma HiddenFromListing<P, I>(r: State<P, I>, q: State<P, I>, user: string, roles: seq<string>, build: Builder<P, I>,
                                lister: Lister<I>)
    requires SameSight(r, q, roles)
    ensures ListTools(r, user, roles, build, lister).1 == ListTools(q, user, roles, build, lister).1
  {
    var slugs := Visible(r.servers, r.order, roles);
    if slugs != [] {
      assert SameEntry(r, q, slugs[0]);
      ReachedSame(r, q, slugs, user, build, lister, slugs[0]);
    }
  }

  // ----- What is listed -----

  /** The instance a lookup under slug yields the user: the one held, or the one the provider builds. */
  function Serving<P, I>(r: State<P, I>, slug: string, user: string, build: Builder<P, I>): Option<I> {
    if slug !in r.servers then None
    else
      match r.servers[slug]
      case Shared(ds, _) => Some(ds)
      case PerUser(provider, users, _) => if user in users then Some(users[user]) else build(provider, user)
  }

  /** The tools it lists, if there is one and it lists them. */
  function ToolsOf<P, I>(r: State<P, I>, slug: string, user: string, build: Builder<P, I>, lister: Lister<I>)
    : Option<seq<Tool>>
  {
    match Serving(r, slug, user, build)
    case None => None
    case Some(inst) => lister(inst)
  }

  lemma LookedServes<P, I>(r: State<P, I>, s: string, user: string, build: Builder<P, I>, t: string)
    ensures var (r2, found) := Looked(r, s, user, build);
            && Serving(r2, t, user, build) == Serving(r, t, user, build)
            && InstanceFor(r2, s, user) == Serving(r, s, user, build)
            && (found.Found? <==> Serving(r, s, user, build).Some?)
            && (found.Found? ==> Serving(r, s, user, build) == Some(found.inst))
  {
  }

  /** However many lookups come first, a slug serves the user as it did; and what was looked up is held. */
  lemma {:induction false} ReachedServes<P, I>(r: State<P, I>, slugs: seq<string>, user: string, build: Builder<P, I>,
                                               lister: Lister<I>, t: string)
    ensures var r2 := Reached(r, slugs, user, build, lister).0;
            && Serving(r2, t, user, build) == Serving(r, t, user, build)
            && (t in slugs ==> InstanceFor(r2, t, user) == Serving(r, t, user, build))
  {
    if slugs != [] {
      var n := |slugs| - 1;
      var r1 := Reached(r, slugs[..n], user, build, lister).0;
      ReachedServes(r, slugs[..n], user, build, lister, t);
      ReachedServes(r, slugs[..n], user, build, lister, slugs[n]);
      LookedServes(r1, slugs[n], user, build, t);
      LookedGrows(r1, slugs[n], user, build, t);
      assert slugs == slugs[..n] + [slugs[n]];
    }
  }

  /** Which tools each slug lists. */
  function Lists<P, I>(r: State<P, I>, user: string, build: Builder<P, I>, lister: Lister<I>)
    : string -> Option<seq<Tool>>
  {
    slug => ToolsOf(r, slug, user, build, lister)
  }

  /** The servers are the slugs that list their tools, in order, each with the tools it lists. */
  ghost predicate ListedAt(servers: seq<ServerTools>, slugs: seq<string>, lists: string -> Option<seq<Tool>>,
                           at: seq<nat>)
  {
    && |at| == |servers| && (forall a, b | 0 <= a < b < |at| :: at[a] < at[b])
    && (forall a | 0 <= a < |at| ::
          at[a] < |slugs| && servers[a].slug == slugs[at[a]] && lists(slugs[at[a]]) == Some(servers[a].tools))
    && (forall i | 0 <= i < |slugs| && lists(slugs[i]).Some? :: i in at)
  }

  lemma KeptNext(servers: seq<ServerTools>, p: seq<string>, s: string, lists: string -> Option<seq<Tool>>, at: seq<nat>)
    requires ListedAt(servers, p, lists, at)
    ensures lists(s).None? ==> ListedAt(servers, p + [s], lists, at)
    ensures lists(s).Some? ==> ListedAt(servers + [ServerTools(s, lists(s).value)], p + [s], lists, at + [|p|])
  {
    var at2 := at + [|p|];
    assert at2[|at|] == |p|;
    forall i | 0 <= i < |p| && lists((p + [s])[i]).Some? ensures i in at && i in at2 {
      assert lists(p[i]).Some?;
    }
  }

  /** A server that fails to list is left out, and none else is. */
  lemma {:induction false} ListingServersAreKept<P, I>(r: State<P, I>, slugs: seq<string>, user: string,
                                                       build: Builder<P, I>, lister: Lister<I>)
    returns (at: seq<nat>)
    ensures ListedAt(Reached(r, slugs, user, build, lister).1, slugs, Lists(r, user, build, lister), at)
  {
    at := [];
    if slugs != [] {
      var n, lists := |slugs| - 1, Lists(r, user, build, lister);
      at := ListingServersAreKept(r, slugs[..n], user, build, lister);
      ReachedServes(r, slugs[..n], user, build, lister, slugs[n]);
      LookedServes(Reached(r, slugs[..n], user, build, lister).0, slugs[n], user, build, slugs[n]);
      KeptNext(Reached(r, slugs[..n], user, build, lister).1, slugs[..n], slugs[n], lists, at);
      assert slugs == slugs[..n] + [slugs[n]];
      if lists(slugs[n]).Some? { at := at + [n]; }
    }
  }

  /** Every tool that a visible server lists is offered under its namespaced name, whatever becomes of the
      other servers; and when the visible slugs are pairwise apart the name leads to it. */
  lemma EveryListedToolIsOffered<P, I>(r: State<P, I>, user: string, roles: seq<string>, build: Builder<P, I>,
                                       lister: Lister<I>, slug: string, tools: seq<Tool>, b: nat)
    requires WellOrdered(r) && CanAccess(r, slug, roles)
    requires ToolsOf(r, slug, user, build, lister) == Some(tools) && b < |tools|
    ensures var res, name := ListTools(r, user, roles, build, lister).1, Namespaced(slug, tools[b].name);
            && name in res.routes && (exists t :: t in res.tools && t.name == name)
            && (PairwiseApart(Visible(r.servers, r.order, roles)) ==>
                  res.routes[name] == Route(slug, tools[b].name))
  {
    var slugs, name := Visible(r.servers, r.order, roles), Namespaced(slug, tools[b].name);
    var servers := Reached(r, slugs, user, build, lister).1;
    var seen := VisibleIffAccess(r, roles);
    var at := ListingServersAreKept(r, slugs, user, build, lister);
    assert slug in slugs;
    var i :| 0 <= i < |slugs| && slugs[i] == slug;
    assert Lists(r, user, build, lister)(slugs[i]).Some?;
    var a :| 0 <= a < |at| && at[a] == i;
    ToolIsOffered(servers, a, b);
    if PairwiseApart(slugs) {
      forall c, d | 0 <= c < d < |servers| ensures Apart(SlugsOf(servers)[c], SlugsOf(servers)[d]) {
        assert Apart(slugs[at[c]], slugs[at[d]]);
      }
      EveryToolRouted(servers, a, b);
    }
  }

  lemma ToolIsOffered(servers: seq<ServerTools>, a: nat, b: nat)
    requires a < |servers| && b < |servers[a].tools|
    ensures var res, name := Merged(Offers(servers)), Namespaced(servers[a].slug, servers[a].tools[b].name);
            name in res.routes && exists t :: t in res.tools && t.name == name
  {
    var res, name := Merged(Offers(servers)), Namespaced(servers[a].slug, servers[a].tools[b].name);
    var i := OfferedAt(servers, a, b);
    RoutedIff(Offers(servers), name);
    NamesAreRoutes(Offers(servers));
    NameIn(res.tools, name);
    var j :| 0 <= j < |res.tools| && res.tools[j].name == name;
    assert res.tools[j] in res.tools;
  }

  // ----- A server that fails does not disturb the others -----

  /** What the servers would be, told from the registry alone. */
  function Listing<P, I>(r: State<P, I>, slugs: seq<string>, user: string, build: Builder<P, I>, lister: Lister<I>)
    : seq<ServerTools>
  {
    if slugs == [] then []
    else
      var n := |slugs| - 1;
      var ts := ToolsOf(r, slugs[n], user, build, lister);
      var rest := Listing(r, slugs[..n], user, build, lister);
      if ts.Some? then rest + [ServerTools(slugs[n], ts.value)] else rest
  }

  lemma {:induction false} ReachedIsListing<P, I>(r: State<P, I>, slugs: seq<string>, user: string,
                                                  build: Builder<P, I>, lister: Lister<I>)
    ensures Reached(r, slugs, user, build, lister).1 == Listing(r, slugs, user, build, lister)
  {
    if slugs != [] {
      var n := |slugs| - 1;
      ReachedIsListing(r, slugs[..n], user, build, lister);
      ReachedServes(r, slugs[..n], user, build, lister, slugs[n]);
      LookedServes(Reached(r, slugs[..n], user, build, lister).0, slugs[n], user, build, slugs[n]);
    }
  }

  lemma {:induction false} ListingWithout<P, I>(r: State<P, I>, slugs: seq<string>, user: string,
                                                build: Builder<P, I>, lister: Lister<I>, slug: string)
    requires ToolsOf(r, slug, user, build, lister).None?
    ensures Listing(Unlinked(r, slug), Without(slugs, slug), user, build, lister) ==
            Listing(r, slugs, user, build, lister)
    ensures Listing(Unlinked(r, slug), slugs, user, build, lister) == Listing(r, slugs, user, build, lister)
  {
    if slugs != [] {
      var n := |slugs| - 1;
      var p, s := slugs[..n], slugs[n];
      assert slugs == p + [s];
      ListingWithout(r, p, user, build, lister, slug);
      WithoutSnoc(p, s, slug);
      if slug in p {
        assert (Without(p, slug) + [s])[..|Without(p, slug)|] == Without(p, slug);
      } else {
        assert (p + [s])[..n] == p;
      }
      assert s != slug ==> ToolsOf(Unlinked(r, slug), s, user, build, lister) == ToolsOf(r, s, user, build, lister);
      assert ToolsOf(Unlinked(r, slug), slug, user, build, lister).None?;
    }
  }

  /** The tools shown are the same as if the server that fails were not registered. */
  lemma FailingIsAsIfAbsent<P, I>(r: State<P, I>, user: string, roles: seq<string>, build: Builder<P, I>,
                                  lister: Lister<I>, slug: string)
    requires WellOrdered(r) && ToolsOf(r, slug, user, build, lister).None?
    ensures ListTools(r, user, roles, build, lister).1 ==
            ListTools(Unlinked(r, slug), user, roles, build, lister).1
  {
    var slugs, q := Visible(r.servers, r.order, roles), Unlinked(r, slug);
    if slug in r.servers {
      VisibleWithout(r.servers, r.order, roles, slug);
      ListingWithout(r, slugs, user, build, lister, slug);
      ReachedIsListing(r, slugs, user, build, lister);
      ReachedIsListing(q, Without(slugs, slug), user, build, lister);
    }
  }
}
