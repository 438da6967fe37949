/** Merging the tools of several downstream servers into one surface of names "slug__tool", with the
    table that leads back. */
module Aggregation {
  import opened Wrappers
  import opened Text

  const SEPARATOR := "__"

  /** info is the description and the input schema. */
  datatype Tool = Tool(name: string, info: string)

  datatype ServerTools = ServerTools(slug: string, tools: seq<Tool>)

  datatype Route = Route(slug: string, tool: string)

  datatype Surface = Surface(tools: seq<Tool>, routes: map<string, Route>)

  function Namespaced(slug: string, tool: string): string { slug + SEPARATOR + tool }

  // ----- The merge -----

  /** One tool of one server, under the name it is to have. */
  datatype Offer = Offer(slug: string, tool: Tool, name: string)

  function OfferOf(slug: string, t: Tool): Offer { Offer(slug, t, Namespaced(slug, t.name)) }

  function OffersOf(s: ServerTools): (r: seq<Offer>)
    ensures |r| == |s.tools| && forall i | 0 <= i < |r| :: r[i] == OfferOf(s.slug, s.tools[i])
  {
    seq(|s.tools|, i requires 0 <= i < |s.tools| => OfferOf(s.slug, s.tools[i]))
  }

  function Offers(servers: seq<ServerTools>): seq<Offer> {
    if servers == [] then [] else Offers(servers[..|servers| - 1]) + OffersOf(servers[|servers| - 1])
  }

  function Added(res: Surface, o: Offer): Surface {
    if o.name in res.routes then res
    else Surface(res.tools + [o.tool.(name := o.name)], res.routes[o.name := Route(o.slug, o.tool.name)])
  }

  function Merged(offers: seq<Offer>): Surface {
    if offers == [] then Surface([], map[]) else Added(Merged(offers[..|offers| - 1]), offers[|offers| - 1])
  }

  lemma MergedSnoc(offers: seq<Offer>, o: Offer)
    ensures Merged(offers + [o]) == Added(Merged(offers), o)
  {
    assert (offers + [o])[..|offers|] == offers;
  }

  method Aggregate(servers: seq<ServerTools>) returns (res: Surface)
    ensures res == Merged(Offers(servers))
  {
    res := Surface([], map[]);
    ghost var seen: seq<Offer> := [];
    for i := 0 to |servers|
      invariant seen == Offers(servers[..i]) && res == Merged(seen)
    {
      var s := servers[i];
      ghost var before := seen;
      assert before + OffersUpTo(s, 0) == before;
      for j := 0 to |s.tools|
        invariant seen == before + OffersUpTo(s, j) && res == Merged(seen)
      {
        var t := s.tools[j];
        var name := s.slug + SEPARATOR + t.name;
        MergedSnoc(seen, OfferOf(s.slug, t));
        OfferNext(before, s, j);
        seen := seen + [OfferOf(s.slug, t)];
        if name in res.routes { continue; }
        res := Surface(res.tools + [t.(name := name)], res.routes[name := Route(s.slug, t.name)]);
      }
      OffersNext(servers, i);
    }
    assert servers[..|servers|] == servers;
  }

  function OffersUpTo(s: ServerTools, j: nat): seq<Offer>
    requires j <= |s.tools|
  {
    OffersOf(s)[..j]
  }

  lemma OfferNext(before: seq<Offer>, s: ServerTools, j: nat)
    requires j < |s.tools|
    ensures before + OffersUpTo(s, j + 1) == (before + OffersUpTo(s, j)) + [OfferOf(s.slug, s.tools[j])]
  {
  }

  lemma OffersNext(servers: seq<ServerTools>, i: nat)
    requires i < |servers|
    ensures Offers(servers[..i + 1]) == Offers(servers[..i]) + OffersUpTo(servers[i], |servers[i].tools|)
  {
    assert servers[..i + 1][..i] == servers[..i];
  }

  // ----- What the surface holds -----

  /** Offer i is the first of its name. */
  ghost predicate First(offers: seq<Offer>, i: nat)
    requires i < |offers|
  {
    forall j | 0 <= j < i :: offers[j].name != offers[i].name
  }

  ghost predicate Offered(offers: seq<Offer>, name: string) { exists i :: 0 <= i < |offers| && offers[i].name == name }

  /** Every offered name has a route, and no other has. */
  lemma {:induction false} RoutedIff(offers: seq<Offer>, name: string)
    ensures name in Merged(offers).routes <==> Offered(offers, name)
  {
    if offers != [] {
      var n := |offers| - 1;
      RoutedIff(offers[..n], name);
      if Offered(offers[..n], name) {
        var i :| 0 <= i < n && offers[..n][i].name == name;
        assert offers[i].name == name;
      }
      if i :| 0 <= i < n && offers[i].name == name {
        assert offers[..n][i].name == name;
      }
    }
  }

  /** The surface's a-th tool is offer at[a], the first of its name, renamed, with the route to it. */
  ghost predicate Picked(res: Surface, offers: seq<Offer>, at: seq<nat>, a: nat)
    requires a < |at| == |res.tools|
  {
    at[a] < |offers| && First(offers, at[a]) &&
    var o := offers[at[a]];
    res.tools[a] == o.tool.(name := o.name) && o.name in res.routes && res.routes[o.name] == Route(o.slug, o.tool.name)
  }

  /** The surface is made of the offers at the given positions: the first of each name, in order. */
  ghost predicate MadeOf(res: Surface, offers: seq<Offer>, at: seq<nat>) {
    && |at| == |res.tools|
    && (forall a | 0 <= a < |at| :: Picked(res, offers, at, a))
    && (forall a, b | 0 <= a < b < |at| :: at[a] < at[b])
    && (forall i | 0 <= i < |offers| && First(offers, i) :: i in at)
  }

  lemma FirstKept(p: seq<Offer>, o: Offer, i: nat)
    requires i < |p|
    ensures First(p + [o], i) <==> First(p, i)
  {
    assert forall j | 0 <= j <= i :: (p + [o])[j] == p[j];
  }

  lemma FirstIsNew(p: seq<Offer>, o: Offer)
    ensures First(p + [o], |p|) <==> o.name !in Merged(p).routes
  {
    RoutedIff(p, o.name);
    assert forall j | 0 <= j < |p| :: (p + [o])[j] == p[j];
  }

  lemma StillPicked(res: Surface, p: seq<Offer>, o: Offer, at: seq<nat>, at2: seq<nat>, a: nat)
    requires a < |at| == |res.tools| && Picked(res, p, at, a) && at <= at2 && |at2| == |Added(res, o).tools|
    ensures at[a] < |p| && at2[a] == at[a] && Picked(Added(res, o), p + [o], at2, a)
  {
    FirstKept(p, o, at[a]);
  }

  lemma AllFirstsIn(p: seq<Offer>, o: Offer, at: seq<nat>, at2: seq<nat>)
    requires at2 == if First(p + [o], |p|) then at + [|p|] else at
    requires forall i | 0 <= i < |p| && First(p, i) :: i in at
    ensures forall i | 0 <= i < |p + [o]| && First(p + [o], i) :: i in at2
  {
    forall i | 0 <= i < |p + [o]| && First(p + [o], i) ensures i in at2 {
      if i < |p| {
        FirstKept(p, o, i);
        assert i in at;
      } else {
        assert at2[|at|] == i;
      }
    }
  }

  lemma AllPicked(res: Surface, p: seq<Offer>, o: Offer, at: seq<nat>, at2: seq<nat>)
    requires |at| == |res.tools| && forall a | 0 <= a < |at| :: Picked(res, p, at, a)
    requires at2 == if First(p + [o], |p|) then at + [|p|] else at
    requires First(p + [o], |p|) <==> o.name !in res.routes
    ensures |at2| == |Added(res, o).tools| && forall a | 0 <= a < |at2| :: Picked(Added(res, o), p + [o], at2, a)
    ensures forall a | 0 <= a < |at| :: at[a] < |p|
  {
    forall a | 0 <= a < |at| ensures at[a] < |p| && Picked(Added(res, o), p + [o], at2, a) {
      StillPicked(res, p, o, at, at2, a);
    }
  }

  lemma Extended(res: Surface, p: seq<Offer>, o: Offer, at: seq<nat>) returns (at2: seq<nat>)
    requires MadeOf(res, p, at) && (First(p + [o], |p|) <==> o.name !in res.routes)
    ensures MadeOf(Added(res, o), p + [o], at2)
  {
    at2 := if First(p + [o], |p|) then at + [|p|] else at;
    AllPicked(res, p, o, at, at2);
    AllFirstsIn(p, o, at, at2);
  }

  /** The surface keeps the order of the offers, keeps the first offer of every name and nothing else. */
  lemma {:induction false} KeepsFirsts(offers: seq<Offer>) returns (at: seq<nat>)
    ensures MadeOf(Merged(offers), offers, at)
  {
    at := [];
    if offers != [] {
      var p, o := offers[..|offers| - 1], offers[|offers| - 1];
      at := KeepsFirsts(p);
      FirstIsNew(p, o);
      at := Extended(Merged(p), p, o, at);
      assert offers == p + [o];
    }
  }

  /** The set of the tools' names. */
  function NamesIn(tools: seq<Tool>): set<string> {
    if tools == [] then {} else NamesIn(tools[..|tools| - 1]) + {tools[|tools| - 1].name}
  }

  lemma NamesSnoc(tools: seq<Tool>, t: Tool)
    ensures NamesIn(tools + [t]) == NamesIn(tools) + {t.name}
  {
    assert (tools + [t])[..|tools|] == tools;
  }

  lemma {:induction false} NameIn(tools: seq<Tool>, name: string)
    ensures name in NamesIn(tools) <==> exists i :: 0 <= i < |tools| && tools[i].name == name
  {
    if tools != [] {
      var n := |tools| - 1;
      NameIn(tools[..n], name);
      if i :| 0 <= i < n && tools[i].name == name { assert tools[..n][i].name == name; }
      if i :| 0 <= i < |tools[..n]| && tools[..n][i].name == name { assert tools[i].name == name; }
    }
  }

  ghost predicate NamesAgree(res: Surface) {
    && (forall i, j | 0 <= i < j < |res.tools| :: res.tools[i].name != res.tools[j].name)
    && NamesIn(res.tools) == res.routes.Keys
    && |res.tools| == |res.routes|
  }

  lemma AddedAgree(res: Surface, o: Offer)
    requires NamesAgree(res) && o.name !in res.routes
    ensures NamesAgree(Added(res, o))
  {
    var t := o.tool.(name := o.name);
    NamesSnoc(res.tools, t);
    NameIn(res.tools, t.name);
    assert res.routes[o.name := Route(o.slug, o.tool.name)].Keys == res.routes.Keys + {o.name};
  }

  /** The names shown are pairwise distinct, and are just the keys of the routing table. */
  lemma {:induction false} NamesAreRoutes(offers: seq<Offer>)
    ensures NamesAgree(Merged(offers))
  {
    if offers != [] {
      var res, o := Merged(offers[..|offers| - 1]), offers[|offers| - 1];
      NamesAreRoutes(offers[..|offers| - 1]);
      if o.name !in res.routes { AddedAgree(res, o); }
    }
  }

  // ----- Telling the slug from the tool -----

  /** A slug that does not contain the separator and does not end in half of it. */
  predicate Clear(slug: string) {
    !Contains(slug, SEPARATOR) && (slug == "" || slug[|slug| - 1] != '_')
  }

  predicate Contains(s: string, sep: string) { Index(s, sep, 0).Some? }

  lemma NoneEarlier(slug: string, tool: string, i: nat)
    requires Clear(slug) && i < |slug|
    ensures !Occurs(Namespaced(slug, tool), SEPARATOR, i)
  {
    var name := Namespaced(slug, tool);
    assert name[i..i + 2][0] == slug[i];
    if i + 2 <= |slug| {
      assert name[i..i + 2] == slug[i..i + 2];
      assert !Occurs(slug, SEPARATOR, i);
    }
  }

  lemma SeparatorAt(slug: string, tool: string)
    ensures Occurs(Namespaced(slug, tool), SEPARATOR, |slug|)
  {
    assert Namespaced(slug, tool)[|slug|..|slug| + 2] == SEPARATOR;
  }

  lemma CutClear(slug: string, tool: string)
    requires Clear(slug)
    ensures Index(Namespaced(slug, tool), SEPARATOR, 0) == Some(|slug|)
  {
    SeparatorAt(slug, tool);
    var i := Index(Namespaced(slug, tool), SEPARATOR, 0).value;
    if i < |slug| { NoneEarlier(slug, tool, i); }
  }

  lemma CutUnclear(slug: string, tool: string) returns (j: nat)
    requires !Clear(slug)
    ensures j < |slug| && Occurs(Namespaced(slug, tool), SEPARATOR, j)
  {
    var name := Namespaced(slug, tool);
    if Contains(slug, SEPARATOR) {
      j := Index(slug, SEPARATOR, 0).value;
      assert name[j..j + 2] == slug[j..j + 2];
    } else {
      j := |slug| - 1;
      assert name[j..j + 2] == SEPARATOR by { assert name[j] == slug[j] == '_' && name[j + 1] == SEPARATOR[0]; }
    }
  }

  /** Cutting a namespaced name at the separator gives back slug and tool exactly when the slug is
      clear, whatever the tool; for any other slug the tool comes out different. */
  lemma CutUndoes(slug: string, tool: string)
    ensures Cut(Namespaced(slug, tool), SEPARATOR) == Pieces(slug, tool, true) <==> Clear(slug)
    ensures Cut(Namespaced(slug, tool), SEPARATOR).found
    ensures !Clear(slug) ==> |Cut(Namespaced(slug, tool), SEPARATOR).after| > |tool|
  {
    SeparatorAt(slug, tool);
    if Clear(slug) {
      CutClear(slug, tool);
      assert Namespaced(slug, tool)[..|slug|] == slug && Namespaced(slug, tool)[|slug| + 2..] == tool;
    } else {
      var j := CutUnclear(slug, tool);
    }
  }

  /** So namespaced names of clear slugs do not collide. */
  lemma NamespacedInjective(s: string, t: string, u: string, v: string)
    requires Clear(s) && Clear(u) && Namespaced(s, t) == Namespaced(u, v)
    ensures s == u && t == v
  {
    CutUndoes(s, t);
    CutUndoes(u, v);
  }

  // ----- Slugs whose tools cannot share a name -----

  /** Neither slug with the separator after it begins the other. */
  predicate Apart(s: string, u: string) { !(s + SEPARATOR <= u + SEPARATOR) && !(u + SEPARATOR <= s + SEPARATOR) }

  lemma SharedName(s: string, t: string, u: string, v: string)
    requires Namespaced(s, t) == Namespaced(u, v)
    ensures !Apart(s, u)
  {
    var name := Namespaced(s, t);
    assert s + SEPARATOR == name[..|s| + 2] && u + SEPARATOR == name[..|u| + 2];
  }

  lemma CommonName(s: string, u: string) returns (t: string, v: string)
    requires !Apart(s, u)
    ensures Namespaced(s, t) == Namespaced(u, v)
  {
    var p, q := s + SEPARATOR, u + SEPARATOR;
    if p <= q {
      t, v := q[|p|..], "";
      assert p + t == q && q + v == q;
    } else {
      t, v := "", p[|q|..];
      assert q + v == p && p + t == p;
    }
  }

  /** Apart is exactly what keeps all names of two servers different. */
  lemma ApartIff(s: string, u: string)
    ensures Apart(s, u) <==> forall t, v :: Namespaced(s, t) != Namespaced(u, v)
  {
    if Apart(s, u) {
      forall t, v ensures Namespaced(s, t) != Namespaced(u, v) {
        if Namespaced(s, t) == Namespaced(u, v) { SharedName(s, t, u, v); }
      }
    } else {
      var t, v := CommonName(s, u);
    }
  }

  /** Different clear slugs are apart. */
  lemma ClearApart(s: string, u: string)
    requires Clear(s) && Clear(u) && s != u
    ensures Apart(s, u)
  {
    if !Apart(s, u) {
      var t, v := CommonName(s, u);
      NamespacedInjective(s, t, u, v);
    }
  }

  /** Slugs that are not clear can be apart, too. */
  lemma UnclearApart()
    ensures !Clear("a__b") && !Clear("c__d") && Apart("a__b", "c__d")
  {
    assert "a__b"[1..3] == SEPARATOR && "c__d"[1..3] == SEPARATOR;
    assert Occurs("a__b", SEPARATOR, 1) && Occurs("c__d", SEPARATOR, 1);
    assert ("a__b" + SEPARATOR)[0] == 'a' && ("c__d" + SEPARATOR)[0] == 'c';
  }

  // ----- Nothing is lost across servers -----

  function SlugsOf(servers: seq<ServerTools>): (slugs: seq<string>)
    ensures |slugs| == |servers| && forall i | 0 <= i < |servers| :: slugs[i] == servers[i].slug
  {
    seq(|servers|, i requires 0 <= i < |servers| => servers[i].slug)
  }

  ghost predicate PairwiseApart(slugs: seq<string>) { forall i, j | 0 <= i < j < |slugs| :: Apart(slugs[i], slugs[j]) }

  function Sum(servers: seq<ServerTools>): nat {
    if servers == [] then 0 else Sum(servers[..|servers| - 1]) + |NamesIn(servers[|servers| - 1].tools)|
  }

  ghost predicate Shows(res: Surface, slug: string, tool: string) { Namespaced(slug, tool) in res.routes }

  lemma AddedShows(res: Surface, o: Offer, t: string)
    requires o == OfferOf(o.slug, o.tool)
    ensures Shows(Added(res, o), o.slug, t) <==> Shows(res, o.slug, t) || t == o.tool.name
    ensures |Added(res, o).tools| == |res.tools| + (if Shows(res, o.slug, o.tool.name) then 0 else 1)
  {
    SameSlug(o.slug, t, o.tool.name);
  }

  /** Since res0, tools of just these names have been added under slug, one for each name. */
  ghost predicate AddsNames(res0: Surface, res: Surface, slug: string, names: set<string>) {
    |res.tools| == |res0.tools| + |names| && forall t :: Shows(res, slug, t) <==> t in names
  }

  lemma OneMoreName(res0: Surface, res: Surface, o: Offer, names: set<string>)
    requires AddsNames(res0, res, o.slug, names) && o == OfferOf(o.slug, o.tool)
    ensures AddsNames(res0, Added(res, o), o.slug, names + {o.tool.name})
  {
    forall t ensures Shows(Added(res, o), o.slug, t) <==> t in names + {o.tool.name} { AddedShows(res, o, t); }
    AddedShows(res, o, o.tool.name);
    if o.tool.name in names { assert names + {o.tool.name} == names; }
  }

  lemma OffersSnoc(before: seq<Offer>, slug: string, tools: seq<Tool>, t: Tool)
    ensures before + OffersOf(ServerTools(slug, tools + [t])) ==
            (before + OffersOf(ServerTools(slug, tools))) + [OfferOf(slug, t)]
  {
  }

  /** Merging one more server's tools, none of whose names is taken, adds each of its names once. */
  lemma {:induction false} ServerAdds(before: seq<Offer>, slug: string, tools: seq<Tool>)
    requires forall t :: !Shows(Merged(before), slug, t)
    ensures AddsNames(Merged(before), Merged(before + OffersOf(ServerTools(slug, tools))), slug, NamesIn(tools))
  {
    if tools == [] {
      assert before + OffersOf(ServerTools(slug, tools)) == before;
      assert NamesIn(tools) == {};
    } else {
      var less, t := tools[..|tools| - 1], tools[|tools| - 1];
      var fewer := before + OffersOf(ServerTools(slug, less));
      ServerAdds(before, slug, less);
      OneMoreName(Merged(before), Merged(fewer), OfferOf(slug, t), NamesIn(less));
      MergedSnoc(fewer, OfferOf(slug, t));
      OffersSnoc(before, slug, less, t);
      NamesSnoc(less, t);
      assert tools == less + [t];
    }
  }

  lemma SameSlug(slug: string, t: string, u: string)
    ensures Namespaced(slug, t) == Namespaced(slug, u) <==> t == u
  {
    assert Namespaced(slug, t)[|slug| + 2..] == t && Namespaced(slug, u)[|slug| + 2..] == u;
  }

  /** With slugs pairwise apart the number of tools shown is that of each server's distinct tool names,
      added up. */
  lemma {:induction false} NothingLost(servers: seq<ServerTools>)
    requires PairwiseApart(SlugsOf(servers))
    ensures |Merged(Offers(servers)).tools| == Sum(servers)
  {
    if servers != [] {
      var n := |servers| - 1;
      var p, s := servers[..n], servers[n];
      assert SlugsOf(p) == SlugsOf(servers)[..n];
      NothingLost(p);
      forall t ensures !Shows(Merged(Offers(p)), s.slug, t) { NoneYet(servers, t); }
      ServerAdds(Offers(p), s.slug, s.tools);
    }
  }

  lemma NoneYet(servers: seq<ServerTools>, t: string)
    requires servers != [] && PairwiseApart(SlugsOf(servers))
    ensures !Shows(Merged(Offers(servers[..|servers| - 1])), servers[|servers| - 1].slug, t)
  {
    var n := |servers| - 1;
    var offers, name := Offers(servers[..n]), Namespaced(servers[n].slug, t);
    RoutedIff(offers, name);
    forall i | 0 <= i < |offers| ensures offers[i].name != name { OtherName(servers, i, t); }
  }

  lemma OtherName(servers: seq<ServerTools>, i: nat, t: string)
    requires servers != [] && PairwiseApart(SlugsOf(servers)) && i < |Offers(servers[..|servers| - 1])|
    ensures Offers(servers[..|servers| - 1])[i].name != Namespaced(servers[|servers| - 1].slug, t)
  {
    var n := |servers| - 1;
    var a, b := OfferOrigin(servers[..n], i);
    var s, u := servers[a].slug, servers[a].tools[b].name;
    assert SlugsOf(servers)[a] == s && Apart(s, servers[n].slug);
    if Namespaced(s, u) == Namespaced(servers[n].slug, t) { SharedName(s, u, servers[n].slug, t); }
  }

  lemma {:induction false} SumAtLeast(servers: seq<ServerTools>, i: nat, j: nat)
    requires i < j < |servers|
    ensures Sum(servers) >= |NamesIn(servers[i].tools)| + |NamesIn(servers[j].tools)|
  {
    var n := |servers| - 1;
    if j < n { SumAtLeast(servers[..n], i, j); } else { SumAtLeastOne(servers[..n], i); }
  }

  lemma {:induction false} SumAtLeastOne(servers: seq<ServerTools>, i: nat)
    requires i < |servers|
    ensures Sum(servers) >= |NamesIn(servers[i].tools)|
  {
    var n := |servers| - 1;
    if i < n { SumAtLeastOne(servers[..n], i); }
  }

  lemma {:induction false} OneName(offers: seq<Offer>, name: string)
    requires forall i | 0 <= i < |offers| :: offers[i].name == name
    ensures |Merged(offers).tools| == if offers == [] then 0 else 1
    ensures Merged(offers).routes.Keys == if offers == [] then {} else {name}
  {
    if offers != [] { OneName(offers[..|offers| - 1], name); }
  }

  lemma OneTool(name: string, info: string)
    ensures NamesIn([Tool(name, info)]) == {name}
  {
    assert [Tool(name, info)][..0] == [];
  }

  /** Of two servers whose slugs are not apart a tool can be lost, whatever the others are. */
  lemma LosesOne(slugs: seq<string>, i: nat, j: nat) returns (servers: seq<ServerTools>)
    requires i < j < |slugs| && !Apart(slugs[i], slugs[j])
    ensures SlugsOf(servers) == slugs && |Merged(Offers(servers)).tools| < Sum(servers)
  {
    var t, v := CommonName(slugs[i], slugs[j]);
    servers := seq(|slugs|, k requires 0 <= k < |slugs| =>
      ServerTools(slugs[k], if k == i then [Tool(t, "")] else if k == j then [Tool(v, "")] else []));
    var name := Namespaced(slugs[i], t);
    forall k | 0 <= k < |Offers(servers)|
      ensures Offers(servers)[k].name == name
    {
      var a, b := OfferOrigin(servers, k);
    }
    OneName(Offers(servers), name);
    OneTool(t, "");
    OneTool(v, "");
    SumAtLeast(servers, i, j);
  }

  /** Nothing is lost across servers with these slugs, whatever their tools, exactly when the slugs are
      pairwise apart. */
  lemma NothingLostIff(slugs: seq<string>)
    ensures PairwiseApart(slugs)
            <==> forall servers | SlugsOf(servers) == slugs :: |Merged(Offers(servers)).tools| == Sum(servers)
  {
    if PairwiseApart(slugs) {
      forall servers | SlugsOf(servers) == slugs
        ensures |Merged(Offers(servers)).tools| == Sum(servers)
      {
        NothingLost(servers);
      }
    } else {
      var i, j :| 0 <= i < j < |slugs| && !Apart(slugs[i], slugs[j]);
      var servers := LosesOne(slugs, i, j);
    }
  }

  /** When one slug is another with the separator and more after it, a tool of each can have one name:
      one tool is shown where there are two, and the name leads to the server listed first. */
  lemma UnclearCollides(s: string, u: string, t: string, x: string, y: string)
    ensures var first, second := Tool(u + SEPARATOR + t, x), Tool(t, y);
            var servers := [ServerTools(s, [first]), ServerTools(s + SEPARATOR + u, [second])];
            var name, res := Namespaced(s, first.name), Merged(Offers(servers));
            && name == Namespaced(s + SEPARATOR + u, second.name)
            && |res.tools| == 1 && Sum(servers) == 2
            && name in res.routes && res.routes[name] == Route(s, first.name)
  {
    var first, second := Tool(u + SEPARATOR + t, x), Tool(t, y);
    var a, b := ServerTools(s, [first]), ServerTools(s + SEPARATOR + u, [second]);
    var o, q := OfferOf(a.slug, first), OfferOf(b.slug, second);
    assert s + SEPARATOR + (u + SEPARATOR + t) == (s + SEPARATOR + u) + SEPARATOR + t;
    assert OffersOf(a) == [o] && OffersOf(b) == [q];
    assert [a, b][..1] == [a] && [a][..0] == [] && Offers([a]) == [o] && Offers([a, b]) == [o] + [q];
    MergedSnoc([o], q);
    MergedSnoc([], o);
    assert [] + [o] == [o];
    OneTool(first.name, x);
    OneTool(second.name, y);
    assert Sum([a]) == 1;
  }

  /** Which server, and which of its tools, an offer is of. */
  lemma {:induction false} OfferOrigin(servers: seq<ServerTools>, i: nat) returns (a: nat, b: nat)
    requires i < |Offers(servers)|
    ensures a < |servers| && b < |servers[a].tools| &&
            Offers(servers)[i] == OfferOf(servers[a].slug, servers[a].tools[b])
  {
    var n := |servers| - 1;
    if i < |Offers(servers[..n])| {
      a, b := OfferOrigin(servers[..n], i);
    } else {
      a, b := n, i - |Offers(servers[..n])|;
    }
  }

  /** Each tool of each server is offered. */
  lemma {:induction false} OfferedAt(servers: seq<ServerTools>, a: nat, b: nat) returns (i: nat)
    requires a < |servers| && b < |servers[a].tools|
    ensures i < |Offers(servers)| && Offers(servers)[i] == OfferOf(servers[a].slug, servers[a].tools[b])
  {
    var n := |servers| - 1;
    if a < n {
      i := OfferedAt(servers[..n], a, b);
    } else {
      i := |Offers(servers[..n])| + b;
    }
  }

  /** Every route leads back to a tool of a server, under the name that leads to it. */
  lemma RoutesLeadBack(servers: seq<ServerTools>, name: string) returns (a: nat, b: nat)
    requires name in Merged(Offers(servers)).routes
    ensures a < |servers| && b < |servers[a].tools|
    ensures Merged(Offers(servers)).routes[name] == Route(servers[a].slug, servers[a].tools[b].name)
    ensures name == Namespaced(servers[a].slug, servers[a].tools[b].name)
  {
    var offers := Offers(servers);
    var i := RouteOrigin(offers, name);
    a, b := OfferOrigin(servers, i);
  }

  lemma {:induction false} RouteOrigin(offers: seq<Offer>, name: string) returns (i: nat)
    requires name in Merged(offers).routes
    ensures i < |offers| && offers[i].name == name &&
            Merged(offers).routes[name] == Route(offers[i].slug, offers[i].tool.name)
  {
    var n := |offers| - 1;
    if name in Merged(offers[..n]).routes {
      i := RouteOrigin(offers[..n], name);
    } else {
      i := n;
    }
  }

  /** With slugs pairwise apart the name of any tool of any server leads to that server and tool. */
  lemma EveryToolRouted(servers: seq<ServerTools>, a: nat, b: nat)
    requires a < |servers| && b < |servers[a].tools| && PairwiseApart(SlugsOf(servers))
    ensures var s, t := servers[a].slug, servers[a].tools[b].name;
            var routes := Merged(Offers(servers)).routes;
            Namespaced(s, t) in routes && routes[Namespaced(s, t)] == Route(s, t)
  {
    var s, t := servers[a].slug, servers[a].tools[b].name;
    var i := OfferedAt(servers, a, b);
    RoutedIff(Offers(servers), Namespaced(s, t));
    var c, d := RoutesLeadBack(servers, Namespaced(s, t));
    SharedName(s, t, servers[c].slug, servers[c].tools[d].name);
    assert SlugsOf(servers)[a] == s && SlugsOf(servers)[c] == servers[c].slug;
    SameSlug(s, t, servers[c].tools[d].name);
  }

  // ----- The surface in terms of servers and tools -----

  /** Tool b of server a comes before tool d of server c. */
  predicate Precedes(p: (nat, nat), q: (nat, nat)) { p.0 < q.0 || (p.0 == q.0 && p.1 < q.1) }

  predicate IsTool(servers: seq<ServerTools>, p: (nat, nat)) { p.0 < |servers| && p.1 < |servers[p.0].tools| }

  function NameOf(servers: seq<ServerTools>, p: (nat, nat)): string
    requires IsTool(servers, p)
  {
    servers[p.0].slug + SEPARATOR + servers[p.0].tools[p.1].name
  }

  /** No tool before it has its name. */
  ghost predicate NameIsNew(servers: seq<ServerTools>, p: (nat, nat))
    requires IsTool(servers, p)
  {
    forall q | IsTool(servers, q) && Precedes(q, p) :: NameOf(servers, q) != NameOf(servers, p)
  }

  /** t is tool p, renamed, and the route under its new name leads to p. */
  ghost predicate ShowsTool(res: Surface, t: Tool, servers: seq<ServerTools>, p: (nat, nat))
    requires IsTool(servers, p)
  {
    var s, was := servers[p.0].slug, servers[p.0].tools[p.1];
    && t.name == NameOf(servers, p) && t.info == was.info
    && t.name in res.routes && res.routes[t.name].slug == s && res.routes[t.name].tool == was.name
  }

  /** Where among the offers tool p is. */
  function Position(servers: seq<ServerTools>, p: (nat, nat)): nat
    requires IsTool(servers, p)
  {
    |Offers(servers[..p.0])| + p.1
  }

  lemma {:induction false} OffersGrow(servers: seq<ServerTools>, a: nat, c: nat)
    requires a < c <= |servers|
    ensures |Offers(servers[..a])| + |servers[a].tools| <= |Offers(servers[..c])|
    decreases c
  {
    assert servers[..c][..c - 1] == servers[..c - 1];
    if a < c - 1 { OffersGrow(servers, a, c - 1); }
  }

  lemma PositionsIncrease(servers: seq<ServerTools>, p: (nat, nat), q: (nat, nat))
    requires IsTool(servers, p) && IsTool(servers, q)
    ensures Precedes(p, q) <==> Position(servers, p) < Position(servers, q)
  {
    if p.0 < q.0 { OffersGrow(servers, p.0, q.0); }
    if q.0 < p.0 { OffersGrow(servers, q.0, p.0); }
  }

  lemma {:induction false} OfferAtPosition(servers: seq<ServerTools>, p: (nat, nat))
    requires IsTool(servers, p)
    ensures var i := Position(servers, p);
            i < |Offers(servers)| && Offers(servers)[i] == OfferOf(servers[p.0].slug, servers[p.0].tools[p.1])
  {
    var n := |servers| - 1;
    if p.0 < n {
      assert servers[..n][..p.0] == servers[..p.0];
      OfferAtPosition(servers[..n], p);
    }
  }

  lemma {:induction false} ToolAtPosition(servers: seq<ServerTools>, i: nat) returns (p: (nat, nat))
    requires i < |Offers(servers)|
    ensures IsTool(servers, p) && Position(servers, p) == i
  {
    var n := |servers| - 1;
    if i < |Offers(servers[..n])| {
      p := ToolAtPosition(servers[..n], i);
      assert servers[..n][..p.0] == servers[..p.0];
    } else {
      p := (n, i - |Offers(servers[..n])|);
    }
  }

  lemma FirstIffNew(servers: seq<ServerTools>, p: (nat, nat))
    requires IsTool(servers, p)
    ensures Position(servers, p) < |Offers(servers)|
    ensures First(Offers(servers), Position(servers, p)) <==> NameIsNew(servers, p)
  {
    var offers, i := Offers(servers), Position(servers, p);
    OfferAtPosition(servers, p);
    if First(offers, i) {
      forall q | IsTool(servers, q) && Precedes(q, p) ensures NameOf(servers, q) != NameOf(servers, p) {
        PositionsIncrease(servers, q, p);
        OfferAtPosition(servers, q);
      }
    }
    if NameIsNew(servers, p) {
      forall j | 0 <= j < i ensures offers[j].name != offers[i].name {
        var q := ToolAtPosition(servers, j);
        PositionsIncrease(servers, q, p);
        OfferAtPosition(servers, q);
        assert NameOf(servers, q) != NameOf(servers, p);
      }
    }
  }

  /** What is shown, told from the servers alone: server by server and tool by tool in the order given, each
      tool whose name is new, renamed, with its description as it was, and nothing else. */
  ghost predicate ShowsFirsts(res: Surface, servers: seq<ServerTools>, at: seq<(nat, nat)>) {
    && |at| == |res.tools| && (forall k | 0 <= k < |at| :: ShownAt(res, servers, at, k))
    && (forall k, l | 0 <= k < l < |at| :: Precedes(at[k], at[l]))
    && (forall p | IsTool(servers, p) && NameIsNew(servers, p) :: p in at)
  }

  ghost predicate ShownAt(res: Surface, servers: seq<ServerTools>, at: seq<(nat, nat)>, k: nat)
    requires k < |at| == |res.tools|
  {
    IsTool(servers, at[k]) && NameIsNew(servers, at[k]) && ShowsTool(res, res.tools[k], servers, at[k])
  }

  lemma {:induction false} ToolsAt(servers: seq<ServerTools>, positions: seq<nat>) returns (at: seq<(nat, nat)>)
    requires forall k | 0 <= k < |positions| :: positions[k] < |Offers(servers)|
    ensures |at| == |positions|
    ensures forall k | 0 <= k < |at| :: IsTool(servers, at[k]) && Position(servers, at[k]) == positions[k]
  {
    at := [];
    if positions != [] {
      var n := |positions| - 1;
      at := ToolsAt(servers, positions[..n]);
      var p := ToolAtPosition(servers, positions[n]);
      at := at + [p];
    }
  }

  lemma MergeShowsFirsts(servers: seq<ServerTools>) returns (at: seq<(nat, nat)>)
    ensures ShowsFirsts(Merged(Offers(servers)), servers, at)
  {
    var res, offers := Merged(Offers(servers)), Offers(servers);
    var positions := KeepsFirsts(offers);
    forall k | 0 <= k < |positions| ensures positions[k] < |offers| { assert Picked(res, offers, positions, k); }
    at := ToolsAt(servers, positions);
    forall k | 0 <= k < |at| ensures ShownAt(res, servers, at, k) {
      assert Picked(res, offers, positions, k);
      OfferAtPosition(servers, at[k]);
      FirstIffNew(servers, at[k]);
    }
    forall k, l | 0 <= k < l < |at| ensures Precedes(at[k], at[l]) { PositionsIncrease(servers, at[k], at[l]); }
    forall p | IsTool(servers, p) && NameIsNew(servers, p) ensures p in at { NewIsShown(servers, positions, at, p); }
  }

  lemma NewIsShown(servers: seq<ServerTools>, positions: seq<nat>, at: seq<(nat, nat)>, p: (nat, nat))
    requires IsTool(servers, p) && NameIsNew(servers, p) && |at| == |positions|
    requires forall k | 0 <= k < |at| :: IsTool(servers, at[k]) && Position(servers, at[k]) == positions[k]
    requires forall i | 0 <= i < |Offers(servers)| && First(Offers(servers), i) :: i in positions
    ensures p in at
  {
    FirstIffNew(servers, p);
    var k :| 0 <= k < |positions| && positions[k] == Position(servers, p);
    PositionsIncrease(servers, at[k], p);
    PositionsIncrease(servers, p, at[k]);
    assert at[k].0 == p.0 && at[k].1 == p.1;
  }
}
