/** The gateway's side of a change: which credentials go into which instance, how an event changes
    the catalog of per-org registries, and how the catalog is rebuilt from the enabled servers. */
module Gateway {
  import opened Wrappers
  import opened ServerEvents
  import D = Downstream
  import Secrets

  /** An instance is determined by the event it was built from and the credentials baked into it. */
  datatype Instance = Instance(origin: Event, creds: Secrets.Values)

  type Entry = D.Entry<Event, Instance>
  type Org = D.State<Event, Instance>
  type Catalog = map<string, Org>

  function ResolveCredentials(e: Event, secrets: map<string, Secrets.Values>): Secrets.Values
    requires e.Upsert?
  {
    var at := Secrets.OrgRef(e.org, e.id);
    if e.credentialMode == "org_shared" && at in secrets then secrets[at] else map[]
  }

  /** What the per-user provider for e yields for a user at present. */
  function BuildForUser(secrets: map<string, Secrets.Values>, e: Event, user: string): Option<Instance> {
    var at := Secrets.UserRef(e.org, e.id, user);
    if e.Upsert? && at in secrets && KnownType(e.typ) then Some(Instance(e, secrets[at])) else None
  }

  function UserBuilder(secrets: map<string, Secrets.Values>): D.Builder<Event, Instance> {
    (e, user) => BuildForUser(secrets, e, user)
  }

  function EntryOf(e: Event, secrets: map<string, Secrets.Values>): Entry
    requires e.Upsert?
  {
    if e.credentialMode == "per_user" then D.PerUser(e, map[], e.allowedRoles)
    else D.Shared(Instance(e, ResolveCredentials(e, secrets)), e.allowedRoles)
  }

  // ----- The catalog as a value; a registry not yet created is an empty one -----

  function OrgOf(cat: Catalog, org: string): Org {
    if org in cat then cat[org] else D.Empty()
  }

  function Apply(cat: Catalog, e: Event, secrets: map<string, Secrets.Values>): Catalog {
    match e
    case Upsert(_, _, _, _, _, _, _, _, _, _) =>
      if KnownType(e.typ) then cat[e.org := D.Linked(OrgOf(cat, e.org), e.slug, EntryOf(e, secrets))] else cat
    case CredentialChanged(_, _, _, user) => cat[e.org := D.Dropped(OrgOf(cat, e.org), e.slug, user)]
    case Remove(_, _, _) => cat[e.org := D.Unlinked(OrgOf(cat, e.org), e.slug)]
  }

  /** Applying events oldest first, all with the credentials now stored. */
  function Replay(cat: Catalog, q: seq<Event>, secrets: map<string, Secrets.Values>): Catalog {
    if q == [] then cat else Apply(Replay(cat, q[..|q| - 1], secrets), q[|q| - 1], secrets)
  }

  function EntryAt(cat: Catalog, org: string, slug: string): Option<Entry> {
    var r := OrgOf(cat, org);
    if slug in r.servers then Some(r.servers[slug]) else None
  }

  /** What one event does to the entry under one org and slug. */
  function StepAt(o: Option<Entry>, e: Event, secrets: map<string, Secrets.Values>, org: string,
                  slug: string): Option<Entry>
  {
    if e.org != org || e.slug != slug then o
    else
      match e
      case Upsert(_, _, _, _, _, _, _, _, _, _) => if KnownType(e.typ) then Some(EntryOf(e, secrets)) else o
      case Remove(_, _, _) => None
      case CredentialChanged(_, _, _, user) =>
        if o.Some? && o.value.PerUser? then Some(o.value.(users := D.DropUser(o.value.users, user))) else o
  }

  function ReplayAt(o: Option<Entry>, q: seq<Event>, secrets: map<string, Secrets.Values>, org: string,
                    slug: string): Option<Entry>
  {
    if q == [] then o
    else StepAt(ReplayAt(o, q[..|q| - 1], secrets, org, slug), q[|q| - 1], secrets, org, slug)
  }

  /** The catalog changes entry by entry: replaying a queue moves each (org, slug) on its own. */
  lemma {:induction false} ReplayPointwise(cat: Catalog, q: seq<Event>, secrets: map<string, Secrets.Values>,
                                           org: string, slug: string)
    ensures EntryAt(Replay(cat, q, secrets), org, slug) == ReplayAt(EntryAt(cat, org, slug), q, secrets, org, slug)
  {
    if q != [] {
      ReplayPointwise(cat, q[..|q| - 1], secrets, org, slug);
    }
  }

  /** Replaying from the front, as deliveries do. */
  lemma {:induction false} ReplayFront(o: Option<Entry>, q: seq<Event>, secrets: map<string, Secrets.Values>,
                                       org: string, slug: string)
    requires q != []
    ensures ReplayAt(o, q, secrets, org, slug) ==
            ReplayAt(StepAt(o, q[0], secrets, org, slug), q[1..], secrets, org, slug)
  {
    if |q| > 1 {
      var n := |q| - 1;
      ReplayFront(o, q[..n], secrets, org, slug);
      assert q[1..][..n - 1] == q[..n][1..];
    }
  }

  lemma ReplaySnoc(o: Option<Entry>, q: seq<Event>, e: Event, secrets: map<string, Secrets.Values>, org: string,
                   slug: string)
    ensures ReplayAt(o, q + [e], secrets, org, slug) ==
            StepAt(ReplayAt(o, q, secrets, org, slug), e, secrets, org, slug)
  {
    assert (q + [e])[..|q|] == q;
  }

  // ----- The catalog as the gateway holds it: one registry object per org -----

  class Registries {
    var orgs: map<string, D.Registry<Event, Instance>>

    /** No two orgs share a registry. */
    ghost predicate Valid() reads this {
      forall o, p | o in orgs && p in orgs && orgs[o] == orgs[p] :: o == p
    }

    ghost function RegistryOf(org: string): Org reads this, orgs.Values {
      if org in orgs then orgs[org].View() else D.Empty()
    }

    /** The registries hold what cat says, org by org. */
    ghost predicate Holds(cat: Catalog) reads this, orgs.Values {
      Valid() && forall o :: RegistryOf(o) == OrgOf(cat, o)
    }

    constructor ()
      ensures Holds(map[]) && orgs == map[]
    {
      orgs := map[];
    }

    /** The org's registry, created on first use. */
    method For(org: string, ghost cat: Catalog) returns (r: D.Registry<Event, Instance>)
      requires Holds(cat)
      modifies this
      ensures Holds(cat) && org in orgs && r == orgs[org]
      ensures org in old(orgs) ==> orgs == old(orgs)
      ensures org !in old(orgs) ==> fresh(r) && orgs == old(orgs)[org := r]
    {
      if org !in orgs {
        r := new D.Registry();
        orgs := orgs[org := r];
      } else {
        r := orgs[org];
      }
    }

    method AddScoped(org: string, slug: string, ds: Instance, roles: seq<string>, ghost cat: Catalog)
      requires Holds(cat)
      modifies this, orgs.Values
      ensures fresh(orgs.Values - old(orgs.Values))
      ensures Holds(cat[org := D.Linked(OrgOf(cat, org), slug, D.Shared(ds, roles))])
    {
      var r := For(org, cat);
      label found:
      assert r.View() == RegistryOf(org) == OrgOf(cat, org);
      var _ := r.AddScoped(slug, ds, roles);
      assert RegistryOf(org) == D.Linked(OrgOf(cat, org), slug, D.Shared(ds, roles));
      assert forall o | o != org :: RegistryOf(o) == old@found(RegistryOf(o));
    }

    method AddProvider(org: string, slug: string, provider: Event, roles: seq<string>, ghost cat: Catalog)
      requires Holds(cat)
      modifies this, orgs.Values
      ensures fresh(orgs.Values - old(orgs.Values))
      ensures Holds(cat[org := D.Linked(OrgOf(cat, org), slug, D.PerUser(provider, map[], roles))])
    {
      var r := For(org, cat);
      label found:
      assert r.View() == RegistryOf(org) == OrgOf(cat, org);
      var _ := r.AddProvider(slug, provider, roles);
      assert RegistryOf(org) == D.Linked(OrgOf(cat, org), slug, D.PerUser(provider, map[], roles));
      assert forall o | o != org :: RegistryOf(o) == old@found(RegistryOf(o));
    }

    method Invalidate(org: string, slug: string, user: string, ghost cat: Catalog)
      requires Holds(cat)
      modifies this, orgs.Values
      ensures fresh(orgs.Values - old(orgs.Values))
      ensures Holds(cat[org := D.Dropped(OrgOf(cat, org), slug, user)])
    {
      var r := For(org, cat);
      label found:
      assert r.View() == RegistryOf(org) == OrgOf(cat, org);
      var _ := r.Invalidate(slug, user);
      assert RegistryOf(org) == D.Dropped(OrgOf(cat, org), slug, user);
      assert forall o | o != org :: RegistryOf(o) == old@found(RegistryOf(o));
    }

    method Remove(org: string, slug: string, ghost cat: Catalog)
      requires Holds(cat)
      modifies this, orgs.Values
      ensures fresh(orgs.Values - old(orgs.Values))
      ensures Holds(cat[org := D.Unlinked(OrgOf(cat, org), slug)])
    {
      var r := For(org, cat);
      label found:
      assert r.View() == RegistryOf(org) == OrgOf(cat, org);
      var _ := r.Remove(slug);
      assert RegistryOf(org) == D.Unlinked(OrgOf(cat, org), slug);
      assert forall o | o != org :: RegistryOf(o) == old@found(RegistryOf(o));
    }
  }

  class GatewayServer {
    const catalog: Registries
    const secrets: Secrets.MemStore

    constructor (catalog: Registries, secrets: Secrets.MemStore)
      ensures this.catalog == catalog && this.secrets == secrets
    {
      this.catalog, this.secrets := catalog, secrets;
    }

    method Resolve(e: Event) returns (creds: Secrets.Values)
      requires e.Upsert?
      ensures creds == ResolveCredentials(e, secrets.m)
    {
      if e.credentialMode != "org_shared" { return map[]; }
      var v := secrets.Get(Secrets.OrgRef(e.org, e.id));
      return if v.Some? then v.value else map[];
    }

    method ApplyServerEvent(e: Event, ghost cat: Catalog)
      requires catalog.Holds(cat)
      modifies catalog, catalog.orgs.Values
      ensures fresh(catalog.orgs.Values - old(catalog.orgs.Values))
      ensures catalog.Holds(Apply(cat, e, secrets.m))
    {
      match e
      case Upsert(org, _, slug, typ, _, _, _, _, roles, mode) =>
        if !KnownType(typ) { return; }
        if mode == "per_user" {
          catalog.AddProvider(org, slug, e, roles, cat);
        } else {
          var creds := Resolve(e);
          catalog.AddScoped(org, slug, Instance(e, creds), roles, cat);
        }
      case CredentialChanged(org, _, slug, user) => catalog.Invalidate(org, slug, user, cat);
      case Remove(org, _, slug) => catalog.Remove(org, slug, cat);
    }

    /** Applies the enabled servers one after another, in the order the source of truth lists them. */
    method Reconcile(evs: seq<Event>, ghost cat: Catalog)
      requires catalog.Holds(cat)
      modifies catalog, catalog.orgs.Values
      ensures fresh(catalog.orgs.Values - old(catalog.orgs.Values))
      ensures catalog.Holds(Replay(cat, evs, secrets.m))
    {
      for i := 0 to |evs|
        invariant fresh(catalog.orgs.Values - old(catalog.orgs.Values))
        invariant catalog.Holds(Replay(cat, evs[..i], secrets.m))
      {
        assert evs[..i + 1][..i] == evs[..i];
        ApplyServerEvent(evs[i], Replay(cat, evs[..i], secrets.m));
      }
      assert evs[..|evs|] == evs;
    }

    /** A request's lookup, building the caller's instance when it has none yet. */
    method Connect(org: string, slug: string, user: string, ghost cat: Catalog) returns (found: D.Lookup<Instance>)
      requires catalog.Holds(cat)
      modifies catalog, catalog.orgs.Values
      ensures fresh(catalog.orgs.Values - old(catalog.orgs.Values))
      ensures var looked := D.Looked(OrgOf(cat, org), slug, user, UserBuilder(secrets.m));
              found == looked.1 && catalog.Holds(cat[org := looked.0])
    {
      var r := catalog.For(org, cat);
      label found:
      assert r.View() == catalog.RegistryOf(org) == OrgOf(cat, org);
      found := r.GetForUser(slug, user, UserBuilder(secrets.m));
      assert catalog.RegistryOf(org) == D.Looked(OrgOf(cat, org), slug, user, UserBuilder(secrets.m)).0;
      assert forall o | o != org :: catalog.RegistryOf(o) == old@found(catalog.RegistryOf(o));
    }
  }
}
