/** The control plane: server definitions, the handlers that change them, and the events those emit.
    Every handler is given first as a function from the state before to the state after and the
    HTTP status, then as the method that updates the stores and the bus. */
module Admin {
  import opened Wrappers
  import opened ServerEvents
  import Secrets
  import Text

  datatype Server = Server(id: string, org: string, slug: string, typ: string, endpointUrl: string, command: string,
                           args: seq<string>, env: map<string, string>, credentialMode: string, credentialSet: bool,
                           allowedRoles: seq<string>, enabled: bool)

  datatype Store = Store(byId: map<string, Server>, seqNo: nat)

  /** Everything a handler reads and writes. */
  datatype Control = Control(store: Store, secrets: map<string, Secrets.Values>, queue: seq<Event>)

  datatype CreateReq = CreateReq(slug: string, typ: string, endpointUrl: string, command: string, args: seq<string>,
                                 env: map<string, string>, credentialMode: string, allowedRoles: seq<string>)

  datatype PatchReq = PatchReq(enabled: Option<bool>, typ: Option<string>, endpointUrl: Option<string>,
                               command: Option<string>, args: Option<seq<string>>, env: Option<map<string, string>>,
                               credentialMode: Option<string>, allowedRoles: Option<seq<string>>)

  function StoreKey(org: string, id: string): string { org + "/" + id }

  function ServerId(n: nat): string { "srv-" + Text.Decimal(n) }

  // ----- What is published for a change (the bus sink) -----

  function UpsertOf(s: Server): Event {
    Upsert(s.org, s.id, s.slug, s.typ, s.endpointUrl, s.command, s.args, s.env, s.allowedRoles, s.credentialMode)
  }

  function RemoveOf(s: Server): Event { Remove(s.org, s.id, s.slug) }

  /** A change of an org-level credential is announced as a full upsert. */
  function RotationOf(s: Server, user: string): Event {
    if user == "" then UpsertOf(s) else CredentialChanged(s.org, s.id, s.slug, user)
  }

  // ----- The handlers as functions -----

  ghost predicate SlugTaken(st: Store, org: string, slug: string) {
    exists k :: k in st.byId && st.byId[k].org == org && st.byId[k].slug == slug
  }

  function Lookup(st: Store, org: string, id: string): Option<Server> {
    var k := StoreKey(org, id);
    if k in st.byId then Some(st.byId[k]) else None
  }

  function Updated(st: Store, s: Server): Option<Store> {
    var k := StoreKey(s.org, s.id);
    if k in st.byId then Some(st.(byId := st.byId[k := s])) else None
  }

  function UpdatedOrSame(st: Store, s: Server): Store {
    if Updated(st, s).Some? then Updated(st, s).value else st
  }

  predicate ValidCreate(req: CreateReq) {
    req.slug != "" &&
    (if req.typ == "remote_http" then req.endpointUrl != ""
     else if req.typ == "stdio" then req.command != ""
     else false)
  }

  function NewServer(org: string, req: CreateReq, n: nat): Server {
    Server(ServerId(n), org, req.slug, req.typ, req.endpointUrl, req.command, req.args, req.env,
           req.credentialMode, false, req.allowedRoles, true)
  }

  ghost function Create(c: Control, org: string, req: CreateReq): (Control, int) {
    if !ValidCreate(req) then (c, 422)
    else if SlugTaken(c.store, org, req.slug) then (c, 409)
    else
      var n := c.store.seqNo + 1;
      var s := NewServer(org, req, n);
      (c.(store := Store(c.store.byId[StoreKey(org, s.id) := s], n), queue := c.queue + [UpsertOf(s)]), 201)
  }

  function Or<T>(o: Option<T>, t: T): T { if o.Some? then o.value else t }

  function Patched(s: Server, req: PatchReq): Server {
    s.(enabled := Or(req.enabled, s.enabled), typ := Or(req.typ, s.typ),
       endpointUrl := Or(req.endpointUrl, s.endpointUrl),
       command := Or(req.command, s.command), args := Or(req.args, s.args), env := Or(req.env, s.env),
       credentialMode := Or(req.credentialMode, s.credentialMode), allowedRoles := Or(req.allowedRoles, s.allowedRoles))
  }

  function Patch(c: Control, org: string, id: string, req: PatchReq): (Control, int) {
    match Lookup(c.store, org, id)
    case None => (c, 404)
    case Some(was) =>
      var s := Patched(was, req);
      match Updated(c.store, s)
      case None => (c, 500)
      case Some(st) => (c.(store := st, queue := c.queue + [if s.enabled then UpsertOf(s) else RemoveOf(s)]), 200)
  }

  function Delete(c: Control, org: string, id: string): (Control, int) {
    match Lookup(c.store, org, id)
    case None => (c, 404)
    case Some(s) =>
      (c.(store := c.store.(byId := c.store.byId - {StoreKey(org, id)}), queue := c.queue + [RemoveOf(s)]), 204)
  }

  /** stored is whether the secret store does what it is asked; when it fails nothing has happened to it. */
  function PutOrg(c: Control, org: string, id: string, v: Secrets.Values, stored: bool): (Control, int) {
    match Lookup(c.store, org, id)
    case None => (c, 404)
    case Some(s) =>
      if v == map[] then (c, 422)
      else if !stored then (c, 500)
      else
        var s2 := s.(credentialSet := true);
        (Control(if s.credentialSet then c.store else UpdatedOrSame(c.store, s2),
                 c.secrets[Secrets.OrgRef(org, id) := v],
                 c.queue + [RotationOf(s2, "")]), 204)
  }

  function DeleteOrg(c: Control, org: string, id: string, deleted: bool): (Control, int) {
    if !deleted then (c, 500)
    else
      var secrets := c.secrets - {Secrets.OrgRef(org, id)};
      match Lookup(c.store, org, id)
      case None => (c.(secrets := secrets), 204)
      case Some(s) =>
        var s2 := s.(credentialSet := false);
        (Control(UpdatedOrSame(c.store, s2), secrets, c.queue + [RotationOf(s2, "")]), 204)
  }

  function PutMy(c: Control, org: string, id: string, caller: Option<string>, v: Secrets.Values,
                 stored: bool): (Control, int)
  {
    match Lookup(c.store, org, id)
    case None => (c, 404)
    case Some(s) =>
      if caller.None? then (c, 401)
      else if v == map[] then (c, 422)
      else if !stored then (c, 500)
      else
        (c.(secrets := c.secrets[Secrets.UserRef(org, id, caller.value) := v],
            queue := c.queue + [RotationOf(s, caller.value)]), 204)
  }

  function DeleteMy(c: Control, org: string, id: string, caller: Option<string>, deleted: bool): (Control, int) {
    if caller.None? then (c, 401)
    else if !deleted then (c, 500)
    else
      var secrets := c.secrets - {Secrets.UserRef(org, id, caller.value)};
      match Lookup(c.store, org, id)
      case None => (c.(secrets := secrets), 204)
      case Some(s) => (c.(secrets := secrets, queue := c.queue + [RotationOf(s, caller.value)]), 204)
  }

  /** Purging an org deletes the listed servers one by one, announcing each removal. */
  function Purge(c: Control, org: string, listing: seq<Server>): (Control, nat) {
    if listing == [] then (c, 0)
    else
      var (c1, n) := Purge(c, org, listing[..|listing| - 1]);
      var (c2, ok) := PurgeOne(c1, org, listing[|listing| - 1]);
      (c2, if ok then n + 1 else n)
  }

  function PurgeOne(c: Control, org: string, s: Server): (Control, bool) {
    var k := StoreKey(org, s.id);
    if k in c.store.byId
    then (c.(store := c.store.(byId := c.store.byId - {k}), queue := c.queue + [RemoveOf(s)]), true)
    else (c, false)
  }

  ghost predicate IsListing(xs: seq<Server>, st: Store, org: string) {
    && (forall i, j | 0 <= i < j < |xs| :: xs[i] != xs[j])
    && (forall s :: s in xs <==> s.org == org && exists k :: k in st.byId && st.byId[k] == s)
  }

  // ----- The store's invariant -----

  /** Keys name the servers under them, ids were handed out by the counter, and no org has two
      servers with one slug. */
  ghost predicate StoreOk(st: Store) {
    && (forall k | k in st.byId ::
          k == StoreKey(st.byId[k].org, st.byId[k].id) && Secrets.SlashFree(st.byId[k].org) &&
            IssuedId(st, st.byId[k].id))
    && (forall j, k | j in st.byId && k in st.byId && st.byId[j].org == st.byId[k].org &&
        st.byId[j].slug == st.byId[k].slug ::
          j == k)
  }

  /** The part of it that listing needs. */
  ghost predicate Keyed(st: Store) { forall k | k in st.byId :: k == StoreKey(st.byId[k].org, st.byId[k].id) }

  ghost predicate IssuedId(st: Store, id: string) { exists n: nat :: n <= st.seqNo && id == ServerId(n) }

  lemma ServerIdSlashFree(n: nat)
    ensures Secrets.SlashFree(ServerId(n))
  {
    Text.DecimalLacks(n, '/');
  }

  lemma KeyInjective(o1: string, i1: string, o2: string, i2: string)
    requires Secrets.SlashFree(o1) && Secrets.SlashFree(o2)
    requires StoreKey(o1, i1) == StoreKey(o2, i2)
    ensures o1 == o2 && i1 == i2
  {
    assert o1 + "/" + i1 == o1 + ['/'] + i1 && o2 + "/" + i2 == o2 + ['/'] + i2;
    Text.CutUnique('/', o1, i1, o2, i2);
  }

  /** The next id is under no key yet. */
  lemma NextKeyIsNew(st: Store, org: string)
    requires StoreOk(st) && Secrets.SlashFree(org)
    ensures StoreKey(org, ServerId(st.seqNo + 1)) !in st.byId
  {
    var id := ServerId(st.seqNo + 1);
    var k := StoreKey(org, id);
    if k in st.byId {
      var s := st.byId[k];
      KeyInjective(s.org, s.id, org, id);
      var n: nat :| n <= st.seqNo && s.id == ServerId(n);
      Secrets.Strip("srv-", Text.Decimal(n), Text.Decimal(st.seqNo + 1));
      Text.DecimalInjective(n, st.seqNo + 1);
    }
  }

  /** A lookup by org and id finds that org's server with that id and no other's. */
  lemma LookupIsScoped(st: Store, org: string, id: string)
    requires StoreOk(st) && Secrets.SlashFree(org) && Lookup(st, org, id).Some?
    ensures Lookup(st, org, id).value.org == org && Lookup(st, org, id).value.id == id
    ensures Secrets.SlashFree(id)
  {
    var s := Lookup(st, org, id).value;
    KeyInjective(s.org, s.id, org, id);
    var n: nat :| n <= st.seqNo && s.id == ServerId(n);
    ServerIdSlashFree(n);
  }

  lemma CreateKeepsStore(c: Control, org: string, req: CreateReq)
    requires StoreOk(c.store) && Secrets.SlashFree(org)
    ensures StoreOk(Create(c, org, req).0.store)
  {
    NextKeyIsNew(c.store, org);
    var st := Create(c, org, req).0.store;
    assert st.seqNo > c.store.seqNo ==> ServerId(st.seqNo) == ServerId(c.store.seqNo + 1);
  }

  lemma UpdateKeepsStore(st: Store, org: string, id: string, s: Server)
    requires StoreOk(st) && Lookup(st, org, id).Some?
    requires s.org == Lookup(st, org, id).value.org && s.id == Lookup(st, org, id).value.id
    requires s.slug == Lookup(st, org, id).value.slug
    ensures Updated(st, s) == Some(st.(byId := st.byId[StoreKey(org, id) := s]))
    ensures StoreOk(Updated(st, s).value)
  {
  }

  lemma {:induction false} PurgeKeepsStore(c: Control, org: string, listing: seq<Server>)
    requires StoreOk(c.store)
    ensures StoreOk(Purge(c, org, listing).0.store)
    ensures Purge(c, org, listing).0.secrets == c.secrets
    ensures forall k :: k in Purge(c, org, listing).0.store.byId <==>
              k in c.store.byId && forall s | s in listing :: StoreKey(org, s.id) != k
    ensures forall k | k in Purge(c, org, listing).0.store.byId ::
            Purge(c, org, listing).0.store.byId[k] == c.store.byId[k]
  {
    if listing != [] {
      var n := |listing| - 1;
      PurgeKeepsStore(c, org, listing[..n]);
      assert listing == listing[..n] + [listing[n]];
    }
  }

  // ----- The handlers over the stores -----

  class MemStore {
    var byId: map<string, Server>
    var seqNo: nat

    ghost function View(): Store reads this { Store(byId, seqNo) }

    constructor ()
      ensures View() == Store(map[], 0)
    {
      byId, seqNo := map[], 0;
    }

    /** Stores s under the next id, unless another of the org's servers has its slug. */
    method Create(s: Server) returns (created: Option<Server>)
      modifies this
      ensures SlugTaken(old(View()), s.org, s.slug) ==> created.None? && View() == old(View())
      ensures !SlugTaken(old(View()), s.org, s.slug) ==>
                created == Some(s.(id := ServerId(seqNo))) && seqNo == old(seqNo) + 1
                && byId == old(byId)[StoreKey(s.org, created.value.id) := created.value]
    {
      var rest := byId.Keys;
      while rest != {}
        invariant rest <= byId.Keys
        invariant forall k | k in byId.Keys - rest :: !(byId[k].org == s.org && byId[k].slug == s.slug)
        decreases rest
      {
        var k :| k in rest;
        if byId[k].org == s.org && byId[k].slug == s.slug { return None; }
        rest := rest - {k};
      }
      seqNo := seqNo + 1;
      var s1 := s.(id := ServerId(seqNo));
      byId := byId[StoreKey(s.org, s1.id) := s1];
      return Some(s1);
    }

    method Get(org: string, id: string) returns (s: Option<Server>)
      ensures s == Lookup(View(), org, id)
    {
      var k := StoreKey(org, id);
      s := if k in byId then Some(byId[k]) else None;
    }

    method Update(s: Server) returns (ok: bool)
      modifies this
      ensures ok == Updated(old(View()), s).Some?
      ensures View() == UpdatedOrSame(old(View()), s)
    {
      var k := StoreKey(s.org, s.id);
      ok := k in byId;
      if ok { byId := byId[k := s]; }
    }

    method Delete(org: string, id: string) returns (ok: bool)
      modifies this
      ensures ok == Lookup(old(View()), org, id).Some?
      ensures View() == if ok then old(View()).(byId := old(byId) - {StoreKey(org, id)}) else old(View())
    {
      ok := StoreKey(org, id) in byId;
      if ok { byId := byId - {StoreKey(org, id)}; }
    }

    /** The org's servers, in whatever order the map is ranged over. */
    method List(org: string) returns (out: seq<Server>)
      requires Keyed(View())
      ensures IsListing(out, View(), org)
    {
      out := [];
      var rest := byId.Keys;
      while rest != {}
        invariant rest <= byId.Keys
        invariant forall i, j | 0 <= i < j < |out| :: out[i] != out[j]
        invariant forall s | s in out ::
                  s.org == org && StoreKey(s.org, s.id) in byId.Keys - rest && byId[StoreKey(s.org, s.id)] == s
        invariant forall k | k in byId.Keys - rest && byId[k].org == org :: byId[k] in out
        decreases rest
      {
        var k :| k in rest;
        assert k == StoreKey(byId[k].org, byId[k].id);
        if byId[k].org == org { out := out + [byId[k]]; }
        rest := rest - {k};
      }
    }
  }

  class Handlers {
    const store: MemStore
    const secrets: Secrets.MemStore
    const bus: Bus

    constructor (store: MemStore, secrets: Secrets.MemStore, bus: Bus)
      ensures this.store == store && this.secrets == secrets && this.bus == bus
    {
      this.store, this.secrets, this.bus := store, secrets, bus;
    }

    ghost function View(): Control reads store, secrets, bus {
      Control(store.View(), secrets.m, bus.queue)
    }

    method HandleCreate(org: string, req: CreateReq) returns (status: int)
      modifies store, bus
      ensures (View(), status) == Create(old(View()), org, req)
    {
      if req.slug == "" { return 422; }
      if req.typ == "remote_http" {
        if req.endpointUrl == "" { return 422; }
      } else if req.typ == "stdio" {
        if req.command == "" { return 422; }
      } else {
        return 422;
      }
      var s := Server("", org, req.slug, req.typ, req.endpointUrl, req.command, req.args, req.env,
                      req.credentialMode, false, req.allowedRoles, true);
      var created := store.Create(s);
      if created.None? { return 409; }
      if created.value.enabled { bus.Publish(UpsertOf(created.value)); }
      return 201;
    }

    method HandlePatch(org: string, id: string, req: PatchReq) returns (status: int)
      modifies store, bus
      ensures (View(), status) == Patch(old(View()), org, id, req)
    {
      var found := store.Get(org, id);
      if found.None? { return 404; }
      var s := found.value;
      s := s.(enabled := Or(req.enabled, s.enabled));
      s := s.(typ := Or(req.typ, s.typ));
      s := s.(endpointUrl := Or(req.endpointUrl, s.endpointUrl));
      s := s.(command := Or(req.command, s.command));
      s := s.(args := Or(req.args, s.args));
      s := s.(env := Or(req.env, s.env));
      s := s.(credentialMode := Or(req.credentialMode, s.credentialMode));
      s := s.(allowedRoles := Or(req.allowedRoles, s.allowedRoles));
      var ok := store.Update(s);
      if !ok { return 500; }
      if s.enabled { bus.Publish(UpsertOf(s)); } else { bus.Publish(RemoveOf(s)); }
      return 200;
    }

    method HandleDelete(org: string, id: string) returns (status: int)
      modifies store, bus
      ensures (View(), status) == Delete(old(View()), org, id)
    {
      var found := store.Get(org, id);
      if found.None? { return 404; }
      var ok := store.Delete(org, id);
      if !ok { return 404; }
      bus.Publish(RemoveOf(found.value));
      return 204;
    }

    method PublishRotation(s: Server, user: string)
      modifies bus
      ensures bus.queue == old(bus.queue) + [RotationOf(s, user)]
    {
      if user == "" { bus.Publish(UpsertOf(s)); } else { bus.Publish(CredentialChanged(s.org, s.id, s.slug, user)); }
    }

    method PutOrgCredentials(org: string, id: string, v: Secrets.Values, stored: bool) returns (status: int)
      modifies store, secrets, bus
      ensures (View(), status) == PutOrg(old(View()), org, id, v, stored)
    {
      var found := store.Get(org, id);
      if found.None? { return 404; }
      var s := found.value;
      if |v| == 0 { return 422; }
      if !stored { return 500; }
      secrets.Put(Secrets.OrgRef(org, id), v);
      if !s.credentialSet {
        s := s.(credentialSet := true);
        var _ := store.Update(s);
      }
      PublishRotation(s, "");
      return 204;
    }

    method DeleteOrgCredentials(org: string, id: string, deleted: bool) returns (status: int)
      modifies store, secrets, bus
      ensures (View(), status) == DeleteOrg(old(View()), org, id, deleted)
    {
      if !deleted { return 500; }
      secrets.Delete(Secrets.OrgRef(org, id));
      var found := store.Get(org, id);
      if found.Some? {
        var s := found.value.(credentialSet := false);
        var _ := store.Update(s);
        PublishRotation(s, "");
      }
      return 204;
    }

    method PutMyCredentials(org: string, id: string, caller: Option<string>, v: Secrets.Values, stored: bool)
      returns (status: int)
      modifies secrets, bus
      ensures (View(), status) == PutMy(old(View()), org, id, caller, v, stored)
    {
      var found := store.Get(org, id);
      if found.None? { return 404; }
      if caller.None? { return 401; }
      if |v| == 0 { return 422; }
      if !stored { return 500; }
      secrets.Put(Secrets.UserRef(org, id, caller.value), v);
      PublishRotation(found.value, caller.value);
      return 204;
    }

    method DeleteMyCredentials(org: string, id: string, caller: Option<string>, deleted: bool) returns (status: int)
      modifies secrets, bus
      ensures (View(), status) == DeleteMy(old(View()), org, id, caller, deleted)
    {
      if caller.None? { return 401; }
      if !deleted { return 500; }
      secrets.Delete(Secrets.UserRef(org, id, caller.value));
      var found := store.Get(org, id);
      if found.Some? { PublishRotation(found.value, caller.value); }
      return 204;
    }

    method PurgeOrg(org: string) returns (n: nat, ghost listing: seq<Server>)
      requires StoreOk(store.View())
      modifies store, bus
      ensures IsListing(listing, old(store.View()), org)
      ensures (View(), n) == Purge(old(View()), org, listing)
    {
      var servers := store.List(org);
      listing := servers;
      n := PurgeAll(org, servers);
    }

    method PurgeAll(org: string, servers: seq<Server>) returns (n: nat)
      modifies store, bus
      ensures (View(), n) == Purge(old(View()), org, servers)
    {
      n := 0;
      for i := 0 to |servers|
        invariant (View(), n) == Purge(old(View()), org, servers[..i])
      {
        assert servers[..i + 1][..i] == servers[..i];
        var ok := PurgeServer(org, servers[i]);
        if ok { n := n + 1; }
      }
      assert servers[..|servers|] == servers;
    }

    method PurgeServer(org: string, s: Server) returns (ok: bool)
      modifies store, bus
      ensures (View(), ok) == PurgeOne(old(View()), org, s)
    {
      ok := store.Delete(org, s.id);
      if ok { bus.Publish(RemoveOf(s)); }
    }
  }
}
