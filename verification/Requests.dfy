/** What administrators and users have asked for, kept by org, id and user as such, and told from the
    requests alone; and that the control plane stores just that, answers accordingly, and the gateway
    serves just that. */
module Requests {
  import opened Wrappers
  import opened ServerEvents
  import opened Admin
  import opened Gateway
  import opened Propagation
  import D = Downstream
  import Secrets
  import Text

  datatype Definition = Definition(slug: string, typ: string, endpointUrl: string, command: string, args: seq<string>,
                                   env: map<string, string>, credentialMode: string, allowedRoles: seq<string>,
                                   enabled: bool, credentialSet: bool)

  /** made counts the servers created. */
  datatype Wanted = Wanted(made: nat, servers: map<(string, string), Definition>,
                           orgSecrets: map<(string, string), Secrets.Values>,
                           userSecrets: map<(string, string, string), Secrets.Values>)

  const Nothing := Wanted(0, map[], map[], map[])

  // ----- What a request asks for -----

  /** A stdio server needs a command, a remote one an endpoint, and there are no others. */
  predicate WellFormed(req: CreateReq) {
    && req.slug != ""
    && (req.typ == "stdio" || req.typ == "remote_http")
    && (req.typ == "stdio" ==> req.command != "")
    && (req.typ == "remote_http" ==> req.endpointUrl != "")
  }

  ghost predicate Taken(w: Wanted, org: string, slug: string) {
    exists id :: (org, id) in w.servers && w.servers[(org, id)].slug == slug
  }

  function NextId(w: Wanted): string { "srv-" + Text.Decimal(w.made + 1) }

  function AsAsked(req: CreateReq): (d: Definition) {
    Definition(slug := req.slug, typ := req.typ, endpointUrl := req.endpointUrl, command := req.command,
               args := req.args, env := req.env, credentialMode := req.credentialMode,
               allowedRoles := req.allowedRoles, enabled := true, credentialSet := false)
  }

  function Sent<T>(sent: Option<T>, before: T): T {
    match sent
    case None => before
    case Some(now) => now
  }

  /** What is sent replaces what there was; the slug stays. */
  function AsPatched(d: Definition, p: PatchReq): Definition {
    Definition(slug := d.slug, typ := Sent(p.typ, d.typ), endpointUrl := Sent(p.endpointUrl, d.endpointUrl),
               command := Sent(p.command, d.command), args := Sent(p.args, d.args), env := Sent(p.env, d.env),
               credentialMode := Sent(p.credentialMode, d.credentialMode),
               allowedRoles := Sent(p.allowedRoles, d.allowedRoles), enabled := Sent(p.enabled, d.enabled),
               credentialSet := d.credentialSet)
  }

  ghost function WithServer(w: Wanted, org: string, id: string, d: Definition): Wanted {
    w.(servers := w.servers[(org, id) := d])
  }

  /** Marks the server, if there is one, as having an org-level credential or not. */
  ghost function Marked(w: Wanted, org: string, id: string, set_: bool): Wanted {
    if (org, id) in w.servers then WithServer(w, org, id, w.servers[(org, id)].(credentialSet := set_)) else w
  }

  /** What is wanted after one more step; deliveries, connections and restarts ask for nothing. */
  ghost function Heeded(w: Wanted, step: Step): Wanted {
    match step
    case DoCreate(org, req) =>
      if WellFormed(req) && !Taken(w, org, req.slug)
      then WithServer(w, org, NextId(w), AsAsked(req)).(made := w.made + 1) else w
    case DoPatch(org, id, p) =>
      if (org, id) in w.servers then WithServer(w, org, id, AsPatched(w.servers[(org, id)], p)) else w
    case DoDelete(org, id) => w.(servers := w.servers - {(org, id)})
    case DoPutOrg(org, id, values, stored) =>
      if (org, id) in w.servers && values != map[] && stored
      then Marked(w, org, id, true).(orgSecrets := w.orgSecrets[(org, id) := values]) else w
    case DoDeleteOrg(org, id, deleted) =>
      if deleted then Marked(w, org, id, false).(orgSecrets := w.orgSecrets - {(org, id)}) else w
    case DoPutMy(org, id, caller, values, stored) =>
      if (org, id) in w.servers && caller.Some? && values != map[] && stored
      then w.(userSecrets := w.userSecrets[(org, id, caller.value) := values]) else w
    case DoDeleteMy(org, id, caller, deleted) =>
      if caller.Some? && deleted then w.(userSecrets := w.userSecrets - {(org, id, caller.value)}) else w
    case DoPurge(org, _) => w.(servers := map k | k in w.servers && k.0 != org :: w.servers[k])
    case _ => w
  }

  /** What all the steps, one after the other, ask for. */
  ghost function Asked(steps: seq<Step>): Wanted {
    if steps == [] then Nothing else Heeded(Asked(steps[..|steps| - 1]), steps[|steps| - 1])
  }

  // ----- The control plane stores what is wanted -----

  predicate IsServer(s: Server, org: string, id: string, d: Definition) {
    && s.org == org && s.id == id && s.slug == d.slug && s.typ == d.typ && s.endpointUrl == d.endpointUrl
    && s.command == d.command && s.args == d.args && s.env == d.env && s.credentialMode == d.credentialMode
    && s.allowedRoles == d.allowedRoles && s.enabled == d.enabled && s.credentialSet == d.credentialSet
  }

  type Servers = map<(string, string), Definition>
  type OrgSecrets = map<(string, string), Secrets.Values>
  type UserSecrets = map<(string, string, string), Secrets.Values>

  ghost predicate ServerStored(st: Store, servers: Servers, org: string, id: string) {
    var s := Lookup(st, org, id);
    (s.Some? <==> (org, id) in servers) && (s.Some? ==> IsServer(s.value, org, id, servers[(org, id)]))
  }

  ghost predicate OrgSecretStored(secrets: map<string, Secrets.Values>, wanted: OrgSecrets, org: string, id: string) {
    var at := Secrets.OrgRef(org, id);
    (at in secrets <==> (org, id) in wanted) && (at in secrets ==> secrets[at] == wanted[(org, id)])
  }

  ghost predicate UserSecretStored(secrets: map<string, Secrets.Values>, wanted: UserSecrets, org: string, id: string,
                                   user: string)
  {
    var at := Secrets.UserRef(org, id, user);
    (at in secrets <==> (org, id, user) in wanted) && (at in secrets ==> secrets[at] == wanted[(org, id, user)])
  }

  ghost predicate ServersStored(st: Store, servers: Servers) {
    forall org, id | Secrets.SlashFree(org) :: ServerStored(st, servers, org, id)
  }

  ghost predicate SecretsStored(secrets: map<string, Secrets.Values>, orgs: OrgSecrets, users: UserSecrets) {
    && (forall org, id | Secrets.SlashFree(org) && Secrets.SlashFree(id) :: OrgSecretStored(secrets, orgs, org, id))
    && (forall org, id, user | Secrets.SlashFree(org) && Secrets.SlashFree(id) ::
          UserSecretStored(secrets, users, org, id, user))
  }

  /** Org by org, server by server and user by user, the stores hold what is wanted and nothing else. */
  ghost predicate Stores(c: Control, w: Wanted) {
    && StoreOk(c.store) && c.store.seqNo == w.made
    && ServersStored(c.store, w.servers) && SecretsStored(c.secrets, w.orgSecrets, w.userSecrets)
  }

  // ----- Servers -----

  lemma TakenIff(st: Store, w: Wanted, org: string, slug: string)
    requires StoreOk(st) && ServersStored(st, w.servers) && Secrets.SlashFree(org)
    ensures SlugTaken(st, org, slug) <==> Taken(w, org, slug)
  {
    if k :| k in st.byId && st.byId[k].org == org && st.byId[k].slug == slug {
      assert ServerStored(st, w.servers, org, st.byId[k].id);
    }
    if id :| (org, id) in w.servers && w.servers[(org, id)].slug == slug {
      assert ServerStored(st, w.servers, org, id);
      assert StoreKey(org, id) in st.byId;
    }
  }

  /** Writing a server under its own key is writing it at its org and id. */
  lemma ServerWritten(st: Store, n: nat, servers: Servers, org: string, id: string, s: Server, d: Definition)
    requires ServersStored(st, servers) && Secrets.SlashFree(org) && IsServer(s, org, id, d)
    ensures ServersStored(Store(st.byId[StoreKey(org, id) := s], n), servers[(org, id) := d])
  {
    var st2, servers2 := Store(st.byId[StoreKey(org, id) := s], n), servers[(org, id) := d];
    forall o, i | Secrets.SlashFree(o) ensures ServerStored(st2, servers2, o, i) {
      assert ServerStored(st, servers, o, i);
      if StoreKey(o, i) == StoreKey(org, id) { KeyInjective(o, i, org, id); }
    }
  }

  lemma ServerRemoved(st: Store, servers: Servers, org: string, id: string)
    requires ServersStored(st, servers) && Secrets.SlashFree(org)
    ensures ServersStored(st.(byId := st.byId - {StoreKey(org, id)}), servers - {(org, id)})
  {
    var st2, servers2 := st.(byId := st.byId - {StoreKey(org, id)}), servers - {(org, id)};
    forall o, i | Secrets.SlashFree(o) ensures ServerStored(st2, servers2, o, i) {
      assert ServerStored(st, servers, o, i);
      if StoreKey(o, i) == StoreKey(org, id) { KeyInjective(o, i, org, id); }
    }
  }

  // ----- Secrets -----

  lemma OrgSecretPut(secrets: map<string, Secrets.Values>, orgs: OrgSecrets, users: UserSecrets, org: string,
                     id: string, v: Secrets.Values)
    requires SecretsStored(secrets, orgs, users) && Secrets.SlashFree(org) && Secrets.SlashFree(id)
    ensures SecretsStored(secrets[Secrets.OrgRef(org, id) := v], orgs[(org, id) := v], users)
  {
    var secrets2, orgs2 := secrets[Secrets.OrgRef(org, id) := v], orgs[(org, id) := v];
    OrgRefAlone(org, id);
    forall o, i | Secrets.SlashFree(o) && Secrets.SlashFree(i) ensures OrgSecretStored(secrets2, orgs2, o, i) {
      assert OrgSecretStored(secrets, orgs, o, i);
    }
    forall o, i, u | Secrets.SlashFree(o) && Secrets.SlashFree(i) ensures UserSecretStored(secrets2, users, o, i, u) {
      assert UserSecretStored(secrets, users, o, i, u);
    }
  }

  lemma OrgSecretDropped(secrets: map<string, Secrets.Values>, orgs: OrgSecrets, users: UserSecrets, org: string,
                         id: string)
    requires SecretsStored(secrets, orgs, users) && Secrets.SlashFree(org) && Secrets.SlashFree(id)
    ensures SecretsStored(secrets - {Secrets.OrgRef(org, id)}, orgs - {(org, id)}, users)
  {
    var secrets2, orgs2 := secrets - {Secrets.OrgRef(org, id)}, orgs - {(org, id)};
    OrgRefAlone(org, id);
    forall o, i | Secrets.SlashFree(o) && Secrets.SlashFree(i) ensures OrgSecretStored(secrets2, orgs2, o, i) {
      assert OrgSecretStored(secrets, orgs, o, i);
    }
    forall o, i, u | Secrets.SlashFree(o) && Secrets.SlashFree(i) ensures UserSecretStored(secrets2, users, o, i, u) {
      assert UserSecretStored(secrets, users, o, i, u);
    }
  }

  lemma OrgRefAlone(org: string, id: string)
    requires Secrets.SlashFree(org) && Secrets.SlashFree(id)
    ensures forall o, i | Secrets.SlashFree(o) && Secrets.SlashFree(i) && (o, i) != (org, id) ::
              Secrets.OrgRef(o, i) != Secrets.OrgRef(org, id)
    ensures forall o, i, u | Secrets.SlashFree(o) && Secrets.SlashFree(i) ::
              Secrets.UserRef(o, i, u) != Secrets.OrgRef(org, id)
  {
    forall o, i | Secrets.SlashFree(o) && Secrets.SlashFree(i) && (o, i) != (org, id)
      ensures Secrets.OrgRef(o, i) != Secrets.OrgRef(org, id)
    {
      if Secrets.OrgRef(o, i) == Secrets.OrgRef(org, id) { Secrets.OrgRefInjective(o, i, org, id); }
    }
    var at := Secrets.OrgRef(org, id);
    forall o, i, u | Secrets.SlashFree(o) && Secrets.SlashFree(i) ensures Secrets.UserRef(o, i, u) != at {
      Secrets.OrgRefIsNoUserRef(org, id, o, i, u);
    }
  }

  lemma UserRefAlone(org: string, id: string, user: string)
    requires Secrets.SlashFree(org) && Secrets.SlashFree(id)
    ensures forall o, i, u | Secrets.SlashFree(o) && Secrets.SlashFree(i) && (o, i, u) != (org, id, user) ::
              Secrets.UserRef(o, i, u) != Secrets.UserRef(org, id, user)
    ensures forall o, i | Secrets.SlashFree(o) && Secrets.SlashFree(i) ::
              Secrets.OrgRef(o, i) != Secrets.UserRef(org, id, user)
  {
    var at := Secrets.UserRef(org, id, user);
    forall o, i, u | Secrets.SlashFree(o) && Secrets.SlashFree(i) && (o, i, u) != (org, id, user)
      ensures Secrets.UserRef(o, i, u) != at
    {
      if Secrets.UserRef(o, i, u) == at { Secrets.UserRefInjective(o, i, u, org, id, user); }
    }
    forall o, i | Secrets.SlashFree(o) && Secrets.SlashFree(i) ensures Secrets.OrgRef(o, i) != at {
      Secrets.OrgRefIsNoUserRef(o, i, org, id, user);
    }
  }

  lemma UserSecretPut(secrets: map<string, Secrets.Values>, orgs: OrgSecrets, users: UserSecrets, org: string,
                      id: string, user: string, v: Secrets.Values)
    requires SecretsStored(secrets, orgs, users) && Secrets.SlashFree(org) && Secrets.SlashFree(id)
    ensures SecretsStored(secrets[Secrets.UserRef(org, id, user) := v], orgs, users[(org, id, user) := v])
  {
    var secrets2, users2 := secrets[Secrets.UserRef(org, id, user) := v], users[(org, id, user) := v];
    UserRefAlone(org, id, user);
    forall o, i | Secrets.SlashFree(o) && Secrets.SlashFree(i) ensures OrgSecretStored(secrets2, orgs, o, i) {
      assert OrgSecretStored(secrets, orgs, o, i);
    }
    forall o, i, u | Secrets.SlashFree(o) && Secrets.SlashFree(i) ensures UserSecretStored(secrets2, users2, o, i, u) {
      assert UserSecretStored(secrets, users, o, i, u);
    }
  }

  lemma UserSecretDropped(secrets: map<string, Secrets.Values>, orgs: OrgSecrets, users: UserSecrets, org: string,
                          id: string, user: string)
    requires SecretsStored(secrets, orgs, users) && Secrets.SlashFree(org) && Secrets.SlashFree(id)
    ensures SecretsStored(secrets - {Secrets.UserRef(org, id, user)}, orgs, users - {(org, id, user)})
  {
    var secrets2, users2 := secrets - {Secrets.UserRef(org, id, user)}, users - {(org, id, user)};
    UserRefAlone(org, id, user);
    forall o, i | Secrets.SlashFree(o) && Secrets.SlashFree(i) ensures OrgSecretStored(secrets2, orgs, o, i) {
      assert OrgSecretStored(secrets, orgs, o, i);
    }
    forall o, i, u | Secrets.SlashFree(o) && Secrets.SlashFree(i) ensures UserSecretStored(secrets2, users2, o, i, u) {
      assert UserSecretStored(secrets, users, o, i, u);
    }
  }

  // ----- Each handler -----

  /** The status a request is answered with; steps that are no requests have none. */
  ghost function Replied(sys: System, step: Step): Option<int> {
    var c := sys.control;
    match step
    case DoCreate(org, req) => Some(Create(c, org, req).1)
    case DoPatch(org, id, patch) => Some(Patch(c, org, id, patch).1)
    case DoDelete(org, id) => Some(Delete(c, org, id).1)
    case DoPutOrg(org, id, values, stored) => Some(PutOrg(c, org, id, values, stored).1)
    case DoDeleteOrg(org, id, deleted) => Some(DeleteOrg(c, org, id, deleted).1)
    case DoPutMy(org, id, caller, values, stored) => Some(PutMy(c, org, id, caller, values, stored).1)
    case DoDeleteMy(org, id, caller, deleted) => Some(DeleteMy(c, org, id, caller, deleted).1)
    case _ => None
  }

  /** The one that is due. */
  ghost function Due(w: Wanted, step: Step): Option<int> {
    match step
    case DoCreate(org, req) => Some(if !WellFormed(req) then 422 else if Taken(w, org, req.slug) then 409 else 201)
    case DoPatch(org, id, _) => Some(if (org, id) in w.servers then 200 else 404)
    case DoDelete(org, id) => Some(if (org, id) in w.servers then 204 else 404)
    case DoPutOrg(org, id, values, stored) =>
      Some(if (org, id) !in w.servers then 404 else if values == map[] then 422 else if stored then 204 else 500)
    case DoDeleteOrg(_, _, deleted) => Some(if deleted then 204 else 500)
    case DoPutMy(org, id, caller, values, stored) =>
      Some(if (org, id) !in w.servers then 404 else if caller.None? then 401 else if values == map[] then 422
           else if stored then 204 else 500)
    case DoDeleteMy(_, _, caller, deleted) => Some(if caller.None? then 401 else if deleted then 204 else 500)
    case _ => None
  }

  /** c2 and the status are what the step should make of stores that hold what is wanted. */
  ghost predicate Obeys(c2: Control, status: int, w: Wanted, step: Step) {
    Stores(c2, Heeded(w, step)) && Due(w, step) == Some(status)
  }

  lemma CreateObeys(c: Control, w: Wanted, org: string, req: CreateReq)
    requires Stores(c, w) && Secrets.SlashFree(org)
    ensures var (c2, status) := Create(c, org, req); Obeys(c2, status, w, DoCreate(org, req))
  {
    TakenIff(c.store, w, org, req.slug);
    assert ValidCreate(req) <==> WellFormed(req);
    if WellFormed(req) && !Taken(w, org, req.slug) { CreateAccepted(c, w, org, req); }
  }

  lemma CreateAccepted(c: Control, w: Wanted, org: string, req: CreateReq)
    requires Stores(c, w) && Secrets.SlashFree(org) && ValidCreate(req) && !SlugTaken(c.store, org, req.slug)
    ensures Stores(Create(c, org, req).0, WithServer(w, org, NextId(w), AsAsked(req)).(made := w.made + 1))
  {
    var n := c.store.seqNo + 1;
    CreateKeepsStore(c, org, req);
    ServerWritten(c.store, n, w.servers, org, NextId(w), NewServer(org, req, n), AsAsked(req));
  }

  lemma PatchObeys(c: Control, w: Wanted, org: string, id: string, p: PatchReq)
    requires Stores(c, w) && Secrets.SlashFree(org)
    ensures var (c2, status) := Patch(c, org, id, p); Obeys(c2, status, w, DoPatch(org, id, p))
  {
    assert ServerStored(c.store, w.servers, org, id);
    if (org, id) in w.servers {
      var s := Patched(Lookup(c.store, org, id).value, p);
      UpdateKeepsStore(c.store, org, id, s);
      ServerWritten(c.store, c.store.seqNo, w.servers, org, id, s, AsPatched(w.servers[(org, id)], p));
    }
  }

  lemma DeleteObeys(c: Control, w: Wanted, org: string, id: string)
    requires Stores(c, w) && Secrets.SlashFree(org)
    ensures var (c2, status) := Delete(c, org, id); Obeys(c2, status, w, DoDelete(org, id))
  {
    assert ServerStored(c.store, w.servers, org, id);
    ServerRemoved(c.store, w.servers, org, id);
    if (org, id) !in w.servers { assert w.servers - {(org, id)} == w.servers; }
  }

  /** Storing a server again with only its mark changed. */
  lemma MarkStored(st: Store, w: Wanted, org: string, id: string, set_: bool)
    requires StoreOk(st) && ServersStored(st, w.servers) && Secrets.SlashFree(org) && (org, id) in w.servers
    ensures Lookup(st, org, id).Some?
    ensures var s := Lookup(st, org, id).value;
            var st2 := UpdatedOrSame(st, s.(credentialSet := set_));
            && StoreOk(st2) && st2.seqNo == st.seqNo && ServersStored(st2, Marked(w, org, id, set_).servers)
            && (s.credentialSet == set_ ==> st2 == st)
  {
    assert ServerStored(st, w.servers, org, id);
    var s := Lookup(st, org, id).value;
    var s2 := s.(credentialSet := set_);
    UpdateKeepsStore(st, org, id, s2);
    ServerWritten(st, st.seqNo, w.servers, org, id, s2, w.servers[(org, id)].(credentialSet := set_));
    if s.credentialSet == set_ { WriteBack(st, org, id); }
  }

  lemma WriteBack(st: Store, org: string, id: string)
    requires Lookup(st, org, id).Some?
    ensures st.byId[StoreKey(org, id) := Lookup(st, org, id).value] == st.byId
  {
  }

  lemma PutOrgObeys(c: Control, w: Wanted, org: string, id: string, v: Secrets.Values, stored: bool)
    requires Stores(c, w) && Secrets.SlashFree(org) && Secrets.SlashFree(id)
    ensures var (c2, status) := PutOrg(c, org, id, v, stored); Obeys(c2, status, w, DoPutOrg(org, id, v, stored))
  {
    assert ServerStored(c.store, w.servers, org, id);
    if (org, id) in w.servers && v != map[] && stored {
      MarkStored(c.store, w, org, id, true);
      OrgSecretPut(c.secrets, w.orgSecrets, w.userSecrets, org, id, v);
    }
  }

  lemma DeleteOrgObeys(c: Control, w: Wanted, org: string, id: string, deleted: bool)
    requires Stores(c, w) && Secrets.SlashFree(org) && Secrets.SlashFree(id)
    ensures var (c2, status) := DeleteOrg(c, org, id, deleted); Obeys(c2, status, w, DoDeleteOrg(org, id, deleted))
  {
    assert ServerStored(c.store, w.servers, org, id);
    if deleted {
      OrgSecretDropped(c.secrets, w.orgSecrets, w.userSecrets, org, id);
      if (org, id) in w.servers { MarkStored(c.store, w, org, id, false); }
    }
  }

  lemma PutMyObeys(c: Control, w: Wanted, org: string, id: string, caller: Option<string>, v: Secrets.Values,
                   stored: bool)
    requires Stores(c, w) && Secrets.SlashFree(org) && Secrets.SlashFree(id)
    ensures var (c2, status) := PutMy(c, org, id, caller, v, stored);
            Obeys(c2, status, w, DoPutMy(org, id, caller, v, stored))
  {
    assert ServerStored(c.store, w.servers, org, id);
    if caller.Some? { UserSecretPut(c.secrets, w.orgSecrets, w.userSecrets, org, id, caller.value, v); }
  }

  lemma DeleteMyObeys(c: Control, w: Wanted, org: string, id: string, caller: Option<string>, deleted: bool)
    requires Stores(c, w) && Secrets.SlashFree(org) && Secrets.SlashFree(id)
    ensures var (c2, status) := DeleteMy(c, org, id, caller, deleted);
            Obeys(c2, status, w, DoDeleteMy(org, id, caller, deleted))
  {
    if caller.Some? { UserSecretDropped(c.secrets, w.orgSecrets, w.userSecrets, org, id, caller.value); }
  }

  lemma OrgRemoved(st: Store, st2: Store, servers: Servers, org: string)
    requires ServersStored(st, servers)
    requires forall o, i | Secrets.SlashFree(o) :: Lookup(st2, o, i) == if o == org then None else Lookup(st, o, i)
    ensures ServersStored(st2, map k | k in servers && k.0 != org :: servers[k])
  {
    var servers2 := map k | k in servers && k.0 != org :: servers[k];
    forall o, i | Secrets.SlashFree(o) ensures ServerStored(st2, servers2, o, i) {
      assert ServerStored(st, servers, o, i);
    }
  }

  lemma PurgeObeys(c: Control, w: Wanted, org: string, listing: seq<Server>)
    requires Stores(c, w) && IsListing(listing, c.store, org)
    ensures Stores(Purge(c, org, listing).0, Heeded(w, DoPurge(org, listing)))
  {
    var st2 := Purge(c, org, listing).0.store;
    forall o, i | Secrets.SlashFree(o)
      ensures Lookup(st2, o, i) == if o == org then None else Lookup(c.store, o, i)
    {
      PurgedAt(c, org, listing, o, i);
    }
    OrgRemoved(c.store, st2, w.servers, org);
    PurgeLeaves(c, org, listing);
  }

  lemma {:induction false} PurgeLeaves(c: Control, org: string, listing: seq<Server>)
    requires StoreOk(c.store)
    ensures var c2 := Purge(c, org, listing).0;
            StoreOk(c2.store) && c2.store.seqNo == c.store.seqNo && c2.secrets == c.secrets
  {
    if listing != [] { PurgeLeaves(c, org, listing[..|listing| - 1]); }
  }

  /** Just the org's own servers are gone. */
  lemma PurgedAt(c: Control, org: string, listing: seq<Server>, o: string, i: string)
    requires StoreOk(c.store) && IsListing(listing, c.store, org) && Secrets.SlashFree(o)
    ensures Lookup(Purge(c, org, listing).0.store, o, i) == if o == org then None else Lookup(c.store, o, i)
  {
    PurgeKeepsStore(c, org, listing);
    var k := StoreKey(o, i);
    if k in c.store.byId {
      LookupIsScoped(c.store, o, i);
      if o == org { assert c.store.byId[k] in listing; }
      forall s | s in listing && StoreKey(org, s.id) == k ensures o == org {
        var j :| j in c.store.byId && c.store.byId[j] == s;
        KeyInjective(org, s.id, o, i);
      }
    }
  }

  lemma StepObeys(sys: System, w: Wanted, step: Step)
    requires Stores(sys.control, w) && Possible(sys, step)
    ensures Stores(Next(sys, step).control, Heeded(w, step)) && Replied(sys, step) == Due(w, step)
  {
    var c := sys.control;
    match step
    case DoCreate(org, req) => CreateObeys(c, w, org, req);
    case DoPatch(org, id, patch) => PatchObeys(c, w, org, id, patch);
    case DoDelete(org, id) => DeleteObeys(c, w, org, id);
    case DoPutOrg(org, id, values, stored) => PutOrgObeys(c, w, org, id, values, stored);
    case DoDeleteOrg(org, id, deleted) => DeleteOrgObeys(c, w, org, id, deleted);
    case DoPutMy(org, id, caller, values, stored) => PutMyObeys(c, w, org, id, caller, values, stored);
    case DoDeleteMy(org, id, caller, deleted) => DeleteMyObeys(c, w, org, id, caller, deleted);
    case DoPurge(org, listing) => PurgeObeys(c, w, org, listing);
    case _ =>
  }

  /** In every state of every run the stores hold what the requests so far have asked for, faithful or
      not. */
  lemma {:induction false} StoresWhatWasAsked(run: seq<System>, steps: seq<Step>, n: nat)
    requires IsRun(run, steps) && n <= |steps|
    ensures Stores(run[n].control, Asked(steps[..n]))
  {
    if n > 0 {
      StoresWhatWasAsked(run, steps, n - 1);
      StepObeys(run[n - 1], Asked(steps[..n - 1]), steps[n - 1]);
      assert steps[..n][..n - 1] == steps[..n - 1];
    }
  }

  /** And every request of every run is answered as is due. */
  lemma AnswersAsDue(run: seq<System>, steps: seq<Step>, n: nat)
    requires IsRun(run, steps) && n < |steps|
    ensures Replied(run[n], steps[n]) == Due(Asked(steps[..n]), steps[n])
  {
    StoresWhatWasAsked(run, steps, n);
    StepObeys(run[n], Asked(steps[..n]), steps[n]);
  }

  // ----- What is announced -----

  /** e announces the definition, field by field. */
  predicate Tells(e: Event, org: string, id: string, d: Definition) {
    && e.Upsert? && e.org == org && e.id == id && e.slug == d.slug && e.typ == d.typ
    && e.endpointUrl == d.endpointUrl && e.command == d.command && e.args == d.args && e.env == d.env
    && e.allowedRoles == d.allowedRoles && e.credentialMode == d.credentialMode
  }

  predicate TellsRemoved(e: Event, org: string, id: string, slug: string) {
    e.Remove? && e.org == org && e.id == id && e.slug == slug
  }

  /** e announces that the user's credential changed, or the server anew when no user is named. */
  predicate TellsRotated(e: Event, org: string, id: string, d: Definition, user: string) {
    if user == "" then Tells(e, org, id, d)
    else e.CredentialChanged? && e.org == org && e.id == id && e.slug == d.slug && e.user == user
  }

  /** What a step that has been answered as due should add to the queue q to make it q2: for each change one
      event that says what is wanted now. */
  ghost predicate Announces(q: seq<Event>, q2: seq<Event>, w: Wanted, step: Step) {
    var n := |q|;
    match step
    case DoCreate(org, req) =>
      if Due(w, step) == Some(201) then |q2| == n + 1 && q <= q2 && Tells(q2[n], org, NextId(w), AsAsked(req))
      else q2 == q
    case DoPatch(org, id, p) =>
      if (org, id) !in w.servers then q2 == q
      else
        var d := AsPatched(w.servers[(org, id)], p);
        |q2| == n + 1 && q <= q2 && if d.enabled then Tells(q2[n], org, id, d) else TellsRemoved(q2[n], org, id, d.slug)
    case DoDelete(org, id) =>
      if (org, id) !in w.servers then q2 == q
      else |q2| == n + 1 && q <= q2 && TellsRemoved(q2[n], org, id, w.servers[(org, id)].slug)
    case DoPutOrg(org, id, _, _) => AnnouncesRotation(q, q2, w, step, org, id, "")
    case DoDeleteOrg(org, id, _) => AnnouncesRotation(q, q2, w, step, org, id, "")
    case DoPutMy(org, id, caller, _, _) =>
      if caller.None? then q2 == q else AnnouncesRotation(q, q2, w, step, org, id, caller.value)
    case DoDeleteMy(org, id, caller, _) =>
      if caller.None? then q2 == q else AnnouncesRotation(q, q2, w, step, org, id, caller.value)
    case DoPurge(org, listing) =>
      |q2| == n + |listing| && q <= q2 &&
      forall i | 0 <= i < |listing| :: TellsRemoved(q2[n + i], org, listing[i].id, listing[i].slug)
    case Deliver => q != [] && q2 == q[1..]
    case DoConnect(_, _, _) => q2 == q
    case Restart(_) => q2 == []
  }

  ghost predicate AnnouncesRotation(q: seq<Event>, q2: seq<Event>, w: Wanted, step: Step, org: string, id: string,
                                    user: string)
  {
    if Due(w, step) == Some(204) && (org, id) in w.servers
    then |q2| == |q| + 1 && q <= q2 && TellsRotated(q2[|q|], org, id, w.servers[(org, id)], user)
    else q2 == q
  }

  lemma {:induction false} PurgeAnnounces(c: Control, org: string, listing: seq<Server>)
    requires StoreOk(c.store) && Purgeable(c.store, org, listing)
    ensures var q, q2, n := c.queue, Purge(c, org, listing).0.queue, |c.queue|;
            && |q2| == n + |listing| && q <= q2
            && (forall i | 0 <= i < |listing| :: TellsRemoved(q2[n + i], org, listing[i].id, listing[i].slug))
            && Purge(c, org, listing).1 == |listing|
  {
    if listing != [] {
      var n := |listing| - 1;
      var c1 := Purge(c, org, listing[..n]).0;
      PurgeablePrefix(c.store, org, listing, n);
      PurgeAnnounces(c, org, listing[..n]);
      PurgeTurn(c, org, listing);
      assert listing[n] in listing;
      assert Purge(c, org, listing).0.queue == c1.queue + [RemoveOf(listing[n])];
      var q2 := Purge(c, org, listing).0.queue;
      forall i | 0 <= i < |listing| ensures TellsRemoved(q2[|c.queue| + i], org, listing[i].id, listing[i].slug) {
        if i < n { assert TellsRemoved(c1.queue[|c.queue| + i], org, listing[..n][i].id, listing[..n][i].slug); }
      }
    }
  }

  lemma ListingIsPurgeable(c: Control, org: string, listing: seq<Server>)
    requires StoreOk(c.store) && IsListing(listing, c.store, org)
    ensures Purgeable(c.store, org, listing)
  {
    forall s | s in listing ensures s.org == org && Lookup(c.store, org, s.id) == Some(s) {
      var k :| k in c.store.byId && c.store.byId[k] == s;
    }
  }

  lemma CreateAnnounces(c: Control, w: Wanted, org: string, req: CreateReq)
    requires Stores(c, w) && Secrets.SlashFree(org)
    ensures Announces(c.queue, Create(c, org, req).0.queue, w, DoCreate(org, req))
  {
    CreateObeys(c, w, org, req);
    CreatePublishes(c, org, req);
  }

  lemma CreatePublishes(c: Control, org: string, req: CreateReq)
    ensures var (c2, status) := Create(c, org, req);
            c2.queue == if status == 201 then c.queue + [UpsertOf(NewServer(org, req, c.store.seqNo + 1))] else c.queue
  {
  }

  lemma PatchAnnounces(c: Control, w: Wanted, org: string, id: string, p: PatchReq)
    requires Stores(c, w) && Secrets.SlashFree(org)
    ensures Announces(c.queue, Patch(c, org, id, p).0.queue, w, DoPatch(org, id, p))
  {
    assert ServerStored(c.store, w.servers, org, id);
    if (org, id) in w.servers {
      UpdateKeepsStore(c.store, org, id, Patched(Lookup(c.store, org, id).value, p));
    }
  }

  lemma DeleteAnnounces(c: Control, w: Wanted, org: string, id: string)
    requires Stores(c, w) && Secrets.SlashFree(org)
    ensures Announces(c.queue, Delete(c, org, id).0.queue, w, DoDelete(org, id))
  {
    assert ServerStored(c.store, w.servers, org, id);
  }

  lemma OrgSecretAnnounces(c: Control, w: Wanted, org: string, id: string, v: Secrets.Values, ok: bool)
    requires Stores(c, w) && Secrets.SlashFree(org)
    ensures Announces(c.queue, PutOrg(c, org, id, v, ok).0.queue, w, DoPutOrg(org, id, v, ok))
    ensures Announces(c.queue, DeleteOrg(c, org, id, ok).0.queue, w, DoDeleteOrg(org, id, ok))
  {
    assert ServerStored(c.store, w.servers, org, id);
  }

  lemma UserSecretAnnounces(c: Control, w: Wanted, org: string, id: string, caller: Option<string>,
                            v: Secrets.Values, ok: bool)
    requires Stores(c, w) && Secrets.SlashFree(org)
    ensures Announces(c.queue, PutMy(c, org, id, caller, v, ok).0.queue, w, DoPutMy(org, id, caller, v, ok))
    ensures Announces(c.queue, DeleteMy(c, org, id, caller, ok).0.queue, w, DoDeleteMy(org, id, caller, ok))
  {
    assert ServerStored(c.store, w.servers, org, id);
  }

  lemma StepAnnounces(sys: System, w: Wanted, step: Step)
    requires Stores(sys.control, w) && Possible(sys, step)
    ensures Announces(sys.control.queue, Next(sys, step).control.queue, w, step)
  {
    var c := sys.control;
    match step
    case DoCreate(org, req) => CreateAnnounces(c, w, org, req);
    case DoPatch(org, id, p) => PatchAnnounces(c, w, org, id, p);
    case DoDelete(org, id) => DeleteAnnounces(c, w, org, id);
    case DoPutOrg(org, id, v, ok) => OrgSecretAnnounces(c, w, org, id, v, ok);
    case DoDeleteOrg(org, id, ok) => OrgSecretAnnounces(c, w, org, id, map[], ok);
    case DoPutMy(org, id, caller, v, ok) => UserSecretAnnounces(c, w, org, id, caller, v, ok);
    case DoDeleteMy(org, id, caller, ok) => UserSecretAnnounces(c, w, org, id, caller, map[], ok);
    case DoPurge(org, listing) =>
      ListingIsPurgeable(c, org, listing);
      PurgeAnnounces(c, org, listing);
    case _ =>
  }

  /** In every run each change is announced once, as what it has made of the server, and nothing else is. */
  lemma AnnouncesWhatIsWanted(run: seq<System>, steps: seq<Step>, n: nat)
    requires IsRun(run, steps) && n < |steps|
    ensures Announces(run[n].control.queue, run[n + 1].control.queue, Asked(steps[..n]), steps[n])
  {
    StoresWhatWasAsked(run, steps, n);
    StepAnnounces(run[n], Asked(steps[..n]), steps[n]);
  }

  // ----- The gateway serves what is wanted -----

  /** d is wanted at this org and slug, and enabled. */
  ghost predicate WantedAt(w: Wanted, org: string, slug: string, id: string) {
    (org, id) in w.servers && w.servers[(org, id)].enabled && w.servers[(org, id)].slug == slug
  }

  /** The secret a shared instance is to carry: in mode org_shared the one last put for the server, in
      any other none. */
  ghost function SharedSecret(w: Wanted, org: string, id: string): Secrets.Values
    requires (org, id) in w.servers
  {
    if w.servers[(org, id)].credentialMode == "org_shared" && (org, id) in w.orgSecrets then w.orgSecrets[(org, id)]
    else map[]
  }

  /** inst is what user is to be served: the server as defined, in mode per_user with the secret the user
      last put, in any other with the shared one. */
  ghost predicate ServesUser(inst: Instance, w: Wanted, org: string, id: string, user: string)
    requires (org, id) in w.servers
  {
    var d := w.servers[(org, id)];
    && Tells(inst.origin, org, id, d)
    && (d.credentialMode == "per_user" ==> (org, id, user) in w.userSecrets &&
                                           inst.creds == w.userSecrets[(org, id, user)])
    && (d.credentialMode != "per_user" ==> inst.creds == SharedSecret(w, org, id))
  }

  /** The entry is the server's: its definition, open to its roles, with instances as they should be. */
  ghost predicate ServesServer(e: Entry, w: Wanted, org: string, id: string)
    requires (org, id) in w.servers
  {
    var d := w.servers[(org, id)];
    && (d.typ == "remote_http" || d.typ == "stdio") && e.roles == d.allowedRoles
    && (e.PerUser? <==> d.credentialMode == "per_user")
    && match e {
         case Shared(ds, _) => Tells(ds.origin, org, id, d) && ds.creds == SharedSecret(w, org, id)
         case PerUser(provider, users, _) =>
           Tells(provider, org, id, d) && forall u | u in users :: ServesUser(users[u], w, org, id, u)
       }
  }

  lemma EntryServes(c: Control, w: Wanted, e: Entry, k: string)
    requires Stores(c, w) && k in c.store.byId && EntryFor(e, c.store.byId[k], c.secrets)
    ensures var s := c.store.byId[k]; (s.org, s.id) in w.servers && ServesServer(e, w, s.org, s.id)
  {
    var s := c.store.byId[k];
    StoredIdsSlashFree(c.store, k);
    assert ServerStored(c.store, w.servers, s.org, s.id);
    assert OrgSecretStored(c.secrets, w.orgSecrets, s.org, s.id);
    if e.PerUser? {
      forall u | u in e.users ensures ServesUser(e.users[u], w, s.org, s.id, u) {
        assert Some(e.users[u]) == BuildForUser(c.secrets, UpsertOf(s), u);
        assert UserSecretStored(c.secrets, w.userSecrets, s.org, s.id, u);
      }
    }
  }

  /** What the gateway has at an org and slug is the enabled server wanted there, or nothing if none is. */
  ghost predicate ServedAt(o: Option<Entry>, w: Wanted, org: string, slug: string) {
    match o
    case None => forall id :: !WantedAt(w, org, slug, id)
    case Some(e) => exists id :: WantedAt(w, org, slug, id) && ServesServer(e, w, org, id)
  }

  lemma CorrectServes(c: Control, w: Wanted, o: Option<Entry>, org: string, slug: string)
    requires Stores(c, w) && Secrets.SlashFree(org) && Correct(o, c.store, c.secrets, org, slug)
    ensures ServedAt(o, w, org, slug)
  {
    match o
    case None =>
      forall id ensures !WantedAt(w, org, slug, id) {
        assert ServerStored(c.store, w.servers, org, id);
        assert !EnabledAt(c.store, StoreKey(org, id), org, slug);
      }
    case Some(e) =>
      var k :| EnabledAt(c.store, k, org, slug) && EntryFor(e, c.store.byId[k], c.secrets);
      EntryServes(c, w, e, k);
      KeyedServer(c, w, k);
      assert WantedAt(w, org, slug, c.store.byId[k].id);
  }

  lemma KeyedServer(c: Control, w: Wanted, k: string)
    requires Stores(c, w) && k in c.store.byId
    ensures var s := c.store.byId[k]; (s.org, s.id) in w.servers && IsServer(s, s.org, s.id, w.servers[(s.org, s.id)])
  {
    assert ServerStored(c.store, w.servers, c.store.byId[k].org, c.store.byId[k].id);
  }

  /** One org has no two enabled servers at a slug. */
  lemma OneWanted(c: Control, w: Wanted, org: string, slug: string, i: string, j: string)
    requires Stores(c, w) && Secrets.SlashFree(org) && WantedAt(w, org, slug, i) && WantedAt(w, org, slug, j)
    ensures i == j
  {
    assert ServerStored(c.store, w.servers, org, i) && ServerStored(c.store, w.servers, org, j);
    KeyInjective(org, i, org, j);
  }

  /** Once every announcement of a faithful run is delivered, the catalog has at each org and slug the
      enabled server that was asked for there, or nothing if none was. */
  lemma ServesWhatWasAsked(run: seq<System>, steps: seq<Step>, n: nat, org: string, slug: string)
    requires IsRun(run, steps) && n <= |steps| && Secrets.SlashFree(org)
    requires forall i | 0 <= i < n :: Faithful(run[i], steps[i])
    requires run[n].control.queue == []
    ensures ServedAt(EntryAt(run[n].catalog, org, slug), Asked(steps[..n]), org, slug)
  {
    StoresWhatWasAsked(run, steps, n);
    DrainedCatalogIsTheStore(run, steps, n, org, slug);
    CorrectServes(run[n].control, Asked(steps[..n]), EntryAt(run[n].catalog, org, slug), org, slug);
  }

  /** An instance in use, shared or cached for a user, is the one asked for, unless an event that replaces
      or drops it is still to be delivered. */
  lemma InstancesAreAsAsked(run: seq<System>, steps: seq<Step>, n: nat, org: string, slug: string, user: string)
    returns (id: string)
    requires IsRun(run, steps) && n <= |steps| && Secrets.SlashFree(org)
    requires forall i | 0 <= i < n :: Faithful(run[i], steps[i])
    requires EntryAt(run[n].catalog, org, slug).Some?
    requires forall i | 0 <= i < |run[n].control.queue| :: !Touches(run[n].control.queue[i], org, slug, user)
    ensures var w := Asked(steps[..n]);
            WantedAt(w, org, slug, id) &&
            match EntryAt(run[n].catalog, org, slug).value
            case Shared(ds, _) => ServesUser(ds, w, org, id, user)
            case PerUser(_, users, _) => user in users ==> ServesUser(users[user], w, org, id, user)
  {
    var c, w, o := run[n].control, Asked(steps[..n]), EntryAt(run[n].catalog, org, slug);
    StoresWhatWasAsked(run, steps, n);
    RunAgrees(run, steps, n);
    assert Agrees(run[n], org, slug);
    UntouchedStays(o, c.queue, c.secrets, org, slug, user);
    CorrectServes(c, w, Pending(run[n], org, slug), org, slug);
    id :| WantedAt(w, org, slug, id) && ServesServer(Pending(run[n], org, slug).value, w, org, id);
  }

  /** What a lookup for a user should find where the server with this id is wanted. */
  ghost predicate FindsServer(found: D.Lookup<Instance>, w: Wanted, org: string, id: string, user: string)
    requires (org, id) in w.servers
  {
    if w.servers[(org, id)].credentialMode == "per_user" && (org, id, user) !in w.userSecrets
    then found == D.BuildFailed
    else found.Found? && ServesUser(found.inst, w, org, id, user)
  }

  /** What a lookup should find at an org and slug. */
  ghost predicate FindsAt(found: D.Lookup<Instance>, w: Wanted, org: string, slug: string, user: string) {
    && (found == D.NotFound <==> forall id :: !WantedAt(w, org, slug, id))
    && forall id | WantedAt(w, org, slug, id) :: FindsServer(found, w, org, id, user)
  }

  lemma LookupFinds(c: Control, w: Wanted, r: Org, org: string, slug: string, user: string)
    requires Stores(c, w) && Secrets.SlashFree(org)
    requires ServedAt(if slug in r.servers then Some(r.servers[slug]) else None, w, org, slug)
    ensures FindsAt(D.Looked(r, slug, user, UserBuilder(c.secrets)).1, w, org, slug, user)
  {
    var found := D.Looked(r, slug, user, UserBuilder(c.secrets)).1;
    if slug in r.servers {
      var e := r.servers[slug];
      var id :| WantedAt(w, org, slug, id) && ServesServer(e, w, org, id);
      BuildsForUser(c, w, e, org, id, user);
      forall i | WantedAt(w, org, slug, i) ensures FindsServer(found, w, org, i, user) {
        OneWanted(c, w, org, slug, i, id);
      }
    }
  }

  /** What a provider yields is the server as defined with the user's secret, if there is one. */
  lemma BuildsForUser(c: Control, w: Wanted, e: Entry, org: string, id: string, user: string)
    requires Stores(c, w) && Secrets.SlashFree(org) && (org, id) in w.servers && ServesServer(e, w, org, id)
    ensures e.PerUser? ==>
              var inst := UserBuilder(c.secrets)(e.provider, user);
              (inst.Some? <==> (org, id, user) in w.userSecrets) &&
              (inst.Some? ==> ServesUser(inst.value, w, org, id, user))
  {
    assert ServerStored(c.store, w.servers, org, id);
    StoredIdsSlashFree(c.store, StoreKey(org, id));
    assert UserSecretStored(c.secrets, w.userSecrets, org, id, user);
  }

  /** Then a user's lookup finds just what was asked for: the server's instance with the secret it is to
      carry, an error for a user without a secret of a server that needs one, or nothing. */
  lemma FindsWhatWasAsked(run: seq<System>, steps: seq<Step>, n: nat, org: string, slug: string, user: string)
    requires IsRun(run, steps) && n <= |steps| && Secrets.SlashFree(org)
    requires forall i | 0 <= i < n :: Faithful(run[i], steps[i])
    requires run[n].control.queue == []
    ensures var r, build := OrgOf(run[n].catalog, org), UserBuilder(run[n].control.secrets);
            FindsAt(D.Looked(r, slug, user, build).1, Asked(steps[..n]), org, slug, user)
  {
    StoresWhatWasAsked(run, steps, n);
    ServesWhatWasAsked(run, steps, n, org, slug);
    LookupFinds(run[n].control, Asked(steps[..n]), OrgOf(run[n].catalog, org), org, slug, user);
  }

  // ----- What was last put arrives -----

  predicate WritesOrgSecret(step: Step, org: string, id: string) {
    (step.DoPutOrg? || step.DoDeleteOrg?) && step.org == org && step.id == id
  }

  predicate WritesUserSecret(step: Step, org: string, id: string, user: string) {
    (step.DoPutMy? || step.DoDeleteMy?) && step.org == org && step.id == id && step.caller == Some(user)
  }

  ghost predicate SameOrgSecret(v: Wanted, w: Wanted, org: string, id: string) {
    && ((org, id) in w.orgSecrets <==> (org, id) in v.orgSecrets)
    && ((org, id) in v.orgSecrets ==> w.orgSecrets[(org, id)] == v.orgSecrets[(org, id)])
  }

  ghost predicate SameUserSecret(v: Wanted, w: Wanted, org: string, id: string, user: string) {
    && ((org, id, user) in w.userSecrets <==> (org, id, user) in v.userSecrets)
    && ((org, id, user) in v.userSecrets ==> w.userSecrets[(org, id, user)] == v.userSecrets[(org, id, user)])
  }

  lemma HeededStays(w: Wanted, step: Step, org: string, id: string, user: string)
    ensures !WritesOrgSecret(step, org, id) ==> SameOrgSecret(w, Heeded(w, step), org, id)
    ensures !WritesUserSecret(step, org, id, user) ==> SameUserSecret(w, Heeded(w, step), org, id, user)
  {
  }

  lemma {:induction false} OrgSecretStays(steps: seq<Step>, m: nat, n: nat, org: string, id: string)
    requires m <= n <= |steps| && forall j | m <= j < n :: !WritesOrgSecret(steps[j], org, id)
    ensures SameOrgSecret(Asked(steps[..m]), Asked(steps[..n]), org, id)
    decreases n
  {
    if m < n {
      OrgSecretStays(steps, m, n - 1, org, id);
      HeededStays(Asked(steps[..n - 1]), steps[n - 1], org, id, "");
      assert steps[..n][..n - 1] == steps[..n - 1];
    }
  }

  lemma {:induction false} UserSecretStays(steps: seq<Step>, m: nat, n: nat, org: string, id: string, user: string)
    requires m <= n <= |steps| && forall j | m <= j < n :: !WritesUserSecret(steps[j], org, id, user)
    ensures SameUserSecret(Asked(steps[..m]), Asked(steps[..n]), org, id, user)
    decreases n
  {
    if m < n {
      UserSecretStays(steps, m, n - 1, org, id, user);
      HeededStays(Asked(steps[..n - 1]), steps[n - 1], org, id, user);
      assert steps[..n][..n - 1] == steps[..n - 1];
    }
  }

  lemma OrgSecretSet(w: Wanted, step: Step, org: string, id: string)
    requires WritesOrgSecret(step, org, id) && Due(w, step) == Some(204)
    ensures var w2 := Heeded(w, step);
            if step.DoPutOrg? then (org, id) in w2.orgSecrets && w2.orgSecrets[(org, id)] == step.values
            else (org, id) !in w2.orgSecrets
  {
  }

  lemma UserSecretSet(w: Wanted, step: Step, org: string, id: string, user: string)
    requires WritesUserSecret(step, org, id, user) && Due(w, step) == Some(204)
    ensures var w2 := Heeded(w, step);
            if step.DoPutMy? then (org, id, user) in w2.userSecrets && w2.userSecrets[(org, id, user)] == step.values
            else (org, id, user) !in w2.userSecrets
  {
  }

  lemma SharedAt(c: Control, w: Wanted, o: Option<Entry>, org: string, slug: string, id: string)
    requires Stores(c, w) && Secrets.SlashFree(org) && ServedAt(o, w, org, slug) && WantedAt(w, org, slug, id)
    requires w.servers[(org, id)].credentialMode != "per_user"
    ensures o.Some? && o.value.Shared? && o.value.ds.creds == SharedSecret(w, org, id)
  {
    var i :| WantedAt(w, org, slug, i) && ServesServer(o.value, w, org, i);
    OneWanted(c, w, org, slug, i, id);
  }

  /** The last org-level secret put for a server in mode org_shared is what its instance carries, and none
      once it is deleted. */
  lemma LastOrgSecretArrives(run: seq<System>, steps: seq<Step>, m: nat, n: nat, org: string, id: string, slug: string)
    requires IsRun(run, steps) && m < n <= |steps| && Secrets.SlashFree(org)
    requires forall i | 0 <= i < n :: Faithful(run[i], steps[i])
    requires run[n].control.queue == []
    requires WritesOrgSecret(steps[m], org, id) && Replied(run[m], steps[m]) == Some(204)
    requires forall j | m < j < n :: !WritesOrgSecret(steps[j], org, id)
    requires WantedAt(Asked(steps[..n]), org, slug, id)
    requires Asked(steps[..n]).servers[(org, id)].credentialMode == "org_shared"
    ensures var o := EntryAt(run[n].catalog, org, slug);
            && o.Some? && o.value.Shared?
            && o.value.ds.creds == if steps[m].DoPutOrg? then steps[m].values else map[]
  {
    StoresWhatWasAsked(run, steps, n);
    ServesWhatWasAsked(run, steps, n, org, slug);
    SharedAt(run[n].control, Asked(steps[..n]), EntryAt(run[n].catalog, org, slug), org, slug, id);
    AnswersAsDue(run, steps, m);
    OrgSecretSet(Asked(steps[..m]), steps[m], org, id);
    assert steps[..m + 1][..m] == steps[..m];
    OrgSecretStays(steps, m + 1, n, org, id);
  }

  /** The last secret a user put for a server in mode per_user is what the user's instance carries, and
      without one there is none. */
  lemma LastUserSecretArrives(run: seq<System>, steps: seq<Step>, m: nat, n: nat, org: string, id: string, slug: string,
                              user: string)
    requires IsRun(run, steps) && m < n <= |steps| && Secrets.SlashFree(org)
    requires forall i | 0 <= i < n :: Faithful(run[i], steps[i])
    requires run[n].control.queue == []
    requires WritesUserSecret(steps[m], org, id, user) && Replied(run[m], steps[m]) == Some(204)
    requires forall j | m < j < n :: !WritesUserSecret(steps[j], org, id, user)
    requires WantedAt(Asked(steps[..n]), org, slug, id)
    requires Asked(steps[..n]).servers[(org, id)].credentialMode == "per_user"
    ensures var r, build := OrgOf(run[n].catalog, org), UserBuilder(run[n].control.secrets);
            var found := D.Looked(r, slug, user, build).1;
            if steps[m].DoPutMy? then found.Found? && found.inst.creds == steps[m].values else found == D.BuildFailed
  {
    var found := D.Looked(OrgOf(run[n].catalog, org), slug, user, UserBuilder(run[n].control.secrets)).1;
    FindsWhatWasAsked(run, steps, n, org, slug, user);
    assert FindsServer(found, Asked(steps[..n]), org, id, user);
    AnswersAsDue(run, steps, m);
    UserSecretSet(Asked(steps[..m]), steps[m], org, id, user);
    assert steps[..m + 1][..m] == steps[..m];
    UserSecretStays(steps, m + 1, n, org, id, user);
  }

  // ----- Which steps are faithful -----

  /** A patch does not enable a server of unknown type or give an enabled one such a type, and credentials
      are not rotated for everyone while the server is disabled. */
  ghost predicate Announced(w: Wanted, step: Step) {
    match step
    case DoPatch(org, id, p) =>
      (org, id) in w.servers && AsPatched(w.servers[(org, id)], p).enabled ==>
        KnownType(AsPatched(w.servers[(org, id)], p).typ)
    case DoPutOrg(org, id, _, _) => Due(w, step) == Some(204) ==> MayRotate(w, org, id)
    case DoDeleteOrg(org, id, deleted) => deleted ==> MayRotate(w, org, id)
    case DoPutMy(org, id, caller, _, _) => Due(w, step) == Some(204) && caller == Some("") ==> MayRotate(w, org, id)
    case DoDeleteMy(org, id, caller, deleted) => deleted && caller == Some("") ==> MayRotate(w, org, id)
    case _ => true
  }

  ghost predicate MayRotate(w: Wanted, org: string, id: string) {
    (org, id) in w.servers && KnownType(w.servers[(org, id)].typ) ==> w.servers[(org, id)].enabled
  }

  lemma RotationAllowed(sys: System, w: Wanted, org: string, id: string)
    requires Stores(sys.control, w) && Secrets.SlashFree(org)
    ensures Announceable(sys, org, id) <==> MayRotate(w, org, id)
    ensures Lookup(sys.control.store, org, id).Some? <==> (org, id) in w.servers
  {
    assert ServerStored(sys.control.store, w.servers, org, id);
  }

  lemma FaithfulWhenAnnounced(sys: System, w: Wanted, step: Step)
    requires Stores(sys.control, w) && Possible(sys, step)
    ensures Faithful(sys, step) <==> Announced(w, step)
  {
    match step
    case DoPatch(org, id, p) => assert ServerStored(sys.control.store, w.servers, org, id);
    case DoPutOrg(org, id, _, _) => RotationAllowed(sys, w, org, id);
    case DoDeleteOrg(org, id, _) => RotationAllowed(sys, w, org, id);
    case DoPutMy(org, id, _, _, _) => RotationAllowed(sys, w, org, id);
    case DoDeleteMy(org, id, _, _) => RotationAllowed(sys, w, org, id);
    case _ =>
  }

  /** Whether a run is faithful can be told from its requests. */
  lemma FaithfulIff(run: seq<System>, steps: seq<Step>, n: nat)
    requires IsRun(run, steps) && n < |steps|
    ensures Faithful(run[n], steps[n]) <==> Announced(Asked(steps[..n]), steps[n])
  {
    StoresWhatWasAsked(run, steps, n);
    FaithfulWhenAnnounced(run[n], Asked(steps[..n]), steps[n]);
  }
}
