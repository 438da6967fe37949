/** Control plane and gateway together: a store of server definitions, a store of secrets, a queue of
    published changes and the gateway's catalog. The queue is lossless and first-in first-out, a
    handler is one step, and a gateway restart with its reconciliation is one step.

    The state agrees at an org and slug when replaying the pending changes onto the catalog leaves
    there exactly what the store says: the enabled server's definition with the credentials now
    stored, or nothing. */
module Propagation {
  import opened Wrappers
  import opened ServerEvents
  import opened Admin
  import opened Gateway
  import D = Downstream
  import Secrets
  import Text

  datatype System = System(control: Control, catalog: Catalog)

  datatype Step =
    | DoCreate(org: string, req: CreateReq)
    | DoPatch(org: string, id: string, patch: PatchReq)
    | DoDelete(org: string, id: string)
    | DoPutOrg(org: string, id: string, values: Secrets.Values, stored: bool)
    | DoDeleteOrg(org: string, id: string, deleted: bool)
    | DoPutMy(org: string, id: string, caller: Option<string>, values: Secrets.Values, stored: bool)
    | DoDeleteMy(org: string, id: string, caller: Option<string>, deleted: bool)
    | DoPurge(org: string, listing: seq<Server>)
    | Deliver
    | DoConnect(org: string, slug: string, user: string)
    | Restart(enabled: seq<Server>)

  ghost predicate ListsEnabled(xs: seq<Server>, st: Store) {
    && (forall i, j | 0 <= i < j < |xs| :: xs[i] != xs[j])
    && (forall s :: s in xs <==> s.enabled && exists k :: k in st.byId && st.byId[k] == s)
  }

  /** Orgs are tenant slugs and ids come from a route segment, so neither holds a slash; listings
      are what the store returns, in any order; nothing else restricts a step. */
  ghost predicate Possible(sys: System, step: Step) {
    match step
    case DoCreate(org, _) => Secrets.SlashFree(org)
    case DoPatch(org, id, _) => Secrets.SlashFree(org)
    case DoDelete(org, id) => Secrets.SlashFree(org)
    case DoPutOrg(org, id, _, _) => Secrets.SlashFree(org) && Secrets.SlashFree(id)
    case DoDeleteOrg(org, id, _) => Secrets.SlashFree(org) && Secrets.SlashFree(id)
    case DoPutMy(org, id, _, _, _) => Secrets.SlashFree(org) && Secrets.SlashFree(id)
    case DoDeleteMy(org, id, _, _) => Secrets.SlashFree(org) && Secrets.SlashFree(id)
    case DoPurge(org, listing) => IsListing(listing, sys.control.store, org)
    case Deliver => sys.control.queue != []
    case DoConnect(_, _, _) => true
    case Restart(enabled) => ListsEnabled(enabled, sys.control.store)
  }

  function Upserts(servers: seq<Server>): (evs: seq<Event>)
    ensures |evs| == |servers| && forall i | 0 <= i < |evs| :: evs[i] == UpsertOf(servers[i])
  {
    seq(|servers|, i requires 0 <= i < |servers| => UpsertOf(servers[i]))
  }

  ghost function Next(sys: System, step: Step): System
    requires Possible(sys, step)
  {
    var c := sys.control;
    match step
    case DoCreate(org, req) => sys.(control := Create(c, org, req).0)
    case DoPatch(org, id, patch) => sys.(control := Patch(c, org, id, patch).0)
    case DoDelete(org, id) => sys.(control := Delete(c, org, id).0)
    case DoPutOrg(org, id, values, stored) => sys.(control := PutOrg(c, org, id, values, stored).0)
    case DoDeleteOrg(org, id, deleted) => sys.(control := DeleteOrg(c, org, id, deleted).0)
    case DoPutMy(org, id, caller, values, stored) => sys.(control := PutMy(c, org, id, caller, values, stored).0)
    case DoDeleteMy(org, id, caller, deleted) => sys.(control := DeleteMy(c, org, id, caller, deleted).0)
    case DoPurge(org, listing) => sys.(control := Purge(c, org, listing).0)
    case Deliver => System(c.(queue := c.queue[1..]), Apply(sys.catalog, c.queue[0], c.secrets))
    case DoConnect(org, slug, user) =>
      sys.(catalog := sys.catalog[org := D.Looked(OrgOf(sys.catalog, org), slug, user, UserBuilder(c.secrets)).0])
    case Restart(enabled) => System(c.(queue := []), Replay(map[], Upserts(enabled), c.secrets))
  }

  // ----- Agreement -----

  ghost predicate EnabledAt(st: Store, k: string, org: string, slug: string) {
    k in st.byId && st.byId[k].enabled && st.byId[k].org == org && st.byId[k].slug == slug
  }

  /** e is what the gateway should hold for s, and every instance in it has today's credentials. */
  ghost predicate EntryFor(e: Entry, s: Server, secrets: map<string, Secrets.Values>) {
    && KnownType(s.typ) && e.roles == s.allowedRoles
    && match e {
         case Shared(ds, _) =>
           s.credentialMode != "per_user" && ds == Instance(UpsertOf(s), ResolveCredentials(UpsertOf(s), secrets))
         case PerUser(provider, users, _) =>
           s.credentialMode == "per_user" && provider == UpsertOf(s)
           && forall u | u in users :: Some(users[u]) == BuildForUser(secrets, UpsertOf(s), u)
       }
  }

  ghost predicate Correct(o: Option<Entry>, st: Store, secrets: map<string, Secrets.Values>, org: string,
                          slug: string)
  {
    match o
    case None => forall k :: !EnabledAt(st, k, org, slug)
    case Some(e) => exists k :: EnabledAt(st, k, org, slug) && EntryFor(e, st.byId[k], secrets)
  }

  function Pending(sys: System, org: string, slug: string): Option<Entry> {
    ReplayAt(EntryAt(sys.catalog, org, slug), sys.control.queue, sys.control.secrets, org, slug)
  }

  ghost predicate Agrees(sys: System, org: string, slug: string) {
    Correct(Pending(sys, org, slug), sys.control.store, sys.control.secrets, org, slug)
  }

  ghost predicate AgreesEverywhere(sys: System) { forall org, slug :: Agrees(sys, org, slug) }

  const Initial := System(Control(Store(map[], 0), map[], []), map[])

  /** Whether the step's announcement matches what it stored. A patch may store a type no gateway
      knows, and an org-level rotation announces an upsert even for a disabled server. */
  ghost predicate Faithful(sys: System, step: Step) {
    match step
    case DoPatch(org, id, patch) =>
      var s := Lookup(sys.control.store, org, id);
      s.Some? && Patched(s.value, patch).enabled ==> KnownType(Patched(s.value, patch).typ)
    case DoPutOrg(org, id, values, stored) =>
      stored && Rotates(sys, org, id, "") && values != map[] ==> Announceable(sys, org, id)
    case DoDeleteOrg(org, id, deleted) => deleted && Rotates(sys, org, id, "") ==> Announceable(sys, org, id)
    case DoPutMy(org, id, caller, values, stored) =>
      stored && caller.Some? && Rotates(sys, org, id, caller.value) && values != map[] ==> Announceable(sys, org, id)
    case DoDeleteMy(org, id, caller, deleted) =>
      deleted && caller.Some? && Rotates(sys, org, id, caller.value) ==> Announceable(sys, org, id)
    case _ => true
  }

  /** A rotation for no user in particular, of a server that exists. */
  predicate Rotates(sys: System, org: string, id: string, user: string) {
    user == "" && Lookup(sys.control.store, org, id).Some?
  }

  /** An upsert of the server as stored is right, or the gateway ignores it. */
  predicate Announceable(sys: System, org: string, id: string) {
    var s := Lookup(sys.control.store, org, id);
    s.Some? ==> s.value.enabled || !KnownType(s.value.typ)
  }

  // ----- Replays under changed circumstances -----

  /** Equal, or shared instances of one event, each with the credentials of its time. */
  predicate Refreshed(a: Option<Entry>, b: Option<Entry>, was: map<string, Secrets.Values>,
                      now: map<string, Secrets.Values>)
  {
    a == b ||
    (a.Some? && b.Some? && a.value.Shared? && b.value.Shared? && a.value.roles == b.value.roles
     && a.value.ds.origin == b.value.ds.origin && a.value.ds.origin.Upsert?
     && a.value.ds.creds == ResolveCredentials(a.value.ds.origin, was)
     && b.value.ds.creds == ResolveCredentials(b.value.ds.origin, now))
  }

  lemma {:induction false} ReplayRefreshed(o: Option<Entry>, q: seq<Event>, was: map<string, Secrets.Values>,
                                           now: map<string, Secrets.Values>, org: string, slug: string)
    ensures Refreshed(ReplayAt(o, q, was, org, slug), ReplayAt(o, q, now, org, slug), was, now)
  {
    if q != [] {
      ReplayRefreshed(o, q[..|q| - 1], was, now, org, slug);
    }
  }

  /** now differs from was at no reference of s. */
  ghost predicate SameFor(s: Server, was: map<string, Secrets.Values>, now: map<string, Secrets.Values>) {
    && ResolveCredentials(UpsertOf(s), was) == ResolveCredentials(UpsertOf(s), now)
    && forall u :: BuildForUser(was, UpsertOf(s), u) == BuildForUser(now, UpsertOf(s), u)
  }

  /** Changing a secret that belongs to no enabled server here keeps what is correct correct. */
  lemma SecretsFrame(o: Option<Entry>, q: seq<Event>, st: Store, was: map<string, Secrets.Values>,
                     now: map<string, Secrets.Values>, org: string, slug: string)
    requires Correct(ReplayAt(o, q, was, org, slug), st, was, org, slug)
    requires forall k | EnabledAt(st, k, org, slug) :: SameFor(st.byId[k], was, now)
    ensures Correct(ReplayAt(o, q, now, org, slug), st, now, org, slug)
  {
    ReplayRefreshed(o, q, was, now, org, slug);
    var a := ReplayAt(o, q, was, org, slug);
    if a.Some? {
      var k :| EnabledAt(st, k, org, slug) && EntryFor(a.value, st.byId[k], was);
      assert SameFor(st.byId[k], was, now);
      assert EntryFor(ReplayAt(o, q, now, org, slug).value, st.byId[k], now);
    }
  }

  /** Equal, or b is a with one more cached user. */
  predicate Grown(a: Option<Entry>, b: Option<Entry>, user: string, inst: Instance) {
    a == b ||
    (a.Some? && b.Some? && a.value.PerUser? && b.value == a.value.(users := a.value.users[user := inst]))
  }

  lemma {:induction false} ReplayGrown(a: Option<Entry>, b: Option<Entry>, user: string, inst: Instance, q: seq<Event>,
                                       secrets: map<string, Secrets.Values>, org: string, slug: string)
    requires Grown(a, b, user, inst)
    ensures Grown(ReplayAt(a, q, secrets, org, slug), ReplayAt(b, q, secrets, org, slug), user, inst)
    ensures ReplayAt(a, q, secrets, org, slug) == ReplayAt(b, q, secrets, org, slug) ||
            (a.Some? && a.value.PerUser? && ReplayAt(a, q, secrets, org, slug).value.provider == a.value.provider)
  {
    if q != [] {
      var n := |q| - 1;
      ReplayGrown(a, b, user, inst, q[..n], secrets, org, slug);
      var x, y := ReplayAt(a, q[..n], secrets, org, slug), ReplayAt(b, q[..n], secrets, org, slug);
      var e := q[n];
      if x != y && e.CredentialChanged? && e.user != "" {
        assert (x.value.users[user := inst]) - {e.user} ==
               if user == e.user then x.value.users - {e.user} else (x.value.users - {e.user})[user := inst];
      }
    }
  }

  // ----- What each step does to agreement at one org and slug -----

  /** st2 is st but for what is under key. */
  ghost predicate OthersSame(st: Store, st2: Store, key: string) {
    forall k | k != key :: (k in st2.byId <==> k in st.byId) && (k in st.byId ==> st2.byId[k] == st.byId[k])
  }

  /** e tells what is now under key: the enabled server there, or that there is none. */
  ghost predicate Tells(st: Store, st2: Store, key: string, e: Event) {
    && OthersSame(st, st2, key) && !e.CredentialChanged?
    && (forall k | k in st.byId && k != key :: !(st.byId[k].org == e.org && st.byId[k].slug == e.slug))
    && (key in st.byId ==> st.byId[key].org == e.org && st.byId[key].slug == e.slug)
    && (key in st2.byId ==>
          var s := st2.byId[key];
          s.org == e.org && s.slug == e.slug && if s.enabled then e == UpsertOf(s) else e.Remove?)
    && (key !in st2.byId ==> e.Remove?)
  }

  lemma TellsHere(before: Option<Entry>, st: Store, st2: Store, key: string, e: Event,
                  secrets: map<string, Secrets.Values>)
    requires Tells(st, st2, key, e)
    ensures Correct(StepAt(before, e, secrets, e.org, e.slug), st2, secrets, e.org, e.slug)
            <==> (e.Upsert? ==> KnownType(e.typ))
  {
    assert forall k | k != key :: !EnabledAt(st2, k, e.org, e.slug);
    if e.Upsert? {
      assert EnabledAt(st2, key, e.org, e.slug);
    }
  }

  lemma TellsElsewhere(before: Option<Entry>, st: Store, st2: Store, key: string, e: Event,
                       secrets: map<string, Secrets.Values>, org: string, slug: string)
    requires Tells(st, st2, key, e) && !(org == e.org && slug == e.slug)
    ensures Correct(StepAt(before, e, secrets, org, slug), st2, secrets, org, slug) <==>
            Correct(before, st, secrets, org, slug)
  {
    forall k
      ensures EnabledAt(st2, k, org, slug) <==> EnabledAt(st, k, org, slug)
      ensures EnabledAt(st, k, org, slug) ==> st2.byId[k] == st.byId[k]
    {
    }
  }

  /** A change under one key, announced: here the outcome depends on the announced type alone, and
      elsewhere nothing changes. */
  lemma TellingEffect(sys: System, sys2: System, key: string, e: Event, org: string, slug: string)
    requires Tells(sys.control.store, sys2.control.store, key, e)
    requires sys2.catalog == sys.catalog && sys2.control.secrets == sys.control.secrets
    requires sys2.control.queue == sys.control.queue + [e]
    ensures if org == e.org && slug == e.slug
            then Agrees(sys2, org, slug) <==> (e.Upsert? ==> KnownType(e.typ))
            else Agrees(sys2, org, slug) <==> Agrees(sys, org, slug)
  {
    var c := sys.control;
    ReplaySnoc(EntryAt(sys.catalog, org, slug), c.queue, e, c.secrets, org, slug);
    if org == e.org && slug == e.slug {
      TellsHere(Pending(sys, org, slug), c.store, sys2.control.store, key, e, c.secrets);
    } else {
      TellsElsewhere(Pending(sys, org, slug), c.store, sys2.control.store, key, e, c.secrets, org, slug);
    }
  }

  lemma CreateEffect(sys: System, org: string, req: CreateReq, o: string, slug: string)
    requires StoreOk(sys.control.store) && Secrets.SlashFree(org)
    ensures if Create(sys.control, org, req).1 == 201 && o == org && slug == req.slug
            then Agrees(Next(sys, DoCreate(org, req)), o, slug)
            else Agrees(Next(sys, DoCreate(org, req)), o, slug) <==> Agrees(sys, o, slug)
  {
    if Create(sys.control, org, req).1 == 201 {
      NextKeyIsNew(sys.control.store, org);
      var s := NewServer(org, req, sys.control.store.seqNo + 1);
      TellingEffect(sys, Next(sys, DoCreate(org, req)), StoreKey(org, s.id), UpsertOf(s), o, slug);
    }
  }

  lemma PatchEffect(sys: System, org: string, id: string, patch: PatchReq, o: string, slug: string)
    requires StoreOk(sys.control.store) && Secrets.SlashFree(org)
    ensures var step := DoPatch(org, id, patch);
            var s := Lookup(sys.control.store, org, id);
            if s.Some? && s.value.org == o && s.value.slug == slug
            then Agrees(Next(sys, step), o, slug) <==> Faithful(sys, step)
            else Agrees(Next(sys, step), o, slug) <==> Agrees(sys, o, slug)
  {
    var s := Lookup(sys.control.store, org, id);
    if s.Some? {
      var s2 := Patched(s.value, patch);
      UpdateKeepsStore(sys.control.store, org, id, s2);
      var e := if s2.enabled then UpsertOf(s2) else RemoveOf(s2);
      TellingEffect(sys, Next(sys, DoPatch(org, id, patch)), StoreKey(org, id), e, o, slug);
    }
  }

  function Deleted(sys: System, org: string, id: string): System {
    sys.(control := Delete(sys.control, org, id).0)
  }

  lemma DeleteEffect(sys: System, org: string, id: string, o: string, slug: string)
    requires StoreOk(sys.control.store) && Secrets.SlashFree(org)
    ensures var s := Lookup(sys.control.store, org, id);
            if s.Some? && s.value.org == o && s.value.slug == slug
            then Agrees(Deleted(sys, org, id), o, slug)
            else Agrees(Deleted(sys, org, id), o, slug) <==> Agrees(sys, o, slug)
  {
    var s := Lookup(sys.control.store, org, id);
    if s.Some? {
      TellingEffect(sys, Deleted(sys, org, id), StoreKey(org, id), RemoveOf(s.value), o, slug);
    }
  }

  // ----- Rotations -----

  ghost predicate DiffersOnlyAt(was: map<string, Secrets.Values>, now: map<string, Secrets.Values>, at: string) {
    forall r | r != at :: (r in was <==> r in now) && (r in was ==> was[r] == now[r])
  }

  lemma StoredIdsSlashFree(st: Store, k: string)
    requires StoreOk(st) && k in st.byId
    ensures Secrets.SlashFree(st.byId[k].org) && Secrets.SlashFree(st.byId[k].id)
  {
    var n: nat :| n <= st.seqNo && st.byId[k].id == ServerId(n);
    ServerIdSlashFree(n);
  }

  /** An org-level secret concerns the one server it is named after. */
  lemma OrgSecretFrame(st: Store, k: string, org: string, id: string, was: map<string, Secrets.Values>,
                       now: map<string, Secrets.Values>)
    requires StoreOk(st) && k in st.byId && k != StoreKey(org, id)
    requires Secrets.SlashFree(org) && Secrets.SlashFree(id)
    requires DiffersOnlyAt(was, now, Secrets.OrgRef(org, id))
    ensures SameFor(st.byId[k], was, now)
  {
    var s := st.byId[k];
    StoredIdsSlashFree(st, k);
    if Secrets.OrgRef(s.org, s.id) == Secrets.OrgRef(org, id) { Secrets.OrgRefInjective(s.org, s.id, org, id); }
    forall u ensures BuildForUser(was, UpsertOf(s), u) == BuildForUser(now, UpsertOf(s), u) {
      Secrets.OrgRefIsNoUserRef(org, id, s.org, s.id, u);
    }
  }

  /** A user's secret concerns that user's instance of the one server it is named after. */
  lemma UserSecretFrame(st: Store, k: string, org: string, id: string, user: string,
                        was: map<string, Secrets.Values>, now: map<string, Secrets.Values>)
    requires StoreOk(st) && k in st.byId
    requires Secrets.SlashFree(org) && Secrets.SlashFree(id)
    requires DiffersOnlyAt(was, now, Secrets.UserRef(org, id, user))
    ensures k != StoreKey(org, id) ==> SameFor(st.byId[k], was, now)
    ensures ResolveCredentials(UpsertOf(st.byId[k]), was) == ResolveCredentials(UpsertOf(st.byId[k]), now)
    ensures forall u | u != user ::
            BuildForUser(was, UpsertOf(st.byId[k]), u) == BuildForUser(now, UpsertOf(st.byId[k]), u)
  {
    var s := st.byId[k];
    StoredIdsSlashFree(st, k);
    Secrets.OrgRefIsNoUserRef(s.org, s.id, org, id, user);
    forall u | u != user || k != StoreKey(org, id)
      ensures BuildForUser(was, UpsertOf(s), u) == BuildForUser(now, UpsertOf(s), u)
    {
      if Secrets.UserRef(s.org, s.id, u) == Secrets.UserRef(org, id, user) {
        Secrets.UserRefInjective(s.org, s.id, u, org, id, user);
      }
    }
  }

  /** sys2 is sys with the secrets of the server under key changed, and that announced as a full
      upsert of the server as it now is. */
  ghost predicate RotatesAll(sys: System, sys2: System, key: string) {
    var c, c2 := sys.control, sys2.control;
    && key in c.store.byId && key in c2.store.byId && OthersSame(c.store, c2.store, key)
    && c2.store.byId[key] == c.store.byId[key].(credentialSet := c2.store.byId[key].credentialSet)
    && sys2.catalog == sys.catalog && c2.queue == c.queue + [UpsertOf(c.store.byId[key])]
    && forall k | k in c.store.byId && k != key :: SameFor(c.store.byId[k], c.secrets, c2.secrets)
  }

  lemma RotationHere(sys: System, sys2: System, key: string)
    requires StoreOk(sys.control.store) && RotatesAll(sys, sys2, key)
    ensures var s := sys.control.store.byId[key];
            KnownType(s.typ) ==> (Agrees(sys2, s.org, s.slug) <==> s.enabled)
    ensures var s := sys.control.store.byId[key];
            Agrees(sys, s.org, s.slug) ==> (Agrees(sys2, s.org, s.slug) <==> s.enabled || !KnownType(s.typ))
  {
    var c, c2 := sys.control, sys2.control;
    var s := c.store.byId[key];
    var o := EntryAt(sys.catalog, s.org, s.slug);
    ReplaySnoc(o, c.queue, UpsertOf(s), c2.secrets, s.org, s.slug);
    ReplayRefreshed(o, c.queue, c.secrets, c2.secrets, s.org, s.slug);
    assert forall k | k in c.store.byId && k != key :: !EnabledAt(c2.store, k, s.org, s.slug);
    assert s.enabled ==> EnabledAt(c2.store, key, s.org, s.slug) && EnabledAt(c.store, key, s.org, s.slug);
    assert UpsertOf(c2.store.byId[key]) == UpsertOf(s);
  }

  lemma RotationElsewhere(sys: System, sys2: System, key: string, org: string, slug: string)
    requires StoreOk(sys.control.store) && RotatesAll(sys, sys2, key)
    requires var s := sys.control.store.byId[key]; !(org == s.org && slug == s.slug)
    requires Agrees(sys, org, slug)
    ensures Agrees(sys2, org, slug)
  {
    var c, c2 := sys.control, sys2.control;
    var o := EntryAt(sys.catalog, org, slug);
    ReplaySnoc(o, c.queue, UpsertOf(c.store.byId[key]), c2.secrets, org, slug);
    SecretsFrame(o, c.queue, c.store, c.secrets, c2.secrets, org, slug);
    StoreFrame(Pending(sys2, org, slug), c.store, c2.store, c2.secrets, org, slug);
  }

  /** Only the enabled servers at an org and slug matter there. */
  lemma StoreFrame(o: Option<Entry>, st: Store, st2: Store, secrets: map<string, Secrets.Values>, org: string,
                   slug: string)
    requires forall k :: EnabledAt(st2, k, org, slug) <==> EnabledAt(st, k, org, slug)
    requires forall k | k in st.byId && k in st2.byId && EnabledAt(st, k, org, slug) :: st2.byId[k] == st.byId[k]
    ensures Correct(o, st2, secrets, org, slug) <==> Correct(o, st, secrets, org, slug)
  {
  }

  lemma RotationEffect(sys: System, sys2: System, key: string)
    requires StoreOk(sys.control.store) && RotatesAll(sys, sys2, key)
    requires AgreesEverywhere(sys)
    ensures var s := sys.control.store.byId[key];
            AgreesEverywhere(sys2) <==> s.enabled || !KnownType(s.typ)
  {
    var s := sys.control.store.byId[key];
    assert Agrees(sys, s.org, s.slug);
    RotationHere(sys, sys2, key);
    if s.enabled || !KnownType(s.typ) {
      forall org, slug ensures Agrees(sys2, org, slug) {
        if !(org == s.org && slug == s.slug) {
          assert Agrees(sys, org, slug);
          RotationElsewhere(sys, sys2, key, org, slug);
        }
      }
    }
  }

  /** A secret that no stored server uses may change unannounced. */
  lemma UnusedSecretEffect(sys: System, sys2: System, org: string, slug: string)
    requires sys2 == sys.(control := sys.control.(secrets := sys2.control.secrets))
    requires forall k | k in sys.control.store.byId ::
             SameFor(sys.control.store.byId[k], sys.control.secrets, sys2.control.secrets)
    requires Agrees(sys, org, slug)
    ensures Agrees(sys2, org, slug)
  {
    var c, c2 := sys.control, sys2.control;
    SecretsFrame(EntryAt(sys.catalog, org, slug), c.queue, c.store, c.secrets, c2.secrets, org, slug);
  }

  /** One user's secret of the server under key changes, announced to the gateway for that user. */
  ghost predicate RotatesUser(sys: System, sys2: System, key: string, user: string) {
    && key in sys.control.store.byId && user != ""
    && var s := sys.control.store.byId[key];
       && sys2 == sys.(control := sys.control.(secrets := sys2.control.secrets, queue := sys2.control.queue))
       && sys2.control.queue == sys.control.queue + [CredentialChanged(s.org, s.id, s.slug, user)]
       && DiffersOnlyAt(sys.control.secrets, sys2.control.secrets, Secrets.UserRef(s.org, s.id, user))
  }

  lemma UserRotationHere(sys: System, sys2: System, key: string, user: string)
    requires StoreOk(sys.control.store) && RotatesUser(sys, sys2, key, user)
    requires var s := sys.control.store.byId[key]; Agrees(sys, s.org, s.slug)
    ensures var s := sys.control.store.byId[key]; Agrees(sys2, s.org, s.slug)
  {
    var c, c2 := sys.control, sys2.control;
    var s := c.store.byId[key];
    var o := EntryAt(sys.catalog, s.org, s.slug);
    StoredIdsSlashFree(c.store, key);
    ReplaySnoc(o, c.queue, CredentialChanged(s.org, s.id, s.slug, user), c2.secrets, s.org, s.slug);
    UserSecretFrame(c.store, key, s.org, s.id, user, c.secrets, c2.secrets);
    ReplayRefreshed(o, c.queue, c.secrets, c2.secrets, s.org, s.slug);
    var x := ReplayAt(o, c.queue, c.secrets, s.org, s.slug);
    if x.Some? {
      var k :| EnabledAt(c.store, k, s.org, s.slug) && EntryFor(x.value, c.store.byId[k], c.secrets);
      assert k == key;
      assert EntryFor(Pending(sys2, s.org, s.slug).value, s, c2.secrets);
    }
  }

  /** One user's rotation: the cached instance goes, everyone else's stays right. */
  lemma UserRotationEffect(sys: System, sys2: System, key: string, user: string, org: string, slug: string)
    requires StoreOk(sys.control.store) && RotatesUser(sys, sys2, key, user)
    requires Agrees(sys, org, slug)
    ensures Agrees(sys2, org, slug)
  {
    var c, c2 := sys.control, sys2.control;
    var s := c.store.byId[key];
    if org == s.org && slug == s.slug {
      UserRotationHere(sys, sys2, key, user);
    } else {
      StoredIdsSlashFree(c.store, key);
      var o := EntryAt(sys.catalog, org, slug);
      ReplaySnoc(o, c.queue, CredentialChanged(s.org, s.id, s.slug, user), c2.secrets, org, slug);
      forall k | EnabledAt(c.store, k, org, slug) ensures SameFor(c.store.byId[k], c.secrets, c2.secrets) {
        UserSecretFrame(c.store, k, s.org, s.id, user, c.secrets, c2.secrets);
      }
      SecretsFrame(o, c.queue, c.store, c.secrets, c2.secrets, org, slug);
    }
  }

  // ----- The remaining steps -----

  predicate IsAt(s: Server, org: string, slug: string) { s.org == org && s.slug == slug }

  ghost predicate Mentions(listing: seq<Server>, org: string, slug: string) {
    exists i :: 0 <= i < |listing| && IsAt(listing[i], org, slug)
  }

  /** Distinct servers of the org, each stored under its key. */
  ghost predicate Purgeable(st: Store, org: string, listing: seq<Server>) {
    && (forall i, j | 0 <= i < j < |listing| :: listing[i] != listing[j])
    && (forall s | s in listing :: s.org == org && Lookup(st, org, s.id) == Some(s))
  }

  lemma PurgeablePrefix(st: Store, org: string, listing: seq<Server>, n: nat)
    requires Purgeable(st, org, listing) && n <= |listing|
    ensures Purgeable(st, org, listing[..n])
  {
  }

  lemma TurnIsDelete(c: Control, org: string, s: Server)
    requires Lookup(c.store, org, s.id) == Some(s)
    ensures PurgeOne(c, org, s).0 == Delete(c, org, s.id).0
  {
  }

  lemma ListedKeysDiffer(st: Store, org: string, listing: seq<Server>, t: Server)
    requires listing != [] && Purgeable(st, org, listing) && t in listing[..|listing| - 1]
    ensures StoreKey(org, t.id) != StoreKey(org, listing[|listing| - 1].id)
  {
    var s := listing[|listing| - 1];
    assert s in listing && t in listing;
    var i :| 0 <= i < |listing| - 1 && listing[..|listing| - 1][i] == t;
    assert listing[i] != s;
  }

  /** One turn of the purge is a delete. */
  lemma PurgeTurn(c: Control, org: string, listing: seq<Server>)
    requires StoreOk(c.store) && listing != [] && Purgeable(c.store, org, listing)
    ensures var n := |listing| - 1;
            var c1 := Purge(c, org, listing[..n]).0;
            StoreOk(c1.store) && Lookup(c1.store, org, listing[n].id) == Some(listing[n])
            && Purge(c, org, listing).0 == Delete(c1, org, listing[n].id).0
  {
    var n := |listing| - 1;
    var s, c1 := listing[n], Purge(c, org, listing[..n]).0;
    assert s in listing;
    forall t | t in listing[..n]
      ensures StoreKey(org, t.id) != StoreKey(org, s.id)
    {
      ListedKeysDiffer(c.store, org, listing, t);
    }
    PurgeKeepsStore(c, org, listing[..n]);
    TurnIsDelete(c1, org, s);
  }

  function Purged(sys: System, org: string, listing: seq<Server>): System {
    sys.(control := Purge(sys.control, org, listing).0)
  }

  lemma PurgeOneMore(sys: System, org: string, listing: seq<Server>, o: string, slug: string)
    requires StoreOk(sys.control.store) && Secrets.SlashFree(org) && Purgeable(sys.control.store, org, listing) &&
             listing != []
    ensures var n := |listing| - 1;
            Agrees(Purged(sys, org, listing), o, slug)
            <==> IsAt(listing[n], o, slug) || Agrees(Purged(sys, org, listing[..n]), o, slug)
  {
    var s := listing[|listing| - 1];
    PurgeTurn(sys.control, org, listing);
    var sys1 := Purged(sys, org, listing[..|listing| - 1]);
    assert Purged(sys, org, listing) == Deleted(sys1, org, s.id);
    DeleteEffect(sys1, org, s.id, o, slug);
  }

  /** After i turns of the purge. */
  ghost predicate AgreesAfter(sys: System, org: string, listing: seq<Server>, i: nat, o: string, slug: string)
    requires i <= |listing|
  {
    Agrees(Purged(sys, org, listing[..i]), o, slug)
  }

  lemma PurgeNext(sys: System, org: string, listing: seq<Server>, i: nat, o: string, slug: string)
    requires StoreOk(sys.control.store) && Secrets.SlashFree(org) && Purgeable(sys.control.store, org, listing) &&
             i < |listing|
    ensures AgreesAfter(sys, org, listing, i + 1, o, slug) <==>
            IsAt(listing[i], o, slug) || AgreesAfter(sys, org, listing, i, o, slug)
  {
    var part := listing[..i + 1];
    PurgeablePrefix(sys.control.store, org, listing, i + 1);
    assert |part| - 1 == i && part[..i] == listing[..i] && part[i] == listing[i];
    PurgeOneMore(sys, org, part, o, slug);
  }

  /** What a turn makes right stays right. */
  lemma {:induction false} PurgeFolds(sys: System, org: string, listing: seq<Server>, o: string, slug: string, n: nat)
    requires n <= |listing| && forall i | 0 <= i < n ::
               AgreesAfter(sys, org, listing, i + 1, o, slug) <==>
                 IsAt(listing[i], o, slug) || AgreesAfter(sys, org, listing, i, o, slug)
    ensures AgreesAfter(sys, org, listing, n, o, slug) <==>
            (exists i :: 0 <= i < n && IsAt(listing[i], o, slug)) || AgreesAfter(sys, org, listing, 0, o, slug)
  {
    if n > 0 {
      PurgeFolds(sys, org, listing, o, slug, n - 1);
      assert IsAt(listing[n - 1], o, slug) ==> exists i :: 0 <= i < n && IsAt(listing[i], o, slug);
      assert AgreesAfter(sys, org, listing, n - 1 + 1, o, slug) <==>
             IsAt(listing[n - 1], o, slug) || AgreesAfter(sys, org, listing, n - 1, o, slug);
    }
  }

  lemma PurgeEffect(sys: System, org: string, listing: seq<Server>, o: string, slug: string)
    requires StoreOk(sys.control.store) && Secrets.SlashFree(org) && Purgeable(sys.control.store, org, listing)
    ensures Agrees(Purged(sys, org, listing), o, slug)
            <==> Mentions(listing, o, slug) || Agrees(sys, o, slug)
  {
    forall i | 0 <= i < |listing|
      ensures AgreesAfter(sys, org, listing, i + 1, o, slug) <==>
              IsAt(listing[i], o, slug) || AgreesAfter(sys, org, listing, i, o, slug)
    {
      PurgeNext(sys, org, listing, i, o, slug);
    }
    PurgeFolds(sys, org, listing, o, slug, |listing|);
    PurgeEnds(sys, org, listing, o, slug);
  }

  lemma PurgeEnds(sys: System, org: string, listing: seq<Server>, o: string, slug: string)
    ensures AgreesAfter(sys, org, listing, |listing|, o, slug) <==> Agrees(Purged(sys, org, listing), o, slug)
    ensures AgreesAfter(sys, org, listing, 0, o, slug) <==> Agrees(sys, o, slug)
  {
    assert listing[..|listing|] == listing;
    assert Purged(sys, org, listing[..0]) == sys;
  }

  lemma DeliverEffect(sys: System, org: string, slug: string)
    requires sys.control.queue != []
    ensures Agrees(Next(sys, Deliver), org, slug) <==> Agrees(sys, org, slug)
  {
    var c := sys.control;
    ReplayFront(EntryAt(sys.catalog, org, slug), c.queue, c.secrets, org, slug);
    assert EntryAt(Apply(sys.catalog, c.queue[0], c.secrets), org, slug)
        == StepAt(EntryAt(sys.catalog, org, slug), c.queue[0], c.secrets, org, slug);
  }

  lemma ConnectEffect(sys: System, step: Step, org: string, slug: string)
    requires step.DoConnect? && Agrees(sys, org, slug)
    ensures Agrees(Next(sys, step), org, slug)
  {
    var c, sys2 := sys.control, Next(sys, step);
    var a, b := EntryAt(sys.catalog, org, slug), EntryAt(sys2.catalog, org, slug);
    if a != b {
      var inst := BuildForUser(c.secrets, a.value.provider, step.user).value;
      ReplayGrown(a, b, step.user, inst, c.queue, c.secrets, org, slug);
      var x, y := Pending(sys, org, slug), Pending(sys2, org, slug);
      if x != y {
        var k :| EnabledAt(c.store, k, org, slug) && EntryFor(x.value, c.store.byId[k], c.secrets);
        assert EntryFor(y.value, c.store.byId[k], c.secrets);
      }
    }
  }

  lemma {:induction false} UpsertsReplay(o: Option<Entry>, xs: seq<Server>, secrets: map<string, Secrets.Values>,
                                         org: string, slug: string)
    requires forall i, j | 0 <= i < j < |xs| :: xs[i].org != xs[j].org || xs[i].slug != xs[j].slug
    ensures forall s | s in xs && s.org == org && s.slug == slug && KnownType(s.typ) ::
              ReplayAt(o, Upserts(xs), secrets, org, slug) == Some(EntryOf(UpsertOf(s), secrets))
    ensures ReplayAt(o, Upserts(xs), secrets, org, slug) == o ||
              exists s :: s in xs && s.org == org && s.slug == slug && KnownType(s.typ)
  {
    if xs != [] {
      var n := |xs| - 1;
      UpsertsReplay(o, xs[..n], secrets, org, slug);
      assert Upserts(xs)[..n] == Upserts(xs[..n]);
      assert xs == xs[..n] + [xs[n]];
    }
  }

  /** Two listings of the same enabled servers reconcile to the same catalog, entry by entry, and doing
      it again changes nothing. */
  lemma ReconcileOrderIrrelevant(st: Store, xs: seq<Server>, ys: seq<Server>, secrets: map<string, Secrets.Values>,
                                 org: string, slug: string)
    requires StoreOk(st) && ListsEnabled(xs, st) && ListsEnabled(ys, st)
    ensures var once := Replay(map[], Upserts(xs), secrets);
            && EntryAt(Replay(map[], Upserts(ys), secrets), org, slug) == EntryAt(once, org, slug)
            && EntryAt(Replay(once, Upserts(ys), secrets), org, slug) == EntryAt(once, org, slug)
  {
    ListedSlugsDiffer(st, xs);
    ListedSlugsDiffer(st, ys);
    var once := Replay(map[], Upserts(xs), secrets);
    ReplayPointwise(map[], Upserts(xs), secrets, org, slug);
    ReplayPointwise(map[], Upserts(ys), secrets, org, slug);
    ReplayPointwise(once, Upserts(ys), secrets, org, slug);
    UpsertsReplay(None, xs, secrets, org, slug);
    UpsertsReplay(None, ys, secrets, org, slug);
    UpsertsReplay(EntryAt(once, org, slug), ys, secrets, org, slug);
  }

  lemma ListedSlugsDiffer(st: Store, xs: seq<Server>)
    requires StoreOk(st) && ListsEnabled(xs, st)
    ensures forall i, j | 0 <= i < j < |xs| :: xs[i].org != xs[j].org || xs[i].slug != xs[j].slug
  {
    forall i, j | 0 <= i < j < |xs| ensures xs[i].org != xs[j].org || xs[i].slug != xs[j].slug {
      assert xs[i] in xs && xs[j] in xs;
      var k :| k in st.byId && st.byId[k] == xs[i];
      var l :| l in st.byId && st.byId[l] == xs[j];
    }
  }

  /** After a restart the catalog is right wherever the enabled servers are of known types, whatever
      order they were listed in and whatever was pending. */
  lemma RestartEffect(sys: System, enabled: seq<Server>, org: string, slug: string)
    requires StoreOk(sys.control.store) && ListsEnabled(enabled, sys.control.store)
    ensures Agrees(Next(sys, Restart(enabled)), org, slug)
            <==> forall k | EnabledAt(sys.control.store, k, org, slug) :: KnownType(sys.control.store.byId[k].typ)
  {
    var c := sys.control;
    ListedSlugsDiffer(c.store, enabled);
    UpsertsReplay(None, enabled, c.secrets, org, slug);
    ReplayPointwise(map[], Upserts(enabled), c.secrets, org, slug);
    var o := Pending(Next(sys, Restart(enabled)), org, slug);
    assert o == ReplayAt(None, Upserts(enabled), c.secrets, org, slug);
    forall k | EnabledAt(c.store, k, org, slug) ensures c.store.byId[k] in enabled { }
    if o.Some? {
      var s :| s in enabled && s.org == org && s.slug == slug && KnownType(s.typ);
      var k :| k in c.store.byId && c.store.byId[k] == s;
      assert EnabledAt(c.store, k, org, slug) && EntryFor(o.value, s, c.secrets);
      assert forall l | EnabledAt(c.store, l, org, slug) :: l == k;
    }
  }

  // ----- Every step: agreement is kept exactly by the faithful ones -----

  ghost predicate Inv(sys: System) { StoreOk(sys.control.store) && AgreesEverywhere(sys) }

  /** The step leaves the store in order, and agreement everywhere if and only if cond holds. */
  ghost predicate Keeps(sys2: System, cond: bool) {
    StoreOk(sys2.control.store) && (AgreesEverywhere(sys2) <==> cond)
  }

  lemma CreateStep(sys: System, org: string, req: CreateReq)
    requires Inv(sys) && Secrets.SlashFree(org)
    ensures Keeps(Next(sys, DoCreate(org, req)), true)
  {
    CreateKeepsStore(sys.control, org, req);
    forall o, slug ensures Agrees(Next(sys, DoCreate(org, req)), o, slug) {
      assert Agrees(sys, o, slug);
      CreateEffect(sys, org, req, o, slug);
    }
  }

  lemma PatchStep(sys: System, org: string, id: string, patch: PatchReq)
    requires Inv(sys) && Secrets.SlashFree(org)
    ensures Keeps(Next(sys, DoPatch(org, id, patch)), Faithful(sys, DoPatch(org, id, patch)))
  {
    var step := DoPatch(org, id, patch);
    var s := Lookup(sys.control.store, org, id);
    if s.Some? {
      UpdateKeepsStore(sys.control.store, org, id, Patched(s.value, patch));
      PatchEffect(sys, org, id, patch, s.value.org, s.value.slug);
    }
    if Faithful(sys, step) {
      forall o, slug ensures Agrees(Next(sys, step), o, slug) {
        assert Agrees(sys, o, slug);
        PatchEffect(sys, org, id, patch, o, slug);
      }
    }
  }

  lemma DeleteStep(sys: System, org: string, id: string)
    requires Inv(sys) && Secrets.SlashFree(org)
    ensures Keeps(Deleted(sys, org, id), true)
  {
    forall o, slug ensures Agrees(Deleted(sys, org, id), o, slug) {
      assert Agrees(sys, o, slug);
      DeleteEffect(sys, org, id, o, slug);
    }
  }

  lemma PurgeStep(sys: System, org: string, listing: seq<Server>)
    requires Inv(sys) && IsListing(listing, sys.control.store, org)
    ensures Keeps(Purged(sys, org, listing), true)
    ensures forall k | k in Purged(sys, org, listing).control.store.byId ::
              k in sys.control.store.byId && sys.control.store.byId[k].org != org
  {
    var st := sys.control.store;
    PurgeKeepsStore(sys.control, org, listing);
    forall s | s in listing ensures s.org == org && Lookup(st, org, s.id) == Some(s) {
      var k :| k in st.byId && st.byId[k] == s;
    }
    forall k | k in st.byId && st.byId[k].org == org ensures exists s :: s in listing && StoreKey(org, s.id) == k {
      assert st.byId[k] in listing;
    }
    forall o, slug ensures Agrees(Purged(sys, org, listing), o, slug) {
      assert Agrees(sys, o, slug);
      if listing != [] {
        assert listing[0] in listing && StoreKey(org, listing[0].id) in st.byId;
        PurgeEffect(sys, org, listing, o, slug);
      }
    }
  }

  lemma RestartStep(sys: System, enabled: seq<Server>)
    requires Inv(sys) && ListsEnabled(enabled, sys.control.store)
    ensures Keeps(Next(sys, Restart(enabled)), true)
  {
    forall o, slug ensures Agrees(Next(sys, Restart(enabled)), o, slug) {
      assert Agrees(sys, o, slug);
      RestartEffect(sys, enabled, o, slug);
    }
  }

  /** A rotation of the server under org and id, for everyone: sys2 is the outcome. */
  lemma RotationStep(sys: System, sys2: System, org: string, id: string)
    requires Inv(sys) && Secrets.SlashFree(org) && Lookup(sys.control.store, org, id).Some?
    requires RotatesAll(sys, sys2, StoreKey(org, id)) && sys2.control.store.seqNo == sys.control.store.seqNo
    ensures Keeps(sys2, Announceable(sys, org, id))
  {
    RotationEffect(sys, sys2, StoreKey(org, id));
  }

  /** An org-level secret changes, and the change is announced if the server exists: c2 is the outcome. */
  lemma OrgCredentialStep(sys: System, c2: Control, org: string, id: string)
    requires Inv(sys) && Secrets.SlashFree(org) && Secrets.SlashFree(id)
    requires DiffersOnlyAt(sys.control.secrets, c2.secrets, Secrets.OrgRef(org, id))
    requires Lookup(sys.control.store, org, id).None? ==> c2 == sys.control.(secrets := c2.secrets)
    requires Lookup(sys.control.store, org, id).Some? ==>
               var s := Lookup(sys.control.store, org, id).value;
               && c2.queue == sys.control.queue + [UpsertOf(s)]
               && exists set2 ::
                    c2.store == sys.control.store.(
                      byId := sys.control.store.byId[StoreKey(org, id) := s.(credentialSet := set2)])
    ensures Keeps(sys.(control := c2), Announceable(sys, org, id))
  {
    var c, sys2 := sys.control, sys.(control := c2);
    forall k | k in c.store.byId && k != StoreKey(org, id) ensures SameFor(c.store.byId[k], c.secrets, c2.secrets) {
      OrgSecretFrame(c.store, k, org, id, c.secrets, c2.secrets);
    }
    if Lookup(c.store, org, id).None? {
      forall o, slug ensures Agrees(sys2, o, slug) {
        assert Agrees(sys, o, slug);
        UnusedSecretEffect(sys, sys2, o, slug);
      }
    } else {
      RotationStep(sys, sys2, org, id);
    }
  }

  lemma PutOrgStep(sys: System, org: string, id: string, values: Secrets.Values, stored: bool)
    requires Inv(sys) && Secrets.SlashFree(org) && Secrets.SlashFree(id)
    ensures var step := DoPutOrg(org, id, values, stored); Keeps(Next(sys, step), Faithful(sys, step))
  {
    var c := sys.control;
    var s := Lookup(c.store, org, id);
    if s.Some? && values != map[] && stored {
      LookupIsScoped(c.store, org, id);
      var s2 := s.value.(credentialSet := true);
      UpdateKeepsStore(c.store, org, id, s2);
      assert c.store.byId == c.store.byId[StoreKey(org, id) := s.value];
      OrgCredentialStep(sys, PutOrg(c, org, id, values, stored).0, org, id);
    }
  }

  lemma DeleteOrgStep(sys: System, org: string, id: string, deleted: bool)
    requires Inv(sys) && Secrets.SlashFree(org) && Secrets.SlashFree(id)
    ensures var step := DoDeleteOrg(org, id, deleted); Keeps(Next(sys, step), Faithful(sys, step))
  {
    var c := sys.control;
    var s := Lookup(c.store, org, id);
    if s.Some? {
      LookupIsScoped(c.store, org, id);
      UpdateKeepsStore(c.store, org, id, s.value.(credentialSet := false));
    }
    if deleted { OrgCredentialStep(sys, DeleteOrg(c, org, id, deleted).0, org, id); }
  }

  /** A user's secret changes, and the change is announced if the server exists: c2 is the outcome. */
  lemma MyCredentialStep(sys: System, c2: Control, org: string, id: string, user: string)
    requires Inv(sys) && Secrets.SlashFree(org) && Secrets.SlashFree(id)
    requires DiffersOnlyAt(sys.control.secrets, c2.secrets, Secrets.UserRef(org, id, user))
    requires var s := Lookup(sys.control.store, org, id);
             c2 == sys.control.(secrets := c2.secrets,
                                queue := if s.None? then sys.control.queue
                                         else sys.control.queue + [RotationOf(s.value, user)])
    ensures Keeps(sys.(control := c2), user == "" ==> Announceable(sys, org, id))
  {
    var c, sys2 := sys.control, sys.(control := c2);
    forall k | k in c.store.byId && k != StoreKey(org, id) ensures SameFor(c.store.byId[k], c.secrets, c2.secrets) {
      UserSecretFrame(c.store, k, org, id, user, c.secrets, c2.secrets);
    }
    if Lookup(c.store, org, id).None? {
      forall o, slug ensures Agrees(sys2, o, slug) {
        assert Agrees(sys, o, slug);
        UnusedSecretEffect(sys, sys2, o, slug);
      }
    } else {
      LookupIsScoped(c.store, org, id);
      if user == "" {
        RotationStep(sys, sys2, org, id);
      } else {
        forall o, slug ensures Agrees(sys2, o, slug) {
          assert Agrees(sys, o, slug);
          UserRotationEffect(sys, sys2, StoreKey(org, id), user, o, slug);
        }
      }
    }
  }

  lemma PutMyStep(sys: System, org: string, id: string, caller: Option<string>, values: Secrets.Values, stored: bool)
    requires Inv(sys) && Secrets.SlashFree(org) && Secrets.SlashFree(id)
    ensures var step := DoPutMy(org, id, caller, values, stored); Keeps(Next(sys, step), Faithful(sys, step))
  {
    if Lookup(sys.control.store, org, id).Some? && caller.Some? && values != map[] && stored {
      MyCredentialStep(sys, PutMy(sys.control, org, id, caller, values, stored).0, org, id, caller.value);
    }
  }

  lemma DeleteMyStep(sys: System, org: string, id: string, caller: Option<string>, deleted: bool)
    requires Inv(sys) && Secrets.SlashFree(org) && Secrets.SlashFree(id)
    ensures var step := DoDeleteMy(org, id, caller, deleted); Keeps(Next(sys, step), Faithful(sys, step))
  {
    if caller.Some? && deleted {
      MyCredentialStep(sys, DeleteMy(sys.control, org, id, caller, deleted).0, org, id, caller.value);
    }
  }

  /** From a state that agrees everywhere, a step leads to one that does if and only if what it
      announces is what it stored. */
  lemma StepKeepsAgreement(sys: System, step: Step)
    requires Inv(sys) && Possible(sys, step)
    ensures StoreOk(Next(sys, step).control.store)
    ensures AgreesEverywhere(Next(sys, step)) <==> Faithful(sys, step)
  {
    match step
    case DoCreate(org, req) => CreateStep(sys, org, req);
    case DoPatch(org, id, patch) => PatchStep(sys, org, id, patch);
    case DoDelete(org, id) => DeleteStep(sys, org, id);
    case DoPutOrg(org, id, values, stored) => PutOrgStep(sys, org, id, values, stored);
    case DoDeleteOrg(org, id, deleted) => DeleteOrgStep(sys, org, id, deleted);
    case DoPutMy(org, id, caller, values, stored) => PutMyStep(sys, org, id, caller, values, stored);
    case DoDeleteMy(org, id, caller, deleted) => DeleteMyStep(sys, org, id, caller, deleted);
    case DoPurge(org, listing) => PurgeStep(sys, org, listing);
    case Deliver =>
      forall o, slug ensures Agrees(Next(sys, step), o, slug) {
        assert Agrees(sys, o, slug);
        DeliverEffect(sys, o, slug);
      }
    case DoConnect(_, _, _) =>
      forall o, slug ensures Agrees(Next(sys, step), o, slug) {
        assert Agrees(sys, o, slug);
        ConnectEffect(sys, step, o, slug);
      }
    case Restart(enabled) => RestartStep(sys, enabled);
  }

  // ----- Every run -----

  ghost predicate IsRun(run: seq<System>, steps: seq<Step>) {
    && |run| == |steps| + 1 && run[0] == Initial
    && forall i | 0 <= i < |steps| :: Possible(run[i], steps[i]) && run[i + 1] == Next(run[i], steps[i])
  }

  lemma {:induction false} RunAgrees(run: seq<System>, steps: seq<Step>, n: nat)
    requires IsRun(run, steps) && n <= |steps|
    requires forall i | 0 <= i < n :: Faithful(run[i], steps[i])
    ensures Inv(run[n])
  {
    if n > 0 {
      RunAgrees(run, steps, n - 1);
      StepKeepsAgreement(run[n - 1], steps[n - 1]);
    }
  }

  /** Once every announcement has been delivered, the catalog holds exactly the enabled servers, each
      as defined and with its present credentials. */
  lemma DrainedCatalogIsTheStore(run: seq<System>, steps: seq<Step>, n: nat, org: string, slug: string)
    requires IsRun(run, steps) && n <= |steps|
    requires forall i | 0 <= i < n :: Faithful(run[i], steps[i])
    requires run[n].control.queue == []
    ensures Correct(EntryAt(run[n].catalog, org, slug), run[n].control.store, run[n].control.secrets, org, slug)
  {
    RunAgrees(run, steps, n);
    assert Agrees(run[n], org, slug);
  }

  // ----- The registries' order, in every run -----

  ghost predicate Ordered(cat: Catalog) { forall org :: D.WellOrdered(OrgOf(cat, org)) }

  lemma ApplyKeepsOrder(cat: Catalog, e: Event, secrets: map<string, Secrets.Values>)
    requires Ordered(cat)
    ensures Ordered(Apply(cat, e, secrets))
  {
    var r := OrgOf(cat, e.org);
    match e
    case Upsert(_, _, _, _, _, _, _, _, _, _) =>
      D.LinkedKeepsOrder(r, e.slug, EntryOf(e, secrets));
      PutKeepsOrder(cat, e.org, D.Linked(r, e.slug, EntryOf(e, secrets)));
    case Remove(_, _, _) =>
      D.UnlinkedKeepsOrder(r, e.slug);
      PutKeepsOrder(cat, e.org, D.Unlinked(r, e.slug));
    case CredentialChanged(_, _, _, user) =>
      D.DroppedKeepsOrder(r, e.slug, user);
      PutKeepsOrder(cat, e.org, D.Dropped(r, e.slug, user));
  }

  lemma PutKeepsOrder(cat: Catalog, org: string, r: Org)
    requires Ordered(cat) && D.WellOrdered(r)
    ensures Ordered(cat[org := r])
  {
    var cat2 := cat[org := r];
    forall o ensures D.WellOrdered(OrgOf(cat2, o)) {
      if o != org { assert OrgOf(cat2, o) == OrgOf(cat, o); }
    }
  }

  lemma {:induction false} ReplayKeepsOrder(cat: Catalog, q: seq<Event>, secrets: map<string, Secrets.Values>)
    requires Ordered(cat)
    ensures Ordered(Replay(cat, q, secrets))
  {
    if q != [] {
      ReplayKeepsOrder(cat, q[..|q| - 1], secrets);
      ApplyKeepsOrder(Replay(cat, q[..|q| - 1], secrets), q[|q| - 1], secrets);
    }
  }

  lemma NextKeepsOrder(sys: System, step: Step)
    requires Possible(sys, step) && Ordered(sys.catalog)
    ensures Ordered(Next(sys, step).catalog)
  {
    var c := sys.control;
    match step
    case Deliver => ApplyKeepsOrder(sys.catalog, c.queue[0], c.secrets);
    case DoConnect(org, slug, user) =>
      var r, build := OrgOf(sys.catalog, org), UserBuilder(c.secrets);
      D.LookedKeepsOrder(r, slug, user, build);
      PutKeepsOrder(sys.catalog, org, D.Looked(r, slug, user, build).0);
    case Restart(enabled) => ReplayKeepsOrder(map[], Upserts(enabled), c.secrets);
    case _ =>
  }

  /** In every state of every run, each org's order is free of duplicates and lists just its slugs. */
  lemma {:induction false} RunKeepsOrder(run: seq<System>, steps: seq<Step>, n: nat)
    requires IsRun(run, steps) && n <= |steps|
    ensures Ordered(run[n].catalog)
  {
    if n > 0 {
      RunKeepsOrder(run, steps, n - 1);
      NextKeepsOrder(run[n - 1], steps[n - 1]);
    }
  }

  // ----- Credentials in use -----

  /** e will replace or drop the entry, or the instance cached for user. */
  predicate Touches(e: Event, org: string, slug: string, user: string) {
    e.org == org && e.slug == slug &&
    match e
    case Upsert(_, _, _, _, _, _, _, _, _, _) => true
    case Remove(_, _, _) => true
    case CredentialChanged(_, _, _, u) => u == "" || u == user
  }

  lemma {:induction false} UntouchedStays(o: Option<Entry>, q: seq<Event>, secrets: map<string, Secrets.Values>,
                                          org: string, slug: string, user: string)
    requires o.Some? && forall i | 0 <= i < |q| :: !Touches(q[i], org, slug, user)
    ensures var p := ReplayAt(o, q, secrets, org, slug);
            && p.Some?
            && (o.value.Shared? ==> p == o)
            && (o.value.PerUser? ==> p.value.PerUser? && p.value.provider == o.value.provider)
            && (o.value.PerUser? && user in o.value.users ==>
                  user in p.value.users && p.value.users[user] == o.value.users[user])
  {
    if q != [] {
      UntouchedStays(o, q[..|q| - 1], secrets, org, slug, user);
    }
  }

  /** Every instance in use, shared or cached for a user, was built from the enabled server there and
      carries the credentials now stored under its own reference, unless an event that replaces or
      drops it is still to be delivered. */
  lemma InstancesAreCurrent(run: seq<System>, steps: seq<Step>, n: nat, org: string, slug: string, user: string)
    requires IsRun(run, steps) && n <= |steps|
    requires forall i | 0 <= i < n :: Faithful(run[i], steps[i])
    requires EntryAt(run[n].catalog, org, slug).Some?
    requires forall i | 0 <= i < |run[n].control.queue| :: !Touches(run[n].control.queue[i], org, slug, user)
    ensures var c := run[n].control;
            exists k :: EnabledAt(c.store, k, org, slug) &&
              match EntryAt(run[n].catalog, org, slug).value {
                case Shared(ds, _) =>
                  ds == Instance(UpsertOf(c.store.byId[k]), ResolveCredentials(UpsertOf(c.store.byId[k]), c.secrets))
                case PerUser(_, users, _) =>
                  user in users ==> Some(users[user]) == BuildForUser(c.secrets, UpsertOf(c.store.byId[k]), user)
              }
  {
    RunAgrees(run, steps, n);
    assert Agrees(run[n], org, slug);
    var c, o := run[n].control, EntryAt(run[n].catalog, org, slug);
    UntouchedStays(o, c.queue, c.secrets, org, slug, user);
  }

  // ----- The two unfaithful announcements are real -----

  /** Rotating the org credential of a disabled server brings it back at the gateway. */
  lemma RotationRevivesDisabled(sys: System, org: string, id: string, values: Secrets.Values)
    requires Inv(sys) && Secrets.SlashFree(org) && Secrets.SlashFree(id) && values != map[]
    requires var s := Lookup(sys.control.store, org, id);
             s.Some? && !s.value.enabled && KnownType(s.value.typ)
    ensures var s := Lookup(sys.control.store, org, id).value;
            Pending(sys, s.org, s.slug).None? &&
              Pending(Next(sys, DoPutOrg(org, id, values, true)), s.org, s.slug).Some?
  {
    var s := Lookup(sys.control.store, org, id).value;
    var c2 := PutOrg(sys.control, org, id, values, true).0;
    assert Agrees(sys, s.org, s.slug);
    assert forall k :: !EnabledAt(sys.control.store, k, s.org, s.slug);
    ReplaySnoc(EntryAt(sys.catalog, s.org, s.slug), sys.control.queue, UpsertOf(s), c2.secrets, s.org, s.slug);
    assert c2.queue == sys.control.queue + [UpsertOf(s)];
  }

  /** Such a state is easily had: a server is created, and then disabled. */
  lemma DisabledServerState(org: string, req: CreateReq, values: Secrets.Values)
    returns (run: seq<System>, steps: seq<Step>, id: string)
    requires Secrets.SlashFree(org) && ValidCreate(req) && values != map[]
    ensures IsRun(run, steps) && forall i | 0 <= i < |steps| :: Faithful(run[i], steps[i])
    ensures Inv(run[|steps|]) && Secrets.SlashFree(id)
    ensures var s := Lookup(run[|steps|].control.store, org, id);
            s.Some? && !s.value.enabled && KnownType(s.value.typ)
    ensures var sys, s := run[|steps|], Lookup(run[|steps|].control.store, org, id).value;
            Pending(sys, s.org, s.slug).None? &&
              Pending(Next(sys, DoPutOrg(org, id, values, true)), s.org, s.slug).Some?
  {
    id := ServerId(1);
    var disable := PatchReq(Some(false), None, None, None, None, None, None, None);
    steps := [DoCreate(org, req), DoPatch(org, id, disable)];
    var s1 := Next(Initial, steps[0]);
    assert s1.control.store == Store(map[StoreKey(org, id) := NewServer(org, req, 1)], 1);
    var s2 := Next(s1, steps[1]);
    run := [Initial, s1, s2];
    assert IsRun(run, steps);
    RunAgrees(run, steps, 2);
    ServerIdSlashFree(1);
    RotationRevivesDisabled(s2, org, id, values);
  }

  /** Patching in a type no gateway knows leaves the gateway on the old definition. */
  lemma UnknownTypeIsIgnored(sys: System, org: string, id: string, typ: string)
    requires Inv(sys) && Secrets.SlashFree(org) && !KnownType(typ)
    requires Lookup(sys.control.store, org, id).Some? && Lookup(sys.control.store, org, id).value.enabled
    ensures var s := Lookup(sys.control.store, org, id).value;
            var step := DoPatch(org, id, PatchReq(None, Some(typ), None, None, None, None, None, None));
            !Agrees(Next(sys, step), s.org, s.slug) &&
              Pending(Next(sys, step), s.org, s.slug) == Pending(sys, s.org, s.slug)
  {
    var s := Lookup(sys.control.store, org, id).value;
    var patch := PatchReq(None, Some(typ), None, None, None, None, None, None);
    PatchEffect(sys, org, id, patch, s.org, s.slug);
    var s2 := Patched(s, patch);
    ReplaySnoc(EntryAt(sys.catalog, s.org, s.slug), sys.control.queue, UpsertOf(s2), sys.control.secrets, s.org,
               s.slug);
    assert Next(sys, DoPatch(org, id, patch)).control.queue == sys.control.queue + [UpsertOf(s2)];
  }
}
