/** Tenant lifecycle: the registry of tenants, and provisioning, suspending, resuming and deleting the
    realm that goes with each. */
module Tenants {
  import opened Wrappers
  import opened Saga
  import opened Keycloak
  import Admin

  datatype Status = Provisioning | Active | Suspended | Deleting | Deleted | Failed

  datatype Tenant = Tenant(slug: string, displayName: string, status: Status, adminEmail: string, subdomainReady: bool,
                           createdAt: int, updatedAt: int, suspendedAt: Option<int>, deletedAt: Option<int>,
                           auditRetentionUntil: Option<int>)

  datatype JobStatus = Running | Succeeded | Compensated

  datatype Job = Job(id: string, tenantSlug: string, status: JobStatus, steps: seq<StepLog>, createdAt: int,
                     updatedAt: int)

  /** reserved holds the reserved slugs, one by one and in lower case; addDays is what the calendar of the
      server's time zone makes of a time and a number of days. */
  datatype Config = Config(configured: bool, reserved: set<string>, auditRetentionDays: int, addDays: (int, int) -> int)

  datatype Request = Request(slug: string, displayName: string, adminEmail: string)

  datatype Reply = Ok(tenant: Tenant) | NotConfigured | InvalidSlug | SlugTaken | NotFound | Conflict | ProviderError

  datatype System = System(tenants: map<string, Tenant>, jobs: map<string, Job>, kc: KC)

  // ----- Slugs -----

  predicate Lower(c: char) { 'a' <= c <= 'z' }

  predicate Alnum(c: char) { Lower(c) || '0' <= c <= '9' }

  /** A letter, then 1 to 38 letters, digits or hyphens, then a letter or digit; not reserved. */
  predicate ValidSlug(cfg: Config, s: string) {
    && 3 <= |s| <= 40 && Lower(s[0]) && Alnum(s[|s| - 1])
    && (forall i | 1 <= i < |s| - 1 :: Alnum(s[i]) || s[i] == '-')
    && s !in cfg.reserved
  }

  /** A valid slug matches ^[a-z][a-z0-9-]{1,38}[a-z0-9]$ and is not reserved, and nothing else is valid. */
  lemma ValidSlugIff(cfg: Config, s: string)
    ensures ValidSlug(cfg, s) <==>
            s !in cfg.reserved &&
            exists first, mid, last :: s == [first] + mid + [last] && MatchesPattern(first, mid, last)
  {
    if ValidSlug(cfg, s) {
      var n := |s| - 1;
      var mid := s[1..n];
      assert s == [s[0]] + mid + [s[n]];
      assert forall i | 0 <= i < |mid| :: mid[i] == s[i + 1];
      assert MatchesPattern(s[0], mid, s[n]);
    }
    if first, mid, last :| s == [first] + mid + [last] && MatchesPattern(first, mid, last) {
      assert forall i | 1 <= i < |s| - 1 :: s[i] == mid[i - 1];
    }
  }

  predicate MatchesPattern(first: char, mid: string, last: char) {
    && 'a' <= first <= 'z' && ('a' <= last <= 'z' || '0' <= last <= '9') && 1 <= |mid| <= 38
    && forall i | 0 <= i < |mid| :: 'a' <= mid[i] <= 'z' || '0' <= mid[i] <= '9' || mid[i] == '-'
  }

  /** What the keys built from organization names rest on. */
  lemma ValidSlugLacks(cfg: Config, s: string, c: char)
    requires ValidSlug(cfg, s) && !Alnum(c) && c != '-'
    ensures c !in s
  {
  }

  // ----- Provisioning -----

  function Steps(faults: Faults, b: Bootstrap): seq<SagaStep<KC>> {
    [SagaStep("realm", kc => CreateRealm(faults, kc, b.realm), Some(kc => DeleteRealm(faults, kc, b.realm).0)),
     SagaStep("console-client", kc => ConsoleClient(faults, b, kc), None),
     SagaStep("mcp-client", kc => MCPClient(faults, b, kc), None),
     SagaStep("admin-role", kc => CreateRealmRole(faults, kc, b.realm, b.adminRole), None),
     SagaStep("admin-user", kc => AdminUser(faults, b, kc), None)]
  }

  function NewTenant(req: Request, now: int): Tenant {
    Tenant(req.slug, req.displayName, Provisioning, req.adminEmail, false, now, now, None, None, None)
  }

  /** now and later are the clock when the request begins and when the saga has ended. */
  function Provision(cfg: Config, faults: Faults, sys: System, req: Request, jobId: string, now: int,
                     later: int): (System, Reply)
  {
    if !cfg.configured then (sys, NotConfigured)
    else if !ValidSlug(cfg, req.slug) then (sys, InvalidSlug)
    else if req.slug in sys.tenants then (sys, SlugTaken)
    else
      var (kc, exists_) := RealmExists(faults, sys.kc, req.slug);
      if exists_.None? then (sys.(kc := kc), ProviderError)
      else if exists_.value then (sys.(kc := kc), SlugTaken)
      else
        var o := SagaOutcome(Steps(faults, BootstrapFor(req.slug, req.adminEmail)), kc);
        Concluded(sys, NewTenant(req, now), jobId, o, now, later)
  }

  /** The tenant and the job as a saga with outcome o leaves them. */
  function Concluded(sys: System, t: Tenant, jobId: string, o: Outcome<KC>, now: int, later: int): (System, Reply) {
    var ok := o.failedAt.None?;
    var t2 := Settled(t, ok, later);
    var job := Job(jobId, t.slug, if ok then Succeeded else Compensated, o.log, now, later);
    (System(sys.tenants[t.slug := t2], sys.jobs[jobId := job], o.state), if ok then Ok(t2) else ProviderError)
  }

  function Settled(t: Tenant, ok: bool, later: int): Tenant {
    if ok then t.(status := Active, subdomainReady := true, updatedAt := later)
    else t.(status := Failed, updatedAt := later)
  }

  function Suspend(cfg: Config, faults: Faults, sys: System, slug: string, now: int): (System, Reply) {
    if slug !in sys.tenants then (sys, NotFound)
    else if !cfg.configured then (sys, NotConfigured)
    else
      var t := sys.tenants[slug];
      if t.status == Deleted || t.status == Deleting then (sys, Conflict)
      else
        var (kc, ok) := SetRealmEnabled(faults, sys.kc, slug, false);
        if !ok then (sys.(kc := kc), ProviderError)
        else
          var t2 := t.(status := Suspended, suspendedAt := Some(now), updatedAt := now);
          (sys.(tenants := sys.tenants[slug := t2], kc := kc), Ok(t2))
  }

  function Resume(cfg: Config, faults: Faults, sys: System, slug: string, now: int): (System, Reply) {
    if slug !in sys.tenants then (sys, NotFound)
    else if !cfg.configured then (sys, NotConfigured)
    else
      var t := sys.tenants[slug];
      if t.status != Suspended then (sys, Conflict)
      else
        var (kc, ok) := SetRealmEnabled(faults, sys.kc, slug, true);
        if !ok then (sys.(kc := kc), ProviderError)
        else
          var t2 := t.(status := Active, suspendedAt := None, updatedAt := now);
          (sys.(tenants := sys.tenants[slug := t2], kc := kc), Ok(t2))
  }

  function RetentionDays(cfg: Config): (days: int)
    ensures days >= 365 && days >= cfg.auditRetentionDays
  {
    if cfg.auditRetentionDays < 365 then 365 else cfg.auditRetentionDays
  }

  function Delete(cfg: Config, faults: Faults, sys: System, slug: string, now: int, later: int): (System, Reply) {
    if slug !in sys.tenants then (sys, NotFound)
    else if !cfg.configured then (sys, NotConfigured)
    else
      var t := sys.tenants[slug];
      var (kc, ok) := DeleteRealm(faults, sys.kc, slug);
      if !ok then (sys.(tenants := sys.tenants[slug := t.(status := Failed, updatedAt := later)], kc := kc),
                   ProviderError)
      else
        var t2 := t.(status := Deleted, deletedAt := Some(now),
                     auditRetentionUntil := Some(cfg.addDays(now, RetentionDays(cfg))),
                     subdomainReady := false, updatedAt := now);
        (sys.(tenants := sys.tenants[slug := t2], kc := kc), Ok(t2))
  }

  // ----- The store and the service -----

  class MemStore {
    var tenants: map<string, Tenant>
    var jobs: map<string, Job>

    constructor ()
      ensures tenants == map[] && jobs == map[]
    {
      tenants, jobs := map[], map[];
    }

    method CreateTenant(t: Tenant) returns (ok: bool)
      modifies this`tenants
      ensures ok <==> t.slug !in old(tenants)
      ensures tenants == if ok then old(tenants)[t.slug := t] else old(tenants)
    {
      if t.slug in tenants { return false; }
      tenants := tenants[t.slug := t];
      return true;
    }

    method UpdateTenant(t: Tenant) returns (ok: bool)
      modifies this`tenants
      ensures ok <==> t.slug in old(tenants)
      ensures tenants == if ok then old(tenants)[t.slug := t] else old(tenants)
    {
      if t.slug !in tenants { return false; }
      tenants := tenants[t.slug := t];
      return true;
    }

    method CreateJob(j: Job)
      modifies this`jobs
      ensures jobs == old(jobs)[j.id := j]
    {
      jobs := jobs[j.id := j];
    }

    method UpdateJob(j: Job) returns (ok: bool)
      modifies this`jobs
      ensures ok <==> j.id in old(jobs)
      ensures jobs == if ok then old(jobs)[j.id := j] else old(jobs)
    {
      if j.id !in jobs { return false; }
      jobs := jobs[j.id := j];
      return true;
    }
  }

  class Service {
    const store: MemStore
    const cfg: Config
    const faults: Faults
    var kc: KC

    ghost function View(): System reads this, store { System(store.tenants, store.jobs, kc) }

    /** Each tenant is filed under its own slug. */
    ghost predicate Valid() reads this, store { forall s | s in store.tenants :: store.tenants[s].slug == s }

    constructor (store: MemStore, cfg: Config, faults: Faults, kc: KC)
      ensures this.store == store && this.cfg == cfg && this.faults == faults && this.kc == kc
    {
      this.store, this.cfg, this.faults, this.kc := store, cfg, faults, kc;
    }

    method ProvisionTenant(req: Request, jobId: string, now: int, later: int) returns (r: Reply)
      requires Valid()
      modifies this, store
      ensures Valid() && (View(), r) == Provision(cfg, faults, old(View()), req, jobId, now, later)
    {
      if !cfg.configured { return NotConfigured; }
      if !ValidSlug(cfg, req.slug) { return InvalidSlug; }
      if req.slug in store.tenants { return SlugTaken; }
      var (kc1, found) := RealmExists(faults, kc, req.slug);
      kc := kc1;
      if found.None? { return ProviderError; }
      if found.value { return SlugTaken; }
      r := RunProvisioning(NewTenant(req, now), jobId, Steps(faults, BootstrapFor(req.slug, req.adminEmail)),
                           now, later);
    }

    method RunProvisioning(t0: Tenant, jobId: string, steps: seq<SagaStep<KC>>, now: int, later: int) returns (r: Reply)
      requires Valid() && t0.slug !in store.tenants
      modifies this, store
      ensures Valid() && (View(), r) == Concluded(old(View()), t0, jobId, SagaOutcome(steps, old(kc)), now, later)
    {
      var created := store.CreateTenant(t0);
      var job := Job(jobId, t0.slug, Running, [], now, now);
      store.CreateJob(job);
      var kc2, log, failedAt := RunSaga(steps, kc);
      kc := kc2;
      var t := Settle(job, log, failedAt.None?, later);
      assert store.tenants == old(store.tenants)[t.slug := t];
      assert store.jobs == old(store.jobs)[jobId := store.jobs[jobId]];
      r := if failedAt.None? then Ok(t) else ProviderError;
    }

    /** Brings the tenant and the job to where the saga left them. */
    method Settle(job: Job, log: seq<StepLog>, ok: bool, later: int) returns (t: Tenant)
      requires Valid() && job.tenantSlug in store.tenants && job.id in store.jobs
      modifies store
      ensures t == Settled(old(store.tenants)[job.tenantSlug], ok, later)
      ensures store.tenants == old(store.tenants)[job.tenantSlug := t]
      ensures store.jobs ==
              old(store.jobs)[job.id := job.(status := if ok then Succeeded else Compensated, steps := log,
                                             updatedAt := later)]
    {
      t := store.tenants[job.tenantSlug];
      if !ok {
        t := t.(status := Failed, updatedAt := later);
        var _ := store.UpdateTenant(t);
        var _ := store.UpdateJob(job.(status := Compensated, steps := log, updatedAt := later));
      } else {
        t := t.(status := Active, subdomainReady := true, updatedAt := later);
        var _ := store.UpdateTenant(t);
        var _ := store.UpdateJob(job.(status := Succeeded, steps := log, updatedAt := later));
      }
    }

    method SuspendTenant(slug: string, now: int) returns (r: Reply)
      requires Valid()
      modifies this, store
      ensures Valid() && (View(), r) == Suspend(cfg, faults, old(View()), slug, now)
    {
      if slug !in store.tenants { return NotFound; }
      var t := store.tenants[slug];
      if !cfg.configured { return NotConfigured; }
      if t.status == Deleted || t.status == Deleting { return Conflict; }
      var (kc1, ok) := SetRealmEnabled(faults, kc, slug, false);
      kc := kc1;
      if !ok { return ProviderError; }
      t := t.(status := Suspended, suspendedAt := Some(now), updatedAt := now);
      var _ := store.UpdateTenant(t);
      return Ok(t);
    }

    method ResumeTenant(slug: string, now: int) returns (r: Reply)
      requires Valid()
      modifies this, store
      ensures Valid() && (View(), r) == Resume(cfg, faults, old(View()), slug, now)
    {
      if slug !in store.tenants { return NotFound; }
      var t := store.tenants[slug];
      if !cfg.configured { return NotConfigured; }
      if t.status != Suspended { return Conflict; }
      var (kc1, ok) := SetRealmEnabled(faults, kc, slug, true);
      kc := kc1;
      if !ok { return ProviderError; }
      t := t.(status := Active, suspendedAt := None, updatedAt := now);
      var _ := store.UpdateTenant(t);
      return Ok(t);
    }

    /** purger, if there is one, removes the organization's servers before the realm goes; listing is
        what it finds. */
    method DeleteTenant(slug: string, purger: Admin.Handlers?, now: int, later: int)
      returns (r: Reply, ghost listing: seq<Admin.Server>)
      requires Valid() && (purger != null ==> Admin.StoreOk(purger.store.View()))
      modifies this, store
      modifies if purger == null then {} else {purger.store, purger.bus}
      ensures Valid() && (View(), r) == Delete(cfg, faults, old(View()), slug, now, later)
      ensures purger != null && r != NotFound && r != NotConfigured ==>
                Admin.IsListing(listing, old(purger.store.View()), slug) &&
                purger.View() == Admin.Purge(old(purger.View()), slug, listing).0
      ensures purger != null && (r == NotFound || r == NotConfigured) ==> purger.View() == old(purger.View())
    {
      listing := [];
      if slug !in store.tenants { return NotFound, listing; }
      var t := store.tenants[slug];
      if !cfg.configured { return NotConfigured, listing; }
      t := t.(status := Deleting, updatedAt := now);
      var _ := store.UpdateTenant(t);
      if purger != null {
        var n;
        n, listing := purger.PurgeOrg(slug);
      }
      var (kc1, ok) := DeleteRealm(faults, kc, slug);
      kc := kc1;
      if !ok {
        t := t.(status := Failed, updatedAt := later);
        var _ := store.UpdateTenant(t);
        assert store.tenants == old(store.tenants)[slug := t];
        return ProviderError, listing;
      }
      var retDays := cfg.auditRetentionDays;
      if retDays < 365 { retDays := 365; }
      t := t.(status := Deleted, deletedAt := Some(now), auditRetentionUntil := Some(cfg.addDays(now, retDays)),
              subdomainReady := false, updatedAt := now);
      var _ := store.UpdateTenant(t);
      assert store.tenants == old(store.tenants)[slug := t];
      return Ok(t), listing;
    }
  }
}
