/** What each operation on a tenant comes to, in terms of the registry and the realms alone: the refusal and
    that nothing has changed, or the new status and the new realm. */
module TenantOutcomes {
  import opened Wrappers
  import opened Saga
  import opened Keycloak
  import opened Tenants
  import opened TenantLifecycle

  /** Registry, jobs and realms are as they were; a call to the provider may have been counted. */
  predicate Unchanged(sys: System, sys2: System) {
    sys2.tenants == sys.tenants && sys2.jobs == sys.jobs && sys2.kc.realms == sys.kc.realms
  }

  /** Nothing but s differs in the registry and among the realms. */
  predicate OthersKept(sys: System, sys2: System, s: string) {
    sys2.tenants - {s} == sys.tenants - {s} && sys2.kc.realms - {s} == sys.kc.realms - {s}
  }

  predicate SameIdentity(t: Tenant, u: Tenant) {
    u.slug == t.slug && u.displayName == t.displayName && u.adminEmail == t.adminEmail && u.createdAt == t.createdAt
  }

  /** The realm of s is there still, with the same contents, and enabled or not as said. */
  predicate RealmSwitched(sys: System, sys2: System, s: string, enabled: bool) {
    && s in sys.kc.realms && s in sys2.kc.realms && sys2.kc.realms[s].enabled == enabled
    && sys2.kc.realms[s].clients == sys.kc.realms[s].clients && sys2.kc.realms[s].roles == sys.kc.realms[s].roles
    && sys2.kc.realms[s].users == sys.kc.realms[s].users
  }

  // ----- Suspending, resuming, deleting -----

  /** Suspending a tenant that is neither deleted nor being deleted suspends it and disables its realm, unless
      the provider refuses. */
  lemma SuspendOutcome(cfg: Config, faults: Faults, sys: System, s: string, now: int)
    ensures var (sys2, r) := Suspend(cfg, faults, sys, s, now);
            if s !in sys.tenants then r == NotFound && Unchanged(sys, sys2)
            else if !cfg.configured then r == NotConfigured && Unchanged(sys, sys2)
            else if sys.tenants[s].status == Deleted || sys.tenants[s].status == Deleting then
              r == Conflict && Unchanged(sys, sys2)
            else if faults(sys.kc.calls) || s !in sys.kc.realms then r == ProviderError && Unchanged(sys, sys2)
            else
              && s in sys2.tenants && r == Ok(sys2.tenants[s]) && OthersKept(sys, sys2, s) && sys2.jobs == sys.jobs
              && RealmSwitched(sys, sys2, s, false)
              && var t, u := sys.tenants[s], sys2.tenants[s];
                 && u.status == Suspended && u.suspendedAt == Some(now) && u.updatedAt == now && SameIdentity(t, u)
                 && u.subdomainReady == t.subdomainReady && u.deletedAt == t.deletedAt
                 && u.auditRetentionUntil == t.auditRetentionUntil
  {
  }

  /** Resuming a suspended tenant makes it active and enables its realm, unless the provider refuses. */
  lemma ResumeOutcome(cfg: Config, faults: Faults, sys: System, s: string, now: int)
    ensures var (sys2, r) := Resume(cfg, faults, sys, s, now);
            if s !in sys.tenants then r == NotFound && Unchanged(sys, sys2)
            else if !cfg.configured then r == NotConfigured && Unchanged(sys, sys2)
            else if sys.tenants[s].status != Suspended then r == Conflict && Unchanged(sys, sys2)
            else if faults(sys.kc.calls) || s !in sys.kc.realms then r == ProviderError && Unchanged(sys, sys2)
            else
              && s in sys2.tenants && r == Ok(sys2.tenants[s]) && OthersKept(sys, sys2, s) && sys2.jobs == sys.jobs
              && RealmSwitched(sys, sys2, s, true)
              && var t, u := sys.tenants[s], sys2.tenants[s];
                 && u.status == Active && u.suspendedAt == None && u.updatedAt == now && SameIdentity(t, u)
                 && u.subdomainReady == t.subdomainReady && u.deletedAt == t.deletedAt
                 && u.auditRetentionUntil == t.auditRetentionUntil
  {
  }

  /** Deleting a tenant removes its realm and keeps its audit for the longer of a year and the setting, or
      leaves it failed with its realm in place when the provider refuses. */
  lemma DeleteOutcome(cfg: Config, faults: Faults, sys: System, s: string, now: int, later: int)
    ensures var (sys2, r) := Delete(cfg, faults, sys, s, now, later);
            if s !in sys.tenants then r == NotFound && Unchanged(sys, sys2)
            else if !cfg.configured then r == NotConfigured && Unchanged(sys, sys2)
            else
              && s in sys2.tenants && OthersKept(sys, sys2, s) && sys2.jobs == sys.jobs
              && SameIdentity(sys.tenants[s], sys2.tenants[s])
              && sys2.tenants[s].suspendedAt == sys.tenants[s].suspendedAt
              && var t, u := sys.tenants[s], sys2.tenants[s];
                 if faults(sys.kc.calls) then
                   && r == ProviderError && sys2.kc.realms == sys.kc.realms && u.status == Failed
                   && u.updatedAt == later && u.subdomainReady == t.subdomainReady && u.deletedAt == t.deletedAt
                   && u.auditRetentionUntil == t.auditRetentionUntil
                 else
                   && r == Ok(u) && s !in sys2.kc.realms && u.status == Deleted && u.deletedAt == Some(now)
                   && u.updatedAt == now && !u.subdomainReady
                   && exists days | days == 365 || days == cfg.auditRetentionDays ::
                        days >= 365 && days >= cfg.auditRetentionDays
                        && u.auditRetentionUntil == Some(cfg.addDays(now, days))
  {
    var kc := sys.kc;
    assert (kc.realms - {s}) - {s} == kc.realms - {s};
    var days := RetentionDays(cfg);
    assert days == 365 || days == cfg.auditRetentionDays;
  }

  /** In every run an active tenant can be suspended, the provider permitting: its realm is there. */
  lemma ActiveCanBeSuspended(cfg: Config, faults: Faults, sys: System, ops: seq<Op>, s: string, now: int)
    requires Initial(sys) && cfg.configured
    requires var after := Run(cfg, faults, sys, ops);
             s in after.tenants && after.tenants[s].status == Active && !faults(after.kc.calls)
    ensures var after := Run(cfg, faults, sys, ops);
            var (sys2, r) := Suspend(cfg, faults, after, s, now);
            r.Ok? && r.tenant.status == Suspended && s in sys2.kc.realms && !sys2.kc.realms[s].enabled
  {
    var after := Run(cfg, faults, sys, ops);
    RunKeepsInv(cfg, faults, sys, ops);
    assert TenantOk(cfg, after, s);
    SuspendOutcome(cfg, faults, after, s, now);
  }

  /** Suspending an active tenant and resuming it brings back the realm and the tenant as they were. */
  lemma SuspendThenResume(cfg: Config, faults: Faults, sys: System, s: string, now: int, later: int)
    requires cfg.configured && s in sys.tenants && TenantOk(cfg, sys, s) && sys.tenants[s].status == Active
    requires !faults(sys.kc.calls) && !faults(sys.kc.calls + 1)
    ensures var sys2 := Resume(cfg, faults, Suspend(cfg, faults, sys, s, now).0, s, later).0;
            && sys2.kc.realms == sys.kc.realms
            && sys2.tenants == sys.tenants[s := sys.tenants[s].(updatedAt := later)]
  {
    var r := sys.kc.realms[s];
    var sys1 := Suspend(cfg, faults, sys, s, now).0;
    assert sys1.kc == Put(sys.kc, s, r.(enabled := false));
    assert sys.kc.realms[s := r.(enabled := false)][s := r] == sys.kc.realms;
    assert r.(enabled := false).(enabled := true) == r;
    var t := sys.tenants[s];
    assert sys.tenants[s := t.(status := Suspended)][s := t] == sys.tenants;
  }

  // ----- When provisioning succeeds -----

  /** None of the n calls from the given one on fails. */
  ghost predicate NoFault(faults: Faults, from: int, n: int) { forall k | from <= k < from + n :: !faults(k) }

  lemma NoFaultSplits(faults: Faults, from: int, m: nat, n: nat)
    ensures NoFault(faults, from, m + n) <==> NoFault(faults, from, m) && NoFault(faults, from + m, n)
  {
  }

  lemma {:induction false} MappersSucceedIff(faults: Faults, kc: KC, name: string, client: string,
                                             mappers: seq<string>)
    requires name in kc.realms && client in kc.realms[name].clients
    ensures var (kc2, ok) := AddProtocolMappers(faults, kc, name, client, mappers);
            (ok <==> NoFault(faults, kc.calls, |mappers|)) && (ok ==> kc2.calls == kc.calls + |mappers|)
    decreases |mappers|
  {
    if mappers != [] {
      var (kc1, ok) := AddProtocolMapper(faults, kc, name, client, mappers[0]);
      NoFaultSplits(faults, kc.calls, 1, |mappers| - 1);
      if ok { MappersSucceedIff(faults, kc1, name, client, mappers[1..]); }
    }
  }

  /** How many calls step i of the bootstrap makes. */
  function CallsOf(b: Bootstrap, i: nat): nat {
    if i == 1 then 1 + |b.consoleMappers| else if i == 2 then 1 + |b.mcpMappers| else if i == 4 then 2 else 1
  }

  function CallsBefore(b: Bootstrap, i: nat): nat { if i == 0 then 0 else CallsBefore(b, i - 1) + CallsOf(b, i - 1) }

  ghost predicate SucceedsIff(faults: Faults, b: Bootstrap, i: nat, x: KC, y: KC, ok: bool) {
    (ok <==> NoFault(faults, x.calls, CallsOf(b, i))) && (ok ==> y.calls == x.calls + CallsOf(b, i))
  }

  lemma ClientSucceedsIff(faults: Faults, x: KC, realm: string, client: string, mappers: seq<string>)
    requires realm in x.realms && client !in x.realms[realm].clients
    ensures var (x1, made) := CreateClient(faults, x, realm, client);
            var (y, ok) := if made then AddProtocolMappers(faults, x1, realm, client, mappers) else (x1, false);
            (ok <==> NoFault(faults, x.calls, 1 + |mappers|)) && (ok ==> y.calls == x.calls + 1 + |mappers|)
  {
    var (x1, made) := CreateClient(faults, x, realm, client);
    NoFaultSplits(faults, x.calls, 1, |mappers|);
    if made { MappersSucceedIff(faults, x1, realm, client, mappers); }
  }

  lemma AdminUserSucceedsIff(faults: Faults, b: Bootstrap, x: KC)
    requires b.realm in x.realms && b.adminUser !in x.realms[b.realm].users && b.adminRole in x.realms[b.realm].roles
    ensures var (y, ok) := AdminUser(faults, b, x);
            (ok <==> NoFault(faults, x.calls, 2)) && (ok ==> y.calls == x.calls + 2)
  {
    NoFaultSplits(faults, x.calls, 1, 1);
  }

  ghost predicate StepSucceedsIff(faults: Faults, b: Bootstrap, kc: KC, step: SagaStep<KC>, i: nat, x: KC) {
    Reached(kc, b, i, x) ==> SucceedsIff(faults, b, i, x, step.do(x).0, step.do(x).1)
  }

  lemma ConsoleSucceedsIff(faults: Faults, b: Bootstrap, kc: KC, x: KC)
    requires Reached(kc, b, 1, x)
    ensures var (y, ok) := ConsoleClient(faults, b, x); SucceedsIff(faults, b, 1, x, y, ok)
  {
    ClientSucceedsIff(faults, x, b.realm, b.consoleClient, b.consoleMappers);
  }

  lemma MCPSucceedsIff(faults: Faults, b: Bootstrap, kc: KC, x: KC)
    requires Reached(kc, b, 2, x) && b.consoleClient != b.mcpClient
    ensures var (y, ok) := MCPClient(faults, b, x); SucceedsIff(faults, b, 2, x, y, ok)
  {
    ClientSucceedsIff(faults, x, b.realm, b.mcpClient, b.mcpMappers);
  }

  lemma SingleSucceedsIff(faults: Faults, b: Bootstrap, kc: KC, x: KC)
    ensures Reached(kc, b, 0, x) ==>
              var (y, ok) := CreateRealm(faults, x, b.realm); SucceedsIff(faults, b, 0, x, y, ok)
    ensures Reached(kc, b, 3, x) ==>
              var (y, ok) := CreateRealmRole(faults, x, b.realm, b.adminRole); SucceedsIff(faults, b, 3, x, y, ok)
  {
  }

  lemma UserSucceedsIff(faults: Faults, b: Bootstrap, kc: KC, x: KC)
    requires Reached(kc, b, 4, x)
    ensures var (y, ok) := AdminUser(faults, b, x); SucceedsIff(faults, b, 4, x, y, ok)
  {
    AdminUserSucceedsIff(faults, b, x);
  }

  lemma EachSucceedsIff(faults: Faults, b: Bootstrap, kc: KC, i: nat, x: KC)
    requires i < |Steps(faults, b)| && b.consoleClient != b.mcpClient
    ensures StepSucceedsIff(faults, b, kc, Steps(faults, b)[i], i, x)
  {
    if Reached(kc, b, i, x) {
      if i == 0 || i == 3 { SingleSucceedsIff(faults, b, kc, x); }
      if i == 1 { ConsoleSucceedsIff(faults, b, kc, x); }
      if i == 2 { MCPSucceedsIff(faults, b, kc, x); }
      if i == 4 { UserSucceedsIff(faults, b, kc, x); }
    }
  }

  /** The first k steps all succeed exactly when none of their calls fails. */
  ghost predicate FirstSucceed(faults: Faults, b: Bootstrap, kc: KC, steps: seq<SagaStep<KC>>, k: nat)
    requires k <= |steps|
  {
    var all := forall i | 0 <= i < k :: Succeeds(steps, kc, i);
    && (all <==> NoFault(faults, kc.calls, CallsBefore(b, k)))
    && (all ==> Reached(kc, b, k, Before(steps, kc, k)))
    && (all ==> Before(steps, kc, k).calls == kc.calls + CallsBefore(b, k))
  }

  lemma OneMoreSucceeds(faults: Faults, b: Bootstrap, kc: KC, steps: seq<SagaStep<KC>>, k: nat)
    requires k < |steps| && FirstSucceed(faults, b, kc, steps, k)
    requires Leads(kc, b, steps[k], k, Before(steps, kc, k))
    requires StepSucceedsIff(faults, b, kc, steps[k], k, Before(steps, kc, k))
    ensures FirstSucceed(faults, b, kc, steps, k + 1)
  {
    NoFaultSplits(faults, kc.calls, CallsBefore(b, k), CallsOf(b, k));
    assert CallsBefore(b, k + 1) == CallsBefore(b, k) + CallsOf(b, k);
    if forall i | 0 <= i < k :: Succeeds(steps, kc, i) {
      assert Succeeds(steps, kc, k) <==> NoFault(faults, Before(steps, kc, k).calls, CallsOf(b, k));
    } else {
      assert !NoFault(faults, kc.calls, CallsBefore(b, k));
    }
  }

  lemma {:induction false} StepsSucceedIff(faults: Faults, b: Bootstrap, kc: KC, k: nat)
    requires b.realm !in kc.realms && b.consoleClient != b.mcpClient && k <= |Steps(faults, b)|
    ensures FirstSucceed(faults, b, kc, Steps(faults, b), k)
  {
    var steps := Steps(faults, b);
    if k > 0 {
      StepsSucceedIff(faults, b, kc, k - 1);
      EachStep(faults, b, kc, k - 1, Before(steps, kc, k - 1));
      EachSucceedsIff(faults, b, kc, k - 1, Before(steps, kc, k - 1));
      OneMoreSucceeds(faults, b, kc, steps, k - 1);
    }
  }

  /** The saga fails just when one of its steps does. */
  lemma NoFailureIff<S>(steps: seq<SagaStep<S>>, s: S)
    ensures SagaOutcome(steps, s).failedAt.None? <==> forall i | 0 <= i < |steps| :: Succeeds(steps, s, i)
  {
  }

  lemma SagaSucceedsIff(faults: Faults, b: Bootstrap, kc: KC)
    requires b.realm !in kc.realms && b.consoleClient != b.mcpClient
    ensures SagaOutcome(Steps(faults, b), kc).failedAt.None? <==> NoFault(faults, kc.calls, CallsBefore(b, 5))
  {
    StepsSucceedIff(faults, b, kc, 5);
    NoFailureIff(Steps(faults, b), kc);
  }

  /** All a new tenant's realm should hold. */
  predicate HoldsAll(r: Realm, adminEmail: string) {
    && r.enabled && r.roles == {"admin"} && r.users == map[adminEmail := {"admin"}]
    && r.clients == map["mcp-admin-console" := {"admin-api-audience", "realm-roles-id"},
                        "mcp-client" := {"mcp-resource-audience"}]
  }

  function StepName(i: int): string {
    if i == 0 then "realm" else if i == 1 then "console-client" else if i == 2 then "mcp-client"
    else if i == 3 then "admin-role" else "admin-user"
  }

  /** The log has the steps in order, all of them done but for the last, which ended as said. */
  predicate HasSteps(log: seq<StepLog>, last: string) {
    && 0 < |log| <= 5 && (forall i | 0 <= i < |log| :: log[i].name == StepName(i))
    && (forall i | 0 <= i < |log| - 1 :: log[i].state == "done") && log[|log| - 1].state == last
  }

  /** t is the tenant asked for, as first stored. */
  predicate IsRequested(t: Tenant, req: Request, now: int, later: int) {
    && t.slug == req.slug && t.displayName == req.displayName && t.adminEmail == req.adminEmail
    && t.createdAt == now && t.updatedAt == later && t.suspendedAt == None && t.deletedAt == None
    && t.auditRetentionUntil == None
  }

  /** What a started provisioning comes to, its saga having succeeded or not. */
  ghost predicate Settles(sys: System, sys2: System, r: Reply, req: Request, jobId: string, now: int, later: int,
                          ok: bool)
  {
    var s := req.slug;
    && OthersKept(sys, sys2, s) && sys2.jobs - {jobId} == sys.jobs - {jobId}
    && s in sys2.tenants && IsRequested(sys2.tenants[s], req, now, later)
    && jobId in sys2.jobs
    && var job, t := sys2.jobs[jobId], sys2.tenants[s];
       && job.id == jobId && job.tenantSlug == s && job.createdAt == now && job.updatedAt == later
       && t.status == (if ok then Active else Failed) && t.subdomainReady == ok
       && r == (if ok then Ok(t) else ProviderError)
       && job.status == (if ok then Succeeded else Compensated)
       && HasSteps(job.steps, if ok then "done" else "failed")
       && (ok ==> |job.steps| == 5 && s in sys2.kc.realms && HoldsAll(sys2.kc.realms[s], req.adminEmail))
  }

  /** The saga comes to the realm fully built or to a failure, having touched no other realm. */
  ghost predicate ComesTo(o: Outcome<KC>, kc: KC, slug: string, adminEmail: string, ok: bool) {
    && OthersSame(kc, o.state, slug) && o.failedAt.None? == ok
    && HasSteps(o.log, if ok then "done" else "failed")
    && (ok ==> |o.log| == 5 && slug in o.state.realms && HoldsAll(o.state.realms[slug], adminEmail))
  }

  lemma ConcludedSettles(sys: System, kc: KC, req: Request, jobId: string, o: Outcome<KC>, now: int, later: int,
                         ok: bool, result: (System, Reply))
    requires kc.realms == sys.kc.realms && ComesTo(o, kc, req.slug, req.adminEmail, ok)
    requires result == Concluded(sys, NewTenant(req, now), jobId, o, now, later)
    ensures Settles(sys, result.0, result.1, req, jobId, now, later, ok)
  {
  }

  lemma LogHasSteps<S>(steps: seq<SagaStep<S>>, s: S)
    requires |steps| == 5 && forall i | 0 <= i < 5 :: steps[i].name == StepName(i)
    ensures var o := SagaOutcome(steps, s);
            && HasSteps(o.log, if o.failedAt.None? then "done" else "failed")
            && (o.failedAt.None? ==> |o.log| == 5)
  {
    LogTells(steps, s);
  }

  lemma StepsNamed(faults: Faults, b: Bootstrap)
    ensures |Steps(faults, b)| == 5 && forall i | 0 <= i < 5 :: Steps(faults, b)[i].name == StepName(i)
  {
  }

  lemma SagaComesTo(faults: Faults, b: Bootstrap, kc: KC, slug: string, adminEmail: string)
    requires b == BootstrapFor(slug, adminEmail) && slug !in kc.realms
    ensures ComesTo(SagaOutcome(Steps(faults, b), kc), kc, slug, adminEmail, NoFault(faults, kc.calls, 9))
  {
    ProvisioningOutcome(faults, b, kc);
    SagaSucceedsIff(faults, b, kc);
    NineCalls(b);
    StepsNamed(faults, b);
    LogHasSteps(Steps(faults, b), kc);
    BuiltHoldsAll(slug, adminEmail);
  }

  lemma StartedIsConcluded(cfg: Config, faults: Faults, sys: System, req: Request, jobId: string, now: int, later: int)
    returns (o: Outcome<KC>, kc: KC)
    requires Starts(cfg, faults, sys, req)
    ensures kc.realms == sys.kc.realms
    ensures ComesTo(o, kc, req.slug, req.adminEmail, NoFault(faults, sys.kc.calls + 1, 9))
    ensures Provision(cfg, faults, sys, req, jobId, now, later) ==
            Concluded(sys, NewTenant(req, now), jobId, o, now, later)
  {
    var b := BootstrapFor(req.slug, req.adminEmail);
    kc := RealmExists(faults, sys.kc, req.slug).0;
    o := SagaOutcome(Steps(faults, b), kc);
    SagaComesTo(faults, b, kc, req.slug, req.adminEmail);
  }

  lemma StartedOutcome(cfg: Config, faults: Faults, sys: System, req: Request, jobId: string, now: int, later: int)
    requires Starts(cfg, faults, sys, req)
    ensures var result := Provision(cfg, faults, sys, req, jobId, now, later);
            Settles(sys, result.0, result.1, req, jobId, now, later, NoFault(faults, sys.kc.calls + 1, 9))
  {
    var o, kc := StartedIsConcluded(cfg, faults, sys, req, jobId, now, later);
    ConcludedSettles(sys, kc, req, jobId, o, now, later, NoFault(faults, sys.kc.calls + 1, 9),
                     Provision(cfg, faults, sys, req, jobId, now, later));
  }

  lemma NineCalls(b: Bootstrap)
    requires |b.consoleMappers| == 2 && |b.mcpMappers| == 1
    ensures CallsBefore(b, 5) == 9
  {
    assert CallsBefore(b, 1) == 1 && CallsBefore(b, 2) == 4 && CallsBefore(b, 3) == 6 && CallsBefore(b, 4) == 7;
  }

  lemma BuiltHoldsAll(slug: string, adminEmail: string)
    ensures HoldsAll(Built(BootstrapFor(slug, adminEmail), 5), adminEmail)
  {
    var b := BootstrapFor(slug, adminEmail);
    assert Elements(b.consoleMappers) == {"admin-api-audience", "realm-roles-id"};
    assert Elements(b.mcpMappers) == {"mcp-resource-audience"};
  }

  /** A provisioning is refused by the first check that fails, and then nothing has changed. Otherwise it
      succeeds exactly when none of its calls fails: the tenant is active, its realm complete and its job
      succeeded; and if one does, the tenant is failed and the job compensated, up to the step that failed. */
  lemma ProvisionOutcome(cfg: Config, faults: Faults, sys: System, req: Request, jobId: string, now: int, later: int)
    ensures var (sys2, r) := Provision(cfg, faults, sys, req, jobId, now, later);
            var s := req.slug;
            if !cfg.configured then r == NotConfigured && Unchanged(sys, sys2)
            else if !ValidSlug(cfg, s) then r == InvalidSlug && Unchanged(sys, sys2)
            else if s in sys.tenants then r == SlugTaken && Unchanged(sys, sys2)
            else if faults(sys.kc.calls) then r == ProviderError && Unchanged(sys, sys2)
            else if s in sys.kc.realms then r == SlugTaken && Unchanged(sys, sys2)
            else Settles(sys, sys2, r, req, jobId, now, later, NoFault(faults, sys.kc.calls + 1, 9))
  {
    var s := req.slug;
    if cfg.configured && ValidSlug(cfg, s) && s !in sys.tenants && !faults(sys.kc.calls) && s !in sys.kc.realms {
      StartedOutcome(cfg, faults, sys, req, jobId, now, later);
    }
  }
}
