/** What every run of tenant operations keeps, whatever calls to the identity provider fail. */
module TenantLifecycle {
  import opened Wrappers
  import opened Saga
  import opened Keycloak
  import opened Tenants

  // ----- The provisioning saga -----

  /** i steps have succeeded since kc, and nothing else has happened. */
  ghost predicate Reached(kc: KC, b: Bootstrap, i: int, x: KC) {
    OthersSame(kc, x, b.realm) &&
      (if i == 0 then b.realm !in x.realms else b.realm in x.realms && x.realms[b.realm] == Built(b, i))
  }

  /** The step before y led there from a state i steps in. */
  ghost predicate Led(kc: KC, b: Bootstrap, i: int, y: KC, ok: bool) {
    && OthersSame(kc, y, b.realm)
    && (ok ==> Reached(kc, b, i + 1, y))
    && (!ok ==> (b.realm in y.realms <==> i >= 1))
  }

  lemma RealmStep(faults: Faults, b: Bootstrap, kc: KC, x: KC)
    requires Reached(kc, b, 0, x)
    ensures var (y, ok) := CreateRealm(faults, x, b.realm); Led(kc, b, 0, y, ok)
  {
    var (y, ok) := CreateRealm(faults, x, b.realm);
    assert y.realms - {b.realm} == x.realms - {b.realm};
  }

  lemma ClientsStep(faults: Faults, b: Bootstrap, kc: KC, x: KC)
    requires b.consoleClient != b.mcpClient
    ensures Reached(kc, b, 1, x) ==> var (y, ok) := ConsoleClient(faults, b, x); Led(kc, b, 1, y, ok)
    ensures Reached(kc, b, 2, x) ==> var (y, ok) := MCPClient(faults, b, x); Led(kc, b, 2, y, ok)
  {
    var (x1, _) := CreateClient(faults, x, b.realm, b.consoleClient);
    var (x2, _) := CreateClient(faults, x, b.realm, b.mcpClient);
    assert x1.realms - {b.realm} == x.realms - {b.realm} == x2.realms - {b.realm};
    MappersAdded(faults, x1, b.realm, b.consoleClient, b.consoleMappers);
    MappersAdded(faults, x2, b.realm, b.mcpClient, b.mcpMappers);
    assert {} + Elements(b.consoleMappers) == Elements(b.consoleMappers);
    assert {} + Elements(b.mcpMappers) == Elements(b.mcpMappers);
    var none: map<string, set<string>> := map[];
    assert none[b.consoleClient := {}][b.consoleClient := Elements(b.consoleMappers)] ==
           map[b.consoleClient := Elements(b.consoleMappers)];
    var console := map[b.consoleClient := Elements(b.consoleMappers)];
    assert console[b.mcpClient := {}][b.mcpClient := Elements(b.mcpMappers)] ==
           console[b.mcpClient := Elements(b.mcpMappers)];
  }

  lemma RoleStep(faults: Faults, b: Bootstrap, kc: KC, x: KC)
    requires Reached(kc, b, 3, x)
    ensures var (y, ok) := CreateRealmRole(faults, x, b.realm, b.adminRole); Led(kc, b, 3, y, ok)
  {
    var (y, ok) := CreateRealmRole(faults, x, b.realm, b.adminRole);
    assert y.realms - {b.realm} == x.realms - {b.realm};
  }

  lemma UserStep(faults: Faults, b: Bootstrap, kc: KC, x: KC)
    requires Reached(kc, b, 4, x)
    ensures var (y, ok) := AdminUser(faults, b, x); Led(kc, b, 4, y, ok)
  {
    var (x1, _) := CreateUser(faults, x, b.realm, b.adminUser);
    var (y, ok) := AdminUser(faults, b, x);
    assert y.realms - {b.realm} == x1.realms - {b.realm} == x.realms - {b.realm};
    if ok {
      var none: map<string, set<string>>, no: set<string> := map[], {};
      assert no + {b.adminRole} == {b.adminRole};
      assert none[b.adminUser := no][b.adminUser := {b.adminRole}] == map[b.adminUser := {b.adminRole}];
    }
  }

  ghost predicate Leads(kc: KC, b: Bootstrap, step: SagaStep<KC>, i: int, x: KC) {
    Reached(kc, b, i, x) ==> Led(kc, b, i, step.do(x).0, step.do(x).1)
  }

  lemma EachStep(faults: Faults, b: Bootstrap, kc: KC, i: nat, x: KC)
    requires i < |Steps(faults, b)| && b.consoleClient != b.mcpClient
    ensures Leads(kc, b, Steps(faults, b)[i], i, x)
  {
    if Reached(kc, b, i, x) {
      if i == 0 { RealmStep(faults, b, kc, x); }
      if i == 1 || i == 2 { ClientsStep(faults, b, kc, x); }
      if i == 3 { RoleStep(faults, b, kc, x); }
      if i == 4 { UserStep(faults, b, kc, x); }
    }
  }

  lemma {:induction false} OneUndo(faults: Faults, b: Bootstrap, x: KC, k: nat)
    requires k <= |Steps(faults, b)|
    ensures Undone(Steps(faults, b), x, k) == if k == 0 then x else DeleteRealm(faults, x, b.realm).0
  {
    var steps := Steps(faults, b);
    if k > 1 {
      assert steps[k - 1].undo.None?;
      OneUndo(faults, b, x, k - 1);
    } else if k == 1 {
      assert Undone(steps, x, 1) == Undone(steps, UndoOne(steps[0], x), 0);
    }
  }

  /** The saga fails once the realm is there, and so does the call to delete it again. */
  ghost predicate Strands(faults: Faults, steps: seq<SagaStep<KC>>, kc: KC) {
    var failure := Failure(steps, kc, 0);
    failure.Some? && failure.value >= 1 && Faulty(faults, Before(steps, kc, failure.value + 1))
  }

  /** Where the saga may end: the realm is fully built, or gone, unless it is stranded; and no other
      realm is touched. */
  ghost predicate EndsWell(faults: Faults, b: Bootstrap, kc: KC, steps: seq<SagaStep<KC>>) {
    var o := SagaOutcome(steps, kc);
    && OthersSame(kc, o.state, b.realm)
    && (o.failedAt.None? ==> b.realm in o.state.realms && o.state.realms[b.realm] == Built(b, 5))
    && (o.failedAt.Some? ==> (b.realm in o.state.realms <==> Strands(faults, steps, kc)))
  }

  lemma OutcomeOf(faults: Faults, b: Bootstrap, kc: KC, steps: seq<SagaStep<KC>>)
    requires b.realm !in kc.realms && |steps| == 5
    requires forall i, x | 0 <= i < |steps| :: Leads(kc, b, steps[i], i, x)
    requires forall x, k | 0 <= k <= |steps| ::
             Undone(steps, x, k) == if k == 0 then x else DeleteRealm(faults, x, b.realm).0
    ensures EndsWell(faults, b, kc, steps)
  {
    var reached := (i, x) => Reached(kc, b, i, x);
    forall i, x | 0 <= i < |steps| ensures StepReaches(steps[i], reached, i, x) { assert Leads(kc, b, steps[i], i, x); }
    assert Reached(kc, b, 0, kc);
    match Failure(steps, kc, 0)
    case None => ReachedBefore(steps, kc, reached, |steps|);
    case Some(k) =>
      ReachedBefore(steps, kc, reached, k);
      assert Leads(kc, b, steps[k], k, Before(steps, kc, k));
      assert !Succeeds(steps, kc, k);
      var y := Before(steps, kc, k + 1);
      assert Led(kc, b, k, y, false);
      assert (y.realms - {b.realm}) - {b.realm} == y.realms - {b.realm};
  }

  lemma ProvisioningOutcome(faults: Faults, b: Bootstrap, kc: KC)
    requires b.realm !in kc.realms && b.consoleClient != b.mcpClient
    ensures EndsWell(faults, b, kc, Steps(faults, b))
  {
    var steps := Steps(faults, b);
    forall i, x | 0 <= i < |steps| ensures Leads(kc, b, steps[i], i, x) { EachStep(faults, b, kc, i, x); }
    forall x, k | 0 <= k <= |steps|
      ensures Undone(steps, x, k) == if k == 0 then x else DeleteRealm(faults, x, b.realm).0
    {
      OneUndo(faults, b, x, k);
    }
    OutcomeOf(faults, b, kc, steps);
  }

  // ----- Every run -----

  datatype Op =
    | DoProvision(req: Request, jobId: string, now: int, later: int)
    | DoSuspend(slug: string, now: int)
    | DoResume(slug: string, now: int)
    | DoDelete(slug: string, now: int, later: int)

  function Step(cfg: Config, faults: Faults, sys: System, op: Op): (System, Reply) {
    match op
    case DoProvision(req, jobId, now, later) => Provision(cfg, faults, sys, req, jobId, now, later)
    case DoSuspend(slug, now) => Suspend(cfg, faults, sys, slug, now)
    case DoResume(slug, now) => Resume(cfg, faults, sys, slug, now)
    case DoDelete(slug, now, later) => Delete(cfg, faults, sys, slug, now, later)
  }

  /** The system after the operations, one after the other. */
  function Run(cfg: Config, faults: Faults, sys: System, ops: seq<Op>): System {
    if ops == [] then sys else Step(cfg, faults, Run(cfg, faults, sys, ops[..|ops| - 1]), ops[|ops| - 1]).0
  }

  /** What the registry says of a tenant and what the identity provider holds go together. */
  ghost predicate TenantOk(cfg: Config, sys: System, s: string)
    requires s in sys.tenants
  {
    var t, realms := sys.tenants[s], sys.kc.realms;
    && t.slug == s && ValidSlug(cfg, s)
    && t.status != Provisioning && t.status != Deleting
    && (t.status == Active ==> s in realms && realms[s].enabled && t.suspendedAt.None?)
    && (t.status == Suspended ==> s in realms && !realms[s].enabled && t.suspendedAt.Some?)
    && (t.status == Deleted ==>
          s !in realms && !t.subdomainReady && t.deletedAt.Some?
          && t.auditRetentionUntil == Some(cfg.addDays(t.deletedAt.value, RetentionDays(cfg))))
  }

  ghost predicate Inv(cfg: Config, sys: System) { forall s | s in sys.tenants :: TenantOk(cfg, sys, s) }

  /** The realm the tenant has, if any, is whole. */
  ghost predicate Whole(sys: System, s: string)
    requires s in sys.tenants
  {
    s in sys.kc.realms ==> FullyBootstrapped(sys.kc.realms[s], s, sys.tenants[s].adminEmail)
  }

  ghost predicate AllWhole(sys: System) { forall s | s in sys.tenants :: Whole(sys, s) }

  /** The operation is a provisioning that gets as far as creating the tenant and whose realm is then
      left behind half built, deleting it having failed. */
  ghost predicate Stranding(cfg: Config, faults: Faults, sys: System, op: Op) {
    op.DoProvision? && Starts(cfg, faults, sys, op.req) &&
    Strands(faults, Steps(faults, BootstrapFor(op.req.slug, op.req.adminEmail)),
            RealmExists(faults, sys.kc, op.req.slug).0)
  }

  /** The request passes every check before the first change. */
  predicate Starts(cfg: Config, faults: Faults, sys: System, req: Request) {
    cfg.configured && ValidSlug(cfg, req.slug) && req.slug !in sys.tenants && !Faulty(faults, sys.kc) &&
      req.slug !in sys.kc.realms
  }

  /** Of the realms, an operation changes at most that of its slug. */
  function Slug(op: Op): string { if op.DoProvision? then op.req.slug else op.slug }

  ghost predicate OnlyTouches(sys: System, sys2: System, s: string) {
    && OthersSame(sys.kc, sys2.kc, s)
    && sys2.tenants - {s} == sys.tenants - {s}
    && (s in sys.tenants ==> s in sys2.tenants && sys2.tenants[s].adminEmail == sys.tenants[s].adminEmail)
  }

  lemma ProvisionStep(cfg: Config, faults: Faults, sys: System, req: Request, jobId: string, now: int, later: int)
    ensures var (sys2, r) := Provision(cfg, faults, sys, req, jobId, now, later);
            var s := req.slug;
            && OnlyTouches(sys, sys2, s)
            && (s !in sys.tenants && s in sys2.tenants <==> Starts(cfg, faults, sys, req))
            && (Starts(cfg, faults, sys, req) ==>
                  && s in sys2.tenants && TenantOk(cfg, sys2, s) && sys2.tenants[s].adminEmail == req.adminEmail
                  && (!Stranding(cfg, faults, sys, DoProvision(req, jobId, now, later)) ==> Whole(sys2, s)))
            && (!Starts(cfg, faults, sys, req) ==> sys2.tenants == sys.tenants && sys2.kc.realms == sys.kc.realms)
  {
    var s := req.slug;
    if Starts(cfg, faults, sys, req) {
      var b, kc := BootstrapFor(s, req.adminEmail), RealmExists(faults, sys.kc, s).0;
      ProvisioningOutcome(faults, b, kc);
      Concludes(cfg, faults, sys, kc, NewTenant(req, now), jobId, Steps(faults, b), now, later);
    }
  }

  lemma Concludes(cfg: Config, faults: Faults, sys: System, kc: KC, t: Tenant, jobId: string, steps: seq<SagaStep<KC>>,
                  now: int, later: int)
    requires EndsWell(faults, BootstrapFor(t.slug, t.adminEmail), kc, steps)
    requires kc.realms == sys.kc.realms && ValidSlug(cfg, t.slug) && t.slug !in sys.tenants && t.suspendedAt.None?
    ensures var (sys2, r) := Concluded(sys, t, jobId, SagaOutcome(steps, kc), now, later);
            && OnlyTouches(sys, sys2, t.slug)
            && t.slug in sys2.tenants && TenantOk(cfg, sys2, t.slug) && sys2.tenants[t.slug].adminEmail == t.adminEmail
            && (!Strands(faults, steps, kc) ==> Whole(sys2, t.slug))
  {
  }

  /** What an operation on an existing tenant's realm comes to. */
  ghost predicate Handled(cfg: Config, sys: System, sys2: System, s: string) {
    && OnlyTouches(sys, sys2, s)
    && (s in sys2.tenants <==> s in sys.tenants)
    && (s !in sys.tenants ==> sys2.kc.realms == sys.kc.realms)
    && (s in sys.tenants ==> TenantOk(cfg, sys2, s) && (Whole(sys, s) ==> Whole(sys2, s)))
  }

  lemma SuspendStep(cfg: Config, faults: Faults, sys: System, s: string, now: int)
    requires s in sys.tenants ==> TenantOk(cfg, sys, s)
    ensures Handled(cfg, sys, Suspend(cfg, faults, sys, s, now).0, s)
  {
  }

  lemma ResumeStep(cfg: Config, faults: Faults, sys: System, s: string, now: int)
    requires s in sys.tenants ==> TenantOk(cfg, sys, s)
    ensures Handled(cfg, sys, Resume(cfg, faults, sys, s, now).0, s)
  {
  }

  lemma DeletingStep(cfg: Config, faults: Faults, sys: System, s: string, now: int, later: int)
    requires s in sys.tenants ==> TenantOk(cfg, sys, s)
    ensures Handled(cfg, sys, Delete(cfg, faults, sys, s, now, later).0, s)
  {
    assert (sys.kc.realms - {s}) - {s} == sys.kc.realms - {s};
  }

  lemma OtherStep(cfg: Config, faults: Faults, sys: System, op: Op)
    requires !op.DoProvision? && Inv(cfg, sys)
    ensures Handled(cfg, sys, Step(cfg, faults, sys, op).0, op.slug)
  {
    assert op.slug in sys.tenants ==> TenantOk(cfg, sys, op.slug);
    match op
    case DoSuspend(s, now) => SuspendStep(cfg, faults, sys, s, now);
    case DoResume(s, now) => ResumeStep(cfg, faults, sys, s, now);
    case DoDelete(s, now, later) => DeletingStep(cfg, faults, sys, s, now, later);
  }

  lemma StepEffect(cfg: Config, faults: Faults, sys: System, op: Op)
    requires Inv(cfg, sys)
    ensures var sys2, s := Step(cfg, faults, sys, op).0, Slug(op);
            && OnlyTouches(sys, sys2, s)
            && (s !in sys2.tenants ==> sys2.kc.realms == sys.kc.realms)
            && (s in sys2.tenants ==> TenantOk(cfg, sys2, s))
            && (s in sys2.tenants && !Stranding(cfg, faults, sys, op) && (s in sys.tenants ==> Whole(sys, s)) ==>
                Whole(sys2, s))
  {
    if op.DoProvision? {
      ProvisionStep(cfg, faults, sys, op.req, op.jobId, op.now, op.later);
      if Slug(op) in sys.tenants { assert TenantOk(cfg, sys, Slug(op)); }
    } else {
      OtherStep(cfg, faults, sys, op);
    }
  }

  /** What is said of a tenant other than the one an operation is about stays as it was. */
  lemma Bystander(cfg: Config, sys: System, sys2: System, s: string, x: string)
    requires OnlyTouches(sys, sys2, s) && x != s
    ensures x in sys2.tenants <==> x in sys.tenants
    ensures x in sys.tenants ==> sys2.tenants[x] == sys.tenants[x]
    ensures x in sys2.kc.realms <==> x in sys.kc.realms
    ensures x in sys.kc.realms ==> sys2.kc.realms[x] == sys.kc.realms[x]
  {
    assert x in sys2.tenants <==> x in sys2.tenants - {s};
    assert x in sys.tenants <==> x in sys.tenants - {s};
    assert x in sys2.kc.realms <==> x in sys2.kc.realms - {s};
    assert x in sys.kc.realms <==> x in sys.kc.realms - {s};
    if x in sys.tenants { assert (sys.tenants - {s})[x] == (sys2.tenants - {s})[x]; }
    if x in sys.kc.realms { assert (sys.kc.realms - {s})[x] == (sys2.kc.realms - {s})[x]; }
  }

  lemma StepKeepsInv(cfg: Config, faults: Faults, sys: System, op: Op)
    requires Inv(cfg, sys)
    ensures Inv(cfg, Step(cfg, faults, sys, op).0)
    ensures AllWhole(sys) && !Stranding(cfg, faults, sys, op) ==> AllWhole(Step(cfg, faults, sys, op).0)
  {
    var sys2, s := Step(cfg, faults, sys, op).0, Slug(op);
    StepEffect(cfg, faults, sys, op);
    forall x | x in sys2.tenants
      ensures TenantOk(cfg, sys2, x)
      ensures AllWhole(sys) && !Stranding(cfg, faults, sys, op) ==> Whole(sys2, x)
    {
      if x != s {
        Bystander(cfg, sys, sys2, s, x);
        assert TenantOk(cfg, sys, x);
        assert AllWhole(sys) ==> Whole(sys, x);
      } else {
        assert s in sys.tenants && AllWhole(sys) ==> Whole(sys, s);
      }
    }
  }

  /** No tenants yet. */
  predicate Initial(sys: System) { sys.tenants == map[] }

  /** Between operations, in every run: an active tenant's realm is enabled, a suspended one's is
      disabled, a deleted one's is gone and its audit kept for 365 calendar days at least. */
  lemma {:induction false} RunKeepsInv(cfg: Config, faults: Faults, sys: System, ops: seq<Op>)
    requires Initial(sys)
    ensures Inv(cfg, Run(cfg, faults, sys, ops))
  {
    if ops != [] {
      var n := |ops| - 1;
      RunKeepsInv(cfg, faults, sys, ops[..n]);
      StepKeepsInv(cfg, faults, Run(cfg, faults, sys, ops[..n]), ops[n]);
    }
  }

  const DAY := 24 * 3600 * 1000000000

  /** Counting days on the calendar falls short of 24 hours a day by no more than shift. */
  ghost predicate CalendarKeeps(cfg: Config, shift: int) {
    forall t, d | d >= 365 :: cfg.addDays(t, d) >= t + d * DAY - shift
  }

  lemma KeptSoLong(cfg: Config, t: int, shift: int)
    requires CalendarKeeps(cfg, shift)
    ensures cfg.addDays(t, RetentionDays(cfg)) >= t + 365 * DAY - shift
  {
    var d := RetentionDays(cfg);
    assert d * DAY >= 365 * DAY;
    assert cfg.addDays(t, d) >= t + d * DAY - shift;
  }

  /** The audit of a deleted tenant is kept for a year of 24-hour days, less what a change of the clocks
      takes off. */
  lemma RetainedAYear(cfg: Config, faults: Faults, sys: System, ops: seq<Op>, s: string, shift: int)
    requires Initial(sys) && CalendarKeeps(cfg, shift) && s in Run(cfg, faults, sys, ops).tenants
    ensures var t := Run(cfg, faults, sys, ops).tenants[s];
            t.status == Deleted ==> t.deletedAt.Some? && t.auditRetentionUntil.Some? &&
                                    t.auditRetentionUntil.value >= t.deletedAt.value + 365 * DAY - shift
  {
    RunKeepsInv(cfg, faults, sys, ops);
    RetainedIn(cfg, Run(cfg, faults, sys, ops), s, shift);
  }

  lemma RetainedIn(cfg: Config, sys: System, s: string, shift: int)
    requires Inv(cfg, sys) && CalendarKeeps(cfg, shift) && s in sys.tenants
    ensures var t := sys.tenants[s];
            t.status == Deleted ==> t.deletedAt.Some? && t.auditRetentionUntil.Some? &&
                                    t.auditRetentionUntil.value >= t.deletedAt.value + 365 * DAY - shift
  {
    assert TenantOk(cfg, sys, s);
    var t := sys.tenants[s];
    if t.status == Deleted { KeptSoLong(cfg, t.deletedAt.value, shift); }
  }

  /** No provisioning of the run strands its realm. */
  ghost predicate NeverStrands(cfg: Config, faults: Faults, sys: System, ops: seq<Op>) {
    forall i | 0 <= i < |ops| :: !Stranding(cfg, faults, Run(cfg, faults, sys, ops[..i]), ops[i])
  }

  /** If compensation never fails, every tenant's realm is either absent or fully bootstrapped. */
  lemma {:induction false} NoGhostRealms(cfg: Config, faults: Faults, sys: System, ops: seq<Op>)
    requires Initial(sys) && NeverStrands(cfg, faults, sys, ops)
    ensures AllWhole(Run(cfg, faults, sys, ops))
  {
    if ops != [] {
      var n := |ops| - 1;
      forall i | 0 <= i < n ensures !Stranding(cfg, faults, Run(cfg, faults, sys, ops[..n][..i]), ops[..n][i]) {
        assert ops[..n][..i] == ops[..i];
      }
      NoGhostRealms(cfg, faults, sys, ops[..n]);
      RunKeepsInv(cfg, faults, sys, ops[..n]);
      StepKeepsInv(cfg, faults, Run(cfg, faults, sys, ops[..n]), ops[n]);
    }
  }

  lemma RunNext(cfg: Config, faults: Faults, sys: System, ops: seq<Op>, i: nat)
    requires i < |ops|
    ensures Run(cfg, faults, sys, ops[..i + 1]) == Step(cfg, faults, Run(cfg, faults, sys, ops[..i]), ops[i]).0
  {
    assert ops[..i + 1][..i] == ops[..i];
  }

  lemma StepKeepsTenants(cfg: Config, faults: Faults, sys: System, op: Op)
    requires Inv(cfg, sys)
    ensures sys.tenants.Keys <= Step(cfg, faults, sys, op).0.tenants.Keys
  {
    var sys2, s := Step(cfg, faults, sys, op).0, Slug(op);
    StepEffect(cfg, faults, sys, op);
    forall x | x in sys.tenants ensures x in sys2.tenants {
      if x != s { Bystander(cfg, sys, sys2, s, x); }
    }
  }

  /** Tenants are never removed. */
  lemma {:induction false} TenantsStay(cfg: Config, faults: Faults, sys: System, ops: seq<Op>, i: nat, j: nat)
    requires Initial(sys) && i <= j <= |ops|
    ensures Run(cfg, faults, sys, ops[..i]).tenants.Keys <= Run(cfg, faults, sys, ops[..j]).tenants.Keys
    decreases j
  {
    if i < j {
      TenantsStay(cfg, faults, sys, ops, i, j - 1);
      RunNext(cfg, faults, sys, ops, j - 1);
      RunKeepsInv(cfg, faults, sys, ops[..j - 1]);
      StepKeepsTenants(cfg, faults, Run(cfg, faults, sys, ops[..j - 1]), ops[j - 1]);
    }
  }

  ghost predicate SameRealm(sys: System, sys2: System, x: string) {
    && (x in sys2.kc.realms <==> x in sys.kc.realms)
    && (x in sys.kc.realms ==> sys2.kc.realms[x] == sys.kc.realms[x])
  }

  lemma ForeignStep(cfg: Config, faults: Faults, sys: System, op: Op, x: string)
    requires Inv(cfg, sys) && x !in Step(cfg, faults, sys, op).0.tenants
    ensures SameRealm(sys, Step(cfg, faults, sys, op).0, x)
  {
    StepEffect(cfg, faults, sys, op);
    if x != Slug(op) { Bystander(cfg, sys, Step(cfg, faults, sys, op).0, Slug(op), x); }
  }

  /** Realms that are no tenant's are never touched. */
  lemma {:induction false} ForeignRealmsUntouched(cfg: Config, faults: Faults, sys: System, ops: seq<Op>, n: nat,
                                                  x: string)
    requires Initial(sys) && n <= |ops| && x !in Run(cfg, faults, sys, ops[..n]).tenants
    ensures SameRealm(sys, Run(cfg, faults, sys, ops[..n]), x)
  {
    if n > 0 {
      RunNext(cfg, faults, sys, ops, n - 1);
      TenantsStay(cfg, faults, sys, ops, n - 1, n);
      ForeignRealmsUntouched(cfg, faults, sys, ops, n - 1, x);
      RunKeepsInv(cfg, faults, sys, ops[..n - 1]);
      ForeignStep(cfg, faults, Run(cfg, faults, sys, ops[..n - 1]), ops[n - 1], x);
    }
  }

  lemma RefusedOnce(cfg: Config, faults: Faults, sys: System, op: Op)
    requires op.DoProvision? && cfg.configured && ValidSlug(cfg, op.req.slug) && op.req.slug in sys.tenants
    ensures Step(cfg, faults, sys, op) == (sys, SlugTaken)
  {
  }

  lemma StartCreates(cfg: Config, faults: Faults, sys: System, op: Op)
    requires op.DoProvision? && Starts(cfg, faults, sys, op.req)
    ensures op.req.slug in Step(cfg, faults, sys, op).0.tenants
  {
    ProvisionStep(cfg, faults, sys, op.req, op.jobId, op.now, op.later);
  }

  lemma StartedExists(cfg: Config, faults: Faults, sys: System, ops: seq<Op>, i: nat, j: nat)
    requires Initial(sys) && i < j <= |ops| && ops[i].DoProvision?
    requires Starts(cfg, faults, Run(cfg, faults, sys, ops[..i]), ops[i].req)
    ensures ops[i].req.slug in Run(cfg, faults, sys, ops[..j]).tenants
  {
    StartCreates(cfg, faults, Run(cfg, faults, sys, ops[..i]), ops[i]);
    RunNext(cfg, faults, sys, ops, i);
    TenantsStay(cfg, faults, sys, ops, i + 1, j);
  }

  /** A slug whose provisioning has once started is refused ever after: it is provisioned at most once. */
  lemma ProvisionedOnce(cfg: Config, faults: Faults, sys: System, ops: seq<Op>, i: nat, j: nat)
    requires Initial(sys) && i < j < |ops| && ops[i].DoProvision? && ops[j].DoProvision? &&
             ops[i].req.slug == ops[j].req.slug
    requires Starts(cfg, faults, Run(cfg, faults, sys, ops[..i]), ops[i].req)
    ensures Step(cfg, faults, Run(cfg, faults, sys, ops[..j]), ops[j]) == (Run(cfg, faults, sys, ops[..j]), SlugTaken)
  {
    StartedExists(cfg, faults, sys, ops, i, j);
    RefusedOnce(cfg, faults, Run(cfg, faults, sys, ops[..j]), ops[j]);
  }

  // ----- Why compensation has to succeed -----

  /** The third and the fourth call fail: the first client cannot be created, and the realm cannot be
      deleted again. */
  function TwoFaults(): Faults { n => n == 2 || n == 3 }

  lemma Stranded(slug: string, email: string, kc: KC)
    requires slug !in kc.realms && kc.calls == 1
    ensures var o := SagaOutcome(Steps(TwoFaults(), BootstrapFor(slug, email)), kc);
            o.failedAt == Some(1) && o.state == KC(kc.realms[slug := Realm(true, map[], {}, map[])], 4)
  {
    var f, b := TwoFaults(), BootstrapFor(slug, email);
    var steps := Steps(f, b);
    var kc1 := Put(kc, slug, Realm(true, map[], {}, map[]));
    assert Before(steps, kc, 1) == kc1 && Succeeds(steps, kc, 0) by {
      assert Before(steps, kc, 0) == kc;
      assert steps[0].do(kc) == (kc1, true);
    }
    assert Before(steps, kc, 2) == Refused(kc1) && !Succeeds(steps, kc, 1) by {
      assert steps[1].do(kc1) == (Refused(kc1), false);
    }
    assert Failure(steps, kc, 0) == Failure(steps, kc, 1) == Some(1);
    OneUndo(f, b, Refused(kc1), 1);
  }

  /** Suspending and resuming a tenant whose provisioning was stranded makes it active, with a realm
      in which nothing was set up. */
  lemma StrandedBecomesActive(cfg: Config, req: Request, now: int)
    requires cfg.configured && ValidSlug(cfg, req.slug)
    ensures var ops := [DoProvision(req, "job", now, now), DoSuspend(req.slug, now), DoResume(req.slug, now)];
            var end := Run(cfg, TwoFaults(), System(map[], map[], KC(map[], 0)), ops);
            req.slug in end.tenants && end.tenants[req.slug].status == Active && !Whole(end, req.slug)
  {
    var s1 := StrandedSystem(cfg, req, now);
    RunThree(cfg, TwoFaults(), System(map[], map[], KC(map[], 0)),
             DoProvision(req, "job", now, now), DoSuspend(req.slug, now), DoResume(req.slug, now));
    Revived(cfg, s1, req.slug, now);
  }

  lemma RunThree(cfg: Config, faults: Faults, sys: System, a: Op, b: Op, c: Op)
    ensures Run(cfg, faults, sys, [a, b, c]) ==
            Step(cfg, faults, Step(cfg, faults, Step(cfg, faults, sys, a).0, b).0, c).0
  {
    var ops := [a, b, c];
    RunNext(cfg, faults, sys, ops, 0);
    RunNext(cfg, faults, sys, ops, 1);
    RunNext(cfg, faults, sys, ops, 2);
    assert ops[..0] == [] && ops[..3] == ops;
  }

  lemma StrandedSystem(cfg: Config, req: Request, now: int) returns (sys: System)
    requires cfg.configured && ValidSlug(cfg, req.slug)
    ensures sys == Step(cfg, TwoFaults(), System(map[], map[], KC(map[], 0)), DoProvision(req, "job", now, now)).0
    ensures req.slug in sys.tenants && sys.tenants[req.slug].status == Failed
    ensures sys.kc == KC(map[req.slug := Realm(true, map[], {}, map[])], 4)
  {
    Stranded(req.slug, req.adminEmail, KC(map[], 1));
    sys := Step(cfg, TwoFaults(), System(map[], map[], KC(map[], 0)), DoProvision(req, "job", now, now)).0;
  }

  lemma Revived(cfg: Config, sys: System, s: string, now: int)
    requires cfg.configured && s in sys.tenants && sys.tenants[s].status == Failed
    requires sys.kc == KC(map[s := Realm(true, map[], {}, map[])], 4)
    ensures var sys2 := Resume(cfg, TwoFaults(), Suspend(cfg, TwoFaults(), sys, s, now).0, s, now).0;
            s in sys2.tenants && sys2.tenants[s].status == Active && !Whole(sys2, s)
  {
  }
}
