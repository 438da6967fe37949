/** What the isolation of tenants elsewhere assumes of organization names, tenants do satisfy. */
module TenantIsolation {
  import opened Keycloak
  import opened Tenants
  import opened TenantLifecycle
  import Enforcers
  import RedisQuota
  import Secrets

  /** In every run, tenants' names are free of slashes, so that references to their secrets cannot be
      the same, and apart from each other, so that they share no quota counter. */
  lemma TenantNamesApart(cfg: Config, faults: Faults, sys: System, ops: seq<Op>, a: string, b: string)
    requires Initial(sys)
    requires a in Run(cfg, faults, sys, ops).tenants && b in Run(cfg, faults, sys, ops).tenants
    ensures Secrets.SlashFree(a) && Secrets.SlashFree(b) && Enforcers.Apart(a, b)
  {
    var after := Run(cfg, faults, sys, ops);
    RunKeepsInv(cfg, faults, sys, ops);
    assert TenantOk(cfg, after, a) && TenantOk(cfg, after, b);
    ValidSlugLacks(cfg, a, '/');
    ValidSlugLacks(cfg, b, '/');
    Enforcers.SlashFreeApart(a, b);
  }

  /** So a tenant among tenants is rate-limited as if it were alone. */
  lemma TenantsDoNotDisturb(cfg: Config, faults: Faults, sys: System, ops: seq<Op>,
                            l: Enforcers.Limits, window: int, past: seq<Enforcers.Req>, r: Enforcers.Req)
    requires Initial(sys) && r.org in Run(cfg, faults, sys, ops).tenants
    requires forall i | 0 <= i < |past| :: past[i].org in Run(cfg, faults, sys, ops).tenants && past[i].t <= r.t
    requires Enforcers.InOrder(past)
    ensures Enforcers.EnforcerOk(l, window, past, r) <==>
            Enforcers.EnforcerOk(l, window, Enforcers.Only(past, r.org), r)
  {
    forall i | 0 <= i < |past| ensures past[i].org == r.org || Enforcers.Apart(past[i].org, r.org) {
      TenantNamesApart(cfg, faults, sys, ops, past[i].org, r.org);
    }
    Enforcers.EnforcerIsolates(l, window, past, r);
  }

  /** The same over Redis, whenever that may fail to answer. */
  lemma TenantsDoNotDisturbOverRedis(cfg: Config, faults: Faults, sys: System, ops: seq<Op>,
                                     l: Enforcers.Limits, window: int, calls: seq<Enforcers.Call>, c: Enforcers.Call)
    requires Initial(sys) && c.req.org in Run(cfg, faults, sys, ops).tenants
    requires forall i | 0 <= i < |calls| :: calls[i].req.org in Run(cfg, faults, sys, ops).tenants
    requires RedisQuota.Millis(window) > 0 && Enforcers.CallsTimely(calls, c.req.t) && c.req.t >= RedisQuota.EPOCH
    ensures Enforcers.CallOk(l, window, calls, c) <==>
            Enforcers.CallOk(l, window, Enforcers.OnlyCalls(calls, c.req.org), c)
  {
    forall i | 0 <= i < |calls| ensures calls[i].req.org == c.req.org || Enforcers.Apart(calls[i].req.org, c.req.org) {
      TenantNamesApart(cfg, faults, sys, ops, calls[i].req.org, c.req.org);
    }
    Enforcers.RedisEnforcerIsolates(l, window, calls, c);
  }
}
