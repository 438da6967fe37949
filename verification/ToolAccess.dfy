/** From the store to a tool call: what listing and calling come to in the states that runs of the
    control plane and the gateway reach. */
module ToolAccess {
  import opened Wrappers
  import opened ServerEvents
  import opened Admin
  import opened Gateway
  import opened Propagation
  import opened Requests
  import opened Aggregation
  import opened McpHandler
  import D = Downstream
  import Secrets
  import Text

  /** In every state of every run a server is listed to a caller exactly when the caller may use it, in
      order of first registration. */
  lemma ListedIffUsable(run: seq<System>, steps: seq<Step>, n: nat, org: string, roles: seq<string>)
    returns (at: seq<nat>)
    requires IsRun(run, steps) && n <= |steps|
    ensures var r := OrgOf(run[n].catalog, org);
            var shown := D.Visible(r.servers, r.order, roles);
            && (forall s :: s in shown <==> D.CanAccess(r, s, roles))
            && (forall i, j | 0 <= i < j < |shown| :: shown[i] != shown[j])
            && D.SubsequenceAt(shown, r.order, at)
  {
    RunKeepsOrder(run, steps, n);
    at := D.VisibleIffAccess(OrgOf(run[n].catalog, org), roles);
  }

  /** In every state of every run, each name listed leads back to the instance and the tool it was
      listed for, exactly when the slug is clear. */
  lemma RunListCallAgree(run: seq<System>, steps: seq<Step>, n: nat, org: string, user: string, roles: seq<string>,
                         lister: Lister<Instance>, name: string, later: D.Builder<Event, Instance>)
    returns (slug: string, tool: string, inst: Instance)
    requires IsRun(run, steps) && n <= |steps|
    requires name in ListTools(OrgOf(run[n].catalog, org), user, roles, UserBuilder(run[n].control.secrets),
                               lister).1.routes
    ensures var r := OrgOf(run[n].catalog, org);
            var (r2, res) := ListTools(r, user, roles, UserBuilder(run[n].control.secrets), lister);
            && name == Namespaced(slug, tool) && res.routes[name] == Route(slug, tool)
            && D.CanAccess(r, slug, roles)
            && lister(inst).Some? && (exists t :: t in lister(inst).value && t.name == tool)
            && (CallTool(r2, true, user, roles, name, later) == (r2, Called(inst, tool)) <==> Clear(slug))
  {
    RunKeepsOrder(run, steps, n);
    slug, tool, inst := ListCallAgree(OrgOf(run[n].catalog, org), user, roles, UserBuilder(run[n].control.secrets),
                                      lister, name, later);
  }

  /** What a call should be answered: the refusals in this order, or the server's instance for the caller
      and the tool's own name. */
  ghost predicate Answers(reply: Reply<Instance>, w: Wanted, org: string, withinQuota: bool, user: string,
                          roles: seq<string>, name: string)
  {
    var cut := Text.Cut(name, SEPARATOR);
    if !withinQuota then reply == RateLimited
    else if name == "" then reply == InvalidParams
    else if !cut.found || !Offered(w, org, cut.before, roles) then reply == UnknownTool
    else forall id | WantedAt(w, org, cut.before, id) :: AnswersFor(reply, w, org, id, user, cut.before, cut.after)
  }

  /** Open to everyone when no role is asked for, and else to those who have one that is. */
  predicate OpenTo(d: Definition, roles: seq<string>) {
    |d.allowedRoles| > 0 ==> exists i | 0 <= i < |d.allowedRoles| :: d.allowedRoles[i] in roles
  }

  /** A server enabled there is open to the roles. */
  ghost predicate Offered(w: Wanted, org: string, slug: string, roles: seq<string>) {
    exists id :: WantedAt(w, org, slug, id) && OpenTo(w.servers[(org, id)], roles)
  }

  lemma OpenIffAllowed(d: Definition, roles: seq<string>)
    ensures OpenTo(d, roles) <==> D.RolesAllow(d.allowedRoles, roles)
  {
    if a :| a in d.allowedRoles && a in roles {
      var i :| 0 <= i < |d.allowedRoles| && d.allowedRoles[i] == a;
    }
    if i :| 0 <= i < |d.allowedRoles| && d.allowedRoles[i] in roles {
      assert d.allowedRoles[i] in d.allowedRoles;
    }
  }

  ghost predicate AnswersFor(reply: Reply<Instance>, w: Wanted, org: string, id: string, user: string, slug: string,
                             tool: string)
    requires (org, id) in w.servers
  {
    if w.servers[(org, id)].credentialMode == "per_user" && (org, id, user) !in w.userSecrets
    then reply == NoCredentials(slug)
    else reply.Called? && reply.tool == tool && ServesUser(reply.inst, w, org, id, user)
  }

  lemma AccessIffOffered(c: Control, w: Wanted, r: Org, org: string, slug: string, roles: seq<string>)
    requires Stores(c, w) && Secrets.SlashFree(org)
    requires ServedAt(if slug in r.servers then Some(r.servers[slug]) else None, w, org, slug)
    ensures D.CanAccess(r, slug, roles) <==> Offered(w, org, slug, roles)
  {
    if slug in r.servers {
      var id :| WantedAt(w, org, slug, id) && ServesServer(r.servers[slug], w, org, id);
      forall i | WantedAt(w, org, slug, i) ensures i == id { OneWanted(c, w, org, slug, i, id); }
      OpenIffAllowed(w.servers[(org, id)], roles);
    }
  }

  /** Once every event of a faithful run has been delivered, every call is answered as the requests so far
      call for: a server's instance as defined, with the credentials last put, open to the caller's roles,
      or the refusal that is due. */
  lemma CallsAnswerWhatWasAsked(run: seq<System>, steps: seq<Step>, n: nat, org: string, withinQuota: bool,
                                user: string, roles: seq<string>, name: string)
    requires IsRun(run, steps) && n <= |steps| && run[n].control.queue == [] && Secrets.SlashFree(org)
    requires forall i | 0 <= i < n :: Faithful(run[i], steps[i])
    ensures var r, build := OrgOf(run[n].catalog, org), UserBuilder(run[n].control.secrets);
            Answers(CallTool(r, withinQuota, user, roles, name, build).1, Asked(steps[..n]), org, withinQuota, user,
                    roles, name)
  {
    var c, w := run[n].control, Asked(steps[..n]);
    var r, slug := OrgOf(run[n].catalog, org), Text.Cut(name, SEPARATOR).before;
    StoresWhatWasAsked(run, steps, n);
    ServesWhatWasAsked(run, steps, n, org, slug);
    AccessIffOffered(c, w, r, org, slug, roles);
    FindsWhatWasAsked(run, steps, n, org, slug, user);
    var found := D.Looked(r, slug, user, UserBuilder(c.secrets)).1;
    assert forall id | WantedAt(w, org, slug, id) :: FindsServer(found, w, org, id, user);
  }

  /** Then, too, each tool that a server asked for and open to the caller lists is shown, whatever the other
      servers do; it is listed by the instance the caller is to be served. */
  lemma ListingsShowWhatWasAsked(run: seq<System>, steps: seq<Step>, n: nat, org: string, user: string,
                                 roles: seq<string>, lister: Lister<Instance>, id: string, slug: string, b: nat)
    returns (inst: Instance)
    requires IsRun(run, steps) && n <= |steps| && run[n].control.queue == [] && Secrets.SlashFree(org)
    requires forall i | 0 <= i < n :: Faithful(run[i], steps[i])
    requires WantedAt(Asked(steps[..n]), org, slug, id)
    requires var d := Asked(steps[..n]).servers[(org, id)];
             OpenTo(d, roles) &&
             (d.credentialMode == "per_user" ==> (org, id, user) in Asked(steps[..n]).userSecrets)
    ensures ServesUser(inst, Asked(steps[..n]), org, id, user)
    ensures lister(inst).Some? && b < |lister(inst).value| ==>
              var r, build := OrgOf(run[n].catalog, org), UserBuilder(run[n].control.secrets);
              var res, name := ListTools(r, user, roles, build, lister).1, Namespaced(slug, lister(inst).value[b].name);
              name in res.routes && exists t :: t in res.tools && t.name == name
  {
    var c, w, r := run[n].control, Asked(steps[..n]), OrgOf(run[n].catalog, org);
    var build := UserBuilder(c.secrets);
    StoresWhatWasAsked(run, steps, n);
    ServesWhatWasAsked(run, steps, n, org, slug);
    FindsWhatWasAsked(run, steps, n, org, slug, user);
    assert FindsServer(D.Looked(r, slug, user, build).1, w, org, id, user);
    inst := D.Looked(r, slug, user, build).1.inst;
    LookedServes(r, slug, user, build, slug);
    if lister(inst).Some? && b < |lister(inst).value| {
      RunKeepsOrder(run, steps, n);
      AccessIffOffered(c, w, r, org, slug, roles);
      EveryListedToolIsOffered(r, user, roles, build, lister, slug, lister(inst).value, b);
    }
  }
}
