/** The identity provider as the tenant service sees it: realms with their contents, changed one call
    at a time. A call that fails changes nothing; faults says which calls, counted from the start,
    fail for reasons of the provider's own. */
module Keycloak {
  import opened Wrappers

  datatype Realm = Realm(enabled: bool, clients: map<string, set<string>>, roles: set<string>,
                         users: map<string, set<string>>)

  datatype KC = KC(realms: map<string, Realm>, calls: int)

  type Faults = int -> bool

  predicate Faulty(faults: Faults, kc: KC) { faults(kc.calls) }

  function Refused(kc: KC): KC { kc.(calls := kc.calls + 1) }

  function Put(kc: KC, name: string, r: Realm): KC { KC(kc.realms[name := r], kc.calls + 1) }

  /** Whether the realm exists; None when the answer cannot be had. */
  function RealmExists(faults: Faults, kc: KC, name: string): (KC, Option<bool>) {
    (Refused(kc), if Faulty(faults, kc) then None else Some(name in kc.realms))
  }

  function CreateRealm(faults: Faults, kc: KC, name: string): (KC, bool) {
    if Faulty(faults, kc) || name in kc.realms then (Refused(kc), false)
    else (Put(kc, name, Realm(true, map[], {}, map[])), true)
  }

  function SetRealmEnabled(faults: Faults, kc: KC, name: string, enabled: bool): (KC, bool) {
    if Faulty(faults, kc) || name !in kc.realms then (Refused(kc), false)
    else (Put(kc, name, kc.realms[name].(enabled := enabled)), true)
  }

  /** Deleting a realm that is not there is no error. */
  function DeleteRealm(faults: Faults, kc: KC, name: string): (KC, bool) {
    if Faulty(faults, kc) then (Refused(kc), false) else (KC(kc.realms - {name}, kc.calls + 1), true)
  }

  function CreateClient(faults: Faults, kc: KC, name: string, client: string): (KC, bool) {
    if Faulty(faults, kc) || name !in kc.realms || client in kc.realms[name].clients then (Refused(kc), false)
    else
      var r := kc.realms[name];
      (Put(kc, name, r.(clients := r.clients[client := {}])), true)
  }

  /** A mapper that is there already is no error. */
  function AddProtocolMapper(faults: Faults, kc: KC, name: string, client: string, mapper: string): (KC, bool) {
    if Faulty(faults, kc) || name !in kc.realms || client !in kc.realms[name].clients then (Refused(kc), false)
    else
      var r := kc.realms[name];
      (Put(kc, name, r.(clients := r.clients[client := r.clients[client] + {mapper}])), true)
  }

  /** One after the other, up to the first that fails. */
  function AddProtocolMappers(faults: Faults, kc: KC, name: string, client: string, mappers: seq<string>): (KC, bool)
    decreases |mappers|
  {
    if mappers == [] then (kc, true)
    else
      var (kc1, ok) := AddProtocolMapper(faults, kc, name, client, mappers[0]);
      if !ok then (kc1, false) else AddProtocolMappers(faults, kc1, name, client, mappers[1..])
  }

  /** A role that is there already is no error. */
  function CreateRealmRole(faults: Faults, kc: KC, name: string, role: string): (KC, bool) {
    if Faulty(faults, kc) || name !in kc.realms then (Refused(kc), false)
    else
      var r := kc.realms[name];
      (Put(kc, name, r.(roles := r.roles + {role})), true)
  }

  function CreateUser(faults: Faults, kc: KC, name: string, user: string): (KC, bool) {
    if Faulty(faults, kc) || name !in kc.realms || user in kc.realms[name].users then (Refused(kc), false)
    else
      var r := kc.realms[name];
      (Put(kc, name, r.(users := r.users[user := {}])), true)
  }

  function AssignRealmRole(faults: Faults, kc: KC, name: string, user: string, role: string): (KC, bool) {
    if Faulty(faults, kc) || name !in kc.realms || role !in kc.realms[name].roles || user !in kc.realms[name].users then
      (Refused(kc), false)
    else
      var r := kc.realms[name];
      (Put(kc, name, r.(users := r.users[user := r.users[user] + {role}])), true)
  }

  // ----- Bootstrapping a realm -----

  datatype Bootstrap = Bootstrap(realm: string, consoleClient: string, consoleMappers: seq<string>,
                                 mcpClient: string, mcpMappers: seq<string>, adminRole: string, adminUser: string)

  function BootstrapFor(slug: string, adminEmail: string): Bootstrap {
    Bootstrap(slug, "mcp-admin-console", ["admin-api-audience", "realm-roles-id"],
              "mcp-client", ["mcp-resource-audience"], "admin", adminEmail)
  }

  function ConsoleClient(faults: Faults, b: Bootstrap, kc: KC): (KC, bool) {
    var (kc1, ok) := CreateClient(faults, kc, b.realm, b.consoleClient);
    if !ok then (kc1, false) else AddProtocolMappers(faults, kc1, b.realm, b.consoleClient, b.consoleMappers)
  }

  function MCPClient(faults: Faults, b: Bootstrap, kc: KC): (KC, bool) {
    var (kc1, ok) := CreateClient(faults, kc, b.realm, b.mcpClient);
    if !ok then (kc1, false) else AddProtocolMappers(faults, kc1, b.realm, b.mcpClient, b.mcpMappers)
  }

  function AdminUser(faults: Faults, b: Bootstrap, kc: KC): (KC, bool) {
    var (kc1, ok) := CreateUser(faults, kc, b.realm, b.adminUser);
    if !ok then (kc1, false) else AssignRealmRole(faults, kc1, b.realm, b.adminUser, b.adminRole)
  }

  function Elements(xs: seq<string>): set<string> { set x | x in xs }

  /** What the realm holds once i of the five bootstrap steps have succeeded. */
  function Built(b: Bootstrap, i: int): Realm {
    var console := map[b.consoleClient := Elements(b.consoleMappers)];
    Realm(true,
          if i < 2 then map[] else if i < 3 then console else console[b.mcpClient := Elements(b.mcpMappers)],
          if i < 4 then {} else {b.adminRole},
          if i < 5 then map[] else map[b.adminUser := {b.adminRole}])
  }

  /** All a tenant's realm should hold, enabled or not. */
  predicate FullyBootstrapped(r: Realm, slug: string, adminEmail: string) {
    r == Built(BootstrapFor(slug, adminEmail), 5).(enabled := r.enabled)
  }

  /** No realm but name differs. */
  ghost predicate OthersSame(kc: KC, kc2: KC, name: string) { kc.realms - {name} == kc2.realms - {name} }

  lemma {:induction false} MappersAdded(faults: Faults, kc: KC, name: string, client: string, mappers: seq<string>)
    ensures var (kc2, ok) := AddProtocolMappers(faults, kc, name, client, mappers);
            OthersSame(kc, kc2, name) && (name in kc2.realms <==> name in kc.realms) &&
            (ok && name in kc.realms && client in kc.realms[name].clients ==>
               var r := kc.realms[name];
               kc2.realms[name] == r.(clients := r.clients[client := r.clients[client] + Elements(mappers)]))
    decreases |mappers|
  {
    if mappers == [] {
      if name in kc.realms && client in kc.realms[name].clients {
        var r := kc.realms[name];
        assert r.clients[client] + Elements([]) == r.clients[client];
        assert r.clients[client := r.clients[client]] == r.clients;
      }
    } else {
      var (kc1, ok) := AddProtocolMapper(faults, kc, name, client, mappers[0]);
      MappersAdded(faults, kc1, name, client, mappers[1..]);
      if name in kc.realms && client in kc.realms[name].clients {
        var have := kc.realms[name].clients[client];
        assert mappers == [mappers[0]] + mappers[1..];
        assert (have + {mappers[0]}) + Elements(mappers[1..]) == have + Elements(mappers);
        var all := have + Elements(mappers);
        assert kc.realms[name].clients[client := have + {mappers[0]}][client := all] ==
               kc.realms[name].clients[client := all];
      }
    }
  }
}
