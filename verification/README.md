# Verified model of the MCP runtime

A Dafny model of the state logic of a multi-tenant MCP runtime: a control plane in which organizations
define downstream tool servers, their credentials and their tenants, and a gateway that serves those
tools to users.

## What is modelled

**Propagation.** The control plane's handlers change a store of server definitions (`Admin.dfy`) and a
store of secrets (`Secrets.dfy`) and publish events (`ServerEvents.dfy`); the gateway applies them to a
per-organization catalog (`Gateway.dfy`, `Downstream.dfy`). `Propagation.dfy` is the transition system
of both, and shows that the catalog follows the store and that instances carry current secrets.
`Requests.dfy` tells from the requests alone what has been asked for, kept by org, id and user rather than
under composed keys, and shows that the stores, the replies, the events and, once these are delivered, the
gateway's catalog and lookups are those: each field of a server as last sent, each secret as last put.

**Registry ownership.** `RegistryProtocol.dfy` splits the registry's operations into their phases inside
and outside the lock, lets threads interleave between them in any way, and shows that no instance is
lost or closed twice.

**Audit.** `Audit.dfy` has the text a record's hash is taken of, the chain and its verification, and says
exactly which edits of a record go unnoticed. `Utf8.dfy` and `AuditJson.dfy` have what becomes of a record
that is written as JSON and read back; `S3Archive.dfy` has the archive in an object store, which survives
restarts, and says exactly when it answers as the in-memory logger does.

**Quotas.** `Quota.dfy` and `RedisQuota.dfy` have the two fixed-window limiters, each proved against
counting the whole history of requests, whenever Redis may fail to answer, and say exactly when they
agree; `Enforcers.dfy` has the two-level quota and its isolation of tenants. `Arithmetic.dfy` has the facts
on integer division.

**Tenants.** `Saga.dfy` has the saga runner, `Keycloak.dfy` the identity provider, `Tenants.dfy` the
lifecycle operations, `TenantOutcomes.dfy` what each comes to, in terms of the registry and the realms
alone, and `TenantLifecycle.dfy` what all runs of them keep, whatever calls fail.
`TenantIsolation.dfy` carries what is known of tenants' names over to quotas and secrets.

**Sandbox pool.** `Pool.dfy` has the warm pool and `PoolSafety.dfy` what its operations do and what its runs
keep.

**Tools.** `Aggregation.dfy` has the merging of tool lists under namespaced names, and says exactly when
no tool is lost; `McpHandler.dfy` has the answers to `tools/list` and `tools/call`, and `ToolAccess.dfy`
what these come to, in terms of the requests made, in the states that runs of the control plane and the
gateway reach.

`Text.dfy`, `Sorting.dfy` and `Wrappers.dfy` hold what the others share: cutting and ordering strings,
decimal numerals, sorting, and the optional value.

Code that updates state in place is a class whose methods are proved against a function of the old
state; the theorems are lemmas about those functions and about runs of them. `dafny verify
dfyconfig.toml` checks the whole.

## Assumptions

- The event bus is lossless and first-in first-out; a handler is one step, and so is a gateway restart
  with its reconciliation, which the gateway finishes before it subscribes.
- Organization names are tenant slugs, hence without a slash; server ids come from a route segment.
- A string is a sequence of bytes, one to a character.
- SHA-256 is a one-to-one function with a non-empty result of one line of well-formed UTF-8.
- The time of an audit record is one that JSON keeps: RFC 3339, years 0 to 9999, an offset of whole minutes.
- A call to the identity provider, the object store or the secret store that fails has had no effect; the
  gateway's own reads of the secret store do not fail. A realm created by the provider holds none of the
  clients, roles and users of the bootstrap.
- Redis and the gateways read one clock, which does not go back and reads no earlier than 1970.
- The pool's factory never yields an instance twice, and its clock does not go back.
- Reserved slugs are given one by one in lower case, the comma-separated setting already split.

## Where code and documentation part

- `audit.go` says that any edit breaks the chain. An edit that keeps the hash is caught unless it leaves
  the hashed text as it was, and that can be done: with two metadata entries, or with an equals sign in
  one, the lines can be cut into other keys and values (`Audit.EditUnnoticedIff`, `Audit.EditableIff`), and
  with a newline in the org, actor, action or target what follows it can be moved to another of these
  (`Audit.NewlineCollides`, `Audit.AnyEditableIff`). Both kinds of record are written: the denials of
  `services/gateway/internal/server/audit.go` carry two metadata entries, and their target is the path of a
  request not yet authenticated, where `%0A` stands for a newline.
- `s3.go` promises the in-memory logger's answers from what it stores as JSON. It gives them exactly while
  all text recorded is well-formed UTF-8 (`S3Archive.ArchiveAgreesIff`): one denied request for `/mcp/%FF`
  makes its verification fail from then on, and its listing differ.
- `aggregate.go` says that no tool is overwritten across servers, slugs being unique. That holds, whatever
  the tools, exactly when no slug followed by the separator begins another followed by it
  (`Aggregation.NothingLostIff`): the tools `b__c` of server `a` and `c` of server `a__b` are merged into one
  (`Aggregation.UnclearCollides`). A slug that contains `__` or ends in `_` makes every call to its tools
  go astray besides (`Aggregation.CutUndoes`, `McpHandler.ListCallAgree`).
- `quota.go` says that one tenant never affects another. With slashes in organization names one can
  (`Enforcers.NotApartInterferes`); tenant slugs have none.
- `service.go` says that a failed provisioning leaves no ghost realm. It does when deleting the realm
  fails as well, and the tenant can then become active (`TenantLifecycle.StrandedBecomesActive`).
- `credentials.go` re-announces a server on an org-level rotation even when it is disabled
  (`Propagation.RotationRevivesDisabled`).

## Model

| member | source | states |
|---|---|---|
| `Propagation.StepKeepsAgreement` | services/control-plane/internal/admin/handlers.go:63-200 | From any state in which replaying the pending events onto the gateway's catalog yields the enabled servers of the store, every handler, delivery, connection, purge and restart leads to such a state again if and only if what it announces is what it stored: the patched type is known, and an org-level rotation is of an enabled server |
| `Propagation.RunAgrees` | services/control-plane/internal/admin/bus.go:16-57 | That agreement holds in every state of every run whose announcements are faithful, starting from nothing |
| `Propagation.DrainedCatalogIsTheStore` | services/gateway/internal/server/server.go:155-200 | With no event pending, each org and slug of the catalog holds the entry that announcing the enabled server there makes, with the credentials now stored, or nothing; what that entry is, field by field, `Requests.ServesWhatWasAsked` says |
| `Propagation.InstancesAreCurrent` | services/gateway/internal/server/creds.go:17-60 | Every instance in use, shared or cached for a user, is the one that building it now from the announced server and the stored secrets gives, unless a pending event will replace, drop or invalidate it; whose secret that is, `Requests.InstancesAreAsAsked` says |
| `Propagation.RotationRevivesDisabled` | services/control-plane/internal/admin/credentials.go:29-49 | Rotating the org credential of a disabled server re-announces it, so the gateway serves it again: the emission does not look at Enabled |
| `Propagation.DisabledServerState` | services/control-plane/internal/admin/handlers.go:139-184 | A faithful run from nothing, a create and a disabling patch, ends in a state to which that applies, and rotating there does revive the server |
| `Propagation.UnknownTypeIsIgnored` | services/control-plane/internal/admin/handlers.go:152-154 | Patching in a type no gateway knows, which Patch does not check, leaves the gateway on the old definition |
| `Propagation.ReconcileOrderIrrelevant` | services/gateway/internal/server/reconcile.go:19-32 | Reconciling from any listing of the enabled servers, in any order and repeatedly, gives one and the same catalog |
| `Propagation.RestartEffect` | services/gateway/internal/server/reconcile.go:19-32 | A restart with reconciliation makes an org and slug right exactly when the enabled server there, if any, is of a known type, whatever was pending |
| `Propagation.PurgeStep` | services/control-plane/internal/admin/purge.go:20-31 | A purge removes all the org's servers and no others, and announces enough for the gateway to follow |
| `Propagation.PurgeEffect` | services/control-plane/internal/admin/purge.go:20-31 | After a purge an org and slug agrees if and only if it was purged or agreed before |
| `Propagation.DeliverEffect` | services/gateway/internal/server/server.go:155-200 | Delivering the oldest event never changes whether an org and slug agrees |
| `Propagation.ConnectEffect` | services/gateway/internal/downstream/downstream.go:147-188 | Nor does a lookup that builds a user's instance |
| `Propagation.CreateEffect` | services/control-plane/internal/admin/handlers.go:63-108 | A create makes its own org and slug right and leaves every other as it was |
| `Propagation.PatchEffect` | services/control-plane/internal/admin/handlers.go:139-184 | A patch makes its own org and slug right unless it leaves an enabled server of unknown type, and leaves every other as it was |
| `Propagation.DeleteEffect` | services/control-plane/internal/admin/handlers.go:188-200 | A delete makes its own org and slug right and leaves every other as it was |
| `Propagation.RotationHere` | services/control-plane/internal/admin/credentials.go:29-64 | An org-level rotation makes its server's place right exactly when the server is enabled |
| `Propagation.UserRotationEffect` | services/control-plane/internal/admin/credentials.go:67-104 | A user's rotation drops that user's cached instance and leaves every other instance right |
| `Propagation.RunKeepsOrder` | services/gateway/internal/downstream/downstream.go:54-128 | In every state of every run each org's order of slugs is free of duplicates and lists just the slugs registered |
| `Requests.StoresWhatWasAsked` | services/control-plane/internal/admin/handlers.go:63-200 | In every state of every run the stores hold, server by server and field by field, what the requests so far have asked for, secret by secret what was last put, and nothing else |
| `Requests.AnswersAsDue` | services/control-plane/internal/admin/handlers.go:63-200 | Every request of every run is answered with the status due, told from the requests before it: 422, 409, 404, 401, 500 or success, in the order in which the checks come |
| `Requests.AnnouncesWhatIsWanted` | services/control-plane/internal/admin/bus.go:16-57 | Every change is announced once, with each field of the server as the change leaves it, or as its removal, or as a change of one user's credential, and nothing else is |
| `Requests.PurgeAnnounces` | services/control-plane/internal/admin/purge.go:20-31 | A purge announces the removal of each listed server, in order, and counts them |
| `Requests.ServesWhatWasAsked` | services/gateway/internal/server/server.go:155-200 | Once every event of a faithful run is delivered, the catalog has at each org and slug the enabled server asked for there: slug, type, endpoint, command, arguments, environment, roles and mode as last sent; or nothing if none was |
| `Requests.InstancesAreAsAsked` | services/gateway/internal/server/creds.go:17-60 | An instance in use that no pending event replaces or drops is of the server as asked for, and carries in mode org_shared the secret last put for the server, in mode per_user the one its user last put, in any other none |
| `Requests.FindsWhatWasAsked` | services/gateway/internal/downstream/downstream.go:147-188 | With every event of a faithful run delivered, a user's lookup finds that instance, fails exactly when the mode is per_user and the user has no secret, and finds nothing exactly when no server is enabled there |
| `Requests.LastOrgSecretArrives` | services/control-plane/internal/admin/credentials.go:29-64 | The values of the last org-level put answered 204 are the credentials of the org_shared instance, and after a delete it has none |
| `Requests.LastUserSecretArrives` | services/control-plane/internal/admin/credentials.go:67-104 | The values a user last put are the credentials of the user's instance, and after a delete the user gets none |
| `Requests.FaithfulIff` | services/control-plane/internal/admin/handlers.go:139-184 | Whether a step of a run is faithful can be told from the requests: no server enabled with an unknown type, no rotation for all users of a disabled one of known type |
| `Gateway.ReplayPointwise` | services/gateway/internal/server/server.go:155-200 | Events act on each org and slug on its own |
| `Gateway.GatewayServer.ApplyServerEvent` | services/gateway/internal/server/server.go:155-200 | The new catalog after an upsert, a removal or a credential change, including types the gateway does not know |
| `Gateway.GatewayServer.Reconcile` | services/gateway/internal/server/reconcile.go:19-32 | The catalog is that of the enabled servers' upserts replayed in order |
| `Gateway.GatewayServer.Resolve` | services/gateway/internal/server/creds.go:17-34 | Only org_shared mode bakes in a secret, the one under the server's org reference |
| `Gateway.GatewayServer.Connect` | services/gateway/internal/server/creds.go:40-60 | A per-user instance is built from the caller's own secret or not at all, once |
| `Admin.CreateKeepsStore` | services/control-plane/internal/admin/store.go:83-95 | Creating keeps ids unique to one server and slugs unique within an org |
| `Admin.UpdateKeepsStore` | services/control-plane/internal/admin/store.go:122-131 | Updating a server, its org, id and slug unchanged, keeps that |
| `Admin.PurgeKeepsStore` | services/control-plane/internal/admin/purge.go:20-31 | Purging keeps it, removes just the listed servers and leaves the secrets alone |
| `Admin.NextKeyIsNew` | services/control-plane/internal/admin/store.go:83-95 | The key of the next id handed out is not taken |
| `Admin.KeyInjective` | services/control-plane/internal/admin/store.go:79-79 | A store key names one org and one id |
| `Admin.LookupIsScoped` | services/control-plane/internal/admin/store.go:98-106 | A lookup by org and id finds only that org's server of that id |
| `Admin.MemStore.Create` | services/control-plane/internal/admin/store.go:83-95 | A server is stored under the next id unless its slug is taken in its org, and then nothing changes |
| `Admin.MemStore.List` | services/control-plane/internal/admin/store.go:109-119 | Exactly the org's servers, each once |
| `Admin.Handlers.HandleCreate` | services/control-plane/internal/admin/handlers.go:63-108 | The new store, secrets and queue, and the status, for every outcome of a create |
| `Admin.Handlers.HandlePatch` | services/control-plane/internal/admin/handlers.go:139-184 | The same for a patch: a disabled server is announced as a removal, an enabled one as an upsert |
| `Admin.Handlers.HandleDelete` | services/control-plane/internal/admin/handlers.go:188-200 | The same for a delete |
| `Admin.Handlers.PutOrgCredentials` | services/control-plane/internal/admin/credentials.go:29-49 | The same for writing an org-level secret; when the secret store fails, 500 and no change |
| `Admin.Handlers.DeleteOrgCredentials` | services/control-plane/internal/admin/credentials.go:52-64 | The same for deleting one; when the secret store fails, 500 and no change |
| `Admin.Handlers.PutMyCredentials` | services/control-plane/internal/admin/credentials.go:67-87 | The same for writing a user's secret; when the secret store fails, 500 and no change |
| `Admin.Handlers.DeleteMyCredentials` | services/control-plane/internal/admin/credentials.go:90-104 | The same for deleting one; when the secret store fails, 500 and no change |
| `Admin.Handlers.PurgeOrg` | services/control-plane/internal/admin/purge.go:20-31 | The purge deletes and announces the listed servers, counting those it deleted |
| `Secrets.OrgRefInjective` | pkg/secrets/secrets.go:16-18 | Two servers share an org-level reference only if they are one server of one org, for slash-free orgs |
| `Secrets.UserRefInjective` | pkg/secrets/secrets.go:21-23 | The same for user references and users, for slash-free orgs and server ids |
| `Secrets.OrgRefIsNoUserRef` | pkg/secrets/secrets.go:16-23 | With slash-free orgs and server ids no org-level reference is a user reference |
| `Secrets.OrgRefIsUserRefIff` | pkg/secrets/secrets.go:16-23 | With slash-free orgs an org-level reference is a user reference if and only if the orgs are the same and the server id of the first spells out the user part of the second |
| `Secrets.SlashCollides` | pkg/secrets/secrets.go:16-18 | With a slash in an org, two servers of different orgs can have one reference |
| `Secrets.MemStore.Put` | pkg/secrets/secrets.go:43-48 | The values are stored under the reference and nothing else changes |
| `Secrets.Clone` | pkg/secrets/secrets.go:69-75 | A copy with the same values |
| `Downstream.VisibleIffAccess` | services/gateway/internal/downstream/downstream.go:208-227 | A slug is listed to a caller exactly when the caller may use it, once, in order of first registration |
| `Downstream.LinkedKeepsOrder` | services/gateway/internal/downstream/downstream.go:54-81 | Registering or replacing keeps the order free of duplicates and equal to the registered slugs; a new slug comes last and none moves |
| `Downstream.UnlinkedKeepsOrder` | services/gateway/internal/downstream/downstream.go:84-101 | Removing keeps it too |
| `Downstream.WithoutAt` | services/gateway/internal/downstream/downstream.go:84-101 | Removing takes the slug out of the order and leaves the others as they were |
| `Downstream.DroppedKeepsOrder` | services/gateway/internal/downstream/downstream.go:107-128 | Invalidating keeps it too |
| `Downstream.LookedKeepsOrder` | services/gateway/internal/downstream/downstream.go:147-188 | Looking up keeps it too |
| `Downstream.LeavingAreHeld` | services/gateway/internal/downstream/downstream.go:54-128 | An instance that registering, removing or invalidating takes out of the registry is among those the operation closes |
| `Downstream.AnyRole` | services/gateway/internal/downstream/downstream.go:229-242 | Access is granted when no role is demanded or one of them is held |
| `Downstream.CloseEntry` | services/gateway/internal/downstream/downstream.go:200-205 | Every instance of the entry is closed and no other |
| `Downstream.Registry.AddScoped` | services/gateway/internal/downstream/downstream.go:54-65 | The entry replaces the slug's previous one, whose instances are closed |
| `Downstream.Registry.AddProvider` | services/gateway/internal/downstream/downstream.go:70-81 | The same for a provider, starting with no users |
| `Downstream.Registry.Remove` | services/gateway/internal/downstream/downstream.go:84-101 | The slug and its place in the order go, its instances are closed, the rest stays |
| `Downstream.Registry.Invalidate` | services/gateway/internal/downstream/downstream.go:107-128 | One user's cached instance, or all of them, go and are closed; shared instances stay |
| `Downstream.Registry.GetForUser` | services/gateway/internal/downstream/downstream.go:147-188 | The shared instance, the cached one, or one built now and cached; or the error |
| `Downstream.Registry.VisibleSlugs` | services/gateway/internal/downstream/downstream.go:217-227 | The slugs whose roles allow the caller, in order |
| `RegistryProtocol.ExactlyOneStage` | services/gateway/internal/downstream/downstream.go:54-205 | Under any interleaving of lookups, builds, commits, replacements, removals and invalidations, every instance built is in flight, registered, detached or closed, in one of these only, and is closed at most once |
| `RegistryProtocol.QuiescentBalance` | services/gateway/internal/downstream/downstream.go:147-205 | With no operation under way, the instances built are exactly those registered and those closed |
| `RegistryProtocol.UnlinkedMapsAreFrozen` | services/gateway/internal/downstream/downstream.go:84-128 | A users map that has left the table is never written again, so that ranging over it outside the lock is safe |
| `RegistryProtocol.PhasesRefineOperations` | services/gateway/internal/downstream/downstream.go:54-188 | Each locked phase changes the table as the whole operation does when it runs alone |
| `RegistryProtocol.RunKeepsInv` | services/gateway/internal/downstream/downstream.go:54-205 | The ownership invariant in every state of every run |
| `Audit.HashTextInjective` | pkg/audit/audit.go:101-114 | The hashed text determines position, previous hash, every field, the time and the whole metadata map of a well-formed record |
| `Audit.SeqNoFromText` | pkg/audit/audit.go:101-114 | It determines the position whatever the other fields hold |
| `Audit.HashTextSpelled` | pkg/audit/audit.go:101-114 | The text is position, previous hash, org, actor, action, target and time, a line each in this order, and then the metadata |
| `Audit.SameTextIffRecut` | pkg/audit/audit.go:101-114 | A record hashes the same text as a well-formed one if and only if it is that one in every field but the hash, save for how the metadata lines are cut; its own fields may hold anything |
| `Audit.AmbiguousIff` | pkg/audit/audit.go:104-112 | Other metadata have the same text if and only if there are two entries or a value holds an equals sign |
| `Audit.SwallowSecond` | pkg/audit/audit.go:104-112 | The metadata that show it: the first value swallows the second entry |
| `Audit.NewlineCollides` | pkg/audit/audit.go:101-114 | Whichever two neighbours among previous hash, org, actor, action and target, a newline in the first lets two different records hash the same text |
| `Audit.MetaLines` | pkg/audit/audit.go:104-112 | The metadata text does not depend on the order the map is ranged over |
| `Audit.HashRecord` | pkg/audit/audit.go:101-114 | The digest is the hash of that text |
| `Audit.SortedKeysUnique` | pkg/audit/audit.go:104-109 | Sorting gives the keys one order, whatever order they were collected in |
| `Audit.DigestIsSound` | pkg/audit/audit.go:101-114 | With an ideal hash, equal digests mean equal positions, and whatever shares the digest of a well-formed record is that record, recut |
| `Audit.AppendKeepsChain` | pkg/audit/audit.go:54-68 | Recording keeps the log chained and numbered from one |
| `Audit.RecordedVerifies` | pkg/audit/audit.go:54-99 | Every log built by recording verifies |
| `Audit.RecordedIsWhatHappened` | pkg/audit/audit.go:54-68 | Record i holds what event i says, at its own time or else the clock's, with position i + 1 and the hash of the record before |
| `Audit.DrawnIsPrefix` | pkg/audit/audit.go:88-99 | Records drawn from a log, some left out, moved or repeated, verify only as a prefix of it |
| `Audit.EditUnnoticedIff` | pkg/audit/audit.go:88-99 | A well-formed record replaced in place by any record with its hash still verifies if and only if nothing but the metadata differs and their text is the same |
| `Audit.EditBreaksChain` | pkg/audit/audit.go:88-99 | So an edit of any field but the metadata, whatever is written there, fails verification |
| `Audit.EditableIff` | pkg/audit/audit.go:88-99 | A well-formed record can be edited unnoticed if and only if it has two metadata entries or an equals sign in a value |
| `Audit.AnyEditableIff` | pkg/audit/audit.go:88-114 | Any record can be when a newline is in its org, actor, action or target, or it has two metadata entries or an equals sign in one; and, its metadata free of newlines, only then |
| `Audit.TipCommits` | pkg/audit/audit.go:88-99 | Whatever is put in place of a well-formed log verifies with the same last hash if and only if it is that log, record by record, with metadata recut at most |
| `Audit.IdealHashExists` | pkg/audit/audit.go:101-114 | The assumption made of the hash can be met |
| `Audit.ListRecords` | pkg/audit/audit.go:71-85 | The org's records, newest first, up to the limit |
| `Audit.ListedIsNewest` | pkg/audit/audit.go:71-85 | A listing holds, newest first and each once, the org's newest records up to the limit, all of them without one, and no other org's |
| `Audit.VerifyRecords` | pkg/audit/audit.go:88-99 | True exactly when every record links to the one before and its hash is right |
| `Audit.MemLogger.RecordEvent` | pkg/audit/audit.go:54-68 | The log grows by the sealed record |
| `Audit.MemLogger.List` | pkg/audit/audit.go:71-85 | The logger's listing of one org |
| `Audit.MemLogger.Verify` | pkg/audit/audit.go:88-99 | Whether the log is a chain |
| `S3Archive.RunRefines` | pkg/audit/s3.go:73-120 | After any run of recordings, failing puts and restarts the bucket reads back, record by record through JSON, the log that the successful recordings make, with its position and last hash |
| `S3Archive.ArchiveAgreesIff` | pkg/audit/s3.go:98-171 | In every state of every run the bucket holds the in-memory log, verifies, and lists what that log does, each of these if and only if all that was recorded is well-formed UTF-8 |
| `S3Archive.TipRefines` | pkg/audit/s3.go:73-94 | Scanning the bucket recovers the length and last hash of what it holds |
| `S3Archive.PutRefines` | pkg/audit/s3.go:98-120 | A put that succeeds adds to what is read back the next record of the log, read back; one that fails changes nothing |
| `S3Archive.KeyRoundTrip` | pkg/audit/s3.go:187-196 | The position is read back from its key, for every non-negative 64-bit position |
| `S3Archive.KeyOrder` | pkg/audit/s3.go:186-187 | Keys sort as positions do, and differ when these do |
| `S3Archive.ParsePrinted` | pkg/audit/s3.go:189-196 | Every printed 64-bit number, negative ones included, is read back, and larger ones are an error |
| `S3Archive.FetchedIsLog` | pkg/audit/s3.go:157-171 | The records fetched in any order and sorted are the log the bucket holds |
| `S3Archive.Archive.constructor` | pkg/audit/s3.go:41-94 | A newly opened archive has the tip a scan of the bucket finds |
| `S3Archive.Archive.RecordEvent` | pkg/audit/s3.go:98-120 | The new bucket, holding the sealed record as JSON has it, position and last hash, or no change |
| `S3Archive.Archive.List` | pkg/audit/s3.go:123-139 | The in-memory listing of the log the bucket holds |
| `S3Archive.Archive.Verify` | pkg/audit/s3.go:142-155 | Whether what is stored, in order of position, is a chain |
| `Utf8.SurvivesIffValid` | pkg/audit/s3.go:106-106 | A string comes back from JSON as it went in if and only if it is well-formed UTF-8 |
| `Utf8.EachStrayByte` | pkg/audit/s3.go:106-106 | A byte no character begins with comes back as one replacement character, what stands before and after it being read on its own |
| `Utf8.StrayByte` | services/gateway/internal/server/audit.go:45-45 | The path of a request for `/mcp/%FF` is not |
| `AuditJson.WriteAndRead` | pkg/audit/s3.go:106-106 | A record written and read back, metadata entries whose keys become the same included |
| `AuditJson.LastKeyWins` | pkg/audit/s3.go:106-106 | Metadata read back have their keys as read, and when several keys read alike the value of the last of them in byte order |
| `AuditJson.SurvivesIff` | pkg/audit/s3.go:106-106 | A record comes back as it went in if and only if all its text is well formed |
| `AuditJson.HashTextValidIff` | pkg/audit/audit.go:101-114 | The hashed text is well formed if and only if all the text of the record is |
| `AuditJson.VerifiesIffSurvives` | pkg/audit/s3.go:142-155 | A verifying log still verifies when read back if and only if all its text is well formed |
| `AuditJson.ListedIffSurvives` | pkg/audit/s3.go:123-139 | Its listings are the same, for every org and limit, if and only if all its text is well formed |
| `Quota.WindowLimiterRefines` | services/gateway/internal/quota/quota.go:32-49 | One bucket per key gives the answer that counting the whole history of the key's window calls for, under a clock that does not go back |
| `Quota.BucketTracksCount` | services/gateway/internal/quota/quota.go:32-49 | The bucket holds the number of the window's requests, up to the limit, though it counts admitted ones only |
| `Quota.TruncateIsSlot` | services/gateway/internal/quota/quota.go:38-38 | Truncated times are equal exactly when the times fall into one window counted from year 1 |
| `Quota.RateBound` | services/gateway/internal/quota/quota.go:32-49 | In any interval at most (ceil(L/window) + 1) * limit of a key's requests are admitted, in one window's length at most 2 * limit |
| `Quota.WindowRateBound` | services/gateway/internal/quota/quota.go:32-49 | The in-memory limiter keeps that bound |
| `Quota.WindowLimiter.Allow` | services/gateway/internal/quota/quota.go:32-49 | The new buckets and the answer |
| `RedisQuota.RedisLimiterRefines` | services/gateway/internal/quota/redis.go:40-57 | In any history, Redis answering or not, a request is let through if and only if it does not reach Redis or those that did call for it |
| `RedisQuota.CountersRefine` | services/gateway/internal/quota/redis.go:40-57 | While Redis answers, counting every request in one key per window, and dropping expired ones, gives the answer the whole history calls for, from any number of replicas |
| `RedisQuota.CounterTracksCount` | services/gateway/internal/quota/redis.go:13-19 | The counter of the current window is the number of requests in it, and outlives it |
| `RedisQuota.ExpiresFromTheFirst` | services/gateway/internal/quota/redis.go:13-19 | A live counter expires one window's length after the first request of its window, however many have followed |
| `RedisQuota.RedisKeyInjective` | services/gateway/internal/quota/redis.go:49-49 | A counter key determines the limiter key and the window index |
| `RedisQuota.IndexIsSlot` | services/gateway/internal/quota/redis.go:44-48 | Dividing milliseconds by the window in milliseconds is one division of nanoseconds since the epoch |
| `RedisQuota.AgreeIffAligned` | services/gateway/internal/quota/redis.go:40-57 | The two limiters give identical answers on every history if and only if there is no limit or the window is a whole number of milliseconds dividing the time from year 1 to the epoch |
| `RedisQuota.MinuteAligned` | services/gateway/internal/server/server.go:100-106 | The gateway's one-minute window is such a window |
| `RedisQuota.BeforeEpochDiffers` | services/gateway/internal/quota/redis.go:44-48 | Before the epoch they can differ all the same, division rounding toward zero |
| `RedisQuota.RedisRateBound` | services/gateway/internal/quota/redis.go:21-57 | Replicas sharing the counters keep the rate bound together, but for the requests made while Redis could not be reached |
| `RedisQuota.Redis.RunIncrExpire` | services/gateway/internal/quota/redis.go:13-19 | The script's effect and result, for a live, an expired and a missing counter |
| `RedisQuota.RedisLimiter.Allow` | services/gateway/internal/quota/redis.go:40-57 | The new counters and the answer; unlimited, sub-millisecond windows and an unreachable Redis let the request through |
| `Enforcers.EnforcerIsolates` | services/gateway/internal/quota/quota.go:71-82 | An organization gets the answers it would get if it were alone, when the other names are apart from its own |
| `Enforcers.RedisEnforcerIsolates` | services/gateway/internal/quota/redis.go:61-66 | The same with shared counters, whenever Redis may fail to answer |
| `Enforcers.NotApartInterferes` | services/gateway/internal/quota/quota.go:81-81 | When a name followed by a slash begins another, one organization can use up another's user limit, in memory and over Redis |
| `Enforcers.SlashFreeApart` | services/gateway/internal/quota/quota.go:78-81 | Slash-free names are always apart |
| `Enforcers.SharedCounterIff` | services/gateway/internal/quota/quota.go:81-81 | Two organizations can share a user counter if and only if their names are not apart |
| `Enforcers.EnforcerRefines` | services/gateway/internal/quota/quota.go:74-82 | Only requests within the organization's limit count against the user's |
| `Enforcers.RedisEnforcerRefines` | services/gateway/internal/quota/redis.go:61-66 | In any history, Redis answering or not, a call is let through if and only if it does not reach Redis or the two levels, counted over those that did, permit it |
| `Enforcers.SharedCountersRefine` | services/gateway/internal/quota/redis.go:61-66 | While Redis answers, the answer is the one the two levels call for, though both share one store |
| `Enforcers.LevelsApart` | services/gateway/internal/quota/quota.go:78-81 | Counters of the two levels never mix |
| `Enforcers.EnforcersAgree` | services/gateway/internal/quota/redis.go:61-66 | For an aligned window the two enforcers answer alike |
| `Enforcers.Enforcer.Allow` | services/gateway/internal/quota/quota.go:74-82 | The organization's limiter is asked first and the user's only if it agrees |
| `Enforcers.RedisEnforcer.Allow` | services/gateway/internal/quota/redis.go:61-66 | The same over Redis |
| `Saga.RunSaga` | services/control-plane/internal/tenants/service.go:312-334 | The state, the step log and the failed step that the saga comes to |
| `Saga.LogTells` | services/control-plane/internal/tenants/service.go:312-334 | The log names the steps begun, in order, all done but the one that failed |
| `Saga.ActionsOfSuccess` | services/control-plane/internal/tenants/service.go:312-334 | On success every do is performed once, in order, and no undo |
| `Saga.ActionsOfFailure` | services/control-plane/internal/tenants/service.go:317-328 | On failure at step k the dos up to k are performed, none after, then the undos of the completed steps in reverse, each once |
| `Saga.Compensates` | services/control-plane/internal/tenants/service.go:322-326 | If each undo removes its step's effect and whatever later steps left, a saga ends with all steps in effect or none |
| `Saga.Restores` | services/control-plane/internal/tenants/service.go:322-326 | If each undo inverts its step and failing steps change nothing, a failed saga restores the initial state |
| `TenantLifecycle.RunKeepsInv` | services/control-plane/internal/tenants/service.go:95-304 | Between operations of any run with any failures: active means the realm exists and is enabled, suspended that it is disabled, deleted that it is gone with the audit kept for at least 365 calendar days; no tenant is left provisioning or deleting |
| `TenantLifecycle.RetainedAYear` | services/control-plane/internal/tenants/service.go:290-294 | In every run a deleted tenant's audit is kept for 365 days of 24 hours at least, less what the calendar takes off for a change of the clocks |
| `TenantLifecycle.NoGhostRealms` | services/control-plane/internal/tenants/service.go:136-191 | If no compensation fails, every tenant's realm is absent or holds exactly the bootstrap assets |
| `TenantLifecycle.ProvisioningOutcome` | services/control-plane/internal/tenants/service.go:138-179 | The provisioning saga ends with the realm fully built, or with no realm exactly when its compensation does not fail; no other realm is touched |
| `TenantLifecycle.StrandedBecomesActive` | services/control-plane/internal/tenants/service.go:206-257 | Why compensation has to succeed: a stranded tenant can be suspended and resumed into an active one with an empty realm |
| `TenantLifecycle.ProvisionedOnce` | services/control-plane/internal/tenants/store.go:43-51 | A slug whose provisioning once started is refused ever after |
| `TenantLifecycle.TenantsStay` | services/control-plane/internal/tenants/store.go:43-82 | Tenants are never removed from the registry |
| `TenantLifecycle.ForeignRealmsUntouched` | services/control-plane/internal/tenants/service.go:102-113 | A realm that is no tenant's is never changed |
| `TenantLifecycle.StepKeepsInv` | services/control-plane/internal/tenants/service.go:95-304 | One operation keeps the lifecycle invariant, and whole realms whole unless it strands one |
| `TenantOutcomes.SuspendOutcome` | services/control-plane/internal/tenants/service.go:206-230 | A tenant neither deleted nor being deleted becomes Suspended as of now, its realm disabled and otherwise the same, or the refusal due is returned and nothing changes |
| `TenantOutcomes.ResumeOutcome` | services/control-plane/internal/tenants/service.go:233-257 | The same for resuming a suspended tenant: Active, its realm enabled |
| `TenantOutcomes.DeleteOutcome` | services/control-plane/internal/tenants/service.go:265-304 | A deleted tenant has no realm and a retention of the longer of 365 days and the setting; refused by the provider it is Failed with its realm in place |
| `TenantOutcomes.SuspendThenResume` | services/control-plane/internal/tenants/service.go:206-257 | Suspending and resuming an active tenant gives back its realm, and the tenant but for the time of its update |
| `TenantOutcomes.ActiveCanBeSuspended` | services/control-plane/internal/tenants/service.go:206-230 | In every run an active tenant can be suspended unless the provider refuses: its realm is there |
| `TenantOutcomes.ProvisionOutcome` | services/control-plane/internal/tenants/service.go:95-203 | The first check that fails refuses and nothing changes; otherwise provisioning succeeds if and only if none of its nine calls fails: the tenant is Active, its realm has the named clients, mappers, role and user, its job Succeeded with five steps done; or else the tenant is Failed and the job Compensated, its log ending with the failed step |
| `Tenants.ValidSlugLacks` | services/control-plane/internal/tenants/slug.go:12-25 | A valid slug holds nothing but lower-case letters, digits and hyphens, so neither a slash nor an underscore |
| `Tenants.ValidSlugIff` | services/control-plane/internal/tenants/slug.go:12-25 | A slug is valid if and only if it matches the pattern of 3 to 40 characters and is not reserved |
| `Tenants.MemStore.CreateTenant` | services/control-plane/internal/tenants/store.go:43-51 | A tenant is stored unless its slug is taken |
| `Tenants.MemStore.UpdateTenant` | services/control-plane/internal/tenants/store.go:74-82 | Only an existing tenant is replaced |
| `Tenants.Service.ProvisionTenant` | services/control-plane/internal/tenants/service.go:95-203 | The registry, the jobs, the realms and the reply, for every outcome |
| `Tenants.Service.SuspendTenant` | services/control-plane/internal/tenants/service.go:206-230 | The same for suspending |
| `Tenants.Service.ResumeTenant` | services/control-plane/internal/tenants/service.go:233-257 | The same for resuming |
| `Tenants.Service.DeleteTenant` | services/control-plane/internal/tenants/service.go:265-304 | The same for deleting, with the retention floor; and before the realm goes, the organization's servers are purged |
| `Keycloak.MappersAdded` | services/control-plane/internal/tenants/service.go:148-152 | Adding all mappers of a client leaves exactly these on it and touches no other realm |
| `TenantIsolation.TenantNamesApart` | services/control-plane/internal/tenants/slug.go:12-25 | Tenants of any run have slash-free names apart from each other, which secret references and quota counters rest on |
| `TenantIsolation.TenantsDoNotDisturb` | services/gateway/internal/quota/quota.go:71-82 | So a tenant among tenants is rate-limited as if it were alone |
| `TenantIsolation.TenantsDoNotDisturbOverRedis` | services/gateway/internal/quota/redis.go:61-66 | The same over Redis, whenever that may fail to answer |
| `PoolSafety.RunKeepsInv` | services/sandbox-supervisor/internal/pool/pool.go:61-164 | In every run: warm and in use never exceed the maximum, every instance created is warm, in use or closed as often as it was created, and the warm ones are in order of last use |
| `PoolSafety.OnePlace` | services/sandbox-supervisor/internal/pool/pool.go:72-164 | An instance is in one place at most, and in exactly one if it was created |
| `PoolSafety.HeldByOne` | services/sandbox-supervisor/internal/pool/pool.go:87-120 | Between two hand-outs of one instance it was released |
| `PoolSafety.ClosedForGood` | services/sandbox-supervisor/internal/pool/pool.go:125-164 | Once closed, an instance is never handed out, in use or closed again |
| `PoolSafety.HandsOut` | services/sandbox-supervisor/internal/pool/pool.go:87-106 | What is handed out was neither in use nor closed |
| `PoolSafety.AcquiresMostRecent` | services/sandbox-supervisor/internal/pool/pool.go:90-95 | With a warm instance there, the one handed out is the most recently used |
| `PoolSafety.ReapClosesBlock` | services/sandbox-supervisor/internal/pool/pool.go:125-142 | What reaping closes is one contiguous block, all idle too long; it keeps as many before it as the minimum needs and everything recent after it, touches nothing in use, and the total does not fall below min(MinWarm, old total) |
| `PoolSafety.PrewarmReaches` | services/sandbox-supervisor/internal/pool/pool.go:72-83 | Prewarming reaches the minimum when the factory works |
| `PoolSafety.NormalSettings` | services/sandbox-supervisor/internal/pool/pool.go:61-69 | There is room as asked for, but for one at least, and as much is kept warm as asked for, but no more than there is room for |
| `PoolSafety.AcquireEffect` | services/sandbox-supervisor/internal/pool/pool.go:87-106 | Acquire succeeds if and only if an instance is warm, or there is room and the factory makes one; it takes the top of the stack or the new one, used now, and leaves the others; failing it changes nothing |
| `PoolSafety.ReleaseEffect` | services/sandbox-supervisor/internal/pool/pool.go:110-120 | An instance in use goes from there to the top of the stack, used now, all others staying where they are; one not in use is ignored |
| `PoolSafety.ReleasedIsAcquiredNext` | services/sandbox-supervisor/internal/pool/pool.go:87-120 | In every run, acquiring right after a release hands out the instance released, the rest of the pool being as it was before |
| `PoolSafety.CloseEffect` | services/sandbox-supervisor/internal/pool/pool.go:152-164 | Closing empties the pool and closes each instance, warm or in use, once for each place it was in |
| `PoolSafety.PrewarmEffect` | services/sandbox-supervisor/internal/pool/pool.go:72-83 | Prewarming puts what the factory yields on the stack, in order, no more than the minimum calls for, and ends with the minimum ready or the factory's first error |
| `Pool.Pool.constructor` | services/sandbox-supervisor/internal/pool/pool.go:61-69 | Room for at least one, and the minimum no larger than the room |
| `Pool.Pool.Prewarm` | services/sandbox-supervisor/internal/pool/pool.go:72-83 | The new pool, and success exactly when the minimum is there |
| `Pool.Pool.Acquire` | services/sandbox-supervisor/internal/pool/pool.go:87-106 | The new pool and the instance, or the error |
| `Pool.Pool.Release` | services/sandbox-supervisor/internal/pool/pool.go:110-120 | The instance goes on top of the stack; unknown ones are ignored |
| `Pool.Pool.Reap` | services/sandbox-supervisor/internal/pool/pool.go:125-142 | The new pool and the number closed |
| `Pool.Pool.Close` | services/sandbox-supervisor/internal/pool/pool.go:152-164 | Every instance, warm or in use, is closed once |
| `Aggregation.Aggregate` | services/gateway/internal/aggregate/aggregate.go:39-54 | The surface of the servers' tools merged in order |
| `Aggregation.KeepsFirsts` | services/gateway/internal/aggregate/aggregate.go:39-54 | The tools shown are the first of each name, in order, renamed and routed back, and no others |
| `Aggregation.MergeShowsFirsts` | services/gateway/internal/aggregate/aggregate.go:39-54 | Server by server and tool by tool in the order given, the tools shown are those whose namespaced name is new, renamed, with description and schema as they were, each routed to its own server and tool |
| `Aggregation.NamesAreRoutes` | services/gateway/internal/aggregate/aggregate.go:39-54 | The names shown are pairwise distinct and are the keys of the routing table |
| `Aggregation.ApartIff` | services/gateway/internal/aggregate/aggregate.go:43-43 | No tool of one server can have the namespaced name of a tool of another if and only if neither slug followed by the separator begins the other followed by it |
| `Aggregation.NothingLostIff` | services/gateway/internal/aggregate/aggregate.go:35-54 | Of servers with given slugs no tool is lost, whatever their tools, if and only if the slugs are pairwise apart |
| `Aggregation.NothingLost` | services/gateway/internal/aggregate/aggregate.go:35-54 | With slugs pairwise apart the number of tools shown is the sum of each server's distinct tool names |
| `Aggregation.EveryToolRouted` | services/gateway/internal/aggregate/aggregate.go:47-50 | With slugs pairwise apart every tool's name is routed to its own server and tool |
| `Aggregation.LosesOne` | services/gateway/internal/aggregate/aggregate.go:43-46 | With two slugs not apart there are tools of which one is lost, whatever the other slugs are |
| `Aggregation.ClearApart` | services/gateway/internal/aggregate/aggregate.go:43-43 | Different slugs that neither contain the separator nor end in an underscore are apart |
| `Aggregation.UnclearApart` | services/gateway/internal/aggregate/aggregate.go:43-43 | Others can be apart as well |
| `Aggregation.RoutesLeadBack` | services/gateway/internal/aggregate/aggregate.go:47-47 | Every route is to a tool of a server under the name that leads to it |
| `Aggregation.CutUndoes` | services/gateway/internal/mcp/handler.go:113-113 | Cutting a namespaced name at the separator gives back slug and tool if and only if the slug does not contain the separator nor end in an underscore |
| `Text.CutDivides` | services/gateway/internal/mcp/handler.go:113-113 | Cutting divides a name at the first separator, or leaves all of it before when there is none |
| `Aggregation.NamespacedInjective` | services/gateway/internal/aggregate/aggregate.go:43-43 | Namespaced names of clear slugs do not collide |
| `Aggregation.UnclearCollides` | services/gateway/internal/aggregate/aggregate.go:39-54 | A server whose slug is another's, the separator and more: two tools, of which the merged list shows one, routed to the server listed first |
| `McpHandler.ListCallAgree` | services/gateway/internal/mcp/handler.go:102-194 | Every tool name listed to a caller leads, when called, to the same instance with the tool's own name, whatever providers build by then, exactly when its slug is clear |
| `McpHandler.CallReachesVisible` | services/gateway/internal/mcp/handler.go:113-123 | A call reaches an instance only under a slug visible to the caller, and only within quota |
| `McpHandler.HiddenFromCalls` | services/gateway/internal/mcp/handler.go:115-122 | A server the caller may not use cannot be told from one that does not exist, by any call |
| `McpHandler.HiddenFromListing` | services/gateway/internal/mcp/handler.go:165-187 | Nor by any listing |
| `McpHandler.ToolsCall` | services/gateway/internal/mcp/handler.go:102-152 | The reply to a call and the registry after it |
| `McpHandler.AggregateTools` | services/gateway/internal/mcp/handler.go:158-194 | The surface listed and the registry after it, by one lookup after another in order |
| `McpHandler.ListingServersAreKept` | services/gateway/internal/mcp/handler.go:165-187 | The servers merged are exactly the visible ones whose instance, held or built now, lists its tools, in order of their slugs, each with the tools it lists |
| `McpHandler.EveryListedToolIsOffered` | services/gateway/internal/mcp/handler.go:165-187 | Every tool such a server lists is shown under its namespaced name, and with the visible slugs pairwise apart the name is routed to it |
| `McpHandler.FailingIsAsIfAbsent` | services/gateway/internal/mcp/handler.go:168-182 | A server that cannot be built or does not list its tools leaves the surface as if it were not registered |
| `McpHandler.ReachedServes` | services/gateway/internal/mcp/handler.go:165-187 | Listing leaves every user's view of every server as it was, and holds the instances it has looked up |
| `ToolAccess.ListedIffUsable` | services/gateway/internal/downstream/downstream.go:208-227 | In every state of every run a slug is listed to a caller exactly when the caller may use it, once, in order of first registration |
| `ToolAccess.RunListCallAgree` | services/gateway/internal/mcp/handler.go:102-194 | In every state of every run each tool name listed leads, when called, to the instance and the tool it was listed for, exactly when its slug is clear |
| `ToolAccess.CallsAnswerWhatWasAsked` | services/gateway/internal/mcp/handler.go:102-152 | Once every event of a faithful run is delivered, every call is answered as the requests so far call for: the instance of the server asked for, as defined, with the credentials last put, when it is open to the caller's roles, and else the refusal due |
| `ToolAccess.ListingsShowWhatWasAsked` | services/gateway/internal/mcp/handler.go:158-194 | Then each tool listed by a server that was asked for and is open to the caller is shown under its namespaced name, whatever the other servers do |

## Left out

- `RegistryProtocol.ExactlyOneStage`: does not say that an instance cached under interleaving was built by the current provider, because the commit checks only that some provider is registered; it holds when a lookup runs alone (`Downstream.Registry.GetForUser`).
- `Audit.DrawnIsPrefix`: says nothing of a log cut short at its end or hashed anew from some record on, which verification accepts.
- `S3Archive.PutRefines`: does not model a put that reports an error after the object was stored, nor more than one writer; retention locks are the store's own.
- `RedisQuota.RedisLimiter.Allow`: does not model a request that Redis counts and the gateway gives up on, nor clocks that differ between replicas.
- `Enforcers.RedisEnforcerRefines`: Redis answers a call at both levels or at neither.
- `Audit.AnyEditableIff`: of a record with a newline in its metadata it says only when it can be edited, not when it cannot, which depends on which lines of the metadata are numerals.
- `Tenants.Service.DeleteTenant`: the calendar is a parameter, and the purge, whose errors the code ignores, does not fail.
- `Enforcers.Enforcer.Allow`: the missing enforcer, which allows everything, is the within-quota argument of `McpHandler.ToolsCall`.
- `Pool.Pool.Acquire`: pooled instances are values, so sharing one record between the stack and the map in use is not modelled; the code moves it from one to the other.
- `Propagation.StepKeepsAgreement`: handlers are atomic steps; two handlers interleaving between their store write and their event are not modelled.
- Instances are what they are built from, the event and the credentials: how these become process environments and HTTP headers, the order of environment entries and header names are left out.
- HTTP routing, JSON but for audit records, authentication of tokens, role checks on the admin interface, tracing, metrics and log lines.
- The identity provider's wire protocol, Postgres with its row-level security, Vault, Redis and MinIO clients; each is a map, or a map with failing calls.
- The audit records written by the handlers, the error texts in jobs, and the tenant ceiling, which only logs.
- 64-bit overflow of counters, times and durations, except in the archive's keys.
- Sandbox processes, stdio pipes, remote sessions and the dialer's address checks.
- Invitations, the SCIM bridge and identity brokering, which are plain records kept and fetched.
- Probing of remote servers, the console, the design system and the isolation proofs.
