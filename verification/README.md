# A verified model of the PostgreSQL controller

The controller reconciles Kubernetes resources with three external stores: PostgreSQL catalogs, AWS IAM
policies, and the resource objects themselves. It does so with small statements, each of which may succeed,
be denied or fail. This project models that engine in Dafny and proves what every run, every failure point and
every iteration order keep.

`dafny verify dfyconfig.toml` checks all files together.

| file | models |
|---|---|
| `Strings.dfy` | a test shared by several modules |
| `Catalog.dfy` | one PostgreSQL database: layout, privileges, functions, and the statements that change them |
| `Grants.dfy` | `SyncDatabaseGrants`, wildcard expansion, `RevokeAllDatabaseGrants` |
| `FunctionNames.dfy` | the `<role>__<function>` naming scheme and its discovery filter |
| `Functions.dfy` | `SyncDatabaseFunctions` and `DropManagedFunctions` over overloads, owners and oids |
| `CustomRoleHost.dfy` | reconciling a custom role on one host |
| `CustomRoleCleanup.dfy` | cleaning a custom role up on one host |
| `Lifecycle.dfy` | the finalizer-guarded life of a `CustomRole` |
| `PolicyDocuments.dfy` | IAM policy documents and the encoding of user ids |
| `IamStore.dfy` | policies with a bounded number of versions, attachments, the client's retry |
| `IamUsers.dfy` | `EnsureUser` and `RemoveUser`: packing users into bounded documents |
| `Access.dfy` | access requests, resolved and grouped by host |
| `UserRoles.dfy` | role names, `rolesDiff`, `Role`, `SyncUser` |
| `DefaultPrivileges.dfy` | default privileges racing with `CREATE TABLE` |
| `Daemon.dfy` | the timer loop |

## How the outside world is modelled

- Every loop over a Go map or an unordered query result takes its elements in any order.
- A statement run by `execWithRole` is one step. It commits, is denied exactly when the acting role may not
  do it, or fails; a failure may hide a commit whose acknowledgement was lost. The same holds for calls to AWS.
- `reliable` says that no call fails (denials remain possible). Contracts without it hold for every pattern
  of failures; those with it say when a run must succeed.
- PostgreSQL knows a function by its argument types and shows it with its parameter names. What types and names an
  argument list has is an arbitrary function of its text.
- Which role may act for which owner, and which may create in the public schema, is fixed during a run. New oids are
  larger than old ones.
- The clock is read once in a grouping run. The set of hosts and the name of a custom role do not change.

## Where the code falls short of its purpose

The model follows the code. Each of these has a lemma at an input and the exact condition.

- The filter `NOT LIKE 'pg_%'` (`pkg/postgres/customrole_grants.go:501`) is after system schemas, but its underscore
  matches any character, so a user schema `pgq` is taken for one: `Grants.MisreadIsSkipped`, `Grants.WildcardCoversIff`.
- `rolesDiff` says that it revokes roles suffixed with `_read` or `_readwrite` (`pkg/postgres/postgres.go:176`), but
  asks for no underscore: `UserRoles.ControlledNeedsNoUnderscore`, `UserRoles.RevokedThoughUnaskable`.
- If a newer overload hides one with the wanted arguments, one run of `SyncDatabaseFunctions` may settle on the newer
  one: `Functions.RunFromHidden`, `Functions.FinalIsExactIff`. A second run is exact: `Functions.SyncTwice`.
- PostgreSQL refuses to replace a function with another return type or another parameter name, so a changed one is
  applied only together with a change of owner: `Functions.SignatureStays`, and `Functions.Unhindered` for when a run
  succeeds.
- It does let an unnamed parameter get a name. The run then takes the function it has just replaced for a stale one,
  because the listed identity arguments have no name, and drops it: `Functions.RunThatNames`,
  `Functions.FinalIsPresentIff`.
- A template database other than `template0` and `template1` can be targeted but is never cleaned up. After a grant or a
  function there the resource cannot be deleted: `CustomRoleCleanup.TemplateTargetBlocks`,
  `CustomRoleCleanup.FunctionInTemplateBlocks`, `CustomRoleCleanup.ReconciledIsCleanableIff`. On any host it can if and
  only if `CustomRoleCleanup.CleanupRoleOnHost` says so.
- A new IAM user is placed in every document with room, not in one (`pkg/iam/iam.go:56-67`):
  `IamUsers.TwoWithRoomListTwice`, `IamUsers.NewUserIsListedOnceIff`.
- The name of a new policy may be taken after a deletion (`pkg/iam/iam.go:73`): `IamUsers.DeletionCausesClash`,
  `IamUsers.NumberedIsPlaceable`.
- AWS does not delete a policy that has versions besides its default, and every update leaves one, so the last user of
  an updated policy cannot be removed: `IamUsers.LastUserStays`. Nor can a policy that a failed attempt has already
  detached, because detaching again is an error: `IamUsers.RemoveUser` has both in its exact condition.
- `SyncUser` says that excessive roles are removed (`pkg/grants/sync.go:14`), but it does not visit a host without an
  active access, so the last role there stays: `UserRoles.LastAccessLeavesRole`, `UserRoles.ExcessiveStaysIff`.
- A table whose creation spans a whole run of `setDefaultPrivileges` is missed:
  `DefaultPrivileges.SpanningTableIsMissed`, `DefaultPrivileges.TableIsMissedIff`.
- `go.mod` asks for Go 1.22, where a tick may land after `Stop` and the draining of the channel, and the next sync
  then starts at once: `Daemon.LateTickRushes`. The condition on a run is `Daemon.NoneLateIsSpaced`, with
  `Daemon.LateTickCanRush` as its converse.

An empty list of user databases comes back as nil and is read as all-databases mode
(`internal/controller/customrole_functions.go:20`). `CustomRoleHost.ReconcileOnHost` shows that the outcome is the same.

## Model

| member | source | states |
|---|---|---|
| `Catalogs.Catalog.ExecWithRole` | pkg/postgres/customrole.go:47-61 | a privilege statement in an owner's name commits as a whole or leaves everything as it was, and touches no other role |
| `Catalogs.Catalog.RevokeAllTables` | pkg/postgres/customrole_grants.go:453-462 | the bulk revoke removes every table privilege of the schema if the acting role may act on all its tables, and otherwise is denied |
| `Catalogs.Catalog.CreateOrReplace` | pkg/postgres/customrole_functions.go:262-269 | needs CREATE on the public schema and, for an existing function, to act for its owner, with the same return type and no parameter renamed; an existing function keeps oid, owner and privileges, a new one gets a larger oid, its creator as owner and EXECUTE for PUBLIC |
| `Grants.ResolveSchemas` | pkg/postgres/customrole_grants.go:488-517 | a wildcard yields exactly the non-system schemas, a name itself if it exists |
| `Grants.MisreadIff` | pkg/postgres/customrole_grants.go:499-502 | the filter takes for a system schema, besides the reserved ones, exactly those named "pg" and another character than an underscore |
| `Grants.WildcardCoversIff` | pkg/postgres/customrole_grants.go:484-517 | a wildcard covers every schema that is not reserved if and only if none is misread like that |
| `Grants.MisreadIsSkipped` | pkg/postgres/customrole_grants.go:243-264 | such a schema is left out by a wildcard and skipped where it is named; "pgq" is one |
| `Grants.ResolveTables` | pkg/postgres/customrole_grants.go:322-352 | exactly the tables of the schema that match the pattern |
| `Grants.ExpandGrants` | pkg/postgres/customrole_grants.go:357-389 | the result is exactly the declarative meaning of the grants: every (schema, table, privilege) that some grant asks for |
| `Grants.DesiredIff` | pkg/postgres/customrole_grants.go:322-389 | what grants ask for, in the words of the spec: an omitted or starred schema is every schema that is not a system schema, an omitted or starred table every table, any other pattern that name; privileges in either case |
| `Grants.ValidPrivilegesIff` | pkg/postgres/customrole_grants.go:26-50 | exactly the seven keywords are accepted, in either case, and an empty list is not |
| `Grants.Batch` | pkg/postgres/customrole_grants.go:146-153 | grouping by table neither loses nor adds a privilege |
| `Grants.GrantUsagePhase` | pkg/postgres/customrole_grants.go:123-144 | all missing USAGE that can be granted is granted, every statement boundary is safe, and a denial is skipped |
| `Grants.GrantTablesPhase` | pkg/postgres/customrole_grants.go:146-176 | the same for the missing table privileges |
| `Grants.RevokeTablesPhase` | pkg/postgres/customrole_grants.go:178-213 | the same for the table privileges no longer wanted |
| `Grants.RevokeUsagePhase` | pkg/postgres/customrole_grants.go:215-236 | the same for USAGE no longer wanted |
| `Grants.SyncDatabaseGrants` | pkg/postgres/customrole_grants.go:73-239 | rejects exactly the invalid specs before any change; a finished run leaves every object the controller can act on with exactly the wanted privileges; at every statement boundary, also of an aborted run, the role holds between current∩desired and current∪desired, nothing is revoked before everything is granted, objects the controller cannot act on are unchanged, table privileges keep their USAGE wherever a run can keep it, and no other role changes; only a failed call aborts |
| `Grants.StageIsSafe` | pkg/postgres/customrole_grants.go:64-72 | the order of the four phases alone makes every intermediate state free of an outage window |
| `Grants.AllStagesSettle` | pkg/postgres/customrole_grants.go:123-236 | the four phases together reach the settled state |
| `Grants.SettledIsExact` | pkg/postgres/customrole_grants.go:64-67 | with nothing skipped the role ends with exactly the wanted privileges and the USAGE they need |
| `Grants.SettledCoversIff` | pkg/postgres/customrole_grants.go:123-236 | usable table privileges stay usable in a schema if and only if its USAGE can be granted while wanted and all its table privileges can be revoked when not; in particular wherever nothing is skipped |
| `Grants.SafeAgain` | pkg/postgres/customrole_grants.go:123-236 | a repeated run after a finished one adds only safe states |
| `Grants.SettledIsStable` | pkg/postgres/customrole_grants.go:123-236 | a second run has nothing to do in any phase |
| `Grants.BatchedEqualsSingle` | pkg/postgres/customrole_grants.go:146-213 | batches by table give the same result as one statement for each privilege in any order |
| `Grants.BulkRevoke` | pkg/postgres/customrole_grants.go:437-463 | trying the bulk revoke as every owner removes the privileges of the schema if and only if one of them may act on all its tables |
| `Grants.BulkOpenIff` | pkg/postgres/customrole_grants.go:437-463 | such an owner is one that owns the schema or a table in it, that the controller may act as, and that acts for the owners of all its tables |
| `Grants.ClearedLeavesOnlyMixed` | pkg/postgres/customrole_grants.go:417-482 | of the visible privileges on existing tables a finished cleanup leaves only those where the owner cannot be acted as or another table of the schema has another owner |
| `Grants.ClearSchema` | pkg/postgres/customrole_grants.go:434-480 | what one round of the cleanup leaves, and that a stop in the middle cuts no privilege off from its USAGE |
| `Grants.RevokeAllDatabaseGrants` | pkg/postgres/customrole_grants.go:420-482 | a finished cleanup leaves exactly what it could not see or was denied; a stopped one has removed nothing else and can be repeated; only a failed call stops it; where all tables of a visible schema have one owner, who can be acted as, no table privilege is left |
| `Grants.ClearedIsEmptyIff` | pkg/postgres/customrole_grants.go:417-482 | cleanup leaves nothing if and only if every table privilege comes with USAGE and some owner may act on all tables of its schema, and all USAGE can be revoked |
| `Grants.ClearingKeepsClearable` | pkg/postgres/customrole_grants.go:420-482 | an attempt, finished or not, changes nothing about whether cleanup can remove everything |
| `Grants.SyncKeepsClearableIff` | pkg/postgres/customrole_grants.go:73-239 | after a finished sync cleanup can still remove everything if and only if wanted tables that can be granted on lie in schemas that it can deal with, and no privilege that cannot be revoked loses its USAGE |
| `Grants.SafeKeepsClearable` | pkg/postgres/customrole_grants.go:73-239 | under that condition the same holds wherever a sync stopped |
| `FunctionNames.ManagedIff` | pkg/postgres/customrole_functions.go:109-148 | the names found for a role are exactly the role, two underscores, and a name in which there are not two in a row |
| `FunctionNames.CreatedIsFound` | pkg/postgres/customrole_functions.go:109-148 | a function is found again by its role's filter if and only if its name has no separator, and its name can be read back |
| `FunctionNames.SharedNameMeansUnderscore` | pkg/postgres/customrole_functions.go:109-148 | roles that share a managed name are equal or differ by one trailing underscore |
| `FunctionNames.NameSetsIntersectIff` | pkg/postgres/customrole_functions.go:109-148 | the managed name sets of two roles intersect if and only if the names are equal or differ by one trailing underscore |
| `FunctionNames.UnderscoreNeighbour` | pkg/postgres/customrole_functions.go:139-148 | which functions of such a neighbour the filter takes for its own |
| `Functions.ManagedFunctions` | pkg/postgres/customrole_functions.go:139-162 | exactly the managed functions, each with its types, parameter names and owner, in any order |
| `Functions.NewestArgs` | pkg/postgres/customrole_functions.go:272-282 | the types and parameter names of the overload with the highest oid |
| `Functions.FirstOwners` | pkg/postgres/customrole_functions.go:226-234 | every listed name gets the owner of one of its overloads |
| `Functions.Create` | pkg/postgres/customrole_functions.go:250-269 | on an owner change the wanted overload is dropped first; then it is created or replaced; no other name is touched |
| `Functions.Guard` | pkg/postgres/customrole_functions.go:284-315 | owner as resolved, EXECUTE for the role, none for PUBLIC, and nothing else changed |
| `Functions.SyncOne` | pkg/postgres/customrole_functions.go:237-318 | after one round the name's overload is the wanted one if and only if the owner changed or no newer overload hid it; with the needed permissions the round succeeds |
| `Functions.NextRound` | pkg/postgres/customrole_functions.go:237-318 | rounds for distinct names do not disturb each other |
| `Functions.DropStale` | pkg/postgres/customrole_functions.go:320-333 | exactly the listed functions that are not wanted go, each as its listed owner; it succeeds only if the controller may act as all of those, and without failures always if they are still the owners |
| `Functions.SyncDatabaseFunctions` | pkg/postgres/customrole_functions.go:185-336 | rejects exactly the invalid specs before any change; a finished run leaves, from any state, at most one guarded overload for each wanted name and no other managed function; with the owners the server listed first, an overload is there if and only if the run did not rename its parameters, and the functions are exactly the spec if and only if it also landed on every wanted overload; functions of others are untouched; a run that finishes may own all it was asked for, and where nothing is denied or refused only a failed call aborts; every function under a wanted name belongs to the database owner, the controller's role for the sentinel, or the role the spec names, and the custom role may execute it but PUBLIC may not |
| `Functions.ValidFieldsIff` | pkg/postgres/customrole_functions.go:360-386 | a spec is rejected for an empty name, return type or body, or two underscores in a row in the name |
| `Functions.TidyIsServed` | pkg/postgres/customrole_functions.go:237-315 | owner and privileges of what a finished run leaves, in the words of the spec |
| `Functions.ExactIff` | pkg/postgres/customrole_functions.go:185-336 | exact means that every function is there under its managed name and the types of its arguments, with parameter names, return type, body, owner and privileges as written, and no other function of the role |
| `Functions.FinalIsTidy` | pkg/postgres/customrole_functions.go:220-333 | at most one overload for each wanted name, guarded, and no other managed function, from any state with leftovers |
| `Functions.FinalIsPresentIff` | pkg/postgres/customrole_functions.go:220-333 | an overload of a wanted name is left if and only if the run did not land on one whose parameters it renamed |
| `Functions.FinalIsExactIff` | pkg/postgres/customrole_functions.go:220-333 | the result is exact if and only if for every function no parameter is renamed, and nothing newer hides the wanted overload or the owner listed first is another one |
| `Functions.LandsUnlessHidden` | pkg/postgres/customrole_functions.go:226-282 | whatever the order of the listing: a run lands if nothing hides the overload or no overload has the resolved owner, and does not if it is hidden and all have it |
| `Functions.MixedOwnersAreOpen` | pkg/postgres/customrole_functions.go:226-260 | with mixed owners a hidden overload leaves the outcome to the order of the listing, which the query does not fix |
| `Functions.HiddenOverloadNeedsTwoRuns` | pkg/postgres/customrole_functions.go:226-333 | from a hidden overload with its owner unchanged no single run is exact |
| `Functions.RunFromHidden` | pkg/postgres/customrole_functions.go:226-333 | for every function that can be created there is a state with a hidden overload, and every run from there without failures succeeds and is not exact |
| `Functions.UnhiddenIsExact` | pkg/postgres/customrole_functions.go:185-336 | with no parameter renamed every name has one overload, and one run is exact if also no wanted overload is hidden or all overloads of its name have other owners; an exact run renamed nothing |
| `Functions.SignatureStays` | pkg/postgres/customrole_functions.go:250-269 | no run succeeds that would change the return type, or a parameter name that is not empty, of a function that already has the resolved owner |
| `Functions.RenamedIsGone` | pkg/postgres/customrole_functions.go:272-333 | where nothing hides it, a function with a renamed parameter is gone after a run that succeeds: it is dropped under its old identity |
| `Functions.RunThatNames` | pkg/postgres/customrole_functions.go:262-333 | from a state in which the parameters have no names yet, every run without failures that names one succeeds and leaves no such function |
| `Functions.TidyIsUnrenamed` | pkg/postgres/customrole_functions.go:220-333 | after a run no wanted overload is hidden and no parameter differs, so the next one is exact |
| `Functions.ReachedIsTrusted` | pkg/postgres/customrole_functions.go:250-333 | the controller may act as the owner of every managed function that a run leaves |
| `Functions.OneEachIsReady` | pkg/postgres/customrole_functions.go:220-333 | with at most one overload of each name nothing is hidden |
| `Functions.ExactIsOneEach` | pkg/postgres/customrole_functions.go:220-333 | an exact state has at most one overload of each name again |
| `Functions.SyncTwice` | pkg/postgres/customrole_functions.go:185-336 | two successful runs converge from any state, across argument, parameter name and owner changes; every function is then there as it is written |
| `Functions.ReachedTwice` | pkg/postgres/customrole_functions.go:185-336 | a second successful run is exact wherever the first one started |
| `Functions.DropManagedFunctions` | pkg/postgres/customrole_functions.go:342-358 | no managed function is left and none of others is touched; without failures it succeeds if and only if the controller may act as every owner, and an attempt, finished or not, changes nothing about that |
| `Functions.OtherRoleKept` | pkg/postgres/customrole_functions.go:109-148 | syncing or dropping leaves other roles' functions alone, unless the role names differ by one trailing underscore |
| `CustomRoleHost.UserDatabases` | pkg/postgres/customrole.go:21-42 | exactly the databases that are no template, not postgres and not rdsadmin |
| `CustomRoleHost.ResolveTargetDatabases` | internal/controller/customrole_controller.go:223-243 | the databases in scope: all user databases, or the listed ones without the reserved ones; and the complement to clean |
| `CustomRoleHost.ScopeIff` | internal/controller/customrole_controller.go:223-243 | in scope are the listed databases but rdsadmin, template0 and template1, or, with none listed, all but templates, postgres and rdsadmin; out of scope are the other ones for users, and postgres |
| `CustomRoleHost.SyncGrantsOnList` | internal/controller/customrole_grants.go:19-26 | exactly the listed databases that are not skipped get a finished sync; wherever it stops, holdings there were safe after every statement and the other databases are as before |
| `CustomRoleHost.ReconcileGrantsOnHost` | internal/controller/customrole_grants.go:16-46 | wanted grants where targeted, none in other databases to clean, postgres untouched; wherever it stops, every database was safe after every statement, other roles included |
| `CustomRoleHost.SyncFunctionsOnDatabase` | internal/controller/customrole_functions.go:66-85 | the outcome of the function sync of one database, from any state; no other database changes |
| `CustomRoleHost.ReconcileFunctionsOnHost` | internal/controller/customrole_functions.go:19-64 | for each database by itself, in both modes: at most one guarded overload of each wanted name where targeted, one if its parameters were not renamed, and exactly the spec there if also no wanted overload is hidden; none at all in postgres and the other databases to clean; wherever it stops, nothing else changes |
| `CustomRoleHost.EnsureCustomRole` | pkg/postgres/customrole_roles.go:16-76 | the role exists with exactly the given memberships; stopped anywhere, it has kept what stays and gained nothing else |
| `CustomRoleHost.ReconcileOnHost` | internal/controller/customrole_controller.go:180-215 | after success: memberships, grants and functions are placed in scope and absent out of scope, for both modes and each database by itself; wherever it stops: no outage in any database, memberships that stay are kept and no others gained, other roles' privileges and memberships, other functions and other databases untouched; valid specs succeed when nothing fails, is denied or refused |
| `CustomRoleHost.ReconcileTwice` | internal/controller/customrole_controller.go:180-215 | two successful runs make every database in scope exact and every other one free of managed functions, from any state |
| `CustomRoleHost.UnskippedIsExact` | internal/controller/customrole_controller.go:180-243 | with nothing skipped every database in scope has exactly the wanted privileges, every other user database none, and postgres and reserved databases are unchanged |
| `CustomRoleCleanup.CleanDatabase` | internal/controller/customrole_roles.go:45-71 | cleaning one database: no managed function left, and what the revoke leaves; stopped anywhere, only what the role holds and its managed functions have become less |
| `CustomRoleCleanup.DropCustomRole` | pkg/postgres/customrole_roles.go:101-110 | the role is dropped only when nothing in any database depends on it |
| `CustomRoleCleanup.TiesIff` | pkg/postgres/customrole_roles.go:101-110 | what depends on a role: a table privilege, USAGE, or a function that it owns or may execute |
| `CustomRoleCleanup.CleanupRoleOnHost` | internal/controller/customrole_roles.go:29-80 | without failures the role is removed if and only if cleanup can remove all that depends on it and the controller may act as the owner of each of its managed functions; with failures it is removed only then; no attempt changes either condition; only what the role holds and its managed functions go |
| `CustomRoleCleanup.CleanupKeepsCleanable` | internal/controller/customrole_roles.go:29-80 | whether a role can be cleaned up, and whether all owners can be acted as, does not depend on earlier attempts |
| `CustomRoleCleanup.ReconcileKeepsCleanable` | internal/controller/customrole_controller.go:180-243 | reconciliation of user databases and postgres, finished or stopped anywhere, leaves nothing that cleanup could not remove, if wanted schemas are open to cleanup and privileges without a way to revoke them keep their USAGE |
| `CustomRoleCleanup.ReconciledIsCleanableIff` | internal/controller/customrole_controller.go:180-243 | after success on any targets the role can be cleaned up if and only if that condition holds and no target that cleanup never visits gets a grant or a function; where such a target already has a wanted function with other parameter names, each half is stated |
| `CustomRoleCleanup.UnvisitedIsCleanableIff` | internal/controller/customrole_controller.go:223-243 | the same for one target that cleanup never visits, a template database other than the standard ones |
| `CustomRoleCleanup.VisitedIsCleanableIff` | internal/controller/customrole_controller.go:180-243 | the same for one database that it does visit |
| `CustomRoleCleanup.ReconciledIsTrusted` | internal/controller/customrole_controller.go:180-243 | after success the controller may act as the owner of every managed function to clean up |
| `CustomRoleCleanup.TemplateTargetBlocks` | internal/controller/customrole_controller.go:223-243 | a grant made in a targeted template database other than the standard ones, if only of USAGE, makes the role impossible to clean up |
| `CustomRoleCleanup.FunctionInTemplateBlocks` | internal/controller/customrole_controller.go:223-243 | so does a function alone |
| `CustomRoleCleanup.UntargetedTemplateBlocks` | internal/controller/customrole_controller.go:223-243 | taking that database out of the targets does not help |
| `CustomRoleCleanup.FreedHasNoTies` | internal/controller/customrole_roles.go:29-80 | cleaned user databases and postgres together meet the precondition of DROP ROLE |
| `Lifecycle.EveryRunIsGuarded` | internal/controller/customrole_controller.go:139-178 | in every run of creations, deletions, reconciles and failures, a role on any host implies that the resource exists and carries the finalizer; a missing resource implies that no host has the role |
| `Lifecycle.FinalizerOutlivesRoles` | internal/controller/customrole_controller.go:141-153 | the finalizer is given up only on deletion and only when no host has the role |
| `Lifecycle.ResourceGoesIff` | internal/controller/customrole_controller.go:139-153 | a resource goes exactly with a write that leaves it deleted and without any finalizer, so never before other controllers' finalizers |
| `Lifecycle.RolesCanBeApplied` | internal/controller/customrole_controller.go:155-178 | whatever happened before, a resource that is not being deleted can still get its finalizer and the role on every host |
| `Lifecycle.CleanupCanFinish` | internal/controller/customrole_roles.go:20-27 | however many attempts stopped half way, cleanup can be taken up again and finish as long as no host is stuck with a role that cannot be dropped |
| `Lifecycle.StuckStays` | internal/controller/customrole_roles.go:20-27 | while a host is stuck, no attempts remove the resource or its finalizer |
| `Lifecycle.CleanupCanFinishIff` | internal/controller/customrole_controller.go:139-153 | a resource being deleted can go, by attempts of the controller alone, if and only if no host is stuck with a role that `CleanupRoleOnHost` can never remove |
| `Lifecycle.DeletionCanHang` | internal/controller/customrole_controller.go:139-178 | a run into such a deletion |
| `PolicyDocuments.DecodeEncoded` | pkg/iam/policy.go:41-49 | decoding an encoded user name gives it back |
| `PolicyDocuments.EncodeDecodedIff` | pkg/iam/policy.go:41-49 | encoding a decoded id gives it back if and only if it has the written form |
| `PolicyDocuments.DecodesIff` | pkg/iam/policy.go:41-49 | what any id decodes to: the prefix "*:" and the suffix "@lunar.app" go, each where it is there |
| `PolicyDocuments.ResourceSplitsIff` | pkg/iam/policy.go:115-117 | split at its colons the resource has the parts of an rds-db ARN, region before account, if and only if neither of the two has a colon |
| `PolicyDocuments.NewEntryAdmits` | pkg/iam/policy.go:106-117 | a new entry allows rds-db:connect on that one ARN for the user's id |
| `PolicyDocuments.AdmittedIsDecoded` | pkg/iam/policy.go:41-49 | the user of such an entry is read back from it |
| `PolicyDocuments.PolicyDocument.ListUsers` | pkg/iam/policy.go:51-59 | the decoded user of every statement, in order |
| `PolicyDocuments.PolicyDocument.Exists` | pkg/iam/policy.go:61-66 | true if and only if some statement is the user's |
| `PolicyDocuments.PolicyDocument.Add` | pkg/iam/policy.go:72-75 | one statement more, at the end |
| `PolicyDocuments.PolicyDocument.Update` | pkg/iam/policy.go:79-104 | every statement of the user carries the expected resource, all others keep their place; reports a change exactly when there was one |
| `PolicyDocuments.PolicyDocument.Remove` | pkg/iam/policy.go:119-131 | the document without the user's statements |
| `PolicyDocuments.WithoutKeepsOthers` | pkg/iam/policy.go:119-131 | removal keeps exactly the statements of others, and changes nothing if and only if the user is not listed |
| `PolicyDocuments.WithoutConcat` | pkg/iam/policy.go:119-131 | removal keeps the order of statements |
| `PolicyDocuments.WithoutAdded` | pkg/iam/policy.go:72-131 | adding a new user and removing it restores the document |
| `PolicyDocuments.WithoutUpdated` | pkg/iam/policy.go:79-104 | an update touches no statement of another user |
| `IamStores.IamStore.CreatePolicyVersion` | pkg/iam/client.go:316-321 | a new default version below the quota, LimitExceeded at it |
| `IamStores.IamStore.DeleteOldPolicyVersions` | pkg/iam/client.go:129-163 | never touches the default version; if every deletion succeeds only the default is left |
| `IamStores.IamStore.UpdatePolicy` | pkg/iam/client.go:306-341 | keeps between one and the quota of versions, keeps the old default version stored, ends with the new document as default on success, and with a quota of two or more and succeeding deletions never ends with a quota failure; with a quota of one never succeeds |
| `IamStores.IamStore.Updates` | pkg/iam/client.go:306-341 | over every sequence of updates the default is the last document written, with no quota failure as above |
| `IamStores.IamStore.AttachPolicy` | pkg/iam/client.go:215-237 | attaches this policy to this role and changes no other attachment |
| `IamStores.IamStore.DeleteAndDetachPolicy` | pkg/iam/client.go:261-295 | deletes only this policy, keeps the attachments of all others, and without failures succeeds on an existing policy if and only if it has no version besides its default and is attached to exactly the given roles |
| `IamUsers.ListPolicies` | pkg/iam/client.go:43-69 | every policy with its current document, none sharing it, in any order |
| `IamUsers.Lookup` | pkg/iam/iam.go:28-36 | a user is known if and only if some stored id decodes to its name |
| `IamUsers.UpdatePolicies` | pkg/iam/iam.go:122-136 | on success the store has the documents in memory; an error does not stop the others; every write leaves each document old or new |
| `IamUsers.UpdateOne` | pkg/iam/iam.go:37-53 | one turn of the loop for a known user |
| `IamUsers.PlaceOne` | pkg/iam/iam.go:56-67 | one turn of the loop for a new user: one statement more if there is room |
| `IamUsers.EnsureInExisting` | pkg/iam/iam.go:35-68 | all existing documents end as specified, and the user is handled if and only if some document took it |
| `IamUsers.CreateForUser` | pkg/iam/iam.go:71-84 | a document of its own, unless the new name is taken |
| `IamUsers.AttachPolicyToLoginRoles` | pkg/iam/iam.go:104-120 | every given policy is attached to every login role, and none detached |
| `IamUsers.CreateAndAttach` | pkg/iam/iam.go:70-101 | a document of its own for a user that none took, then everything attached; changes no document of a handled user |
| `IamUsers.EnsureUser` | pkg/iam/iam.go:20-102 | on success the documents are the specified ones and all are attached to the login roles; after every write, also of a failed call, each document is the old or the new one; fails only through a failed call, a quota of one or a taken name; every entry written allows rds-db:connect on the ARN of the role for this user, every entry of the user names that ARN, and a new policy is named by the number of policies before |
| `IamUsers.EnsuredAdmits` | pkg/iam/iam.go:20-102 | that this holds of the specified documents |
| `IamUsers.DecimalIsNumber` | pkg/iam/iam.go:73-75 | the number in the name is in decimal digits without a leading zero |
| `IamUsers.RemoveUser` | pkg/iam/iam.go:138-163 | on success no document lists the user and emptied ones are gone; after every write each document is the old or the new one; without failures it succeeds if and only if every emptied policy has no version besides its default and is attached to exactly the given roles |
| `IamUsers.LastUserStays` | pkg/iam/iam.go:138-163 | with two users added and removed again the last removal fails although no call fails for reasons of its own |
| `IamUsers.EnsuredCarries` | pkg/iam/iam.go:20-102 | the user is listed, with the expected resource in every one of its statements |
| `IamUsers.EnsuredKeepsOthers` | pkg/iam/iam.go:35-89 | all statements of other users stay as they are, in order |
| `IamUsers.EnsuredTwice` | pkg/iam/iam.go:20-102 | a second call changes nothing |
| `IamUsers.NewUserIsListedIn` | pkg/iam/iam.go:56-84 | a new user is listed in every document that had room, or else in one of its own |
| `IamUsers.NewUserIsListedOnceIff` | pkg/iam/iam.go:56-84 | exactly one document lists a new user if and only if at most one had room |
| `IamUsers.TwoWithRoomListTwice` | pkg/iam/iam.go:56-67 | with two documents that have room it is listed in both |
| `IamUsers.EnsureThenRemove` | pkg/iam/iam.go:35-163 | for a new user, ensuring and removing restores every document exactly if and only if no empty document took the user |
| `IamUsers.EnsuredIsGood` | pkg/iam/iam.go:20-102 | no document gets over the maximum or lists a user twice |
| `IamUsers.RemovedIsGood` | pkg/iam/iam.go:138-163 | no document is left empty |
| `IamUsers.FirstUserFitsIff` | pkg/iam/iam.go:70-79 | the maximum is kept from the first user on if and only if it is at least one |
| `IamUsers.KnownIsPresent` | pkg/iam/iam.go:28-40 | with ids this program wrote, looking up by decoded name and by encoded id agree |
| `IamUsers.NumberedIsPlaceable` | pkg/iam/iam.go:70-79 | while policies are numbered without a gap the new name is free |
| `IamUsers.DeletionCausesClash` | pkg/iam/iam.go:73-75 | a deletion makes the next new name clash |
| `IamUsers.Serve` | pkg/iam/iam.go:20-163 | over every sequence of calls from an empty account, with failures anywhere, no write ever leaves a document empty, over the maximum, or listing a user twice |
| `Access.GroupAccesses` | pkg/grants/grants.go:38-57 | a stable partition of the flat expansion, reads then writes: each host's list is the in-order selection of its entries, none is empty; an error is reported if and only if some request fails |
| `Access.GroupByHosts` | pkg/grants/grants.go:92-159 | appends exactly the expansion of the requests, with the privilege of each index, and fails if and only if one of them fails |
| `Access.GroupOne` | pkg/grants/grants.go:94-157 | what one request contributes: nothing out of its time window, without its flag or unresolved |
| `Access.GroupAllDatabasesByHost` | pkg/grants/grants.go:162-211 | one entry for every running, resolvable database of the host, in order |
| `Access.GroupDatabase` | pkg/grants/grants.go:173-205 | what one database contributes, with its own name as schema if the user has none |
| `Access.MapToAccessSpec` | pkg/grants/grants.go:81-87 | the specs of the writes, index by index |
| `Access.FlatConcat` | pkg/grants/grants.go:92-159 | no request affects what another contributes |
| `Access.UnresolvableIsAbsent` | pkg/grants/grants.go:108-147 | a request that cannot be resolved removes no other's entry |
| `Access.UnresolvableDatabaseIsAbsent` | pkg/grants/grants.go:173-205 | nor does a database that cannot be resolved |
| `Access.FlatIff` | pkg/grants/grants.go:92-211 | exactly which entries the expansion holds, in terms of time window, flags and resolution |
| `Access.EntryIff` | pkg/grants/grants.go:38-211 | exactly which entries the reads and writes of a user expand to, in the words of the spec: the time window, the flags, the resolved values, the user's name or the database's as schema, and the privilege |
| `Access.ForHostIff` | pkg/grants/grants.go:148-156 | an entry stands in the list of its host and in no other |
| `UserRoles.RoleNameIsInjective` | pkg/postgres/postgres.go:140-159 | two requests share a role if and only if schema (after the rewrite of public) and privilege agree |
| `UserRoles.GivesIff` | pkg/postgres/postgres.go:140-159 | the role of an entry: the schema, or for public in any case the database, with _read for readers, _readwrite for writers and _readowningwrite for owning ones; none for an unknown privilege |
| `UserRoles.ExpectedIff` | pkg/postgres/postgres.go:138-159 | the diff expects the static roles and those |
| `UserRoles.ControlledIff` | pkg/postgres/postgres.go:176-190 | it revokes only names that end in read, readwrite or readowningwrite |
| `UserRoles.RoleNameIsControlled` | pkg/postgres/postgres.go:176-190 | every role that a request asks for can be revoked again |
| `UserRoles.AskableIff` | pkg/postgres/postgres.go:140-159 | the roles that some request can ask for are exactly those that end in an underscore and one of the suffixes |
| `UserRoles.RevokedThoughUnaskable` | pkg/postgres/postgres.go:170-195 | the roles revoked although no request can ask for them are exactly those held, not static, that end in a suffix without its underscore |
| `UserRoles.ControlledNeedsNoUnderscore` | pkg/postgres/postgres.go:176-190 | "spread" is a role that is revoked although no request can ask for it |
| `UserRoles.Contains` | pkg/postgres/postgres.go:200-207 | true if and only if the role is listed |
| `UserRoles.RolesDiff` | pkg/postgres/postgres.go:138-198 | exactly the expected roles that are missing, and exactly the controlled ones that are not expected |
| `UserRoles.Cluster.Role` | pkg/postgres/postgres.go:98-134 | on success static roles, one role for each access, and prior uncontrolled ones; after every statement no kept role is missing, no other one there, and nothing revoked before everything is granted; only a failed call stops it |
| `UserRoles.SyncedTwice` | pkg/postgres/postgres.go:138-198 | after a sync the diff is empty |
| `UserRoles.DatabaseSchemas` | pkg/grants/sync.go:116-126 | the schemas of the accesses, in order |
| `UserRoles.ConnectToHosts` | pkg/grants/sync.go:58-84 | relies on non-empty lists; succeeds only if every host has credentials and can be reached |
| `UserRoles.SetRolesOnHosts` | pkg/grants/sync.go:97-114 | an error on one host does not stop the others; every host is on the way to its goal |
| `UserRoles.SyncUser` | pkg/grants/sync.go:16-56 | on success the goal is reached on every host of the grouped accesses; always every host is on the way to it, and other hosts and users are untouched; succeeds unless a call fails, credentials are missing, or all requests fail |
| `UserRoles.GoalIff` | pkg/grants/sync.go:16-56 | the goal in terms of the requests: static roles, one for each access active now, and uncontrolled prior memberships |
| `UserRoles.GoalFromSpecIff` | pkg/grants/sync.go:16-56 | the same from the user's spec alone |
| `UserRoles.ReadersGainNoWrite` | pkg/grants/sync.go:16-56 | without a write access in its time window no run, wherever it stops, gives the user a role to write that is not static |
| `UserRoles.SyncAgainIsQuiet` | pkg/grants/sync.go:16-56 | a repeated run changes nothing, wherever it stops |
| `UserRoles.HasAccessIff` | pkg/grants/sync.go:29-38 | the hosts visited are exactly those that some active request resolves to |
| `UserRoles.ExcessiveStaysIff` | pkg/grants/sync.go:13-56 | after success a controlled role that is neither static nor asked for is on a host if and only if it was there and no active request resolves to that host |
| `UserRoles.LastAccessLeavesRole` | pkg/grants/sync.go:13-56 | a user given one access and then none keeps the role, although both runs succeed |
| `DefaultPrivileges.EveryRunIsExact` | pkg/postgres/database.go:349-369 | in every interleaving the privileges on a table are exactly those of the roles whose statements reached it |
| `DefaultPrivileges.EveryRunIsInOrder` | pkg/postgres/database.go:349-369 | no role is granted existing tables before its defaults were altered |
| `DefaultPrivileges.ProgramAltersFirst` | pkg/postgres/database.go:274-290 | the statements for the three roles come in that order |
| `DefaultPrivileges.HasIff` | pkg/postgres/database.go:341-347 | the privileges meant: SELECT, and for the two roles for writers INSERT, UPDATE and DELETE too |
| `DefaultPrivileges.NothingElseIsGranted` | pkg/postgres/database.go:341-369 | in no run does a reader get anything but SELECT, or a writer anything else |
| `DefaultPrivileges.TablesBegunLaterAreCovered` | pkg/postgres/database.go:349-358 | after a completed run every new table, in public too, has them from the start |
| `DefaultPrivileges.TableIsMissedIff` | pkg/postgres/database.go:349-369 | after a completed run a table of the service schema lacks a role's privileges if and only if its creation began before the defaults were first altered and was committed after the last grant |
| `DefaultPrivileges.SpanningTableIsMissed` | pkg/postgres/database.go:274-290 | a run of the statements in which every role misses a table |
| `DefaultPrivileges.TablesCreatedAtOnceAreCovered` | pkg/postgres/database.go:274-290 | so every table created in one step has them, whenever that was |
| `DefaultPrivileges.PublicTablesIff` | pkg/postgres/database.go:355-358 | tables in public have them if and only if they began after the defaults there were altered |
| `DefaultPrivileges.ReversedOrderMisses` | pkg/postgres/database.go:349-369 | with the steps swapped a table in between is missed |
| `Daemon.EveryRunIsSteady` | pkg/daemon/daemon.go:57-105 | in every run: no stall at the select, at most one pending request, and one from the start until the first sync |
| `Daemon.StoppedStays` | pkg/daemon/daemon.go:74-84 | once stopped the loop takes no case any more and starts no sync |
| `Daemon.NoneLateIsSpaced` | pkg/daemon/daemon.go:69-105 | in any run in which no tick is on its way whenever a request is received, however slow ticks are, each sync after the first starts at least one interval after the previous one ended |
| `Daemon.PromptRunIsSpaced` | pkg/daemon/daemon.go:69-105 | so in every run in which ticks reach the channel as soon as the timer expires |
| `Daemon.LateTickCanRush` | pkg/daemon/daemon.go:87-97 | conversely any run that comes to receive a request with a tick on its way can go on to a sync that starts at once |
| `Daemon.LateTickRushes` | pkg/daemon/daemon.go:87-97 | a run of that kind exists |
| `Daemon.EveryRunIsSpacedIff` | pkg/daemon/daemon.go:69-105 | every run is spaced if and only if ticks are prompt |
| `Daemon.NextSyncWithinInterval` | pkg/daemon/daemon.go:69-105 | from every select the next sync can start within one interval |

## Left out

- Functions.SyncDatabaseFunctions: the filters `isSafeArgs` and `isSafeReturns` are an arbitrary predicate on arguments and return type.
- Functions.SyncDatabaseFunctions: results about the outcome are for specs with distinct names, because the lookup of the newest overload makes two overloads of one name in a spec unstable.
- Functions.SyncDatabaseFunctions: parameter modes and default values, on which PostgreSQL has rules of its own for replacing a function.
- Grants.SyncDatabaseGrants: upper-casing of privileges is for ASCII letters.
- Access.GroupAccesses: `Now` is read once instead of twice for each request.
- CustomRoleCleanup.DropCustomRole: what depends on a role is its table privileges, USAGE and functions; owned objects of other kinds and default privileges are not modelled.
- SQL text, identifier quoting, dollar tags and connection strings: statements are typed operations.
- Connecting, pooling, closing, logging, request ids, and the JSON, URL and AWS SDK plumbing: calls that may fail, without content to prove here.
- `Preflight`, `EnsureManagerRole`, extensions and the rest of `Database`: straight-line calls that would only add easy members.
- The other controllers, `persistStatus` and the requeue strategy: status reporting and wiring.
- `kube.ResourceValue`: the resolver is an arbitrary function to a value or an error.
- Reads of a stale cache in the lifecycle: the worker reads the current version; updates are rejected on a newer one.
- Partitioned tables and privileges given by third-party grantors: the queries do not see them.
- Truncation of long names and case folding of identifiers by PostgreSQL.
- IamUsers.Serve: only what documents hold; that policies with older versions cannot be deleted is stated by `RemoveUser`.
- Aliasing of the static roles' backing array in `rolesDiff`: appending never changes the elements that others read.
- Random dollar tags and random strings.
