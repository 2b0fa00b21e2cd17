/** Database roles of a user (pkg/postgres/postgres.go) and the run over all hosts
    (pkg/grants/sync.go). */
module UserRoles {
  import opened Strings
  import opened Access

  const READ := "read"
  const WRITE := "readwrite"
  const OWNING_WRITE := "readowningwrite"

  function Lower(s: string): string {
    seq(|s|, i requires 0 <= i < |s| => if 'A' <= s[i] <= 'Z' then s[i] - 'A' + 'a' else s[i])
  }

  predicate EqualFold(s: string, t: string) {
    Lower(s) == Lower(t)
  }

  // Role names

  function Suffix(p: Privilege): string
    requires !p.Unknown?
  {
    match p
    case Read => READ
    case Write => WRITE
    case OwningWrite => OWNING_WRITE
  }

  /** The public schema stands for the database's own. */
  function RoleSchema(d: DatabaseSchema): string {
    if EqualFold(d.schema, "public") then d.name else d.schema
  }

  function RoleName(d: DatabaseSchema): string
    requires !d.privileges.Unknown?
  {
    RoleSchema(d) + "_" + Suffix(d.privileges)
  }

  /** "public" in any case. */
  ghost predicate IsPublic(schema: string) {
    |schema| == 6 && forall i :: 0 <= i < 6 ==> schema[i] == "public"[i] || schema[i] == "PUBLIC"[i]
  }

  lemma IsPublicIff(schema: string)
    ensures EqualFold(schema, "public") <==> IsPublic(schema)
  {
    var (lower, word) := (Lower(schema), Lower("public"));
    assert word == "public";
    if |schema| == 6 {
      assert lower == word <==> forall i :: 0 <= i < 6 ==> lower[i] == "public"[i];
      forall i | 0 <= i < 6
        ensures lower[i] == "public"[i] <==> schema[i] == "public"[i] || schema[i] == "PUBLIC"[i]
      {
        assert "PUBLIC"[i] as int + 32 == "public"[i] as int;
      }
    }
  }

  /** The role of a database schema: readers get the read role and writers the write roles. */
  ghost predicate Gives(d: DatabaseSchema, role: string) {
    var schema := if IsPublic(d.schema) then d.name else d.schema;
    match d.privileges
    case Read => role == schema + "_read"
    case Write => role == schema + "_readwrite"
    case OwningWrite => role == schema + "_readowningwrite"
    case Unknown => false
  }

  lemma GivesIff(d: DatabaseSchema, role: string)
    ensures Gives(d, role) <==> !d.privileges.Unknown? && role == RoleName(d)
  {
    hide EqualFold, IsPublic;
    IsPublicIff(d.schema);
    assert "_" + READ == "_read" && "_" + WRITE == "_readwrite" && "_" + OWNING_WRITE == "_readowningwrite";
  }

  /** Two requests share a role exactly when schema and privilege agree. */
  lemma RoleNameIsInjective(d: DatabaseSchema, e: DatabaseSchema)
    requires !d.privileges.Unknown? && !e.privileges.Unknown?
    ensures RoleName(d) == RoleName(e) <==> RoleSchema(d) == RoleSchema(e) && d.privileges == e.privileges
  {
    if RoleName(d) == RoleName(e) {
      SameTail(RoleSchema(d), RoleSchema(e), Suffix(d.privileges), Suffix(e.privileges));
    }
  }

  /** Of the three suffixes, none is a tail of another one with its underscore. */
  lemma SameTail(s: string, t: string, p: string, q: string)
    requires s + "_" + p == t + "_" + q
    requires p in {READ, WRITE, OWNING_WRITE} && q in {READ, WRITE, OWNING_WRITE}
    ensures s == t && p == q
  {
    var (a, b) := (s + "_" + p, t + "_" + q);
    assert a[|a| - 1] == p[|p| - 1] && b[|b| - 1] == q[|q| - 1];
    if p != READ && q != READ {
      assert a[|a| - 6] == p[|p| - 6] && b[|b| - 6] == q[|q| - 6];
    }
    assert p == q;
    assert a[..|s|] == s && b[..|t|] == t;
  }

  /** Roles that a sync may revoke. */
  predicate Controlled(role: string) {
    HasSuffix(role, READ) || HasSuffix(role, WRITE) || HasSuffix(role, OWNING_WRITE)
  }

  /** A role looks controlled by how its name ends, with or without an underscore before. */
  lemma ControlledIff(role: string)
    ensures Controlled(role) <==>
      exists s :: role == s + "read" || role == s + "readwrite" || role == s + "readowningwrite"
  {
    if Controlled(role) {
      var word := if HasSuffix(role, READ) then READ else if HasSuffix(role, WRITE) then WRITE else OWNING_WRITE;
      assert role == role[..|role| - |word|] + word;
    }
    if s :| role == s + "read" || role == s + "readwrite" || role == s + "readowningwrite" {
      assert role[|s|..] == READ || role[|s|..] == WRITE || role[|s|..] == OWNING_WRITE;
    }
  }

  lemma RoleNameIsControlled(d: DatabaseSchema)
    requires !d.privileges.Unknown?
    ensures Controlled(RoleName(d))
  {
  }

  /** Roles that some request could ask for. */
  predicate Askable(role: string) {
    HasSuffix(role, "_" + READ) || HasSuffix(role, "_" + WRITE) || HasSuffix(role, "_" + OWNING_WRITE)
  }

  lemma AskableIff(role: string)
    ensures (exists d: DatabaseSchema :: !d.privileges.Unknown? && RoleName(d) == role) <==> Askable(role)
  {
    hide RoleName;
    if d: DatabaseSchema :| !d.privileges.Unknown? && RoleName(d) == role {
      RoleNameIsAskable(d);
    }
    if Askable(role) {
      var p :=
        if HasSuffix(role, "_" + READ) then Read
        else if HasSuffix(role, "_" + WRITE) then Write
        else OwningWrite;
      AskedInPublic(role, p);
    }
  }

  lemma RoleNameIsAskable(d: DatabaseSchema)
    requires !d.privileges.Unknown?
    ensures Askable(RoleName(d))
  {
    var tail := "_" + Suffix(d.privileges);
    assert RoleName(d) == RoleSchema(d) + tail;
    assert HasSuffix(RoleName(d), tail);
  }

  /** By the public schema of a database with the right name. */
  lemma AskedInPublic(role: string, p: Privilege)
    requires !p.Unknown? && HasSuffix(role, "_" + Suffix(p))
    ensures RoleName(DatabaseSchema(role[..|role| - |"_" + Suffix(p)|], "public", p)) == role
  {
    var tail := "_" + Suffix(p);
    assert role == role[..|role| - |tail|] + tail;
  }

  // The diff

  ghost predicate Asked(databases: seq<DatabaseSchema>, role: string) {
    exists i :: 0 <= i < |databases| && !databases[i].privileges.Unknown? && role == RoleName(databases[i])
  }

  ghost predicate Expected(roles: seq<string>, databases: seq<DatabaseSchema>, role: string) {
    role in roles || Asked(databases, role)
  }

  /** A sync expects the static roles, and the roles that the entries give. */
  lemma ExpectedIff(roles: seq<string>, databases: seq<DatabaseSchema>, role: string)
    ensures Expected(roles, databases, role) <==> role in roles || exists d :: d in databases && Gives(d, role)
  {
    forall d ensures Gives(d, role) <==> !d.privileges.Unknown? && role == RoleName(d) {
      GivesIff(d, role);
    }
    assert forall i :: 0 <= i < |databases| ==> databases[i] in databases;
  }

  /** The memberships a user should end up with. */
  ghost function Synced(prior: set<string>, roles: seq<string>, databases: seq<DatabaseSchema>): set<string> {
    (set role | role in roles) +
    (set i | 0 <= i < |databases| && !databases[i].privileges.Unknown? :: RoleName(databases[i])) +
    (set role | role in prior && !Controlled(role))
  }

  lemma SyncedIff(prior: set<string>, roles: seq<string>, databases: seq<DatabaseSchema>, role: string)
    ensures role in Synced(prior, roles, databases) <==>
      Expected(roles, databases, role) || (role in prior && !Controlled(role))
  {
  }

  /** After a sync there is nothing left to grant or to revoke. */
  lemma SyncedTwice(prior: set<string>, roles: seq<string>, databases: seq<DatabaseSchema>)
    ensures var synced := Synced(prior, roles, databases);
      Synced(synced, roles, databases) == synced &&
      forall role :: (Expected(roles, databases, role) ==> role in synced) &&
                     (role in synced && !Expected(roles, databases, role) ==> !Controlled(role))
  {
  }

  method Contains(roles: seq<string>, role: string) returns (found: bool)
    ensures found <==> role in roles
  {
    for k := 0 to |roles|
      invariant role !in roles[..k]
    {
      if roles[k] == role {
        return true;
      }
    }
    assert roles[..|roles|] == roles;
    return false;
  }

  method RolesDiff(existing: seq<string>, roles: seq<string>, databases: seq<DatabaseSchema>)
    returns (addable: seq<string>, removable: seq<string>)
    ensures forall role :: role in addable <==> Expected(roles, databases, role) && role !in existing
    ensures forall role :: role in removable <==>
      role in existing && !Expected(roles, databases, role) && Controlled(role)
  {
    var expected := roles;
    for k := 0 to |databases|
      invariant forall role :: role in expected <==> Expected(roles, databases[..k], role)
    {
      var d := databases[k];
      assert databases[..k + 1] == databases[..k] + [d];
      AskedOneMore(databases[..k], d);
      if !d.privileges.Unknown? {
        expected := expected + [RoleName(d)];
      }
    }
    assert databases[..|databases|] == databases;
    addable := [];
    for k := 0 to |expected|
      invariant forall role :: role in addable <==> role in expected[..k] && role !in existing
    {
      assert expected[..k + 1] == expected[..k] + [expected[k]];
      var found := Contains(existing, expected[k]);
      if !found {
        addable := addable + [expected[k]];
      }
    }
    assert expected[..|expected|] == expected;
    removable := [];
    for k := 0 to |existing|
      invariant forall role :: role in removable <==> role in existing[..k] && role !in expected && Controlled(role)
    {
      assert existing[..k + 1] == existing[..k] + [existing[k]];
      var found := Contains(expected, existing[k]);
      if !found {
        var controlled := LooksControlled(existing[k]);
        if controlled {
          removable := removable + [existing[k]];
        }
      }
    }
    assert existing[..|existing|] == existing;
  }

  /** Which roles RolesDiff revokes although no request can ask for them: all that end in a
      suffix without its underscore and are not static. */
  lemma RevokedThoughUnaskable(existing: seq<string>, roles: seq<string>, databases: seq<DatabaseSchema>, role: string)
    ensures role in existing && !Expected(roles, databases, role) && Controlled(role) && !Askable(role) <==>
            role in existing && role !in roles && Controlled(role) && !Askable(role)
  {
    AskableIff(role);
  }

  /** A role granted by hand whose name only ends in "read" is such a role. */
  lemma ControlledNeedsNoUnderscore()
    ensures Controlled("spread") && !Askable("spread")
  {
    assert "spread"[2..] == READ;
    assert "spread"[1..][0] == 'p';
  }

  lemma AskedOneMore(databases: seq<DatabaseSchema>, d: DatabaseSchema)
    ensures forall role :: Asked(databases + [d], role) <==>
      Asked(databases, role) || (!d.privileges.Unknown? && role == RoleName(d))
  {
    assert forall i :: 0 <= i < |databases| ==> (databases + [d])[i] == databases[i];
    assert (databases + [d])[|databases|] == d;
  }

  method LooksControlled(role: string) returns (found: bool)
    ensures found <==> Controlled(role)
  {
    var suffixes := [READ, WRITE, OWNING_WRITE];
    for k := 0 to |suffixes|
      invariant forall i :: 0 <= i < k ==> !HasSuffix(role, suffixes[i])
    {
      if HasSuffix(role, suffixes[k]) {
        return true;
      }
    }
    assert suffixes[0] == READ && suffixes[1] == WRITE && suffixes[2] == OWNING_WRITE;
    return false;
  }

  // One host

  datatype Account = Account(host: string, user: string)

  type Members = map<Account, set<string>>

  datatype Reply = Done | Duplicate | Failed

  function Of(members: Members, a: Account): set<string> {
    if a in members then members[a] else {}
  }

  /** No kept role is missing, no other role is there, and nothing is revoked before
      everything is granted. */
  ghost predicate Towards(prior: set<string>, now: set<string>, target: set<string>) {
    prior * target <= now <= prior + target && (prior <= now || target <= now)
  }

  /** Of the other accounts nothing changes. */
  ghost predicate OnTheWay(was: Members, now: Members, a: Account, target: set<string>) {
    (forall b :: b != a ==> Of(now, b) == Of(was, b)) && Towards(Of(was, a), Of(now, a), target)
  }

  ghost predicate AllOnTheWay(was: Members, a: Account, target: set<string>, before: set<Members>, seen: set<Members>) {
    before <= seen && forall m :: m in seen ==> m in before || OnTheWay(was, m, a, target)
  }

  /** The role memberships on all hosts. A statement that fails may have been carried out. */
  class Cluster {
    const reliable: bool  // no call fails
    var members: Members
    /** What the memberships were after any statement so far. */
    ghost var seen: set<Members>

    constructor (reliable: bool)
      ensures this.reliable == reliable && members == map[] && seen == {map[]}
    {
      this.reliable, members, seen := reliable, map[], {map[]};
    }

    method Fails() returns (failed: bool)
      ensures reliable ==> !failed
    {
      failed := *;
      failed := failed && !reliable;
    }

    method CreateRole(a: Account) returns (reply: Reply)
      modifies this
      ensures forall b :: Of(members, b) == Of(old(members), b)
      ensures seen == old(seen) + {members}
      ensures reliable ==> reply != Failed
      ensures reply == Done ==> a !in old(members)
      ensures reply == Duplicate ==> a in old(members)
      ensures reply != Failed ==> a in members
    {
      var failed := Fails();
      var carriedOut := *;
      reply := if failed then Failed else if a in members then Duplicate else Done;
      if !failed || carriedOut {
        members := members[a := Of(members, a)];
      }
      seen := seen + {members};
    }

    /** In any order. */
    method PersistedRoles(a: Account) returns (ok: bool, roles: seq<string>)
      ensures ok ==> forall role :: role in roles <==> role in Of(members, a)
      ensures reliable ==> ok
    {
      var failed := Fails();
      if failed {
        return false, [];
      }
      ok, roles := true, [];
      var left := Of(members, a);
      while left != {}
        invariant left <= Of(members, a)
        invariant forall role :: role in roles <==> role in Of(members, a) && role !in left
      {
        var role :| role in left;
        roles, left := roles + [role], left - {role};
      }
    }

    /** One statement that changes what an account is a member of. */
    method Exec(a: Account, next: set<string>) returns (ok: bool)
      modifies this
      ensures seen == old(seen) + {members}
      ensures members == old(members) || members == old(members)[a := next]
      ensures ok ==> members == old(members)[a := next]
      ensures reliable ==> ok
    {
      var failed := Fails();
      var carriedOut := *;
      if !failed || carriedOut {
        members := members[a := next];
      }
      seen := seen + {members};
      return !failed;
    }

    /** Grant what is missing, then revoke what is controlled and no longer expected. */
    method Role(a: Account, roles: seq<string>, databases: seq<DatabaseSchema>) returns (ok: bool)
      modifies this
      ensures OnTheWay(old(members), members, a, Synced(Of(old(members), a), roles, databases))
      ensures AllOnTheWay(old(members), a, Synced(Of(old(members), a), roles, databases), old(seen), seen)
      ensures ok ==> a in members && Of(members, a) == Synced(Of(old(members), a), roles, databases)
      ensures reliable ==> ok
    {
      hide Synced, Expected, Controlled, OnTheWay, AllOnTheWay;
      ghost var was, prior, target := members, Of(members, a), Synced(Of(members, a), roles, databases);
      var reply := CreateRole(a);
      OneMoreOnTheWay(was, members, a, target, old(seen), old(seen), seen);
      if reply == Failed {
        return false;
      }
      var existing;
      ok, existing := PersistedRoles(a);
      if !ok {
        return;
      }
      var addable, removable := RolesDiff(existing, roles, databases);
      forall role ensures role in target <==> role in addable || (role in prior && role !in removable) {
        SyncedIff(prior, roles, databases, role);
      }
      if addable != [] {
        ghost var before := seen;
        ok := Exec(a, Of(members, a) + set role | role in addable);
        OneMoreOnTheWay(was, members, a, target, old(seen), before, seen);
        if !ok {
          return;
        }
      }
      if removable != [] {
        ghost var before := seen;
        ok := Exec(a, Of(members, a) - set role | role in removable);
        OneMoreOnTheWay(was, members, a, target, old(seen), before, seen);
      }
    }
  }

  lemma OneMoreOnTheWay(was: Members, now: Members, a: Account, target: set<string>, before: set<Members>,
                        seen: set<Members>, after: set<Members>)
    requires forall b :: b != a ==> Of(now, b) == Of(was, b)
    requires Towards(Of(was, a), Of(now, a), target)
    requires seen == before || AllOnTheWay(was, a, target, before, seen)
    requires after == seen + {now}
    ensures OnTheWay(was, now, a, target) && AllOnTheWay(was, a, target, before, after)
  {
  }

  // All hosts

  function Schemas(accesses: seq<ReadWriteAccess>): seq<DatabaseSchema> {
    seq(|accesses|, i requires 0 <= i < |accesses| => accesses[i].database)
  }

  /** The memberships that the user should have on each host of the grouped accesses. */
  ghost function Goal(was: Members, user: string, roles: seq<string>, accesses: HostAccess): map<string, set<string>> {
    map h | h in accesses :: Synced(Of(was, Account(h, user)), roles, Schemas(accesses[h]))
  }

  /** Everywhere on the way to the goal, and no other account changed. */
  ghost predicate Between(was: Members, now: Members, user: string, goal: map<string, set<string>>) {
    forall a: Account ::
      if a.user == user && a.host in goal
      then Towards(Of(was, a), Of(now, a), goal[a.host])
      else Of(now, a) == Of(was, a)
  }

  ghost predicate AllBetween(was: Members, user: string, goal: map<string, set<string>>, before: set<Members>,
                             seen: set<Members>) {
    before <= seen && forall m :: m in seen ==> m in before || Between(was, m, user, goal)
  }

  /** The user's memberships are the goal on these hosts. */
  ghost predicate Reached(now: Members, user: string, goal: map<string, set<string>>, hosts: set<string>) {
    forall h :: h in hosts && h in goal ==> Of(now, Account(h, user)) == goal[h]
  }

  lemma OneMoreHost(was: Members, now: Members, user: string, goal: map<string, set<string>>, host: string,
                    seen: set<Members>, after: set<Members>)
    requires Between(was, now, user, goal) && host in goal
    requires Of(now, Account(host, user)) == Of(was, Account(host, user))
    requires AllOnTheWay(now, Account(host, user), goal[host], seen, after)
    ensures forall m :: OnTheWay(now, m, Account(host, user), goal[host]) ==> Between(was, m, user, goal)
    ensures AllBetween(was, user, goal, seen, after)
  {
  }

  method DatabaseSchemas(accesses: seq<ReadWriteAccess>) returns (ds: seq<DatabaseSchema>)
    ensures ds == Schemas(accesses)
  {
    ds := [];
    for k := 0 to |accesses|
      invariant ds == Schemas(accesses[..k])
    {
      var d := accesses[k].database;
      ds := ds + [DatabaseSchema(d.name, d.schema, d.privileges)];
    }
    assert accesses[..|accesses|] == accesses;
  }

  /** Any missing credentials or failed connection stops the run before it changes anything. */
  method ConnectToHosts(cluster: Cluster, accesses: HostAccess, credentials: set<string>)
    returns (ok: bool, connected: set<string>)
    requires forall h :: h in accesses ==> accesses[h] != []
    ensures connected <= accesses.Keys * credentials && (ok ==> connected == accesses.Keys)
    ensures cluster.reliable && accesses.Keys <= credentials ==> ok
  {
    ok, connected := true, {};
    var left := accesses.Keys;
    while left != {}
      invariant left <= accesses.Keys && connected <= (accesses.Keys - left) * credentials
      invariant ok ==> connected == accesses.Keys - left
      invariant cluster.reliable && accesses.Keys <= credentials ==> ok
    {
      var host :| host in left;
      left := left - {host};
      var database := accesses[host][0].database.name;
      var reachable := Connect(cluster, host, database);
      if host in credentials && reachable {
        connected := connected + {host};
      } else {
        ok := false;
      }
    }
  }

  method Connect(cluster: Cluster, host: string, database: string) returns (ok: bool)
    ensures cluster.reliable ==> ok
  {
    var failed := cluster.Fails();
    return !failed;
  }

  method SetRolesOnHosts(cluster: Cluster, user: string, roles: seq<string>, accesses: HostAccess,
                         connected: set<string>)
    returns (ok: bool)
    modifies cluster
    ensures Between(old(cluster.members), cluster.members, user, Goal(old(cluster.members), user, roles, accesses))
    ensures AllBetween(old(cluster.members), user, Goal(old(cluster.members), user, roles, accesses),
                       old(cluster.seen), cluster.seen)
    ensures ok ==> Reached(cluster.members, user, Goal(old(cluster.members), user, roles, accesses), accesses.Keys)
    ensures cluster.reliable && accesses.Keys <= connected ==> ok
  {
    hide Between, AllBetween, OnTheWay, AllOnTheWay, Synced;
    ghost var was, goal := cluster.members, Goal(cluster.members, user, roles, accesses);
    AtStart(was, user, goal, cluster.seen);
    ok := true;
    var left := accesses.Keys;
    while left != {}
      invariant left <= accesses.Keys
      invariant Between(was, cluster.members, user, goal)
      invariant AllBetween(was, user, goal, old(cluster.seen), cluster.seen)
      invariant forall h :: h in left ==> Of(cluster.members, Account(h, user)) == Of(was, Account(h, user))
      invariant ok ==> Reached(cluster.members, user, goal, accesses.Keys - left)
      invariant cluster.reliable ==> ok
    {
      var host :| host in left;
      left := left - {host};
      if host !in connected {
        return false;
      }
      var schemas := DatabaseSchemas(accesses[host]);
      ghost var members, seen := cluster.members, cluster.seen;
      var done := cluster.Role(Account(host, user), roles, schemas);
      OneMoreHost(was, members, user, goal, host, seen, cluster.seen);
      Then(was, user, goal, old(cluster.seen), seen, cluster.seen);
      Others(members, cluster.members, Account(host, user), goal[host]);
      ok := ok && done;
    }
  }

  lemma AtStart(was: Members, user: string, goal: map<string, set<string>>, seen: set<Members>)
    ensures Between(was, was, user, goal) && AllBetween(was, user, goal, seen, seen)
  {
  }

  lemma Then(was: Members, user: string, goal: map<string, set<string>>, a: set<Members>, b: set<Members>,
             c: set<Members>)
    requires AllBetween(was, user, goal, a, b) && AllBetween(was, user, goal, b, c)
    ensures AllBetween(was, user, goal, a, c)
  {
  }

  lemma Others(was: Members, now: Members, a: Account, target: set<string>)
    requires OnTheWay(was, now, a, target)
    ensures forall b :: b != a ==> Of(now, b) == Of(was, b)
  {
  }

  datatype User = User(name: string, read: seq<AccessSpec>, write: seq<WriteAccessSpec>)

  /** What the user asks for on each host. */
  ghost predicate GroupedFor(accesses: HostAccess, g: Granter, user: User) {
    Partition(accesses, Flat(g, Requests(g, user.read, user.write)))
  }

  /** A sync that succeeds leaves exactly the goal on every host that the user has an
      active access to; a failed one is on the way there. Other hosts and users are untouched. */
  method SyncUser(g: Granter, cluster: Cluster, rolePrefix: string, user: User, staticRoles: seq<string>,
                  credentials: set<string>)
    returns (ok: bool, accesses: HostAccess)
    modifies cluster
    ensures GroupedFor(accesses, g, user)
    ensures var goal := Goal(old(cluster.members), rolePrefix + user.name, staticRoles, accesses);
      Between(old(cluster.members), cluster.members, rolePrefix + user.name, goal) &&
      AllBetween(old(cluster.members), rolePrefix + user.name, goal, old(cluster.seen), cluster.seen) &&
      (ok ==> Reached(cluster.members, rolePrefix + user.name, goal, accesses.Keys))
    ensures cluster.reliable && accesses.Keys <= credentials ==>
      (ok <==> accesses != map[] || !SomeRequestFails(g, Requests(g, user.read, user.write)))
  {
    hide Between, AllBetween, Synced;
    var failed;
    accesses, failed := GroupAccesses(g, user.read, user.write);
    var name := rolePrefix + user.name;
    AtStart(cluster.members, name, Goal(cluster.members, name, staticRoles, accesses), cluster.seen);
    if failed && accesses == map[] {
      return false, accesses;
    }
    var connected;
    ok, connected := ConnectToHosts(cluster, accesses, credentials);
    if !ok {
      return;
    }
    ok := SetRolesOnHosts(cluster, name, staticRoles, accesses, connected);
  }

  /** Once the goal is reached, a repeated run has the same goal, and nothing changes
      wherever it stops. */
  lemma SyncAgainIsQuiet(was: Members, now: Members, user: string, roles: seq<string>, accesses: HostAccess, m: Members,
                         a: Account)
    requires Reached(now, user, Goal(was, user, roles, accesses), accesses.Keys)
    requires Between(now, m, user, Goal(now, user, roles, accesses))
    ensures Goal(now, user, roles, accesses) == Goal(was, user, roles, accesses)
    ensures Of(m, a) == Of(now, a)
  {
    hide Synced;
    forall h | h in accesses
      ensures Goal(now, user, roles, accesses)[h] == Goal(was, user, roles, accesses)[h]
    {
      SyncedTwice(Of(was, Account(h, user)), roles, Schemas(accesses[h]));
    }
    if a.user == user && a.host in accesses {
      assert a == Account(a.host, user);
    }
  }

  /** The goal in terms of the requests: the static roles, one role for each access that an
      active request resolves to, and the memberships that are not controlled. */
  lemma GoalIff(g: Granter, user: User, accesses: HostAccess, was: Members, name: string, roles: seq<string>,
                host: string, role: string)
    requires GroupedFor(accesses, g, user) && host in accesses
    ensures role in Goal(was, name, roles, accesses)[host] <==>
      role in roles || (role in Of(was, Account(host, name)) && !Controlled(role)) || AsksForRole(g, user, host, role)
  {
    hide Asks, Controlled, Partition;
    var requests := Requests(g, user.read, user.write);
    var flat := Flat(g, requests);
    var prior := Of(was, Account(host, name));
    SyncedIff(prior, roles, Schemas(accesses[host]), role);
    assert accesses[host] == ForHost(flat, host) by { PartitionAt(accesses, flat, host); }
    forall e ensures e in accesses[host] <==> e.host == host && exists r :: r in requests && Asks(g, r, e) {
      FlatIff(g, requests, e);
      ForHostIff(flat, host, e);
    }
    AskedIff(accesses[host], role);
  }

  /** The goal from the user's spec alone. */
  lemma GoalFromSpecIff(g: Granter, user: User, accesses: HostAccess, was: Members, name: string, roles: seq<string>,
                        host: string, role: string)
    requires GroupedFor(accesses, g, user) && host in accesses
    ensures role in Goal(was, name, roles, accesses)[host] <==>
      role in roles || (role in Of(was, Account(host, name)) && !Controlled(role)) ||
      exists e: ReadWriteAccess :: e.host == host && Gives(e.database, role) &&
                  (OpensToRead(g, user.read, e) || OpensToWrite(g, user.write, e))
  {
    hide Gives, OpensToRead, OpensToWrite, RoleName, Asks, Requests, GroupedFor, Goal;
    GoalIff(g, user, accesses, was, name, roles, host, role);
    forall e: ReadWriteAccess
      ensures Gives(e.database, role) <==> GivesRole(e, role)
      ensures (exists r :: r in Requests(g, user.read, user.write) && Asks(g, r, e)) <==>
        OpensToRead(g, user.read, e) || OpensToWrite(g, user.write, e)
    {
      GivesIff(e.database, role);
      EntryIff(g, user.read, user.write, e);
    }
  }

  /** Without a write access that is in its time window, no run, wherever it stops, gives the
      user a role to write. */
  lemma ReadersGainNoWrite(g: Granter, user: User, accesses: HostAccess, was: Members, now: Members, name: string,
                           roles: seq<string>, host: string, s: string, role: string)
    requires GroupedFor(accesses, g, user) && Between(was, now, name, Goal(was, name, roles, accesses))
    requires forall w :: w in user.write ==> !InWindow(g, w.access)
    requires role == s + "_readwrite" || role == s + "_readowningwrite"
    requires role in Of(now, Account(host, name)) && role !in roles
    ensures role in Of(was, Account(host, name))
  {
    hide GroupedFor, Synced, Gives, Opens, InWindow;
    var a, goal := Account(host, name), Goal(was, name, roles, accesses);
    if host !in accesses {
      Unvisited(was, now, name, goal, host);
    } else {
      assert role[|role| - 1] == 'e';
      GoalFromSpecIff(g, user, accesses, was, name, roles, host, role);
      forall e: ReadWriteAccess | Gives(e.database, role) ensures !OpensToRead(g, user.read, e) {
        if e.database.privileges == Read { ReadRolesEndInD(e.database, role); }
      }
      forall e: ReadWriteAccess ensures !OpensToWrite(g, user.write, e) {
        NoneToWrite(g, user.write, e);
      }
      assert Towards(Of(was, a), Of(now, a), goal[host]);
    }
  }

  lemma NoneToWrite(g: Granter, write: seq<WriteAccessSpec>, e: ReadWriteAccess)
    requires forall w :: w in write ==> !InWindow(g, w.access)
    ensures !OpensToWrite(g, write, e)
  {
  }

  lemma ReadRolesEndInD(d: DatabaseSchema, role: string)
    requires d.privileges == Read && Gives(d, role)
    ensures role != "" && role[|role| - 1] == 'd'
  {
  }

  /** The user has an active access to the host. */
  ghost predicate HasAccess(g: Granter, user: User, host: string) {
    exists r, e :: r in Requests(g, user.read, user.write) && Asks(g, r, e) && e.host == host
  }

  ghost predicate AsksForRole(g: Granter, user: User, host: string, role: string) {
    exists r, e :: r in Requests(g, user.read, user.write) && Asks(g, r, e) && e.host == host && GivesRole(e, role)
  }

  lemma HasAccessIff(g: Granter, user: User, accesses: HostAccess, host: string)
    requires GroupedFor(accesses, g, user)
    ensures host in accesses <==> HasAccess(g, user, host)
  {
    hide Asks, Flat;
    var requests := Requests(g, user.read, user.write);
    var flat := Flat(g, requests);
    if host in accesses {
      var e := ForHost(flat, host)[0];
      ForHostIff(flat, host, e);
      FlatIff(g, requests, e);
    }
    if r, e :| r in requests && Asks(g, r, e) && e.host == host {
      FlatIff(g, requests, e);
      ForHostIff(flat, host, e);
    }
  }

  /** A role that a successful run should remove is still there if and only if the host has
      no active access left: such a host is not visited. */
  lemma ExcessiveStaysIff(g: Granter, user: User, accesses: HostAccess, was: Members, now: Members, name: string,
                          roles: seq<string>, host: string, role: string)
    requires GroupedFor(accesses, g, user)
    requires Between(was, now, name, Goal(was, name, roles, accesses))
    requires Reached(now, name, Goal(was, name, roles, accesses), accesses.Keys)
    requires Controlled(role) && role !in roles && !AsksForRole(g, user, host, role)
    ensures role in Of(now, Account(host, name)) <==>
      role in Of(was, Account(host, name)) && !HasAccess(g, user, host)
  {
    hide Controlled, HasAccess, GroupedFor, Between, Synced;
    HasAccessIff(g, user, accesses, host);
    if host in accesses {
      GoalIff(g, user, accesses, was, name, roles, host, role);
    } else {
      Unvisited(was, now, name, Goal(was, name, roles, accesses), host);
    }
  }

  /** A user whose only access is taken away keeps its role, and no run complains. */
  method LastAccessLeavesRole(g: Granter, cluster: Cluster, name: string, access: AccessSpec, ghost e: ReadWriteAccess,
                              credentials: set<string>)
    returns (given: bool, taken: bool)
    requires cluster.reliable && e.host in credentials
    requires Asks(g, Request(access, Read, g.allDatabasesReadEnabled), e)
    modifies cluster
    ensures given && taken && RoleName(e.database) in Of(cluster.members, Account(e.host, name))
  {
    hide Asks, GroupedFor, Between, AllBetween, Synced, RoleName;
    ghost var r := Request(access, Read, g.allDatabasesReadEnabled);
    SameHost(g, r, e);
    ghost var was, role := cluster.members, RoleName(e.database);
    assert "" + name == name;
    var one, none := User(name, [access], []), User(name, [], []);
    assert Requests(g, one.read, one.write) == [r] && Requests(g, none.read, none.write) == [];
    assert r in Requests(g, one.read, one.write) && GivesRole(e, role);
    var accesses, nothing;
    given, accesses := SyncUser(g, cluster, "", one, [], credentials);
    forall host ensures host in accesses <==> host == e.host {
      HasAccessIff(g, one, accesses, host);
    }
    GoalIff(g, one, accesses, was, name, [], e.host, role);
    ghost var middle := cluster.members;
    taken, nothing := SyncUser(g, cluster, "", none, [], credentials);
    forall host ensures host !in nothing {
      HasAccessIff(g, none, nothing, host);
    }
    Unvisited(middle, cluster.members, name, Goal(middle, name, [], nothing), e.host);
  }

  lemma SameHost(g: Granter, r: Request, e: ReadWriteAccess)
    requires Asks(g, r, e)
    ensures e.database.privileges == r.privilege && forall e' :: Asks(g, r, e') ==> e'.host == e.host
  {
  }

  lemma Unvisited(was: Members, now: Members, user: string, goal: map<string, set<string>>, host: string)
    requires Between(was, now, user, goal) && host !in goal
    ensures Of(now, Account(host, user)) == Of(was, Account(host, user))
  {
  }

  ghost predicate GivesRole(e: ReadWriteAccess, role: string) {
    !e.database.privileges.Unknown? && role == RoleName(e.database)
  }

  lemma PartitionAt(accesses: HostAccess, flat: seq<ReadWriteAccess>, host: string)
    requires Partition(accesses, flat) && host in accesses
    ensures accesses[host] == ForHost(flat, host)
  {
  }

  lemma AskedIff(accesses: seq<ReadWriteAccess>, role: string)
    ensures Asked(Schemas(accesses), role) <==> exists e :: e in accesses && GivesRole(e, role)
  {
    if e :| e in accesses && GivesRole(e, role) {
      var i :| 0 <= i < |accesses| && accesses[i] == e;
      assert Schemas(accesses)[i] == e.database;
    }
    if Asked(Schemas(accesses), role) {
      var i :| 0 <= i < |accesses| && GivesRole(accesses[i], role);
    }
  }
}
