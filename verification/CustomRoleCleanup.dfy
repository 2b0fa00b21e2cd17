/** Cleaning a custom role up on one host (internal/controller/customrole_roles.go,
    pkg/postgres/customrole_roles.go). */
module CustomRoleCleanup {
  import opened Catalogs
  import opened CustomRoleHost
  import G = Grants
  import F = Functions

  datatype CleanupResult = Removed | Blocked | Stopped

  /** Some function names the role as owner or grantee. */
  predicate Mentions(p: Proc, role: string) {
    role in p.execute || p.owner == role
  }

  /** Something in a database depends on the role, so that it cannot be dropped. */
  predicate Ties(acl: map<string, Acl>, procs: Procs, role: string) {
    HeldIn(acl, role) != NOTHING || exists k :: k in procs.defs && Mentions(procs.defs[k], role)
  }

  /** A privilege on a table, USAGE of a schema, or a function owned or to be executed. */
  lemma TiesIff(acl: map<string, Acl>, procs: Procs, role: string)
    ensures Ties(acl, procs, role) <==>
      (role in acl && (acl[role].tables != {} || acl[role].usage != {})) ||
      exists k :: k in procs.defs && (procs.defs[k].owner == role || role in procs.defs[k].execute)
  {
    forall k | k in procs.defs
      ensures Mentions(procs.defs[k], role) <==> procs.defs[k].owner == role || role in procs.defs[k].execute
    {
    }
  }

  // What cleanup can remove

  ghost predicate OnlyManaged(view: F.View, procs: Procs) {
    forall k :: k in procs.defs && Mentions(procs.defs[k], view.role) ==> view.Mine(k)
  }

  /** Cleanup can rid this database of the role: in a user database of clearable privileges
      and managed functions, in postgres of managed functions; it visits no other one. */
  ghost predicate CleanableAt(h: Host, role: string, d: string, acl: map<string, Acl>, procs: Procs)
    requires d in h.databases
  {
    if h.IsUser(d) then G.Clearable(h.databases[d].layout, HeldIn(acl, role)) && OnlyManaged(ViewOn(h, role, d), procs)
    else if d == "postgres" then HeldIn(acl, role) == NOTHING && OnlyManaged(ViewOn(h, role, d), procs)
    else !Ties(acl, procs, role)
  }

  ghost predicate Cleanable(h: Host, role: string, acls: Acls, procs: ProcMap) {
    acls.Keys == procs.Keys == h.databases.Keys &&
    forall d :: d in h.databases ==> CleanableAt(h, role, d, acls[d], procs[d])
  }

  lemma TiedUnlessCleanable(h: Host, role: string, acls: Acls, procs: ProcMap)
    requires acls.Keys == procs.Keys == h.databases.Keys
    requires forall d :: d in h.databases ==> !Ties(acls[d], procs[d], role)
    ensures Cleanable(h, role, acls, procs)
  {
  }

  lemma OnlyManagedIff(view: F.View, before: Procs, after: Procs)
    requires view.Untouched(before, after)
    ensures OnlyManaged(view, after) <==> OnlyManaged(view, before)
  {
    F.UntouchedIff(view, before, after);
    assert forall k :: !view.Mine(k) ==> F.SameAt(before, after, k);
  }

  // What reconciliation leaves for cleanup

  /** In a user database, wanted tables that can be granted on lie in schemas that cleanup
      can deal with, and no privilege that cannot be revoked loses its USAGE. */
  ghost predicate StaysCleanable(h: Host, role: string, targets: seq<string>, grants: seq<G.Grant>, acls: Acls) {
    acls.Keys == h.databases.Keys &&
    forall d :: d in UsersOf(h) ==>
      G.StaysClearable(h.databases[d].layout, HeldIn(acls[d], role), WantedOn(h, targets, grants, d))
  }

  lemma NothingWanted(l: Layout)
    ensures G.Desired(l, []) == {}
  {
  }

  /** Reconciliation of user databases and postgres, finished or stopped anywhere, leaves
      nothing behind that cleanup could not remove. */
  lemma ReconcileKeepsCleanable(h: Host, role: string, targets: seq<string>, grants: seq<G.Grant>,
                                acls: Acls, traces: Traces, procs: ProcMap, acls': Acls, traces': Traces,
                                procs': ProcMap)
    requires h.Valid() && Scope(h, targets) <= UsersOf(h) + {"postgres"}
    requires Cleanable(h, role, acls, procs) && StaysCleanable(h, role, targets, grants, acls)
    requires GrantsSafe(h, role, Scope(h, targets), UsersOf(h), grants, acls, traces, acls', traces')
    requires ForeignKept(h, role, Scope(h, targets) + OutOfScope(h, targets), procs, procs')
    ensures Cleanable(h, role, acls', procs')
  {
    hide G.Run.SafeAcl, G.Clearable, G.StaysClearable, OnlyManaged, ForeignKept;
    KeysAreKept(h, role, Scope(h, targets) + OutOfScope(h, targets), procs, procs');
    forall d | d in h.databases ensures CleanableAt(h, role, d, acls'[d], procs'[d]) {
      if !h.IsUser(d) && d != "postgres" {
        ForeignKeptAway(h, role, Scope(h, targets) + OutOfScope(h, targets), procs, procs', d);
      }
      assert CleanableAt(h, role, d, acls[d], procs[d]);
      ForeignKeptOn(h, role, Scope(h, targets) + OutOfScope(h, targets), procs, procs', d);
      OnlyManagedIff(ViewOn(h, role, d), procs[d], procs'[d]);
      if h.IsUser(d) {
        var l := h.databases[d].layout;
        NothingWanted(l);
        var run := G.SyncRun(l, role, acls[d], if d in Scope(h, targets) then grants else []);
        G.SafeKeepsClearable(run, HeldIn(acls'[d], role));
      }
    }
  }

  /** A target that is neither a user database nor postgres, which cleanup never visits: a
      template database other than the two standard ones. */
  predicate Unvisited(h: Host, targets: seq<string>, d: string) {
    d in h.databases && d in targets && d !in RESERVED && !h.IsUser(d) && d != "postgres"
  }

  /** No grant can be made there. */
  ghost predicate NoGrants(l: Layout, grants: seq<G.Grant>) {
    forall k :: k in G.Desired(l, grants) ==> !l.TableOpen(TableOf(k)) && !l.SchemaOpen(k.schema)
  }

  lemma NoGrantsIff(l: Layout, grants: seq<G.Grant>)
    ensures G.Settled(l, NOTHING, G.Desired(l, grants)) == NOTHING <==> NoGrants(l, grants)
  {
    var want := G.Desired(l, grants);
    var a := G.Settled(l, NOTHING, want);
    if a == NOTHING {
      forall k | k in want ensures !l.TableOpen(TableOf(k)) && !l.SchemaOpen(k.schema) {
        assert k !in a.tables && k.schema in G.SchemasOf(want) && k.schema !in a.usage;
      }
    }
    if NoGrants(l, grants) {
      assert a.tables == {} && a.usage == {};
    }
  }

  /** After a run no function there names the role only if none is wanted, or the wanted ones
      were there with other parameter names. */
  lemma NoneMentionedIff(view: F.View, functions: seq<F.Function>, start: Procs, after: Procs)
    requires F.Reached(view, functions, start, after) && F.DistinctNames(functions) && view.Untouched(start, after)
    requires forall k :: k in start.defs ==> !Mentions(start.defs[k], view.role)
    ensures functions == [] ==> forall k :: k in after.defs ==> !Mentions(after.defs[k], view.role)
    ensures (forall k :: k in after.defs ==> !Mentions(after.defs[k], view.role)) ==>
      forall f :: f in functions ==> view.Renamed(f, start)
  {
    F.UntouchedIff(view, start, after);
    forall k | k in after.defs && !view.Mine(k) ensures !Mentions(after.defs[k], view.role) {
      assert F.SameAt(start, after, k);
    }
    forall f | f in functions && !view.Renamed(f, start)
      ensures exists k :: k in after.defs && Mentions(after.defs[k], view.role)
    {
      assert view.Present(f, after);
      var k :| k in after.defs && k.name == view.Name(f) && view.Guarded(after.defs[k], f);
      assert Mentions(after.defs[k], view.role);
    }
  }

  /** What a successful run leaves in such a target. */
  lemma UnvisitedIsCleanableIff(h: Host, role: string, targets: seq<string>, grants: seq<G.Grant>,
                                functions: seq<F.Function>, acls: Acls, procs: ProcMap, acls': Acls, procs': ProcMap,
                                d: string)
    requires h.Valid() && Cleanable(h, role, acls, procs) && Unvisited(h, targets, d) && F.DistinctNames(functions)
    requires GrantsPlaced(h, role, Scope(h, targets), UsersOf(h), grants, acls, acls')
    requires Placed(h, role, Scope(h, targets), OutOfScope(h, targets), functions, procs, procs')
    ensures NoGrants(h.databases[d].layout, grants) && functions == [] ==> CleanableAt(h, role, d, acls'[d], procs'[d])
    ensures CleanableAt(h, role, d, acls'[d], procs'[d]) ==>
      NoGrants(h.databases[d].layout, grants) &&
      forall f :: f in functions ==> ViewOn(h, role, d).Renamed(f, procs[d])
  {
    hide G.Settled, NoGrants, F.Reached;
    assert CleanableAt(h, role, d, acls[d], procs[d]);
    assert Granted(h, role, d, grants, acls, acls');
    NoGrantsIff(h.databases[d].layout, grants);
    ForeignKeptOn(h, role, Scope(h, targets) + OutOfScope(h, targets), procs, procs', d);
    NoneMentionedIff(ViewOn(h, role, d), functions, procs[d], procs'[d]);
  }

  /** Nothing is to be placed where cleanup never comes. */
  ghost predicate NothingUnvisited(h: Host, targets: seq<string>, grants: seq<G.Grant>, functions: seq<F.Function>) {
    forall d :: Unvisited(h, targets, d) ==> NoGrants(h.databases[d].layout, grants) && functions == []
  }

  /** Nothing but functions that are there with other parameter names. */
  ghost predicate RenamedUnvisited(h: Host, role: string, targets: seq<string>, grants: seq<G.Grant>,
                                   functions: seq<F.Function>, procs: ProcMap) {
    procs.Keys == h.databases.Keys &&
    forall d :: Unvisited(h, targets, d) ==>
      NoGrants(h.databases[d].layout, grants) &&
      forall f :: f in functions ==> ViewOn(h, role, d).Renamed(f, procs[d])
  }

  /** Whether a role can be cleaned up after a successful run: in user databases the condition
      above is exact. A target that cleanup never visits must get no grant and no function,
      where a function that is there with other parameter names may vanish instead. */
  lemma ReconciledIsCleanableIff(h: Host, role: string, targets: seq<string>, grants: seq<G.Grant>,
                                 functions: seq<F.Function>, acls: Acls, procs: ProcMap, acls': Acls, procs': ProcMap)
    requires h.Valid() && Cleanable(h, role, acls, procs) && F.DistinctNames(functions)
    requires GrantsPlaced(h, role, Scope(h, targets), UsersOf(h), grants, acls, acls')
    requires Placed(h, role, Scope(h, targets), OutOfScope(h, targets), functions, procs, procs')
    ensures StaysCleanable(h, role, targets, grants, acls) && NothingUnvisited(h, targets, grants, functions) ==>
      Cleanable(h, role, acls', procs')
    ensures Cleanable(h, role, acls', procs') ==>
      StaysCleanable(h, role, targets, grants, acls) && RenamedUnvisited(h, role, targets, grants, functions, procs)
    ensures (forall d :: Unvisited(h, targets, d) ==> F.Unrenamed(ViewOn(h, role, d), functions, procs[d])) ==>
      (Cleanable(h, role, acls', procs') <==>
        StaysCleanable(h, role, targets, grants, acls) && NothingUnvisited(h, targets, grants, functions))
  {
    hide G.Clearable, G.StaysClearable, OnlyManaged, G.Settled, NoGrants, F.Reached, Ties;
    forall d | d in h.databases && !Unvisited(h, targets, d)
      ensures CleanableAt(h, role, d, acls'[d], procs'[d]) <==>
        (d in UsersOf(h) ==>
          G.StaysClearable(h.databases[d].layout, HeldIn(acls[d], role), WantedOn(h, targets, grants, d)))
    {
      VisitedIsCleanableIff(h, role, targets, grants, functions, acls, procs, acls', procs', d);
    }
    forall d | Unvisited(h, targets, d)
      ensures NoGrants(h.databases[d].layout, grants) && functions == [] ==>
        CleanableAt(h, role, d, acls'[d], procs'[d])
      ensures CleanableAt(h, role, d, acls'[d], procs'[d]) ==>
        NoGrants(h.databases[d].layout, grants) &&
        forall f :: f in functions ==> ViewOn(h, role, d).Renamed(f, procs[d])
    {
      UnvisitedIsCleanableIff(h, role, targets, grants, functions, acls, procs, acls', procs', d);
    }
    if functions != [] { assert functions[0] in functions; }
  }

  lemma VisitedIsCleanableIff(h: Host, role: string, targets: seq<string>, grants: seq<G.Grant>,
                              functions: seq<F.Function>, acls: Acls, procs: ProcMap, acls': Acls, procs': ProcMap,
                              d: string)
    requires h.Valid() && Cleanable(h, role, acls, procs) && d in h.databases && !Unvisited(h, targets, d)
    requires GrantsPlaced(h, role, Scope(h, targets), UsersOf(h), grants, acls, acls')
    requires Placed(h, role, Scope(h, targets), OutOfScope(h, targets), functions, procs, procs')
    ensures CleanableAt(h, role, d, acls'[d], procs'[d]) <==>
      (d in UsersOf(h) ==>
        G.StaysClearable(h.databases[d].layout, HeldIn(acls[d], role), WantedOn(h, targets, grants, d)))
  {
    hide G.Clearable, G.StaysClearable, OnlyManaged, G.Settled, F.Reached;
    assert CleanableAt(h, role, d, acls[d], procs[d]);
    ForeignKeptOn(h, role, Scope(h, targets) + OutOfScope(h, targets), procs, procs', d);
    OnlyManagedIff(ViewOn(h, role, d), procs[d], procs'[d]);
    if h.IsUser(d) {
      var l := h.databases[d].layout;
      NothingWanted(l);
      G.SyncKeepsClearableIff(l, HeldIn(acls[d], role), WantedOn(h, targets, grants, d));
    }
  }

  /** After a successful run the controller may act as the owner of every function to clean up. */
  lemma ReconciledIsTrusted(h: Host, role: string, targets: seq<string>, functions: seq<F.Function>, procs: ProcMap,
                            procs': ProcMap)
    requires h.Valid() && F.DistinctNames(functions)
    requires Placed(h, role, Scope(h, targets), OutOfScope(h, targets), functions, procs, procs')
    ensures TrustedOn(h, role, procs')
  {
    hide F.Reached, F.Trusted;
    forall d | d in h.databases && (h.IsUser(d) || d == "postgres")
      ensures F.Trusted(ViewOn(h, role, d), [], procs'[d])
    {
      if d in Scope(h, targets) {
        F.ReachedIsTrusted(ViewOn(h, role, d), functions, procs[d], procs'[d]);
      } else {
        NoneIsTrusted(ViewOn(h, role, d), procs'[d]);
      }
    }
  }

  lemma NoneIsTrusted(view: F.View, procs: Procs)
    requires view.Exact([], procs)
    ensures F.Trusted(view, [], procs)
  {
  }

  /** A grant made in a target that cleanup never visits makes the role impossible to clean up. */
  lemma TemplateTargetBlocks(h: Host, role: string, targets: seq<string>, grants: seq<G.Grant>,
                             acls: Acls, acls': Acls, procs': ProcMap, d: string, k: GrantKey)
    requires h.Valid() && Unvisited(h, targets, d)
    requires k in G.Desired(h.databases[d].layout, grants)
    requires h.databases[d].layout.TableOpen(TableOf(k)) || h.databases[d].layout.SchemaOpen(k.schema)
    requires GrantsPlaced(h, role, Scope(h, targets), UsersOf(h), grants, acls, acls')
    ensures !Cleanable(h, role, acls', procs')
  {
    assert Granted(h, role, d, grants, acls, acls');
    var a := HeldIn(acls'[d], role);
    assert k.schema in G.SchemasOf(G.Desired(h.databases[d].layout, grants));
    assert k in a.tables || k.schema in a.usage;
    assert acls'.Keys == procs'.Keys == h.databases.Keys ==> !CleanableAt(h, role, d, acls'[d], procs'[d]);
  }

  /** So does a function, without any grant. */
  lemma FunctionInTemplateBlocks(h: Host, role: string, targets: seq<string>, functions: seq<F.Function>,
                                 procs: ProcMap, acls': Acls, procs': ProcMap, d: string, f: F.Function)
    requires h.Valid() && Unvisited(h, targets, d) && F.DistinctNames(functions)
    requires f in functions && d in procs && !ViewOn(h, role, d).Renamed(f, procs[d])
    requires Placed(h, role, Scope(h, targets), OutOfScope(h, targets), functions, procs, procs')
    ensures !Cleanable(h, role, acls', procs')
  {
    var view := ViewOn(h, role, d);
    assert F.Reached(view, functions, procs[d], procs'[d]);
    var k :| k in procs'[d].defs && k.name == view.Name(f) && view.Guarded(procs'[d].defs[k], f);
    assert Mentions(procs'[d].defs[k], role);
    assert acls'.Keys == procs'.Keys == h.databases.Keys ==> !CleanableAt(h, role, d, acls'[d], procs'[d]);
  }

  /** Taking it out of the targets again does not help. */
  lemma UntargetedTemplateBlocks(h: Host, role: string, targets: seq<string>, grants: seq<G.Grant>,
                                 acls: Acls, traces: Traces, procs: ProcMap, acls': Acls, traces': Traces,
                                 procs': ProcMap, d: string)
    requires h.Valid() && d in h.databases && d in h.templates && d !in targets && d != "postgres"
    requires GrantsSafe(h, role, Scope(h, targets), UsersOf(h), grants, acls, traces, acls', traces')
    requires ForeignKept(h, role, Scope(h, targets) + OutOfScope(h, targets), procs, procs')
    requires d in procs && Ties(acls[d], procs[d], role)
    ensures !Cleanable(h, role, acls', procs')
  {
    assert acls'[d] == acls[d];
    ForeignKeptAway(h, role, Scope(h, targets) + OutOfScope(h, targets), procs, procs', d);
    assert acls'.Keys == procs'.Keys == h.databases.Keys ==> !CleanableAt(h, role, d, acls'[d], procs'[d]);
  }

  // Cleanup

  /** Drop the functions and revoke the grants in one database. */
  method CleanDatabase(cat: Catalog, role: string) returns (ok: bool)
    modifies cat`acl, cat`trace, cat`procs
    ensures F.Dropped(F.ViewOf(cat, role), old(cat.procs), cat.procs)
    ensures OthersKept(role, old(cat.acl), cat.acl)
    ensures G.Clearing(cat.layout, old(cat.Held(role)), cat.Held(role))
    ensures ok ==> F.ViewOf(cat, role).Exact([], cat.procs) &&
                   cat.Held(role) == G.Cleared(cat.layout, old(cat.Held(role)))
    ensures cat.reliable && F.Trusted(F.ViewOf(cat, role), [], old(cat.procs)) ==> ok
  {
    hide G.Cleared;
    G.ClearingStart(cat.layout, cat.Held(role));
    ok := F.DropManagedFunctions(cat, role);
    if ok {
      ok := G.RevokeAllDatabaseGrants(cat, role);
    }
  }

  /** What any part of the cleanup does: only what the role holds in user databases becomes
      less, and only its managed functions go, there and in postgres. */
  ghost predicate SafeCleanup(h: Host, role: string, acls: Acls, procs: ProcMap, acls': Acls, procs': ProcMap) {
    acls.Keys == acls'.Keys == procs.Keys == procs'.Keys == h.databases.Keys &&
    forall d :: d in h.databases ==> SafeAt(h, role, d, acls[d], acls'[d]) && DroppedAt(h, role, d, procs[d], procs'[d])
  }

  ghost predicate SafeAt(h: Host, role: string, d: string, acl: map<string, Acl>, acl': map<string, Acl>)
    requires d in h.databases
  {
    OthersKept(role, acl, acl') &&
    if h.IsUser(d) then G.Clearing(h.databases[d].layout, HeldIn(acl, role), HeldIn(acl', role)) else acl' == acl
  }

  ghost predicate DroppedAt(h: Host, role: string, d: string, procs: Procs, procs': Procs)
    requires d in h.databases
  {
    if h.IsUser(d) || d == "postgres" then F.Dropped(ViewOn(h, role, d), procs, procs') else procs' == procs
  }

  lemma SafeCleanupNone(h: Host, role: string, acls: Acls, procs: ProcMap)
    requires acls.Keys == procs.Keys == h.databases.Keys
    ensures SafeCleanup(h, role, acls, procs, acls, procs)
  {
    hide G.Clearing;
    forall d | d in h.databases
      ensures G.Clearing(h.databases[d].layout, HeldIn(acls[d], role), HeldIn(acls[d], role))
    {
      G.ClearingStart(h.databases[d].layout, HeldIn(acls[d], role));
    }
  }

  lemma SafeCleanupTwice(h: Host, role: string, acls: Acls, procs: ProcMap, acls': Acls, procs': ProcMap,
                         acls'': Acls, procs'': ProcMap)
    requires SafeCleanup(h, role, acls, procs, acls', procs') && SafeCleanup(h, role, acls', procs', acls'', procs'')
    ensures SafeCleanup(h, role, acls, procs, acls'', procs'')
  {
    hide G.Clearing, F.Dropped;
    forall d | d in h.databases
      ensures SafeAt(h, role, d, acls[d], acls''[d]) && DroppedAt(h, role, d, procs[d], procs''[d])
    {
      assert SafeAt(h, role, d, acls[d], acls'[d]) && DroppedAt(h, role, d, procs[d], procs'[d]);
      assert SafeAt(h, role, d, acls'[d], acls''[d]) && DroppedAt(h, role, d, procs'[d], procs''[d]);
      if h.IsUser(d) || d == "postgres" { F.DroppedTwice(ViewOn(h, role, d), procs[d], procs'[d], procs''[d]); }
      if h.IsUser(d) {
        G.ClearingTwice(h.databases[d].layout, HeldIn(acls[d], role), HeldIn(acls'[d], role), HeldIn(acls''[d], role));
      }
    }
  }

  lemma KeysAreKept(h: Host, role: string, names: set<string>, procs: ProcMap, procs': ProcMap)
    requires ForeignKept(h, role, names, procs, procs')
    ensures procs.Keys == procs'.Keys == h.databases.Keys
  {
  }

  /** Whether a role can be cleaned up does not depend on earlier attempts. */
  lemma CleanupKeepsCleanable(h: Host, role: string, acls: Acls, procs: ProcMap, acls': Acls, procs': ProcMap)
    requires SafeCleanup(h, role, acls, procs, acls', procs')
    ensures Cleanable(h, role, acls', procs') <==> Cleanable(h, role, acls, procs)
    ensures TrustedOn(h, role, procs') <==> TrustedOn(h, role, procs)
  {
    hide G.Clearing, G.Clearable, OnlyManaged, Ties, F.Dropped, F.Trusted;
    forall d | d in h.databases
      ensures CleanableAt(h, role, d, acls'[d], procs'[d]) <==> CleanableAt(h, role, d, acls[d], procs[d])
      ensures h.IsUser(d) || d == "postgres" ==>
        (F.Trusted(ViewOn(h, role, d), [], procs'[d]) <==> F.Trusted(ViewOn(h, role, d), [], procs[d]))
    {
      assert SafeAt(h, role, d, acls[d], acls'[d]) && DroppedAt(h, role, d, procs[d], procs'[d]);
      if h.IsUser(d) || d == "postgres" {
        F.DroppedIsUntouched(ViewOn(h, role, d), procs[d], procs'[d]);
        OnlyManagedIff(ViewOn(h, role, d), procs[d], procs'[d]);
      }
      if h.IsUser(d) {
        G.ClearingKeepsClearable(h.databases[d].layout, HeldIn(acls[d], role), HeldIn(acls'[d], role));
      }
    }
  }

  /** The role is gone from the named databases, as far as it can be cleaned up. */
  ghost predicate Freed(h: Host, role: string, names: set<string>, acls: Acls, procs: ProcMap) {
    forall d :: d in names && d in h.databases && d in acls && d in procs ==>
      ViewOn(h, role, d).Exact([], procs[d]) &&
      (h.IsUser(d) ==> G.Clearable(h.databases[d].layout, HeldIn(acls[d], role)) ==> HeldIn(acls[d], role) == NOTHING)
  }

  lemma FreedHasNoTies(h: Host, role: string, acls: Acls, procs: ProcMap)
    requires Cleanable(h, role, acls, procs) && Freed(h, role, UsersOf(h) + {"postgres"}, acls, procs)
    ensures forall d :: d in h.databases ==> !Ties(acls[d], procs[d], role)
  {
    hide G.Clearable;
    forall d | d in h.databases ensures !Ties(acls[d], procs[d], role) {
      assert CleanableAt(h, role, d, acls[d], procs[d]);
    }
  }

  /** One database cleaned, the others as they were. */
  lemma OneCleaned(h: Host, role: string, d: string, acls: Acls, procs: ProcMap, acl: map<string, Acl>, p: Procs)
    requires d in h.databases && acls.Keys == procs.Keys == h.databases.Keys && (h.IsUser(d) || d == "postgres")
    requires DroppedAt(h, role, d, procs[d], p) && SafeAt(h, role, d, acls[d], acl)
    ensures SafeCleanup(h, role, acls, procs, acls[d := acl], procs[d := p])
  {
    hide SafeAt, DroppedAt;
    SafeCleanupNone(h, role, acls, procs);
  }

  lemma FreedNext(h: Host, role: string, names: set<string>, d: string, acls: Acls, procs: ProcMap,
                  acl: map<string, Acl>, p: Procs)
    requires d in h.databases && d in acls && Freed(h, role, names, acls, procs) && ViewOn(h, role, d).Exact([], p)
    requires SafeAt(h, role, d, acls[d], acl)
    requires h.IsUser(d) ==> HeldIn(acl, role) == G.Cleared(h.databases[d].layout, HeldIn(acls[d], role))
    ensures Freed(h, role, names + {d}, acls[d := acl], procs[d := p])
  {
    hide G.Clearing, G.Clearable, G.Cleared;
    if h.IsUser(d) {
      var l, held := h.databases[d].layout, HeldIn(acls[d], role);
      G.ClearingKeepsClearable(l, held, HeldIn(acl, role));
      G.ClearedIsEmptyIff(l, held);
    }
  }

  /** The controller may act as the owner of every managed function it cleans up. */
  ghost predicate TrustedOn(h: Host, role: string, procs: ProcMap) {
    procs.Keys == h.databases.Keys &&
    forall d :: d in h.databases && (h.IsUser(d) || d == "postgres") ==> F.Trusted(ViewOn(h, role, d), [], procs[d])
  }

  lemma TrustedNext(h: Host, role: string, d: string, procs: ProcMap, p: Procs)
    requires d in h.databases && ViewOn(h, role, d).Exact([], p)
    ensures TrustedOn(h, role, procs) ==> TrustedOn(h, role, procs[d := p])
  {
  }

  lemma FreedIsTrusted(h: Host, role: string, acls: Acls, procs: ProcMap)
    requires acls.Keys == procs.Keys == h.databases.Keys && Freed(h, role, UsersOf(h) + {"postgres"}, acls, procs)
    ensures TrustedOn(h, role, procs)
  {
    forall d | d in h.databases && (h.IsUser(d) || d == "postgres")
      ensures F.Trusted(ViewOn(h, role, d), [], procs[d])
    {
      assert ViewOn(h, role, d).Exact([], procs[d]);
    }
  }

  /** One round of the loop of cleanupRoleOnHost. */
  method SweepDatabase(h: Host, role: string, d: string, ghost done: set<string>) returns (ok: bool)
    requires h.Valid() && h.IsUser(d) && Freed(h, role, done, h.Acls(), h.AllProcs())
    modifies h.Catalogs()`acl, h.Catalogs()`trace, h.Catalogs()`procs
    ensures SafeCleanup(h, role, old(h.Acls()), old(h.AllProcs()), h.Acls(), h.AllProcs())
    ensures ok ==> Freed(h, role, done + {d}, h.Acls(), h.AllProcs())
    ensures h.Reliable() && TrustedOn(h, role, old(h.AllProcs())) ==> ok && TrustedOn(h, role, h.AllProcs())
  {
    hide Host.Acls, Host.AllProcs, SafeCleanup, Freed, G.Clearing, G.Cleared, F.Dropped;
    ghost var acls, procs := h.Acls(), h.AllProcs();
    var cat := h.databases[d];
    h.At(d);
    SafeCleanupNone(h, role, acls, procs);
    var failed := h.Fails();
    if failed { return false; }
    ok := CleanDatabase(cat, role);
    h.OneAclChanged(d);
    h.OneProcsChanged(d);
    OneCleaned(h, role, d, acls, procs, cat.acl, cat.procs);
    if ok {
      FreedNext(h, role, done, d, acls, procs, cat.acl, cat.procs);
      TrustedNext(h, role, d, procs, cat.procs);
    }
  }

  /** The functions of the postgres database; no grant is ever made there. */
  method SweepPostgres(h: Host, role: string, ghost done: set<string>) returns (ok: bool)
    requires h.Valid() && Freed(h, role, done, h.Acls(), h.AllProcs())
    modifies h.Catalogs()`procs
    ensures SafeCleanup(h, role, old(h.Acls()), old(h.AllProcs()), h.Acls(), h.AllProcs())
    ensures ok ==> Freed(h, role, done + {"postgres"}, h.Acls(), h.AllProcs())
    ensures h.Reliable() && TrustedOn(h, role, old(h.AllProcs())) ==> ok
  {
    hide Host.Acls, Host.AllProcs, SafeCleanup, Freed, G.Clearing, G.Cleared, F.Dropped;
    ghost var acls, procs := h.Acls(), h.AllProcs();
    var cat := h.databases["postgres"];
    h.At("postgres");
    ok := F.DropManagedFunctions(cat, role);
    AclsFrame(h);
    h.OneProcsChanged("postgres");
    assert acls["postgres" := cat.acl] == acls;
    OneCleaned(h, role, "postgres", acls, procs, cat.acl, cat.procs);
    if ok { FreedNext(h, role, done, "postgres", acls, procs, cat.acl, cat.procs); }
  }

  method SweepList(h: Host, role: string, names: seq<string>) returns (ok: bool)
    requires h.Valid() && forall d :: d in names ==> h.IsUser(d)
    modifies h.Catalogs()`acl, h.Catalogs()`trace, h.Catalogs()`procs
    ensures SafeCleanup(h, role, old(h.Acls()), old(h.AllProcs()), h.Acls(), h.AllProcs())
    ensures ok ==> Freed(h, role, Listed(names, {}), h.Acls(), h.AllProcs())
    ensures h.Reliable() && TrustedOn(h, role, old(h.AllProcs())) ==> ok && TrustedOn(h, role, h.AllProcs())
  {
    hide Host.Acls, Host.AllProcs, TrustedOn, SafeCleanup, Host.Reliable;
    ghost var acls, procs := h.Acls(), h.AllProcs();
    SafeCleanupNone(h, role, acls, procs);
    ok := true;
    for i := 0 to |names|
      invariant ok && Freed(h, role, Listed(names[..i], {}), h.Acls(), h.AllProcs())
      invariant SafeCleanup(h, role, acls, procs, h.Acls(), h.AllProcs())
      invariant h.Reliable() && TrustedOn(h, role, procs) ==> TrustedOn(h, role, h.AllProcs())
    {
      ListedNext(names, {}, i);
      ghost var acls', procs' := h.Acls(), h.AllProcs();
      ok := SweepDatabase(h, role, names[i], Listed(names[..i], {}));
      SafeCleanupTwice(h, role, acls, procs, acls', procs', h.Acls(), h.AllProcs());
      if !ok { return; }
    }
    assert names[..|names|] == names;
  }

  method SweepAll(h: Host, role: string) returns (ok: bool)
    requires h.Valid()
    modifies h.Catalogs()`acl, h.Catalogs()`trace, h.Catalogs()`procs
    ensures SafeCleanup(h, role, old(h.Acls()), old(h.AllProcs()), h.Acls(), h.AllProcs())
    ensures ok ==> Freed(h, role, UsersOf(h) + {"postgres"}, h.Acls(), h.AllProcs())
    ensures h.Reliable() && TrustedOn(h, role, old(h.AllProcs())) ==> ok
  {
    hide Host.Acls, Host.AllProcs, TrustedOn, SafeCleanup, Freed;
    ghost var acls, procs := h.Acls(), h.AllProcs();
    SafeCleanupNone(h, role, acls, procs);
    var names;
    ok, names := UserDatabases(h);
    if !ok { return; }
    ok := SweepList(h, role, names);
    if !ok { return; }
    ghost var acls', procs' := h.Acls(), h.AllProcs();
    ok := SweepPostgres(h, role, UsersOf(h));
    SafeCleanupTwice(h, role, acls, procs, acls', procs', h.Acls(), h.AllProcs());
  }

  method IsTied(h: Host, role: string) returns (tied: bool)
    ensures tied <==> exists d :: d in h.databases && Ties(h.Acls()[d], h.AllProcs()[d], role)
  {
    tied := exists d :: d in h.databases && Ties(h.databases[d].acl, h.databases[d].procs, role);
  }

  /** DROP ROLE IF EXISTS: blocked while anything depends on the role. */
  method DropCustomRole(h: Host, role: string) returns (r: CleanupResult)
    modifies h`roles, h`memberships
    ensures r == Removed ==> role !in h.roles && h.Members(role) == {}
    ensures r == Removed ==> forall d :: d in h.databases ==> !Ties(h.Acls()[d], h.AllProcs()[d], role)
    ensures r == Blocked ==> exists d :: d in h.databases && Ties(h.Acls()[d], h.AllProcs()[d], role)
    ensures h.roles == old(h.roles) || h.roles == old(h.roles) - {role}
    ensures h.Acls() == old(h.Acls()) && h.AllProcs() == old(h.AllProcs())
    ensures h.reliable ==> r != Stopped
  {
    hide Host.Acls, Host.AllProcs, Ties;
    var tied := IsTied(h, role);
    var failed := h.Fails();
    var carriedOut := *;
    if failed && !carriedOut {
      r := Stopped;
    } else if tied {
      r := Blocked;
    } else {
      h.roles := h.roles - {role};
      h.memberships := h.memberships[role := {}];
      r := if failed then Stopped else Removed;
    }
    AclsFrame(h);
    ProcsFrame(h);
  }

  /** cleanupRoleOnHost, after connecting. Without failures it removes the role if and only if
      that can be cleaned up and the controller may act as the owners of its functions, and no
      attempt changes whether that is so. */
  method CleanupRoleOnHost(h: Host, role: string) returns (r: CleanupResult)
    requires h.Valid()
    modifies h`roles, h`memberships, h.Catalogs()`acl, h.Catalogs()`trace, h.Catalogs()`procs
    ensures SafeCleanup(h, role, old(h.Acls()), old(h.AllProcs()), h.Acls(), h.AllProcs())
    ensures Cleanable(h, role, h.Acls(), h.AllProcs()) <==> Cleanable(h, role, old(h.Acls()), old(h.AllProcs()))
    ensures TrustedOn(h, role, h.AllProcs()) <==> TrustedOn(h, role, old(h.AllProcs()))
    ensures Cleanable(h, role, old(h.Acls()), old(h.AllProcs())) ==> r != Blocked
    ensures r == Removed ==>
      Cleanable(h, role, old(h.Acls()), old(h.AllProcs())) && TrustedOn(h, role, old(h.AllProcs()))
    ensures h.Reliable() ==>
      (r == Removed <==>
        Cleanable(h, role, old(h.Acls()), old(h.AllProcs())) && TrustedOn(h, role, old(h.AllProcs())))
    ensures r == Removed ==> role !in h.roles
    ensures r == Removed ==> forall d :: d in h.databases ==> !Ties(h.Acls()[d], h.AllProcs()[d], role)
    ensures h.roles == old(h.roles) || h.roles == old(h.roles) - {role}
  {
    hide Host.Acls, Host.AllProcs, Cleanable, SafeCleanup, TrustedOn, Ties, Freed;
    r := Stopped;
    ghost var acls, procs := h.Acls(), h.AllProcs();
    var ok := SweepAll(h, role);
    CleanupKeepsCleanable(h, role, acls, procs, h.Acls(), h.AllProcs());
    if !ok { return; }
    FreedIsTrusted(h, role, h.Acls(), h.AllProcs());
    if Cleanable(h, role, h.Acls(), h.AllProcs()) { FreedHasNoTies(h, role, h.Acls(), h.AllProcs()); }
    r := DropCustomRole(h, role);
    if r == Removed { TiedUnlessCleanable(h, role, h.Acls(), h.AllProcs()); }
  }
}
