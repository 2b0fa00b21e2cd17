/** Reconciling one custom role on one host
    (internal/controller/customrole_*.go, pkg/postgres/customrole_roles.go). */
module CustomRoleHost {
  import opened Catalogs
  import G = Grants
  import F = Functions

  const RESERVED := {"rdsadmin", "template0", "template1"}

  class Host {
    const databases: map<string, Catalog>
    const templates: set<string>               // datistemplate
    const reliable: bool                       // no call outside the databases' own fails
    var roles: set<string>
    var memberships: map<string, set<string>>  // role -> roles granted to it

    constructor (databases: map<string, Catalog>, templates: set<string>, reliable: bool)
      ensures this.databases == databases && this.templates == templates && this.reliable == reliable
      ensures roles == {} && memberships == map[]
    {
      this.databases, this.templates, this.reliable := databases, templates, reliable;
      roles, memberships := {}, map[];
    }

    /** One catalog object for each database; the maintenance database exists and
        the two standard templates are marked as such. */
    ghost predicate Valid() {
      "postgres" in databases && {"template0", "template1"} <= templates &&
      forall a, b :: a in databases && b in databases && a != b ==> databases[a] != databases[b]
    }

    ghost function Catalogs(): set<Catalog> {
      set d | d in databases :: databases[d]
    }

    /** No call fails anywhere on this host; statements may still be denied. */
    ghost predicate Reliable() {
      reliable && forall d :: d in databases ==> databases[d].reliable
    }

    method Fails() returns (failed: bool)
      ensures reliable ==> !failed
    {
      failed := *;
      failed := failed && !reliable;
    }

    predicate IsUser(d: string) {
      d in databases && d !in templates && d != "postgres" && d != "rdsadmin"
    }

    ghost function Acls(): (m: map<string, map<string, Acl>>)
      reads Catalogs()`acl
      ensures m.Keys == databases.Keys
    {
      map d | d in databases :: databases[d].acl
    }

    ghost function Traces(): (m: map<string, seq<map<string, Acl>>>)
      reads Catalogs()`trace
      ensures m.Keys == databases.Keys
    {
      map d | d in databases :: databases[d].trace
    }

    ghost function AllProcs(): (m: map<string, Procs>)
      reads Catalogs()`procs
      ensures m.Keys == databases.Keys
    {
      map d | d in databases :: databases[d].procs
    }

    lemma At(d: string)
      requires d in databases
      ensures Acls()[d] == databases[d].acl && Traces()[d] == databases[d].trace && AllProcs()[d] == databases[d].procs
    {
    }

    twostate lemma OneAclChanged(d: string)
      requires Valid() && d in databases && unchanged((Catalogs() - {databases[d]})`acl)
      ensures Acls() == old(Acls())[d := databases[d].acl]
    {
      var now, was := Acls(), old(Acls())[d := databases[d].acl];
      forall e | e in databases && e != d ensures now[e] == was[e] {
        assert databases[e] in Catalogs() - {databases[d]};
      }
      assert now.Keys == was.Keys;
    }

    twostate lemma OneTraceChanged(d: string)
      requires Valid() && d in databases && unchanged((Catalogs() - {databases[d]})`trace)
      ensures Traces() == old(Traces())[d := databases[d].trace]
    {
      var now, was := Traces(), old(Traces())[d := databases[d].trace];
      forall e | e in databases && e != d ensures now[e] == was[e] {
        assert databases[e] in Catalogs() - {databases[d]};
      }
      assert now.Keys == was.Keys;
    }

    twostate lemma OneProcsChanged(d: string)
      requires Valid() && d in databases && unchanged((Catalogs() - {databases[d]})`procs)
      ensures AllProcs() == old(AllProcs())[d := databases[d].procs]
    {
      var now, before := AllProcs(), old(AllProcs());
      forall e | e in databases && e != d ensures now[e] == before[e] {
        assert databases[e] in Catalogs() - {databases[d]};
      }
      OneEntryDiffers(now, before, d);
    }

    function Members(role: string): set<string>
      reads `memberships
    {
      if role in memberships then memberships[role] else {}
    }
  }

  lemma OneEntryDiffers<V>(now: map<string, V>, before: map<string, V>, d: string)
    requires now.Keys == before.Keys && d in now && forall e :: e in now && e != d ==> now[e] == before[e]
    ensures now == before[d := now[d]]
  {
  }

  /** UserDatabases. */
  method UserDatabases(h: Host) returns (ok: bool, names: seq<string>)
    ensures ok ==> Listed(names, {}) == UsersOf(h)
    ensures ok ==> forall d :: d in names ==> h.IsUser(d)
    ensures h.reliable ==> ok
  {
    var failed := h.Fails();
    if failed { return false, []; }
    names := Enumerate(set d | d in h.databases && h.IsUser(d));
    ok := true;
  }

  ghost function UsersOf(h: Host): set<string> {
    set d | d in h.databases && h.IsUser(d)
  }

  ghost function Listed(names: seq<string>, skip: set<string>): set<string> {
    (set d | d in names) - skip
  }

  lemma ListedNext(names: seq<string>, skip: set<string>, i: nat)
    requires i < |names|
    ensures Listed(names[..i + 1], skip) ==
            if names[i] in skip then Listed(names[..i], skip) else Listed(names[..i], skip) + {names[i]}
  {
  }

  // Table privileges on all databases

  type Acls = map<string, map<string, Acl>>

  /** Database d went from start to a finished sync of the given grants. */
  ghost predicate Granted(h: Host, role: string, d: string, grants: seq<G.Grant>, start: Acls, now: Acls) {
    d in h.databases && d in start && d in now &&
    G.SyncRun(h.databases[d].layout, role, start[d], grants).Finished(now[d])
  }

  lemma GrantedTwice(h: Host, role: string, d: string, grants: seq<G.Grant>, start: Acls, mid: Acls, now: Acls)
    requires Granted(h, role, d, grants, start, mid) && Granted(h, role, d, grants, mid, now)
    ensures Granted(h, role, d, grants, start, now)
  {
    var l := h.databases[d].layout;
    var want := G.Desired(l, grants);
    G.SettledIsStable(l, role, start[d], want);
    assert HeldIn(mid[d], role) == G.Settled(l, HeldIn(start[d], role), want);
    assert start[d][role := HeldIn(mid[d], role)][role] == HeldIn(mid[d], role);
  }

  /** The databases in names have a finished sync of the grants, the others are as before. */
  ghost predicate GrantedOn(h: Host, role: string, names: set<string>, grants: seq<G.Grant>, start: Acls, now: Acls) {
    start.Keys == now.Keys == h.databases.Keys &&
    forall d :: d in h.databases ==>
      if d in names then Granted(h, role, d, grants, start, now) else now[d] == start[d]
  }

  lemma GrantedOnOneMore(h: Host, role: string, names: set<string>, d: string, grants: seq<G.Grant>, start: Acls,
                         mid: Acls, now: Acls)
    requires GrantedOn(h, role, names, grants, start, mid) && GrantedOn(h, role, {d}, grants, mid, now)
    ensures GrantedOn(h, role, names + {d}, grants, start, now)
  {
    if d in names && d in h.databases { GrantedTwice(h, role, d, grants, start, mid, now); }
  }

  type Traces = map<string, seq<map<string, Acl>>>

  /** Whatever came of it: the holdings in the named databases were safe after every statement
      of a sync of the grants, and the other databases are as before. */
  ghost predicate SafeOn(h: Host, role: string, names: set<string>, grants: seq<G.Grant>, start: Acls, since: Traces,
                         now: Acls, traces: Traces) {
    start.Keys == since.Keys == now.Keys == traces.Keys == h.databases.Keys &&
    forall d :: d in h.databases ==>
      if d in names then G.SyncRun(h.databases[d].layout, role, start[d], grants).SafeSince(since[d], traces[d], now[d])
      else now[d] == start[d] && traces[d] == since[d]
  }

  lemma SafeOnStart(h: Host, role: string, names: set<string>, grants: seq<G.Grant>, start: Acls, since: Traces)
    requires start.Keys == since.Keys == h.databases.Keys
    ensures SafeOn(h, role, names, grants, start, since, start, since)
  {
    hide G.Run.SafeAcl;
    forall d | d in h.databases
      ensures G.SyncRun(h.databases[d].layout, role, start[d], grants).SafeSince(since[d], since[d], start[d])
    {
      G.StartIsSafe(G.SyncRun(h.databases[d].layout, role, start[d], grants));
    }
  }

  /** A sync of one more database, or once more of one that is finished. */
  lemma SafeOnOneMore(h: Host, role: string, names: set<string>, done: set<string>, d: string, grants: seq<G.Grant>,
                      start: Acls, since: Traces, mid: Acls, before: Traces, now: Acls, traces: Traces)
    requires SafeOn(h, role, names, grants, start, since, mid, before) && GrantedOn(h, role, done, grants, start, mid)
    requires SafeOn(h, role, {d}, grants, mid, before, now, traces) && d in names
    ensures SafeOn(h, role, names, grants, start, since, now, traces)
  {
    hide G.Run.SafeSince, G.Run.Finished;
    if d in h.databases {
      var run := G.SyncRun(h.databases[d].layout, role, start[d], grants);
      G.SafeAgain(run, mid[d], since[d], before[d], traces[d], now[d]);
    }
  }

  lemma OneDatabaseSafe(h: Host, role: string, d: string, grants: seq<G.Grant>, start: Acls, since: Traces,
                        acl: map<string, Acl>, trace: seq<map<string, Acl>>)
    requires start.Keys == since.Keys == h.databases.Keys && d in h.databases
    requires G.SyncRun(h.databases[d].layout, role, start[d], grants).SafeSince(since[d], trace, acl)
    ensures SafeOn(h, role, {d}, grants, start, since, start[d := acl], since[d := trace])
    ensures G.SyncRun(h.databases[d].layout, role, start[d], grants).Finished(acl) ==>
      GrantedOn(h, role, {d}, grants, start, start[d := acl])
  {
    hide G.Run.SafeSince, G.Run.Finished;
  }

  ghost predicate ValidGrants(grants: seq<G.Grant>) {
    forall g :: g in grants ==> G.ValidPrivileges(g.privileges)
  }

  method SyncGrantsOnDatabase(h: Host, role: string, d: string, grants: seq<G.Grant>) returns (r: SyncResult)
    requires h.Valid()
    modifies h.Catalogs()`acl, h.Catalogs()`trace
    ensures r == Synced ==> GrantedOn(h, role, {d}, grants, old(h.Acls()), h.Acls())
    ensures SafeOn(h, role, {d}, grants, old(h.Acls()), old(h.Traces()), h.Acls(), h.Traces())
    ensures h.Reliable() && d in h.databases && ValidGrants(grants) ==> r == Synced
  {
    hide Host.Acls, Host.Traces, SafeOn, GrantedOn, G.Run.SafeSince, G.Run.Finished;
    ghost var start, since := h.Acls(), h.Traces();
    SafeOnStart(h, role, {d}, grants, start, since);
    var failed := h.Fails();
    if failed || d !in h.databases { return Aborted; }
    h.At(d);
    var cat := h.databases[d];
    r := G.SyncDatabaseGrants(cat, role, grants);
    h.OneAclChanged(d);
    h.OneTraceChanged(d);
    OneDatabaseSafe(h, role, d, grants, start, since, cat.acl, cat.trace);
  }

  /** One pass of reconcileGrantsOnHost over a list of databases. */
  method SyncGrantsOnList(h: Host, role: string, names: seq<string>, skip: set<string>, grants: seq<G.Grant>)
    returns (r: SyncResult)
    requires h.Valid()
    modifies h.Catalogs()`acl, h.Catalogs()`trace
    ensures r == Synced ==> GrantedOn(h, role, Listed(names, skip), grants, old(h.Acls()), h.Acls())
    ensures SafeOn(h, role, Listed(names, skip), grants, old(h.Acls()), old(h.Traces()), h.Acls(), h.Traces())
    ensures h.Reliable() && Listed(names, skip) <= h.databases.Keys && ValidGrants(grants) ==> r == Synced
  {
    hide Host.Acls, Host.Traces, SafeOn, Granted;
    ghost var start, since := h.Acls(), h.Traces();
    SafeOnStart(h, role, Listed(names, skip), grants, start, since);
    for i := 0 to |names|
      invariant GrantedOn(h, role, Listed(names[..i], skip), grants, start, h.Acls())
      invariant SafeOn(h, role, Listed(names, skip), grants, start, since, h.Acls(), h.Traces())
    {
      ListedNext(names, skip, i);
      if names[i] in skip { continue; }
      ghost var mid, before, done := h.Acls(), h.Traces(), Listed(names[..i], skip);
      r := SyncGrantsOnDatabase(h, role, names[i], grants);
      SafeOnOneMore(h, role, Listed(names, skip), done, names[i], grants, start, since, mid, before,
                    h.Acls(), h.Traces());
      if r != Synced { return; }
      GrantedOnOneMore(h, role, done, names[i], grants, start, mid, h.Acls());
    }
    assert names[..|names|] == names;
    r := Synced;
  }

  /** The grants every database ends with: the wanted ones where listed, none in the
      other databases to clean, and never a change in postgres. */
  ghost predicate GrantsPlaced(h: Host, role: string, listed: set<string>, cleaned: set<string>, grants: seq<G.Grant>,
                               start: Acls, now: Acls)
  {
    start.Keys == now.Keys == h.databases.Keys &&
    forall d :: d in h.databases ==>
      if d in listed && d != "postgres" then Granted(h, role, d, grants, start, now)
      else if d in cleaned && d !in listed then Granted(h, role, d, [], start, now)
      else now[d] == start[d]
  }

  /** And what holds of them wherever the run stopped. */
  ghost predicate GrantsSafe(h: Host, role: string, listed: set<string>, cleaned: set<string>, grants: seq<G.Grant>,
                             start: Acls, since: Traces, now: Acls, traces: Traces)
  {
    start.Keys == since.Keys == now.Keys == traces.Keys == h.databases.Keys &&
    forall d :: d in h.databases ==>
      if d in listed && d != "postgres"
      then G.SyncRun(h.databases[d].layout, role, start[d], grants).SafeSince(since[d], traces[d], now[d])
      else if d in cleaned && d !in listed
      then G.SyncRun(h.databases[d].layout, role, start[d], []).SafeSince(since[d], traces[d], now[d])
      else now[d] == start[d] && traces[d] == since[d]
  }

  /** The pass that applies, then the pass that cleans, or only a part of them. */
  lemma BothPassesSafe(h: Host, role: string, listed: set<string>, cleaned: set<string>, grants: seq<G.Grant>,
                       start: Acls, since: Traces, mid: Acls, before: Traces, now: Acls, traces: Traces)
    requires SafeOn(h, role, listed - {"postgres"}, grants, start, since, mid, before)
    requires SafeOn(h, role, cleaned - listed, [], mid, before, now, traces)
    ensures GrantsSafe(h, role, listed, cleaned, grants, start, since, now, traces)
  {
    hide G.Run.SafeSince;
  }

  lemma BothPassesPlaced(h: Host, role: string, listed: set<string>, cleaned: set<string>, grants: seq<G.Grant>,
                         start: Acls, mid: Acls, now: Acls)
    requires GrantedOn(h, role, listed - {"postgres"}, grants, start, mid)
    requires GrantedOn(h, role, cleaned - listed, [], mid, now)
    ensures GrantsPlaced(h, role, listed, cleaned, grants, start, now)
  {
    hide G.Run.Finished;
  }

  /** reconcileGrantsOnHost. A nil list of all user databases is the empty one. */
  method ReconcileGrantsOnHost(h: Host, role: string, databases: seq<string>, all: seq<string>, grants: seq<G.Grant>)
    returns (r: SyncResult)
    requires h.Valid()
    modifies h.Catalogs()`acl, h.Catalogs()`trace
    ensures r == Synced ==>
      GrantsPlaced(h, role, Listed(databases, {}), Listed(all, {}), grants, old(h.Acls()), h.Acls())
    ensures GrantsSafe(h, role, Listed(databases, {}), Listed(all, {}), grants,
                       old(h.Acls()), old(h.Traces()), h.Acls(), h.Traces())
    ensures h.Reliable() && Listed(databases + all, {}) <= h.databases.Keys && ValidGrants(grants) ==> r == Synced
  {
    hide Host.Acls, Host.Traces, SafeOn, GrantedOn, GrantsSafe, GrantsPlaced;
    ghost var start, since, cleaned := h.Acls(), h.Traces(), Listed(all, {});
    var targets := set d | d in databases;
    assert targets == Listed(databases, {}) && Listed(databases, {"postgres"}) == targets - {"postgres"};
    assert Listed(all, targets) == cleaned - targets && Listed(databases + all, {}) == targets + cleaned;
    r := SyncGrantsOnList(h, role, databases, {"postgres"}, grants);
    ghost var mid, before := h.Acls(), h.Traces();
    SafeOnStart(h, role, Listed(all, targets), [], mid, before);
    BothPassesSafe(h, role, targets, cleaned, grants, start, since, mid, before, mid, before);
    if r == Synced && all == [] {
      assert cleaned == {};
      NonePlaced(h, role, targets, grants, start, mid);
    }
    if r != Synced || all == [] { return; }
    r := SyncGrantsOnList(h, role, all, targets, []);
    BothPassesSafe(h, role, targets, cleaned, grants, start, since, mid, before, h.Acls(), h.Traces());
    if r == Synced {
      BothPassesPlaced(h, role, targets, cleaned, grants, start, mid, h.Acls());
    }
  }

  lemma NonePlaced(h: Host, role: string, listed: set<string>, grants: seq<G.Grant>, start: Acls, now: Acls)
    requires GrantedOn(h, role, listed - {"postgres"}, grants, start, now)
    ensures GrantsPlaced(h, role, listed, {}, grants, start, now)
  {
    hide G.Run.Finished;
  }

  // Functions on all databases

  type ProcMap = map<string, Procs>

  function ViewOn(h: Host, role: string, d: string): F.View
    requires d in h.databases
  {
    F.ViewOf(h.databases[d], role)
  }

  /** The functions of all databases that the role does not manage. */
  ghost function ForeignOf(h: Host, role: string, procs: ProcMap): map<string, map<ProcKey, Proc>> {
    map d | d in h.databases && d in procs :: ViewOn(h, role, d).Foreign(procs[d])
  }

  /** Only managed functions of the role change, and only in the named databases. */
  ghost predicate ForeignKept(h: Host, role: string, names: set<string>, start: ProcMap, now: ProcMap) {
    start.Keys == now.Keys == h.databases.Keys && ForeignOf(h, role, start) == ForeignOf(h, role, now) &&
    forall d :: d in h.databases && d !in names ==> now[d] == start[d]
  }

  lemma ForeignKeptOn(h: Host, role: string, names: set<string>, start: ProcMap, now: ProcMap, d: string)
    requires ForeignKept(h, role, names, start, now) && d in h.databases
    ensures ViewOn(h, role, d).Untouched(start[d], now[d])
  {
    assert ForeignOf(h, role, start)[d] == ForeignOf(h, role, now)[d];
  }

  lemma ForeignKeptAway(h: Host, role: string, names: set<string>, start: ProcMap, now: ProcMap, d: string)
    requires ForeignKept(h, role, names, start, now) && d in h.databases && d !in names
    ensures now[d] == start[d]
  {
  }

  lemma ForeignKeptTwice(h: Host, role: string, names: set<string>, more: set<string>, start: ProcMap, mid: ProcMap,
                         now: ProcMap)
    requires ForeignKept(h, role, names, start, mid) && ForeignKept(h, role, more, mid, now)
    ensures ForeignKept(h, role, names + more, start, now)
  {
  }

  lemma ForeignKeptWider(h: Host, role: string, names: set<string>, more: set<string>, start: ProcMap, now: ProcMap)
    requires ForeignKept(h, role, names, start, now) && names <= more
    ensures ForeignKept(h, role, more, start, now)
  {
  }

  /** A successful pass over the named databases. */
  ghost predicate Passed(h: Host, role: string, names: set<string>, functions: seq<F.Function>, start: ProcMap,
                         now: ProcMap) {
    ForeignKept(h, role, names, start, now) &&
    forall d :: d in h.databases && d in names ==> F.Reached(ViewOn(h, role, d), functions, start[d], now[d])
  }

  lemma PassedNone(h: Host, role: string, functions: seq<F.Function>, start: ProcMap)
    requires start.Keys == h.databases.Keys
    ensures Passed(h, role, {}, functions, start, start) && ForeignKept(h, role, {}, start, start)
  {
  }

  lemma PassedOneMore(h: Host, role: string, names: set<string>, d: string, functions: seq<F.Function>,
                      start: ProcMap, mid: ProcMap, now: ProcMap)
    requires Passed(h, role, names, functions, start, mid) && Passed(h, role, {d}, functions, mid, now)
    ensures Passed(h, role, names + {d}, functions, start, now)
  {
    hide F.Reached;
    ForeignKeptTwice(h, role, names, {d}, start, mid, now);
    if d in names && d in h.databases {
      F.ReachedTwice(ViewOn(h, role, d), functions, start[d], mid[d], now[d]);
    }
  }

  lemma OneDatabaseKept(h: Host, role: string, d: string, start: ProcMap, p: Procs)
    requires d in h.databases && start.Keys == h.databases.Keys
    requires ViewOn(h, role, d).Untouched(start[d], p)
    ensures ForeignKept(h, role, {d}, start, start[d := p])
  {
  }

  /** No call fails and no statement about a function in the named databases is denied. */
  ghost predicate Smooth(h: Host, role: string, names: set<string>, functions: seq<F.Function>, procs: ProcMap) {
    h.Reliable() && names <= h.databases.Keys == procs.Keys &&
    forall d :: d in names ==> SmoothAt(h, role, d, functions, procs[d])
  }

  ghost predicate SmoothAt(h: Host, role: string, d: string, functions: seq<F.Function>, procs: Procs)
    requires d in h.databases
  {
    F.Unhindered(ViewOn(h, role, d), functions, procs) &&
    forall f :: f in functions ==> F.ValidFields(f) && h.databases[d].accepts(f.args, f.result)
  }

  /** The same for a run with databases in scope and others to clean. */
  ghost predicate SmoothRun(h: Host, role: string, listed: set<string>, cleaned: set<string>,
                            functions: seq<F.Function>,
                            procs: ProcMap) {
    Smooth(h, role, listed, functions, procs) && Smooth(h, role, cleaned, [], procs)
  }

  /** A pass with the wanted functions, or one that removes all, keeps it so. */
  lemma PassedKeepsSmooth(h: Host, role: string, names: set<string>, wanted: seq<F.Function>, passed: set<string>,
                          functions: seq<F.Function>, start: ProcMap, now: ProcMap)
    requires Smooth(h, role, names, wanted, start) && Passed(h, role, passed, functions, start, now)
    requires functions == wanted || functions == []
    ensures Smooth(h, role, names, wanted, now)
  {
    hide F.Reached, F.Unhindered;
    forall d | d in names ensures SmoothAt(h, role, d, wanted, now[d]) {
      assert SmoothAt(h, role, d, wanted, start[d]);
      if d in passed {
        F.ReachedIsUnhindered(ViewOn(h, role, d), functions, wanted, start[d], now[d]);
      }
    }
  }

  /** Fewer databases, and no functions. */
  lemma SmoothForNone(h: Host, role: string, names: set<string>, fewer: set<string>, functions: seq<F.Function>,
                      procs: ProcMap)
    requires Smooth(h, role, names, functions, procs) && fewer <= names
    ensures Smooth(h, role, fewer, [], procs)
  {
    forall d | d in fewer ensures SmoothAt(h, role, d, [], procs[d]) {
      assert SmoothAt(h, role, d, functions, procs[d]);
    }
  }

  method SyncFunctionsOnDatabase(h: Host, role: string, d: string, functions: seq<F.Function>) returns (r: SyncResult)
    requires h.Valid()
    modifies h.Catalogs()`procs
    ensures ForeignKept(h, role, {d}, old(h.AllProcs()), h.AllProcs())
    ensures r == Synced ==> Passed(h, role, {d}, functions, old(h.AllProcs()), h.AllProcs())
    ensures Smooth(h, role, {d}, functions, old(h.AllProcs())) ==> r == Synced
  {
    hide Host.AllProcs, ForeignKept, F.Outcomes, F.Unhindered, F.Reached;
    ghost var start := h.AllProcs();
    PassedNone(h, role, [], start);
    ForeignKeptWider(h, role, {}, {d}, start, start);
    if d != "postgres" {  // the admin connection is reused for postgres
      var failed := h.Fails();
      if failed || d !in h.databases { return Aborted; }
    }
    h.At(d);
    assert Smooth(h, role, {d}, functions, start) ==> SmoothAt(h, role, d, functions, start[d]);
    r := F.SyncDatabaseFunctions(h.databases[d], role, functions);
    h.OneProcsChanged(d);
    OneDatabaseKept(h, role, d, start, h.databases[d].procs);
    if r == Synced { F.OutcomesReach(ViewOn(h, role, d), functions, start[d], h.databases[d].procs); }
  }

  /** One pass of reconcileFunctionsOnHost over a list of databases. */
  method SyncFunctionsOnList(h: Host, role: string, names: seq<string>, skip: set<string>, functions: seq<F.Function>)
    returns (r: SyncResult)
    requires h.Valid()
    modifies h.Catalogs()`procs
    ensures ForeignKept(h, role, Listed(names, skip), old(h.AllProcs()), h.AllProcs())
    ensures r == Synced ==> Passed(h, role, Listed(names, skip), functions, old(h.AllProcs()), h.AllProcs())
    ensures Smooth(h, role, Listed(names, skip), functions, old(h.AllProcs())) ==> r == Synced
  {
    hide Host.AllProcs, ForeignKept, SmoothAt, F.Reached;
    ghost var start, all := h.AllProcs(), Listed(names, skip);
    PassedNone(h, role, functions, start);
    assert Listed(names[..0], skip) == {};
    for i := 0 to |names|
      invariant Passed(h, role, Listed(names[..i], skip), functions, start, h.AllProcs())
      invariant Smooth(h, role, all, functions, start) ==> Smooth(h, role, all, functions, h.AllProcs())
    {
      ListedNext(names, skip, i);
      if names[i] in skip { continue; }
      ghost var mid, done := h.AllProcs(), Listed(names[..i], skip);
      r := SyncFunctionsOnDatabase(h, role, names[i], functions);
      ForeignKeptTwice(h, role, done, {names[i]}, start, mid, h.AllProcs());
      ForeignKeptWider(h, role, done + {names[i]}, all, start, h.AllProcs());
      if r != Synced { return; }
      PassedOneMore(h, role, done, names[i], functions, start, mid, h.AllProcs());
      if Smooth(h, role, all, functions, mid) {
        PassedKeepsSmooth(h, role, all, functions, {names[i]}, functions, mid, h.AllProcs());
      }
    }
    assert names[..|names|] == names;
    r := Synced;
  }

  /** The functions every database ends with: the wanted ones where listed, none in the other
      databases to clean; other functions and databases are as before. */
  ghost predicate Placed(h: Host, role: string, listed: set<string>, cleaned: set<string>, functions: seq<F.Function>,
                         start: ProcMap, now: ProcMap)
  {
    ForeignKept(h, role, listed + cleaned, start, now) &&
    forall d :: d in h.databases ==>
      if d in listed then F.Reached(ViewOn(h, role, d), functions, start[d], now[d])
      else d in cleaned ==> ViewOn(h, role, d).Exact([], now[d])
  }

  lemma CleanedIsExact(h: Host, role: string, cleaned: set<string>, start: ProcMap, now: ProcMap)
    requires Passed(h, role, cleaned, [], start, now)
    ensures forall d :: d in h.databases && d in cleaned ==> ViewOn(h, role, d).Exact([], now[d])
  {
    forall d | d in h.databases && d in cleaned ensures ViewOn(h, role, d).Exact([], now[d]) {
      assert F.Reached(ViewOn(h, role, d), [], start[d], now[d]);
    }
  }

  lemma PlacedFirst(h: Host, role: string, cleaned: set<string>, listed: set<string>, functions: seq<F.Function>,
                    start: ProcMap, mid: ProcMap, now: ProcMap)
    requires Passed(h, role, cleaned, [], start, mid) && Passed(h, role, listed, functions, mid, now)
    ensures Placed(h, role, listed, cleaned, functions, start, now)
  {
    hide F.Reached;
    CleanedIsExact(h, role, cleaned, start, mid);
    ForeignKeptTwice(h, role, cleaned, listed, start, mid, now);
    assert cleaned + listed == listed + cleaned;
    forall d | d in h.databases && d in listed && d in cleaned
      ensures F.Reached(ViewOn(h, role, d), functions, start[d], now[d])
    {
      F.ReachedFromNone(ViewOn(h, role, d), functions, start[d], mid[d], now[d]);
    }
  }

  lemma PlacedThen(h: Host, role: string, listed: set<string>, cleaned: set<string>, more: set<string>,
                   functions: seq<F.Function>, start: ProcMap, mid: ProcMap, now: ProcMap)
    requires Placed(h, role, listed, cleaned, functions, start, mid) && Passed(h, role, more, [], mid, now)
    requires more !! listed
    ensures Placed(h, role, listed, cleaned + more, functions, start, now)
  {
    hide F.Reached;
    CleanedIsExact(h, role, more, mid, now);
    ForeignKeptTwice(h, role, listed + cleaned, more, start, mid, now);
    assert listed + cleaned + more == listed + (cleaned + more);
  }

  /** The first part of reconcileFunctionsOnHost: apply to the databases in scope. */
  method ApplyFunctionsOnHost(h: Host, role: string, databases: seq<string>, all: seq<string>,
                              functions: seq<F.Function>)
    returns (r: SyncResult)
    requires h.Valid()
    modifies h.Catalogs()`procs
    ensures ForeignKept(h, role, Listed(databases, {}) + First(all), old(h.AllProcs()), h.AllProcs())
    ensures r == Synced ==>
      Placed(h, role, Listed(databases, {}), First(all), functions, old(h.AllProcs()), h.AllProcs())
    ensures SmoothRun(h, role, Listed(databases, {}), First(all), functions, old(h.AllProcs())) ==> r == Synced
  {
    hide Host.AllProcs, ForeignKept, SmoothAt, F.Reached;
    ghost var start, listed := h.AllProcs(), Listed(databases, {});
    PassedNone(h, role, [], start);
    ForeignKeptWider(h, role, {}, First(all), start, start);
    if all == [] {
      r := SyncFunctionsOnDatabase(h, role, "postgres", []);
      ForeignKeptWider(h, role, {"postgres"}, listed + First(all), start, h.AllProcs());
      if r != Synced { return; }
    }
    ghost var mid := h.AllProcs();
    if Smooth(h, role, listed, functions, start) {
      PassedKeepsSmooth(h, role, listed, functions, First(all), [], start, mid);
    }
    r := SyncFunctionsOnList(h, role, databases, {}, functions);
    ForeignKeptTwice(h, role, First(all), listed, start, mid, h.AllProcs());
    assert First(all) + listed == listed + First(all);
    if r == Synced {
      PlacedFirst(h, role, First(all), listed, functions, start, mid, h.AllProcs());
    }
  }

  /** In all-databases mode postgres is cleaned before anything else. */
  ghost function First(all: seq<string>): set<string> {
    if all == [] then {"postgres"} else {}
  }

  /** What the cleanup passes cover: postgres and the listed databases, unless in scope. */
  ghost function Cleaned(all: seq<string>, listed: set<string>): set<string> {
    ({"postgres"} - listed) + Listed(all, listed)
  }

  /** Its second part: clean up the databases that are no longer in scope. */
  method CleanFunctionsOnHost(h: Host, role: string, databases: seq<string>, all: seq<string>,
                              ghost functions: seq<F.Function>, ghost start: ProcMap)
    returns (r: SyncResult)
    requires h.Valid() && Placed(h, role, Listed(databases, {}), {}, functions, start, h.AllProcs())
    modifies h.Catalogs()`procs
    ensures ForeignKept(h, role, Listed(databases, {}) + Cleaned(all, Listed(databases, {})), start, h.AllProcs())
    ensures r == Synced ==> Placed(h, role, Listed(databases, {}), Cleaned(all, Listed(databases, {})), functions,
                                   start, h.AllProcs())
    ensures Smooth(h, role, Cleaned(all, Listed(databases, {})), [], old(h.AllProcs())) ==> r == Synced
  {
    hide Host.AllProcs, ForeignKept, SmoothAt, F.Reached;
    var targets := set d | d in databases;
    ghost var begin, listed, cleaned := h.AllProcs(), Listed(databases, {}), Cleaned(all, Listed(databases, {}));
    ghost var first := {"postgres"} - listed;
    assert targets == listed && cleaned == first + Listed(all, targets) == {} + first + Listed(all, targets);
    PassedNone(h, role, [], begin);
    if "postgres" !in targets {
      assert first == {"postgres"};
      r := SyncFunctionsOnDatabase(h, role, "postgres", []);
      ForeignKeptTwice(h, role, listed + {}, first, start, begin, h.AllProcs());
      ForeignKeptWider(h, role, listed + {} + first, listed + cleaned, start, h.AllProcs());
      if r != Synced { return; }
    } else {
      assert first == {};
    }
    ghost var mid := h.AllProcs();
    PlacedThen(h, role, listed, {}, first, functions, start, begin, mid);
    if Smooth(h, role, cleaned, [], begin) { PassedKeepsSmooth(h, role, cleaned, [], first, [], begin, mid); }
    r := SyncFunctionsOnList(h, role, all, targets, []);
    ForeignKeptTwice(h, role, listed + ({} + first), Listed(all, targets), start, mid, h.AllProcs());
    ForeignKeptWider(h, role, listed + ({} + first) + Listed(all, targets), listed + cleaned, start, h.AllProcs());
    if r == Synced {
      PlacedThen(h, role, listed, {} + first, Listed(all, targets), functions, start, mid, h.AllProcs());
    }
  }

  /** reconcileFunctionsOnHost. A nil list of all user databases is the empty one. */
  method ReconcileFunctionsOnHost(h: Host, role: string, databases: seq<string>, all: seq<string>,
                                  functions: seq<F.Function>)
    returns (r: SyncResult)
    requires h.Valid()
    modifies h.Catalogs()`procs
    ensures ForeignKept(h, role, Listed(databases, {}) + Cleaned(all, Listed(databases, {})),
                        old(h.AllProcs()), h.AllProcs())
    ensures r == Synced ==> Placed(h, role, Listed(databases, {}), Cleaned(all, Listed(databases, {})), functions,
                                   old(h.AllProcs()), h.AllProcs())
    ensures var listed := Listed(databases, {});
      SmoothRun(h, role, listed, Cleaned(all, listed), functions, old(h.AllProcs())) ==> r == Synced
  {
    hide Host.AllProcs, ForeignKept, SmoothAt, F.Reached;
    ghost var start, listed, cleaned := h.AllProcs(), Listed(databases, {}), Cleaned(all, Listed(databases, {}));
    SmoothFirst(h, role, listed, functions, all, start);
    r := ApplyFunctionsOnHost(h, role, databases, all, functions);
    ghost var mid := h.AllProcs();
    FirstOrCleaned(all, listed);
    ForeignKeptWider(h, role, listed + First(all), listed + cleaned, start, mid);
    if r != Synced { return; }
    if all == [] {
      PlacedNarrower(h, role, listed, First(all), functions, start, mid);
    } else {
      SmoothApart(h, role, cleaned, listed + First(all), start, mid);
      r := CleanFunctionsOnHost(h, role, databases, all, functions, start);
    }
  }

  lemma FirstOrCleaned(all: seq<string>, listed: set<string>)
    ensures listed + First(all) <= listed + Cleaned(all, listed)
    ensures all == [] ==> Cleaned(all, listed) == First(all) - listed
  {
  }

  /** Postgres is listed or to be cleaned, so the first pass over it goes smoothly too. */
  lemma SmoothFirst(h: Host, role: string, listed: set<string>, functions: seq<F.Function>, all: seq<string>,
                    procs: ProcMap)
    requires h.Valid()
    ensures SmoothRun(h, role, listed, Cleaned(all, listed), functions, procs) ==>
      SmoothRun(h, role, listed, First(all), functions, procs)
  {
    if SmoothRun(h, role, listed, Cleaned(all, listed), functions, procs) {
      SmoothForNone(h, role, Cleaned(all, listed), Cleaned(all, listed), [], procs);
      SmoothForNone(h, role, listed, listed, functions, procs);
    }
  }

  /** Databases that a pass did not touch stay smooth. */
  lemma SmoothApart(h: Host, role: string, names: set<string>, others: set<string>, start: ProcMap, now: ProcMap)
    requires ForeignKept(h, role, others, start, now) && names !! others
    ensures Smooth(h, role, names, [], start) ==> Smooth(h, role, names, [], now)
  {
  }

  lemma PlacedNarrower(h: Host, role: string, listed: set<string>, cleaned: set<string>, functions: seq<F.Function>,
                       start: ProcMap, now: ProcMap)
    requires Placed(h, role, listed, cleaned, functions, start, now)
    ensures Placed(h, role, listed, cleaned - listed, functions, start, now)
  {
    assert listed + (cleaned - listed) == listed + cleaned;
  }

  // The whole host

  /** EnsureCustomRole: revoke what is no longer wanted one by one, then grant the
      missing roles in one statement. What is kept is never lost on the way. */
  method EnsureCustomRole(h: Host, role: string, grantRoles: seq<string>) returns (ok: bool)
    modifies h`roles, h`memberships
    ensures h.roles == old(h.roles) || h.roles == old(h.roles) + {role}
    ensures forall other :: other != role ==> h.Members(other) == old(h.Members(other))
    ensures old(h.Members(role)) * (set g | g in grantRoles) <= h.Members(role)
    ensures h.Members(role) <= old(h.Members(role)) + (set g | g in grantRoles)
    ensures ok ==> role in h.roles && h.Members(role) == set g | g in grantRoles
    ensures h.reliable ==> ok
  {
    var failed := h.Fails();
    var created := *;
    if !failed || created {
      h.roles := h.roles + {role};
    }
    if failed { return false; }
    failed := h.Fails();
    if failed { return false; }
    ghost var start := h.Members(role);
    var current := Enumerate(h.Members(role));
    var desired := set g | g in grantRoles;
    for i := 0 to |current|
      invariant h.roles == old(h.roles) + {role}
      invariant forall other :: other != role ==> h.Members(other) == old(h.Members(other))
      invariant start * desired <= h.Members(role) <= start
      invariant forall g :: g in current[..i] && g in h.Members(role) ==> g in desired
    {
      if current[i] !in desired {
        failed := h.Fails();
        var carriedOut := *;
        if !failed || carriedOut {
          h.memberships := h.memberships[role := h.Members(role) - {current[i]}];
        }
        if failed { return false; }
      }
    }
    assert current[..|current|] == current;
    assert h.Members(role) == start * desired;
    var toGrant := set g | g in grantRoles && g !in current;
    assert toGrant == desired - start;
    assert start * desired + toGrant == desired;
    if toGrant != {} {
      failed := h.Fails();
      var carriedOut := *;
      if !failed || carriedOut {
        h.memberships := h.memberships[role := h.Members(role) + toGrant];
      }
      if failed { return false; }
    }
    ok := true;
  }

  /** The databases the spec applies to. */
  ghost function Scope(h: Host, targets: seq<string>): set<string> {
    if targets == [] then UsersOf(h) else (set d | d in targets) - RESERVED
  }

  /** The user databases and postgres, as far as they are out of scope. */
  ghost function OutOfScope(h: Host, targets: seq<string>): set<string> {
    UsersOf(h) + {"postgres"} - Scope(h, targets)
  }

  /** A database that is no template and none of the two that belong to the server. */
  ghost predicate IsForUsers(h: Host, d: string) {
    d in h.databases && d !in h.templates && d != "postgres" && d != "rdsadmin"
  }

  /** In scope are the listed databases without the reserved ones, or else all for users; out
      of scope are the other ones for users, and postgres unless it is listed. */
  lemma ScopeIff(h: Host, targets: seq<string>, d: string)
    requires h.Valid()
    ensures d in Scope(h, targets) <==>
      if targets == [] then IsForUsers(h, d)
      else d in targets && d != "rdsadmin" && d != "template0" && d != "template1"
    ensures d in OutOfScope(h, targets) <==>
      if targets == [] then d == "postgres" else d !in targets && (IsForUsers(h, d) || d == "postgres")
  {
  }

  /** resolveTargetDatabases. */
  method ResolveTargetDatabases(h: Host, targets: seq<string>) returns (ok: bool, databases: seq<string>,
                                all: seq<string>)
    requires h.Valid()
    ensures ok ==> Listed(databases, {}) == Scope(h, targets)
    ensures ok ==> Cleaned(all, Scope(h, targets)) == OutOfScope(h, targets)
    ensures ok ==> Listed(all, {}) == if targets == [] then {} else UsersOf(h)
    ensures h.reliable ==> ok
  {
    databases, all := [], [];
    if |targets| > 0 {
      for i := 0 to |targets|
        invariant forall d :: d in databases <==> d in targets[..i] && d !in RESERVED
      {
        if targets[i] in RESERVED { continue; }
        databases := databases + [targets[i]];
      }
      assert targets[..|targets|] == targets;
      ok, all := UserDatabases(h);
    } else {
      ok, databases := UserDatabases(h);
    }
  }

  /** In all-databases mode there is no user database out of scope, so nothing is lost
      by not cleaning any. */
  lemma ScopedGrants(h: Host, role: string, targets: seq<string>, cleaned: set<string>, grants: seq<G.Grant>,
                     start: Acls, now: Acls)
    requires GrantsPlaced(h, role, Scope(h, targets), cleaned, grants, start, now)
    requires cleaned == if targets == [] then {} else UsersOf(h)
    ensures GrantsPlaced(h, role, Scope(h, targets), UsersOf(h), grants, start, now)
  {
  }

  lemma ScopedSafety(h: Host, role: string, targets: seq<string>, cleaned: set<string>, grants: seq<G.Grant>,
                     start: Acls, since: Traces, now: Acls, traces: Traces)
    requires GrantsSafe(h, role, Scope(h, targets), cleaned, grants, start, since, now, traces)
    requires cleaned == if targets == [] then {} else UsersOf(h)
    ensures GrantsSafe(h, role, Scope(h, targets), UsersOf(h), grants, start, since, now, traces)
  {
    hide G.Run.SafeSince;
  }

  method ReconcileDatabases(h: Host, role: string, ghost targets: seq<string>, databases: seq<string>, all: seq<string>,
                            grants: seq<G.Grant>, functions: seq<F.Function>) returns (r: SyncResult)
    requires h.Valid()
    requires Listed(databases, {}) == Scope(h, targets) && Cleaned(all, Scope(h, targets)) == OutOfScope(h, targets)
    requires Listed(all, {}) == if targets == [] then {} else UsersOf(h)
    modifies h.Catalogs()`acl, h.Catalogs()`trace, h.Catalogs()`procs
    ensures r == Synced ==> GrantsPlaced(h, role, Scope(h, targets), UsersOf(h), grants, old(h.Acls()), h.Acls())
    ensures GrantsSafe(h, role, Scope(h, targets), UsersOf(h), grants,
                       old(h.Acls()), old(h.Traces()), h.Acls(), h.Traces())
    ensures r == Synced ==>
      Placed(h, role, Scope(h, targets), OutOfScope(h, targets), functions, old(h.AllProcs()), h.AllProcs())
    ensures ForeignKept(h, role, Scope(h, targets) + OutOfScope(h, targets), old(h.AllProcs()), h.AllProcs())
    ensures ValidGrants(grants) ==>
      (SmoothRun(h, role, Scope(h, targets), OutOfScope(h, targets), functions, old(h.AllProcs())) ==> r == Synced)
  {
    hide Host.Acls, Host.Traces, Host.AllProcs, GrantsPlaced, GrantsSafe, Placed, ForeignKept;
    ghost var acls, traces, procs := h.Acls(), h.Traces(), h.AllProcs();
    assert Listed(databases + all, {}) == Listed(databases, {}) + Listed(all, {});
    r := ReconcileGrantsOnHost(h, role, databases, all, grants);
    ScopedSafety(h, role, targets, Listed(all, {}), grants, acls, traces, h.Acls(), h.Traces());
    ProcsFrame(h);
    if r != Synced {
      PassedNone(h, role, [], procs);
      ForeignKeptWider(h, role, {}, Scope(h, targets) + OutOfScope(h, targets), procs, procs);
      return;
    }
    ScopedGrants(h, role, targets, Listed(all, {}), grants, acls, h.Acls());
    label granted:
    r := ReconcileFunctionsOnHost(h, role, databases, all, functions);
    AclsFrame@granted(h);
  }

  /** reconcileOnHost, after connecting and the preflight check. */
  method ReconcileOnHost(h: Host, role: string, grantRoles: seq<string>, targets: seq<string>,
                         grants: seq<G.Grant>, functions: seq<F.Function>) returns (r: SyncResult)
    requires h.Valid()
    modifies h`roles, h`memberships, h.Catalogs()`acl, h.Catalogs()`trace, h.Catalogs()`procs
    ensures r == Synced ==> role in h.roles && h.Members(role) == set g | g in grantRoles
    ensures r == Synced ==> GrantsPlaced(h, role, Scope(h, targets), UsersOf(h), grants, old(h.Acls()), h.Acls())
    ensures GrantsSafe(h, role, Scope(h, targets), UsersOf(h), grants,
                       old(h.Acls()), old(h.Traces()), h.Acls(), h.Traces())
    ensures r == Synced ==>
      Placed(h, role, Scope(h, targets), OutOfScope(h, targets), functions, old(h.AllProcs()), h.AllProcs())
    ensures ForeignKept(h, role, Scope(h, targets) + OutOfScope(h, targets), old(h.AllProcs()), h.AllProcs())
    ensures h.roles == old(h.roles) || h.roles == old(h.roles) + {role}
    ensures forall other :: other != role ==> h.Members(other) == old(h.Members(other))
    ensures old(h.Members(role)) * (set g | g in grantRoles) <= h.Members(role)
    ensures h.Members(role) <= old(h.Members(role)) + (set g | g in grantRoles)
    ensures ValidGrants(grants) ==>
      (SmoothRun(h, role, Scope(h, targets), OutOfScope(h, targets), functions, old(h.AllProcs())) ==> r == Synced)
  {
    hide Host.Acls, Host.Traces, Host.AllProcs, GrantsPlaced, GrantsSafe, Placed, ForeignKept;
    hide Scope, OutOfScope, UsersOf, Listed, Cleaned, SmoothAt, ValidGrants;
    r := Aborted;
    ghost var acls, traces, procs := h.Acls(), h.Traces(), h.AllProcs();
    NothingDone(h, role, targets, grants, acls, traces, procs);
    var failed := h.Fails();
    AclsFrame(h);
    ProcsFrame(h);
    if failed { return; }
    var ok, databases, all := ResolveTargetDatabases(h, targets);
    AclsFrame(h);
    ProcsFrame(h);
    if !ok { return; }
    ok := EnsureCustomRole(h, role, grantRoles);
    AclsFrame(h);
    ProcsFrame(h);
    if !ok { return; }
    r := ReconcileDatabases(h, role, targets, databases, all, grants, functions);
  }

  lemma NothingDone(h: Host, role: string, targets: seq<string>, grants: seq<G.Grant>, acls: Acls, traces: Traces,
                    procs: ProcMap)
    requires acls.Keys == traces.Keys == procs.Keys == h.databases.Keys
    ensures GrantsSafe(h, role, Scope(h, targets), UsersOf(h), grants, acls, traces, acls, traces)
    ensures ForeignKept(h, role, Scope(h, targets) + OutOfScope(h, targets), procs, procs)
  {
    SafeOnStart(h, role, Scope(h, targets) - {"postgres"}, grants, acls, traces);
    SafeOnStart(h, role, UsersOf(h) - Scope(h, targets), [], acls, traces);
    BothPassesSafe(h, role, Scope(h, targets), UsersOf(h), grants, acls, traces, acls, traces, acls, traces);
  }

  /** Two successful runs in a row converge on every database, from any state. */
  method ReconcileTwice(h: Host, role: string, grantRoles: seq<string>, targets: seq<string>,
                        grants: seq<G.Grant>, functions: seq<F.Function>) returns (r: SyncResult)
    requires h.Valid()
    modifies h`roles, h`memberships, h.Catalogs()`acl, h.Catalogs()`trace, h.Catalogs()`procs
    ensures r == Synced && F.DistinctNames(functions) ==>
      forall d :: d in h.databases ==>
        (d in Scope(h, targets) ==> ViewOn(h, role, d).Exact(functions, h.AllProcs()[d])) &&
        (d in OutOfScope(h, targets) ==> ViewOn(h, role, d).Exact([], h.AllProcs()[d]))
  {
    hide Host.Acls, Host.Traces, Host.AllProcs, GrantsPlaced, GrantsSafe, ForeignKept, F.Reached;
    ghost var start := h.AllProcs();
    r := ReconcileOnHost(h, role, grantRoles, targets, grants, functions);
    if r != Synced { return; }
    ghost var mid := h.AllProcs();
    r := ReconcileOnHost(h, role, grantRoles, targets, grants, functions);
    ghost var now := h.AllProcs();
    if r == Synced {
      forall d | d in h.databases && d in Scope(h, targets)
        ensures F.DistinctNames(functions) ==> ViewOn(h, role, d).Exact(functions, now[d])
      {
        F.ReachedTwice(ViewOn(h, role, d), functions, start[d], mid[d], now[d]);
      }
    }
  }

  twostate lemma AclsFrame(h: Host)
    requires unchanged(h.Catalogs()`acl) && unchanged(h.Catalogs()`trace)
    ensures h.Acls() == old(h.Acls()) && h.Traces() == old(h.Traces())
  {
  }

  twostate lemma ProcsFrame(h: Host)
    requires unchanged(h.Catalogs()`procs)
    ensures h.AllProcs() == old(h.AllProcs())
  {
  }

  ghost function WantedOn(h: Host, targets: seq<string>, grants: seq<G.Grant>, d: string): set<GrantKey>
    requires d in h.databases
  {
    if d in Scope(h, targets) then G.Desired(h.databases[d].layout, grants) else {}
  }

  /** With nothing skipped: in every database in scope exactly the wanted privileges,
      in every other user database none; reserved databases are never in scope. */
  lemma UnskippedIsExact(h: Host, role: string, targets: seq<string>, grants: seq<G.Grant>, start: Acls, now: Acls,
                         d: string)
    requires h.Valid() && GrantsPlaced(h, role, Scope(h, targets), UsersOf(h), grants, start, now) && d in h.databases
    requires G.NothingSkipped(h.databases[d].layout, HeldIn(start[d], role), WantedOn(h, targets, grants, d))
    ensures var want := G.Desired(h.databases[d].layout, grants);
            if d in Scope(h, targets) && d != "postgres" then HeldIn(now[d], role) == Acl(want, G.SchemasOf(want))
            else if h.IsUser(d) then HeldIn(now[d], role) == NOTHING
            else now[d] == start[d]
    ensures d in {"rdsadmin", "template0", "template1"} ==>
      now[d] == start[d] && d !in Scope(h, targets) && d !in OutOfScope(h, targets)
  {
    var l := h.databases[d].layout;
    var held := HeldIn(start[d], role);
    if d in Scope(h, targets) && d != "postgres" {
      G.SettledIsExact(l, held, G.Desired(l, grants));
    } else if h.IsUser(d) {
      assert G.Desired(l, []) == {};
      G.SettledIsExact(l, held, {});
    }
  }
}
