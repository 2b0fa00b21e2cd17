/** SECURITY DEFINER functions of a custom role in one database
    (pkg/postgres/customrole_functions.go). */
module Functions {
  import opened Catalogs
  import opened FunctionNames

  datatype Function = Function(name: string, args: string, result: string, owningRole: string, body: string)

  const CONTROLLER_USER := "$controllerUser"

  /** The field rules of validateFunction. */
  predicate ValidFields(f: Function) {
    f.name != "" && !HasSeparator(f.name) && f.result != "" && f.body != ""
  }

  function ResolvedOwner(l: Layout, f: Function): string {
    if f.owningRole == "" then l.owner
    else if f.owningRole == CONTROLLER_USER then l.controller
    else f.owningRole
  }

  ghost predicate DistinctNames(functions: seq<Function>) {
    forall i, j :: 0 <= i < j < |functions| ==> functions[i].name != functions[j].name
  }

  /** The functions of one database as seen by one role's reconciliation. */
  datatype View = View(l: Layout, signature: string -> Signature, role: string) {
    function Name(f: Function): string {
      ManagedName(role, f.name)
    }

    function Key(f: Function): ProcKey {
      ProcKey(Name(f), signature(f.args).types)
    }

    function Def(f: Function): Definition {
      Definition(f.result, signature(f.args).names, f.body)
    }

    ghost predicate Mine(k: ProcKey) {
      IsManaged(role, k.name)
    }

    /** Owned as the spec says, executable by the role and not by PUBLIC. */
    ghost predicate Guarded(p: Proc, f: Function) {
      p.owner == ResolvedOwner(l, f) && role in p.execute && !p.isPublic
    }

    ghost predicate Right(p: Proc, f: Function) {
      Guarded(p, f) && p.def == Def(f)
    }

    /** The managed functions are exactly the given ones. */
    ghost predicate Exact(functions: seq<Function>, procs: Procs) {
      (forall k :: k in procs.defs && Mine(k) ==> exists i :: 0 <= i < |functions| && k == Key(functions[i])) &&
      (forall i :: 0 <= i < |functions| ==>
        Key(functions[i]) in procs.defs && Right(procs.defs[Key(functions[i])], functions[i]))
    }

    /** At most one overload of each managed name. */
    ghost predicate OneEach(procs: Procs) {
      forall k, k' :: k in procs.defs && k' in procs.defs && Mine(k) && k.name == k'.name ==> k == k'
    }

    /** At most one overload, whatever its arguments, for each given name, guarded and with
        the right definition if it has the right arguments; and no other managed function. */
    ghost predicate Tidy(functions: seq<Function>, procs: Procs) {
      OneEach(procs) &&
      forall k :: k in procs.defs && Mine(k) ==>
        exists i :: 0 <= i < |functions| && Fits(k, procs.defs[k], functions[i])
    }

    ghost predicate Fits(k: ProcKey, p: Proc, f: Function) {
      k.name == Name(f) && Guarded(p, f) && (k == Key(f) ==> p.def == Def(f))
    }

    /** And one there is. */
    ghost predicate Pruned(functions: seq<Function>, procs: Procs) {
      Tidy(functions, procs) && forall i :: 0 <= i < |functions| ==> Present(functions[i], procs)
    }

    ghost predicate Present(f: Function, procs: Procs) {
      exists k :: k in procs.defs && k.name == Name(f) && Guarded(procs.defs[k], f)
    }

    ghost predicate Newest(procs: Procs, key: ProcKey) {
      forall k :: k in procs.defs && k.name == key.name && key in procs.defs ==>
        procs.defs[k].oid <= procs.defs[key].oid
    }

    /** No older overload with the wanted arguments hides behind a newer one. */
    ghost predicate Ready(f: Function, procs: Procs) {
      Key(f) in procs.defs ==> Newest(procs, Key(f))
    }

    ghost predicate SameOwner(f: Function, procs: Procs) {
      forall k :: k in procs.defs && k.name == Name(f) ==> procs.defs[k].owner == ResolvedOwner(l, f)
    }

    ghost predicate OtherOwners(f: Function, procs: Procs) {
      forall k :: k in procs.defs && k.name == Name(f) ==> procs.defs[k].owner != ResolvedOwner(l, f)
    }

    ghost predicate OneOverload(f: Function, procs: Procs) {
      forall k, k' :: k in procs.defs && k' in procs.defs && k.name == k'.name == Name(f) ==> k == k'
    }

    /** The owner that the server lists first for each managed name, in some order. */
    ghost predicate Listing(procs: Procs, owners: map<string, string>) {
      (forall n :: n in owners ==>
        exists k :: k in procs.defs && Mine(k) && k.name == n && procs.defs[k].owner == owners[n]) &&
      (forall k :: k in procs.defs && Mine(k) ==> k.name in owners)
    }

    /** The wanted overload is there, but with other parameter names. */
    ghost predicate Renamed(f: Function, procs: Procs) {
      Key(f) in procs.defs && procs.defs[Key(f)].def.names != Def(f).names
    }

    /** The run gives the function its new names, and then drops it under its old ones. */
    ghost predicate Vanishes(f: Function, procs: Procs, owners: map<string, string>) {
      Renamed(f, procs) && Lands(f, procs, owners)
    }

    /** The overload of f, if it is there, can be replaced or is created anew. */
    ghost predicate Replaces(f: Function, procs: Procs, owners: map<string, string>) {
      procs.Takes(Key(f), Def(f)) ||
      (Name(f) in owners && owners[Name(f)] != ResolvedOwner(l, f))
    }

    /** The run settles on the wanted overload of f: nothing newer hides it, or the owner
        listed first is another one, so that it is created anew. */
    ghost predicate Lands(f: Function, procs: Procs, owners: map<string, string>) {
      Ready(f, procs) || (Name(f) in owners && owners[Name(f)] != ResolvedOwner(l, f))
    }

    /** The functions that are not managed by this role. */
    ghost function Foreign(procs: Procs): map<ProcKey, Proc> {
      map k | k in procs.defs && !Mine(k) :: procs.defs[k]
    }

    ghost predicate Untouched(before: Procs, after: Procs) {
      Foreign(before) == Foreign(after)
    }
  }

  // What the view means in terms of the spec

  /** The rules of validateFunction: no field but the arguments and the owner may be empty, and
      the name has no separator. */
  lemma ValidFieldsIff(f: Function)
    ensures ValidFields(f) <==>
      f.name != "" && f.result != "" && f.body != "" && !exists a, b :: f.name == a + "__" + b
  {
    SeparatorIff(f.name);
  }

  /** The database owner by default, the controller's own role for the sentinel, and otherwise
      the role that the spec names; executable by the role and not by PUBLIC. */
  ghost predicate ServedAs(l: Layout, role: string, f: Function, p: Proc) {
    (f.owningRole == "" ==> p.owner == l.owner) &&
    (f.owningRole == "$controllerUser" ==> p.owner == l.controller) &&
    (f.owningRole != "" && f.owningRole != "$controllerUser" ==> p.owner == f.owningRole) &&
    role in p.execute && !p.isPublic
  }

  /** Every function with the managed name of one in the spec is served as that says. */
  ghost predicate AllServed(l: Layout, role: string, functions: seq<Function>, procs: Procs) {
    forall f, k :: f in functions && k in procs.defs && k.name == role + "__" + f.name ==>
      ServedAs(l, role, f, procs.defs[k])
  }

  lemma TidyIsServed(view: View, functions: seq<Function>, procs: Procs)
    requires view.Tidy(functions, procs) && DistinctNames(functions) && forall f :: f in functions ==> ValidFields(f)
    ensures AllServed(view.l, view.role, functions, procs)
  {
    forall f, k | f in functions && k in procs.defs && k.name == view.role + "__" + f.name
      ensures ServedAs(view.l, view.role, f, procs.defs[k])
    {
      CreatedIsFound(view.role, f.name);
      assert k.name == view.Name(f) && view.Mine(k);
      var i :| 0 <= i < |functions| && view.Fits(k, procs.defs[k], functions[i]);
      NameInjective(view, f, functions[i]);
      assert f == functions[i];
    }
  }

  /** The function of the spec, and of its arguments' types, is there as it is written. */
  ghost predicate WrittenAs(l: Layout, signature: string -> Signature, role: string, f: Function, procs: Procs) {
    var k := ProcKey(role + "__" + f.name, signature(f.args).types);
    k in procs.defs && ServedAs(l, role, f, procs.defs[k]) && procs.defs[k].def.body == f.body &&
    procs.defs[k].def.result == f.result && procs.defs[k].def.names == signature(f.args).names
  }

  /** Exact: the functions of the spec as they are written, and under the role's prefix no
      other one whose name has no further separator. */
  lemma ExactIff(view: View, functions: seq<Function>, procs: Procs)
    ensures view.Exact(functions, procs) <==>
      (forall f :: f in functions ==> WrittenAs(view.l, view.signature, view.role, f, procs)) &&
      forall k, n :: k in procs.defs && k.name == view.role + "__" + n && (!exists a, b :: n == a + "__" + b) ==>
        exists f :: f in functions && k == ProcKey(view.role + "__" + f.name, view.signature(f.args).types)
  {
    assert forall i :: 0 <= i < |functions| ==> functions[i] in functions;
    forall f ensures view.Key(f) == ProcKey(view.role + "__" + f.name, view.signature(f.args).types) {
    }
    forall f | view.Key(f) in procs.defs
      ensures view.Right(procs.defs[view.Key(f)], f) <==> WrittenAs(view.l, view.signature, view.role, f, procs)
    {
    }
    forall k: ProcKey
      ensures view.Mine(k) <==>
        exists func :: k.name == view.role + "__" + func && !exists a, b :: func == a + "__" + b
    {
      ManagedIff(view.role, k.name);
    }
  }

  ghost predicate SameAt(before: Procs, after: Procs, k: ProcKey) {
    (k in before.defs <==> k in after.defs) && (k in before.defs ==> before.defs[k] == after.defs[k])
  }

  ghost predicate SameBut(before: Procs, after: Procs, name: string) {
    forall k: ProcKey :: k.name != name ==> SameAt(before, after, k)
  }

  lemma UntouchedIff(view: View, before: Procs, after: Procs)
    ensures view.Untouched(before, after) <==> forall k :: !view.Mine(k) ==> SameAt(before, after, k)
  {
    var a, b := view.Foreign(before), view.Foreign(after);
    if view.Untouched(before, after) {
      forall k | !view.Mine(k) ensures SameAt(before, after, k) {
        assert (k in a <==> k in b) && (k in a ==> a[k] == b[k]);
      }
    }
  }

  function ViewOf(cat: Catalog, role: string): View {
    View(cat.layout, cat.signature, role)
  }

  /** The identity arguments that the server shows are types and parameter names. */
  datatype Identity = Identity(key: ProcKey, names: seq<string>)

  datatype Found = Found(id: Identity, owner: string)

  function FoundAt(procs: Procs, k: ProcKey): Found
    requires k in procs.defs
  {
    Found(Identity(k, procs.defs[k].def.names), procs.defs[k].owner)
  }

  ghost predicate Lists(view: View, start: Procs, current: seq<Found>) {
    forall x :: x in current <==> x.id.key in start.defs && view.Mine(x.id.key) && x == FoundAt(start, x.id.key)
  }

  /** managedFunctions, in whatever order the server returns them. */
  method ManagedFunctions(cat: Catalog, role: string) returns (ok: bool, found: seq<Found>)
    ensures ok ==> Lists(ViewOf(cat, role), cat.procs, found)
    ensures cat.reliable ==> ok
  {
    var failed := cat.Fails();
    if failed { return false, []; }
    found := Enumerate(set k | k in cat.procs.defs && IsManaged(role, k.name) :: FoundAt(cat.procs, k));
    ok := true;
  }

  /** The newest overload of a name. */
  method NewestArgs(cat: Catalog, name: string, ghost witnessKey: ProcKey) returns (ok: bool, newest: Identity)
    requires witnessKey in cat.procs.defs && witnessKey.name == name
    ensures ok ==> newest.key in cat.procs.defs && newest.key.name == name
    ensures ok ==> newest.names == cat.procs.defs[newest.key].def.names
    ensures ok ==> forall k :: k in cat.procs.defs && k.name == name ==>
                     cat.procs.defs[k].oid <= cat.procs.defs[newest.key].oid
    ensures cat.reliable ==> ok
  {
    var failed := cat.Fails();
    if failed { return false, Identity(ProcKey("", ""), []); }
    var keys := Enumerate(set k | k in cat.procs.defs && k.name == name);
    assert witnessKey in keys;
    assert forall j :: 0 <= j < |keys| ==> keys[j] in keys;
    var best := keys[0];
    for i := 1 to |keys|
      invariant best in keys
      invariant forall j :: 0 <= j < i ==> cat.procs.defs[keys[j]].oid <= cat.procs.defs[best].oid
    {
      if cat.procs.defs[keys[i]].oid > cat.procs.defs[best].oid {
        best := keys[i];
      }
    }
    forall k | k in cat.procs.defs && k.name == name
      ensures cat.procs.defs[k].oid <= cat.procs.defs[best].oid
    {
      assert k in keys;
    }
    ok, newest := true, Identity(best, cat.procs.defs[best].def.names);
  }

  lemma SameButStatement(start: Procs, procs: Procs, key: ProcKey, creator: string, def: Definition)
    requires SameBut(start, procs, key.name)
    ensures SameBut(start, procs.Drop(key), key.name) && SameBut(start, procs.Create(key, creator, def), key.name)
  {
  }

  /** The controller may act as the resolved owner, who may create in the public schema. */
  predicate MayOwn(l: Layout, f: Function) {
    ResolvedOwner(l, f) in l.creators && ResolvedOwner(l, f) !in l.denied
  }

  /** No statement for f is denied. */
  ghost predicate Allowed(view: View, f: Function, procs: Procs, hasPrevious: bool, previous: string) {
    var (key, owner) := (view.Key(f), ResolvedOwner(view.l, f));
    MayOwn(view.l, f) && (hasPrevious ==> previous !in view.l.denied) &&
    (key in procs.defs ==> view.l.ActsFor(if hasPrevious then previous else owner, procs.defs[key].owner)) &&
    ((hasPrevious && previous != owner) ||
      (procs.Takes(key, view.Def(f)) && (view.Ready(f, procs) || view.SameOwner(f, procs))))
  }

  function Created(view: View, f: Function, procs: Procs, ownerChange: bool): Procs {
    var start := if ownerChange then procs.Drop(view.Key(f)) else procs;
    start.Create(view.Key(f), ResolvedOwner(view.l, f), view.Def(f))
  }

  /** Drop on owner change, then create or replace. */
  method Create(cat: Catalog, role: string, f: Function, hasPrevious: bool, previous: string) returns (ok: bool)
    modifies cat`procs
    ensures SameBut(old(cat.procs), cat.procs, ViewOf(cat, role).Name(f))
    ensures ok ==> cat.procs == Created(ViewOf(cat, role), f, old(cat.procs),
                                        hasPrevious && previous != ResolvedOwner(cat.layout, f))
    ensures ok ==> (hasPrevious && previous != ResolvedOwner(cat.layout, f)) ||
                   old(cat.procs).Takes(ViewOf(cat, role).Key(f), ViewOf(cat, role).Def(f))
    ensures ok ==> MayOwn(cat.layout, f)
    ensures cat.reliable && Allowed(ViewOf(cat, role), f, old(cat.procs), hasPrevious, previous) ==> ok
  {
    var owner, key := ResolvedOwner(cat.layout, f), ViewOf(cat, role).Key(f);
    var def := ViewOf(cat, role).Def(f);
    ok := false;
    SameButStatement(cat.procs, cat.procs, key, owner, def);
    if hasPrevious && previous != owner {
      SameButStatement(cat.procs, cat.procs.Drop(key), key, owner, def);
      var o := cat.DropFunction(previous, key);
      if o != Done { return; }
    }
    var o := cat.CreateOrReplace(owner, key, def);
    ok := o == Done;
  }

  /** Only owner and privileges of one function differ. */
  ghost predicate Reguarded(before: Procs, after: Procs, key: ProcKey) {
    key in before.defs && key in after.defs && after == before.Replace(key, after.defs[key]) &&
    after.defs[key].oid == before.defs[key].oid && after.defs[key].def == before.defs[key].def
  }

  lemma ReguardedAgain(a: Procs, b: Procs, key: ProcKey, p: Proc)
    requires Reguarded(a, b, key) && p.oid == b.defs[key].oid && p.def == b.defs[key].def
    ensures Reguarded(a, b.Replace(key, p), key)
  {
  }

  /** ALTER FUNCTION OWNER, REVOKE ALL FROM PUBLIC, GRANT EXECUTE. */
  method Guard(cat: Catalog, role: string, key: ProcKey, owner: string) returns (ok: bool)
    requires key in cat.procs.defs
    modifies cat`procs
    ensures Reguarded(old(cat.procs), cat.procs, key)
    ensures ok ==>
      cat.procs.defs[key].owner == owner && role in cat.procs.defs[key].execute && !cat.procs.defs[key].isPublic
    ensures cat.reliable && old(cat.MayAlterOwner(owner, key, owner)) ==> ok
  {
    ok := false;
    ghost var a := cat.procs;
    assert a == a.Replace(key, a.defs[key]);
    var p := cat.procs.defs[key].(owner := owner);
    ReguardedAgain(a, a, key, p);
    var o := cat.AlterOwner(owner, key, owner);
    if o != Done { return; }
    ReguardedAgain(a, cat.procs, key, p.(isPublic := false));
    o := cat.RevokeFromPublic(owner, key);
    if o != Done { return; }
    ReguardedAgain(a, cat.procs, key, p.(isPublic := false, execute := p.execute + {role}));
    o := cat.GrantExecute(owner, key, role);
    ok := o == Done;
  }

  /** The overload a round of the loop settles on: the wanted one exactly when
      that was created anew or was the newest before. */
  ghost predicate Landed(view: View, f: Function, start: Procs, ownerChange: bool, after: Procs, landed: ProcKey) {
    landed in after.defs && landed.name == view.Name(f) &&
    (landed == view.Key(f) <==> ownerChange || view.Ready(f, start)) &&
    (if landed == view.Key(f) then after.defs[landed].def == view.Def(f)
     else landed in start.defs && after.defs[landed].def == start.defs[landed].def) &&
    forall k :: k in after.defs && k != landed ==> k in start.defs && after.defs[k].owner == start.defs[k].owner
  }

  lemma NewestLands(view: View, f: Function, start: ProcTable, ownerChange: bool, created: Procs, landed: ProcKey)
    requires created == Created(view, f, start, ownerChange)
    requires landed in created.defs && landed.name == view.Name(f) && view.Newest(created, landed)
    ensures Landed(view, f, start, ownerChange, created, landed)
  {
  }

  lemma ReguardedKeeps(a: Procs, b: Procs, key: ProcKey)
    requires Reguarded(a, b, key)
    ensures SameBut(a, b, key.name) && b.defs.Keys == a.defs.Keys
  {
  }

  lemma ReguardedLands(view: View, f: Function, start: Procs, ownerChange: bool, created: Procs, after: Procs,
                       landed: ProcKey)
    requires Landed(view, f, start, ownerChange, created, landed) && Reguarded(created, after, landed)
    requires SameBut(start, created, view.Name(f))
    ensures Landed(view, f, start, ownerChange, after, landed) && SameBut(start, after, view.Name(f))
  {
  }

  /** The body of the loop over the wanted functions. */
  method SyncOne(cat: Catalog, role: string, f: Function, hasPrevious: bool, previous: string)
    returns (ok: bool, landed: Identity)
    modifies cat`procs
    ensures SameBut(old(cat.procs), cat.procs, ViewOf(cat, role).Name(f))
    ensures ok ==> Landed(ViewOf(cat, role), f, old(cat.procs), hasPrevious && previous != ResolvedOwner(cat.layout, f),
                          cat.procs, landed.key)
    ensures ok ==> landed.names == cat.procs.defs[landed.key].def.names
    ensures ok ==> ViewOf(cat, role).Guarded(cat.procs.defs[landed.key], f)
    ensures ok ==> (hasPrevious && previous != ResolvedOwner(cat.layout, f)) ||
                   old(cat.procs).Takes(ViewOf(cat, role).Key(f), ViewOf(cat, role).Def(f))
    ensures ok ==> MayOwn(cat.layout, f)
    ensures cat.reliable && Allowed(ViewOf(cat, role), f, old(cat.procs), hasPrevious, previous) ==> ok
  {
    ghost var start, view := cat.procs, ViewOf(cat, role);
    var owner, key := ResolvedOwner(cat.layout, f), ViewOf(cat, role).Key(f);
    landed := Identity(key, []);
    ok := Create(cat, role, f, hasPrevious, previous);
    if !ok { return; }
    ghost var created := cat.procs;
    ok, landed := NewestArgs(cat, key.name, key);
    if !ok { return; }
    NewestLands(view, f, start, hasPrevious && previous != owner, created, landed.key);
    ok := Guard(cat, role, landed.key, owner);
    ReguardedKeeps(created, cat.procs, landed.key);
    ReguardedLands(view, f, start, hasPrevious && previous != owner, created, cat.procs, landed.key);
  }

  /** The overload of f after its round, relative to the state the run started in. */
  ghost predicate RoundDone(view: View, f: Function, start: Procs, owners: map<string, string>, mid: Procs,
                            d: ProcKey) {
    d in mid.defs && d.name == view.Name(f) && view.Guarded(mid.defs[d], f) &&
    (d == view.Key(f) <==> view.Lands(f, start, owners)) && view.Replaces(f, start, owners) &&
    (if d == view.Key(f) then mid.defs[d].def == view.Def(f)
     else d in start.defs && mid.defs[d].def == start.defs[d].def) &&
    forall k :: k in mid.defs && k.name == d.name && k != d ==>
      k in start.defs && mid.defs[k].owner == start.defs[k].owner
  }

  ghost predicate Unnamed(view: View, functions: seq<Function>, n: nat, k: ProcKey)
    requires n <= |functions|
  {
    forall j :: 0 <= j < n ==> k.name != view.Name(functions[j])
  }

  /** The state after one round for each key in landed. */
  ghost predicate Halfway(view: View, functions: seq<Function>, start: Procs, owners: map<string, string>, mid: Procs,
                          landed: seq<ProcKey>) {
    |landed| <= |functions| &&
    (forall k :: Unnamed(view, functions, |landed|, k) ==> SameAt(start, mid, k)) &&
    forall j :: 0 <= j < |landed| ==> RoundDone(view, functions[j], start, owners, mid, landed[j])
  }

  lemma NameInjective(view: View, f: Function, g: Function)
    requires view.Name(f) == view.Name(g)
    ensures f.name == g.name
  {
    CreatedIsFound(view.role, f.name);
    CreatedIsFound(view.role, g.name);
  }

  lemma NoRound(view: View, functions: seq<Function>, start: Procs, owners: map<string, string>)
    ensures Halfway(view, functions, start, owners, start, [])
  {
  }

  lemma NextRound(view: View, functions: seq<Function>, start: Procs, owners: map<string, string>, mid: Procs,
                  landed: seq<ProcKey>, ownerChange: bool, after: Procs, d: ProcKey)
    requires DistinctNames(functions) && |landed| < |functions|
    requires Halfway(view, functions, start, owners, mid, landed)
    requires var f := functions[|landed|];
             Landed(view, f, mid, ownerChange, after, d) && view.Guarded(after.defs[d], f) &&
             SameBut(mid, after, view.Name(f)) &&
             (ownerChange <==> view.Name(f) in owners && owners[view.Name(f)] != ResolvedOwner(view.l, f)) &&
             (ownerChange || mid.Takes(view.Key(f), view.Def(f)))
    ensures Halfway(view, functions, start, owners, after, landed + [d])
  {
    var n, f := |landed|, functions[|landed|];
    forall j | 0 <= j < n ensures view.Name(functions[j]) != view.Name(f) {
      if view.Name(functions[j]) == view.Name(f) { NameInjective(view, functions[j], f); }
    }
    assert forall k: ProcKey :: k.name == view.Name(f) ==> Unnamed(view, functions, n, k);
    forall k | Unnamed(view, functions, n + 1, k) ensures SameAt(start, after, k) {
      assert Unnamed(view, functions, n, k) && k.name != view.Name(functions[n]);
      assert SameAt(start, mid, k) && SameAt(mid, after, k);
    }
    assert view.Ready(f, mid) == view.Ready(f, start);
    assert RoundDone(view, f, start, owners, after, d);
    forall j | 0 <= j < n ensures RoundDone(view, functions[j], start, owners, after, landed[j]) {
      assert RoundDone(view, functions[j], start, owners, mid, landed[j]);
      assert forall k: ProcKey :: k.name == view.Name(functions[j]) ==> SameAt(mid, after, k);
      assert SameAt(mid, after, landed[j]);
    }
  }

  /** One round done for each function, and nothing else managed is left; what was given new
      parameter names is gone too. */
  ghost predicate Final(view: View, functions: seq<Function>, start: Procs, owners: map<string, string>, after: Procs,
                        landed: seq<ProcKey>) {
    |landed| == |functions| &&
    (forall k :: k in after.defs && view.Mine(k) ==> k in landed) &&
    forall i :: 0 <= i < |landed| ==>
      if view.Vanishes(functions[i], start, owners) then landed[i] == view.Key(functions[i]) && landed[i] !in after.defs
      else RoundDone(view, functions[i], start, owners, after, landed[i])
  }

  /** What the run drops at the end: all that was managed at the start, unless a round landed
      there and the names of its parameters are still the same. */
  ghost function Stale(view: View, start: Procs, mid: Procs, landed: seq<ProcKey>): set<ProcKey> {
    set k | k in start.defs && view.Mine(k) &&
            !(k in landed && k in mid.defs && mid.defs[k].def.names == start.defs[k].def.names)
  }

  lemma LastRound(view: View, functions: seq<Function>, start: Procs, owners: map<string, string>, mid: Procs,
                  landed: seq<ProcKey>, after: Procs)
    requires Halfway(view, functions, start, owners, mid, landed) && |landed| == |functions|
    requires after.defs == mid.defs - Stale(view, start, mid, landed) && DistinctNames(functions)
    requires forall f :: f in functions ==> ValidFields(f)
    ensures Final(view, functions, start, owners, after, landed)
  {
    hide View.Lands, View.Replaces;
    forall i | 0 <= i < |landed|
      ensures if view.Vanishes(functions[i], start, owners)
              then landed[i] == view.Key(functions[i]) && landed[i] !in after.defs
              else RoundDone(view, functions[i], start, owners, after, landed[i])
    {
      assert RoundDone(view, functions[i], start, owners, mid, landed[i]) && functions[i] in functions;
      CreatedIsFound(view.role, functions[i].name);
      assert view.Mine(landed[i]);
    }
    forall k | k in after.defs && view.Mine(k) ensures k in landed {
      if Unnamed(view, functions, |landed|, k) {
        assert SameAt(start, mid, k);
      } else {
        var j :| 0 <= j < |landed| && k.name == view.Name(functions[j]);
        assert RoundDone(view, functions[j], start, owners, mid, landed[j]);
      }
    }
  }

  /** Each managed function left is the overload that a round landed on. */
  lemma LeftIsLanded(view: View, functions: seq<Function>, start: Procs, owners: map<string, string>, after: Procs,
                     landed: seq<ProcKey>, k: ProcKey) returns (i: nat)
    requires Final(view, functions, start, owners, after, landed) && k in after.defs && view.Mine(k)
    ensures i < |landed| && k == landed[i] && !view.Vanishes(functions[i], start, owners)
    ensures RoundDone(view, functions[i], start, owners, after, k)
  {
    hide View.Lands, View.Replaces;
    i :| 0 <= i < |landed| && k == landed[i];
  }

  lemma FinalIsTidy(view: View, functions: seq<Function>, start: Procs, owners: map<string, string>, after: Procs,
                    landed: seq<ProcKey>)
    requires Final(view, functions, start, owners, after, landed) && DistinctNames(functions)
    ensures view.Tidy(functions, after)
  {
    hide View.Lands, View.Replaces, Final;
    forall k | k in after.defs && view.Mine(k)
      ensures exists i :: 0 <= i < |functions| && view.Fits(k, after.defs[k], functions[i])
    {
      var i := LeftIsLanded(view, functions, start, owners, after, landed, k);
      assert |landed| == |functions| by { FinalLength(view, functions, start, owners, after, landed); }
      assert view.Fits(k, after.defs[k], functions[i]);
    }
    forall k, k' | k in after.defs && k' in after.defs && view.Mine(k) && k.name == k'.name ensures k == k' {
      FinalLength(view, functions, start, owners, after, landed);
      var i := LeftIsLanded(view, functions, start, owners, after, landed, k);
      var j := LeftIsLanded(view, functions, start, owners, after, landed, k');
      NameInjective(view, functions[i], functions[j]);
    }
  }

  lemma FinalLength(view: View, functions: seq<Function>, start: Procs, owners: map<string, string>, after: Procs,
                    landed: seq<ProcKey>)
    requires Final(view, functions, start, owners, after, landed)
    ensures |landed| == |functions|
  {
  }

  /** An overload of every wanted name is left, except of those whose parameters were renamed. */
  lemma FinalIsPresentIff(view: View, functions: seq<Function>, start: Procs, owners: map<string, string>, after: Procs,
                          landed: seq<ProcKey>, f: Function)
    requires Final(view, functions, start, owners, after, landed) && DistinctNames(functions)
    requires f in functions && ValidFields(f)
    ensures view.Present(f, after) <==> !view.Vanishes(f, start, owners)
  {
    hide View.Lands, View.Replaces;
    var i :| 0 <= i < |functions| && functions[i] == f;
    if k :| k in after.defs && k.name == view.Name(f) && view.Guarded(after.defs[k], f) {
      CreatedIsFound(view.role, f.name);
      var j := LeftIsLanded(view, functions, start, owners, after, landed, k);
      NameInjective(view, f, functions[j]);
    }
    if !view.Vanishes(f, start, owners) {
      assert RoundDone(view, f, start, owners, after, landed[i]);
    }
  }

  /** One run is exact if and only if it lands on the wanted overload of every function and
      renames no parameter. */
  lemma FinalIsExactIff(view: View, functions: seq<Function>, start: Procs, owners: map<string, string>, after: Procs,
                        landed: seq<ProcKey>)
    requires Final(view, functions, start, owners, after, landed) && DistinctNames(functions)
    requires forall f :: f in functions ==> ValidFields(f)
    ensures view.Exact(functions, after) <==>
      forall f :: f in functions ==> view.Lands(f, start, owners) && !view.Renamed(f, start)
  {
    hide View.Lands, View.Replaces, View.Renamed, HasSeparator, Final;
    FinalLength(view, functions, start, owners, after, landed);
    forall i | 0 <= i < |functions|
      ensures functions[i] in functions &&
        (view.Key(functions[i]) in after.defs <==>
          view.Lands(functions[i], start, owners) && !view.Renamed(functions[i], start)) &&
        (view.Key(functions[i]) in after.defs ==> view.Right(after.defs[view.Key(functions[i])], functions[i]))
    {
      KeptIff(view, functions, start, owners, after, landed, i);
    }
    if forall i :: 0 <= i < |functions| ==> view.Key(functions[i]) in after.defs {
      forall k | k in after.defs && view.Mine(k)
        ensures exists i :: 0 <= i < |functions| && k == view.Key(functions[i])
      {
        var i := LeftIsLanded(view, functions, start, owners, after, landed, k);
      }
    }
  }

  lemma KeptIff(view: View, functions: seq<Function>, start: Procs, owners: map<string, string>, after: Procs,
                landed: seq<ProcKey>, i: nat)
    requires Final(view, functions, start, owners, after, landed) && DistinctNames(functions)
    requires i < |functions| && ValidFields(functions[i])
    ensures var f := functions[i];
      (view.Key(f) in after.defs <==> view.Lands(f, start, owners) && !view.Renamed(f, start)) &&
      (view.Key(f) in after.defs ==> view.Right(after.defs[view.Key(f)], f))
  {
    hide View.Lands, View.Replaces;
    var f := functions[i];
    CreatedIsFound(view.role, f.name);
    if view.Key(f) in after.defs {
      assert view.Mine(view.Key(f));
      var j := LeftIsLanded(view, functions, start, owners, after, landed, view.Key(f));
      NameInjective(view, f, functions[j]);
      assert i == j;
    }
  }

  /** Whatever the server lists first: a run lands if nothing hides the wanted overload or
      no overload has the resolved owner, and does not if it is hidden and all have it. */
  lemma LandsUnlessHidden(view: View, f: Function, start: Procs, owners: map<string, string>)
    requires view.Listing(start, owners) && ValidFields(f)
    ensures view.Ready(f, start) || view.OtherOwners(f, start) ==> view.Lands(f, start, owners)
    ensures !view.Ready(f, start) && view.SameOwner(f, start) ==> !view.Lands(f, start, owners)
  {
    CreatedIsFound(view.role, f.name);
    assert view.Mine(view.Key(f));
  }

  /** With mixed owners a hidden overload leaves it to the order of the listing: one order
      lands, another does not. */
  lemma MixedOwnersAreOpen(view: View, f: Function, start: Procs, owners: map<string, string>)
    requires view.Listing(start, owners) && ValidFields(f) && !view.Ready(f, start)
    requires !view.OtherOwners(f, start) && !view.SameOwner(f, start)
    ensures exists a, b ::
      view.Listing(start, a) && view.Lands(f, start, a) && view.Listing(start, b) && !view.Lands(f, start, b)
  {
    hide View.Ready;
    CreatedIsFound(view.role, f.name);
    var name, owner := view.Name(f), ResolvedOwner(view.l, f);
    var k :| k in start.defs && k.name == name && start.defs[k].owner != owner;
    var k' :| k' in start.defs && k'.name == name && start.defs[k'].owner == owner;
    var a, b := owners[name := start.defs[k].owner], owners[name := owner];
    assert view.Mine(k) && view.Mine(k');
    assert view.Listing(start, a) && view.Lands(f, start, a);
    assert view.Listing(start, b) && !view.Lands(f, start, b);
  }

  ghost predicate FirstOf(current: seq<Found>, owners: map<string, string>) {
    (forall n :: n in owners ==> exists x :: x in current && x.id.key.name == n && x.owner == owners[n]) &&
    (forall x :: x in current ==> x.id.key.name in owners)
  }

  /** The owner of the first overload the server listed for each name. */
  method FirstOwners(current: seq<Found>) returns (owners: map<string, string>)
    ensures FirstOf(current, owners)
  {
    owners := map[];
    for i := 0 to |current|
      invariant forall n :: n in owners ==> exists x :: x in current && x.id.key.name == n && x.owner == owners[n]
      invariant forall x :: x in current[..i] ==> x.id.key.name in owners
    {
      if current[i].id.key.name !in owners {
        owners := owners[current[i].id.key.name := current[i].owner];
      }
    }
  }

  ghost function StaleAmong(current: seq<Found>, wanted: set<Identity>): set<ProcKey> {
    set x | x in current && x.id !in wanted :: x.id.key
  }

  lemma StaleNext(current: seq<Found>, wanted: set<Identity>, i: nat)
    requires i < |current|
    ensures StaleAmong(current[..i + 1], wanted) ==
            StaleAmong(current[..i], wanted) + (if current[i].id in wanted then {} else {current[i].id.key})
    ensures StaleAmong(current[..i + 1], wanted) <= StaleAmong(current, wanted)
  {
    assert current[..i + 1] == current[..i] + [current[i]];
  }

  lemma NoneStale(wanted: set<Identity>)
    ensures StaleAmong([], wanted) == {}
  {
  }

  lemma DropOneMore(defs: map<ProcKey, Proc>, procs: Procs, gone: set<ProcKey>, key: ProcKey)
    requires procs.defs == defs - gone
    ensures procs.Drop(key).defs == defs - (gone + {key})
  {
  }

  /** The listed owners still own the unwanted functions, and the controller may act as them. */
  ghost predicate Droppable(l: Layout, procs: Procs, current: seq<Found>, wanted: set<Identity>) {
    forall x :: x in current && x.id !in wanted ==>
      x.owner !in l.denied && (x.id.key in procs.defs ==> procs.defs[x.id.key].owner == x.owner)
  }

  /** Drop the listed functions that are not wanted, each as its listed owner. */
  method DropStale(cat: Catalog, current: seq<Found>, wanted: set<Identity>)
    returns (ok: bool, ghost gone: set<ProcKey>)
    modifies cat`procs
    ensures cat.procs.defs == old(cat.procs.defs) - gone && gone <= StaleAmong(current, wanted)
    ensures forall k :: k in gone ==> exists x :: x in current && x.id.key == k && x.owner !in cat.layout.denied
    ensures ok ==> gone == StaleAmong(current, wanted)
    ensures ok ==> forall x :: x in current && x.id !in wanted ==> x.owner !in cat.layout.denied
    ensures cat.reliable && Droppable(cat.layout, old(cat.procs), current, wanted) ==> ok
  {
    hide StaleAmong;
    gone := {};
    NoneStale(wanted);
    for i := 0 to |current|
      invariant cat.procs.defs == old(cat.procs.defs) - gone
      invariant gone == StaleAmong(current[..i], wanted)
      invariant forall k :: k in gone ==> exists x :: x in current && x.id.key == k && x.owner !in cat.layout.denied
      invariant forall j :: 0 <= j < i && current[j].id !in wanted ==> current[j].owner !in cat.layout.denied
    {
      StaleNext(current, wanted, i);
      if current[i].id !in wanted {
        var key := current[i].id.key;
        ghost var before := cat.procs;
        var o := cat.DropFunction(current[i].owner, key);
        DropOneMore(old(cat.procs.defs), before, gone, key);
        assert current[i] in current;
        if cat.procs != before { gone := gone + {key}; }
        if o != Done { return false, gone; }
        gone := gone + {key};
      }
    }
    assert current[..|current|] == current;
    ok := true;
  }

  /** The controller may act as every owner, present and future, and the future ones may
      create in the public schema. */
  ghost predicate Trusted(view: View, functions: seq<Function>, procs: Procs) {
    (forall f :: f in functions ==> MayOwn(view.l, f)) &&
    forall k :: k in procs.defs && view.Mine(k) ==> procs.defs[k].owner !in view.l.denied
  }

  /** With the right owner it can be replaced; with another one it keeps its parameter names,
      so that it is not dropped again as its old owner. */
  ghost predicate Replaceable(view: View, f: Function, procs: Procs) {
    view.Key(f) in procs.defs ==>
      if procs.defs[view.Key(f)].owner == ResolvedOwner(view.l, f) then procs.Takes(view.Key(f), view.Def(f))
      else !view.Renamed(f, procs)
  }

  /** No statement of a run is denied or refused. */
  ghost predicate Unhindered(view: View, functions: seq<Function>, procs: Procs) {
    DistinctNames(functions) && Trusted(view, functions, procs) &&
    forall f :: f in functions ==>
      Replaceable(view, f, procs) && (view.OneOverload(f, procs) || view.SameOwner(f, procs))
  }

  /** Functions only go, and only managed ones whose owner the controller may act as. */
  ghost predicate Dropped(view: View, before: Procs, after: Procs) {
    (forall k :: k in after.defs ==> SameAt(before, after, k)) &&
    (forall k :: k in before.defs && k !in after.defs ==> view.Mine(k) && before.defs[k].owner !in view.l.denied)
  }

  lemma DroppedIsUntouched(view: View, before: Procs, after: Procs)
    requires Dropped(view, before, after)
    ensures view.Untouched(before, after)
    ensures Trusted(view, [], after) <==> Trusted(view, [], before)
  {
    UntouchedIff(view, before, after);
    forall k | k in before.defs && view.Mine(k) && before.defs[k].owner in view.l.denied ensures k in after.defs {
    }
    assert forall k :: k in after.defs ==> SameAt(before, after, k);
  }

  lemma DroppedTwice(view: View, before: Procs, mid: Procs, after: Procs)
    requires Dropped(view, before, mid) && Dropped(view, mid, after)
    ensures Dropped(view, before, after)
  {
    forall k | k in after.defs ensures SameAt(before, after, k) {
      assert SameAt(mid, after, k) && SameAt(before, mid, k);
    }
    forall k | k in before.defs && k !in after.defs ensures view.Mine(k) && before.defs[k].owner !in view.l.denied {
      if k in mid.defs { assert SameAt(before, mid, k); }
    }
  }

  /** DropManagedFunctions. */
  method DropManagedFunctions(cat: Catalog, role: string) returns (ok: bool)
    modifies cat`procs
    ensures Dropped(ViewOf(cat, role), old(cat.procs), cat.procs)
    ensures ViewOf(cat, role).Untouched(old(cat.procs), cat.procs)
    ensures ok ==> ViewOf(cat, role).Exact([], cat.procs) && Trusted(ViewOf(cat, role), [], old(cat.procs))
    ensures cat.reliable && Trusted(ViewOf(cat, role), [], old(cat.procs)) ==> ok
  {
    hide StaleAmong;
    ghost var start, view := cat.procs, ViewOf(cat, role);
    var found;
    ok, found := ManagedFunctions(cat, role);
    if ok {
      ghost var gone;
      ok, gone := DropStale(cat, found, {});
      AllStale(view, start, found);
      forall k | k in start.defs && view.Mine(k) ensures FoundAt(start, k) in found {
        assert FoundAt(start, k).id.key == k;
      }
    }
    UntouchedIff(view, start, cat.procs);
  }

  lemma AllStale(view: View, start: Procs, found: seq<Found>)
    requires Lists(view, start, found)
    ensures StaleAmong(found, {}) == set k | k in start.defs && view.Mine(k)
  {
    forall k | k in start.defs && view.Mine(k) ensures FoundAt(start, k) in found {
      assert FoundAt(start, k).id.key == k;
    }
  }

  /** The loop over the wanted functions. */
  method ApplyFunctions(cat: Catalog, role: string, functions: seq<Function>, current: seq<Found>)
    returns (ok: bool, wanted: set<Identity>, ghost owners: map<string, string>, ghost landed: seq<ProcKey>)
    requires forall f :: f in functions ==> ValidFields(f)
    requires Lists(ViewOf(cat, role), cat.procs, current)
    modifies cat`procs
    ensures ViewOf(cat, role).Untouched(old(cat.procs), cat.procs)
    ensures ok ==> |landed| == |functions| && forall f :: f in functions ==> MayOwn(cat.layout, f)
    ensures ok && DistinctNames(functions) ==> Idents(landed, cat.procs, wanted)
    ensures ViewOf(cat, role).Listing(old(cat.procs), owners)
    ensures ok && DistinctNames(functions) ==>
      Halfway(ViewOf(cat, role), functions, old(cat.procs), owners, cat.procs, landed)
    ensures cat.reliable && Unhindered(ViewOf(cat, role), functions, old(cat.procs)) ==> ok
  {
    hide Halfway, Allowed, Lists, FirstOf, Landed, SameBut, ValidFields, Idents;
    hide View.Untouched, View.Listing, View.Guarded, View.Ready, Procs.Takes, ResolvedOwner, DistinctNames, Trusted;
    NothingTouched(ViewOf(cat, role), cat.procs);
    ghost var view, start := ViewOf(cat, role), cat.procs;
    var currentOwner := FirstOwners(current);
    owners := currentOwner;
    FirstIsListing(view, start, current, owners);
    NoRound(view, functions, start, owners);
    NoIdents(start);
    wanted, landed := {}, [];
    for i := 0 to |functions|
      invariant view.Untouched(start, cat.procs)
      invariant |landed| == i && forall j :: 0 <= j < i ==> MayOwn(cat.layout, functions[j])
      invariant DistinctNames(functions) ==> Halfway(view, functions, start, owners, cat.procs, landed)
      invariant DistinctNames(functions) ==> Idents(landed, cat.procs, wanted)
    {
      var f := functions[i];
      var name, owner := ManagedName(role, f.name), ResolvedOwner(cat.layout, f);
      var hasPrevious := name in currentOwner;
      var previous := if hasPrevious then currentOwner[name] else "";
      ghost var mid := cat.procs;
      if Unhindered(view, functions, start) {
        UnhinderedIsAllowed(view, functions, start, owners, mid, landed);
      }
      var d;
      ok, d := SyncOne(cat, role, f, hasPrevious, previous);
      assert ValidFields(f);
      UntouchedAgain(view, start, mid, cat.procs, f);
      if !ok { return; }
      if DistinctNames(functions) {
        NextRound(view, functions, start, owners, mid, landed, hasPrevious && previous != owner, cat.procs, d.key);
        NextIdents(view, functions, start, owners, mid, landed, wanted, cat.procs, d);
      }
      landed, wanted := landed + [d.key], wanted + {d};
    }
    ok := true;
  }

  /** The identities under which the server shows the landed overloads. */
  ghost predicate Idents(landed: seq<ProcKey>, procs: Procs, ids: set<Identity>) {
    (forall d :: d in landed ==> d in procs.defs) &&
    forall id :: id in ids <==> id.key in landed && id.key in procs.defs && id.names == procs.defs[id.key].def.names
  }

  lemma NoIdents(procs: Procs)
    ensures Idents([], procs, {})
  {
  }

  lemma NextIdents(view: View, functions: seq<Function>, start: Procs, owners: map<string, string>, mid: Procs,
                   landed: seq<ProcKey>, ids: set<Identity>, after: Procs, d: Identity)
    requires DistinctNames(functions) && |landed| < |functions| && Idents(landed, mid, ids)
    requires Halfway(view, functions, start, owners, mid, landed)
    requires SameBut(mid, after, view.Name(functions[|landed|])) && d.key in after.defs
    requires d.key.name == view.Name(functions[|landed|]) && d.names == after.defs[d.key].def.names
    ensures Idents(landed + [d.key], after, ids + {d})
  {
    var f := functions[|landed|];
    forall k | k in landed ensures SameAt(mid, after, k) && k != d.key {
      var j :| 0 <= j < |landed| && landed[j] == k;
      assert RoundDone(view, functions[j], start, owners, mid, landed[j]);
      if view.Name(functions[j]) == view.Name(f) { NameInjective(view, functions[j], f); }
    }
    assert forall k :: k in landed + [d.key] <==> k in landed || k == d.key;
  }

  lemma FirstIsListing(view: View, start: Procs, current: seq<Found>, owners: map<string, string>)
    requires Lists(view, start, current) && FirstOf(current, owners)
    ensures view.Listing(start, owners)
  {
    forall k | k in start.defs && view.Mine(k) ensures k.name in owners {
      assert FoundAt(start, k).id.key == k && FoundAt(start, k) in current;
    }
  }

  /** With one overload, or with all of them owned as they should be, the first listed owner
      of a name owns what it is asked to change. */
  lemma UnhinderedIsAllowed(view: View, functions: seq<Function>, start: Procs, owners: map<string, string>, mid: Procs,
                            landed: seq<ProcKey>)
    requires Unhindered(view, functions, start) && view.Listing(start, owners)
    requires |landed| < |functions| && Halfway(view, functions, start, owners, mid, landed)
    requires ValidFields(functions[|landed|])
    ensures var f := functions[|landed|];
      Allowed(view, f, mid, view.Name(f) in owners, if view.Name(f) in owners then owners[view.Name(f)] else "")
  {
    var n, f := |landed|, functions[|landed|];
    var name, key := view.Name(f), view.Key(f);
    forall j | 0 <= j < n ensures view.Name(functions[j]) != name {
      if view.Name(functions[j]) == name { NameInjective(view, functions[j], f); }
    }
    CreatedIsFound(view.role, f.name);
    assert forall k: ProcKey :: k.name == name ==> Unnamed(view, functions, n, k);
    assert forall k: ProcKey :: k.name == name ==> SameAt(start, mid, k);
    assert f in functions && view.Mine(key);
  }

  lemma NothingTouched(view: View, procs: Procs)
    ensures view.Untouched(procs, procs)
  {
  }

  lemma UntouchedAgain(view: View, start: Procs, mid: Procs, after: Procs, f: Function)
    requires view.Untouched(start, mid) && SameBut(mid, after, view.Name(f)) && ValidFields(f)
    ensures view.Untouched(start, after)
  {
  }

  /** SyncDatabaseFunctions. */
  method SyncDatabaseFunctions(cat: Catalog, role: string, functions: seq<Function>) returns (r: SyncResult)
    modifies cat`procs
    ensures r == Invalid <==> exists f :: f in functions && !(ValidFields(f) && cat.accepts(f.args, f.result))
    ensures r == Invalid ==> cat.procs == old(cat.procs)
    ensures ViewOf(cat, role).Untouched(old(cat.procs), cat.procs)
    ensures r == Synced ==> forall f :: f in functions ==> MayOwn(cat.layout, f)
    ensures r == Synced && DistinctNames(functions) ==>
      Outcomes(ViewOf(cat, role), functions, old(cat.procs), cat.procs)
    ensures r == Synced && DistinctNames(functions) ==> AllServed(cat.layout, role, functions, cat.procs)
    ensures cat.reliable && Unhindered(ViewOf(cat, role), functions, old(cat.procs)) ==> r != Aborted
  {
    for i := 0 to |functions|
      invariant forall j :: 0 <= j < i ==>
        ValidFields(functions[j]) && cat.accepts(functions[j].args, functions[j].result)
    {
      var f := functions[i];
      if !ValidFields(f) || !cat.accepts(f.args, f.result) { return Invalid; }
    }
    r := Aborted;
    var failed := cat.Fails();  // the queries for the database owner and the current user
    if failed { return; }
    ghost var view, start := ViewOf(cat, role), cat.procs;
    var ok, current := ManagedFunctions(cat, role);
    if !ok { return; }
    var wanted;
    ghost var owners, landed;
    ok, wanted, owners, landed := ApplyFunctions(cat, role, functions, current);
    if !ok { return; }
    ghost var mid, gone := cat.procs, {};
    if Unhindered(view, functions, start) {
      StaleIsDroppable(view, functions, start, owners, mid, landed, current, wanted);
    }
    ok, gone := DropStale(cat, current, wanted);
    UntouchedByDrops(view, start, mid, cat.procs, current, gone);
    if !ok { return; }
    r := Synced;
    if DistinctNames(functions) {
      StaleKeys(view, start, mid, current, landed, wanted);
      LastRound(view, functions, start, owners, mid, landed, cat.procs);
      FinalOutcomes(view, functions, start, owners, cat.procs, landed);
      TidyIsServed(view, functions, cat.procs);
    }
  }

  /** What a successful run guarantees, from any state: at most one overload of each wanted
      name, guarded, and no other managed function. With the owners the server listed first,
      an overload is there if and only if its parameters were not renamed, and the functions
      are exact if and only if also every round landed on the wanted overload. */
  ghost predicate Outcomes(view: View, functions: seq<Function>, start: Procs, after: Procs) {
    view.Tidy(functions, after) && exists owners :: OutcomesFor(view, functions, start, after, owners)
  }

  ghost predicate OutcomesFor(view: View, functions: seq<Function>, start: Procs, after: Procs,
                              owners: map<string, string>) {
    view.Listing(start, owners) &&
    (forall f :: f in functions ==> view.Replaces(f, start, owners)) &&
    (forall f :: f in functions ==> (view.Present(f, after) <==> !view.Vanishes(f, start, owners))) &&
    (view.Exact(functions, after) <==>
      forall f :: f in functions ==> view.Lands(f, start, owners) && !view.Renamed(f, start))
  }

  lemma FinalOutcomes(view: View, functions: seq<Function>, start: Procs, owners: map<string, string>, after: Procs,
                      landed: seq<ProcKey>)
    requires Final(view, functions, start, owners, after, landed) && DistinctNames(functions)
    requires forall f :: f in functions ==> ValidFields(f) && view.Replaces(f, start, owners)
    requires view.Listing(start, owners)
    ensures Outcomes(view, functions, start, after)
  {
    hide Final, View.Listing, View.Tidy, View.Exact, View.Present, View.Lands, View.Replaces;
    FinalIsTidy(view, functions, start, owners, after, landed);
    FinalIsExactIff(view, functions, start, owners, after, landed);
    forall f | f in functions ensures view.Present(f, after) <==> !view.Vanishes(f, start, owners) {
      FinalIsPresentIff(view, functions, start, owners, after, landed, f);
    }
    assert OutcomesFor(view, functions, start, after, owners);
  }

  /** No run succeeds that would change the return type, or the name of a parameter, of a
      function with the right owner. */
  lemma SignatureStays(view: View, functions: seq<Function>, start: Procs, after: Procs, f: Function)
    requires f in functions && ValidFields(f) && view.SameOwner(f, start) && view.Key(f) in start.defs
    requires var was, names := start.defs[view.Key(f)].def, view.signature(f.args).names;
      was.result != f.result || |was.names| != |names| ||
      exists i :: 0 <= i < |names| && was.names[i] != "" && was.names[i] != names[i]
    ensures !Outcomes(view, functions, start, after)
  {
    CreatedIsFound(view.role, f.name);
    assert view.Mine(view.Key(f));
    forall owners | view.Listing(start, owners) ensures !view.Replaces(f, start, owners) {
    }
  }

  /** Where nothing hides it, a function with a renamed parameter is gone after a run that
      succeeds. */
  lemma RenamedIsGone(view: View, functions: seq<Function>, start: Procs, after: Procs, f: Function)
    requires f in functions && ValidFields(f) && view.Renamed(f, start) && Outcomes(view, functions, start, after)
    requires view.Ready(f, start) || view.OtherOwners(f, start)
    ensures !view.Present(f, after)
  {
    var owners :| OutcomesFor(view, functions, start, after, owners);
    LandsUnlessHidden(view, f, start, owners);
  }

  /** No wanted overload is hidden, or all overloads of its name have other owners. */
  ghost predicate Unhidden(view: View, functions: seq<Function>, start: Procs) {
    forall f :: f in functions ==> view.Ready(f, start) || view.OtherOwners(f, start)
  }

  /** From a hidden overload, with all owners as they should be, no single run is exact. */
  lemma HiddenOverloadNeedsTwoRuns(view: View, functions: seq<Function>, start: Procs, after: Procs,
                                   owners: map<string, string>, f: Function)
    requires OutcomesFor(view, functions, start, after, owners) && f in functions && ValidFields(f)
    requires !view.Ready(f, start) && view.SameOwner(f, start)
    ensures !view.Exact(functions, after)
  {
    LandsUnlessHidden(view, f, start, owners);
  }

  lemma ListedOwners(view: View, functions: seq<Function>, start: Procs, after: Procs)
    returns (owners: map<string, string>)
    requires Outcomes(view, functions, start, after)
    ensures OutcomesFor(view, functions, start, after, owners)
  {
    owners :| OutcomesFor(view, functions, start, after, owners);
  }

  /** The wanted overload of f, hidden by a newer one. */
  function HiddenState(view: View, f: Function): (procs: ProcTable) {
    var (owner, key) := (ResolvedOwner(view.l, f), view.Key(f));
    var newer := key.(types := key.types + "x");
    assert |key.types| != |newer.types|;
    var def := view.Def(f);
    Procs(map[key := Proc(1, owner, def, {view.role}, false), newer := Proc(2, owner, def, {}, true)], 3)
  }

  /** f without the names of its parameters. */
  function NamelessState(view: View, f: Function): (procs: ProcTable) {
    var def := view.Def(f).(names := seq(|view.Def(f).names|, _ => ""));
    Procs(map[view.Key(f) := Proc(1, ResolvedOwner(view.l, f), def, {view.role}, false)], 2)
  }

  lemma HiddenIsUnhindered(view: View, f: Function)
    requires MayOwn(view.l, f)
    ensures !view.Ready(f, HiddenState(view, f)) && view.SameOwner(f, HiddenState(view, f))
    ensures Unhindered(view, [f], HiddenState(view, f))
  {
    var start, newer := HiddenState(view, f), view.Key(f).(types := view.Key(f).types + "x");
    assert newer in start.defs && start.defs[newer].oid > start.defs[view.Key(f)].oid;
  }

  lemma NamelessIsUnhindered(view: View, f: Function)
    requires MayOwn(view.l, f)
    ensures view.Ready(f, NamelessState(view, f)) && Unhindered(view, [f], NamelessState(view, f))
    ensures (exists n :: n in view.Def(f).names && n != "") ==> view.Renamed(f, NamelessState(view, f))
  {
    var start := NamelessState(view, f);
    assert forall n :: n in start.defs[view.Key(f)].def.names ==> n == "";
  }

  /** A run from a hidden overload: it succeeds, and is not exact. */
  method RunFromHidden(l: Layout, signature: string -> Signature, accepts: (string, string) -> bool, role: string,
                       f: Function)
    returns (cat: Catalog, r: SyncResult)
    requires ValidFields(f) && accepts(f.args, f.result) && MayOwn(l, f)
    ensures fresh(cat) && r == Synced && !ViewOf(cat, role).Exact([f], cat.procs)
  {
    hide HiddenState, Unhindered, Outcomes, OutcomesFor, View.Exact, View.Ready, View.SameOwner, ValidFields;
    var view := View(l, signature, role);
    HiddenIsUnhindered(view, f);
    assert f in [f];
    cat := new Catalog(l, signature, accepts, true, map[], HiddenState(view, f));
    r := SyncDatabaseFunctions(cat, role, [f]);
    ghost var owners := ListedOwners(view, [f], HiddenState(view, f), cat.procs);
    HiddenOverloadNeedsTwoRuns(view, [f], HiddenState(view, f), cat.procs, owners, f);
  }

  /** A run that gives names to unnamed parameters: it succeeds, and the function is gone. */
  method RunThatNames(l: Layout, signature: string -> Signature, accepts: (string, string) -> bool, role: string,
                      f: Function)
    returns (cat: Catalog, r: SyncResult)
    requires ValidFields(f) && accepts(f.args, f.result) && MayOwn(l, f)
    requires exists n :: n in signature(f.args).names && n != ""
    ensures fresh(cat) && r == Synced && !ViewOf(cat, role).Present(f, cat.procs)
  {
    hide NamelessState, Unhindered, Outcomes, View.Present, View.Ready, View.Renamed, ValidFields;
    var view := View(l, signature, role);
    NamelessIsUnhindered(view, f);
    assert f in [f];
    cat := new Catalog(l, signature, accepts, true, map[], NamelessState(view, f));
    r := SyncDatabaseFunctions(cat, role, [f]);
    RenamedIsGone(view, [f], NamelessState(view, f), cat.procs, f);
  }

  ghost predicate Unrenamed(view: View, functions: seq<Function>, start: Procs) {
    forall f :: f in functions ==> !view.Renamed(f, start)
  }

  lemma UnhiddenIsExact(view: View, functions: seq<Function>, start: Procs, after: Procs)
    requires Outcomes(view, functions, start, after) && forall f :: f in functions ==> ValidFields(f)
    ensures forall f :: f in functions && !view.Renamed(f, start) ==> view.Present(f, after)
    ensures Unrenamed(view, functions, start) ==> view.Pruned(functions, after)
    ensures Unrenamed(view, functions, start) && Unhidden(view, functions, start) ==> view.Exact(functions, after)
    ensures view.Exact(functions, after) ==> Unrenamed(view, functions, start)
    ensures view.Exact(functions, after) ==>
      forall f :: f in functions && !view.Ready(f, start) ==> !view.SameOwner(f, start)
  {
    hide View.Tidy, View.Exact, View.Lands, View.Ready, View.SameOwner, View.OtherOwners, View.Listing, View.Present;
    var owners :| OutcomesFor(view, functions, start, after, owners);
    forall f | f in functions
      ensures view.Ready(f, start) || view.OtherOwners(f, start) ==> view.Lands(f, start, owners)
      ensures !view.Ready(f, start) && view.SameOwner(f, start) ==> !view.Lands(f, start, owners)
    {
      LandsUnlessHidden(view, f, start, owners);
    }
    assert forall i :: 0 <= i < |functions| ==> functions[i] in functions;
  }

  lemma StaleIsDroppable(view: View, functions: seq<Function>, start: Procs, owners: map<string, string>, mid: Procs,
                         landed: seq<ProcKey>, current: seq<Found>, wanted: set<Identity>)
    requires Lists(view, start, current) && Unhindered(view, functions, start) && Idents(landed, mid, wanted)
    requires Halfway(view, functions, start, owners, mid, landed) && |landed| == |functions|
    ensures Droppable(view.l, mid, current, wanted)
  {
    hide View.Lands, View.Replaces, View.OneOverload, View.SameOwner;
    forall x | x in current && x.id !in wanted && x.id.key in mid.defs
      ensures mid.defs[x.id.key].owner == x.owner
    {
      var k := x.id.key;
      if Unnamed(view, functions, |landed|, k) {
        assert SameAt(start, mid, k);
      } else {
        var j :| 0 <= j < |landed| && k.name == view.Name(functions[j]);
        assert RoundDone(view, functions[j], start, owners, mid, landed[j]) && functions[j] in functions;
        assert Replaceable(view, functions[j], start);
      }
    }
  }

  lemma UntouchedByDrops(view: View, start: Procs, mid: Procs, after: Procs, current: seq<Found>, gone: set<ProcKey>)
    requires view.Untouched(start, mid) && Lists(view, start, current)
    requires after.defs == mid.defs - gone && forall k :: k in gone ==> exists x :: x in current && x.id.key == k
    ensures view.Untouched(start, after)
  {
  }

  lemma StaleKeys(view: View, start: Procs, mid: Procs, current: seq<Found>, landed: seq<ProcKey>,
                  wanted: set<Identity>)
    requires Lists(view, start, current) && Idents(landed, mid, wanted)
    ensures StaleAmong(current, wanted) == Stale(view, start, mid, landed)
  {
    forall k | k in start.defs && view.Mine(k) ensures FoundAt(start, k) in current {
      assert FoundAt(start, k).id.key == k;
    }
  }

  // Runs after runs

  /** With at most one overload of each managed name, one run is enough. */
  lemma OneEachIsReady(view: View, functions: seq<Function>, procs: Procs)
    requires view.OneEach(procs) && forall f :: f in functions ==> ValidFields(f)
    ensures forall f :: f in functions ==> view.Ready(f, procs)
  {
  }

  lemma ExactIsOneEach(view: View, functions: seq<Function>, procs: Procs)
    requires view.Exact(functions, procs) && DistinctNames(functions)
    ensures view.OneEach(procs)
  {
  }

  /** So no parameter is seen renamed after a run. */
  lemma TidyIsUnrenamed(view: View, functions: seq<Function>, procs: Procs)
    requires view.Tidy(functions, procs) && DistinctNames(functions) && forall f :: f in functions ==> ValidFields(f)
    ensures Unrenamed(view, functions, procs) && Unhidden(view, functions, procs)
  {
    OneEachIsReady(view, functions, procs);
    forall f | f in functions && view.Key(f) in procs.defs ensures procs.defs[view.Key(f)].def == view.Def(f) {
      CreatedIsFound(view.role, f.name);
      assert view.Mine(view.Key(f));
      var i :| 0 <= i < |functions| && view.Fits(view.Key(f), procs.defs[view.Key(f)], functions[i]);
      NameInjective(view, f, functions[i]);
      assert f == functions[i];
    }
  }

  /** What a successful run, or several, guarantee of one database, with no mention of the
      order of a listing. */
  ghost predicate Reached(view: View, functions: seq<Function>, start: Procs, after: Procs) {
    (forall f :: f in functions ==> ValidFields(f) && MayOwn(view.l, f)) &&
    (DistinctNames(functions) ==>
      view.Tidy(functions, after) &&
      (forall f :: f in functions && !view.Renamed(f, start) ==> view.Present(f, after)) &&
      (Unrenamed(view, functions, start) && Unhidden(view, functions, start) ==> view.Exact(functions, after)))
  }

  lemma OutcomesReach(view: View, functions: seq<Function>, start: Procs, after: Procs)
    requires forall f :: f in functions ==> ValidFields(f) && MayOwn(view.l, f)
    requires DistinctNames(functions) ==> Outcomes(view, functions, start, after)
    ensures Reached(view, functions, start, after)
  {
    if DistinctNames(functions) { UnhiddenIsExact(view, functions, start, after); }
  }

  /** A second run is exact wherever the first one started. */
  lemma ReachedTwice(view: View, functions: seq<Function>, start: Procs, mid: Procs, after: Procs)
    requires Reached(view, functions, start, mid) && Reached(view, functions, mid, after)
    ensures Reached(view, functions, start, after)
    ensures DistinctNames(functions) ==> view.Exact(functions, after)
  {
    hide View.Tidy, View.Exact, View.Present, Unhidden, View.Renamed;
    if DistinctNames(functions) { TidyIsUnrenamed(view, functions, mid); }
  }

  /** So is a run after a cleanup. */
  lemma ReachedFromNone(view: View, functions: seq<Function>, start: Procs, mid: Procs, after: Procs)
    requires view.Exact([], mid) && Reached(view, functions, mid, after)
    ensures Reached(view, functions, start, after)
  {
    if DistinctNames(functions) { TidyIsUnrenamed(view, functions, mid); }
  }

  /** The controller may act as the owner of whatever a run leaves. */
  lemma ReachedIsTrusted(view: View, functions: seq<Function>, start: Procs, after: Procs)
    requires Reached(view, functions, start, after) && DistinctNames(functions)
    ensures Trusted(view, [], after)
  {
    forall k | k in after.defs && view.Mine(k) ensures after.defs[k].owner !in view.l.denied {
      var i :| 0 <= i < |functions| && view.Fits(k, after.defs[k], functions[i]);
      assert functions[i] in functions;
    }
  }

  /** A run of the wanted functions, or one that removes all, leaves nothing to be denied. */
  lemma ReachedIsUnhindered(view: View, functions: seq<Function>, wanted: seq<Function>, start: Procs, after: Procs)
    requires Reached(view, functions, start, after) && Unhindered(view, wanted, start)
    requires (functions == wanted || functions == []) && forall f :: f in wanted ==> ValidFields(f)
    ensures Unhindered(view, wanted, after)
  {
    assert view.Tidy(functions, after) && DistinctNames(functions);
    forall f | f in wanted ensures view.OneOverload(f, after) && Replaceable(view, f, after) {
      CreatedIsFound(view.role, f.name);
      if view.Key(f) in after.defs {
        assert view.Mine(view.Key(f));
        var i :| 0 <= i < |functions| && view.Fits(view.Key(f), after.defs[view.Key(f)], functions[i]);
        NameInjective(view, f, functions[i]);
        assert f == functions[i];
      }
    }
    forall k | k in after.defs && view.Mine(k) ensures after.defs[k].owner !in view.l.denied {
      var i :| 0 <= i < |functions| && view.Fits(k, after.defs[k], functions[i]);
      assert functions[i] in wanted;
    }
  }

  /** Two successful runs in a row converge from any state, even one with several
      leftover overloads of a name. */
  method SyncTwice(cat: Catalog, role: string, functions: seq<Function>) returns (r: SyncResult)
    modifies cat`procs
    ensures ViewOf(cat, role).Untouched(old(cat.procs), cat.procs)
    ensures r == Synced && DistinctNames(functions) ==>
            ViewOf(cat, role).Exact(functions, cat.procs) && ViewOf(cat, role).OneEach(cat.procs)
    ensures r == Synced && DistinctNames(functions) ==>
            AllServed(cat.layout, role, functions, cat.procs) &&
            forall f :: f in functions ==> WrittenAs(cat.layout, cat.signature, role, f, cat.procs)
  {
    ghost var view, start := ViewOf(cat, role), cat.procs;
    r := SyncDatabaseFunctions(cat, role, functions);
    if r != Synced { return; }
    ghost var mid := cat.procs;
    if DistinctNames(functions) { TidyIsUnrenamed(view, functions, mid); }
    r := SyncDatabaseFunctions(cat, role, functions);
    if r == Synced && DistinctNames(functions) {
      UnhiddenIsExact(view, functions, mid, cat.procs);
      ExactIsOneEach(view, functions, cat.procs);
      ExactIff(view, functions, cat.procs);
    }
  }

  /** Syncing or dropping one role's functions leaves those of any other role alone,
      unless the two role names differ by one trailing underscore. */
  lemma OtherRoleKept(view: View, other: View, before: Procs, after: Procs)
    requires view.Untouched(before, after)
    requires view.role != other.role && view.role != other.role + "_" && other.role != view.role + "_"
    ensures forall k :: other.Mine(k) ==> SameAt(before, after, k)
    ensures forall functions :: other.Exact(functions, before) && (forall f :: f in functions ==> ValidFields(f)) ==>
                                other.Exact(functions, after)
  {
    UntouchedIff(view, before, after);
    forall k | other.Mine(k) ensures SameAt(before, after, k) {
      NameSetsIntersectIff(view.role, other.role);
    }
    forall functions: seq<Function>, i | other.Exact(functions, before) && (forall f :: f in functions ==>
      ValidFields(f)) && 0 <= i < |functions|
      ensures other.Mine(other.Key(functions[i]))
    {
      assert functions[i] in functions;
      CreatedIsFound(other.role, functions[i].name);
    }
  }
}
