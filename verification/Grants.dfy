/** Table privileges of a custom role in one database
    (pkg/postgres/customrole_grants.go). */
module Grants {
  import opened Catalogs

  datatype Grant = Grant(schema: string, table: string, privileges: seq<string>)

  const TABLE_PRIVILEGES := {"SELECT", "INSERT", "UPDATE", "DELETE", "TRUNCATE", "REFERENCES", "TRIGGER"}

  function UpperChar(c: char): char {
    if 'a' <= c <= 'z' then (c as int - 'a' as int + 'A' as int) as char else c
  }

  function Upper(s: string): string {
    seq(|s|, i requires 0 <= i < |s| => UpperChar(s[i]))
  }

  predicate ValidPrivileges(privileges: seq<string>) {
    privileges != [] && forall p :: p in privileges ==> Upper(p) in TABLE_PRIVILEGES
  }

  // What a list of grants means in a database

  predicate Wild(pattern: string) {
    pattern == "" || pattern == "*"
  }

  predicate SchemaMatches(l: Layout, pattern: string, schema: string) {
    schema in l.schemas && if Wild(pattern) then !IsSystem(schema) else schema == pattern
  }

  /** What the filter on schemas is after: the schemas that PostgreSQL reserves. */
  predicate Reserved(schema: string) {
    "pg_" <= schema || schema == "information_schema"
  }

  /** "pg" and another character than an underscore. */
  predicate Misread(schema: string) {
    |schema| > 2 && schema[..2] == "pg" && schema[2] != '_'
  }

  /** The underscore of the filter matches any character. */
  lemma MisreadIff(s: string)
    ensures IsSystem(s) && !Reserved(s) <==> Misread(s)
    ensures Reserved(s) ==> IsSystem(s)
  {
    if "pg_" <= s {
      assert s[..2] == "pg_"[..2] == "pg" && s[2] == "pg_"[2];
    }
    assert s == "information_schema" ==> s[..2][0] == 'i';
  }

  /** So a wildcard covers every schema that is not reserved if and only if none is misread. */
  lemma WildcardCoversIff(l: Layout)
    ensures (forall s :: s in l.schemas && !Reserved(s) ==> SchemaMatches(l, "*", s)) <==>
            forall s :: s in l.schemas ==> !Misread(s)
  {
    forall s: string ensures IsSystem(s) && !Reserved(s) <==> Misread(s) {
      MisreadIff(s);
    }
  }

  /** A schema such as "pgq" is left out by a wildcard, and skipped where it is named. */
  lemma MisreadIsSkipped(l: Layout, s: string)
    requires s in l.schemas && Misread(s)
    ensures !Reserved(s) && !SchemaMatches(l, "*", s) && SchemaMatches(l, s, s) && !l.SchemaOpen(s)
    ensures Misread("pgq")
  {
    MisreadIff(s);
    assert s != "" && s != "*";
  }

  predicate TableMatches(l: Layout, pattern: string, t: TableId) {
    t in l.tables && (Wild(pattern) || t.name == pattern)
  }

  ghost predicate Asks(l: Layout, g: Grant, k: GrantKey) {
    SchemaMatches(l, g.schema, k.schema) && TableMatches(l, g.table, TableOf(k)) &&
    exists p :: p in g.privileges && Upper(p) == k.privilege
  }

  ghost predicate Wanted(l: Layout, grants: seq<Grant>, k: GrantKey) {
    exists i :: 0 <= i < |grants| && Asks(l, grants[i], k)
  }

  ghost function Desired(l: Layout, grants: seq<Grant>): (d: set<GrantKey>)
    ensures forall k :: k in d <==> Wanted(l, grants, k)
  {
    var d := set i, t, p | 0 <= i < |grants| && t in l.tables && p in grants[i].privileges &&
                           SchemaMatches(l, grants[i].schema, t.schema) && TableMatches(l, grants[i].table, t)
                         :: GrantKey(t.schema, t.name, Upper(p));
    assert forall k :: Wanted(l, grants, k) ==> k in d by {
      forall k | Wanted(l, grants, k) ensures k in d {
        var i :| 0 <= i < |grants| && Asks(l, grants[i], k);
        var p :| p in grants[i].privileges && Upper(p) == k.privilege;
        assert TableOf(k) in l.tables;
      }
    }
    d
  }

  /** The word in upper case, the privilege in either case. */
  ghost predicate Spells(privilege: string, word: string) {
    |privilege| == |word| &&
    forall i :: 0 <= i < |word| ==>
      !('a' <= word[i] <= 'z') &&
      (privilege[i] == word[i] || ('A' <= word[i] <= 'Z' && privilege[i] as int == word[i] as int + 32))
  }

  lemma UpperIff(privilege: string, word: string)
    ensures Upper(privilege) == word <==> Spells(privilege, word)
  {
    if Upper(privilege) == word {
      forall i | 0 <= i < |word| ensures word[i] == UpperChar(privilege[i]) {
      }
    }
    if Spells(privilege, word) {
      forall i | 0 <= i < |word| ensures Upper(privilege)[i] == word[i] {
      }
    }
  }

  /** The seven keywords are accepted, in either case, and nothing else. */
  lemma ValidPrivilegesIff(privileges: seq<string>)
    ensures ValidPrivileges(privileges) <==>
      privileges != [] && forall p :: p in privileges ==>
        Spells(p, "SELECT") || Spells(p, "INSERT") || Spells(p, "UPDATE") || Spells(p, "DELETE") ||
        Spells(p, "TRUNCATE") || Spells(p, "REFERENCES") || Spells(p, "TRIGGER")
  {
    forall p, word ensures Upper(p) == word <==> Spells(p, word) {
      UpperIff(p, word);
    }
  }

  /** What the grants ask for: an omitted schema or table, or a star, stands for all of them,
      with the exception of system schemas. */
  lemma DesiredIff(l: Layout, grants: seq<Grant>, k: GrantKey)
    ensures k in Desired(l, grants) <==>
      TableId(k.schema, k.table) in l.tables && k.schema in l.schemas &&
      exists g :: g in grants &&
        (if g.schema == "" || g.schema == "*" then !IsSystem(k.schema) else g.schema == k.schema) &&
        (g.table == "" || g.table == "*" || g.table == k.table) &&
        exists p :: p in g.privileges && Spells(p, k.privilege)
  {
    hide Upper, Spells;
    forall p ensures Upper(p) == k.privilege <==> Spells(p, k.privilege) {
      UpperIff(p, k.privilege);
    }
    assert forall i :: 0 <= i < |grants| ==> grants[i] in grants;
  }

  ghost function SchemasOf(keys: set<GrantKey>): set<string> {
    set k | k in keys :: k.schema
  }

  /** The holdings a run that ends without an error leaves behind: an object the
      controller can act on gets exactly what is wanted, any other keeps what it has. */
  ghost function Settled(l: Layout, held: Acl, want: set<GrantKey>): Acl {
    Acl(set k | k in held.tables + want && k in (if l.TableOpen(TableOf(k)) then want else held.tables),
        set s | s in held.usage + SchemasOf(want) && s in (if l.SchemaOpen(s) then SchemasOf(want) else held.usage))
  }

  /** No statement about schema s is skipped: every object of s whose privileges
      differ from the wanted ones can be acted on. */
  ghost predicate Unskipped(l: Layout, held: Acl, want: set<GrantKey>, s: string) {
    ((s in held.usage) != (s in SchemasOf(want)) ==> l.SchemaOpen(s)) &&
    forall k :: k in held.tables + want && k.schema == s && !(k in held.tables && k in want) ==> l.TableOpen(TableOf(k))
  }

  ghost predicate NothingSkipped(l: Layout, held: Acl, want: set<GrantKey>) {
    forall s :: Unskipped(l, held, want, s)
  }

  /** A table privilege in schema s is usable: it comes with USAGE on s. */
  ghost predicate Covers(a: Acl, s: string) {
    s in SchemasOf(a.tables) ==> s in a.usage
  }

  /** Whether a run keeps the table privileges in schema s usable. In a schema still wanted
      USAGE is there or can be granted, or no table can; in one no longer wanted every
      table privilege can be revoked, or USAGE cannot. */
  ghost predicate Steady(l: Layout, held: Acl, want: set<GrantKey>, s: string) {
    if s in SchemasOf(want)
    then s in held.usage || l.SchemaOpen(s) || forall k :: k in want && k.schema == s ==> !l.TableOpen(TableOf(k))
    else !l.SchemaOpen(s) || forall k :: k in held.tables && k.schema == s ==> l.TableOpen(TableOf(k))
  }

  /** How much of each of the four phases has been carried out. */
  datatype Parts = Parts(usageOn: set<string>, granted: set<GrantKey>, revoked: set<GrantKey>, usageOff: set<string>)

  /** One run of SyncDatabaseGrants: where it started and what it aims at. */
  datatype Run = Run(l: Layout, role: string, start: map<string, Acl>, want: set<GrantKey>) {
    ghost function Held(): Acl { HeldIn(start, role) }

    ghost function AddUsage(): set<string> {
      set s | s in SchemasOf(want) - Held().usage && l.SchemaOpen(s)
    }
    ghost function AddTables(): set<GrantKey> {
      set k | k in want - Held().tables && l.TableOpen(TableOf(k))
    }
    ghost function DropTables(): set<GrantKey> {
      set k | k in Held().tables - want && l.TableOpen(TableOf(k))
    }
    ghost function DropUsage(): set<string> {
      set s | s in Held().usage - SchemasOf(want) && l.SchemaOpen(s)
    }

    /** The holdings after the given parts of the four phases were carried out. */
    ghost function Stage(p: Parts): Acl {
      Acl(Held().tables + p.granted - p.revoked, Held().usage + p.usageOn - p.usageOff)
    }

    /** Parts only hold what their phase may do, and the phases come in order. */
    ghost predicate Ordered(p: Parts) {
      p.usageOn <= AddUsage() && p.granted <= AddTables() && p.revoked <= DropTables() && p.usageOff <= DropUsage() &&
      (p.granted != {} || p.revoked != {} || p.usageOff != {} ==> p.usageOn == AddUsage()) &&
      (p.revoked != {} || p.usageOff != {} ==> p.granted == AddTables()) &&
      (p.usageOff != {} ==> p.revoked == DropTables())
    }

    ghost function AllParts(): Parts {
      Parts(AddUsage(), AddTables(), DropTables(), DropUsage())
    }

    ghost predicate At(acl: map<string, Acl>, a: Acl) {
      HeldIn(acl, role) == a && OthersKept(role, start, acl)
    }

    ghost predicate Finished(acl: map<string, Acl>) {
      At(acl, Settled(l, Held(), want))
    }

    /** No outage and no excess: between start and target for privileges and for
        USAGE, nothing taken away before all that can be given was given, objects
        the controller cannot act on as they were, and privileges usable wherever
        the run can keep them so. */
    ghost predicate SafeAcl(a: Acl) {
      Held().tables * want <= a.tables <= Held().tables + want &&
      Held().usage * SchemasOf(want) <= a.usage <= Held().usage + SchemasOf(want) &&
      ((Held().tables <= a.tables && Held().usage <= a.usage) || (AddTables() <= a.tables && AddUsage() <= a.usage)) &&
      (forall k :: !l.TableOpen(TableOf(k)) ==> (k in a.tables <==> k in Held().tables)) &&
      (forall s :: !l.SchemaOpen(s) ==> (s in a.usage <==> s in Held().usage)) &&
      forall s :: Steady(l, Held(), want, s) && Covers(Held(), s) ==> Covers(a, s)
    }

    ghost predicate Safe(acl: map<string, Acl>) {
      SafeAcl(HeldIn(acl, role)) && OthersKept(role, start, acl)
    }

    /** Safe now and after every statement since. */
    ghost predicate SafeSince(since: seq<map<string, Acl>>, trace: seq<map<string, Acl>>, acl: map<string, Acl>) {
      since <= trace && Safe(acl) && forall i :: |since| <= i < |trace| ==> Safe(trace[i])
    }
  }

  ghost function SyncRun(l: Layout, role: string, start: map<string, Acl>, grants: seq<Grant>): Run {
    Run(l, role, start, Desired(l, grants))
  }

  lemma StageIsSafe(run: Run, p: Parts)
    requires run.Ordered(p)
    ensures run.SafeAcl(run.Stage(p))
  {
  }

  lemma StartIsSafe(run: Run)
    ensures run.Stage(Parts({}, {}, {}, {})) == run.Held() && run.Safe(run.start)
  {
  }

  lemma AllStagesSettle(run: Run)
    ensures run.Stage(run.AllParts()) == Settled(run.l, run.Held(), run.want)
  {
  }

  /** One statement moves a run from stage p to stage q, or leaves it at p, and
      the trace stays safe either way. */
  lemma StatementKeepsSafety(run: Run, o: Outcome, may: bool, before: map<string, Acl>, after: map<string, Acl>,
                             since: seq<map<string, Acl>>, trace: seq<map<string, Acl>>, p: Parts, q: Parts)
    returns (now: Parts)
    requires run.Ordered(p) && (may ==> run.Ordered(q))
    requires run.At(before, run.Stage(p))
    requires Executed(o, may, before, after, before[run.role := run.Stage(q)])
    requires run.SafeSince(since, trace, before)
    ensures now == (match o case Done => q case Denied => p case Failed => if after == before then p else q)
    ensures run.Ordered(now) && run.At(after, run.Stage(now))
    ensures run.SafeSince(since, trace + [after], after)
  {
    now := match o case Done => q case Denied => p case Failed => if after == before then p else q;
    StageIsSafe(run, now);
    assert before[run.role := run.Stage(q)] - {run.role} == before - {run.role};
  }

  // Catalog queries

  method ResolveSchemas(cat: Catalog, pattern: string) returns (ok: bool, r: seq<string>)
    ensures ok ==> forall s :: s in r <==> SchemaMatches(cat.layout, pattern, s)
    ensures cat.reliable ==> ok
  {
    var failed := cat.Fails();
    if failed { return false, []; }
    ok := true;
    if !Wild(pattern) {
      r := if pattern in cat.layout.schemas then [pattern] else [];
    } else {
      r := Enumerate(set s | s in cat.layout.schemas && !IsSystem(s));
    }
  }

  method ResolveTables(cat: Catalog, schema: string, pattern: string) returns (ok: bool, r: seq<string>)
    ensures ok ==> forall t :: t in r <==> TableMatches(cat.layout, pattern, TableId(schema, t))
    ensures cat.reliable ==> ok
  {
    var failed := cat.Fails();
    if failed { return false, []; }
    ok := true;
    if !Wild(pattern) {
      r := if TableId(schema, pattern) in cat.layout.tables then [pattern] else [];
    } else {
      r := Enumerate(set t | t in cat.layout.tables && t.schema == schema :: t.name);
    }
  }

  method ExpandInSchema(cat: Catalog, g: Grant, schema: string) returns (ok: bool, keys: seq<GrantKey>)
    ensures ok ==> forall k :: k in keys <==>
      k.schema == schema && TableMatches(cat.layout, g.table, TableOf(k)) &&
      exists p :: p in g.privileges && Upper(p) == k.privilege
    ensures cat.reliable ==> ok
  {
    var tables;
    ok, tables := ResolveTables(cat, schema, g.table);
    keys := [];
    if !ok { return; }
    for i := 0 to |tables|
      invariant forall k :: k in keys <==>
        k.schema == schema && k.table in tables[..i] && exists p :: p in g.privileges && Upper(p) == k.privilege
    {
      ghost var before := keys;
      for j := 0 to |g.privileges|
        invariant forall k :: k in keys <==>
          k in before || (k.schema == schema && k.table == tables[i] &&
                          exists n :: 0 <= n < j && Upper(g.privileges[n]) == k.privilege)
      {
        keys := keys + [GrantKey(schema, tables[i], Upper(g.privileges[j]))];
      }
    }
  }

  /** expandGrants: the concrete (schema, table, privilege) tuples of the grants. */
  method ExpandGrants(cat: Catalog, grants: seq<Grant>) returns (ok: bool, result: seq<GrantKey>)
    ensures ok ==> forall k :: k in result <==> k in Desired(cat.layout, grants)
    ensures cat.reliable ==> ok
  {
    result := [];
    for i := 0 to |grants|
      invariant forall k :: k in result <==> exists n :: 0 <= n < i && Asks(cat.layout, grants[n], k)
    {
      var schemas;
      ok, schemas := ResolveSchemas(cat, grants[i].schema);
      if !ok { return; }
      ghost var before := result;
      for j := 0 to |schemas|
        invariant forall k :: k in result <==>
          k in before || (k.schema in schemas[..j] && Asks(cat.layout, grants[i], k))
      {
        var keys;
        ok, keys := ExpandInSchema(cat, grants[i], schemas[j]);
        if !ok { return; }
        result := result + keys;
      }
    }
    ok := true;
  }

  /** Group single privileges by table, in any order. */
  method Batch(keys: set<GrantKey>) returns (m: map<TableId, seq<string>>)
    ensures forall k :: k in keys <==> TableOf(k) in m && k.privilege in m[TableOf(k)]
  {
    m := map[];
    var left := keys;
    while left != {}
      invariant left <= keys
      invariant forall k :: k in keys - left <==> TableOf(k) in m && k.privilege in m[TableOf(k)]
    {
      var k :| k in left;
      left := left - {k};
      var t := TableOf(k);
      m := m[t := (if t in m then m[t] else []) + [k.privilege]];
    }
  }

  // The four phases

  method GrantUsagePhase(cat: Catalog, ghost run: Run, ghost since: seq<map<string, Acl>>, role: string,
                          wanted: set<string>, current: set<string>)
    returns (ok: bool)
    requires run.l == cat.layout && run.role == role && wanted == SchemasOf(run.want)
    requires current == set s | s in run.Held().usage && !IsSystem(s)
    requires run.At(cat.acl, run.Stage(Parts({}, {}, {}, {})))
    requires run.SafeSince(since, cat.trace, cat.acl)
    modifies cat`acl, cat`trace
    ensures run.SafeSince(since, cat.trace, cat.acl)
    ensures ok ==> run.At(cat.acl, run.Stage(run.AllParts().(granted := {}, revoked := {}, usageOff := {})))
    ensures cat.reliable ==> ok
  {
    var left := wanted;
    ghost var p := Parts({}, {}, {}, {});
    while left != {}
      invariant left <= wanted
      invariant p == Parts(p.usageOn, {}, {}, {}) && run.AddUsage() - left <= p.usageOn
      invariant run.Ordered(p) && run.At(cat.acl, run.Stage(p))
      invariant run.SafeSince(since, cat.trace, cat.acl)
    {
      var s :| s in left;
      left := left - {s};
      if s !in current && s in cat.layout.schemas && !IsSystem(s) {
        ghost var acl, trace := cat.acl, cat.trace;
        var o := cat.GrantUsage(cat.layout.schemas[s], s, role);
        ghost var q := p.(usageOn := p.usageOn + {s});
        assert HeldIn(acl, role).(usage := HeldIn(acl, role).usage + {s}) == run.Stage(q);
        p := StatementKeepsSafety(run, o, cat.MayOnSchema(cat.layout.schemas[s], s), acl, cat.acl,
                                  since, trace, p, q);
        if o == Failed { return false; }
      }
    }
    assert p.usageOn == run.AddUsage();
    ok := true;
  }

  method GrantTablesPhase(cat: Catalog, ghost run: Run, ghost since: seq<map<string, Acl>>, role: string,
                          wanted: set<GrantKey>, current: set<GrantKey>)
    returns (ok: bool)
    requires run.l == cat.layout && run.role == role && wanted == run.want
    requires current == set k | k in run.Held().tables && !IsSystem(k.schema)
    requires run.At(cat.acl, run.Stage(run.AllParts().(granted := {}, revoked := {}, usageOff := {})))
    requires run.SafeSince(since, cat.trace, cat.acl)
    modifies cat`acl, cat`trace
    ensures run.SafeSince(since, cat.trace, cat.acl)
    ensures ok ==> run.At(cat.acl, run.Stage(run.AllParts().(revoked := {}, usageOff := {})))
    ensures cat.reliable ==> ok
  {
    var toGrant := Batch(wanted - current);
    var left := toGrant.Keys;
    ghost var p := run.AllParts().(granted := {}, revoked := {}, usageOff := {});
    while left != {}
      invariant left <= toGrant.Keys
      invariant p == Parts(run.AddUsage(), p.granted, {}, {})
      invariant forall k :: k in run.AddTables() && TableOf(k) !in left ==> k in p.granted
      invariant run.Ordered(p) && run.At(cat.acl, run.Stage(p))
      invariant run.SafeSince(since, cat.trace, cat.acl)
    {
      var t :| t in left;
      left := left - {t};
      if t in cat.layout.tables && !IsSystem(t.schema) && cat.layout.tables[t] != "" {
        ghost var acl, trace := cat.acl, cat.trace;
        var o := cat.GrantTable(cat.layout.tables[t], t, toGrant[t], role);
        ghost var q := p.(granted := p.granted + OnTable(t, toGrant[t]));
        assert forall k :: k in OnTable(t, toGrant[t]) <==> k in wanted - current && TableOf(k) == t;
        assert HeldIn(acl, role).(tables := HeldIn(acl, role).tables + OnTable(t, toGrant[t])) == run.Stage(q);
        p := StatementKeepsSafety(run, o, cat.MayOnTable(cat.layout.tables[t], t), acl, cat.acl,
                                  since, trace, p, q);
        if o == Failed { return false; }
      }
    }
    assert p.granted == run.AddTables();
    ok := true;
  }

  method RevokeTablesPhase(cat: Catalog, ghost run: Run, ghost since: seq<map<string, Acl>>, role: string,
                          wanted: set<GrantKey>, current: set<GrantKey>)
    returns (ok: bool)
    requires run.l == cat.layout && run.role == role && wanted == run.want
    requires current == set k | k in run.Held().tables && !IsSystem(k.schema)
    requires run.At(cat.acl, run.Stage(run.AllParts().(revoked := {}, usageOff := {})))
    requires run.SafeSince(since, cat.trace, cat.acl)
    modifies cat`acl, cat`trace
    ensures run.SafeSince(since, cat.trace, cat.acl)
    ensures ok ==> run.At(cat.acl, run.Stage(run.AllParts().(usageOff := {})))
    ensures cat.reliable ==> ok
  {
    var toRevoke := Batch(current - wanted);
    var left := toRevoke.Keys;
    ghost var p := run.AllParts().(revoked := {}, usageOff := {});
    while left != {}
      invariant left <= toRevoke.Keys
      invariant p == run.AllParts().(revoked := p.revoked, usageOff := {})
      invariant forall k :: k in run.DropTables() && TableOf(k) !in left ==> k in p.revoked
      invariant run.Ordered(p) && run.At(cat.acl, run.Stage(p))
      invariant run.SafeSince(since, cat.trace, cat.acl)
    {
      var t :| t in left;
      left := left - {t};
      if t in cat.layout.tables && !IsSystem(t.schema) && cat.layout.tables[t] != "" {
        ghost var acl, trace := cat.acl, cat.trace;
        var o := cat.RevokeTable(cat.layout.tables[t], t, toRevoke[t], role);
        ghost var q := p.(revoked := p.revoked + OnTable(t, toRevoke[t]));
        assert forall k :: k in OnTable(t, toRevoke[t]) <==> k in current - wanted && TableOf(k) == t;
        assert HeldIn(acl, role).(tables := HeldIn(acl, role).tables - OnTable(t, toRevoke[t])) == run.Stage(q);
        p := StatementKeepsSafety(run, o, cat.MayOnTable(cat.layout.tables[t], t), acl, cat.acl,
                                  since, trace, p, q);
        if o == Failed { return false; }
      }
    }
    assert p.revoked == run.DropTables();
    ok := true;
  }

  method RevokeUsagePhase(cat: Catalog, ghost run: Run, ghost since: seq<map<string, Acl>>, role: string,
                          wanted: set<string>, current: seq<string>)
    returns (ok: bool)
    requires run.l == cat.layout && run.role == role && wanted == SchemasOf(run.want)
    requires forall s :: s in current <==> s in run.Held().usage && !IsSystem(s)
    requires run.At(cat.acl, run.Stage(run.AllParts().(usageOff := {})))
    requires run.SafeSince(since, cat.trace, cat.acl)
    modifies cat`acl, cat`trace
    ensures run.SafeSince(since, cat.trace, cat.acl)
    ensures ok ==> run.At(cat.acl, run.Stage(run.AllParts()))
    ensures cat.reliable ==> ok
  {
    ghost var p := run.AllParts().(usageOff := {});
    for i := 0 to |current|
      invariant p == run.AllParts().(usageOff := p.usageOff)
      invariant forall s :: s in run.DropUsage() && s in current[..i] ==> s in p.usageOff
      invariant run.Ordered(p) && run.At(cat.acl, run.Stage(p))
      invariant run.SafeSince(since, cat.trace, cat.acl)
    {
      var s := current[i];
      if s !in wanted && s in cat.layout.schemas && !IsSystem(s) {
        ghost var acl, trace := cat.acl, cat.trace;
        var o := cat.RevokeUsage(cat.layout.schemas[s], s, role);
        ghost var q := p.(usageOff := p.usageOff + {s});
        assert HeldIn(acl, role).(usage := HeldIn(acl, role).usage - {s}) == run.Stage(q);
        p := StatementKeepsSafety(run, o, cat.MayOnSchema(cat.layout.schemas[s], s), acl, cat.acl,
                                  since, trace, p, q);
        if o == Failed { return false; }
      }
    }
    assert p.usageOff == run.DropUsage();
    ok := true;
  }

  method ApplyDifference(cat: Catalog, ghost run: Run, ghost since: seq<map<string, Acl>>, role: string,
                         wanted: set<GrantKey>, current: set<GrantKey>,
                         wantedSchemas: set<string>, currentSchemas: seq<string>)
    returns (ok: bool)
    requires run.l == cat.layout && run.role == role && run.start == cat.acl
    requires wanted == run.want && wantedSchemas == SchemasOf(run.want)
    requires current == set k | k in run.Held().tables && !IsSystem(k.schema)
    requires forall s :: s in currentSchemas <==> s in run.Held().usage && !IsSystem(s)
    requires run.SafeSince(since, cat.trace, cat.acl)
    modifies cat`acl, cat`trace
    ensures run.SafeSince(since, cat.trace, cat.acl)
    ensures ok ==> run.Finished(cat.acl)
    ensures cat.reliable ==> ok
  {
    StartIsSafe(run);
    ok := GrantUsagePhase(cat, run, since, role, wantedSchemas, set s | s in currentSchemas);
    if !ok { return; }
    ok := GrantTablesPhase(cat, run, since, role, wanted, current);
    if !ok { return; }
    ok := RevokeTablesPhase(cat, run, since, role, wanted, current);
    if !ok { return; }
    ok := RevokeUsagePhase(cat, run, since, role, wantedSchemas, currentSchemas);
    if !ok { return; }
    AllStagesSettle(run);
  }

  /** SyncDatabaseGrants. A denied statement is skipped and never ends the run. */
  method SyncDatabaseGrants(cat: Catalog, role: string, grants: seq<Grant>) returns (r: SyncResult)
    modifies cat`acl, cat`trace
    ensures r == Invalid <==> exists g :: g in grants && !ValidPrivileges(g.privileges)
    ensures r == Invalid ==> cat.acl == old(cat.acl) && cat.trace == old(cat.trace)
    ensures r == Synced ==> SyncRun(cat.layout, role, old(cat.acl), grants).Finished(cat.acl)
    ensures SyncRun(cat.layout, role, old(cat.acl), grants).SafeSince(old(cat.trace), cat.trace, cat.acl)
    ensures cat.reliable ==> r != Aborted
  {
    hide Run.SafeAcl, Settled;
    ghost var run := SyncRun(cat.layout, role, cat.acl, grants);
    StartIsSafe(run);
    for i := 0 to |grants|
      invariant forall n :: 0 <= n < i ==> ValidPrivileges(grants[n].privileges)
    {
      if !ValidPrivileges(grants[i].privileges) { return Invalid; }
    }
    r := Aborted;
    var failed := cat.Fails();
    if failed { return; }
    var current := set k | k in cat.Held(role).tables && !IsSystem(k.schema);
    var ok, expanded := ExpandGrants(cat, grants);
    if !ok { return; }
    failed := cat.Fails();
    if failed { return; }
    var currentSchemas := Enumerate(set s | s in cat.Held(role).usage && !IsSystem(s));
    failed := cat.Fails();
    if failed { return; }
    var wanted := set k | k in expanded;
    var wantedSchemas := set k | k in expanded :: k.schema;
    assert wanted == run.want;
    ok := ApplyDifference(cat, run, cat.trace, role, wanted, current, wantedSchemas, currentSchemas);
    if ok { r := Synced; }
  }

  // What a finished run means

  /** With no statement skipped the role ends with exactly the wanted privileges. */
  lemma SettledIsExact(l: Layout, held: Acl, want: set<GrantKey>)
    requires NothingSkipped(l, held, want)
    ensures Settled(l, held, want) == Acl(want, SchemasOf(want))
  {
    var a := Settled(l, held, want);
    forall k | k in held.tables + want
      ensures k in a.tables <==> k in want
    {
      assert Unskipped(l, held, want, k.schema);
    }
    forall s | s in held.usage + SchemasOf(want)
      ensures s in a.usage <==> s in SchemasOf(want)
    {
      assert Unskipped(l, held, want, s);
    }
    assert a.tables == want;
    assert a.usage == SchemasOf(want);
  }

  /** Usable privileges stay usable in exactly the steady schemas; in particular wherever
      nothing is skipped. */
  lemma SettledCoversIff(l: Layout, held: Acl, want: set<GrantKey>, s: string)
    requires Covers(held, s)
    ensures Covers(Settled(l, held, want), s) <==> Steady(l, held, want, s)
    ensures Unskipped(l, held, want, s) ==> Covers(Settled(l, held, want), s)
  {
    var a := Settled(l, held, want);
    if !Steady(l, held, want, s) {
      var k :| k in a.tables && k.schema == s;
    }
  }

  /** A second run finds nothing it could still do. */
  lemma SettledIsStable(l: Layout, role: string, start: map<string, Acl>, want: set<GrantKey>)
    ensures var next := Run(l, role, start[role := Settled(l, HeldIn(start, role), want)], want);
            next.AllParts() == Parts({}, {}, {}, {}) &&
            Settled(l, next.Held(), want) == next.Held()
  {
  }

  /** From a settled state every safe state is that state. */
  lemma SettledStays(run: Run, held: Acl, a: Acl)
    requires run.Held() == Settled(run.l, held, run.want) && run.SafeAcl(a)
    ensures a == run.Held()
  {
    var b := run.Held();
    forall k ensures k in a.tables <==> k in b.tables {
      assert run.l.TableOpen(TableOf(k)) ==> (k in b.tables <==> k in run.want);
    }
    forall s ensures s in a.usage <==> s in b.usage {
      assert run.l.SchemaOpen(s) ==> (s in b.usage <==> s in SchemasOf(run.want));
    }
  }

  /** A run of the same grants after a finished one, or from the same start, adds only safe
      states. */
  lemma SafeAgain(run: Run, mid: map<string, Acl>, since: seq<map<string, Acl>>, before: seq<map<string, Acl>>,
                  trace: seq<map<string, Acl>>, acl: map<string, Acl>)
    requires run.SafeSince(since, before, mid) && run.(start := mid).SafeSince(before, trace, acl)
    requires mid == run.start || run.Finished(mid)
    ensures run.SafeSince(since, trace, acl)
  {
    hide Run.SafeAcl, Settled;
    if run.Finished(mid) {
      forall x | run.(start := mid).Safe(x) ensures run.Safe(x) {
        SettledStays(run.(start := mid), run.Held(), HeldIn(x, run.role));
        assert run.SafeAcl(HeldIn(mid, run.role));
      }
    }
    forall i | |since| <= i < |trace| ensures run.Safe(trace[i]) {
      assert i < |before| ==> trace[i] == before[i];
    }
  }

  /** The reference semantics: one statement for each single privilege. */
  datatype Single = Open(schema: string) | Give(key: GrantKey) | Take(key: GrantKey) | Close(schema: string)

  ghost function ApplyOne(l: Layout, a: Acl, one: Single): Acl {
    match one
    case Open(s) => if l.SchemaOpen(s) then a.(usage := a.usage + {s}) else a
    case Give(k) => if l.TableOpen(TableOf(k)) then a.(tables := a.tables + {k}) else a
    case Take(k) => if l.TableOpen(TableOf(k)) then a.(tables := a.tables - {k}) else a
    case Close(s) => if l.SchemaOpen(s) then a.(usage := a.usage - {s}) else a
  }

  ghost function ApplyEach(l: Layout, a: Acl, ones: seq<Single>): Acl
    decreases |ones|
  {
    if ones == [] then a else ApplyEach(l, ApplyOne(l, a, ones[0]), ones[1..])
  }

  /** A list of single statements for the difference between held and wanted:
      each needed one occurs at least once, in any order, and no other. */
  ghost predicate Covering(ones: seq<Single>, held: Acl, want: set<GrantKey>) {
    (forall s :: Open(s) in ones <==> s in SchemasOf(want) - held.usage) &&
    (forall k :: Give(k) in ones <==> k in want - held.tables) &&
    (forall k :: Take(k) in ones <==> k in held.tables - want) &&
    (forall s :: Close(s) in ones <==> s in held.usage - SchemasOf(want))
  }

  lemma {:induction false} ApplyEachTable(l: Layout, a: Acl, ones: seq<Single>, k: GrantKey)
    requires !(Give(k) in ones && Take(k) in ones)
    decreases |ones|
    ensures k in ApplyEach(l, a, ones).tables <==>
            (if l.TableOpen(TableOf(k)) && Give(k) in ones then true
             else if l.TableOpen(TableOf(k)) && Take(k) in ones then false else k in a.tables)
  {
    if ones != [] {
      assert ones == [ones[0]] + ones[1..];
      ApplyEachTable(l, ApplyOne(l, a, ones[0]), ones[1..], k);
    }
  }

  lemma {:induction false} ApplyEachSchema(l: Layout, a: Acl, ones: seq<Single>, s: string)
    requires !(Open(s) in ones && Close(s) in ones)
    decreases |ones|
    ensures s in ApplyEach(l, a, ones).usage <==>
            (if l.SchemaOpen(s) && Open(s) in ones then true
             else if l.SchemaOpen(s) && Close(s) in ones then false else s in a.usage)
  {
    if ones != [] {
      assert ones == [ones[0]] + ones[1..];
      ApplyEachSchema(l, ApplyOne(l, a, ones[0]), ones[1..], s);
    }
  }

  /** Batching by table and ordering by phase change nothing about the result:
      it is that of single statements in whatever order. */
  lemma BatchedEqualsSingle(l: Layout, held: Acl, want: set<GrantKey>, ones: seq<Single>)
    requires Covering(ones, held, want)
    ensures ApplyEach(l, held, ones) == Settled(l, held, want)
  {
    var a, b := ApplyEach(l, held, ones), Settled(l, held, want);
    forall k ensures k in a.tables <==> k in b.tables {
      ApplyEachTable(l, held, ones, k);
    }
    forall s ensures s in a.usage <==> s in b.usage {
      ApplyEachSchema(l, held, ones, s);
    }
  }

  // RevokeAllDatabaseGrants

  /** The roles in whose name the bulk revoke of a schema is tried. */
  function BulkOwners(l: Layout, schema: string): set<string> {
    (set t | t in l.tables && t.schema == schema && !IsSystem(schema) :: l.tables[t]) +
    (if schema in l.schemas && !IsSystem(schema) then {l.schemas[schema]} else {})
  }

  ghost predicate BulkOpen(l: Layout, schema: string) {
    exists acting :: acting in BulkOwners(l, schema) && l.MayOnAllTables(acting, schema)
  }

  /** a owns the schema or a table in it. */
  ghost predicate OwnsIn(l: Layout, s: string, a: string) {
    (s in l.schemas && l.schemas[s] == a) || exists t :: t in l.tables && t.schema == s && l.tables[t] == a
  }

  ghost predicate ActsForAll(l: Layout, s: string, a: string) {
    forall t :: t in l.tables && t.schema == s ==> a == l.tables[t] || (a, l.tables[t]) in l.members
  }

  /** The revoke is tried as the owner of the schema and as every owner of a table in it, and
      one that may act for all the table owners is enough. */
  lemma BulkOpenIff(l: Layout, s: string)
    ensures BulkOpen(l, s) <==> !IsSystem(s) && exists a :: a !in l.denied && OwnsIn(l, s, a) && ActsForAll(l, s, a)
  {
    forall a ensures a in BulkOwners(l, s) <==> !IsSystem(s) && OwnsIn(l, s, a) {
    }
    forall a ensures l.MayOnAllTables(a, s) <==> a !in l.denied && ActsForAll(l, s, a) {
    }
    if a :| !IsSystem(s) && a !in l.denied && OwnsIn(l, s, a) && ActsForAll(l, s, a) {
      assert a in BulkOwners(l, s) && l.MayOnAllTables(a, s);
    }
  }

  /** A table privilege that was visible is left behind only where the owner of the table may
      not be acted as, or another table of the schema has another owner. */
  ghost predicate LeavesOnlyMixed(l: Layout, held: Acl, left: set<GrantKey>) {
    forall k :: k in left && k.schema in held.usage && !IsSystem(k.schema) && TableOf(k) in l.tables ==>
      l.tables[TableOf(k)] in l.denied ||
      exists t :: t in l.tables && t.schema == k.schema && l.tables[t] != l.tables[TableOf(k)]
  }

  lemma ClearedLeavesOnlyMixed(l: Layout, held: Acl)
    ensures LeavesOnlyMixed(l, held, Cleared(l, held).tables)
  {
    hide BulkOpen;
    forall k | k in Cleared(l, held).tables && k.schema in held.usage && !IsSystem(k.schema) &&
               TableOf(k) in l.tables && l.tables[TableOf(k)] !in l.denied
      ensures exists t :: t in l.tables && t.schema == k.schema && l.tables[t] != l.tables[TableOf(k)]
    {
      BulkOpenIff(l, k.schema);
      assert TableOf(k).schema == k.schema;
      assert OwnsIn(l, k.schema, l.tables[TableOf(k)]);
    }
  }

  ghost function Cleared(l: Layout, held: Acl): Acl {
    Acl(set k | k in held.tables && !(k.schema in held.usage && !IsSystem(k.schema) && BulkOpen(l, k.schema)),
        set s | s in held.usage && !l.SchemaOpen(s))
  }

  /** The cleanup sees every table privilege and some owner may revoke all of them in its
      schema, and USAGE can be revoked. */
  ghost predicate Clearable(l: Layout, held: Acl) {
    (forall k :: k in held.tables ==> k.schema in held.usage && BulkOpen(l, k.schema)) &&
    forall s :: s in held.usage ==> l.SchemaOpen(s)
  }

  /** Cleanup leaves nothing behind if and only if the holdings are clearable. */
  lemma ClearedIsEmptyIff(l: Layout, held: Acl)
    ensures Cleared(l, held) == NOTHING <==> Clearable(l, held)
  {
    var a := Cleared(l, held);
    assert a == NOTHING ==> forall k :: k in held.tables ==> k !in a.tables;
    assert a == NOTHING ==> forall s :: s in held.usage ==> s !in a.usage;
    if Clearable(l, held) {
      assert a.tables == {} && a.usage == {};
    }
  }

  /** A state on the way to Cleared: nothing gained, nothing gone that a finished cleanup
      leaves, and no privilege cut off from the USAGE that makes the next attempt see it. */
  ghost predicate Clearing(l: Layout, held: Acl, a: Acl) {
    Cleared(l, held).tables <= a.tables <= held.tables && Cleared(l, held).usage <= a.usage <= held.usage &&
    forall s :: BulkOpen(l, s) && Covers(held, s) ==> Covers(a, s)
  }

  /** An attempt neither makes clearable holdings unclearable nor the other way round. */
  lemma ClearingKeepsClearable(l: Layout, held: Acl, a: Acl)
    requires Clearing(l, held, a)
    ensures Clearable(l, a) <==> Clearable(l, held)
  {
    hide BulkOpen;
    if Clearable(l, held) {
      forall k | k in a.tables ensures k.schema in a.usage {
        assert Covers(held, k.schema) && Covers(a, k.schema);
      }
    }
    if Clearable(l, a) {
      forall k | k in held.tables ensures k.schema in held.usage && BulkOpen(l, k.schema) {
        assert k !in a.tables ==> k !in Cleared(l, held).tables;
      }
      forall s | s in held.usage ensures l.SchemaOpen(s) {
        assert s !in a.usage ==> s !in Cleared(l, held).usage;
      }
    }
  }

  /** Every table that can be granted on lies in a schema that cleanup can deal with, and no
      table privilege that cannot be revoked loses its USAGE. */
  ghost predicate StaysClearable(l: Layout, held: Acl, want: set<GrantKey>) {
    (forall k :: k in want && l.TableOpen(TableOf(k)) ==> l.SchemaOpen(k.schema) && BulkOpen(l, k.schema)) &&
    (forall k :: k in held.tables && !l.TableOpen(TableOf(k)) ==> k.schema in SchemasOf(want))
  }

  /** A finished sync keeps the holdings clearable under exactly this condition. */
  lemma SyncKeepsClearableIff(l: Layout, held: Acl, want: set<GrantKey>)
    requires Clearable(l, held)
    ensures Clearable(l, Settled(l, held, want)) <==> StaysClearable(l, held, want)
  {
    hide BulkOpen;
    var a := Settled(l, held, want);
    assert forall s :: s in a.usage <==> s in SchemasOf(want) && l.SchemaOpen(s);
    assert forall k :: k in want ==> k.schema in SchemasOf(want);
    assert forall k :: k in want && l.TableOpen(TableOf(k)) ==> k in a.tables;
    assert forall k :: k in held.tables && !l.TableOpen(TableOf(k)) ==> k in a.tables;
  }

  /** And so does one that stopped anywhere. */
  lemma SafeKeepsClearable(run: Run, a: Acl)
    requires Clearable(run.l, run.Held()) && StaysClearable(run.l, run.Held(), run.want) && run.SafeAcl(a)
    ensures Clearable(run.l, a)
  {
    hide BulkOpen;
    var l, held, want := run.l, run.Held(), run.want;
    forall k | k in a.tables ensures k.schema in a.usage && BulkOpen(l, k.schema) {
      var s := k.schema;
      assert s in SchemasOf(a.tables);
      assert Steady(l, held, want, s);
      assert Covers(held, s) && Covers(a, s);
    }
  }

  /** Try the bulk revoke of one schema in the name of each owner, in any order. */
  method BulkRevoke(cat: Catalog, role: string, schema: string, owners: set<string>) returns (ok: bool)
    requires owners == BulkOwners(cat.layout, schema)
    modifies cat`acl, cat`trace
    ensures OthersKept(role, old(cat.acl), cat.acl)
    ensures cat.Held(role) == old(cat.Held(role)) ||
            cat.Held(role) == old(cat.Held(role)).(tables := Outside(old(cat.Held(role)).tables, schema))
    ensures ok && BulkOpen(cat.layout, schema) ==> cat.Held(role).tables == Outside(old(cat.Held(role)).tables, schema)
    ensures !BulkOpen(cat.layout, schema) ==> cat.Held(role) == old(cat.Held(role))
    ensures cat.reliable ==> ok
  {
    var left := owners;
    ghost var start, gone := cat.Held(role), Outside(cat.Held(role).tables, schema);
    while left != {}
      invariant left <= owners
      invariant OthersKept(role, old(cat.acl), cat.acl)
      invariant cat.Held(role) == start || cat.Held(role) == start.(tables := gone)
      invariant (exists acting :: acting in owners - left && cat.layout.MayOnAllTables(acting, schema)) ==>
                cat.Held(role).tables == gone
      invariant !(exists acting :: acting in owners - left && cat.layout.MayOnAllTables(acting, schema)) ==>
                cat.Held(role) == start
    {
      var owner :| owner in left;
      left := left - {owner};
      assert Outside(gone, schema) == gone;
      var o := cat.RevokeAllTables(owner, schema, role);
      if o == Failed { return false; }
    }
    ok := true;
  }

  lemma NoOwnersIsClosed(l: Layout, schema: string)
    ensures BulkOwners(l, schema) == {} ==> !BulkOpen(l, schema) && !l.SchemaOpen(schema)
  {
  }

  /** What clearing the given schemas leaves. */
  ghost function ClearedIn(l: Layout, held: Acl, schemas: set<string>): Acl {
    Acl(set k | k in held.tables && !(k.schema in schemas && BulkOpen(l, k.schema)),
        set s | s in held.usage && !(s in schemas && l.SchemaOpen(s)))
  }

  lemma ClearedInOneMore(l: Layout, held: Acl, schemas: set<string>, schema: string)
    ensures ClearedIn(l, held, {}) == held
    ensures ClearedIn(l, ClearedIn(l, held, schemas), {schema}) == ClearedIn(l, held, schemas + {schema})
    ensures schemas <= held.usage ==> Clearing(l, held, ClearedIn(l, held, schemas))
  {
  }

  lemma ClearingStart(l: Layout, held: Acl)
    ensures Clearing(l, held, held)
  {
  }

  lemma ClearingTwice(l: Layout, held: Acl, a: Acl, b: Acl)
    requires Clearing(l, held, a) && Clearing(l, a, b)
    ensures Clearing(l, held, b)
  {
  }

  /** One round of the loop: the tables of a schema in bulk, then its USAGE. */
  method ClearSchema(cat: Catalog, role: string, schema: string) returns (ok: bool)
    requires schema in cat.Held(role).usage && !IsSystem(schema)
    modifies cat`acl, cat`trace
    ensures OthersKept(role, old(cat.acl), cat.acl)
    ensures Clearing(cat.layout, old(cat.Held(role)), cat.Held(role))
    ensures ok ==> cat.Held(role) == ClearedIn(cat.layout, old(cat.Held(role)), {schema})
    ensures cat.reliable ==> ok
  {
    hide BulkOpen, BulkOwners;
    var owners := BulkOwners(cat.layout, schema);
    NoOwnersIsClosed(cat.layout, schema);
    ClearedInOneMore(cat.layout, cat.Held(role), {}, schema);
    if owners == {} {
      assert ClearedIn(cat.layout, cat.Held(role), {schema}) == cat.Held(role);
      return true;
    }
    ok := BulkRevoke(cat, role, schema, owners);
    if !ok { return; }
    if schema in cat.layout.schemas {
      var o := cat.RevokeUsage(cat.layout.schemas[schema], schema, role);
      if o == Failed { return false; }
    }
    assert cat.Held(role).tables == ClearedIn(cat.layout, old(cat.Held(role)), {schema}).tables;
    assert cat.Held(role).usage == ClearedIn(cat.layout, old(cat.Held(role)), {schema}).usage;
  }

  /** RevokeAllDatabaseGrants. A denied statement is skipped and never ends the run. */
  method RevokeAllDatabaseGrants(cat: Catalog, role: string) returns (ok: bool)
    modifies cat`acl, cat`trace
    ensures OthersKept(role, old(cat.acl), cat.acl)
    ensures Clearing(cat.layout, old(cat.Held(role)), cat.Held(role))
    ensures ok ==> cat.Held(role) == Cleared(cat.layout, old(cat.Held(role)))
    ensures ok ==> LeavesOnlyMixed(cat.layout, old(cat.Held(role)), cat.Held(role).tables)
    ensures cat.reliable ==> ok
  {
    hide BulkOpen, Clearing, LeavesOnlyMixed;
    ghost var l, held := cat.layout, cat.Held(role);
    ClearedLeavesOnlyMixed(l, held);
    ClearedInOneMore(l, held, {}, "");
    var failed := cat.Fails();
    if failed { return false; }
    var left := set s | s in cat.Held(role).usage && !IsSystem(s);
    ghost var visible, done: set<string> := left, {};
    while left != {}
      invariant left + done == visible <= held.usage && left !! done
      invariant OthersKept(role, old(cat.acl), cat.acl) && cat.Held(role) == ClearedIn(l, held, done)
      decreases left
    {
      var schema :| schema in left;
      left := left - {schema};
      ClearedInOneMore(l, held, done, schema);
      ghost var before := cat.Held(role);
      ok := ClearSchema(cat, role, schema);
      ClearingTwice(l, held, before, cat.Held(role));
      if !ok { return; }
      done := done + {schema};
    }
    ClearedInOneMore(l, held, done, "");
    assert ClearedIn(l, held, visible).tables == Cleared(l, held).tables;
    assert ClearedIn(l, held, visible).usage == Cleared(l, held).usage;
    ok := true;
  }
}
