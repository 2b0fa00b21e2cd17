/** The part of one PostgreSQL database that the controller reads and changes:
    schemas, regular tables, the privileges of every role, and the functions of
    the public schema. Statements are typed operations; each may commit, be
    denied (SQLSTATE 42501) or fail. */
module Catalogs {

  /** How one statement ends. */
  datatype Outcome = Done | Denied | Failed

  /** How one reconciliation step ends: the spec is applied, rejected before
      anything was changed, or the step stopped at some call that failed. */
  datatype SyncResult = Synced | Invalid | Aborted

  datatype TableId = TableId(schema: string, name: string)

  /** One privilege on one table. */
  datatype GrantKey = GrantKey(schema: string, table: string, privilege: string)

  function TableOf(k: GrantKey): TableId {
    TableId(k.schema, k.table)
  }

  /** What one role holds: table privileges and schema USAGE. */
  datatype Acl = Acl(tables: set<GrantKey>, usage: set<string>)

  const NOTHING := Acl({}, {})

  /** nspname LIKE 'pg_%' OR nspname = 'information_schema'. The underscore of a
      LIKE pattern matches any one character, so "pgq" is a system schema too. */
  predicate IsSystem(schema: string) {
    (|schema| >= 3 && schema[..2] == "pg") || schema == "information_schema"
  }

  /** The facts about a database that no modelled statement changes. */
  datatype Layout = Layout(
    owner: string,                  // the database owner
    controller: string,             // current_user of the controller's connection
    schemas: map<string, string>,   // schema -> owner, system schemas included
    tables: map<TableId, string>,   // regular table -> owner
    denied: set<string>,            // roles the controller may not SET ROLE to
    members: set<(string, string)>, // (a, o): a is a member of o and acts for it
    creators: set<string>           // roles with CREATE on the public schema
  ) {
    predicate ActsFor(acting: string, owner: string) {
      acting == owner || (acting, owner) in members
    }

    /** The controller finds an owner for the schema and may act as that owner. */
    predicate SchemaOpen(s: string) {
      s in schemas && !IsSystem(s) && schemas[s] !in denied
    }

    /** ON ALL TABLES IN SCHEMA is one statement: it needs every table of the schema. */
    predicate MayOnAllTables(acting: string, schema: string) {
      acting !in denied && forall t :: t in tables && t.schema == schema ==> ActsFor(acting, tables[t])
    }

    predicate TableOpen(t: TableId) {
      t in tables && !IsSystem(t.schema) && tables[t] != "" && tables[t] !in denied
    }
  }

  /** What an argument list says: types, and the names of the parameters, "" for none. */
  datatype Signature = Signature(types: string, names: seq<string>)

  /** A function of the public schema is known by its name and argument types. */
  datatype ProcKey = ProcKey(name: string, types: string)

  datatype Definition = Definition(result: string, names: seq<string>, body: string)

  /** Parameters may get a name, but not another one. */
  predicate KeepsNames(before: seq<string>, after: seq<string>) {
    |before| == |after| && forall i :: 0 <= i < |before| ==> before[i] == "" || before[i] == after[i]
  }

  datatype Proc = Proc(oid: nat, owner: string, def: Definition, execute: set<string>, isPublic: bool)

  /** The functions of the public schema. New oids are larger than old ones. */
  datatype Procs = Procs(defs: map<ProcKey, Proc>, nextOid: nat) {
    ghost predicate WellFormed() {
      (forall k :: k in defs ==> defs[k].oid < nextOid) &&
      forall k, k' :: k in defs && k' in defs && defs[k].oid == defs[k'].oid ==> k == k'
    }

    /** CREATE OR REPLACE keeps oid, owner and privileges of an existing function;
        a new one is owned by its creator and executable by PUBLIC. */
    function Create(key: ProcKey, creator: string, def: Definition): Procs {
      if key in defs then this.(defs := defs[key := defs[key].(def := def)])
      else Procs(defs[key := Proc(nextOid, creator, def, {}, true)], nextOid + 1)
    }

    /** Neither the return type nor a parameter name of an existing function can be changed. */
    predicate Takes(key: ProcKey, def: Definition) {
      key in defs ==> defs[key].def.result == def.result && KeepsNames(defs[key].def.names, def.names)
    }

    function Drop(key: ProcKey): Procs {
      this.(defs := defs - {key})
    }

    function Replace(key: ProcKey, p: Proc): Procs {
      this.(defs := defs[key := p])
    }
  }

  type ProcTable = p: Procs | p.WellFormed() witness Procs(map[], 0)

  lemma StatementsKeepOids(procs: ProcTable, key: ProcKey, creator: string, def: Definition)
    ensures procs.Create(key, creator, def).WellFormed() && procs.Drop(key).WellFormed()
    ensures key in procs.defs ==> forall p: Proc :: p.oid == procs.defs[key].oid ==> procs.Replace(key, p).WellFormed()
  {
  }

  /** How a transaction run by execWithRole ends. A failure may hide a commit
      whose acknowledgement was lost, so the effect is then all or nothing. */
  ghost predicate Executed<S>(o: Outcome, permitted: bool, before: S, after: S, effect: S) {
    match o
    case Done => permitted && after == effect
    case Denied => !permitted && after == before
    case Failed => after == before || (permitted && after == effect)
  }

  method Enumerate<T(==)>(s: set<T>) returns (r: seq<T>)
    ensures forall x :: x in r <==> x in s
  {
    r := [];
    var left := s;
    while left != {}
      invariant left <= s
      invariant forall x :: x in r <==> x in s - left
    {
      var x :| x in left;
      r, left := r + [x], left - {x};
    }
  }

  class Catalog {
    const layout: Layout
    const signature: string -> Signature     // what an argument list says
    const accepts: (string, string) -> bool  // the filter on a function's arguments and return type
    const reliable: bool                     // no call fails; statements may still be denied
    var acl: map<string, Acl>
    var procs: ProcTable
    ghost var trace: seq<map<string, Acl>>  // acl after each privilege statement

    constructor (layout: Layout, signature: string -> Signature, accepts: (string, string) -> bool, reliable: bool,
                 acl: map<string, Acl>, procs: ProcTable)
      ensures this.layout == layout && this.signature == signature && this.accepts == accepts
      ensures this.reliable == reliable && this.acl == acl && this.procs == procs
      ensures trace == []
    {
      this.layout, this.signature, this.accepts, this.reliable := layout, signature, accepts, reliable;
      this.acl, this.procs := acl, procs;
      trace := [];
    }

    function Held(role: string): Acl
      reads `acl
    {
      HeldIn(acl, role)
    }

    /** Whether a connection or a query fails. */
    method Fails() returns (failed: bool)
      ensures reliable ==> !failed
    {
      failed := *;
      failed := failed && !reliable;
    }

    /** SET LOCAL ROLE acting; <one privilege statement>; COMMIT. */
    method ExecWithRole(permitted: bool, role: string, next: Acl) returns (o: Outcome)
      modifies `acl, `trace
      ensures reliable ==> o != Failed
      ensures Executed(o, permitted, old(acl), acl, old(acl)[role := next])
      ensures trace == old(trace) + [acl] && OthersKept(role, old(acl), acl)
    {
      var failed := Fails();
      var carriedOut := *;
      o := if failed then Failed else if permitted then Done else Denied;
      if permitted && (!failed || carriedOut) {
        acl := acl[role := next];
      }
      trace := trace + [acl];
    }

    predicate MayOnSchema(acting: string, schema: string) {
      acting !in layout.denied && schema in layout.schemas && layout.ActsFor(acting, layout.schemas[schema])
    }

    predicate MayOnTable(acting: string, t: TableId) {
      acting !in layout.denied && t in layout.tables && layout.ActsFor(acting, layout.tables[t])
    }

    method GrantUsage(acting: string, schema: string, role: string) returns (o: Outcome)
      modifies `acl, `trace
      ensures reliable ==> o != Failed
      ensures Executed(o, MayOnSchema(acting, schema), old(acl), acl,
                       old(acl)[role := old(Held(role)).(usage := old(Held(role)).usage + {schema})])
      ensures trace == old(trace) + [acl] && OthersKept(role, old(acl), acl)
    {
      o := ExecWithRole(MayOnSchema(acting, schema), role, Held(role).(usage := Held(role).usage + {schema}));
    }

    method RevokeUsage(acting: string, schema: string, role: string) returns (o: Outcome)
      modifies `acl, `trace
      ensures reliable ==> o != Failed
      ensures Executed(o, MayOnSchema(acting, schema), old(acl), acl,
                       old(acl)[role := old(Held(role)).(usage := old(Held(role)).usage - {schema})])
      ensures trace == old(trace) + [acl] && OthersKept(role, old(acl), acl)
    {
      o := ExecWithRole(MayOnSchema(acting, schema), role, Held(role).(usage := Held(role).usage - {schema}));
    }

    method GrantTable(acting: string, t: TableId, privileges: seq<string>, role: string) returns (o: Outcome)
      modifies `acl, `trace
      ensures reliable ==> o != Failed
      ensures Executed(o, MayOnTable(acting, t), old(acl), acl,
                       old(acl)[role := old(Held(role)).(tables := old(Held(role)).tables + OnTable(t, privileges))])
      ensures trace == old(trace) + [acl] && OthersKept(role, old(acl), acl)
    {
      o := ExecWithRole(MayOnTable(acting, t), role, Held(role).(tables := Held(role).tables + OnTable(t, privileges)));
    }

    method RevokeTable(acting: string, t: TableId, privileges: seq<string>, role: string) returns (o: Outcome)
      modifies `acl, `trace
      ensures reliable ==> o != Failed
      ensures Executed(o, MayOnTable(acting, t), old(acl), acl,
                       old(acl)[role := old(Held(role)).(tables := old(Held(role)).tables - OnTable(t, privileges))])
      ensures trace == old(trace) + [acl] && OthersKept(role, old(acl), acl)
    {
      o := ExecWithRole(MayOnTable(acting, t), role, Held(role).(tables := Held(role).tables - OnTable(t, privileges)));
    }

    /** REVOKE ALL PRIVILEGES ON ALL TABLES IN SCHEMA. */
    method RevokeAllTables(acting: string, schema: string, role: string) returns (o: Outcome)
      modifies `acl, `trace
      ensures reliable ==> o != Failed
      ensures Executed(o, layout.MayOnAllTables(acting, schema), old(acl), acl,
                       old(acl)[role := old(Held(role)).(tables := Outside(old(Held(role)).tables, schema))])
      ensures trace == old(trace) + [acl] && OthersKept(role, old(acl), acl)
    {
      var outside := Outside(Held(role).tables, schema);
      o := ExecWithRole(layout.MayOnAllTables(acting, schema), role, Held(role).(tables := outside));
    }

    /** SET LOCAL ROLE acting; <one statement about a function>; COMMIT. */
    method ExecProcWithRole(permitted: bool, next: ProcTable) returns (o: Outcome)
      modifies `procs
      ensures reliable ==> o != Failed
      ensures Executed(o, permitted, old(procs), procs, next)
    {
      var failed := Fails();
      var carriedOut := *;
      o := if failed then Failed else if permitted then Done else Denied;
      if permitted && (!failed || carriedOut) {
        procs := next;
      }
    }

    predicate MayOnProc(acting: string, key: ProcKey)
      reads `procs
    {
      acting !in layout.denied && (key in procs.defs ==> layout.ActsFor(acting, procs.defs[key].owner))
    }

    /** Needs CREATE on the schema, also to replace, and fails if it would change the
        return type or the name of a parameter. */
    method CreateOrReplace(acting: string, key: ProcKey, def: Definition) returns (o: Outcome)
      modifies `procs
      ensures reliable && old(procs).Takes(key, def) ==> o != Failed
      ensures !old(procs).Takes(key, def) ==> o == Failed && procs == old(procs)
      ensures Executed(o, acting in layout.creators && old(MayOnProc(acting, key)), old(procs), procs,
                       old(procs).Create(key, acting, def))
      ensures o == Done ==> key in procs.defs && procs.defs[key].def == def
      ensures o == Done && key in old(procs).defs ==> procs.defs[key] == old(procs.defs[key]).(def := def)
      ensures o == Done && key !in old(procs).defs ==>
        procs.defs[key].owner == acting && procs.defs[key].isPublic && procs.defs[key].execute == {} &&
        forall k :: k in old(procs).defs ==> procs.defs[k].oid < procs.defs[key].oid
    {
      if !procs.Takes(key, def) { return Failed; }
      StatementsKeepOids(procs, key, acting, def);
      o := ExecProcWithRole(acting in layout.creators && MayOnProc(acting, key), procs.Create(key, acting, def));
    }

    /** DROP FUNCTION IF EXISTS. */
    method DropFunction(acting: string, key: ProcKey) returns (o: Outcome)
      modifies `procs
      ensures reliable ==> o != Failed
      ensures Executed(o, old(MayOnProc(acting, key)), old(procs), procs, old(procs).Drop(key))
    {
      StatementsKeepOids(procs, key, acting, Definition("", [], ""));
      o := ExecProcWithRole(MayOnProc(acting, key), procs.Drop(key));
    }

    predicate MayAlterOwner(acting: string, key: ProcKey, owner: string)
      reads `procs
      requires key in procs.defs
    {
      MayOnProc(acting, key) && layout.ActsFor(acting, owner) &&
      (procs.defs[key].owner == owner || owner in layout.creators)
    }

    /** A new owner must be one the acting role acts for, with CREATE on the schema. */
    method AlterOwner(acting: string, key: ProcKey, owner: string) returns (o: Outcome)
      requires key in procs.defs
      modifies `procs
      ensures reliable ==> o != Failed
      ensures Executed(o, old(MayAlterOwner(acting, key, owner)), old(procs), procs,
                       old(procs).Replace(key, old(procs.defs[key]).(owner := owner)))
    {
      StatementsKeepOids(procs, key, acting, Definition("", [], ""));
      o := ExecProcWithRole(MayAlterOwner(acting, key, owner), procs.Replace(key, procs.defs[key].(owner := owner)));
    }

    method RevokeFromPublic(acting: string, key: ProcKey) returns (o: Outcome)
      requires key in procs.defs
      modifies `procs
      ensures reliable ==> o != Failed
      ensures Executed(o, old(MayOnProc(acting, key)), old(procs), procs,
                       old(procs).Replace(key, old(procs.defs[key]).(isPublic := false)))
    {
      StatementsKeepOids(procs, key, acting, Definition("", [], ""));
      o := ExecProcWithRole(MayOnProc(acting, key), procs.Replace(key, procs.defs[key].(isPublic := false)));
    }

    method GrantExecute(acting: string, key: ProcKey, role: string) returns (o: Outcome)
      requires key in procs.defs
      modifies `procs
      ensures reliable ==> o != Failed
      ensures Executed(o, old(MayOnProc(acting, key)), old(procs), procs,
                       old(procs).Replace(key, old(procs.defs[key]).(execute := old(procs.defs[key].execute) + {role})))
    {
      StatementsKeepOids(procs, key, acting, Definition("", [], ""));
      o := ExecProcWithRole(MayOnProc(acting, key),
                            procs.Replace(key, procs.defs[key].(execute := procs.defs[key].execute + {role})));
    }
  }

  /** Nothing of a role other than the given one differs. */
  ghost predicate OthersKept(role: string, before: map<string, Acl>, after: map<string, Acl>) {
    before - {role} == after - {role}
  }

  function HeldIn(acl: map<string, Acl>, role: string): Acl {
    if role in acl then acl[role] else NOTHING
  }

  function OnTable(t: TableId, privileges: seq<string>): set<GrantKey> {
    set p | p in privileges :: GrantKey(t.schema, t.name, p)
  }

  function Outside(keys: set<GrantKey>, schema: string): set<GrantKey> {
    set k | k in keys && k.schema != schema
  }
}
