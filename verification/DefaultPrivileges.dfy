/** Default privileges for the roles of a service database, set while the service may
    be creating tables (pkg/postgres/database.go). */
module DefaultPrivileges {

  datatype Role = ReadRole | ReadWriteRole | ReadOwningWriteRole

  /** The service user's own schema, and public. */
  datatype Schema = Service | Public

  datatype Statement =
    | AlterDefaults(schema: Schema, role: Role)
    | GrantUsage(role: Role)
    | GrantAllTables(role: Role)  // in the service schema

  datatype Grant = Grant(role: Role, privilege: string)

  datatype Default = Default(schema: Schema, grant: Grant)

  function Privileges(r: Role): set<Grant> {
    match r
    case ReadRole => {Grant(r, "SELECT")}
    case _ => {Grant(r, "SELECT"), Grant(r, "INSERT"), Grant(r, "UPDATE"), Grant(r, "DELETE")}
  }

  /** setDefaultPrivilegesAs. */
  function ForRole(r: Role): seq<Statement> {
    [AlterDefaults(Service, r), AlterDefaults(Public, r), GrantUsage(r), GrantAllTables(r)]
  }

  /** setDefaultPrivileges. */
  function Program(): seq<Statement> {
    ForRole(ReadRole) + ForRole(ReadWriteRole) + ForRole(ReadOwningWriteRole)
  }

  /** A table of the service user. It takes the defaults when its creation begins, and
      others see it once that is committed. */
  datatype Table = Table(schema: Schema, acl: set<Grant>, began: nat, visible: bool, committed: nat)

  /** When a statement was first and last carried out. */
  datatype Span = Span(first: nat, last: nat)

  datatype State = State(clock: nat, pc: nat, defaults: set<Default>, usage: set<Role>, tables: map<string, Table>,
                         ran: map<Statement, Span>)

  datatype Event =
    | Executes
    | Fails(carriedOut: bool)  // the run ends with an error
    | Restarts                 // the next run
    | Begins(name: string, schema: Schema)
    | Commits(name: string)

  predicate Enabled(program: seq<Statement>, s: State, e: Event) {
    match e
    case Executes => s.pc < |program|
    case Fails(_) => s.pc < |program|
    case Restarts => s.pc == |program|
    case Begins(name, _) => name !in s.tables
    case Commits(name) => name in s.tables && !s.tables[name].visible
  }

  function Granted(t: Table, r: Role): Table {
    if t.visible && t.schema == Service then t.(acl := t.acl + Privileges(r)) else t
  }

  function Effect(s: State, st: Statement): State {
    match st
    case AlterDefaults(schema, r) => s.(defaults := s.defaults + set g | g in Privileges(r) :: Default(schema, g))
    case GrantUsage(r) => s.(usage := s.usage + {r})
    case GrantAllTables(r) => s.(tables := map name | name in s.tables :: Granted(s.tables[name], r))
  }

  function RanAt(ran: map<Statement, Span>, st: Statement, time: nat): map<Statement, Span> {
    ran[st := Span(if st in ran then ran[st].first else time, time)]
  }

  function Execute(s: State, st: Statement): State {
    Effect(s, st).(ran := RanAt(s.ran, st, s.clock))
  }

  function After(program: seq<Statement>, s: State, e: Event): State
    requires Enabled(program, s, e)
  {
    var next :=
      match e
      case Executes => Execute(s, program[s.pc]).(pc := s.pc + 1)
      case Fails(carriedOut) => (if carriedOut then Execute(s, program[s.pc]) else s).(pc := 0)
      case Restarts => s.(pc := 0)
      case Begins(name, schema) =>
        var acl := set d | d in s.defaults && d.schema == schema :: d.grant;
        s.(tables := s.tables[name := Table(schema, acl, s.clock, false, 0)])
      case Commits(name) => s.(tables := s.tables[name := s.tables[name].(visible := true, committed := s.clock)]);
    next.(clock := s.clock + 1)
  }

  function Start(): State {
    State(0, 0, {}, {}, map[], map[])
  }

  predicate Possible(program: seq<Statement>, events: seq<Event>)
    decreases |events|, 0
  {
    events == [] ||
    (Possible(program, events[..|events| - 1]) &&
     Enabled(program, Run(program, events[..|events| - 1]), events[|events| - 1]))
  }

  function Run(program: seq<Statement>, events: seq<Event>): State
    requires Possible(program, events)
    decreases |events|, 1
  {
    if events == [] then Start()
    else After(program, Run(program, events[..|events| - 1]), events[|events| - 1])
  }

  // What holds in every run

  predicate Has(t: Table, r: Role) {
    Privileges(r) <= t.acl
  }

  /** Readers get SELECT, and the two roles for writers INSERT, UPDATE and DELETE as well. */
  lemma HasIff(t: Table, r: Role)
    ensures Has(t, r) <==>
      Grant(r, "SELECT") in t.acl &&
      (r != ReadRole ==> Grant(r, "INSERT") in t.acl && Grant(r, "UPDATE") in t.acl && Grant(r, "DELETE") in t.acl)
  {
  }

  /** Begun after the defaults were altered, or granted on while visible. */
  predicate Reached(ran: map<Statement, Span>, t: Table, r: Role) {
    var (alter, grant) := (AlterDefaults(t.schema, r), GrantAllTables(r));
    (alter in ran && ran[alter].first < t.began) ||
    (t.schema == Service && t.visible && grant in ran && t.committed < ran[grant].last)
  }

  /** No two events happen at the same time. */
  ghost predicate Timed(ran: map<Statement, Span>, clock: nat, t: Table) {
    t.began < clock && (t.visible ==> t.began < t.committed < clock) &&
    forall st :: st in ran ==>
      ran[st].first != t.began && (t.visible ==> ran[st].first != t.committed && ran[st].last != t.committed)
  }

  /** The privileges on a table are exactly those of the roles that reached it. */
  ghost predicate Exact(ran: map<Statement, Span>, t: Table) {
    forall g :: g in t.acl <==> g in Privileges(g.role) && Reached(ran, t, g.role)
  }

  ghost predicate Spans(ran: map<Statement, Span>, clock: nat) {
    forall st :: st in ran ==> ran[st].first <= ran[st].last < clock
  }

  ghost predicate Defaults(ran: map<Statement, Span>, defaults: set<Default>) {
    forall d :: d in defaults <==>
      d.grant in Privileges(d.grant.role) && AlterDefaults(d.schema, d.grant.role) in ran
  }

  ghost predicate Inv(s: State) {
    Spans(s.ran, s.clock) && Defaults(s.ran, s.defaults) && (forall r :: r in s.usage <==> GrantUsage(r) in s.ran) &&
    forall name :: name in s.tables ==> Timed(s.ran, s.clock, s.tables[name]) && Exact(s.ran, s.tables[name])
  }

  lemma PrivilegesAreItsOwn(r: Role)
    ensures Privileges(r) != {} && forall g :: g in Privileges(r) ==> g.role == r
  {
  }

  /** A statement reaches a table only by granting on it. */
  lemma StatementKeepsTable(ran: map<Statement, Span>, clock: nat, t: Table, st: Statement)
    requires Spans(ran, clock) && Timed(ran, clock, t) && Exact(ran, t)
    ensures
      var (after, t') := (RanAt(ran, st, clock), if st.GrantAllTables? then Granted(t, st.role) else t);
      Timed(after, clock + 1, t') && Exact(after, t')
  {
    hide Privileges;
    PrivilegesAreItsOwn(st.role);
  }

  lemma StatementKeepsDefaults(s: State, st: Statement)
    requires Defaults(s.ran, s.defaults)
    ensures Defaults(RanAt(s.ran, st, s.clock), Effect(s, st).defaults)
  {
  }

  lemma StatementKeepsInv(s: State, st: Statement)
    requires Inv(s)
    ensures Inv(Execute(s, st).(clock := s.clock + 1))
  {
    hide Privileges, Timed, Exact, Defaults;
    StatementKeepsDefaults(s, st);
    forall name | name in s.tables
      ensures
        var (after, t) := (RanAt(s.ran, st, s.clock), s.tables[name]);
        var t' := if st.GrantAllTables? then Granted(t, st.role) else t;
        Timed(after, s.clock + 1, t') && Exact(after, t')
    {
      StatementKeepsTable(s.ran, s.clock, s.tables[name], st);
    }
  }

  lemma BeginKeepsInv(program: seq<Statement>, s: State, name: string, schema: Schema)
    requires Inv(s) && Enabled(program, s, Begins(name, schema))
    ensures Inv(After(program, s, Begins(name, schema)))
  {
    hide Privileges;
    var t := After(program, s, Begins(name, schema)).tables[name];
    forall g ensures g in t.acl <==> Default(schema, g) in s.defaults {
      assert Default(schema, g).grant == g;
    }
  }

  lemma CommitKeepsInv(program: seq<Statement>, s: State, name: string)
    requires Inv(s) && Enabled(program, s, Commits(name))
    ensures Inv(After(program, s, Commits(name)))
  {
  }

  lemma StepKeepsInv(program: seq<Statement>, s: State, e: Event)
    requires Inv(s) && Enabled(program, s, e)
    ensures Inv(After(program, s, e))
  {
    hide Privileges, Timed, Exact, Defaults, Spans;
    match e {
      case Executes => StatementKeepsInv(s, program[s.pc]);
      case Fails(carriedOut) =>
        StatementKeepsInv(s, program[s.pc]);
        LaterKeepsInv(s);
      case Restarts => LaterKeepsInv(s);
      case Begins(name, schema) => BeginKeepsInv(program, s, name, schema);
      case Commits(name) => CommitKeepsInv(program, s, name);
    }
  }

  lemma {:induction false} EveryRunIsExact(program: seq<Statement>, events: seq<Event>)
    requires Possible(program, events)
    ensures Inv(Run(program, events))
  {
    hide After;
    if events != [] {
      EveryRunIsExact(program, events[..|events| - 1]);
      StepKeepsInv(program, Run(program, events[..|events| - 1]), events[|events| - 1]);
    }
  }

  /** In no run does a reader get anything but SELECT, or a writer more than to write rows. */
  lemma NothingElseIsGranted(program: seq<Statement>, events: seq<Event>, name: string, g: Grant)
    requires Possible(program, events) && name in Run(program, events).tables
    requires g in Run(program, events).tables[name].acl
    ensures g.privilege == "SELECT" ||
      (g.role != ReadRole && (g.privilege == "INSERT" || g.privilege == "UPDATE" || g.privilege == "DELETE"))
  {
    hide Privileges, Possible, Run;
    EveryRunIsExact(program, events);
    assert g in Privileges(g.role);
    PrivilegeOf(g.role, g);
  }

  lemma PrivilegeOf(r: Role, g: Grant)
    requires g in Privileges(r)
    ensures g.privilege == "SELECT" ||
      (r != ReadRole && (g.privilege == "INSERT" || g.privilege == "UPDATE" || g.privilege == "DELETE"))
  {
  }

  lemma LaterKeepsInv(s: State)
    requires Inv(s)
    ensures Inv(s.(clock := s.clock + 1))
  {
  }

  // The order of the statements

  /** Defaults are altered before the existing tables are granted on. */
  predicate AltersFirst(program: seq<Statement>) {
    forall i :: 0 <= i < |program| && program[i].GrantAllTables? ==>
      AlterDefaults(Service, program[i].role) in program[..i]
  }

  predicate GrantsAll(program: seq<Statement>) {
    forall r ::
      GrantAllTables(r) in program && GrantUsage(r) in program &&
      AlterDefaults(Service, r) in program && AlterDefaults(Public, r) in program
  }

  ghost predicate InOrder(program: seq<Statement>, s: State) {
    s.pc <= |program| && (forall i :: 0 <= i < s.pc ==> program[i] in s.ran) &&
    forall r :: GrantAllTables(r) in s.ran ==>
      AlterDefaults(Service, r) in s.ran && s.ran[AlterDefaults(Service, r)].first < s.ran[GrantAllTables(r)].last
  }

  lemma ExecuteInOrder(program: seq<Statement>, s: State)
    requires AltersFirst(program) && Inv(s) && InOrder(program, s) && s.pc < |program|
    ensures InOrder(program, Execute(s, program[s.pc]).(pc := s.pc + 1))
  {
    hide Defaults, Timed, Exact;
    var st := program[s.pc];
    if st.GrantAllTables? {
      var i :| 0 <= i < s.pc && program[i] == AlterDefaults(Service, st.role);
    }
  }

  lemma {:induction false} EveryRunIsInOrder(program: seq<Statement>, events: seq<Event>)
    requires Possible(program, events) && AltersFirst(program)
    ensures InOrder(program, Run(program, events))
  {
    if events != [] {
      hide Inv;
      var s, e := Run(program, events[..|events| - 1]), events[|events| - 1];
      EveryRunIsExact(program, events[..|events| - 1]);
      EveryRunIsInOrder(program, events[..|events| - 1]);
      if e.Executes? || e.Fails? {
        ExecuteInOrder(program, s);
      }
    }
  }

  lemma ProgramAltersFirst()
    ensures AltersFirst(Program()) && GrantsAll(Program())
  {
    var p := Program();
    forall i | 0 <= i < |p| && p[i].GrantAllTables? ensures AlterDefaults(Service, p[i].role) in p[..i] {
      assert p[..i][i - 3] == AlterDefaults(Service, p[i].role);
    }
    forall r
      ensures GrantAllTables(r) in p && GrantUsage(r) in p
      ensures AlterDefaults(Service, r) in p && AlterDefaults(Public, r) in p
    {
      var k := if r.ReadRole? then 0 else if r.ReadWriteRole? then 4 else 8;
      assert GrantAllTables(r) == p[k + 3] && GrantUsage(r) == p[k + 2];
      assert AlterDefaults(Service, r) == p[k] && AlterDefaults(Public, r) == p[k + 1];
    }
  }

  /** After a completed run every new table, in public too, has the privileges from the start. */
  lemma TablesBegunLaterAreCovered(events: seq<Event>, name: string, schema: Schema, r: Role)
    requires Possible(Program(), events) && Run(Program(), events).pc == |Program()|
    requires name !in Run(Program(), events).tables
    ensures Has(After(Program(), Run(Program(), events), Begins(name, schema)).tables[name], r)
  {
    hide Program, Possible, Run, Privileges;
    var program, s := Program(), Run(Program(), events);
    ProgramAltersFirst();
    EveryRunIsExact(program, events);
    EveryRunIsInOrder(program, events);
    var i :| 0 <= i < |program| && program[i] == AlterDefaults(schema, r);
    assert AlterDefaults(schema, r) in s.ran;
    var t := After(program, s, Begins(name, schema)).tables[name];
    PrivilegesAreItsOwn(r);
    forall g | g in Privileges(r) ensures g in t.acl {
      assert Default(schema, g) in s.defaults && Default(schema, g).grant == g;
    }
  }

  /** After a completed run of the statements, and however many runs before and table
      creations at any time, a role lacks its privileges on a committed table of the service
      schema exactly when the table's creation began before the role's defaults were first
      altered and was committed after the last grant on the existing tables. */
  lemma TableIsMissedIff(program: seq<Statement>, events: seq<Event>, name: string, r: Role)
    requires Possible(program, events) && AltersFirst(program) && GrantsAll(program)
    requires var s := Run(program, events);
      s.pc == |program| && name in s.tables && s.tables[name].schema == Service && s.tables[name].visible
    ensures var s := Run(program, events);
      AlterDefaults(Service, r) in s.ran && GrantAllTables(r) in s.ran &&
      (!Has(s.tables[name], r) <==>
        s.tables[name].began < s.ran[AlterDefaults(Service, r)].first &&
        s.ran[GrantAllTables(r)].last < s.tables[name].committed)
  {
    EveryRunIsExact(program, events);
    EveryRunIsInOrder(program, events);
    HasIffReached(Run(program, events).ran, Run(program, events).tables[name], r);
    var i :| 0 <= i < |program| && program[i] == GrantAllTables(r);
  }

  lemma HasIffReached(ran: map<Statement, Span>, t: Table, r: Role)
    requires Exact(ran, t)
    ensures Has(t, r) <==> Reached(ran, t, r)
  {
  }

  /** So a role that may use the schema misses no table created in one step, whenever
      that was. */
  lemma TablesCreatedAtOnceAreCovered(events: seq<Event>, name: string, r: Role)
    requires Possible(Program(), events)
    requires var s := Run(Program(), events);
      s.pc == |Program()| && name in s.tables && s.tables[name].schema == Service && s.tables[name].visible &&
      s.tables[name].committed == s.tables[name].began + 1
    ensures Has(Run(Program(), events).tables[name], r) && r in Run(Program(), events).usage
  {
    ProgramAltersFirst();
    TableIsMissedIff(Program(), events, name, r);
    EveryRunIsExact(Program(), events);
    EveryRunIsInOrder(Program(), events);
  }

  /** Tables in public have the privileges exactly when they began after the defaults there
      were altered: existing ones are never granted on. */
  lemma PublicTablesIff(program: seq<Statement>, events: seq<Event>, name: string, r: Role)
    requires Possible(program, events)
    requires name in Run(program, events).tables && Run(program, events).tables[name].schema == Public
    ensures var s := Run(program, events);
      Has(s.tables[name], r) <==>
        AlterDefaults(Public, r) in s.ran && s.ran[AlterDefaults(Public, r)].first < s.tables[name].began
  {
    EveryRunIsExact(program, events);
    HasIffReached(Run(program, events).ran, Run(program, events).tables[name], r);
  }

  lemma AtStart(program: seq<Statement>)
    ensures Possible(program, []) && Run(program, []) == Start()
  {
  }

  lemma OneMore(program: seq<Statement>, events: seq<Event>, e: Event)
    requires Possible(program, events) && Enabled(program, Run(program, events), e)
    ensures Possible(program, events + [e])
    ensures Run(program, events + [e]) == After(program, Run(program, events), e)
  {
  }

  /** A table whose creation begins before a run and is committed after it is missed by every role. */
  lemma SpanningTableIsMissed(r: Role)
    ensures var events := [Begins("t", Service)] + seq(|Program()|, _ => Executes) + [Commits("t")];
      Possible(Program(), events) &&
      var s := Run(Program(), events);
      s.pc == |Program()| && s.tables.Keys == {"t"} && s.tables["t"].visible && !Has(s.tables["t"], r)
  {
    hide Possible, Run, Program, Privileges, Exact, Defaults;
    var program, n := Program(), |Program()|;
    AtStart(program);
    OneMore(program, [], Begins("t", Service));
    var begun := [] + [Begins("t", Service)];
    Executing(program, begun, n);
    var ran := begun + seq(n, _ => Executes);
    OneMore(program, ran, Commits("t"));
    EveryRunIsExact(program, ran);
    ProgramAltersFirst();
    TableIsMissedIff(program, ran + [Commits("t")], "t", r);
    EveryRunIsExact(program, ran + [Commits("t")]);
    assert begun == [Begins("t", Service)];
  }

  /** Statements of a run leave a table alone that is not visible yet. */
  lemma {:induction false} Executing(program: seq<Statement>, events: seq<Event>, n: nat)
    requires Possible(program, events) && Run(program, events).pc + n <= |program|
    requires forall name :: name in Run(program, events).tables ==> !Run(program, events).tables[name].visible
    ensures Possible(program, events + seq(n, _ => Executes))
    ensures var (s, s') := (Run(program, events), Run(program, events + seq(n, _ => Executes)));
      s'.pc == s.pc + n && s'.tables == s.tables && s'.clock == s.clock + n
  {
    hide Possible, Run, Privileges;
    if n == 0 {
      assert events + seq(0, _ => Executes) == events;
    } else {
      Executing(program, events, n - 1);
      var before := events + seq(n - 1, _ => Executes);
      OneMore(program, before, Executes);
      assert before + [Executes] == events + seq(n, _ => Executes);
      var s := Run(program, before);
      assert Execute(s, program[s.pc]).tables == s.tables;
    }
  }

  /** With the two steps in the other order, a table created in between is missed. */
  lemma ReversedOrderMisses(r: Role)
    ensures
      var program := [GrantAllTables(r), AlterDefaults(Service, r)];
      var events := [Executes, Begins("t", Service), Commits("t"), Executes];
      Possible(program, events) &&
      var s := Run(program, events);
      s.pc == |program| && s.tables["t"].visible && s.tables["t"].committed == s.tables["t"].began + 1 &&
      !Has(s.tables["t"], r)
  {
    var program := [GrantAllTables(r), AlterDefaults(Service, r)];
    var events := [Executes, Begins("t", Service), Commits("t"), Executes];
    hide Possible, Run, Privileges;
    AtStart(program);
    var one := [] + [Executes];
    var two := one + [Begins("t", Service)];
    var three := two + [Commits("t")];
    OneMore(program, [], Executes);
    OneMore(program, one, Begins("t", Service));
    OneMore(program, two, Commits("t"));
    OneMore(program, three, Executes);
    assert events == three + [Executes];
    EveryRunIsExact(program, events);
    HasIffReached(Run(program, events).ran, Run(program, events).tables["t"], r);
  }
}
