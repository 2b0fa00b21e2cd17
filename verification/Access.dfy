/** Access requests of a user, resolved and grouped by host (pkg/grants/grants.go). */
module Access {

  datatype ResourceVar =
    | Plain(value: string)
    | SecretKey(name: string, key: string)
    | ConfigMapKey(name: string, key: string)

  /** NoValue is the one error that the grouping tells apart. */
  datatype Resolution = Value(value: string) | NoValue | Unresolved

  /** Before and after which an access is not active. */
  datatype Limit = Unlimited | At(time: int)

  datatype AccessSpec = AccessSpec(host: ResourceVar, allDatabases: bool, database: ResourceVar, schema: ResourceVar,
                                   start: Limit, stop: Limit)

  datatype WriteAccessSpec = WriteAccessSpec(access: AccessSpec, extended: bool)

  /** Unknown stands for any other number in place of a privilege. */
  datatype Privilege = Read | Write | OwningWrite | Unknown

  datatype DatabaseSchema = DatabaseSchema(name: string, schema: string, privileges: Privilege)

  datatype ReadWriteAccess = ReadWriteAccess(host: string, database: DatabaseSchema, access: AccessSpec)

  type HostAccess = map<string, seq<ReadWriteAccess>>

  /** A PostgreSQLDatabase resource. */
  datatype Database = Database(name: string, host: ResourceVar, user: ResourceVar, running: bool)

  datatype Listing = Listed(databases: seq<Database>) | ListingFailed

  /** What a run sees of its surroundings: flags, resources and the time. */
  datatype Granter = Granter(allDatabasesReadEnabled: bool, allDatabasesWriteEnabled: bool, extendedWritesEnabled: bool,
                             allDatabases: Listing, resolve: ResourceVar -> Resolution, now: int)

  // The flat expansion

  /** One access request with the privilege and the flag that go with it. */
  datatype Request = Request(access: AccessSpec, privilege: Privilege, allDatabasesEnabled: bool)

  function WritePrivilege(g: Granter, w: WriteAccessSpec): Privilege {
    if w.extended && g.extendedWritesEnabled then OwningWrite else Write
  }

  function ReadRequests(g: Granter, read: seq<AccessSpec>): seq<Request> {
    seq(|read|, i requires 0 <= i < |read| => Request(read[i], Read, g.allDatabasesReadEnabled))
  }

  function WriteRequests(g: Granter, write: seq<WriteAccessSpec>): seq<Request> {
    seq(|write|, i requires 0 <= i < |write| =>
      Request(write[i].access, WritePrivilege(g, write[i]), g.allDatabasesWriteEnabled))
  }

  function Requests(g: Granter, read: seq<AccessSpec>, write: seq<WriteAccessSpec>): seq<Request> {
    ReadRequests(g, read) + WriteRequests(g, write)
  }

  predicate Active(g: Granter, a: AccessSpec) {
    (a.start.At? ==> a.start.time <= g.now) && (a.stop.At? ==> g.now <= a.stop.time)
  }

  predicate OnHost(g: Granter, d: Database, host: string) {
    d.running && g.resolve(d.host) == Value(host)
  }

  /** The schema of a database is that of its user, or else has the database's name. */
  function SchemaOf(g: Granter, d: Database): string {
    var user := g.resolve(d.user);
    if user.Value? && user.value != "" then user.value else d.name
  }

  function OfDatabase(g: Granter, d: Database, host: string, r: Request): seq<ReadWriteAccess> {
    if OnHost(g, d, host) && !g.resolve(d.user).Unresolved?
    then [ReadWriteAccess(host, DatabaseSchema(d.name, SchemaOf(g, d), r.privilege), r.access)] else []
  }

  predicate DatabaseFails(g: Granter, d: Database, host: string) {
    d.running && (!g.resolve(d.host).Value? || (OnHost(g, d, host) && g.resolve(d.user).Unresolved?))
  }

  function OfDatabases(g: Granter, databases: seq<Database>, host: string, r: Request): seq<ReadWriteAccess> {
    if databases == [] then []
    else
      var n := |databases| - 1;
      OfDatabases(g, databases[..n], host, r) + OfDatabase(g, databases[n], host, r)
  }

  predicate SomeDatabaseFails(g: Granter, databases: seq<Database>, host: string) {
    exists i :: 0 <= i < |databases| && DatabaseFails(g, databases[i], host)
  }

  function OfRequest(g: Granter, r: Request): seq<ReadWriteAccess> {
    var host := g.resolve(r.access.host);
    if !Active(g, r.access) || !host.Value? then []
    else if r.access.allDatabases then
      if r.allDatabasesEnabled && g.allDatabases.Listed?
      then OfDatabases(g, g.allDatabases.databases, host.value, r) else []
    else
      var (database, schema) := (g.resolve(r.access.database), g.resolve(r.access.schema));
      if database.Value? && schema.Value?
      then [ReadWriteAccess(host.value, DatabaseSchema(database.value, schema.value, r.privilege), r.access)] else []
  }

  predicate RequestFails(g: Granter, r: Request) {
    var host := g.resolve(r.access.host);
    Active(g, r.access) &&
    if !host.Value? then true
    else if r.access.allDatabases then
      r.allDatabasesEnabled &&
      (g.allDatabases.Listed? ==> SomeDatabaseFails(g, g.allDatabases.databases, host.value))
    else
      !g.resolve(r.access.database).Value? || !g.resolve(r.access.schema).Value?
  }

  predicate SomeRequestFails(g: Granter, requests: seq<Request>) {
    exists i :: 0 <= i < |requests| && RequestFails(g, requests[i])
  }

  /** What all the requests ask for, in order. */
  function Flat(g: Granter, requests: seq<Request>): seq<ReadWriteAccess> {
    if requests == [] then []
    else
      var n := |requests| - 1;
      Flat(g, requests[..n]) + OfRequest(g, requests[n])
  }

  /** No request affects what the others contribute. */
  lemma {:induction false} FlatConcat(g: Granter, a: seq<Request>, b: seq<Request>)
    ensures Flat(g, a + b) == Flat(g, a) + Flat(g, b)
  {
    hide OfRequest;
    if b == [] {
      assert a + b == a;
    } else {
      var n := |b| - 1;
      assert (a + b)[..|a| + n] == a + b[..n];
      FlatConcat(g, a, b[..n]);
    }
  }

  /** A request that cannot be resolved as a whole is as good as absent. */
  lemma UnresolvableIsAbsent(g: Granter, before: seq<Request>, r: Request, after: seq<Request>)
    requires RequestFails(g, r) && (r.access.allDatabases ==> g.allDatabases.ListingFailed?)
    ensures Flat(g, before + [r] + after) == Flat(g, before + after)
  {
    hide Flat;
    FlatConcat(g, before + [r], after);
    FlatConcat(g, before, [r]);
    FlatConcat(g, before, after);
    FlatOne(g, r);
  }

  lemma FlatOne(g: Granter, r: Request)
    ensures Flat(g, [r]) == OfRequest(g, r)
  {
  }

  lemma {:induction false} OfDatabasesConcat(g: Granter, a: seq<Database>, b: seq<Database>, host: string, r: Request)
    ensures OfDatabases(g, a + b, host, r) == OfDatabases(g, a, host, r) + OfDatabases(g, b, host, r)
  {
    hide OfDatabase;
    if b == [] {
      assert a + b == a;
    } else {
      var n := |b| - 1;
      assert (a + b)[..|a| + n] == a + b[..n];
      OfDatabasesConcat(g, a, b[..n], host, r);
    }
  }

  /** A database that cannot be resolved takes nothing away from an all-databases request. */
  lemma UnresolvableDatabaseIsAbsent(g: Granter, before: seq<Database>, d: Database, after: seq<Database>, r: Request)
    requires g.resolve(r.access.host).Value? && DatabaseFails(g, d, g.resolve(r.access.host).value)
    ensures OfRequest(g.(allDatabases := Listed(before + [d] + after)), r) ==
      OfRequest(g.(allDatabases := Listed(before + after)), r)
  {
    hide OfDatabases;
    var host := g.resolve(r.access.host).value;
    var with := g.(allDatabases := Listed(before + [d] + after));
    var without := g.(allDatabases := Listed(before + after));
    OfDatabasesConcat(with, before + [d], after, host, r);
    OfDatabasesConcat(with, before, [d], host, r);
    OfDatabasesConcat(with, before, after, host, r);
    OfDatabasesOne(with, d, host, r);
    SameResolution(with, without, before + after, host, r);
  }

  lemma OfDatabasesOne(g: Granter, d: Database, host: string, r: Request)
    ensures OfDatabases(g, [d], host, r) == OfDatabase(g, d, host, r)
  {
  }

  lemma {:induction false} SameResolution(g: Granter, h: Granter, databases: seq<Database>, host: string, r: Request)
    requires g.resolve == h.resolve
    ensures OfDatabases(g, databases, host, r) == OfDatabases(h, databases, host, r)
  {
    if databases != [] {
      SameResolution(g, h, databases[..|databases| - 1], host, r);
    }
  }

  /** The request asks for this entry: it is active, it resolves, and for all databases
      the flag is on and some running database of the host resolves. */
  ghost predicate Asks(g: Granter, r: Request, e: ReadWriteAccess) {
    Active(g, r.access) && g.resolve(r.access.host) == Value(e.host) &&
    e.access == r.access && e.database.privileges == r.privilege &&
    if r.access.allDatabases then
      r.allDatabasesEnabled && g.allDatabases.Listed? && exists d :: d in g.allDatabases.databases && AsksFor(g, d, e)
    else
      g.resolve(r.access.database) == Value(e.database.name) && g.resolve(r.access.schema) == Value(e.database.schema)
  }

  ghost predicate AsksFor(g: Granter, d: Database, e: ReadWriteAccess) {
    OnHost(g, d, e.host) && !g.resolve(d.user).Unresolved? &&
    e.database.name == d.name && e.database.schema == SchemaOf(g, d)
  }

  lemma {:induction false} OfDatabasesIff(g: Granter, databases: seq<Database>, host: string, r: Request,
                                          e: ReadWriteAccess)
    ensures e in OfDatabases(g, databases, host, r) <==>
      e.host == host && e.access == r.access && e.database.privileges == r.privilege &&
      exists d :: d in databases && AsksFor(g, d, e)
  {
    if databases != [] {
      var n := |databases| - 1;
      OfDatabasesIff(g, databases[..n], host, r, e);
      assert databases == databases[..n] + [databases[n]];
      assert (exists d :: d in databases && AsksFor(g, d, e)) <==>
        (exists d :: d in databases[..n] && AsksFor(g, d, e)) || AsksFor(g, databases[n], e);
    }
  }

  /** Exactly which entries the expansion holds. */
  lemma {:induction false} FlatIff(g: Granter, requests: seq<Request>, e: ReadWriteAccess)
    ensures e in Flat(g, requests) <==> exists r :: r in requests && Asks(g, r, e)
  {
    if requests != [] {
      hide Asks, OfRequest;
      var n := |requests| - 1;
      FlatIff(g, requests[..n], e);
      assert requests == requests[..n] + [requests[n]];
      OfRequestIff(g, requests[n], e);
    }
  }

  lemma OfRequestIff(g: Granter, r: Request, e: ReadWriteAccess)
    ensures e in OfRequest(g, r) <==> Asks(g, r, e)
  {
    hide OfDatabases;
    if g.allDatabases.Listed? {
      OfDatabasesIff(g, g.allDatabases.databases, e.host, r, e);
      if g.resolve(r.access.host).Value? {
        OfDatabasesIff(g, g.allDatabases.databases, g.resolve(r.access.host).value, r, e);
      }
    }
  }

  /** Neither too early nor too late. */
  ghost predicate InWindow(g: Granter, a: AccessSpec) {
    !(a.start.At? && g.now < a.start.time) && !(a.stop.At? && g.now > a.stop.time)
  }

  /** A database that an access to all databases of the host stands for: the schema is the
      user's name, or else has the database's name. */
  ghost predicate StandsFor(g: Granter, d: Database, host: string, name: string, schema: string) {
    d.running && g.resolve(d.host) == Value(host) && name == d.name &&
    match g.resolve(d.user)
    case Value(user) => schema == if user == "" then d.name else user
    case NoValue => schema == d.name
    case Unresolved => false
  }

  /** What one access opens. */
  ghost predicate Opens(g: Granter, a: AccessSpec, allDatabasesEnabled: bool, e: ReadWriteAccess) {
    InWindow(g, a) && e.access == a && g.resolve(a.host) == Value(e.host) &&
    if a.allDatabases then
      allDatabasesEnabled && g.allDatabases.Listed? &&
      exists d :: d in g.allDatabases.databases && StandsFor(g, d, e.host, e.database.name, e.database.schema)
    else
      g.resolve(a.database) == Value(e.database.name) && g.resolve(a.schema) == Value(e.database.schema)
  }

  ghost predicate OpensToRead(g: Granter, read: seq<AccessSpec>, e: ReadWriteAccess) {
    e.database.privileges == Read && exists a :: a in read && Opens(g, a, g.allDatabasesReadEnabled, e)
  }

  /** Extended writes own what they write, where that is enabled. */
  ghost predicate OpensToWrite(g: Granter, write: seq<WriteAccessSpec>, e: ReadWriteAccess) {
    exists w :: w in write && Opens(g, w.access, g.allDatabasesWriteEnabled, e) &&
                e.database.privileges == if w.extended && g.extendedWritesEnabled then OwningWrite else Write
  }

  lemma AsksIff(g: Granter, r: Request, e: ReadWriteAccess)
    ensures Asks(g, r, e) <==> Opens(g, r.access, r.allDatabasesEnabled, e) && e.database.privileges == r.privilege
  {
    forall d: Database
      ensures AsksFor(g, d, e) <==> StandsFor(g, d, e.host, e.database.name, e.database.schema)
    {
    }
  }

  /** The entries that the reads and the writes of a user expand to. */
  lemma EntryIff(g: Granter, read: seq<AccessSpec>, write: seq<WriteAccessSpec>, e: ReadWriteAccess)
    ensures (exists r :: r in Requests(g, read, write) && Asks(g, r, e)) <==>
      OpensToRead(g, read, e) || OpensToWrite(g, write, e)
    ensures e in Flat(g, Requests(g, read, write)) <==> OpensToRead(g, read, e) || OpensToWrite(g, write, e)
  {
    hide Asks, Opens, Flat;
    var requests, n := Requests(g, read, write), |read|;
    FlatIff(g, requests, e);
    forall r
      ensures Asks(g, r, e) <==> Opens(g, r.access, r.allDatabasesEnabled, e) && e.database.privileges == r.privilege
    {
      AsksIff(g, r, e);
    }
    if r :| r in requests && Asks(g, r, e) {
      var i :| 0 <= i < |requests| && requests[i] == r;
      if i < n { assert read[i] in read; } else { assert write[i - n] in write; }
    }
    if OpensToRead(g, read, e) {
      var a :| a in read && Opens(g, a, g.allDatabasesReadEnabled, e);
      var i :| 0 <= i < n && read[i] == a;
      assert requests[i] in requests && Asks(g, requests[i], e);
    }
    if OpensToWrite(g, write, e) {
      var w :| w in write && Opens(g, w.access, g.allDatabasesWriteEnabled, e) &&
        e.database.privileges == if w.extended && g.extendedWritesEnabled then OwningWrite else Write;
      var i :| 0 <= i < |write| && write[i] == w;
      assert requests[n + i] in requests && Asks(g, requests[n + i], e);
    }
  }

  // Grouping

  function ForHost(flat: seq<ReadWriteAccess>, host: string): seq<ReadWriteAccess> {
    if flat == [] then []
    else
      var n := |flat| - 1;
      ForHost(flat[..n], host) + if flat[n].host == host then [flat[n]] else []
  }

  /** Every host's list is the in-order selection of its entries, and none is empty. */
  ghost predicate Partition(hosts: HostAccess, flat: seq<ReadWriteAccess>) {
    (forall h :: h in hosts <==> ForHost(flat, h) != []) &&
    (forall h :: h in hosts ==> hosts[h] == ForHost(flat, h))
  }

  lemma PartitionOneMore(hosts: HostAccess, flat: seq<ReadWriteAccess>, e: ReadWriteAccess)
    requires Partition(hosts, flat)
    ensures Partition(hosts[e.host := (if e.host in hosts then hosts[e.host] else []) + [e]], flat + [e])
  {
  }

  /** An entry stands in the list of its host and in no other. */
  lemma {:induction false} ForHostIff(flat: seq<ReadWriteAccess>, host: string, e: ReadWriteAccess)
    ensures e in ForHost(flat, host) <==> e in flat && e.host == host
  {
    if flat != [] {
      ForHostIff(flat[..|flat| - 1], host, e);
      assert flat == flat[..|flat| - 1] + [flat[|flat| - 1]];
    }
  }

  /** The grouped accesses under construction. */
  class Grouping {
    var hosts: HostAccess
    ghost var flat: seq<ReadWriteAccess>

    ghost predicate Valid()
      reads this
    {
      Partition(hosts, flat)
    }

    constructor ()
      ensures Valid() && flat == [] && hosts == map[]
    {
      hosts, flat := map[], [];
    }

    method Append(e: ReadWriteAccess)
      requires Valid()
      modifies this
      ensures Valid() && flat == old(flat) + [e]
    {
      PartitionOneMore(hosts, flat, e);
      hosts := hosts[e.host := (if e.host in hosts then hosts[e.host] else []) + [e]];
      flat := flat + [e];
    }
  }

  method GroupAllDatabasesByHost(g: Granter, grouping: Grouping, host: string, access: AccessSpec, privilege: Privilege,
                                 ghost r: Request)
    returns (failed: bool)
    requires grouping.Valid() && r.access == access && r.privilege == privilege
    modifies grouping
    ensures grouping.Valid()
    ensures g.allDatabases.Listed? ==>
      grouping.flat == old(grouping.flat) + OfDatabases(g, g.allDatabases.databases, host, r) &&
      (failed <==> SomeDatabaseFails(g, g.allDatabases.databases, host))
    ensures g.allDatabases.ListingFailed? ==> failed && grouping.flat == old(grouping.flat)
  {
    hide OfDatabase, DatabaseFails, Partition;
    if g.allDatabases.ListingFailed? {
      return true;
    }
    failed := false;
    var databases := g.allDatabases.databases;
    for k := 0 to |databases|
      invariant grouping.Valid()
      invariant grouping.flat == old(grouping.flat) + OfDatabases(g, databases[..k], host, r)
      invariant failed <==> exists i :: 0 <= i < k && DatabaseFails(g, databases[i], host)
    {
      var d := databases[k];
      assert databases[..k + 1][..k] == databases[..k];
      var databaseFailed := GroupDatabase(g, grouping, d, host, access, privilege, r);
      failed := failed || databaseFailed;
    }
    assert databases[..|databases|] == databases;
  }

  method GroupDatabase(g: Granter, grouping: Grouping, d: Database, host: string, access: AccessSpec,
                       privilege: Privilege, ghost r: Request)
    returns (failed: bool)
    requires grouping.Valid() && r.access == access && r.privilege == privilege
    modifies grouping
    ensures grouping.Valid() && grouping.flat == old(grouping.flat) + OfDatabase(g, d, host, r)
    ensures failed <==> DatabaseFails(g, d, host)
  {
    if !d.running {
      return false;
    }
    var databaseHost := g.resolve(d.host);
    if !databaseHost.Value? {
      return true;
    }
    if host != databaseHost.value {
      return false;
    }
    var user := g.resolve(d.user);
    if user.Unresolved? {
      return true;
    }
    var schema := if user.Value? then user.value else "";
    if schema == "" {
      schema := d.name;
    }
    grouping.Append(ReadWriteAccess(host, DatabaseSchema(d.name, schema, privilege), access));
    return false;
  }

  method GroupByHosts(g: Granter, grouping: Grouping, accesses: seq<AccessSpec>, privilegeLookup: nat -> Privilege,
                      allDatabasesEnabled: bool, ghost requests: seq<Request>)
    returns (failed: bool)
    requires grouping.Valid() && |requests| == |accesses|
    requires forall i :: 0 <= i < |accesses| ==>
      requests[i] == Request(accesses[i], privilegeLookup(i), allDatabasesEnabled)
    modifies grouping
    ensures grouping.Valid() && grouping.flat == old(grouping.flat) + Flat(g, requests)
    ensures failed <==> SomeRequestFails(g, requests)
  {
    hide OfRequest, RequestFails, Partition;
    failed := false;
    for i := 0 to |accesses|
      invariant grouping.Valid() && grouping.flat == old(grouping.flat) + Flat(g, requests[..i])
      invariant failed <==> exists j :: 0 <= j < i && RequestFails(g, requests[j])
    {
      var access, privilege := accesses[i], privilegeLookup(i);
      assert requests[..i + 1][..i] == requests[..i];
      var requestFailed := GroupOne(g, grouping, access, privilege, allDatabasesEnabled);
      failed := failed || requestFailed;
    }
    assert requests[..|requests|] == requests;
  }

  /** One turn of the loop: each early exit skips the rest of this request only. */
  method GroupOne(g: Granter, grouping: Grouping, access: AccessSpec, privilege: Privilege, allDatabasesEnabled: bool)
    returns (failed: bool)
    requires grouping.Valid()
    modifies grouping
    ensures grouping.Valid()
    ensures grouping.flat == old(grouping.flat) + OfRequest(g, Request(access, privilege, allDatabasesEnabled))
    ensures failed <==> RequestFails(g, Request(access, privilege, allDatabasesEnabled))
  {
    if access.start.At? && g.now < access.start.time {
      return false;
    }
    if access.stop.At? && g.now > access.stop.time {
      return false;
    }
    var host := g.resolve(access.host);
    if !host.Value? {
      return true;
    }
    if access.allDatabases {
      if !allDatabasesEnabled {
        return false;
      }
      failed := GroupAllDatabasesByHost(g, grouping, host.value, access, privilege,
                                        Request(access, privilege, allDatabasesEnabled));
      return;
    }
    var database := g.resolve(access.database);
    if !database.Value? {
      return true;
    }
    var schema := g.resolve(access.schema);
    if !schema.Value? {
      return true;
    }
    grouping.Append(ReadWriteAccess(host.value, DatabaseSchema(database.value, schema.value, privilege), access));
    return false;
  }

  method MapToAccessSpec(accesses: seq<WriteAccessSpec>) returns (specs: seq<AccessSpec>)
    ensures |specs| == |accesses| && forall i :: 0 <= i < |specs| ==> specs[i] == accesses[i].access
  {
    specs := [];
    for i := 0 to |accesses|
      invariant |specs| == i && forall j :: 0 <= j < i ==> specs[j] == accesses[j].access
    {
      specs := specs + [accesses[i].access];
    }
  }

  lemma NoneFlat(g: Granter)
    ensures Partition(map[], Flat(g, []))
  {
  }

  /** Reads, then writes, into one stable partition of the flat expansion. */
  method GroupAccesses(g: Granter, read: seq<AccessSpec>, write: seq<WriteAccessSpec>)
    returns (hosts: HostAccess, failed: bool)
    ensures Partition(hosts, Flat(g, Requests(g, read, write)))
    ensures failed <==> SomeRequestFails(g, Requests(g, read, write))
  {
    hide OfRequest, Partition, Flat, SomeRequestFails;
    NoneFlat(g);
    ghost var forRead, forWrite := ReadRequests(g, read), WriteRequests(g, write);
    FlatConcat(g, forRead, forWrite);
    SomeFailsIff(g, forRead, forWrite);
    if read == [] && write == [] {
      assert forRead + forWrite == [];
      return map[], false;
    }
    var grouping := new Grouping();
    var readFailed := GroupByHosts(g, grouping, read, _ => Read, g.allDatabasesReadEnabled, forRead);
    var specs := MapToAccessSpec(write);
    var writeFailed := GroupByHosts(g, grouping, specs,
      i => if 0 <= i < |write| then WritePrivilege(g, write[i]) else Write,
      g.allDatabasesWriteEnabled, forWrite);
    assert grouping.flat == [] + Flat(g, forRead) + Flat(g, forWrite) == Flat(g, forRead + forWrite);
    return grouping.hosts, readFailed || writeFailed;
  }

  lemma SomeFailsIff(g: Granter, a: seq<Request>, b: seq<Request>)
    ensures SomeRequestFails(g, a + b) <==> SomeRequestFails(g, a) || SomeRequestFails(g, b)
    ensures !SomeRequestFails(g, [])
  {
    hide RequestFails;
    if i :| 0 <= i < |a| && RequestFails(g, a[i]) { assert (a + b)[i] == a[i]; }
    if i :| 0 <= i < |b| && RequestFails(g, b[i]) { assert (a + b)[|a| + i] == b[i]; }
  }
}
