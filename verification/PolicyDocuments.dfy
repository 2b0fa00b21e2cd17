/** IAM policy documents: one statement for each user (pkg/iam/policy.go). */
module PolicyDocuments {
  import opened Strings

  datatype StatementEntry = StatementEntry(effect: string, action: seq<string>, resource: seq<string>, userId: string)

  type Statements = seq<StatementEntry>

  /** Who may connect as which database role, and where. */
  datatype Login = Login(region: string, accountId: string, rolePrefix: string, username: string, rolename: string)

  const ID_PREFIX := "*:"
  const ID_SUFFIX := "@lunar.app"

  // User ids

  function UsernameToUserId(username: string): string {
    ID_PREFIX + username + ID_SUFFIX
  }

  function TrimPrefix(s: string, prefix: string): string {
    if prefix <= s then s[|prefix|..] else s
  }

  function TrimSuffix(s: string, suffix: string): string {
    if HasSuffix(s, suffix) then s[..|s| - |suffix|] else s
  }

  function UserIdToUsername(userId: string): string {
    TrimSuffix(TrimPrefix(userId, ID_PREFIX), ID_SUFFIX)
  }

  /** Ids of the form that this program writes. */
  predicate IsEncoded(userId: string) {
    ID_PREFIX <= userId && HasSuffix(userId, ID_SUFFIX)
  }

  lemma DecodeEncoded(username: string)
    ensures IsEncoded(UsernameToUserId(username))
    ensures UserIdToUsername(UsernameToUserId(username)) == username
  {
  }

  /** Decoding drops only what encoding adds exactly for the ids this program writes;
      a bare "bob" also decodes to "bob". */
  lemma EncodeDecodedIff(userId: string)
    ensures UsernameToUserId(UserIdToUsername(userId)) == userId <==> IsEncoded(userId)
  {
    DecodeEncoded(UserIdToUsername(userId));
    if IsEncoded(userId) {
      var n := |userId| - |ID_SUFFIX|;
      assert userId[n..][0] == '@' && userId[0] == '*' && userId[1] == ':' && userId[n..][1] == 'l';
      assert n != 0 && n != 1;
      var trimmed := userId[|ID_PREFIX|..];
      assert trimmed[n - |ID_PREFIX|..] == userId[n..];
      assert userId == ID_PREFIX + trimmed[..n - |ID_PREFIX|] + ID_SUFFIX;
    }
  }

  /** What an id decodes to: the prefix and the suffix go, each where it is there. */
  lemma DecodesIff(userId: string, username: string)
    ensures UserIdToUsername(userId) == username <==>
      var rest := if "*:" <= userId then userId[2..] else userId;
      rest == username + "@lunar.app" || (rest == username && !exists s :: rest == s + "@lunar.app")
  {
    var rest := if "*:" <= userId then userId[2..] else userId;
    var n := |rest| - |"@lunar.app"|;
    if s :| rest == s + "@lunar.app" {
      assert rest[|s|..] == "@lunar.app" && rest[..|s|] == s;
    }
    if HasSuffix(rest, "@lunar.app") {
      assert rest == rest[..n] + "@lunar.app";
    }
  }

  // Documents as values

  function Resource(login: Login): string {
    "arn:aws:rds-db:" + login.region + ":" + login.accountId + ":dbuser:*/" + login.rolePrefix + login.rolename
  }

  function NewStatementEntry(login: Login): StatementEntry {
    StatementEntry("Allow", ["rds-db:connect"], [Resource(login)], UsernameToUserId(login.username))
  }

  // The resource as AWS reads it

  function BeforeColon(s: string): string {
    if s == [] || s[0] == ':' then [] else [s[0]] + BeforeColon(s[1..])
  }

  /** The string split at its first colons into at most n parts. */
  function Split(s: string, n: nat): (parts: seq<string>)
    ensures parts != []
    decreases n
  {
    if n <= 1 || ':' !in s then [s]
    else
      ColonFollows(s);
      [BeforeColon(s)] + Split(s[|BeforeColon(s)| + 1..], n - 1)
  }

  lemma {:induction false} ColonFollows(s: string)
    requires ':' in s
    ensures |BeforeColon(s)| < |s| && s[|BeforeColon(s)|] == ':'
  {
    if s[0] != ':' {
      ColonFollows(s[1..]);
    }
  }

  lemma {:induction false} BeforeColonIff(a: string, b: string)
    ensures BeforeColon(a + ":" + b) == a <==> ':' !in a
  {
    var s := a + ":" + b;
    if a != [] && a[0] != ':' {
      assert s[1..] == a[1..] + ":" + b;
      BeforeColonIff(a[1..], b);
      assert a == [a[0]] + a[1..];
    }
  }

  /** One part more, if it has no colon itself. */
  lemma SplitOff(a: string, b: string, n: nat)
    requires n > 1
    ensures Split(a + ":" + b, n)[0] == a <==> ':' !in a
    ensures ':' !in a ==> Split(a + ":" + b, n) == [a] + Split(b, n - 1)
  {
    var s := a + ":" + b;
    assert s[|a|] == ':';
    BeforeColonIff(a, b);
    if ':' !in a {
      assert s[|a| + 1..] == b;
    }
  }

  lemma SplitHead(rest: string)
    ensures Split("arn:aws:rds-db:" + rest, 7) == ["arn", "aws", "rds-db"] + Split(rest, 4)
  {
    hide Split;
    var service := "rds-db" + ":" + rest;
    var partition := "aws" + ":" + service;
    assert "arn:aws:rds-db:" + rest == "arn" + ":" + partition;
    SplitOff("arn", partition, 7);
    SplitOff("aws", service, 6);
    SplitOff("rds-db", rest, 5);
  }

  lemma SplitTailIff(region: string, account: string, name: string)
    ensures Split(region + ":" + (account + ":" + ("dbuser:" + name)), 4) == [region, account, "dbuser", name] <==>
      ':' !in region && ':' !in account
  {
    hide Split;
    assert "dbuser:" + name == "dbuser" + ":" + name;
    SplitOff(region, account + ":" + ("dbuser:" + name), 4);
    SplitOff(account, "dbuser:" + name, 3);
    SplitOff("dbuser", name, 2);
    LastPart(name);
    var parts := Split(region + ":" + (account + ":" + ("dbuser:" + name)), 4);
    if ':' !in region {
      var more := Split(account + ":" + ("dbuser:" + name), 3);
      assert parts == [region] + more && parts[1] == more[0];
      if ':' !in account {
        assert more == [account] + (["dbuser"] + [name]);
      }
    }
  }

  lemma LastPart(s: string)
    ensures Split(s, 1) == [s]
  {
  }

  /** The parts of the resource are those of an ARN for the region and the account if and only
      if neither has a colon. */
  lemma ResourceSplitsIff(login: Login)
    ensures var name := "*/" + login.rolePrefix + login.rolename;
      var parts := ["arn", "aws", "rds-db", login.region, login.accountId, "dbuser", name];
      Split(Resource(login), 7) == parts <==> ':' !in login.region && ':' !in login.accountId
  {
    hide Split;
    var name := "*/" + login.rolePrefix + login.rolename;
    var rest := login.region + ":" + (login.accountId + ":" + ("dbuser:" + name));
    assert Resource(login) == "arn:aws:rds-db:" + rest;
    SplitHead(rest);
    SplitTailIff(login.region, login.accountId, name);
    var parts := ["arn", "aws", "rds-db"] + Split(rest, 4);
    assert parts[3..] == Split(rest, 4);
  }

  /** The ARN of the database role, under any instance of the region and the account. */
  ghost predicate IsArnOf(resource: string, login: Login) {
    resource ==
      "arn:aws:rds-db:" + login.region + ":" + login.accountId + ":dbuser:*/" + login.rolePrefix + login.rolename
  }

  /** An entry that lets the user connect as the role. */
  ghost predicate Admits(s: StatementEntry, login: Login) {
    s.effect == "Allow" && s.action == ["rds-db:connect"] && |s.resource| == 1 && IsArnOf(s.resource[0], login) &&
    s.userId == "*:" + login.username + "@lunar.app"
  }

  lemma NewEntryAdmits(login: Login)
    ensures Admits(NewStatementEntry(login), login) && IsArnOf(Resource(login), login)
  {
  }

  /** The user of such an entry is found again by decoding its id. */
  lemma AdmittedIsDecoded(s: StatementEntry, login: Login)
    requires Admits(s, login)
    ensures UserIdToUsername(s.userId) == login.username
  {
    DecodesIff(s.userId, login.username);
  }

  predicate Of(s: StatementEntry, username: string) {
    s.userId == UsernameToUserId(username)
  }

  predicate Lists(statements: Statements, username: string) {
    exists i :: 0 <= i < |statements| && Of(statements[i], username)
  }

  function Refreshed(s: StatementEntry, login: Login): StatementEntry {
    if Of(s, login.username) && Resource(login) !in s.resource then NewStatementEntry(login) else s
  }

  function Updated(statements: Statements, login: Login): Statements {
    seq(|statements|, i requires 0 <= i < |statements| => Refreshed(statements[i], login))
  }

  function Without(statements: Statements, username: string): Statements {
    if statements == [] then []
    else
      var n := |statements| - 1;
      Without(statements[..n], username) + if Of(statements[n], username) then [] else [statements[n]]
  }

  /** Every statement of the user carries the expected resource. */
  predicate Carried(statements: Statements, login: Login) {
    forall i :: 0 <= i < |statements| && Of(statements[i], login.username) ==> Resource(login) in statements[i].resource
  }

  predicate ListedOnce(statements: Statements) {
    forall i, j :: 0 <= i < j < |statements| ==> statements[i].userId != statements[j].userId
  }

  predicate AllEncoded(statements: Statements) {
    forall i :: 0 <= i < |statements| ==> IsEncoded(statements[i].userId)
  }

  /** Without keeps the statements of the others, and nothing else. */
  lemma {:induction false} WithoutKeepsOthers(statements: Statements, username: string)
    ensures !Lists(Without(statements, username), username)
    ensures forall s :: s in Without(statements, username) <==> s in statements && !Of(s, username)
    ensures |Without(statements, username)| <= |statements|
    ensures |Without(statements, username)| == |statements| <==> !Lists(statements, username)
    ensures Without(statements, username) == statements <==> !Lists(statements, username)
  {
    if statements != [] {
      var n := |statements| - 1;
      WithoutKeepsOthers(statements[..n], username);
      assert statements == statements[..n] + [statements[n]];
      assert Lists(statements, username) <==> Lists(statements[..n], username) || Of(statements[n], username);
    }
  }

  lemma {:induction false} WithoutListsOnce(statements: Statements, username: string)
    requires ListedOnce(statements)
    ensures ListedOnce(Without(statements, username))
  {
    if statements != [] {
      WithoutListsOnce(statements[..|statements| - 1], username);
      WithoutKeepsOthers(statements[..|statements| - 1], username);
    }
  }

  lemma {:induction false} WithoutConcat(s: Statements, t: Statements, username: string)
    ensures Without(s + t, username) == Without(s, username) + Without(t, username)
  {
    if t == [] {
      assert s + t == s;
    } else {
      var n := |t| - 1;
      assert (s + t)[..|s| + n] == s + t[..n];
      WithoutConcat(s, t[..n], username);
    }
  }

  /** Adding a user and removing it again restores the document. */
  lemma WithoutAdded(statements: Statements, login: Login)
    requires !Lists(statements, login.username)
    ensures Without(statements + [NewStatementEntry(login)], login.username) == statements
  {
    WithoutConcat(statements, [NewStatementEntry(login)], login.username);
    WithoutKeepsOthers(statements, login.username);
  }

  /** Update touches nothing but the user's own statements. */
  lemma {:induction false} WithoutUpdated(statements: Statements, login: Login)
    ensures Without(Updated(statements, login), login.username) == Without(statements, login.username)
  {
    if statements != [] {
      var n := |statements| - 1;
      assert Updated(statements, login)[..n] == Updated(statements[..n], login);
      WithoutUpdated(statements[..n], login);
    }
  }

  class PolicyDocument {
    const version: string
    var statement: Statements

    constructor (version: string, statement: Statements)
      ensures this.version == version && this.statement == statement
    {
      this.version := version;
      this.statement := statement;
    }

    method ListUsers() returns (users: seq<string>)
      ensures |users| == |statement|
      ensures forall i :: 0 <= i < |users| ==> users[i] == UserIdToUsername(statement[i].userId)
    {
      users := [];
      for k := 0 to |statement|
        invariant |users| == k
        invariant forall i :: 0 <= i < k ==> users[i] == UserIdToUsername(statement[i].userId)
      {
        users := users + [UserIdToUsername(statement[k].userId)];
      }
    }

    method Exists(username: string) returns (found: bool)
      ensures found <==> Lists(statement, username)
    {
      for k := 0 to |statement|
        invariant !Lists(statement[..k], username)
      {
        if statement[k].userId == UsernameToUserId(username) {
          return true;
        }
      }
      assert statement[..|statement|] == statement;
      return false;
    }

    method Count() returns (n: nat)
      ensures n == |statement|
    {
      return |statement|;
    }

    method Add(login: Login)
      modifies this
      ensures statement == old(statement) + [NewStatementEntry(login)]
    {
      statement := statement + [NewStatementEntry(login)];
    }

    /** The user's statements carry the resource; all others keep their place. */
    method Update(login: Login) returns (updated: bool)
      modifies this
      ensures statement == Updated(old(statement), login) && Carried(statement, login)
      ensures updated <==> !Carried(old(statement), login)
      ensures updated <==> statement != old(statement)
    {
      updated := false;
      var statements: Statements := [];
      for k := 0 to |statement|
        invariant statement == old(statement)
        invariant statements == Updated(statement[..k], login)
        invariant updated <==> !Carried(statement[..k], login)
        invariant !updated ==> statements == statement[..k]
        invariant updated ==> statements != statement[..k]
      {
        var s, was := statement[k], statement[..k];
        assert statement[..k + 1] == was + [s];
        assert Updated(was + [s], login) == Updated(was, login) + [Refreshed(s, login)];
        if s.userId == UsernameToUserId(login.username) {
          var carried := Carries(s, login);
          if carried {
            statements := statements + [s];
          } else {
            statements := statements + [NewStatementEntry(login)];
            assert (was + [s])[k] == s;
            updated := true;
          }
        } else {
          statements := statements + [s];
        }
        assert forall i :: 0 <= i < k ==> (was + [s])[i] == was[i];
      }
      assert statement[..|statement|] == statement;
      statement := statements;
    }

    method Carries(s: StatementEntry, login: Login) returns (found: bool)
      ensures found <==> Resource(login) in s.resource
    {
      for k := 0 to |s.resource|
        invariant Resource(login) !in s.resource[..k]
      {
        if s.resource[k] == Resource(login) {
          return true;
        }
      }
      assert s.resource[..|s.resource|] == s.resource;
      return false;
    }

    method Remove(username: string)
      modifies this
      ensures statement == Without(old(statement), username)
    {
      var statements: Statements := [];
      for k := 0 to |statement|
        invariant statement == old(statement)
        invariant statements == Without(statement[..k], username)
      {
        assert statement[..k + 1][..k] == statement[..k];
        if statement[k].userId != UsernameToUserId(username) {
          statements := statements + [statement[k]];
        }
      }
      assert statement[..|statement|] == statement;
      statement := statements;
    }
  }
}
