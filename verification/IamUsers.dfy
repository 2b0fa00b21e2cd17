/** Placing users into bounded policy documents (pkg/iam/iam.go). */
module IamUsers {
  import opened PolicyDocuments
  import opened IamStores

  /** The default document of each policy. */
  type Docs = map<string, Statements>

  type Store = IamStore<Statements>

  /** EnsureUserConfig with the user's name and role. */
  datatype Request = Request(login: Login, baseName: string, maxUsers: int, loginRoles: seq<string>) {
    function User(): string { login.username }
    function Entry(): StatementEntry { NewStatementEntry(login) }
  }

  function Decimal(n: nat): string {
    (if n < 10 then [] else Decimal(n / 10)) + ['0' + (n % 10) as char]
  }

  function NewName(baseName: string, docs: Docs): string {
    baseName + "_" + Decimal(|docs|)
  }

  // What a call makes of the documents

  /** Listed by decoding the stored ids, as EnsureUser looks users up. */
  ghost predicate Known(docs: Docs, username: string) {
    exists name :: name in docs && KnownIn(docs[name], username)
  }

  predicate KnownIn(statements: Statements, username: string) {
    exists i :: 0 <= i < |statements| && UserIdToUsername(statements[i].userId) == username
  }

  /** Some document lists exactly this user's id. */
  ghost predicate Present(docs: Docs, username: string) {
    exists name :: name in docs && Lists(docs[name], username)
  }

  ghost predicate Room(docs: Docs, maxUsers: int) {
    exists name :: name in docs && |docs[name]| < maxUsers
  }

  /** No existing document takes the user. */
  ghost predicate NeedsNew(docs: Docs, r: Request) {
    if Known(docs, r.User()) then !Present(docs, r.User()) else !Room(docs, r.maxUsers)
  }

  ghost predicate Placeable(docs: Docs, r: Request) {
    NeedsNew(docs, r) ==> NewName(r.baseName, docs) !in docs
  }

  /** Kept statements with, for a new user, one more statement in every document with room. */
  ghost function EnsuredIn(docs: Docs, name: string, r: Request): Statements
    requires name in docs
  {
    if Known(docs, r.User()) then Updated(docs[name], r.login)
    else if |docs[name]| < r.maxUsers then docs[name] + [r.Entry()]
    else docs[name]
  }

  ghost function AllEnsured(docs: Docs, r: Request): Docs {
    map name | name in docs :: EnsuredIn(docs, name, r)
  }

  ghost function Ensured(docs: Docs, r: Request): Docs {
    if NeedsNew(docs, r) then docs[NewName(r.baseName, docs) := [r.Entry()]] else AllEnsured(docs, r)
  }

  ghost predicate Stays(statements: Statements, username: string) {
    statements == [] || Without(statements, username) != []
  }

  ghost function Removed(docs: Docs, username: string): Docs {
    map name | name in docs && Stays(docs[name], username) :: Without(docs[name], username)
  }

  /** The old document or the new one. */
  ghost predicate Either(name: string, document: Statements, was: Docs, target: Docs) {
    (name in was && document == was[name]) || (name in target && document == target[name])
  }

  /** Every document is the old one or the new one, and none is lost that both have. */
  ghost predicate Between(was: Docs, docs: Docs, target: Docs) {
    (forall name :: name in docs ==> Either(name, docs[name], was, target)) &&
    was.Keys * target.Keys <= docs.Keys
  }

  // What the calls guarantee

  ghost predicate GoodDocument(statements: Statements, maxUsers: int) {
    1 <= |statements| <= maxUsers && ListedOnce(statements) && AllEncoded(statements)
  }

  /** No document is empty, over the maximum, or lists a user twice. */
  ghost predicate Good(docs: Docs, maxUsers: int) {
    forall name :: name in docs ==> GoodDocument(docs[name], maxUsers)
  }

  lemma PresentIsKnown(docs: Docs, username: string)
    ensures Present(docs, username) ==> Known(docs, username)
  {
  }

  /** With ids that this program wrote, the two ways to look a user up agree. */
  lemma KnownIsPresent(docs: Docs, username: string)
    requires forall name :: name in docs ==> AllEncoded(docs[name])
    ensures Known(docs, username) <==> Present(docs, username)
  {
    PresentIsKnown(docs, username);
    forall name, i | name in docs && 0 <= i < |docs[name]|
      ensures UsernameToUserId(UserIdToUsername(docs[name][i].userId)) == docs[name][i].userId
    {
      EncodeDecodedIff(docs[name][i].userId);
    }
  }

  lemma EnsuredIsGood(docs: Docs, r: Request)
    requires Good(docs, r.maxUsers) && r.maxUsers >= 1
    ensures Good(Ensured(docs, r), r.maxUsers)
  {
    DecodeEncoded(r.User());
    KnownIsPresent(docs, r.User());
  }

  /** A maximum below one is not kept: the first user gets a document anyway. */
  lemma FirstUserFitsIff(r: Request)
    ensures Good(Ensured(map[], r), r.maxUsers) <==> r.maxUsers >= 1
  {
  }

  lemma EnsuredIsGoodFromEmpty(r: Request)
    ensures Ensured(map[], r) == map[NewName(r.baseName, map[]) := [r.Entry()]]
    ensures IsEncoded(r.Entry().userId)
  {
  }

  lemma RemovedIsGood(docs: Docs, username: string, maxUsers: int)
    requires Good(docs, maxUsers)
    ensures Good(Removed(docs, username), maxUsers)
  {
    var removed := Removed(docs, username);
    forall name | name in removed ensures GoodDocument(removed[name], maxUsers) {
      WithoutKeepsOthers(docs[name], username);
      WithoutListsOnce(docs[name], username);
      forall i | 0 <= i < |removed[name]| ensures IsEncoded(removed[name][i].userId) {
        assert removed[name][i] in docs[name];
      }
    }
  }

  /** The user is listed, with the expected resource in every one of its statements. */
  lemma EnsuredCarries(docs: Docs, r: Request)
    requires Placeable(docs, r)
    ensures Present(Ensured(docs, r), r.User())
    ensures forall name :: name in Ensured(docs, r) ==> Carried(Ensured(docs, r)[name], r.login)
  {
    PresentIsKnown(docs, r.User());
    var ensured, user := Ensured(docs, r), r.User();
    if NeedsNew(docs, r) {
      assert Lists([r.Entry()], user) by { assert Of([r.Entry()][0], user); }
      assert Lists(ensured[NewName(r.baseName, docs)], user);
    } else if Known(docs, user) {
      var name :| name in docs && Lists(docs[name], user);
      var i :| 0 <= i < |docs[name]| && Of(docs[name][i], user);
      assert Of(ensured[name][i], user);
    } else {
      var name :| name in docs && |docs[name]| < r.maxUsers;
      assert Of(ensured[name][|docs[name]|], user);
    }
  }

  /** Every entry that was written admits the user, and every entry of the user, of which there
      is one, names the role. */
  ghost predicate Admitted(was: Docs, docs: Docs, login: Login) {
    (forall name, s :: name in docs && s in docs[name] && (name in was ==> s !in was[name]) ==> Admits(s, login)) &&
    (forall name, s :: name in docs && s in docs[name] && s.userId == "*:" + login.username + "@lunar.app" ==>
      exists resource :: resource in s.resource && IsArnOf(resource, login)) &&
    exists name, s :: name in docs && s in docs[name] && s.userId == "*:" + login.username + "@lunar.app"
  }

  lemma EnsuredAdmits(docs: Docs, r: Request)
    requires Placeable(docs, r)
    ensures Admitted(docs, Ensured(docs, r), r.login)
  {
    hide IsArnOf, Admits, NeedsNew, Known;
    var ensured := Ensured(docs, r);
    NewEntryAdmits(r.login);
    EnsuredCarries(docs, r);
    assert r.Entry() == NewStatementEntry(r.login);
    forall name, s | name in ensured && s in ensured[name] && (name in docs ==> s !in docs[name])
      ensures s == r.Entry()
    {
      if name in docs { WrittenIsNew(docs, name, r, s); }
    }
    var name :| name in ensured && Lists(ensured[name], r.User());
    var i :| 0 <= i < |ensured[name]| && Of(ensured[name][i], r.User());
    assert ensured[name][i] in ensured[name];
  }

  lemma WrittenIsNew(docs: Docs, name: string, r: Request, s: StatementEntry)
    requires name in docs && s in EnsuredIn(docs, name, r) && s !in docs[name]
    ensures s == r.Entry()
  {
    hide Known;
    var document := EnsuredIn(docs, name, r);
    var i :| 0 <= i < |document| && document[i] == s;
    assert i < |docs[name]| ==> docs[name][i] in docs[name];
  }

  /** The statements of all other users stay as they are, in order. */
  lemma EnsuredKeepsOthers(docs: Docs, r: Request)
    requires Placeable(docs, r)
    ensures docs.Keys <= Ensured(docs, r).Keys
    ensures forall name :: name in docs ==> Without(Ensured(docs, r)[name], r.User()) == Without(docs[name], r.User())
    ensures forall name :: name in Ensured(docs, r) && name !in docs ==> Without(Ensured(docs, r)[name], r.User()) == []
  {
    forall name | name in docs
      ensures Without(Updated(docs[name], r.login), r.User()) == Without(docs[name], r.User())
      ensures Without(docs[name] + [r.Entry()], r.User()) == Without(docs[name], r.User())
    {
      WithoutUpdated(docs[name], r.login);
      WithoutConcat(docs[name], [r.Entry()], r.User());
    }
  }

  lemma EnsuredTwice(docs: Docs, r: Request)
    requires Placeable(docs, r)
    ensures Placeable(Ensured(docs, r), r) && Ensured(Ensured(docs, r), r) == Ensured(docs, r)
  {
    var once := Ensured(docs, r);
    EnsuredCarries(docs, r);
    PresentIsKnown(once, r.User());
    forall name | name in once ensures Updated(once[name], r.login) == once[name] {
      assert Carried(once[name], r.login);
    }
  }

  lemma EnsureThenRemoveIn(docs: Docs, name: string, r: Request)
    requires !Known(docs, r.User()) && name in docs
    ensures Without(docs[name], r.User()) == docs[name]
    ensures Without(EnsuredIn(docs, name, r), r.User()) == docs[name]
    ensures Stays(EnsuredIn(docs, name, r), r.User()) <==> docs[name] != [] || r.maxUsers < 1
  {
    PresentIsKnown(docs, r.User());
    assert !Lists(docs[name], r.User());
    WithoutKeepsOthers(docs[name], r.User());
    WithoutAdded(docs[name], r.login);
  }

  /** For a new user, ensuring and then removing restores every document, unless an
      empty document took the user: that one is deleted. */
  lemma EnsureThenRemove(docs: Docs, r: Request)
    requires Placeable(docs, r) && !Known(docs, r.User())
    ensures Removed(Ensured(docs, r), r.User()) == docs <==>
      r.maxUsers < 1 || forall name :: name in docs ==> docs[name] != []
  {
    hide EnsuredIn, Without, Known;
    forall name | name in docs
      ensures Without(docs[name], r.User()) == docs[name]
      ensures Without(EnsuredIn(docs, name, r), r.User()) == docs[name]
      ensures Stays(EnsuredIn(docs, name, r), r.User()) <==> docs[name] != [] || r.maxUsers < 1
    {
      EnsureThenRemoveIn(docs, name, r);
    }
    if NeedsNew(docs, r) {
      WithoutAdded([], r.login);
      assert [] + [r.Entry()] == [r.Entry()];
    } else {
      assert Removed(Ensured(docs, r), r.User()).Keys == set name | name in docs &&
        (docs[name] != [] || r.maxUsers < 1);
    }
  }

  /** A new user goes into every document with room, or else into one of its own. */
  lemma NewUserIsListedIn(docs: Docs, r: Request, name: string)
    requires Placeable(docs, r) && !Known(docs, r.User()) && name in Ensured(docs, r)
    ensures Lists(Ensured(docs, r)[name], r.User()) <==>
      if NeedsNew(docs, r) then name == NewName(r.baseName, docs) else |docs[name]| < r.maxUsers
  {
    PresentIsKnown(docs, r.User());
    var s := Ensured(docs, r)[name];
    if name in docs {
      assert !Lists(docs[name], r.User());
      if s == docs[name] + [r.Entry()] {
        assert Of(s[|docs[name]|], r.User());
      }
    } else {
      assert Of(s[0], r.User());
    }
  }

  ghost function Listers(docs: Docs, username: string): set<string> {
    set name | name in docs && Lists(docs[name], username)
  }

  ghost function WithRoom(docs: Docs, maxUsers: int): set<string> {
    set name | name in docs && |docs[name]| < maxUsers
  }

  /** So exactly one document lists it if and only if at most one had room. */
  lemma NewUserIsListedOnceIff(docs: Docs, r: Request)
    requires Placeable(docs, r) && !Known(docs, r.User())
    ensures Listers(Ensured(docs, r), r.User()) ==
      if WithRoom(docs, r.maxUsers) == {} then {NewName(r.baseName, docs)} else WithRoom(docs, r.maxUsers)
    ensures |Listers(Ensured(docs, r), r.User())| == 1 <==> |WithRoom(docs, r.maxUsers)| <= 1
  {
    hide Lists, Known, Ensured, NeedsNew;
    var ensured, room := Ensured(docs, r), WithRoom(docs, r.maxUsers);
    EnsuredKeys(docs, r);
    forall n | n in ensured
      ensures Lists(ensured[n], r.User()) <==>
        if NeedsNew(docs, r) then n == NewName(r.baseName, docs) else |docs[n]| < r.maxUsers
    {
      NewUserIsListedIn(docs, r, n);
    }
    NewUserNeedsNewIff(docs, r);
  }

  lemma NewUserNeedsNewIff(docs: Docs, r: Request)
    requires !Known(docs, r.User())
    ensures NeedsNew(docs, r) <==> WithRoom(docs, r.maxUsers) == {}
  {
    hide Known;
    var room := WithRoom(docs, r.maxUsers);
    if name :| name in docs && |docs[name]| < r.maxUsers {
      assert name in room;
    } else {
      assert room == {};
    }
  }

  lemma EnsuredKeys(docs: Docs, r: Request)
    ensures Ensured(docs, r).Keys == docs.Keys + if NeedsNew(docs, r) then {NewName(r.baseName, docs)} else {}
  {
  }

  /** With two documents that have room it is listed twice. */
  lemma TwoWithRoomListTwice(docs: Docs, r: Request, m: string, n: string)
    requires !Known(docs, r.User()) && m in docs && n in docs && m != n
    requires |docs[m]| < r.maxUsers && |docs[n]| < r.maxUsers
    ensures Lists(Ensured(docs, r)[m], r.User()) && Lists(Ensured(docs, r)[n], r.User())
  {
    assert Room(docs, r.maxUsers);
    NewUserIsListedIn(docs, r, m);
    NewUserIsListedIn(docs, r, n);
  }

  // The name of a new policy

  lemma {:induction false} DecimalInjective(m: nat, n: nat)
    requires Decimal(m) == Decimal(n)
    ensures m == n
  {
    var (s, t) := (Decimal(m), Decimal(n));
    assert s[|s| - 1] == '0' + (m % 10) as char && t[|t| - 1] == '0' + (n % 10) as char;
    if m >= 10 && n >= 10 {
      assert s[..|s| - 1] == Decimal(m / 10) && t[..|t| - 1] == Decimal(n / 10);
      DecimalInjective(m / 10, n / 10);
    }
  }

  /** The number that a string of digits stands for. */
  function Number(digits: string): (n: int) {
    if digits == [] then 0
    else 10 * Number(digits[..|digits| - 1]) + (digits[|digits| - 1] as int - '0' as int)
  }

  /** The number of a policy in decimal digits, without a leading zero. */
  lemma {:induction false} DecimalIsNumber(n: nat)
    ensures Number(Decimal(n)) == n && forall c :: c in Decimal(n) ==> '0' <= c <= '9'
    ensures n > 0 ==> Decimal(n)[0] != '0'
  {
    var s := Decimal(n);
    if n >= 10 {
      DecimalIsNumber(n / 10);
      assert s[..|s| - 1] == Decimal(n / 10);
    }
  }

  /** The policies are numbered from zero without a gap. */
  ghost predicate Numbered(docs: Docs, baseName: string) {
    forall name :: name in docs ==> exists i: nat :: i < |docs| && name == baseName + "_" + Decimal(i)
  }

  /** While nothing was deleted, the new name is free. */
  lemma NumberedIsPlaceable(docs: Docs, r: Request)
    requires Numbered(docs, r.baseName)
    ensures Placeable(docs, r) && Numbered(Ensured(docs, r), r.baseName)
  {
    var name := NewName(r.baseName, docs);
    if name in docs {
      var i: nat :| i < |docs| && name == r.baseName + "_" + Decimal(i);
      assert Decimal(i) == name[|r.baseName| + 1..] == Decimal(|docs|);
      DecimalInjective(i, |docs|);
    }
    var ensured := Ensured(docs, r);
    if NeedsNew(docs, r) {
      assert |ensured| == |docs| + 1;
    } else {
      assert ensured.Keys == docs.Keys && |ensured| == |ensured.Keys| && |docs| == |docs.Keys|;
    }
  }

  /** A deleted document leaves a gap in the numbering, and the next new name is taken. */
  lemma DeletionCausesClash(a: Login, b: Login, r: Request)
    requires r.maxUsers == 1 && a.username != b.username && r.User() != b.username
    ensures var docs := Ensured(Ensured(map[], r.(login := a)), r.(login := b));
      Numbered(docs, r.baseName) && Good(docs, 1) && !Placeable(Removed(docs, a.username), r)
  {
    hide Decimal, Without, Known, Lists, EnsuredIn, Numbered, Good;
    var one, first := r.(login := a), NewName(r.baseName, map[]);
    var two, second := r.(login := b), NewName(r.baseName, map[first := [one.Entry()]]);
    NoneNumbered(r.baseName);
    NumberedIsPlaceable(map[], one);
    EnsuredIsGood(map[], one);
    EnsuredIsGoodFromEmpty(one);
    NumberedIsPlaceable(Ensured(map[], one), two);
    EnsuredIsGood(Ensured(map[], one), two);
    FullNeedsNew(first, a, two);
    RemovedFirst(first, second, a, b);
    FullNeedsNew(second, b, r);
  }

  lemma NoneNumbered(baseName: string)
    ensures Numbered(map[], baseName) && Good(map[], 1)
  {
  }

  lemma RemovedFirst(first: string, second: string, a: Login, b: Login)
    requires first != second && a.username != b.username
    ensures Removed(map[first := [NewStatementEntry(a)], second := [NewStatementEntry(b)]], a.username) ==
      map[second := [NewStatementEntry(b)]]
  {
    DecodeEncoded(a.username);
    DecodeEncoded(b.username);
    WithoutAdded([], a);
    WithoutKeepsOthers([NewStatementEntry(b)], a.username);
    assert !Lists([NewStatementEntry(b)], a.username);
  }

  lemma FullNeedsNew(name: string, other: Login, r: Request)
    requires r.maxUsers == 1 && other.username != r.User()
    ensures NeedsNew(map[name := [NewStatementEntry(other)]], r)
  {
  }

  // The calls

  /** The listed policies, each with a document of its own in memory. A loop over
      them may take any order. */
  type Policies = map<string, PolicyDocument>

  ghost predicate Unshared(policies: Policies) {
    forall m, n :: m in policies && n in policies && m != n ==> policies[m] != policies[n]
  }

  lemma NoneShared()
    ensures Unshared(map[])
  {
  }

  lemma OneMoreUnshared(policies: Policies, name: string, document: PolicyDocument)
    requires Unshared(policies) && forall n :: n in policies ==> policies[n] != document
    ensures Unshared(policies[name := document])
  {
  }

  ghost function Memory(policies: Policies): set<PolicyDocument> {
    set name | name in policies :: policies[name]
  }

  /** In memory are these documents. */
  ghost predicate Mirrors(policies: Policies, docs: Docs)
    reads Memory(policies)
  {
    Unshared(policies) && docs.Keys == policies.Keys &&
    forall name :: name in policies ==> policies[name].statement == docs[name]
  }

  /** Every state written since lies between the two. */
  ghost predicate AllBetween(was: Docs, target: Docs, before: set<Docs>, seen: set<Docs>) {
    before <= seen && forall docs :: docs in seen ==> docs in before || Between(was, docs, target)
  }

  lemma NoneBetween(was: Docs, target: Docs, seen: set<Docs>)
    ensures AllBetween(was, target, seen, seen)
  {
  }

  lemma WrittenBetween(was: Docs, target: Docs, before: set<Docs>, seen: set<Docs>, docs: Docs)
    requires before <= seen <= before + {docs} && Between(was, docs, target)
    ensures AllBetween(was, target, before, seen)
  {
  }

  lemma ThenBetween(was: Docs, target: Docs, before: set<Docs>, seen: set<Docs>, after: set<Docs>)
    requires AllBetween(was, target, before, seen) && AllBetween(was, target, seen, after)
    ensures AllBetween(was, target, before, after)
  {
  }

  lemma BetweenIsEither(was: Docs, docs: Docs, target: Docs, name: string)
    requires Between(was, docs, target) && name in docs
    ensures Either(name, docs[name], was, target)
  {
  }

  lemma OneMoreBetween(was: Docs, docs: Docs, target: Docs, name: string, document: Statements)
    requires Between(was, docs, target) && Either(name, document, was, target)
    ensures Between(was, docs[name := document], target)
  {
  }

  method ListPolicies(store: Store) returns (ok: bool, policies: Policies)
    requires store.Valid()
    ensures ok ==> Mirrors(policies, store.docs)
    ensures forall name :: name in policies ==> fresh(policies[name])
    ensures store.reliable ==> ok
  {
    var failed := store.Fails();
    if failed {
      return false, map[];
    }
    var docs := map name | name in store.policies :: store.policies[name].document;
    assert docs == store.docs;
    policies := Load(docs);
    ok := true;
  }

  /** A document object for each policy. */
  method Load(docs: Docs) returns (policies: Policies)
    ensures Mirrors(policies, docs)
    ensures forall name :: name in policies ==> fresh(policies[name])
  {
    hide Unshared;
    policies := map[];
    NoneShared();
    var left := docs.Keys;
    while left != {}
      invariant forall name :: name in policies ==> fresh(policies[name])
      invariant Unshared(policies)
      invariant left <= docs.Keys && policies.Keys == docs.Keys - left
      invariant forall name :: name in policies ==> policies[name].statement == docs[name]
    {
      var name :| name in left;
      var document := new PolicyDocument("2012-10-17", docs[name]);
      OneMoreUnshared(policies, name, document);
      policies, left := policies[name := document], left - {name};
    }
  }

  /** No call fails, and policies have room for a new version. */
  ghost predicate Works(store: Store) {
    store.reliable && store.quota >= 2
  }

  /** Every policy has versions besides its default, as after a push. */
  ghost predicate AllVersioned(store: Store)
    reads store
  {
    store.docs.Keys <= store.versioned
  }

  /** One document, between the old and the new. */
  method Push(store: Store, name: string, document: Statements, ghost was: Docs, ghost target: Docs)
    returns (ok: bool, ghost written: bool)
    requires store.Valid() && Between(was, store.docs, target)
    requires name in store.docs && Either(name, document, was, target)
    modifies store`policies, store`docs, store`versioned, store`seen
    ensures store.Valid() && Between(was, store.docs, target)
    ensures AllBetween(was, target, old(store.seen), store.seen)
    ensures store.docs.Keys == old(store.docs.Keys)
    ensures store.docs == if written then old(store.docs)[name := document] else old(store.docs)
    ensures ok ==> written && name in store.versioned
    ensures SameBut(name, old(store.versioned), store.versioned)
    ensures Works(store) ==> ok
  {
    hide Between, Either, AllBetween;
    OneMoreBetween(was, store.docs, target, name, document);
    var result, w, _ := store.UpdatePolicy(name, document);
    WrittenBetween(was, target, old(store.seen), store.seen, store.docs);
    return result == Written, w;
  }

  ghost predicate AgreeOutside(left: set<string>, docs: Docs, pushed: Docs) {
    docs.Keys == pushed.Keys && forall name :: name in pushed && name !in left ==> docs[name] == pushed[name]
  }

  lemma AgreeAtEnds(docs: Docs, pushed: Docs)
    ensures docs.Keys == pushed.Keys ==> AgreeOutside(pushed.Keys, docs, pushed)
    ensures AgreeOutside({}, docs, pushed) ==> docs == pushed
  {
  }

  lemma OneMoreAgrees(left: set<string>, docs: Docs, pushed: Docs, name: string)
    requires AgreeOutside(left, docs, pushed) && name in pushed
    ensures AgreeOutside(left - {name}, docs[name := pushed[name]], pushed)
  {
  }

  /** Every document in memory is pushed; errors do not stop the others. */
  method UpdatePolicies(store: Store, policies: Policies, ghost pushed: Docs, ghost was: Docs, ghost target: Docs)
    returns (ok: bool)
    requires store.Valid() && Between(was, store.docs, target)
    requires Mirrors(policies, pushed) && pushed.Keys == store.docs.Keys && Between(was, pushed, target)
    modifies store`policies, store`docs, store`versioned, store`seen
    ensures store.Valid() && Between(was, store.docs, target)
    ensures store.docs.Keys == old(store.docs.Keys)
    ensures AllBetween(was, target, old(store.seen), store.seen)
    ensures ok ==> store.docs == pushed && AllVersioned(store)
    ensures Works(store) ==> ok
  {
    hide Between, Either, AgreeOutside, AllBetween, Consistent;
    ok := true;
    AgreeAtEnds(store.docs, pushed);
    NoneBetween(was, target, store.seen);
    var left := policies.Keys;
    while left != {}
      invariant store.Valid() && Between(was, store.docs, target)
      invariant store.docs.Keys == old(store.docs.Keys) && left <= policies.Keys
      invariant AllBetween(was, target, old(store.seen), store.seen)
      invariant ok ==> AgreeOutside(left, store.docs, pushed)
      invariant ok ==> policies.Keys - left <= store.versioned
      invariant Works(store) ==> ok
    {
      var name :| name in left;
      BetweenIsEither(was, pushed, target, name);
      if ok {
        OneMoreAgrees(left, store.docs, pushed, name);
      }
      ghost var seen := store.seen;
      var succeeded, _ := Push(store, name, policies[name].statement, was, target);
      ThenBetween(was, target, old(store.seen), seen, store.seen);
      ok, left := ok && succeeded, left - {name};
    }
    AgreeAtEnds(store.docs, pushed);
  }

  /** The documents of left are still the old ones, the others the new ones. */
  ghost predicate Partly(left: set<string>, was: Docs, docs: Docs, target: Docs) {
    docs.Keys == was.Keys == target.Keys &&
    forall name :: name in docs ==> docs[name] == if name in left then was[name] else target[name]
  }

  lemma PartlyAtEnds(was: Docs, docs: Docs, target: Docs)
    requires was.Keys == target.Keys
    ensures Partly(was.Keys, was, was, target) && Between(was, was, target)
    ensures Partly({}, was, docs, target) ==> docs == target
  {
  }

  lemma PartlyNext(left: set<string>, was: Docs, docs: Docs, target: Docs, name: string)
    requires Partly(left, was, docs, target) && name in left && name in docs
    ensures Partly(left - {name}, was, docs[name := target[name]], target)
    ensures target[name] == was[name] ==> docs[name := target[name]] == docs
    ensures Between(was, docs, target) && Between(was, docs[name := target[name]], target)
  {
  }

  /** A document in memory edited, and all pushed. */
  method PushEdited(store: Store, policies: Policies, name: string, ghost left: set<string>, ghost was: Docs,
                    ghost target: Docs)
    returns (ok: bool)
    requires store.Valid() && Partly(left, was, store.docs, target) && name in left && name in store.docs
    requires Mirrors(policies, store.docs[name := target[name]])
    modifies store`policies, store`docs, store`versioned, store`seen
    ensures store.Valid() && Between(was, store.docs, target) && AllBetween(was, target, old(store.seen), store.seen)
    ensures ok ==>
      Partly(left - {name}, was, store.docs, target) && Mirrors(policies, store.docs) && AllVersioned(store)
    ensures Works(store) ==> ok
  {
    PartlyNext(left, was, store.docs, target, name);
    ghost var pushed := store.docs[name := target[name]];
    hide Between, AllBetween, Partly;
    ok := UpdatePolicies(store, policies, pushed, was, target);
  }

  /** The user is looked up among the decoded ids. */
  method Lookup(policies: Policies, username: string, ghost docs: Docs) returns (known: bool)
    requires Mirrors(policies, docs)
    ensures known <==> Known(docs, username)
  {
    known := false;
    var left := policies.Keys;
    while left != {}
      invariant left <= policies.Keys
      invariant known <==> exists name :: name in docs && name !in left && KnownIn(docs[name], username)
    {
      var name :| name in left;
      var users := policies[name].ListUsers();
      assert username in users <==> KnownIn(docs[name], username);
      known, left := known || username in users, left - {name};
    }
  }

  method UpdateInMemory(policies: Policies, name: string, r: Request, ghost docs: Docs)
    returns (handled: bool, updated: bool)
    requires Mirrors(policies, docs) && name in policies
    modifies policies[name]
    ensures Mirrors(policies, docs[name := Updated(docs[name], r.login)])
    ensures handled <==> Lists(docs[name], r.User())
    ensures !updated ==> Updated(docs[name], r.login) == docs[name]
  {
    updated := false;
    handled := policies[name].Exists(r.User());
    if handled {
      updated := policies[name].Update(r.login);
    } else {
      assert Updated(docs[name], r.login) == docs[name];
    }
  }

  /** The policy's next document in memory is pushed with all the others. */
  method UpdateOne(store: Store, policies: Policies, name: string, r: Request, ghost left: set<string>, ghost was: Docs)
    returns (ok: bool, handled: bool)
    requires store.Valid() && Mirrors(policies, store.docs) && Known(was, r.User())
    requires Partly(left, was, store.docs, AllEnsured(was, r)) && name in left && name in policies
    modifies store`policies, store`docs, store`versioned, store`seen, Memory(policies)
    ensures store.Valid() && Between(was, store.docs, AllEnsured(was, r))
    ensures AllBetween(was, AllEnsured(was, r), old(store.seen), store.seen)
    ensures ok ==> Partly(left - {name}, was, store.docs, AllEnsured(was, r)) && Mirrors(policies, store.docs)
    ensures handled <==> Lists(was[name], r.User())
    ensures Works(store) ==> ok
    ensures ok ==> AllVersioned(store) || store.docs == old(store.docs)
    ensures ok ==> AllVersioned(store) || store.versioned == old(store.versioned)
  {
    ghost var target := AllEnsured(was, r);
    PartlyNext(left, was, store.docs, target, name);
    assert store.docs[name] == was[name] && target[name] == Updated(was[name], r.login);
    assert AllBetween(was, target, store.seen, store.seen);
    hide Between, AllBetween, Partly, AllEnsured;
    ok := true;
    var updated;
    handled, updated := UpdateInMemory(policies, name, r, store.docs);
    if updated {
      ok := PushEdited(store, policies, name, left, was, target);
    }
  }

  /** A new user is added to the policy's document if it has room. */
  method PlaceOne(store: Store, policies: Policies, name: string, r: Request, ghost left: set<string>, ghost was: Docs)
    returns (ok: bool, handled: bool)
    requires store.Valid() && Mirrors(policies, store.docs) && !Known(was, r.User())
    requires Partly(left, was, store.docs, AllEnsured(was, r)) && name in left && name in policies
    modifies store`policies, store`docs, store`versioned, store`seen, Memory(policies)
    ensures store.Valid() && Between(was, store.docs, AllEnsured(was, r))
    ensures AllBetween(was, AllEnsured(was, r), old(store.seen), store.seen)
    ensures ok ==> Partly(left - {name}, was, store.docs, AllEnsured(was, r)) && Mirrors(policies, store.docs)
    ensures handled <==> |was[name]| < r.maxUsers
    ensures Works(store) ==> ok
    ensures ok ==> AllVersioned(store) || store.docs == old(store.docs)
    ensures ok ==> AllVersioned(store) || store.versioned == old(store.versioned)
  {
    ghost var target := AllEnsured(was, r);
    PartlyNext(left, was, store.docs, target, name);
    assert store.docs[name] == was[name];
    assert target[name] == if |was[name]| < r.maxUsers then was[name] + [r.Entry()] else was[name];
    assert AllBetween(was, target, store.seen, store.seen);
    hide Between, AllBetween, Partly, AllEnsured;
    ok := true;
    var count := policies[name].Count();
    handled := count < r.maxUsers;
    if handled {
      policies[name].Add(r.login);
      ok := PushEdited(store, policies, name, left, was, target);
    }
  }

  /** This document is where the user goes. */
  ghost predicate Takes(docs: Docs, name: string, r: Request)
    requires name in docs
  {
    if Known(docs, r.User()) then Lists(docs[name], r.User()) else |docs[name]| < r.maxUsers
  }

  /** A document outside left takes the user. */
  ghost predicate Taken(left: set<string>, docs: Docs, r: Request) {
    exists name :: name in docs && name !in left && Takes(docs, name, r)
  }

  lemma OneMoreTaken(left: set<string>, docs: Docs, r: Request, name: string)
    requires name in docs && name in left
    ensures Taken(left - {name}, docs, r) <==> Taken(left, docs, r) || Takes(docs, name, r)
  {
  }

  lemma TakenIsHandled(docs: Docs, r: Request)
    ensures AllEnsured(docs, r).Keys == docs.Keys
    ensures !Taken(docs.Keys, docs, r) && (Taken({}, docs, r) <==> !NeedsNew(docs, r))
  {
  }

  /** The loop over the listed policies, for a known user and for a new one. */
  method EnsureInExisting(store: Store, policies: Policies, known: bool, r: Request) returns (ok: bool, handled: bool)
    requires store.Valid() && Mirrors(policies, store.docs) && (known <==> Known(store.docs, r.User()))
    modifies store`policies, store`docs, store`versioned, store`seen, Memory(policies)
    ensures store.Valid() && Between(old(store.docs), store.docs, AllEnsured(old(store.docs), r))
    ensures AllBetween(old(store.docs), AllEnsured(old(store.docs), r), old(store.seen), store.seen)
    ensures ok ==> store.docs == AllEnsured(old(store.docs), r) && (handled <==> !NeedsNew(old(store.docs), r))
    ensures ok ==> AllVersioned(store) || store.docs == old(store.docs)
    ensures Works(store) ==> ok
  {
    hide Taken, Between, AllBetween, Partly, AllEnsured, NeedsNew, Known;
    ok, handled := true, false;
    ghost var was, target := store.docs, AllEnsured(store.docs, r);
    TakenIsHandled(was, r);
    PartlyAtEnds(was, was, target);
    NoneBetween(was, target, store.seen);
    var left := policies.Keys;
    while left != {}
      invariant store.Valid() && ok && left <= policies.Keys
      invariant Mirrors(policies, store.docs) && Partly(left, was, store.docs, target)
      invariant Between(was, store.docs, target) && AllBetween(was, target, old(store.seen), store.seen)
      invariant handled <==> Taken(left, was, r)
      invariant AllVersioned(store) || store.docs == was
    {
      var name :| name in left;
      OneMoreTaken(left, was, r, name);
      ghost var seen := store.seen;
      var taken;
      if known {
        ok, taken := UpdateOne(store, policies, name, r, left, was);
      } else {
        ok, taken := PlaceOne(store, policies, name, r, left, was);
      }
      ThenBetween(was, target, old(store.seen), seen, store.seen);
      if !ok {
        return;
      }
      handled, left := handled || taken, left - {name};
    }
    PartlyAtEnds(was, store.docs, target);
  }

  lemma NeedsNewChangesNone(docs: Docs, r: Request)
    requires NeedsNew(docs, r)
    ensures AllEnsured(docs, r) == docs
  {
    forall name | name in docs ensures EnsuredIn(docs, name, r) == docs[name] {
      assert !Known(docs, r.User()) || !Lists(docs[name], r.User());
    }
  }

  method AttachPolicyToLoginRoles(store: Store, roles: seq<string>, names: set<string>) returns (ok: bool)
    requires store.Valid()
    modifies store`attached
    ensures store.Valid() && old(store.attached) <= store.attached
    ensures ok ==> forall role, name :: role in roles && name in names ==> Attachment(role, name) in store.attached
    ensures store.reliable && names <= store.docs.Keys ==> ok
  {
    for k := 0 to |roles|
      invariant store.Valid() && old(store.attached) <= store.attached
      invariant forall i, name :: 0 <= i < k && name in names ==> Attachment(roles[i], name) in store.attached
    {
      var failed := store.Fails();
      if failed {
        return false;
      }
      var left := names;
      while left != {}
        invariant store.Valid() && old(store.attached) <= store.attached && left <= names
        invariant forall i, name :: 0 <= i < k && name in names ==> Attachment(roles[i], name) in store.attached
        invariant forall name :: name in names && name !in left ==> Attachment(roles[k], name) in store.attached
      {
        var name :| name in left;
        left := left - {name};
        ok := store.AttachPolicy(Attachment(roles[k], name));
        if !ok {
          return;
        }
      }
    }
    return true;
  }

  /** What the documents become; a taken name leaves them as they are. */
  ghost function EnsureTarget(docs: Docs, r: Request): Docs {
    if Placeable(docs, r) then Ensured(docs, r) else docs
  }

  /** The loop over the existing policies stays on the way to the target. */
  lemma ExistingIsBetween(docs: Docs, r: Request, before: set<Docs>, seen: set<Docs>)
    requires AllBetween(docs, AllEnsured(docs, r), before, seen)
    ensures AllBetween(docs, EnsureTarget(docs, r), before, seen)
  {
  }

  lemma NewIsBetween(docs: Docs, r: Request)
    requires NeedsNew(docs, r)
    ensures Placeable(docs, r) <==> NewName(r.baseName, docs) !in docs
    ensures Ensured(docs, r) == docs[NewName(r.baseName, docs) := [r.Entry()]]
    ensures Between(docs, docs, EnsureTarget(docs, r))
    ensures Placeable(docs, r) ==> Between(docs, Ensured(docs, r), EnsureTarget(docs, r))
  {
  }

  /** A policy of its own for a user that no existing document took. */
  method CreateForUser(store: Store, r: Request, count: nat) returns (ok: bool)
    requires store.Valid() && NeedsNew(store.docs, r) && count == |store.docs|
    modifies store`policies, store`docs, store`versioned, store`seen
    ensures store.Valid() && AllBetween(old(store.docs), EnsureTarget(old(store.docs), r), old(store.seen), store.seen)
    ensures ok ==> Placeable(old(store.docs), r) && store.docs == Ensured(old(store.docs), r)
    ensures store.reliable && Placeable(old(store.docs), r) ==> ok
  {
    hide Between, AllBetween, NeedsNew, Ensured, EnsureTarget, Placeable, Consistent;
    ghost var was := store.docs;
    NewIsBetween(was, r);
    var document := new PolicyDocument("2012-10-17", []);
    document.Add(r.login);
    assert document.statement == [r.Entry()];
    ok := store.CreatePolicy(r.baseName + "_" + Decimal(count), document.statement);
    WrittenBetween(was, EnsureTarget(was, r), old(store.seen), store.seen, store.docs);
  }

  method EnsureUser(store: Store, r: Request) returns (ok: bool)
    requires store.Valid()
    modifies store
    ensures store.Valid() && AllBetween(old(store.docs), EnsureTarget(old(store.docs), r), old(store.seen), store.seen)
    ensures ok ==> Placeable(old(store.docs), r) && store.docs == Ensured(old(store.docs), r)
    ensures ok ==> forall role, name :: role in r.loginRoles && name in store.docs ==>
      Attachment(role, name) in store.attached
    ensures ok ==> Admitted(old(store.docs), store.docs, r.login)
    ensures ok ==> forall name :: name in store.docs && name !in old(store.docs) ==>
      name == r.baseName + "_" + Decimal(|old(store.docs)|)
    ensures ok && !NeedsNew(old(store.docs), r) ==> AllVersioned(store) || store.docs == old(store.docs)
    ensures Works(store) && Placeable(old(store.docs), r) ==> ok
  {
    hide Between, AllBetween, NeedsNew, Known, AllEnsured, Ensured, Placeable, EnsureTarget;
    hide Mirrors, Consistent, Admitted;
    ghost var was := store.docs;
    NoneBetween(was, EnsureTarget(was, r), store.seen);
    var policies;
    ok, policies := ListPolicies(store);
    if !ok {
      return;
    }
    MirrorsSize(policies, was);
    var known := Lookup(policies, r.User(), was);
    var handled;
    ok, handled := EnsureInExisting(store, policies, known, r);
    ExistingIsBetween(was, r, old(store.seen), store.seen);
    HandledIsEnsured(was, r);
    if !ok {
      return;
    }
    ghost var seen := store.seen;
    ok := CreateAndAttach(store, r, handled, |policies|);
    ThenBetween(was, EnsureTarget(was, r), old(store.seen), seen, store.seen);
    if ok {
      EnsuredAdmits(was, r);
      EnsuredKeys(was, r);
    }
  }

  lemma HandledIsEnsured(docs: Docs, r: Request)
    ensures if NeedsNew(docs, r) then AllEnsured(docs, r) == docs
            else Placeable(docs, r) && Ensured(docs, r) == AllEnsured(docs, r)
  {
    if NeedsNew(docs, r) { NeedsNewChangesNone(docs, r); }
  }

  lemma MirrorsSize(policies: Policies, docs: Docs)
    requires Mirrors(policies, docs)
    ensures |policies| == |docs|
  {
    assert |policies| == |policies.Keys| && |docs| == |docs.Keys|;
  }

  /** The end of EnsureUser: a new policy where none took the user, and all attached. */
  method CreateAndAttach(store: Store, r: Request, handled: bool, count: nat) returns (ok: bool)
    requires store.Valid() && (handled || (NeedsNew(store.docs, r) && count == |store.docs|))
    modifies store
    ensures store.Valid() && old(store.seen) <= store.seen
    ensures handled ==> store.docs == old(store.docs) && store.versioned == old(store.versioned)
    ensures handled ==> store.seen == old(store.seen)
    ensures !handled ==>
      AllBetween(old(store.docs), EnsureTarget(old(store.docs), r), old(store.seen), store.seen)
    ensures ok && !handled ==> Placeable(old(store.docs), r) && store.docs == Ensured(old(store.docs), r)
    ensures ok ==> forall role, name :: role in r.loginRoles && name in store.docs ==>
      Attachment(role, name) in store.attached
    ensures store.reliable && (handled || Placeable(old(store.docs), r)) ==> ok
  {
    hide Between, AllBetween, NeedsNew, Ensured, EnsureTarget, Placeable, Consistent;
    if !handled {
      NewIsBetween(store.docs, r);
      ok := CreateForUser(store, r, count);
      AllBetweenGrows(old(store.docs), EnsureTarget(old(store.docs), r), old(store.seen), store.seen);
      if !ok {
        return;
      }
      ok := AttachPolicyToLoginRoles(store, r.loginRoles, {r.baseName + "_" + Decimal(count)});
      if !ok {
        return;
      }
    }
    var failed := store.Fails();
    if failed {
      return false;
    }
    ok := AttachPolicyToLoginRoles(store, r.loginRoles, store.policies.Keys);
  }

  lemma AllBetweenGrows(was: Docs, target: Docs, before: set<Docs>, seen: set<Docs>)
    requires AllBetween(was, target, before, seen)
    ensures before <= seen
  {
  }

  /** The documents of left are still the old ones, the others are rid of the user. */
  ghost predicate PartlyRemoved(left: set<string>, was: Docs, docs: Docs, username: string) {
    (forall name :: name in docs <==> name in was && (name in left || Stays(was[name], username))) &&
    (forall name :: name in docs ==> docs[name] == if name in left then was[name] else Without(was[name], username))
  }

  ghost function RemovedFrom(docs: Docs, name: string, username: string): Docs
    requires name in docs
  {
    if Stays(docs[name], username) then docs[name := Without(docs[name], username)] else docs - {name}
  }

  lemma RemovedNext(left: set<string>, was: Docs, docs: Docs, username: string, name: string)
    requires PartlyRemoved(left, was, docs, username) && name in left && name in was
    ensures name in docs && docs[name] == was[name]
    ensures PartlyRemoved(left - {name}, was, RemovedFrom(docs, name, username), username)
    ensures Between(was, docs, Removed(was, username))
    ensures Between(was, RemovedFrom(docs, name, username), Removed(was, username))
  {
  }

  lemma RemovedFromOne(docs: Docs, name: string, username: string)
    requires name in docs
    ensures RemovedFrom(docs, name, username) ==
      if !Lists(docs[name], username) then docs
      else if Without(docs[name], username) == [] then docs - {name}
      else docs[name := Without(docs[name], username)]
  {
    WithoutKeepsOthers(docs[name], username);
  }

  lemma NoneRemoved(was: Docs, username: string)
    ensures PartlyRemoved(was.Keys, was, was, username)
  {
  }

  lemma AllRemoved(was: Docs, docs: Docs, username: string)
    requires PartlyRemoved({}, was, docs, username)
    ensures docs == Removed(was, username)
  {
  }

  /** The other policies stay attached as they are. */
  ghost predicate OthersAttached(name: string, before: set<Attachment>, after: set<Attachment>) {
    after <= before && forall a :: a in before && a.policy != name ==> a in after
  }

  /** The documents that removing the user empties, and those it shortens. */
  ghost function Emptied(docs: Docs, username: string): (names: set<string>)
    ensures names <= docs.Keys
  {
    set name | name in docs && !Stays(docs[name], username)
  }

  ghost function Shortened(docs: Docs, username: string): (names: set<string>)
    ensures names <= docs.Keys
  {
    set name | name in docs && Stays(docs[name], username) && Lists(docs[name], username)
  }

  /** Every one of the policies has no version besides its default and is attached to exactly
      the given roles. */
  ghost predicate Deletable(names: set<string>, versioned: set<string>, attached: set<Attachment>, roles: seq<string>) {
    forall name :: name in names ==> name !in versioned && AttachedTo(name, attached, roles)
  }

  lemma OthersStayAttached(names: set<string>, name: string, before: set<Attachment>, after: set<Attachment>,
                           roles: seq<string>)
    requires OthersAttached(name, before, after)
    ensures forall n :: n in names && n != name ==> (AttachedTo(n, after, roles) <==> AttachedTo(n, before, roles))
  {
    forall n, role | n != name ensures Attachment(role, n) in after <==> Attachment(role, n) in before {
      assert Attachment(role, n).policy == n;
    }
  }

  method RemoveOne(store: Store, name: string, document: PolicyDocument, username: string, roles: seq<string>,
                   ghost left: set<string>, ghost was: Docs)
    returns (ok: bool)
    requires store.Valid() && PartlyRemoved(left, was, store.docs, username)
    requires name in left && name in was && document.statement == was[name]
    modifies store, document
    ensures store.Valid() && Between(was, store.docs, Removed(was, username))
    ensures AllBetween(was, Removed(was, username), old(store.seen), store.seen)
    ensures ok ==> PartlyRemoved(left - {name}, was, store.docs, username)
    ensures OthersAttached(name, old(store.attached), store.attached)
    ensures SameBut(name, old(store.versioned), store.versioned)
    ensures name in old(store.versioned) ==> name in store.docs
    ensures old(store.docs).Keys - {name} <= store.docs.Keys
    ensures ok && name in Emptied(was, username) ==>
      name !in old(store.versioned) && AttachedTo(name, old(store.attached), roles)
    ensures ok && name in Shortened(was, username) ==> name in store.versioned
    ensures Works(store) && name !in Emptied(was, username) ==> ok
    ensures Works(store) && name !in old(store.versioned) && AttachedTo(name, old(store.attached), roles) ==> ok
  {
    hide Between, AllBetween, PartlyRemoved, Removed, RemovedFrom, Without, Lists;
    RemovedNext(left, was, store.docs, username, name);
    RemovedFromOne(store.docs, name, username);
    ok := true;
    var listed := document.Exists(username);
    if listed {
      document.Remove(username);
      var count := document.Count();
      if count == 0 {
        ok := store.DeleteAndDetachPolicy(name, roles);
      } else {
        var result, _, _ := store.UpdatePolicy(name, document.statement);
        ok := result == Written;
      }
    }
    WrittenBetween(was, Removed(was, username), old(store.seen), store.seen, store.docs);
  }

  method RemoveUser(store: Store, roles: seq<string>, username: string) returns (ok: bool)
    requires store.Valid()
    modifies store
    ensures store.Valid()
    ensures AllBetween(old(store.docs), Removed(old(store.docs), username), old(store.seen), store.seen)
    ensures ok ==> store.docs == Removed(old(store.docs), username)
    ensures old(store.versioned) * old(store.docs).Keys <= store.docs.Keys
    ensures ok ==> Shortened(old(store.docs), username) <= store.versioned
    ensures ok ==> Deletable(Emptied(old(store.docs), username), old(store.versioned), old(store.attached), roles)
    ensures Works(store) ==>
      (ok <==> Deletable(Emptied(old(store.docs), username), old(store.versioned), old(store.attached), roles))
  {
    hide AllBetween, Between, Removed, PartlyRemoved, Without, Emptied, Shortened, AttachedTo, Consistent;
    ghost var was, target := store.docs, Removed(store.docs, username);
    ghost var emptied, shortened := Emptied(was, username), Shortened(was, username);
    NoneBetween(was, target, store.seen);
    var policies;
    ok, policies := ListPolicies(store);
    if !ok {
      return;
    }
    NoneRemoved(was, username);
    var left := policies.Keys;
    while left != {}
      invariant store.Valid() && ok && left <= policies.Keys && PartlyRemoved(left, was, store.docs, username)
      invariant forall name :: name in left ==> policies[name].statement == was[name]
      invariant AllBetween(was, target, old(store.seen), store.seen)
      invariant forall n :: n in left ==>
        (AttachedTo(n, store.attached, roles) <==> AttachedTo(n, old(store.attached), roles))
      invariant forall n :: n in left ==> (n in store.versioned <==> n in old(store.versioned))
      invariant forall n :: n in was && n in old(store.versioned) ==> n in store.docs
      invariant forall n :: n in emptied && n !in left ==>
        n !in old(store.versioned) && AttachedTo(n, old(store.attached), roles)
      invariant forall n :: n in shortened && n !in left ==> n in store.versioned
    {
      var name :| name in left;
      ghost var seen, attached := store.seen, store.attached;
      ok := RemoveOne(store, name, policies[name], username, roles, left, was);
      ThenBetween(was, target, old(store.seen), seen, store.seen);
      if !ok {
        return;
      }
      OthersStayAttached(left, name, attached, store.attached, roles);
      left := left - {name};
    }
    AllRemoved(was, store.docs, username);
  }

  /** Once a policy was updated it is never deleted: with two users added and removed again,
      the last removal fails although no call fails for reasons of its own. */
  method LastUserStays(quota: nat, a: Request, b: Request, roles: seq<string>) returns (store: Store, ok: bool)
    requires quota >= 2 && a.User() != b.User() && a.baseName == b.baseName && b.maxUsers >= 2
    ensures fresh(store) && store.Valid() && store.reliable
    ensures !ok && NewName(a.baseName, map[]) in store.docs
  {
    hide Between, AllBetween, Without, Known, AttachedTo, Consistent;
    hide Ensured, NeedsNew, Emptied, Shortened, Removed, Numbered;
    var name := NewName(a.baseName, map[]);
    store := new IamStore(quota, true);
    EnsuredIsGoodFromEmpty(a);
    NoneNumbered(a.baseName);
    NumberedIsPlaceable(map[], a);
    ok := EnsureUser(store, a);
    assert ok && store.docs == map[name := [a.Entry()]];
    SecondUserJoins(name, a, b);
    ok := EnsureUser(store, b);
    assert ok && name in store.versioned;
    FirstUserLeaves(name, a, b);
    ok := RemoveUser(store, roles, a.User());
    assert ok && name in store.versioned;
    ok := RemoveUser(store, roles, b.User());
  }

  lemma SecondUserJoins(name: string, a: Request, b: Request)
    requires a.User() != b.User() && b.maxUsers >= 2
    ensures var docs: Docs := map[name := [a.Entry()]];
      !NeedsNew(docs, b) && Ensured(docs, b) == map[name := [a.Entry(), b.Entry()]]
  {
    var docs: Docs := map[name := [a.Entry()]];
    DecodeEncoded(a.User());
    assert !Known(docs, b.User());
    assert |docs[name]| < b.maxUsers;
    assert [a.Entry()] + [b.Entry()] == [a.Entry(), b.Entry()];
  }

  lemma FirstUserLeaves(name: string, a: Request, b: Request)
    requires a.User() != b.User()
    ensures var docs: Docs := map[name := [a.Entry(), b.Entry()]];
      Emptied(docs, a.User()) == {} && Shortened(docs, a.User()) == {name} &&
      Removed(docs, a.User()) == map[name := [b.Entry()]] && Emptied(map[name := [b.Entry()]], b.User()) == {name}
  {
    hide Without, Lists;
    WithoutOneOfTwo(a, b);
    var docs: Docs := map[name := [a.Entry(), b.Entry()]];
    assert name in Shortened(docs, a.User());
    assert name in Emptied(map[name := [b.Entry()]], b.User());
  }

  lemma WithoutOneOfTwo(a: Request, b: Request)
    requires a.User() != b.User()
    ensures Lists([a.Entry(), b.Entry()], a.User()) && Without([a.Entry(), b.Entry()], a.User()) == [b.Entry()]
    ensures Without([b.Entry()], b.User()) == []
  {
    hide Without;
    DecodeEncoded(a.User());
    DecodeEncoded(b.User());
    WithoutAdded([], a.login);
    WithoutAdded([], b.login);
    WithoutConcat([a.Entry()], [b.Entry()], a.User());
    WithoutKeepsOthers([b.Entry()], a.User());
    assert [] + [a.Entry()] == [a.Entry()] && [] + [b.Entry()] == [b.Entry()];
    assert [a.Entry(), b.Entry()] == [a.Entry()] + [b.Entry()];
    assert Of([a.Entry(), b.Entry()][0], a.User());
  }

  datatype Call = Ensure(r: Request) | Remove(loginRoles: seq<string>, username: string)

  ghost predicate AllGood(seen: set<Docs>, maxUsers: int) {
    forall docs :: docs in seen ==> Good(docs, maxUsers)
  }

  lemma BetweenGoodIsGood(was: Docs, target: Docs, before: set<Docs>, seen: set<Docs>, maxUsers: int)
    requires AllBetween(was, target, before, seen) && AllGood(before, maxUsers)
    requires Good(was, maxUsers) && Good(target, maxUsers)
    ensures AllGood(seen, maxUsers)
  {
  }

  /** Over every sequence of calls from an empty account, failing anywhere, no write
      ever leaves an empty document, one over the maximum, or one listing a user twice. */
  method Serve(quota: nat, reliable: bool, maxUsers: int, calls: seq<Call>) returns (store: Store)
    requires quota >= 1 && maxUsers >= 1
    requires forall c :: c in calls && c.Ensure? ==> c.r.maxUsers == maxUsers
    ensures fresh(store) && store.Valid() && AllGood(store.seen, maxUsers)
  {
    store := new IamStore(quota, reliable);
    for k := 0 to |calls|
      invariant fresh(store) && store.Valid() && AllGood(store.seen, maxUsers)
    {
      ghost var was, before := store.docs, store.seen;
      match calls[k]
      case Ensure(r) =>
        assert r == calls[k].r;
        EnsuredIsGood(was, r);
        var _ := EnsureUser(store, r);
        BetweenGoodIsGood(was, EnsureTarget(was, r), before, store.seen, maxUsers);
      case Remove(roles, username) =>
        RemovedIsGood(was, username, maxUsers);
        var _ := RemoveUser(store, roles, username);
        BetweenGoodIsGood(was, Removed(was, username), before, store.seen, maxUsers);
    }
  }
}
