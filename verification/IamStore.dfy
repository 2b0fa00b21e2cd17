/** The AWS account as the client uses it: managed policies with their versions, and
    the policies attached to each login role (pkg/iam/client.go). D is the type of a
    policy document, which the client only passes on. */
module IamStores {

  /** The replies that the client tells apart. After AwsError and OtherError the
      call may still have been carried out. */
  datatype Reply = Done | LimitExceeded | AwsError | OtherError

  datatype UpdateResult = Written | QuotaFailure | DeleteFailure | OtherFailure

  /** The versions of one policy: the default one, and the old ones by id. */
  datatype Versions<D> = Versions(default: nat, document: D, older: map<nat, D>, next: nat) {
    predicate Valid(quota: nat) {
      Count() <= quota && default < next && default !in older && forall v :: v in older ==> v < next
    }

    function Count(): nat {
      1 + |older|
    }

    /** A new version, set as the default. */
    function Adding(d: D): Versions<D> {
      Versions(next, d, older[default := document], next + 1)
    }

    /** AWS refuses to delete the default version, which is not among the older. */
    function Deleting(version: nat): Versions<D> {
      Versions(default, document, older - {version}, next)
    }

    ghost predicate Has(version: nat, d: D) {
      (version == default && d == document) || (version in older && older[version] == d)
    }

    ghost predicate Shrunk(was: Versions<D>) {
      default == was.default && document == was.document && next == was.next &&
      forall v :: v in older ==> v in was.older && older[v] == was.older[v]
    }
  }

  /** What an update does to its policy: the old default version is still there, and
      it is still the default or the new document is. */
  ghost predicate UpdateOf<D>(was: Versions<D>, now: Versions<D>, d: D, written: bool) {
    now.Has(was.default, was.document) &&
    if written then now.document == d && now.default != was.default
    else now.default == was.default && now.document == was.document
  }

  /** A policy attached to a login role. */
  datatype Attachment = Attachment(role: string, policy: string)

  /** Each of the roles once, and no other, has the policy. */
  ghost predicate AttachedTo(name: string, attached: set<Attachment>, roles: seq<string>) {
    (forall i, j :: 0 <= i < j < |roles| ==> roles[i] != roles[j]) &&
    forall role :: Attachment(role, name) in attached <==> role in roles
  }

  /** Detaching the first of the roles, where it was attached, leaves the others. */
  lemma DetachedOne(name: string, before: set<Attachment>, after: set<Attachment>, roles: seq<string>)
    requires roles != [] && Attachment(roles[0], name) in before && after == before - {Attachment(roles[0], name)}
    ensures AttachedTo(name, before, roles) <==> AttachedTo(name, after, roles[1..])
  {
    assert roles == [roles[0]] + roles[1..];
    if AttachedTo(name, after, roles[1..]) {
      assert Attachment(roles[0], name) !in after;
      forall i, j | 0 <= i < j < |roles| ensures roles[i] != roles[j] {
        assert roles[j] == roles[1..][j - 1] && (i > 0 ==> roles[i] == roles[1..][i - 1]);
      }
    }
    if AttachedTo(name, before, roles) {
      forall role ensures Attachment(role, name) in after <==> role in roles[1..] {
        if role in roles[1..] {
          var j :| 0 <= j < |roles[1..]| && roles[1..][j] == role;
          assert roles[j + 1] == role && roles[0] != roles[j + 1];
        }
      }
      forall i, j | 0 <= i < j < |roles[1..]| ensures roles[1..][i] != roles[1..][j] {
        assert roles[i + 1] != roles[j + 1];
      }
    }
  }

  lemma DetachedIff(name: string, attached: set<Attachment>)
    ensures AttachedTo(name, attached, []) <==> forall a :: a in attached ==> a.policy != name
  {
    forall a | a in attached && a.policy == name ensures !AttachedTo(name, attached, []) {
      assert a == Attachment(a.role, name);
    }
  }

  /** Only that policy differs. */
  ghost predicate Only<V>(name: string, was: map<string, V>, now: map<string, V>) {
    name in was && now.Keys == was.Keys && forall n :: n in was && n != name ==> now[n] == was[n]
  }

  ghost predicate SameBut(name: string, was: set<string>, now: set<string>) {
    forall n :: n != name ==> (n in was <==> n in now)
  }

  type Stored<!D> = map<string, Versions<D>>

  ghost predicate VersionsMatch<D>(v: Versions<D>, d: D, versioned: bool, quota: nat) {
    v.Valid(quota) && v.document == d && (versioned <==> v.older.Keys != {})
  }

  /** docs are the default documents, and versioned the policies with other versions too. */
  ghost predicate Consistent<D>(policies: Stored<D>, docs: map<string, D>, versioned: set<string>, quota: nat) {
    docs.Keys == policies.Keys && versioned <= policies.Keys &&
    forall name :: name in policies ==> VersionsMatch(policies[name], docs[name], name in versioned, quota)
  }

  lemma ConsistentAt<D>(policies: Stored<D>, docs: map<string, D>, versioned: set<string>, quota: nat, name: string)
    requires Consistent(policies, docs, versioned, quota) && name in policies
    ensures VersionsMatch(policies[name], docs[name], name in versioned, quota)
  {
  }

  lemma ConsistentWith<D>(policies: Stored<D>, docs: map<string, D>, versioned: set<string>, quota: nat, name: string,
                          v: Versions<D>)
    requires Consistent(policies, docs, versioned, quota) && v.Valid(quota)
    ensures Consistent(policies[name := v], docs[name := v.document],
                       if v.older.Keys == {} then versioned - {name} else versioned + {name}, quota)
  {
  }

  lemma NoneVersioned<D>(policies: Stored<D>, docs: map<string, D>, versioned: set<string>, quota: nat, name: string)
    requires Consistent(policies, docs, versioned, quota) && name !in policies
    ensures versioned - {name} == versioned && name !in versioned
  {
  }

  lemma ConsistentWithout<D>(policies: Stored<D>, docs: map<string, D>, versioned: set<string>, quota: nat,
                             name: string)
    requires Consistent(policies, docs, versioned, quota) && name !in versioned
    ensures Consistent(policies - {name}, docs - {name}, versioned, quota)
  {
  }

  lemma FewerVersions<D>(versions: Versions<D>, version: nat, quota: nat)
    requires versions.Valid(quota)
    ensures versions.Deleting(version).Valid(quota)
  {
    var left := versions.Deleting(version).older;
    assert |left| == |left.Keys| && |versions.older| == |versions.older.Keys|;
    assert left.Keys + (versions.older.Keys - left.Keys) == versions.older.Keys;
  }

  lemma MoreVersions<D>(versions: Versions<D>, d: D, quota: nat)
    requires versions.Valid(quota) && versions.Count() < quota
    ensures versions.Adding(d).Valid(quota) && versions.Adding(d).older.Keys != {}
  {
    assert versions.default in versions.Adding(d).older.Keys;
  }

  class IamStore<D(==)> {
    const quota: nat
    const reliable: bool  // no call fails for reasons of its own
    var policies: Stored<D>
    var attached: set<Attachment>
    /** The default document of each policy. */
    ghost var docs: map<string, D>
    /** The policies that have versions besides their default. */
    ghost var versioned: set<string>
    /** What the documents were after any write so far. */
    ghost var seen: set<map<string, D>>

    ghost predicate Valid()
      reads this
    {
      quota >= 1 && docs.Keys == policies.Keys && Consistent(policies, docs, versioned, quota) &&
      (forall a :: a in attached ==> a.policy in policies) && docs in seen
    }

    constructor (quota: nat, reliable: bool)
      requires quota >= 1
      ensures Valid() && this.quota == quota && this.reliable == reliable && attached == {} && docs == map[]
      ensures versioned == {} && seen == {map[]}
    {
      this.quota, this.reliable := quota, reliable;
      policies, attached := map[], {};
      docs, versioned, seen := map[], {}, {map[]};
    }

    // Calls to AWS

    method Fails() returns (failed: bool)
      ensures reliable ==> !failed
    {
      failed := *;
      failed := failed && !reliable;
    }

    method CreatePolicyVersion(name: string, d: D) returns (reply: Reply, ghost written: bool)
      requires Valid() && name in policies
      modifies this`policies, this`docs, this`versioned, this`seen
      ensures Valid() && seen == old(seen) + {docs}
      ensures versioned == if written then old(versioned) + {name} else old(versioned)
      ensures policies == if written then old(policies)[name := old(policies[name]).Adding(d)] else old(policies)
      ensures docs == if written then old(docs)[name := d] else old(docs)
      ensures written ==> old(policies[name].Count()) < quota
      ensures reply == Done ==> written
      ensures reply == LimitExceeded ==> old(policies[name].Count()) >= quota
      ensures reliable ==> reply == Done || reply == LimitExceeded
    {
      hide Consistent, Versions.Valid;
      var failed := Fails();
      var carriedOut, full := *, policies[name].Count() >= quota;
      if failed {
        reply :| reply == AwsError || reply == OtherError;
      } else {
        reply := if full then LimitExceeded else Done;
      }
      written := !full && (!failed || carriedOut);
      if !full && (!failed || carriedOut) {
        ConsistentAt(policies, docs, versioned, quota, name);
        MoreVersions(policies[name], d, quota);
        ConsistentWith(policies, docs, versioned, quota, name, policies[name].Adding(d));
        policies, docs := policies[name := policies[name].Adding(d)], docs[name := d];
        versioned := versioned + {name};
      }
      seen := seen + {docs};
    }

    method DeletePolicyVersion(name: string, version: nat) returns (reply: Reply)
      requires Valid() && name in policies
      modifies this`policies, this`versioned
      ensures Valid() && reply != LimitExceeded && SameBut(name, old(versioned), versioned)
      ensures Only(name, old(policies), policies)
      ensures policies[name] == old(policies[name]) || policies[name] == old(policies[name]).Deleting(version)
      ensures reply == Done ==> policies[name] == old(policies[name]).Deleting(version)
      ensures reliable ==> reply == Done
    {
      hide Consistent, Versions.Valid;
      var failed := Fails();
      var carriedOut := *;
      if failed {
        reply :| reply == AwsError || reply == OtherError;
      } else {
        reply := Done;
      }
      if !failed || carriedOut {
        ConsistentAt(policies, docs, versioned, quota, name);
        FewerVersions(policies[name], version, quota);
        var left := policies[name].Deleting(version);
        ConsistentWith(policies, docs, versioned, quota, name, left);
        assert docs[name := left.document] == docs;
        policies := policies[name := left];
        versioned := if left.older.Keys == {} then versioned - {name} else versioned + {name};
      }
    }

    /** Fails on a taken name. */
    method CreatePolicy(name: string, d: D) returns (ok: bool)
      requires Valid()
      modifies this`policies, this`docs, this`seen
      ensures Valid() && seen == old(seen) + {docs}
      ensures docs == old(docs) || (name !in old(docs) && docs == old(docs)[name := d])
      ensures ok ==> name !in old(docs) && docs == old(docs)[name := d]
      ensures reliable && name !in old(docs) ==> ok
    {
      hide Consistent;
      var failed := Fails();
      var carriedOut := *;
      ok := !failed && name !in policies;
      if name !in policies && (!failed || carriedOut) {
        ConsistentWith(policies, docs, versioned, quota, name, Versions(1, d, map[], 2));
        NoneVersioned(policies, docs, versioned, quota, name);
        policies, docs := policies[name := Versions(1, d, map[], 2)], docs[name := d];
      }
      seen := seen + {docs};
    }

    /** Fails while the policy is attached to a role or has older versions. */
    method DeletePolicy(name: string) returns (ok: bool)
      requires Valid()
      modifies this`policies, this`docs, this`seen
      ensures Valid() && seen == old(seen) + {docs}
      ensures docs == old(docs) || docs == old(docs) - {name}
      ensures ok ==> docs == old(docs) - {name}
      ensures docs != old(docs) || ok ==> name !in versioned && forall a :: a in attached ==> a.policy != name
      ensures reliable && name !in versioned && (forall a :: a in attached ==> a.policy != name) ==> ok
    {
      hide Consistent;
      if name in policies {
        ConsistentAt(policies, docs, versioned, quota, name);
      } else {
        NoneVersioned(policies, docs, versioned, quota, name);
      }
      var free := (name in policies ==> policies[name].older.Keys == {}) && forall a :: a in attached ==>
        a.policy != name;
      var failed := Fails();
      var carriedOut := *;
      ok := !failed && free;
      if free && (!failed || carriedOut) {
        ConsistentWithout(policies, docs, versioned, quota, name);
        policies, docs := policies - {name}, docs - {name};
      }
      seen := seen + {docs};
    }

    method AttachRolePolicy(a: Attachment) returns (ok: bool)
      requires Valid()
      modifies this`attached
      ensures Valid()
      ensures old(attached) <= attached <= old(attached) + {a}
      ensures ok ==> a in attached
      ensures reliable && a.policy in docs ==> ok
    {
      var failed := Fails();
      var carriedOut := *;
      ok := !failed && a.policy in policies;
      if a.policy in policies && (!failed || carriedOut) {
        attached := attached + {a};
      }
    }

    method DetachRolePolicy(a: Attachment) returns (ok: bool)
      requires Valid()
      modifies this`attached
      ensures Valid()
      ensures attached == old(attached) || attached == old(attached) - {a}
      ensures ok ==> a in old(attached) && a !in attached
      ensures reliable && a in old(attached) ==> ok
    {
      var failed := Fails();
      var carriedOut := *;
      ok := !failed && a in attached;
      if a in attached && (!failed || carriedOut) {
        attached := attached - {a};
      }
    }

    // The client

    /** Every non-default version. AWS errors are swallowed, other errors end the
        loop. swept: every deletion succeeded. */
    method DeleteOldPolicyVersions(name: string) returns (ok: bool, ghost swept: bool)
      requires Valid() && name in policies
      modifies this`policies, this`versioned
      ensures Valid() && SameBut(name, old(versioned), versioned)
      ensures Only(name, old(policies), policies)
      ensures policies[name].Shrunk(old(policies[name]))
      ensures swept ==> policies[name].older == map[]
      ensures reliable ==> ok && swept
    {
      var failed := Fails();
      if failed {
        return false, false;
      }
      ok, swept := true, true;
      var left := policies[name].older.Keys;
      while left != {}
        invariant Valid() && SameBut(name, old(versioned), versioned)
        invariant Only(name, old(policies), policies)
        invariant policies[name].Shrunk(old(policies[name]))
        invariant swept ==> policies[name].older.Keys <= left
        invariant ok && (reliable ==> swept)
      {
        var version :| version in left;
        left := left - {version};
        var reply := DeletePolicyVersion(name, version);
        swept := swept && reply == Done;
        if reply == OtherError {
          return false, false;
        }
      }
    }

    /** Create a version; at the quota, delete the old ones and try once more. */
    method UpdatePolicy(name: string, d: D) returns (result: UpdateResult, ghost written: bool, ghost swept: bool)
      requires Valid() && name in policies
      modifies this`policies, this`docs, this`versioned, this`seen
      ensures Valid() && SameBut(name, old(versioned), versioned)
      ensures Only(name, old(policies), policies)
      ensures UpdateOf(old(policies[name]), policies[name], d, written)
      ensures docs == if written then old(docs)[name := d] else old(docs)
      ensures old(seen) <= seen <= old(seen) + {docs}
      ensures result == Written ==> written
      ensures result == QuotaFailure ==> quota < 2 || !swept
      ensures written ==> quota >= 2 && name in versioned
      ensures reliable ==> result == if quota >= 2 then Written else QuotaFailure
    {
      hide Consistent;
      ConsistentAt(policies, docs, versioned, quota, name);
      var reply;
      reply, written := CreatePolicyVersion(name, d);
      if reply == LimitExceeded {
        result, written, swept := UpdateAtQuota(name, d);
      } else {
        result, swept := if reply == Done then Written else OtherFailure, true;
      }
    }

    method UpdateAtQuota(name: string, d: D) returns (result: UpdateResult, ghost written: bool, ghost swept: bool)
      requires Valid() && name in policies
      modifies this`policies, this`docs, this`versioned, this`seen
      ensures Valid() && SameBut(name, old(versioned), versioned)
      ensures Only(name, old(policies), policies)
      ensures UpdateOf(old(policies[name]), policies[name], d, written)
      ensures docs == if written then old(docs)[name := d] else old(docs)
      ensures old(seen) <= seen <= old(seen) + {docs}
      ensures result == Written ==> written
      ensures result == QuotaFailure ==> quota < 2 || !swept
      ensures written ==> quota >= 2 && name in versioned
      ensures reliable ==> result == if quota >= 2 then Written else QuotaFailure
    {
      hide Consistent;
      ConsistentAt(policies, docs, versioned, quota, name);
      var ok;
      ok, swept := DeleteOldPolicyVersions(name);
      if !ok {
        return DeleteFailure, false, swept;
      }
      var reply;
      reply, written := CreatePolicyVersion(name, d);
      result := if reply == Done then Written else if reply == LimitExceeded then QuotaFailure else OtherFailure;
    }

    method AttachPolicy(a: Attachment) returns (ok: bool)
      requires Valid()
      modifies this`attached
      ensures Valid()
      ensures old(attached) <= attached <= old(attached) + {a}
      ensures ok ==> a in attached
      ensures reliable && a.policy in docs ==> ok
    {
      var failed := Fails();
      ok := !failed;
      if ok && a !in attached {
        ok := AttachRolePolicy(a);
      }
    }

    method DetachPolicy(name: string, roles: seq<string>) returns (ok: bool)
      requires Valid()
      modifies this`attached
      ensures Valid()
      ensures attached <= old(attached) && forall a :: a in old(attached) && a.policy != name ==> a in attached
      ensures ok ==> (AttachedTo(name, old(attached), roles) <==> AttachedTo(name, attached, []))
      ensures reliable && AttachedTo(name, old(attached), roles) ==> ok
    {
      for k := 0 to |roles|
        invariant Valid()
        invariant attached <= old(attached) && forall a :: a in old(attached) && a.policy != name ==> a in attached
        invariant AttachedTo(name, old(attached), roles) <==> AttachedTo(name, attached, roles[k..])
      {
        ghost var before := attached;
        ok := DetachRolePolicy(Attachment(roles[k], name));
        if !ok {
          return;
        }
        DetachedOne(name, before, attached, roles[k..]);
      }
      ok := true;
    }

    /** Detach from the given roles, then delete. */
    method DeleteAndDetachPolicy(name: string, roles: seq<string>) returns (ok: bool)
      requires Valid()
      modifies this`policies, this`attached, this`docs, this`seen
      ensures Valid()
      ensures docs == old(docs) || docs == old(docs) - {name}
      ensures ok ==> docs == old(docs) - {name}
      ensures old(seen) <= seen <= old(seen) + {docs}
      ensures attached <= old(attached) && forall a :: a in old(attached) && a.policy != name ==> a in attached
      ensures docs != old(docs) || ok ==> name !in versioned
      ensures ok && name in old(docs) ==> AttachedTo(name, old(attached), roles)
      ensures reliable && name !in versioned && AttachedTo(name, old(attached), roles) ==> ok
    {
      hide Consistent, AttachedTo;
      var failed := Fails();
      if failed {
        return false;
      }
      if name !in policies {
        NoneVersioned(policies, docs, versioned, quota, name);
        assert docs - {name} == docs;
        return true;
      }
      ok := DetachPolicy(name, roles);
      if ok {
        DetachedIff(name, attached);
        ok := DeletePolicy(name);
      }
    }

    /** Over every sequence of updates: the default is the last document written, and
        no update after it reports success. With a quota of two or more and every version
        deletion succeeding there is no quota failure; with a quota of one no update ever
        succeeds. */
    method Updates(name: string, documents: seq<D>) returns (results: seq<UpdateResult>, ghost last: int,
                   ghost swept: bool)
      requires Valid() && name in policies
      modifies this`policies, this`docs, this`versioned, this`seen
      ensures Valid() && name in policies && |results| == |documents| && -1 <= last < |documents|
      ensures policies[name].document == if last < 0 then old(policies[name].document) else documents[last]
      ensures forall k :: last < k < |results| ==> results[k] != Written
      ensures quota >= 2 && swept ==> QuotaFailure !in results
      ensures quota == 1 ==> last < 0
      ensures reliable && quota >= 2 ==> last == |documents| - 1 && forall r :: r in results ==> r == Written
    {
      hide Consistent, Versions.Valid;
      results, last, swept := [], -1, true;
      for k := 0 to |documents|
        invariant Valid() && name in policies && |results| == k && -1 <= last < k
        invariant policies[name].document == if last < 0 then old(policies[name].document) else documents[last]
        invariant forall i :: last < i < k ==> results[i] != Written
        invariant quota >= 2 && swept ==> QuotaFailure !in results
        invariant quota == 1 ==> last < 0
        invariant reliable && quota >= 2 ==> last == k - 1 && forall r :: r in results ==> r == Written
      {
        var result, written, clean := UpdatePolicy(name, documents[k]);
        results, swept := results + [result], swept && clean;
        last := if written then k else last;
      }
    }
  }
}
