/** The naming scheme of managed functions, <role>__<function>, and the filter
    that discovers them again (pkg/postgres/customrole_functions.go). */
module FunctionNames {

  const SEPARATOR := "__"

  predicate HasSeparator(s: string) {
    exists i {:trigger s[i]} :: 0 <= i && i + 1 < |s| && s[i] == '_' && s[i + 1] == '_'
  }

  function Prefix(role: string): string {
    role + SEPARATOR
  }

  /** managedFunctionName. */
  function ManagedName(role: string, func: string): string {
    Prefix(role) + func
  }

  /** The WHERE clause of managedFunctions: the prefix, and no separator after it. */
  predicate IsManaged(role: string, name: string) {
    Prefix(role) <= name && !HasSeparator(name[|Prefix(role)|..])
  }

  /** A separator splits the name in two. */
  lemma SeparatorIff(s: string)
    ensures HasSeparator(s) <==> exists a, b :: s == a + "__" + b
  {
    if i {:trigger s[i]} :| 0 <= i && i + 1 < |s| && s[i] == '_' && s[i + 1] == '_' {
      assert s == s[..i] + "__" + s[i + 2..];
    }
    if a, b :| s == a + "__" + b {
      assert s[|a|] == '_' && s[|a| + 1] == '_';
    }
  }

  /** The names that the filter finds are the role, a separator, and a name without one. */
  lemma ManagedIff(role: string, name: string)
    ensures IsManaged(role, name) <==>
      exists func :: name == role + "__" + func && !exists a, b :: func == a + "__" + b
  {
    if IsManaged(role, name) {
      var func := name[|role| + 2..];
      assert name == role + "__" + func;
      SeparatorIff(func);
    }
    if func :| name == role + "__" + func && !exists a, b :: func == a + "__" + b {
      assert name[|role| + 2..] == func;
      SeparatorIff(func);
    }
  }

  /** Every function a role creates is found again by its own filter, and the
      function name can be read back from it. */
  lemma CreatedIsFound(role: string, func: string)
    ensures IsManaged(role, ManagedName(role, func)) <==> !HasSeparator(func)
    ensures ManagedName(role, func)[|Prefix(role)|..] == func
  {
  }

  /** Two names that share a managed function are equal, or the longer one is the
      shorter one and a single underscore. */
  lemma SharedNameMeansUnderscore(short: string, long: string, name: string)
    requires IsManaged(short, name) && IsManaged(long, name) && |short| <= |long|
    ensures long == short || long == short + "_"
  {
    assert forall i :: 0 <= i < |short| ==> long[i] == Prefix(long)[i] == name[i] == Prefix(short)[i] == short[i];
    assert name[|long|] == Prefix(long)[|long|] && name[|long| + 1] == Prefix(long)[|long| + 1];
    if |long| >= |short| + 2 {
      SeparatorInTail(name, |short| + 2, |long|);
    } else if |long| == |short| + 1 {
      assert long[|short|] == Prefix(long)[|short|] == name[|short|] == Prefix(short)[|short|];
    }
  }

  lemma SeparatorInTail(name: string, from: nat, at: nat)
    requires from <= at && at + 1 < |name| && name[at] == '_' && name[at + 1] == '_'
    ensures HasSeparator(name[from..])
  {
  }

  /** The managed name sets of two roles intersect exactly when the role names are
      equal or differ by one trailing underscore. */
  lemma NameSetsIntersectIff(a: string, b: string)
    ensures (exists name :: IsManaged(a, name) && IsManaged(b, name)) <==>
            a == b || b == a + "_" || a == b + "_"
  {
    if name :| IsManaged(a, name) && IsManaged(b, name) {
      if |a| <= |b| {
        SharedNameMeansUnderscore(a, b, name);
      } else {
        SharedNameMeansUnderscore(b, a, name);
      }
    }
    if a == b {
      CreatedIsFound(a, "");
    } else if b == a + "_" {
      UnderscoreNeighbour(a, "");
    } else if a == b + "_" {
      UnderscoreNeighbour(b, "");
    }
  }

  /** Which functions of role + "_" the filter of role takes for its own: all but
      those whose own name starts with an underscore. */
  lemma UnderscoreNeighbour(role: string, func: string)
    requires !HasSeparator(func)
    ensures IsManaged(role + "_", ManagedName(role + "_", func))
    ensures IsManaged(role, ManagedName(role + "_", func)) <==> !("_" <= func)
  {
    CreatedIsFound(role + "_", func);
    var name := ManagedName(role + "_", func);
    var rest := name[|role| + 2..];
    assert name == role + "___" + func;
    assert Prefix(role) <= name;
    assert rest == "_" + func;
    if "_" <= func {
      assert rest[0] == '_' && rest[1] == '_';
    } else {
      forall i | 0 <= i && i + 1 < |rest| ensures !(rest[i] == '_' && rest[i + 1] == '_') {
        assert rest[i + 1] == func[i] && (i > 0 ==> rest[i] == func[i - 1]);
      }
    }
  }
}
