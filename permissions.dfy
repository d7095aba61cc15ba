/**
 * Permission codes, permission sets and the ALL / SOME permission test.
 */
module Permissions {
  import opened Base

  type PermCode = string

  const CompanyRead: PermCode := "companies:read"
  const CompanyWrite: PermCode := "companies:write"
  const UserRead: PermCode := "users:read"
  const UserWrite: PermCode := "users:write"

  /** A PermissionStrategy is any string; only "all" is told apart from the rest. */
  type Strategy = string

  const AllStrategy: Strategy := "all"
  const SomeStrategy: Strategy := "some"

  /** A `*PermissionSet`: nil, or a pointer to a set of codes. */
  datatype PermsRef = NilPerms | PermsPtr(codes: set<PermCode>)

  /** NewPermissionSet: the set of the given codes, duplicates collapsed. */
  function NewPermissionSet(perms: seq<PermCode>): (ps: set<PermCode>)
    ensures forall c :: c in ps <==> c in perms
    ensures |ps| <= |perms|
    decreases |perms|
  {
    if perms == [] then {}
    else
      var rest := NewPermissionSet(perms[1..]);
      assert forall c :: c in perms <==> c == perms[0] || c in perms[1..];
      {perms[0]} + rest
  }

  /** A non-empty intersection has a member, and a member of both makes it non-empty. */
  lemma NonEmptyIntersection(held: set<PermCode>, perms: seq<PermCode>)
    ensures |held * NewPermissionSet(perms)| > 0 <==> exists i :: 0 <= i < |perms| && perms[i] in held
  {
    var both := held * NewPermissionSet(perms);
    if |both| > 0 {
      var c :| c in both;
      var i :| 0 <= i < |perms| && perms[i] == c;
    }
    if exists i :: 0 <= i < |perms| && perms[i] in held {
      var i :| 0 <= i < |perms| && perms[i] in held;
      assert perms[i] in both;
    }
  }

  /**
   * HasPerms. Under the "all" strategy: every required code is held (the required
   * set is a subset of the held one). Under any other strategy: some required code
   * is held (the intersection is non-empty). The set library panics when the held
   * set is a nil pointer; `None` is that panic.
   */
  function HasPerms(ps: PermsRef, strategy: Strategy, perms: seq<PermCode>): (r: Option<bool>)
    ensures r.None? <==> ps.NilPerms?
    ensures ps.PermsPtr? && strategy == AllStrategy ==>
              r == Some(forall i :: 0 <= i < |perms| ==> perms[i] in ps.codes)
    ensures ps.PermsPtr? && strategy != AllStrategy ==>
              r == Some(exists i :: 0 <= i < |perms| && perms[i] in ps.codes)
  {
    if ps.NilPerms? then None
    else if strategy == AllStrategy then Some(NewPermissionSet(perms) <= ps.codes)
    else
      NonEmptyIntersection(ps.codes, perms);
      Some(|ps.codes * NewPermissionSet(perms)| > 0)
  }

  /** An empty requirement is met under "all" and never under any other strategy. */
  lemma EmptyRequirement(codes: set<PermCode>, strategy: Strategy)
    ensures HasPerms(PermsPtr(codes), AllStrategy, []) == Some(true)
    ensures strategy != AllStrategy ==> HasPerms(PermsPtr(codes), strategy, []) == Some(false)
  {
  }

  /** For a non-empty requirement, holding all the codes means holding some of them. */
  lemma AllImpliesSome(codes: set<PermCode>, strategy: Strategy, perms: seq<PermCode>)
    requires perms != [] && strategy != AllStrategy
    ensures HasPerms(PermsPtr(codes), AllStrategy, perms) == Some(true) ==>
              HasPerms(PermsPtr(codes), strategy, perms) == Some(true)
  {
    if HasPerms(PermsPtr(codes), AllStrategy, perms) == Some(true) {
      assert perms[0] in codes;
    }
  }

  /**
   * The answer depends only on which codes are required, not on their order or
   * repetition, and a held set built by NewPermissionSet answers as the set of its codes.
   */
  lemma {:induction false} OrderFree(ps: PermsRef, strategy: Strategy, p1: seq<PermCode>, p2: seq<PermCode>)
    requires NewPermissionSet(p1) == NewPermissionSet(p2)
    ensures HasPerms(ps, strategy, p1) == HasPerms(ps, strategy, p2)
  {
    if ps.PermsPtr? {
      if strategy == AllStrategy {
        assert (forall i :: 0 <= i < |p1| ==> p1[i] in ps.codes) <==> (forall i :: 0 <= i < |p2| ==> p2[i] in ps.codes) by {
          if forall i :: 0 <= i < |p1| ==> p1[i] in ps.codes {
            forall j | 0 <= j < |p2| ensures p2[j] in ps.codes {
              assert p2[j] in NewPermissionSet(p1);
            }
          }
          if forall i :: 0 <= i < |p2| ==> p2[i] in ps.codes {
            forall j | 0 <= j < |p1| ensures p1[j] in ps.codes {
              assert p1[j] in NewPermissionSet(p2);
            }
          }
        }
      } else {
        assert (exists i :: 0 <= i < |p1| && p1[i] in ps.codes) <==> (exists i :: 0 <= i < |p2| && p2[i] in ps.codes) by {
          if exists i :: 0 <= i < |p1| && p1[i] in ps.codes {
            var i :| 0 <= i < |p1| && p1[i] in ps.codes;
            assert p1[i] in NewPermissionSet(p2);
          }
          if exists i :: 0 <= i < |p2| && p2[i] in ps.codes {
            var i :| 0 <= i < |p2| && p2[i] in ps.codes;
            assert p2[i] in NewPermissionSet(p1);
          }
        }
      }
    }
  }
}
