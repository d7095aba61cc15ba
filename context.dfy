/**
 * The values the middleware binds to a request's context: the user, the user's
 * permissions and the admin flag, each under its own context key.
 */
module RequestContext {
  import opened Base
  import opened Users
  import opened Permissions

  /** The three context keys; distinct constants, so distinct keys. */
  datatype ContextKey = UserKey | PermsKey | AdminKey

  /** One context.WithValue layer. */
  datatype Binding = UserBinding(user: UserPtr) | PermsBinding(perms: PermsRef) | AdminBinding(admin: bool)

  function KeyOf(b: Binding): ContextKey {
    match b
    case UserBinding(_) => UserKey
    case PermsBinding(_) => PermsKey
    case AdminBinding(_) => AdminKey
  }

  /**
   * A request as far as the middleware sees it: the Authorization header value
   * (`""` when absent) and the context's layers, innermost first.
   */
  datatype Request = Request(authorization: string, bindings: seq<Binding>)

  /** What a getter ends in: a value, or a panic with its message. */
  datatype Got<T> = Got(value: T) | GetPanic(message: string)

  /** ctx.Value(key): the outermost (most recent) layer with that key, if any. */
  function Lookup(bs: seq<Binding>, key: ContextKey): (r: Option<Binding>)
    ensures r.Some? ==> KeyOf(r.value) == key && r.value in bs
    ensures r.None? <==> forall i :: 0 <= i < |bs| ==> KeyOf(bs[i]) != key
    decreases |bs|
  {
    if bs == [] then None
    else if KeyOf(bs[|bs| - 1]) == key then Some(bs[|bs| - 1])
    else
      var r := Lookup(bs[..|bs| - 1], key);
      assert forall i :: 0 <= i < |bs| - 1 ==> bs[..|bs| - 1][i] == bs[i];
      r
  }

  /** A new layer answers for its own key and hides nothing else. */
  lemma {:induction false} LookupPush(bs: seq<Binding>, b: Binding, key: ContextKey)
    ensures Lookup(bs + [b], key) == if KeyOf(b) == key then Some(b) else Lookup(bs, key)
  {
    assert (bs + [b])[..|bs + [b]| - 1] == bs;
  }

  /** context.WithValue for the user key: that key now answers the new value, the others as before. */
  function SetUser(r: Request, u: UserPtr): (r': Request)
    ensures r'.authorization == r.authorization
    ensures Lookup(r'.bindings, UserKey) == Some(UserBinding(u))
    ensures forall k :: k != UserKey ==> Lookup(r'.bindings, k) == Lookup(r.bindings, k)
  {
    var bs := r.bindings + [UserBinding(u)];
    forall k ensures Lookup(bs, k) == if k == UserKey then Some(UserBinding(u)) else Lookup(r.bindings, k) {
      LookupPush(r.bindings, UserBinding(u), k);
    }
    Request(r.authorization, bs)
  }

  /** context.WithValue for the perms key: that key now answers the new value, the others as before. */
  function SetPerms(r: Request, ps: PermsRef): (r': Request)
    ensures r'.authorization == r.authorization
    ensures Lookup(r'.bindings, PermsKey) == Some(PermsBinding(ps))
    ensures forall k :: k != PermsKey ==> Lookup(r'.bindings, k) == Lookup(r.bindings, k)
  {
    var bs := r.bindings + [PermsBinding(ps)];
    forall k ensures Lookup(bs, k) == if k == PermsKey then Some(PermsBinding(ps)) else Lookup(r.bindings, k) {
      LookupPush(r.bindings, PermsBinding(ps), k);
    }
    Request(r.authorization, bs)
  }

  /** context.WithValue for the admin key: that key now answers true, the others as before. */
  function SetAdmin(r: Request): (r': Request)
    ensures r'.authorization == r.authorization
    ensures Lookup(r'.bindings, AdminKey) == Some(AdminBinding(true))
    ensures forall k :: k != AdminKey ==> Lookup(r'.bindings, k) == Lookup(r.bindings, k)
  {
    var bs := r.bindings + [AdminBinding(true)];
    forall k ensures Lookup(bs, k) == if k == AdminKey then Some(AdminBinding(true)) else Lookup(r.bindings, k) {
      LookupPush(r.bindings, AdminBinding(true), k);
    }
    Request(r.authorization, bs)
  }

  /** The variadic `dontPanic ...bool`: set when its first element is true. */
  predicate DontPanic(dontPanic: seq<bool>) {
    |dontPanic| > 0 && dontPanic[0]
  }

  function GetUser(r: Request, dontPanic: seq<bool>): (g: Got<UserPtr>)
    ensures g.GetPanic? <==> Lookup(r.bindings, UserKey).None? && !DontPanic(dontPanic)
    ensures Lookup(r.bindings, UserKey).None? && DontPanic(dontPanic) ==> g == Got(NilUser)
  {
    match Lookup(r.bindings, UserKey)
    case Some(UserBinding(u)) => Got(u)
    case _ => if DontPanic(dontPanic) then Got(NilUser) else GetPanic("could not find user in request context")
  }

  function GetPerms(r: Request, dontPanic: seq<bool>): (g: Got<PermsRef>)
    ensures g.GetPanic? <==> Lookup(r.bindings, PermsKey).None? && !DontPanic(dontPanic)
    ensures Lookup(r.bindings, PermsKey).None? && DontPanic(dontPanic) ==> g == Got(NilPerms)
  {
    match Lookup(r.bindings, PermsKey)
    case Some(PermsBinding(ps)) => Got(ps)
    case _ => if DontPanic(dontPanic) then Got(NilPerms) else GetPanic("could not find permissions in request context")
  }

  function GetAdmin(r: Request, dontPanic: seq<bool>): (g: Got<bool>)
    ensures g.GetPanic? <==> Lookup(r.bindings, AdminKey).None? && !DontPanic(dontPanic)
    ensures Lookup(r.bindings, AdminKey).None? && DontPanic(dontPanic) ==> g == Got(false)
  {
    match Lookup(r.bindings, AdminKey)
    case Some(AdminBinding(a)) => Got(a)
    case _ => if DontPanic(dontPanic) then Got(false) else GetPanic("could not find admin in request context")
  }

  /** Getting what was just set gives it back, with or without dontPanic. */
  lemma GetAfterSet(r: Request, u: UserPtr, ps: PermsRef, dontPanic: seq<bool>)
    ensures GetUser(SetUser(r, u), dontPanic) == Got(u)
    ensures GetPerms(SetPerms(r, ps), dontPanic) == Got(ps)
    ensures GetAdmin(SetAdmin(r), dontPanic) == Got(true)
  {
  }

  /** Setting one key leaves what the other two getters return unchanged. */
  lemma SetLeavesOthers(r: Request, u: UserPtr, ps: PermsRef, dontPanic: seq<bool>)
    ensures GetPerms(SetUser(r, u), dontPanic) == GetPerms(r, dontPanic)
    ensures GetAdmin(SetUser(r, u), dontPanic) == GetAdmin(r, dontPanic)
    ensures GetUser(SetPerms(r, ps), dontPanic) == GetUser(r, dontPanic)
    ensures GetAdmin(SetPerms(r, ps), dontPanic) == GetAdmin(r, dontPanic)
    ensures GetUser(SetAdmin(r), dontPanic) == GetUser(r, dontPanic)
    ensures GetPerms(SetAdmin(r), dontPanic) == GetPerms(r, dontPanic)
  {
    assert Lookup(SetUser(r, u).bindings, PermsKey) == Lookup(r.bindings, PermsKey);
    assert Lookup(SetUser(r, u).bindings, AdminKey) == Lookup(r.bindings, AdminKey);
    assert Lookup(SetPerms(r, ps).bindings, UserKey) == Lookup(r.bindings, UserKey);
    assert Lookup(SetPerms(r, ps).bindings, AdminKey) == Lookup(r.bindings, AdminKey);
    assert Lookup(SetAdmin(r).bindings, UserKey) == Lookup(r.bindings, UserKey);
    assert Lookup(SetAdmin(r).bindings, PermsKey) == Lookup(r.bindings, PermsKey);
  }

  /** On a request with nothing bound, each getter panics unless dontPanic is set. */
  lemma EmptyContext(auth: string, dontPanic: seq<bool>)
    ensures DontPanic(dontPanic) ==>
              GetUser(Request(auth, []), dontPanic) == Got(NilUser)
              && GetPerms(Request(auth, []), dontPanic) == Got(NilPerms)
              && GetAdmin(Request(auth, []), dontPanic) == Got(false)
    ensures !DontPanic(dontPanic) ==>
              GetUser(Request(auth, []), dontPanic) == GetPanic("could not find user in request context")
              && GetPerms(Request(auth, []), dontPanic) == GetPanic("could not find permissions in request context")
              && GetAdmin(Request(auth, []), dontPanic) == GetPanic("could not find admin in request context")
  {
  }
}
