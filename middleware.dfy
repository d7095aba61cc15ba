/**
 * The decisions of the HTTP middleware: authenticate binds who is calling from
 * the Authorization header (the Bearer scheme of section 2.1 of RFC 6750, matched
 * more strictly), requireAuthorization and requirePermissions are the 401/403
 * gate, rateLimit turns away clients over their rate, and recoverPanic turns a
 * panic into a 500. The token, user and permission stores are parameters.
 */
module Middleware {
  import opened Base
  import opened Text
  import opened GoErrors
  import opened Validation
  import opened Users
  import opened Permissions
  import opened RequestContext
  import opened Responses
  import opened Environments
  import Tokens
  import TypesErrors
  import Clients

  /** What a middleware does with a request: hand it on, answer it, or panic. */
  datatype Outcome = Next(request: Request) | Respond(response: Response) | Panic(message: string)

  /** What a store lookup returns: a value, or an error. */
  datatype Fetched<T> = Fetched(value: T) | FetchError(err: Error)

  /** Token.GetOne(plaintext, scope). */
  type TokenStore = (string, string) -> Fetched<Tokens.Token>
  /** User.GetOne(id); a found user comes back as a pointer to it. */
  type UserStore = int -> Fetched<User>
  /** Permission.GetForUser(id); found permissions come back as a set. */
  type PermissionStore = int -> Fetched<set<PermCode>>

  /** The header authenticate adds to every response, whatever it decides. */
  const VaryAuthorization: Header := Header("Vary", "Authorization")

  /** authenticate's decision, with the headers it set on the response first. */
  datatype Authenticated = Authenticated(headers: seq<Header>, outcome: Outcome)

  /**
   * The bearer value of an Authorization header: split on single spaces, there
   * must be exactly two parts and the first must be "Bearer", case and all.
   */
  function BearerToken(header: string): (t: Option<string>)
    ensures t.Some? ==> ' ' !in t.value
  {
    var parts := Split(header, ' ');
    if |parts| == 2 && parts[0] == "Bearer" then Some(parts[1]) else None
  }

  /**
   * The header form authenticate accepts is exactly `Bearer` and the value
   * after one space, with no further space in the value.
   */
  lemma {:induction false} BearerTokenExactly(header: string, t: string)
    ensures BearerToken(header) == Some(t) <==> header == "Bearer " + t && ' ' !in t
  {
    if BearerToken(header) == Some(t) {
      var parts := Split(header, ' ');
      JoinSplit(header, ' ');
      assert parts == ["Bearer", t];
      assert Join(parts, [' ']) == "Bearer" + [' '] + t;
    }
    if header == "Bearer " + t && ' ' !in t {
      var parts := ["Bearer", t];
      assert Join(parts, [' ']) == header;
      SplitJoin(parts, ' ');
    }
  }

  lemma PrefixCancel(p: string, a: string, b: string)
    requires p + a == p + b
    ensures a == b
  {
    assert a == (p + a)[|p|..];
    assert b == (p + b)[|p|..];
  }

  /** The scheme name is matched case-sensitively and the value cannot follow two spaces. */
  lemma StricterThanRfc(t: string)
    ensures BearerToken("bearer " + t) == None
    ensures BearerToken("Bearer  " + t) == None
  {
    var b := BearerToken("bearer " + t);
    if b.Some? {
      BearerTokenExactly("bearer " + t, b.value);
    }
    var h := "Bearer  " + t;
    assert h == "Bearer " + (" " + t) && ' ' in " " + t;
    BearerTokenExactly(h, " " + t);
    var c := BearerToken(h);
    if c.Some? {
      BearerTokenExactly(h, c.value);
      PrefixCancel("Bearer ", c.value, " " + t);
    }
  }

  /** A fresh validator given PlainToken.Validate stays valid. */
  predicate PlainTokenValid(pt: string) {
    Apply(map[], Tokens.PlainTokenRules(pt)) == map[]
  }

  /** The presented token passes exactly when it is 26 bytes long. */
  lemma PlainTokenValidIff(pt: string)
    ensures PlainTokenValid(pt) <==> ByteLen(pt) == 26
  {
    ApplyEmptyValid(Tokens.PlainTokenRules(pt));
    if ByteLen(pt) == 26 {
      assert pt != "";
    }
  }

  /** The 401 authenticate answers with for any token it does not accept. */
  function InvalidAuthToken(): (resp: Response)
    ensures resp.pkg.statusCode == StatusUnauthorized
    ensures Header("WWW-Authenticate", "Bearer") in resp.headers
  {
    InvalidTokenResponse(Tokens.ScopeAuthentication)
  }

  /**
   * The request with the user bound and the user's permissions looked up and
   * bound. It goes on exactly when both lookups succeed; a user that is gone is
   * a 404, and any other failure of either lookup a 500 carrying the error.
   */
  function BindUser(r: Request, userId: int, users: UserStore, perms: PermissionStore): (o: Outcome)
    ensures o.Next? <==> users(userId).Fetched? && perms(userId).Fetched?
    ensures o.Next? ==> o.request == SetPerms(SetUser(r, Ptr(users(userId).value)), PermsPtr(perms(userId).value))
    ensures users(userId).FetchError? && Is(users(userId).err, TypesErrors.ErrRecordNotFound) ==>
              o == Respond(Bare(NotFoundResponse([userId])))
    ensures users(userId).FetchError? && !Is(users(userId).err, TypesErrors.ErrRecordNotFound) ==>
              o.Respond? && o.response.pkg.statusCode == StatusInternalServerError
              && o.response.pkg.error == Some(users(userId).err)
              && o.response.pkg.message == "Couldn't find user for token"
    ensures users(userId).Fetched? && perms(userId).FetchError? ==>
              o.Respond? && o.response.pkg.statusCode == StatusInternalServerError
              && o.response.pkg.error == Some(perms(userId).err)
              && o.response.pkg.message == "Couldn't retrieve user permissions"
  {
    match users(userId)
    case FetchError(err) =>
      if Is(err, TypesErrors.ErrRecordNotFound) then Respond(Bare(NotFoundResponse([userId])))
      else Respond(Bare(ServerErrorResponse(err, ["Couldn't find user for token"])))
    case Fetched(u) =>
      var r1 := SetUser(r, Ptr(u));
      match perms(userId)
      case FetchError(err) => Respond(Bare(ServerErrorResponse(err, ["Couldn't retrieve user permissions"])))
      case Fetched(codes) => Next(SetPerms(r1, PermsPtr(codes)))
  }

  /** authenticate: each check answers the request and stops, or passes it down the chain. */
  function Authenticate(r: Request, tokens: TokenStore, users: UserStore, perms: PermissionStore): (a: Authenticated)
    ensures a.headers == [VaryAuthorization]
    ensures r.authorization == "" ==> a.outcome == Next(SetUser(r, AnonymousUser))
  {
    var outcome :=
      if r.authorization == "" then Next(SetUser(r, AnonymousUser))
      else match BearerToken(r.authorization)
        case None => Respond(InvalidAuthToken())
        case Some(pt) =>
          if !PlainTokenValid(pt) then Respond(InvalidAuthToken())
          else match tokens(pt, Tokens.ScopeAuthentication)
            case FetchError(err) =>
              if Is(err, TypesErrors.ErrRecordNotFound) then Respond(InvalidAuthToken())
              else Respond(Bare(ServerErrorResponse(err, ["Couldn't parse authentication token"])))
            case Fetched(t) =>
              if t.isAdmin then Next(SetAdmin(r))
              else BindUser(r, t.userId, users, perms);
    Authenticated([VaryAuthorization], outcome)
  }

  /** A header that is not `Bearer <value>` gets the 401 challenge, and nothing is looked up. */
  lemma MalformedHeader(r: Request, tokens: TokenStore, users: UserStore, perms: PermissionStore)
    requires r.authorization != "" && BearerToken(r.authorization).None?
    ensures Authenticate(r, tokens, users, perms).outcome == Respond(InvalidAuthToken())
  {
  }

  /**
   * A bearer value that is not 26 bytes long is turned away with the 401 before
   * any store is asked: the answer is the same whatever the stores hold.
   */
  lemma BadTokenBeforeLookup(r: Request, pt: string,
                             t1: TokenStore, u1: UserStore, p1: PermissionStore,
                             t2: TokenStore, u2: UserStore, p2: PermissionStore)
    requires BearerToken(r.authorization) == Some(pt) && ByteLen(pt) != 26
    ensures Authenticate(r, t1, u1, p1).outcome == Respond(InvalidAuthToken())
    ensures Authenticate(r, t1, u1, p1) == Authenticate(r, t2, u2, p2)
  {
    PlainTokenValidIff(pt);
  }

  /** An unknown token gets the 401; any other failure of the token lookup is a 500. */
  lemma TokenLookupFails(r: Request, pt: string, err: Error, tokens: TokenStore, users: UserStore, perms: PermissionStore)
    requires BearerToken(r.authorization) == Some(pt) && ByteLen(pt) == 26
    requires tokens(pt, Tokens.ScopeAuthentication) == FetchError(err)
    ensures var o := Authenticate(r, tokens, users, perms).outcome;
            && o.Respond?
            && (Is(err, TypesErrors.ErrRecordNotFound) ==> o.response == InvalidAuthToken())
            && (!Is(err, TypesErrors.ErrRecordNotFound) ==>
                  o.response.pkg.statusCode == StatusInternalServerError
                  && o.response.pkg.message == "Couldn't parse authentication token")
  {
    PlainTokenValidIff(pt);
  }

  /**
   * An admin token binds admin and asks neither the user nor the permission store;
   * a user token binds the user and the user's permissions; a user that is
   * gone gets a 404 naming the token's user id, and any other failure of the
   * user or the permission lookup is a 500 with its own message.
   */
  lemma TokenFound(r: Request, pt: string, t: Tokens.Token, tokens: TokenStore,
                   u1: UserStore, p1: PermissionStore, u2: UserStore, p2: PermissionStore)
    requires BearerToken(r.authorization) == Some(pt) && ByteLen(pt) == 26
    requires tokens(pt, Tokens.ScopeAuthentication) == Fetched(t)
    ensures t.isAdmin ==> Authenticate(r, tokens, u1, p1).outcome == Next(SetAdmin(r)) == Authenticate(r, tokens, u2, p2).outcome
    ensures !t.isAdmin && u1(t.userId).Fetched? && p1(t.userId).Fetched? ==>
              Authenticate(r, tokens, u1, p1).outcome
                == Next(SetPerms(SetUser(r, Ptr(u1(t.userId).value)), PermsPtr(p1(t.userId).value)))
    ensures !t.isAdmin && u1(t.userId).FetchError? && Is(u1(t.userId).err, TypesErrors.ErrRecordNotFound) ==>
              Authenticate(r, tokens, u1, p1).outcome == Respond(Bare(NotFoundResponse([t.userId])))
    ensures !t.isAdmin && u1(t.userId).FetchError? && !Is(u1(t.userId).err, TypesErrors.ErrRecordNotFound) ==>
              var o := Authenticate(r, tokens, u1, p1).outcome;
              o.Respond? && o.response.pkg.statusCode == StatusInternalServerError
              && o.response.pkg.message == "Couldn't find user for token"
    ensures !t.isAdmin && u1(t.userId).Fetched? && p1(t.userId).FetchError? ==>
              var o := Authenticate(r, tokens, u1, p1).outcome;
              o.Respond? && o.response.pkg.statusCode == StatusInternalServerError
              && o.response.pkg.message == "Couldn't retrieve user permissions"
  {
    PlainTokenValidIff(pt);
  }

  /**
   * What authenticate hands on when the header is set: admin bound on the request,
   * or the token's user and that user's permissions bound one after the other.
   */
  lemma {:induction false} AuthenticateNext(r: Request, tokens: TokenStore, users: UserStore, perms: PermissionStore)
    requires r.authorization != "" && Authenticate(r, tokens, users, perms).outcome.Next?
    ensures BearerToken(r.authorization).Some?
    ensures var t := tokens(BearerToken(r.authorization).value, Tokens.ScopeAuthentication);
            && t.Fetched?
            && (t.value.isAdmin ==> Authenticate(r, tokens, users, perms).outcome.request == SetAdmin(r))
            && (!t.value.isAdmin ==>
                  && users(t.value.userId).Fetched? && perms(t.value.userId).Fetched?
                  && Authenticate(r, tokens, users, perms).outcome.request
                       == SetPerms(SetUser(r, Ptr(users(t.value.userId).value)), PermsPtr(perms(t.value.userId).value)))
  {
    var pt := BearerToken(r.authorization).value;
    var t := tokens(pt, Tokens.ScopeAuthentication).value;
    if !t.isAdmin {
      var b := BindUser(r, t.userId, users, perms);
      assert Authenticate(r, tokens, users, perms).outcome == b;
    }
  }

  /**
   * On a request with nothing bound yet, whatever authenticate hands on carries
   * admin, or the anonymous user, or a user together with that user's permissions.
   */
  lemma {:induction false} AuthenticateBinds(auth: string, tokens: TokenStore, users: UserStore, perms: PermissionStore)
    ensures var o := Authenticate(Request(auth, []), tokens, users, perms).outcome;
            o.Next? ==>
              || GetAdmin(o.request, [true]) == Got(true)
              || (GetUser(o.request, [true]) == Got(AnonymousUser) && GetAdmin(o.request, [true]) == Got(false))
              || (GetUser(o.request, [true]).value.Ptr? && GetPerms(o.request, [true]).value.PermsPtr?
                  && GetAdmin(o.request, [true]) == Got(false))
  {
    var r := Request(auth, []);
    var o := Authenticate(r, tokens, users, perms).outcome;
    if o.Next? {
      if auth == "" {
        LookupPush([], UserBinding(AnonymousUser), UserKey);
        LookupPush([], UserBinding(AnonymousUser), AdminKey);
      } else {
        AuthenticateNext(r, tokens, users, perms);
        var t := tokens(BearerToken(auth).value, Tokens.ScopeAuthentication).value;
        if t.isAdmin {
          assert o.request == SetAdmin(r);
          GetAfterSet(r, NilUser, NilPerms, [true]);
        } else {
          var u := users(t.userId).value;
          var codes := perms(t.userId).value;
          var r1 := SetUser(r, Ptr(u));
          assert o.request == SetPerms(r1, PermsPtr(codes));
          GetAfterSet(r1, Ptr(u), PermsPtr(codes), [true]);
          SetLeavesOthers(r1, Ptr(u), PermsPtr(codes), [true]);
          GetAfterSet(r, Ptr(u), NilPerms, [true]);
          SetLeavesOthers(r, Ptr(u), PermsPtr(codes), [true]);
        }
      }
    }
  }

  /**
   * requireAuthorization: admin passes; otherwise the bound user must not be the
   * anonymous one. A request with no user bound at all passes too, since a nil
   * user is not the AnonymousUser pointer.
   */
  function RequireAuthorization(r: Request): (o: Outcome)
    ensures o.Next? || o == Respond(Bare(UnauthorizedResponse()))
    ensures o.Next? ==> o.request == r
    ensures o.Respond? <==> GetAdmin(r, [true]) == Got(false) && GetUser(r, [true]) == Got(AnonymousUser)
  {
    var isAdmin := GetAdmin(r, [true]).value;
    if !isAdmin && IsAnonymous(GetUser(r, [true]).value) then Respond(Bare(UnauthorizedResponse()))
    else Next(r)
  }

  /** The message of the runtime panic a nil set causes. */
  const NilDereference: string := "runtime error: invalid memory address or nil pointer dereference"

  /**
   * requirePermissions: the authorization gate first, then, for a non-empty
   * requirement and a caller who is not admin, the permission test on the bound
   * set; a failed test is a 403.
   */
  function RequirePermissions(r: Request, strategy: Strategy, perms: seq<PermCode>): (o: Outcome)
    ensures o.Next? ==> o.request == r
  {
    match RequireAuthorization(r)
    case Next(r1) =>
      if |perms| > 0 && !GetAdmin(r1, [true]).value then
        match HasPerms(GetPerms(r1, [true]).value, strategy, perms)
        case None => Panic(NilDereference)
        case Some(ok) => if ok then Next(r1) else Respond(Bare(ForbiddenResponse()))
      else Next(r1)
    case other => other
  }

  /**
   * The 401/403 gate: the anonymous caller gets 401 before any permission is
   * considered; an empty requirement and an admin caller pass it; a user with
   * bound permissions gets 403 exactly when the permission test fails and goes
   * on exactly when it succeeds; a user with no permission set bound panics.
   */
  lemma {:induction false} PermissionGate(r: Request, strategy: Strategy, perms: seq<PermCode>)
    ensures GetAdmin(r, [true]) == Got(false) && GetUser(r, [true]) == Got(AnonymousUser) ==>
              RequirePermissions(r, strategy, perms) == Respond(Bare(UnauthorizedResponse()))
    ensures GetAdmin(r, [true]) == Got(true) ==> RequirePermissions(r, strategy, perms) == Next(r)
    ensures perms == [] && RequireAuthorization(r).Next? ==> RequirePermissions(r, strategy, perms) == Next(r)
    ensures perms != [] && GetAdmin(r, [true]) == Got(false) && !IsAnonymous(GetUser(r, [true]).value)
            && GetPerms(r, [true]).value.PermsPtr? ==>
              (RequirePermissions(r, strategy, perms) == Respond(Bare(ForbiddenResponse()))
               <==> HasPerms(GetPerms(r, [true]).value, strategy, perms) == Some(false))
    ensures perms != [] && GetAdmin(r, [true]) == Got(false) && !IsAnonymous(GetUser(r, [true]).value)
            && GetPerms(r, [true]).value.PermsPtr? ==>
              (RequirePermissions(r, strategy, perms) == Next(r)
               <==> HasPerms(GetPerms(r, [true]).value, strategy, perms) == Some(true))
    ensures perms != [] && GetAdmin(r, [true]) == Got(false) && !IsAnonymous(GetUser(r, [true]).value)
            && GetPerms(r, [true]).value.NilPerms? ==>
              RequirePermissions(r, strategy, perms) == Panic(NilDereference)
  {
  }

  /**
   * Behind authenticate the gate never panics: whatever authenticate hands on
   * has admin, the anonymous user, or a user with bound permissions.
   */
  lemma {:induction false} GateAfterAuthenticate(auth: string, tokens: TokenStore, users: UserStore, perms: PermissionStore,
                                                 strategy: Strategy, required: seq<PermCode>)
    requires Authenticate(Request(auth, []), tokens, users, perms).outcome.Next?
    ensures !RequirePermissions(Authenticate(Request(auth, []), tokens, users, perms).outcome.request, strategy, required).Panic?
  {
    AuthenticateBinds(auth, tokens, users, perms);
  }

  /** The 500 recoverPanic answers with, and the `Connection: close` header it sets. */
  function PanicResponse(message: string): (resp: Response)
    ensures resp.pkg.statusCode == StatusInternalServerError
    ensures resp.headers == [Header("Connection", "close")]
  {
    Response([Header("Connection", "close")],
             ErrorPackage(Some(Leaf("fmt.Errorf", message)), "An unexpected error occurred", "PANIC RECOVER", NoDetails,
                          StatusInternalServerError))
  }

  /** recoverPanic: a panic becomes the 500; anything else is what the handler did. */
  function RecoverPanic(o: Outcome): (o': Outcome)
    ensures !o'.Panic?
    ensures o.Panic? ==> o' == Respond(PanicResponse(o.message))
    ensures !o.Panic? ==> o' == o
  {
    if o.Panic? then Respond(PanicResponse(o.message)) else o
  }

  /** rateLimit installs its registry and sweep only outside development. */
  predicate RateLimitInstalled(env: Environment) {
    !IsDev(env)
  }

  /**
   * rateLimit for one request. In development the handler is next itself and
   * nothing is recorded; otherwise, with limiting enabled, the client's bucket
   * decides and a denied client gets 429.
   */
  method RateLimit(env: Environment, limitEnabled: bool, clients: Clients.ClientMap, ip: string, now: int, r: Request)
    returns (o: Outcome)
    modifies clients
    ensures !RateLimitInstalled(env) || !limitEnabled ==> o == Next(r) && clients.clients == old(clients.clients)
    ensures RateLimitInstalled(env) && limitEnabled ==>
              var (ok, m) := Clients.AllowedStep(old(clients.clients), ip, now, clients.limitRPS, clients.limitBurst);
              && clients.clients == m
              && o == (if ok then Next(r) else Respond(Bare(RateLimitExceededResponse())))
  {
    if !RateLimitInstalled(env) || !limitEnabled {
      return Next(r);
    }
    var allowed := clients.IsIpAllowed(ip, now);
    if !allowed {
      return Respond(Bare(RateLimitExceededResponse()));
    }
    return Next(r);
  }
}
