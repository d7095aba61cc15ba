/**
 * The users table and the statements UserModel sends it: the login lookup,
 * the token lookup, the paged list, the insert, the full and the partial
 * update with their version check, and the delete. The table is a map from id
 * to row; the tokens table is the map from digest to token that the lookup
 * joins. An error the database reports for a statement is the parameter
 * `fault`, the regular-expression engine is `re`, the bcrypt comparison is
 * `compare`, and the current instant is `now`. This package maps errors with
 * the `types` MapError, which hands back an error no key matches unchanged.
 */
module UserStore {
  import opened Base
  import opened GoErrors
  import opened SqlText
  import opened Filters
  import opened Users
  import opened UpdateQuery
  import TypesErrors
  import Tokens
  import Passwords
  import ListQuery
  import ListMeta
  import Text

  /**
   * The regular expression a driver error's text is matched with to spot a
   * unique-key violation. It is valid RE2 syntax, so the statements that map it
   * (Insert and Update) take an engine that compiles it.
   */
  const DuplicateKeyPattern: string := ".*duplicate key.*"

  /** The ErrorMap of each statement, in the order the range loop visits it. */
  const NotFoundMap: seq<Entry> := [Entry(ErrorKey(ErrNoRows), TypesErrors.ErrRecordNotFound)]
  const InsertMap: seq<Entry> := [Entry(PatternKey(DuplicateKeyPattern), TypesErrors.ErrDuplicateKey)]
  const UpdateMap: seq<Entry> :=
    [Entry(ErrorKey(ErrNoRows), TypesErrors.ErrEditConflict), Entry(PatternKey(DuplicateKeyPattern), TypesErrors.ErrDuplicateKey)]
  const PartialMap: seq<Entry> := [Entry(ErrorKey(ErrNoRows), TypesErrors.ErrEditConflict)]

  /** The `types` MapError over a table of error and string keys, which returns rather than panics. */
  function MapErr(err: Option<Error>, table: seq<Entry>, re: Matcher): (r: Option<Error>)
    requires UsableKeys(table, re)
    ensures r.None? <==> err.None?
  {
    TypesErrors.MapError(err, table, re).err
  }

  /** What Scan reports for a statement returning at most one row: the database's error, no row, or nil. */
  function ScanError(found: bool, fault: Option<Error>): Option<Error> {
    if fault.Some? then fault else if found then None else Some(ErrNoRows)
  }

  /**
   * A missing row comes out as the statement's sentinel, whatever the regular
   * expressions match: its key comes first, so no pattern is compiled.
   */
  lemma NoRowsMapped(re: Matcher)
    ensures TypesErrors.MapError(Some(ErrNoRows), NotFoundMap, re) == Returned(Some(TypesErrors.ErrRecordNotFound))
    ensures TypesErrors.MapError(Some(ErrNoRows), UpdateMap, re) == Returned(Some(TypesErrors.ErrEditConflict))
    ensures TypesErrors.MapError(Some(ErrNoRows), PartialMap, re) == Returned(Some(TypesErrors.ErrEditConflict))
  {
  }

  /**
   * Any other driver error becomes ErrDuplicateKey where the statement maps the
   * pattern and its text matches, and is otherwise returned as it is.
   */
  lemma {:induction false} DriverErrorPassesThrough(e: Error, re: Matcher)
    requires !Is(e, ErrNoRows)
    ensures MapErr(Some(e), NotFoundMap, re) == Some(e)
    ensures MapErr(Some(e), PartialMap, re) == Some(e)
    ensures Compiles(re, DuplicateKeyPattern) ==>
              MapErr(Some(e), InsertMap, re)
                == if re.matches(DuplicateKeyPattern, GoErrors.Text(e)) then Some(TypesErrors.ErrDuplicateKey) else Some(e)
    ensures Compiles(re, DuplicateKeyPattern) ==>
              MapErr(Some(e), UpdateMap, re)
                == if re.matches(DuplicateKeyPattern, GoErrors.Text(e)) then Some(TypesErrors.ErrDuplicateKey) else Some(e)
    ensures !Compiles(re, DuplicateKeyPattern) ==>
              TypesErrors.MapError(Some(e), InsertMap, re).MapPanic? && TypesErrors.MapError(Some(e), UpdateMap, re).MapPanic?
  {
    assert UpdateMap[1..] == InsertMap;
  }

  /** The row the login lookup found: none when no user has the address, else a stored user with it. */
  ghost predicate LoginRow(rows: map<int, User>, email: string, row: Option<User>) {
    && (row.None? ==> forall id :: id in rows ==> rows[id].email != email)
    && (row.Some? ==> row.value.id in rows && rows[row.value.id] == row.value && row.value.email == email)
  }

  /**
   * GetForLogin after the lookup: no row is ErrRecordNotFound, an unactivated
   * user is ErrUserNotActivated, and only then is the password compared.
   */
  function LoginStep(row: Option<User>, password: string, compare: (string, string) -> Option<Error>)
    : (r: (UserPtr, Option<Error>))
    ensures r.1.None? <==> r.0.Ptr?
  {
    if row.None? then (NilUser, Some(TypesErrors.ErrRecordNotFound))
    else if !row.value.activated then (NilUser, Some(TypesErrors.ErrUserNotActivated))
    else
      var err := Passwords.Compare(row.value.hashedPassword, password, compare);
      if err.Some? then (NilUser, err) else (Ptr(row.value), None)
  }

  /**
   * An unknown address and an unactivated user are refused whatever the
   * password and however bcrypt would have compared it; an activated user is
   * let in exactly when bcrypt accepts the password, and a mismatch is
   * ErrPasswordMismatch.
   */
  lemma LoginOrder(row: Option<User>, password: string, compare: (string, string) -> Option<Error>,
                   other: string, compare': (string, string) -> Option<Error>)
    ensures row.None? ==> LoginStep(row, password, compare) == (NilUser, Some(TypesErrors.ErrRecordNotFound))
    ensures row.Some? && !row.value.activated ==>
              LoginStep(row, password, compare) == LoginStep(row, other, compare') == (NilUser, Some(TypesErrors.ErrUserNotActivated))
    ensures row.Some? && row.value.activated ==>
              && (LoginStep(row, password, compare).1.None? <==> compare(row.value.hashedPassword, password).None?)
              && (LoginStep(row, password, compare).1.None? ==> LoginStep(row, password, compare).0 == Ptr(row.value))
    ensures row.Some? && row.value.activated && compare(row.value.hashedPassword, password).Some?
            && Is(compare(row.value.hashedPassword, password).value, Passwords.ErrMismatchedHashAndPassword) ==>
              LoginStep(row, password, compare).1 == Some(TypesErrors.ErrPasswordMismatch)
  {
  }

  /**
   * The user a statement that returns id, times, name, e-mail and version scans
   * into a fresh User: no activation flag and no password hash.
   */
  function Scanned(u: User): (r: User)
    ensures r.id == u.id && r.createdAt == u.createdAt && r.updatedAt == u.updatedAt
    ensures r.name == u.name && r.email == u.email && r.version == u.version
    ensures !r.activated && r.hashedPassword == "" && r.plainPassword == ""
  {
    ZeroUser.(id := u.id, createdAt := u.createdAt, updatedAt := u.updatedAt, name := u.name, email := u.email,
              version := u.version)
  }

  /**
   * The join GetForToken runs: the token stored under the digest has the
   * scope, expires strictly after now, and belongs to a stored user.
   */
  predicate TokenMatches(rows: map<int, User>, tokens: map<seq<bv8>, Tokens.Token>, t: Tokens.Token, now: int) {
    && t.hash in tokens && tokens[t.hash].scope == t.scope && tokens[t.hash].expiresAt > now
    && tokens[t.hash].userId in rows
  }

  /** A token that expires at the very instant of the request does not match, nor does one of another scope. */
  lemma TokenExpiryStrict(rows: map<int, User>, tokens: map<seq<bv8>, Tokens.Token>, t: Tokens.Token, now: int)
    ensures t.hash in tokens && tokens[t.hash].expiresAt <= now ==> !TokenMatches(rows, tokens, t, now)
    ensures t.hash in tokens && tokens[t.hash].scope != t.scope ==> !TokenMatches(rows, tokens, t, now)
    ensures (t.hash in tokens && tokens[t.hash].expiresAt == now + 1 && tokens[t.hash].scope == t.scope
             && tokens[t.hash].userId in rows) ==> TokenMatches(rows, tokens, t, now)
  {
  }

  /**
   * A token GenerateToken made and the database stored under its digest is found
   * again from its plaintext alone: a presented token carrying the digest of the
   * same plaintext matches for the same scope until the instant the token
   * expires, and never for another scope.
   */
  lemma GeneratedTokenFound(rows: map<int, User>, tokens: map<seq<bv8>, Tokens.Token>, stored: Tokens.Token,
                            presented: Tokens.Token, issued: int, now: int, sha256: Tokens.Sha256)
    requires stored == Tokens.GenerateToken(stored.userId, stored.expiresAt - issued, stored.scope, stored.isAdmin,
                                            stored.plaintext, issued, sha256)
    requires stored.hash in tokens && tokens[stored.hash] == stored && stored.userId in rows
    requires presented.hash == Tokens.Hash(stored.plaintext, sha256)
    ensures presented.scope == stored.scope ==> (TokenMatches(rows, tokens, presented, now) <==> now < stored.expiresAt)
    ensures presented.scope != stored.scope ==> !TokenMatches(rows, tokens, presented, now)
  {
  }

  /** Whether `where id = $n and version = $n+1` finds the row. */
  predicate VersionMatches(rows: map<int, User>, id: int, version: int) {
    id in rows && rows[id].version == version
  }

  /** The row a matching Update leaves: the caller's name and e-mail, the time, and the next version. */
  function Updated(stored: User, user: User, now: int): User {
    stored.(name := user.name, email := user.email, updatedAt := now, version := stored.version + 1)
  }

  /**
   * Update when the database reports no error of its own: the table, the
   * caller's user with the returned version scanned into it, and the error.
   */
  function UpdateStep(rows: map<int, User>, user: User, now: int): (map<int, User>, User, Option<Error>) {
    if VersionMatches(rows, user.id, user.version) then
      var row := Updated(rows[user.id], user, now);
      (rows[user.id := row], user.(version := row.version), None)
    else
      (rows, user, Some(TypesErrors.ErrEditConflict))
  }

  /**
   * An update succeeds exactly when the stored version is the caller's; it then
   * stores the caller's name and e-mail with the version one higher, hands that
   * version back, and leaves the password hash, the activation flag and every
   * other row as they were. Otherwise it is an edit conflict and nothing changes.
   */
  lemma UpdateBumpsVersion(rows: map<int, User>, user: User, now: int)
    ensures var (rows', u, err) := UpdateStep(rows, user, now);
            && (err.None? <==> VersionMatches(rows, user.id, user.version))
            && (err.None? ==>
                  && rows'.Keys == rows.Keys
                  && rows'[user.id].version == user.version + 1 == u.version
                  && rows'[user.id].name == user.name && rows'[user.id].email == user.email
                  && rows'[user.id].updatedAt == now
                  && rows'[user.id].hashedPassword == rows[user.id].hashedPassword
                  && rows'[user.id].activated == rows[user.id].activated
                  && rows'[user.id].createdAt == rows[user.id].createdAt
                  && u == user.(version := user.version + 1)
                  && forall other :: other in rows && other != user.id ==> rows'[other] == rows[other])
            && (err.Some? ==> err == Some(TypesErrors.ErrEditConflict) && rows' == rows && u == user)
  {
  }

  /**
   * Optimistic concurrency: once an update went through, sending the same user
   * again is an edit conflict, while sending the user with the version the first
   * update handed back goes through.
   */
  lemma {:induction false} StaleUpdateConflicts(rows: map<int, User>, user: User, now: int, later: int)
    requires UpdateStep(rows, user, now).2.None?
    ensures var (rows', u, _) := UpdateStep(rows, user, now);
            && UpdateStep(rows', user, later).2 == Some(TypesErrors.ErrEditConflict)
            && UpdateStep(rows', u, later).2.None?
  {
    UpdateBumpsVersion(rows, user, now);
  }

  /**
   * What PostgreSQL demands of a statement before running it: the `$n` it
   * references are exactly 1..len(args). A number left out has no type it can
   * infer, and a number beyond the arguments has no value.
   */
  ghost predicate Accepted(query: string, args: seq<Arg>) {
    forall n: nat :: n in Placeholders(query) <==> 1 <= n <= |args|
  }

  /** A statement whose references run 1..len(args) in order is accepted. */
  lemma RangeAccepted(query: string, args: seq<Arg>)
    requires Placeholders(query) == Range(1, |args| + 1)
    ensures Accepted(query, args)
  {
    forall n: nat
      ensures n in Placeholders(query) <==> 1 <= n <= |args|
    {
      if 1 <= n <= |args| {
        assert Placeholders(query)[n - 1] == n;
      }
    }
  }

  /**
   * Update's statement as written: name and e-mail are `$1` and `$2`, but the
   * time is `$4` and id and version `$5` and `$6`, while five arguments are passed.
   */
  function AsWrittenUpdatePieces(user: User, now: int): seq<Piece> {
    FullHead("users", Field("name", TextArg(user.name)))
    + [Lit(", email = "), Ref("email", 2), Lit(", updated_at = "), Ref("updated_at", 4)]
    + FullTail(5, "version")
  }

  /** The arguments Update passes: name, e-mail, the time, id and version. */
  function UpdateArgs(user: User, now: int): seq<Arg> {
    [TextArg(user.name), TextArg(user.email), TimeArg(now), IntArg(user.id), IntArg(user.version)]
  }

  /**
   * The statement as written skips `$3` and references `$6` beyond its five
   * arguments, so for every user it is not well bound: the placeholders the
   * text uses are not 1..5, and no reading of them binds each to its argument.
   */
  lemma {:induction false} AsWrittenUpdateRejected(user: User, now: int)
    ensures Placeholders(Render(AsWrittenUpdatePieces(user, now))) == [1, 2, 4, 5, 6]
    ensures |UpdateArgs(user, now)| == 5
    ensures !Accepted(Render(AsWrittenUpdatePieces(user, now)), UpdateArgs(user, now))
    ensures forall meant :: !WellBound(AsWrittenUpdatePieces(user, now), UpdateArgs(user, now), meant)
  {
    var ps := AsWrittenUpdatePieces(user, now);
    AsWrittenIndices(user, now);
    AsWrittenPlain(user, now);
    PlaceholdersOfRender(ps);
    var q := Render(ps);
    assert 3 !in Placeholders(q);
    forall meant
      ensures !WellBound(ps, UpdateArgs(user, now), meant)
    {
      assert Range(1, 6)[2] == 3 != Indices(ps)[2];
    }
  }

  lemma AsWrittenIndices(user: User, now: int)
    ensures Indices(AsWrittenUpdatePieces(user, now)) == [1, 2, 4, 5, 6]
  {
    var head := FullHead("users", Field("name", TextArg(user.name)));
    var mid := [Lit(", email = "), Ref("email", 2), Lit(", updated_at = "), Ref("updated_at", 4)];
    HeadIndices(user);
    MidIndices();
    IndicesAppend(head, mid);
    FullTailIndices(5, "version");
    IndicesAppend(head + mid, FullTail(5, "version"));
    assert [1] + [2, 4] + [5, 6] == [1, 2, 4, 5, 6];
  }

  lemma HeadIndices(user: User)
    ensures Indices(FullHead("users", Field("name", TextArg(user.name)))) == [1]
  {
    var head := FullHead("users", Field("name", TextArg(user.name)));
    assert Indices(head[1..]) == [1] by { assert Indices(head[1..][1..]) == []; }
  }

  lemma MidIndices()
    ensures Indices([Lit(", email = "), Ref("email", 2), Lit(", updated_at = "), Ref("updated_at", 4)]) == [2, 4]
  {
    var mid := [Lit(", email = "), Ref("email", 2), Lit(", updated_at = "), Ref("updated_at", 4)];
    assert Indices(mid[3..]) == [4] by { assert Indices(mid[3..][1..]) == []; }
    assert Indices(mid[2..]) == [4] by { assert mid[2..][1..] == mid[3..]; }
    assert Indices(mid[1..]) == [2, 4] by { assert mid[1..][1..] == mid[2..]; }
  }

  lemma {:induction false} AsWrittenPlain(user: User, now: int)
    ensures PlainLiterals(AsWrittenUpdatePieces(user, now))
  {
    var head := FullHead("users", Field("name", TextArg(user.name)));
    var mid := [Lit(", email = "), Ref("email", 2), Lit(", updated_at = "), Ref("updated_at", 4)];
    HeadMidPlain(user);
    TailPlain(5, "version");
    assert PlainLiterals([Lit(", version = version + 1")]);
    PlainAppend([Lit(", version = version + 1")], Tail(5, "version"));
    PlainAppend(head + mid, FullTail(5, "version"));
  }

  lemma FullTailIndices(n: nat, returning: string)
    ensures Indices(FullTail(n, returning)) == [n, n + 1]
  {
    var t := FullTail(n, returning);
    assert Indices(t[4..]) == [n + 1] by { assert Indices(t[4..][1..]) == []; }
    assert Indices(t[3..]) == [n + 1] by { assert t[3..][1..] == t[4..]; }
    assert Indices(t[2..]) == [n, n + 1] by { assert t[2..][1..] == t[3..]; }
    assert Indices(t[1..]) == [n, n + 1] by { assert t[1..][1..] == t[2..]; }
  }

  lemma HeadMidPlain(user: User)
    ensures PlainLiterals(FullHead("users", Field("name", TextArg(user.name)))
                          + [Lit(", email = "), Ref("email", 2), Lit(", updated_at = "), Ref("updated_at", 4)])
  {
    HeadPlain(user);
    MidPlain();
    PlainAppend(FullHead("users", Field("name", TextArg(user.name))),
                [Lit(", email = "), Ref("email", 2), Lit(", updated_at = "), Ref("updated_at", 4)]);
  }

  lemma HeadPlain(user: User)
    ensures PlainLiterals(FullHead("users", Field("name", TextArg(user.name))))
  {
    NoDollar("update ", "users", " set ");
    NoDollar("update users set ", "name", " = ");
  }

  lemma MidPlain()
    ensures PlainLiterals([Lit(", email = "), Ref("email", 2), Lit(", updated_at = "), Ref("updated_at", 4)])
  {
    var ps := [Lit(", email = "), Ref("email", 2), Lit(", updated_at = "), Ref("updated_at", 4)];
    assert '$' !in ", email = " && '$' !in ", updated_at = ";
    forall i | 0 <= i < |ps| && ps[i].Lit?
      ensures '$' !in ps[i].text && (ps[i].text == [] || !Text.IsDigit(ps[i].text[0]))
    {
      assert i == 0 || i == 2;
    }
  }

  /** The Update statement corrected: name, e-mail and the time as `$1`..`$3`, then id and version. */
  function UpdateFields(user: User, now: int): seq<Field> {
    [Field("name", TextArg(user.name)), Field("email", TextArg(user.email)), Field("updated_at", TimeArg(now))]
  }

  /** The corrected statement's fields assign three distinct usable columns. */
  lemma {:induction false} UpdateColumns(user: User, now: int)
    ensures GoodColumns(UpdateFields(user, now))
  {
    UsableColumns();
    var n, e, u := Field("name", TextArg(user.name)), Field("email", TextArg(user.email)), Field("updated_at", TimeArg(now));
    SnocGood([], n, {});
    assert [] + [n] == [n];
    SnocGood([n], e, {"name"});
    assert [n] + [e] == [n, e];
    SnocGood([n, e], u, {"name", "email"});
    assert [n, e] + [u] == UpdateFields(user, now);
  }

  /** The corrected statement's fields carry Update's five arguments in order. */
  lemma UpdateFieldArgs(user: User, now: int)
    ensures FullArgs(UpdateFields(user, now), user.id, user.version) == UpdateArgs(user, now)
  {
    var l, r := FullArgs(UpdateFields(user, now), user.id, user.version), UpdateArgs(user, now);
    assert |l| == |r| == 5;
    assert l[0] == r[0] && l[1] == r[1] && l[2] == r[2] && l[3] == r[3] && l[4] == r[4];
  }

  /**
   * The corrected statement takes the same five arguments, numbers them 1..5
   * in order, each for its own column, and is accepted.
   */
  lemma UpdateStatementWellBound(user: User, now: int)
    ensures var fields := UpdateFields(user, now);
            var query := Render(FullPieces("users", fields, "version"));
            && FullArgs(fields, user.id, user.version) == UpdateArgs(user, now)
            && WellBound(FullPieces("users", fields, "version"), UpdateArgs(user, now), Meant(fields, user.id, user.version))
            && Placeholders(query) == Range(1, 6)
            && Accepted(query, UpdateArgs(user, now))
  {
    var fields := UpdateFields(user, now);
    UpdateColumns(user, now);
    UpdateFieldArgs(user, now);
    FullWellBound("users", fields, "version", user.id, user.version);
    RangeAccepted(Render(FullPieces("users", fields, "version")), UpdateArgs(user, now));
  }

  /**
   * The fields a partial update writes, in the order the statement assigns
   * them, each present one appended in turn: never the password.
   */
  function PartialFields(pu: PartialUser): (fields: seq<Field>)
    ensures |fields| <= 2
    ensures forall j :: 0 <= j < |fields| ==> fields[j].column in {"name", "email"}
  {
    var fs: seq<Field> := [];
    var fs := if pu.name.Some? then fs + [Field("name", TextArg(pu.name.value))] else fs;
    if pu.email.Some? then fs + [Field("email", TextArg(pu.email.value))] else fs
  }

  /** The row a matching partial update leaves: the present name and e-mail, the time, and the next version. */
  function Patched(stored: User, pu: PartialUser, now: int): User {
    stored.(name := if pu.name.Some? then pu.name.value else stored.name,
            email := if pu.email.Some? then pu.email.value else stored.email,
            updatedAt := now, version := stored.version + 1)
  }

  /** The user PartialUpdate hands back when the statement fails: only its id is set. */
  function Unscanned(id: int): User {
    ZeroUser.(id := id)
  }

  /** PartialUpdate when the database reports no error of its own: the table, the user returned, the error. */
  function PartialStep(rows: map<int, User>, id: int, version: int, pu: PartialUser, now: int)
    : (map<int, User>, User, Option<Error>)
  {
    if VersionMatches(rows, id, version) then
      var row := Patched(rows[id], pu, now);
      (rows[id := row], Scanned(row), None)
    else
      (rows, Unscanned(id), Some(TypesErrors.ErrEditConflict))
  }

  /**
   * A partial update sets exactly the name and e-mail that are present, keeps
   * the password hash and activation flag even when a new password came with
   * the request, and always moves updated_at to now and the version up by one.
   */
  lemma PatchedFields(stored: User, pu: PartialUser, now: int)
    ensures var row := Patched(stored, pu, now);
            && (pu.name.Some? ==> row.name == pu.name.value) && (pu.name.None? ==> row.name == stored.name)
            && (pu.email.Some? ==> row.email == pu.email.value) && (pu.email.None? ==> row.email == stored.email)
            && row.hashedPassword == stored.hashedPassword && row.activated == stored.activated
            && row.id == stored.id && row.createdAt == stored.createdAt
            && row.updatedAt == now && row.version == stored.version + 1
  {
  }

  /**
   * A partial update goes through exactly when the stored version is the
   * caller's, returns the stored row's id, times, name, e-mail and version
   * (never its hash), and touches no other row; otherwise it is an edit
   * conflict that returns a user holding only the id.
   */
  lemma PartialStepRows(rows: map<int, User>, id: int, version: int, pu: PartialUser, now: int)
    ensures var (rows', u, err) := PartialStep(rows, id, version, pu, now);
            && (err.None? <==> VersionMatches(rows, id, version))
            && (err.None? ==> && rows'.Keys == rows.Keys && rows'[id] == Patched(rows[id], pu, now)
                              && u.id == rows[id].id && u.name == rows'[id].name && u.email == rows'[id].email
                              && u.version == version + 1 && u.hashedPassword == ""
                              && forall other :: other in rows && other != id ==> rows'[other] == rows[other])
            && (err.Some? ==> err == Some(TypesErrors.ErrEditConflict) && rows' == rows && u == Unscanned(id))
  {
  }

  /** The columns PartialUpdate returns. */
  const PartialReturning: string := "created_at, updated_at, " + "name, email, version"

  /** The columns a partial update may assign are usable and not updated_at, which the opening assigns. */
  lemma UsableColumns()
    ensures "name" != "id" && "name" != "version" && '$' !in "name"
    ensures "email" != "id" && "email" != "version" && '$' !in "email" && "email" != "name"
    ensures "updated_at" !in {"name", "email"}
    ensures "updated_at" != "id" && "updated_at" != "version" && '$' !in "updated_at"
  {
  }

  /** A partial update assigns each column at most once, never id, version or updated_at. */
  lemma {:induction false} PartialColumns(pu: PartialUser)
    ensures GoodColumns(PartialFields(pu))
    ensures forall j :: 0 <= j < |PartialFields(pu)| ==> PartialFields(pu)[j].column != "updated_at"
  {
    UsableColumns();
    var fs: seq<Field> := [];
    if pu.name.Some? {
      SnocGood(fs, Field("name", TextArg(pu.name.value)), {});
      fs := fs + [Field("name", TextArg(pu.name.value))];
    }
    assert GoodColumns(fs) && ColumnsIn(fs, {"name"});
    if pu.email.Some? {
      SnocGood(fs, Field("email", TextArg(pu.email.value)), {"name"});
      fs := fs + [Field("email", TextArg(pu.email.value))];
    }
    assert GoodColumns(fs) && ColumnsIn(fs, {"name", "email"});
    assert fs == PartialFields(pu);
  }

  /**
   * PartialUpdate's statement is well bound: `$1` is the time, each present
   * field's reference numbers that field's new value, id and version take the
   * last two numbers, and the numbers run 1..len(args) with len(args) = i+1.
   */
  lemma PartialStatementWellBound(pu: PartialUser, now: int, id: int, version: int)
    ensures var fields := PartialFields(pu);
            var args := PartialArgs(now, fields, id, version);
            var query := Render(PartialPieces("users", fields, PartialReturning));
            && WellBound(PartialPieces("users", fields, PartialReturning), args,
                         Meant(fields, id, version)["updated_at" := TimeArg(now)])
            && Placeholders(query) == Range(1, |args| + 1)
            && Accepted(query, args)
            && |args| == |fields| + 3
  {
    PartialColumns(pu);
    NoDollar("created_at, updated_at, ", "name, email, version", "");
    PartialWellBound("users", PartialFields(pu), PartialReturning, now, id, version);
    var fields := PartialFields(pu);
    RangeAccepted(Render(PartialPieces("users", fields, PartialReturning)), PartialArgs(now, fields, id, version));
  }

  /**
   * The first part of PartialUpdate's assembly: the opening with updated_at as
   * `$1`, then one `, column = $i` per present field with i counting up from 2.
   */
  method PartialAssignments(partial: PartialUser, now: int) returns (query: string, args: seq<Arg>, i: nat)
    ensures Built("users", PartialFields(partial), query, args, now)
    ensures i == |PartialFields(partial)| + 2
  {
    var table := "users";
    query := Opening(table);
    args := [TimeArg(now)];
    PartialStart(table, now);
    i := 2;
    ghost var fields: seq<Field> := [];
    if partial.name.Some? {
      var f := Field("name", TextArg(partial.name.value));
      query, args, i := AppendField(table, fields, f, query, args, i, now);
      fields := fields + [f];
    }
    if partial.email.Some? {
      var f := Field("email", TextArg(partial.email.value));
      query, args, i := AppendField(table, fields, f, query, args, i, now);
      fields := fields + [f];
    }
  }

  /**
   * PartialUpdate's statement and arguments: the assignments of the present
   * fields, then the closing where-clause with id and version as `$i` and `$i+1`.
   */
  method PartialUpdateQuery(id: int, version: int, partial: PartialUser, now: int) returns (query: string, args: seq<Arg>)
    ensures query == Render(PartialPieces("users", PartialFields(partial), PartialReturning))
    ensures args == PartialArgs(now, PartialFields(partial), id, version)
  {
    var i;
    query, args, i := PartialAssignments(partial, now);
    PartialFinish("users", PartialFields(partial), query, args, now, PartialReturning, id, version, i);
    query := query + WhereClause(i, PartialReturning);
    args := args + [IntArg(id), IntArg(version)];
  }

  /** GetMany's select list and table. */
  const ListHead: string :=
    ("select count(*) " + "over (), id, " + "created_at, " + "updated_at, ")
    + ("name, email, " + "activated, " + "version from " + "users")

  /** The users' GetMany has no `in` filter: whatever `in` map came with the filters is ignored. */
  function SearchOnly(f: Filters): (g: Filters)
    ensures g.search == f.search && g.inFilter.None? && g.page == f.page && g.pageSize == f.pageSize
    ensures ListQuery.Paging(g) == ListQuery.Paging(f)
  {
    f.(inFilter := None)
  }

  /**
   * GetMany: the assembled statement goes to the database `db`; its error is
   * returned as it is, and otherwise the rows come back with the metadata
   * for the count the last row carried (0 when there was none).
   */
  method GetMany(f: Filters, db: (string, seq<Arg>) -> ListQuery.Rows<User>)
    returns (users: seq<User>, meta: Option<ListMeta.MetaOutcome>, err: Option<Error>)
    ensures var res := db(Render(ListQuery.ManyPieces(ListHead, SearchOnly(f))), ListQuery.ManyArgs(SearchOnly(f)));
            && (res.QueryFailed? ==> err == Some(res.err) && users == [] && meta.None?)
            && (res.Rows? ==> err.None? && users == res.found
                              && meta == Some(ListMeta.NewListMetadata(f, ListQuery.RecordCount(res.found, res.count))))
  {
    var query, args := ListQuery.GetManyQuery(ListHead, SearchOnly(f));
    var res := db(query, args);
    if res.QueryFailed? {
      return [], None, Some(res.err);
    }
    users := res.found;
    meta := Some(ListMeta.NewListMetadata(f, ListQuery.RecordCount(res.found, res.count)));
    err := None;
  }

  /**
   * For search keys from the users' whitelist, GetMany's statement is well
   * bound: each entry's reference numbers its value, limit and offset take the
   * page size and (page-1)*page size only when both are set, and the numbers
   * run 1..len(args).
   */
  lemma {:induction false} ListStatementWellBound(f: Filters)
    requires DistinctKeys(ListQuery.Entries(f.search))
    requires forall j :: 0 <= j < |ListQuery.Entries(f.search)| ==> ListQuery.Entries(f.search)[j].0 in UserSearchFields
    ensures var g := SearchOnly(f);
            && WellBound(ListQuery.ManyPieces(ListHead, g), ListQuery.ManyArgs(g), ListQuery.Meant(g))
            && Placeholders(Render(ListQuery.ManyPieces(ListHead, g))) == Range(1, |ListQuery.ManyArgs(g)| + 1)
            && |ListQuery.ManyArgs(g)| == |ListQuery.Entries(f.search)| + if ListQuery.Paging(f).Some? then 2 else 0
  {
    var g := SearchOnly(f);
    ListHeadPlain();
    ListKeysPlain();
    assert ListQuery.Entries(g.inFilter) == [] && ListQuery.Entries(g.search) == ListQuery.Entries(f.search);
    ListQuery.ListedKeysPlain(ListQuery.Entries(g.search), UserSearchFields);
    ListQuery.GetManyWellBound(ListHead, g);
  }

  /** The select list cannot be mistaken for `$n` references. */
  lemma ListHeadPlain()
    ensures ListQuery.PlainName(ListHead)
  {
    var first := "select count(*) " + "over (), id, " + "created_at, " + "updated_at, ";
    assert '$' !in first by {
      NoDollar("select count(*) ", "over (), id, ", "created_at, ");
      NoDollar2("select count(*) " + "over (), id, " + "created_at, ", "updated_at, ");
    }
    var second := "name, email, " + "activated, " + "version from " + "users";
    assert '$' !in second by {
      NoDollar("name, email, ", "activated, ", "version from ");
      NoDollar2("name, email, " + "activated, " + "version from ", "users");
    }
    NoDollar2(first, second);
    assert ListHead[0] == first[0] == 's';
  }

  /** Neither can the whitelisted keys. */
  lemma ListKeysPlain()
    ensures forall i :: 0 <= i < |UserSearchFields| ==> ListQuery.PlainName(UserSearchFields[i])
  {
    assert ListQuery.PlainName("name") && ListQuery.PlainName("email");
  }

  /** The users table: rows by id, and the next id the database's sequence hands out. */
  class UserTable {
    var rows: map<int, User>
    var nextId: int

    /**
     * Every row is stored under its own id below the next one, and holds no
     * plaintext password: the table keeps only the hash.
     */
    predicate Valid()
      reads this
    {
      && nextId >= 1
      && forall id :: id in rows ==> rows[id].id == id && 1 <= id < nextId && rows[id].plainPassword == ""
    }

    constructor ()
      ensures Valid() && rows == map[] && nextId == 1
    {
      rows := map[];
      nextId := 1;
    }

    /**
     * GetForLogin: the row with the address, then LoginStep; a database error
     * is mapped, so a missing row is ErrRecordNotFound and any other error
     * comes back as it is.
     */
    method GetForLogin(email: string, password: string, fault: Option<Error>, re: Matcher,
                       compare: (string, string) -> Option<Error>)
      returns (p: UserPtr, err: Option<Error>)
      requires Valid()
      ensures fault.Some? ==> p == NilUser && err == MapErr(fault, NotFoundMap, re)
      ensures fault.None? ==> exists row :: LoginRow(rows, email, row) && (p, err) == LoginStep(row, password, compare)
      ensures err.None? ==> p.Ptr? && p.user.id in rows && rows[p.user.id] == p.user && p.user.email == email
                            && p.user.activated && p.user.plainPassword == ""
    {
      if fault.Some? {
        return NilUser, MapErr(fault, NotFoundMap, re);
      }
      var row: Option<User> := None;
      if id :| id in rows && rows[id].email == email {
        row := Some(rows[id]);
      }
      assert LoginRow(rows, email, row);
      p, err := LoginStep(row, password, compare).0, LoginStep(row, password, compare).1;
    }

    /**
     * GetForToken: always a user, filled from the joined row when the token
     * matches, and the zero user with the mapped error otherwise.
     */
    method GetForToken(t: Tokens.Token, now: int, tokens: map<seq<bv8>, Tokens.Token>, fault: Option<Error>, re: Matcher)
      returns (u: User, err: Option<Error>)
      requires Valid()
      ensures err.None? <==> fault.None? && TokenMatches(rows, tokens, t, now)
      ensures fault.None? && TokenMatches(rows, tokens, t, now) ==> u == Scanned(rows[tokens[t.hash].userId])
      ensures fault.None? && !TokenMatches(rows, tokens, t, now) ==> err == Some(TypesErrors.ErrRecordNotFound)
      ensures fault.Some? ==> err == MapErr(fault, NotFoundMap, re)
      ensures err.Some? ==> u == ZeroUser
    {
      var found := TokenMatches(rows, tokens, t, now);
      var scanErr := ScanError(found, fault);
      u := if scanErr.None? then Scanned(rows[tokens[t.hash].userId]) else ZeroUser;
      err := MapErr(scanErr, NotFoundMap, re);
      NoRowsMapped(re);
    }

    /**
     * Insert: the row gets the next id, now as both times, version 1, the hash
     * and not the plaintext, and is not activated; the id, times and version are
     * scanned back into the caller's user. A database error leaves table and
     * user alone and is mapped: duplicate-key text to ErrDuplicateKey, anything
     * else passes through.
     */
    method Insert(user: User, now: int, fault: Option<Error>, re: Matcher) returns (u: User, err: Option<Error>)
      requires Compiles(re, DuplicateKeyPattern)
      requires Valid()
      modifies this
      ensures Valid()
      ensures fault.None? ==> && err.None? && old(nextId) !in old(rows)
                              && u == user.(id := old(nextId), createdAt := now, updatedAt := now, version := 1)
                              && rows == old(rows)[u.id := u.(plainPassword := "", activated := false)]
      ensures fault.Some? ==> && err == MapErr(fault, InsertMap, re) && err.Some?
                              && u == user && rows == old(rows) && nextId == old(nextId)
    {
      if fault.Some? {
        return user, MapErr(fault, InsertMap, re);
      }
      u := user.(id := nextId, createdAt := now, updatedAt := now, version := 1);
      rows := rows[nextId := u.(plainPassword := "", activated := false)];
      nextId := nextId + 1;
      err := None;
    }

    /**
     * Update, with the statement corrected to number its arguments 1..5: the
     * version-checked write of UpdateStep; a database error leaves table and
     * user alone and is mapped through the update's ErrorMap.
     */
    method Update(user: User, now: int, fault: Option<Error>, re: Matcher) returns (u: User, err: Option<Error>)
      requires Compiles(re, DuplicateKeyPattern)
      requires Valid()
      modifies this
      ensures Valid() && nextId == old(nextId)
      ensures fault.None? ==> (rows, u, err) == UpdateStep(old(rows), user, now)
      ensures fault.Some? ==> err == MapErr(fault, UpdateMap, re) && u == user && rows == old(rows)
    {
      var found := user.id in rows && rows[user.id].version == user.version;
      var scanErr := ScanError(found, fault);
      u := user;
      if scanErr.None? {
        var row := Updated(rows[user.id], user, now);
        rows := rows[user.id := row];
        u := user.(version := row.version);
      }
      err := MapErr(scanErr, UpdateMap, re);
      NoRowsMapped(re);
    }

    /**
     * PartialUpdate: the statement of PartialUpdateQuery, applied as PartialStep;
     * a database error leaves the table alone and is mapped through the partial
     * update's ErrorMap.
     */
    method PartialUpdate(id: int, version: int, partial: PartialUser, now: int, fault: Option<Error>, re: Matcher)
      returns (u: User, err: Option<Error>)
      requires Valid()
      modifies this
      ensures Valid() && nextId == old(nextId)
      ensures fault.None? ==> (rows, u, err) == PartialStep(old(rows), id, version, partial, now)
      ensures fault.Some? ==> err == MapErr(fault, PartialMap, re) && u == Unscanned(id) && rows == old(rows)
    {
      var query, args := PartialUpdateQuery(id, version, partial, now);
      u := Unscanned(id);
      var found := id in rows && rows[id].version == version;
      var scanErr := ScanError(found, fault);
      if scanErr.None? {
        var row := Patched(rows[id], partial, now);
        rows := rows[id := row];
        u := Scanned(row);
        err := MapErr(scanErr, PartialMap, re);
        assert VersionMatches(old(rows), id, version);
      } else {
        err := MapErr(scanErr, PartialMap, re);
        NoRowsMapped(re);
      }
    }

    /**
     * Delete: a database error is returned as it is; no deleted row is
     * ErrRecordNotFound.
     */
    method Delete(id: int, fault: Option<Error>) returns (err: Option<Error>)
      requires Valid()
      modifies this
      ensures Valid() && nextId == old(nextId)
      ensures fault.Some? ==> err == fault && rows == old(rows)
      ensures fault.None? ==> && (err.None? <==> id in old(rows))
                              && (err.Some? ==> err == Some(TypesErrors.ErrRecordNotFound))
                              && rows == old(rows) - {id}
    {
      if fault.Some? {
        return fault;
      }
      var rowsAffected := if id in rows then 1 else 0;
      rows := rows - {id};
      if rowsAffected == 0 {
        return Some(TypesErrors.ErrRecordNotFound);
      }
      err := None;
    }
  }
}
