/**
 * The user record, its partial-update form, the anonymous user, and their
 * validation. Parsing an e-mail address (net/mail) is a parameter.
 */
module Users {
  import opened Base
  import opened Text
  import opened Validation
  import Passwords

  /** A user; times are instants in nanoseconds, the hashed password is its bytes as text. */
  datatype User = User(
    id: int,
    createdAt: int,
    updatedAt: int,
    name: string,
    email: string,
    plainPassword: string,
    hashedPassword: string,
    activated: bool,
    version: int)

  /** A partial update: `None` is a nil pointer. */
  datatype PartialUser = PartialUser(
    name: Option<string>,
    email: Option<string>,
    plainPassword: Option<string>,
    hashedPassword: Option<string>)

  /** The zero value of User. */
  const ZeroUser: User := User(0, 0, 0, "", "", "", "", false, 0)

  /**
   * A `*User`. AnonymousUser is one particular pointer to a zero User, made once;
   * `Ptr` is any other pointer, even one to a zero User.
   */
  datatype UserPtr = NilUser | AnonymousUser | Ptr(user: User)

  /** The user id that admin tokens carry. */
  const AdminUserID: int := 0

  /** The user a non-nil pointer points to. */
  function Deref(p: UserPtr): (u: User)
    requires !p.NilUser?
    ensures p.AnonymousUser? ==> u == ZeroUser
  {
    if p.AnonymousUser? then ZeroUser else p.user
  }

  /** IsAnonymous compares pointers, not contents; it is safe on a nil pointer. */
  function IsAnonymous(p: UserPtr): (r: bool)
    ensures r ==> !p.NilUser? && Deref(p) == ZeroUser
  {
    p == AnonymousUser
  }

  /** Only the AnonymousUser pointer is anonymous: neither nil nor another zero User is. */
  lemma AnonymousIsIdentity()
    ensures IsAnonymous(AnonymousUser)
    ensures !IsAnonymous(Ptr(ZeroUser))
    ensures !IsAnonymous(NilUser)
  {
  }

  /** Email.Validate: present, and accepted by the address parser. */
  function EmailRules(e: string, parses: string -> bool): (rules: seq<Rule>)
    ensures forall i :: 0 <= i < |rules| ==> rules[i].key == "email"
  {
    [Rule(e != "", "email", "must be provided"),
     Rule(parses(e), "email", "must be a valid email address")]
  }

  method ValidateEmail(e: string, v: Validator, parses: string -> bool)
    requires v.Inv()
    modifies v
    ensures v.Inv()
    ensures v.errors == Apply(old(v.errors), EmailRules(e, parses))
  {
    ghost var e0 := v.errors;
    v.Check(e != "", "email", "must be provided");
    v.Check(parses(e), "email", "must be a valid email address");
    ApplyAppend(e0, [EmailRules(e, parses)[0]], [EmailRules(e, parses)[1]]);
  }

  /** User.Validate: name, e-mail, and the password only when one was given. */
  function UserRules(u: User, parses: string -> bool): seq<Rule> {
    NameRules(u.name) + EmailRules(u.email, parses)
    + (if |u.plainPassword| > 0 then Passwords.PasswordRules(u.plainPassword) else [])
  }

  method ValidateUser(u: User, v: Validator, parses: string -> bool)
    requires v.Inv()
    modifies v
    ensures v.Inv()
    ensures v.errors == Apply(old(v.errors), UserRules(u, parses))
  {
    ghost var e0 := v.errors;
    ghost var names := NameRules(u.name);
    v.Check(u.name != "", "name", "must be provided");
    v.Check(ByteLen(u.name) <= 128, "name", "must not be more than 128 bytes");
    ApplyAppend(e0, [names[0]], [names[1]]);
    assert [names[0]] + [names[1]] == names;
    ValidateEmail(u.email, v, parses);
    ApplyAppend(e0, names, EmailRules(u.email, parses));
    ghost var pw := if |u.plainPassword| > 0 then Passwords.PasswordRules(u.plainPassword) else [];
    if |u.plainPassword| > 0 {
      Passwords.Validate(u.plainPassword, v);
    }
    ApplyAppend(e0, names + EmailRules(u.email, parses), pw);
  }

  /** PartialUser.Validate: each present field gets its full checks; absent fields none. */
  function PartialUserRules(pu: PartialUser, parses: string -> bool): seq<Rule> {
    (if pu.name.Some? then NameRules(pu.name.value) else [])
    + (if pu.email.Some? then EmailRules(pu.email.value, parses) else [])
    + (if pu.plainPassword.Some? then Passwords.PasswordRules(pu.plainPassword.value) else [])
  }

  method ValidatePartialUser(pu: PartialUser, v: Validator, parses: string -> bool)
    requires v.Inv()
    modifies v
    ensures v.Inv()
    ensures v.errors == Apply(old(v.errors), PartialUserRules(pu, parses))
  {
    ghost var e0 := v.errors;
    ghost var names := if pu.name.Some? then NameRules(pu.name.value) else [];
    ghost var emails := if pu.email.Some? then EmailRules(pu.email.value, parses) else [];
    ghost var pws := if pu.plainPassword.Some? then Passwords.PasswordRules(pu.plainPassword.value) else [];
    if pu.name.Some? {
      v.Check(pu.name.value != "", "name", "must be provided");
      v.Check(ByteLen(pu.name.value) <= 128, "name", "must not be more than 128 bytes");
      ApplyAppend(e0, [names[0]], [names[1]]);
      assert [names[0]] + [names[1]] == names;
    }
    ghost var e1 := v.errors;
    if pu.email.Some? {
      ValidateEmail(pu.email.value, v, parses);
    }
    ApplyAppend(e0, names, emails);
    if pu.plainPassword.Some? {
      Passwords.Validate(pu.plainPassword.value, v);
    }
    ApplyAppend(e0, names + emails, pws);
  }

  /**
   * User.Validate skips the password checks for an empty password, so a user
   * with a good name and e-mail and no password is valid.
   */
  lemma {:induction false} EmptyPasswordPasses(u: User, parses: string -> bool)
    requires u.plainPassword == ""
    ensures Failed(UserRules(u, parses), "password") == []
    ensures u.name != "" && ByteLen(u.name) <= 128 && u.email != "" && parses(u.email) ==>
              Apply(map[], UserRules(u, parses)) == map[]
  {
    var names := NameRules(u.name);
    var emails := EmailRules(u.email, parses);
    FailedAppend(names, emails, "password");
    FailedAppend(names + emails, [], "password");
    assert UserRules(u, parses) == names + emails + [];
    assert Failed(names, "password") == [] by { FailedCons(names[0], [names[1]], "password"); FailedCons(names[1], [], "password"); assert names == [names[0]] + [names[1]]; }
    assert Failed(emails, "password") == [] by { FailedCons(emails[0], [emails[1]], "password"); FailedCons(emails[1], [], "password"); assert emails == [emails[0]] + [emails[1]]; }
    if u.name != "" && ByteLen(u.name) <= 128 && u.email != "" && parses(u.email) {
      var rs := UserRules(u, parses);
      assert rs == [names[0], names[1], emails[0], emails[1]];
      ApplyEmptyValid(rs);
    }
  }

  /** The e-mail is always checked by User.Validate, whatever else the user holds. */
  lemma {:induction false} EmailAlwaysChecked(u: User, parses: string -> bool)
    ensures Failed(UserRules(u, parses), "email") == Failed(EmailRules(u.email, parses), "email")
  {
    var names := NameRules(u.name);
    var emails := EmailRules(u.email, parses);
    var pws := if |u.plainPassword| > 0 then Passwords.PasswordRules(u.plainPassword) else [];
    FailedAppend(names, emails, "email");
    FailedAppend(names + emails, pws, "email");
    assert Failed(names, "email") == [] by { FailedCons(names[0], [names[1]], "email"); FailedCons(names[1], [], "email"); assert names == [names[0]] + [names[1]]; }
    if |u.plainPassword| > 0 {
      Passwords.OnlyPasswordKey(u.plainPassword, "email");
    }
  }

  /** The messages PartialUser.Validate records under one key, field by field. */
  lemma PartialUserFailed(pu: PartialUser, parses: string -> bool, key: string)
    ensures Failed(PartialUserRules(pu, parses), key)
         == Failed(if pu.name.Some? then NameRules(pu.name.value) else [], key)
          + Failed(if pu.email.Some? then EmailRules(pu.email.value, parses) else [], key)
          + Failed(if pu.plainPassword.Some? then Passwords.PasswordRules(pu.plainPassword.value) else [], key)
  {
    var names := if pu.name.Some? then NameRules(pu.name.value) else [];
    var emails := if pu.email.Some? then EmailRules(pu.email.value, parses) else [];
    var pws := if pu.plainPassword.Some? then Passwords.PasswordRules(pu.plainPassword.value) else [];
    FailedAppend(names, emails, key);
    FailedAppend(names + emails, pws, key);
  }

  /**
   * PartialUser.Validate records nothing for an absent field, and checks a present
   * password fully: an empty one gets both the missing and the too-short message,
   * where User.Validate would have skipped it.
   */
  lemma {:induction false} PartialUserFields(pu: PartialUser, parses: string -> bool)
    ensures pu.name.None? ==> Failed(PartialUserRules(pu, parses), "name") == []
    ensures pu.email.None? ==> Failed(PartialUserRules(pu, parses), "email") == []
    ensures pu.plainPassword.None? ==> Failed(PartialUserRules(pu, parses), "password") == []
    ensures pu.plainPassword == Some("") ==>
              Failed(PartialUserRules(pu, parses), "password") == ["must be provided", "must be at least 8 bytes long"]
  {
    KeysDistinct();
    if pu.name.None? {
      FieldFailed(pu, parses, "name");
    }
    if pu.email.None? {
      FieldFailed(pu, parses, "email");
    }
    if pu.plainPassword.None? {
      FieldFailed(pu, parses, "password");
    }
    if pu.plainPassword == Some("") {
      FieldFailed(pu, parses, "password");
      Passwords.EmptyPassword();
    }
  }

  lemma KeysDistinct()
    ensures "name" != "email" && "name" != "password" && "email" != "password"
  {
    assert "name"[0] == 'n' && "email"[0] == 'e' && "password"[0] == 'p';
  }

  /** The messages PartialUser.Validate records under a field's own key come from that field's rules alone. */
  lemma {:induction false} FieldFailed(pu: PartialUser, parses: string -> bool, key: string)
    requires key == "name" || key == "email" || key == "password"
    ensures key == "name" ==> Failed(PartialUserRules(pu, parses), key) == Failed(if pu.name.Some? then NameRules(pu.name.value) else [], key)
    ensures key == "email" ==> Failed(PartialUserRules(pu, parses), key) == Failed(if pu.email.Some? then EmailRules(pu.email.value, parses) else [], key)
    ensures key == "password" ==> Failed(PartialUserRules(pu, parses), key) == Failed(if pu.plainPassword.Some? then Passwords.PasswordRules(pu.plainPassword.value) else [], key)
  {
    var names := if pu.name.Some? then NameRules(pu.name.value) else [];
    var emails := if pu.email.Some? then EmailRules(pu.email.value, parses) else [];
    var pws := if pu.plainPassword.Some? then Passwords.PasswordRules(pu.plainPassword.value) else [];
    KeysDistinct();
    PartialUserFailed(pu, parses, key);
    if key != "name" {
      FailedOtherKey(names, key);
    }
    if key != "email" {
      FailedOtherKey(emails, key);
    }
    if key != "password" {
      FailedOtherKey(pws, key);
    }
  }
}
