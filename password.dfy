/**
 * Plaintext password checks and the comparison against a stored hash.
 * The bcrypt hash comparison itself is a parameter.
 */
module Passwords {
  import opened Base
  import opened Text
  import opened GoErrors
  import opened Validation
  import TypesErrors

  /** The three checks PlainPW.Validate runs, in order, all under "password". */
  function PasswordRules(pp: string): (rules: seq<Rule>)
    ensures forall i :: 0 <= i < |rules| ==> rules[i].key == "password"
  {
    [Rule(pp != "", "password", "must be provided"),
     Rule(ByteLen(pp) >= 8, "password", "must be at least 8 bytes long"),
     Rule(ByteLen(pp) <= 128, "password", "must not be more than 128 bytes")]
  }

  /** PlainPW.Validate: three Checks on the validator. */
  method Validate(pp: string, v: Validator)
    requires v.Inv()
    modifies v
    ensures v.Inv()
    ensures v.errors == Apply(old(v.errors), PasswordRules(pp))
  {
    ghost var e0 := v.errors;
    ghost var rules := PasswordRules(pp);
    v.Check(pp != "", "password", "must be provided");
    v.Check(ByteLen(pp) >= 8, "password", "must be at least 8 bytes long");
    Apply3(e0, rules[0], rules[1], rules[2]);
    v.Check(ByteLen(pp) <= 128, "password", "must not be more than 128 bytes");
  }

  /** Every message the checks can record is recorded under "password". */
  lemma OnlyPasswordKey(pp: string, key: string)
    requires key != "password"
    ensures Failed(PasswordRules(pp), key) == []
  {
    var rs := PasswordRules(pp);
    Failed3(rs[0], rs[1], rs[2], key);
  }

  /** An empty password gets two messages: it is missing and it is too short. */
  lemma EmptyPassword()
    ensures Failed(PasswordRules(""), "password") == ["must be provided", "must be at least 8 bytes long"]
  {
    var rs := PasswordRules("");
    Failed3(rs[0], rs[1], rs[2], "password");
  }

  /**
   * What a non-empty password gets by its length in bytes: nothing from 8 to 128,
   * the too-short message alone below 8, the too-long message alone above 128.
   */
  lemma {:induction false} PasswordByLength(pp: string)
    requires pp != ""
    ensures 8 <= ByteLen(pp) <= 128 ==> Failed(PasswordRules(pp), "password") == []
    ensures ByteLen(pp) < 8 ==> Failed(PasswordRules(pp), "password") == ["must be at least 8 bytes long"]
    ensures ByteLen(pp) > 128 ==> Failed(PasswordRules(pp), "password") == ["must not be more than 128 bytes"]
  {
    var rs := PasswordRules(pp);
    Failed3(rs[0], rs[1], rs[2], "password");
    assert ByteLen(pp) >= 1;
  }

  /** bcrypt.ErrMismatchedHashAndPassword. */
  const ErrMismatchedHashAndPassword: Error :=
    Leaf("bcrypt.ErrMismatchedHashAndPassword", "crypto/bcrypt: hashedPassword is not the hash of the given password")

  /**
   * HashPW.Compare: the bcrypt comparison `compare(hash, plaintext)` gives nil or an
   * error; a mismatch becomes ErrPasswordMismatch and any other error passes through.
   */
  function Compare(hash: string, pp: string, compare: (string, string) -> Option<Error>): (r: Option<Error>)
    ensures r.None? <==> compare(hash, pp).None?
    ensures r.Some? && Is(compare(hash, pp).value, ErrMismatchedHashAndPassword) ==> r == Some(TypesErrors.ErrPasswordMismatch)
    ensures r.Some? && !Is(compare(hash, pp).value, ErrMismatchedHashAndPassword) ==> r == compare(hash, pp)
  {
    match compare(hash, pp)
    case None => None
    case Some(err) => if Is(err, ErrMismatchedHashAndPassword) then Some(TypesErrors.ErrPasswordMismatch) else Some(err)
  }
}
