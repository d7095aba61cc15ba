/**
 * Tokens of the older `data` package: its own scope constant, token value and
 * plaintext check, which differ from the `types` package's.
 */
module DataTokens {
  import opened Text
  import opened Validation
  import Tokens

  /** The activation scope as this package spells it. */
  const ScopeActivation: string := "actiation"

  /** A token of this package: no admin flag. */
  datatype Token = Token(plaintext: string, hash: seq<bv8>, userId: int, expiresAt: int, scope: string)

  /** generateToken, with the random text and the current instant as parameters. */
  function GenerateToken(userId: int, ttl: int, scope: string, plaintext: string, now: int,
                         sha256: Tokens.Sha256): (t: Token)
    ensures t.plaintext == plaintext && t.hash == Tokens.Hash(plaintext, sha256)
    ensures t.userId == userId && t.scope == scope && t.expiresAt - now == ttl
  {
    Token(plaintext, Tokens.Hash(plaintext, sha256), userId, now + ttl, scope)
  }

  /** Token.Validate as written: the length check is the inverse of the newer one. */
  function TokenRules(t: Token): (rules: seq<Rule>)
    ensures forall i :: 0 <= i < |rules| ==> rules[i].key == "plaintext"
  {
    [Rule(t.plaintext != "", "plaintext", "must be provided"),
     Rule(ByteLen(t.plaintext) != 26, "plaintext", "must not be exactly 26 bytes")]
  }

  method Validate(t: Token, v: Validator)
    requires v.Inv()
    modifies v
    ensures v.Inv()
    ensures v.errors == Apply(old(v.errors), TokenRules(t))
  {
    ghost var e0 := v.errors;
    ghost var rules := TokenRules(t);
    v.Check(t.plaintext != "", "plaintext", "must be provided");
    v.Check(ByteLen(t.plaintext) != 26, "plaintext", "must not be exactly 26 bytes");
    ApplyAppend(e0, [rules[0]], [rules[1]]);
    assert [rules[0]] + [rules[1]] == rules;
  }

  /**
   * The older check records only "must be provided" for an empty plaintext, rejects
   * exactly the 26-byte plaintexts, and accepts every other non-empty one: the
   * opposite of the newer check on every non-empty plaintext.
   */
  lemma {:induction false} TokenMessages(t: Token)
    ensures t.plaintext == "" ==> Failed(TokenRules(t), "plaintext") == ["must be provided"]
    ensures ByteLen(t.plaintext) == 26 ==> Failed(TokenRules(t), "plaintext") == ["must not be exactly 26 bytes"]
    ensures t.plaintext != "" && ByteLen(t.plaintext) != 26 ==> Failed(TokenRules(t), "plaintext") == []
    ensures t.plaintext != "" ==>
              (Failed(TokenRules(t), "plaintext") == []) == (Failed(Tokens.PlainTokenRules(t.plaintext), "token") != [])
  {
    var rs := TokenRules(t);
    FailedCons(rs[0], [rs[1]], "plaintext");
    FailedCons(rs[1], [], "plaintext");
    assert rs == [rs[0]] + [rs[1]];
    Tokens.PlainTokenMessages(t.plaintext);
    assert ByteLen("") == 0;
  }

  /** Every token generateToken makes from a rand.Text plaintext fails the older check. */
  lemma {:induction false} GeneratedTokenRejected(userId: int, ttl: int, scope: string, plaintext: string,
                                                  now: int, sha256: Tokens.Sha256)
    requires |plaintext| == Tokens.PlainTokenLength
    requires forall i :: 0 <= i < |plaintext| ==> Tokens.IsBase32(plaintext[i])
    ensures Apply(map[], TokenRules(GenerateToken(userId, ttl, scope, plaintext, now, sha256))) != map[]
  {
    var t := GenerateToken(userId, ttl, scope, plaintext, now, sha256);
    ByteLenAscii(plaintext);
    ApplyEmptyValid(TokenRules(t));
    assert !TokenRules(t)[1].ok;
  }

  /** The two snapshots' activation scopes differ, so a token stored under one is not found under the other. */
  lemma ActivationScopesDiffer()
    ensures ScopeActivation != Tokens.ScopeActivation
  {
  }
}
