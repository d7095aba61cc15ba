/**
 * Tokens of the `types` package: scopes, the digest of a plaintext, how a new
 * token is put together, and the check of a plaintext a client presents.
 * SHA-256 and the random text are parameters.
 */
module Tokens {
  import opened Text
  import opened Validation

  const ScopeActivation: string := "activation"
  const ScopeAuthentication: string := "authentication"

  /** The length in bytes of what rand.Text returns: 26 characters of the base32 alphabet. */
  const PlainTokenLength: nat := 26

  /** A token; times are instants and durations in nanoseconds. */
  datatype Token = Token(
    plaintext: string,
    hash: seq<bv8>,
    userId: int,
    expiresAt: int,
    scope: string,
    isAdmin: bool)

  /** The length in bytes of a SHA-256 digest, the array sha256.Sum256 returns. */
  const DigestLength: nat := 32

  /** A SHA-256 digest: always 32 bytes. */
  type Digest = s: seq<bv8> | |s| == DigestLength witness seq(32, _ => 0)

  /** The SHA-256 function, as a function of the plaintext's text. */
  type Sha256 = string -> Digest

  /** Hash: the SHA-256 digest of the plaintext, all 32 bytes of it (`hash[:]`). */
  function Hash(plaintext: string, sha256: Sha256): (digest: seq<bv8>)
    ensures |digest| == DigestLength
    ensures digest == sha256(plaintext)
  {
    sha256(plaintext)[..]
  }

  /**
   * GenerateToken, with the random text `plaintext` and the current instant `now`
   * as parameters.
   */
  function GenerateToken(userId: int, ttl: int, scope: string, isAdmin: bool,
                         plaintext: string, now: int, sha256: Sha256): (t: Token)
    ensures t.plaintext == plaintext && t.hash == Hash(plaintext, sha256)
    ensures t.userId == userId && t.scope == scope && t.isAdmin == isAdmin
    ensures t.expiresAt - now == ttl
  {
    Token(plaintext, Hash(plaintext, sha256), userId, now + ttl, scope, isAdmin)
  }

  /** PlainToken.Validate: both checks under "token". */
  function PlainTokenRules(pt: string): (rules: seq<Rule>)
    ensures forall i :: 0 <= i < |rules| ==> rules[i].key == "token"
  {
    [Rule(pt != "", "token", "must be provided"),
     Rule(ByteLen(pt) == 26, "token", "must be exactly 26 bytes")]
  }

  method ValidatePlainToken(pt: string, v: Validator)
    requires v.Inv()
    modifies v
    ensures v.Inv()
    ensures v.errors == Apply(old(v.errors), PlainTokenRules(pt))
  {
    ghost var e0 := v.errors;
    ghost var rules := PlainTokenRules(pt);
    v.Check(pt != "", "token", "must be provided");
    v.Check(ByteLen(pt) == 26, "token", "must be exactly 26 bytes");
    ApplyAppend(e0, [rules[0]], [rules[1]]);
    assert [rules[0]] + [rules[1]] == rules;
  }

  /**
   * An empty token gets both messages, a 26-byte token none, and a non-empty
   * token of any other length exactly one.
   */
  lemma {:induction false} PlainTokenMessages(pt: string)
    ensures pt == "" ==> Failed(PlainTokenRules(pt), "token") == ["must be provided", "must be exactly 26 bytes"]
    ensures ByteLen(pt) == 26 ==> Failed(PlainTokenRules(pt), "token") == []
    ensures pt != "" && ByteLen(pt) != 26 ==> Failed(PlainTokenRules(pt), "token") == ["must be exactly 26 bytes"]
  {
    var rs := PlainTokenRules(pt);
    FailedCons(rs[0], [rs[1]], "token");
    FailedCons(rs[1], [], "token");
    assert rs == [rs[0]] + [rs[1]];
    assert ByteLen("") == 0;
  }

  /** A character of the base32 alphabet of section 6 of RFC 4648. */
  predicate IsBase32(c: char) {
    'A' <= c <= 'Z' || '2' <= c <= '7'
  }

  /** Every plaintext GenerateToken can be given by rand.Text passes PlainToken.Validate. */
  lemma {:induction false} GeneratedTokenValidates(plaintext: string)
    requires |plaintext| == PlainTokenLength
    requires forall i :: 0 <= i < |plaintext| ==> IsBase32(plaintext[i])
    ensures Apply(map[], PlainTokenRules(plaintext)) == map[]
  {
    ByteLenAscii(plaintext);
    ApplyEmptyValid(PlainTokenRules(plaintext));
  }
}
