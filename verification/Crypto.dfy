/** Credential encryption with a primary and a fallback key. */
module Crypto {
  import opened Text

  /** Fernet as two functions; the number stands for the random part of a token. */
  datatype Cipher = Cipher(enc: (string, string, nat) -> string, dec: (string, string) -> Option<string>)

  const TOKEN_PREFIX := "gAAAAA"

  predicate LooksEncrypted(s: string) {
    |s| >= |TOKEN_PREFIX| && s[..|TOKEN_PREFIX|] == TOKEN_PREFIX
  }

  /** Tokens open under the key that made them and no other, nothing else opens, and a token
      carries the version prefix and is longer than its text. */
  ghost predicate Lawful(c: Cipher) {
    && (forall k, p, n :: c.dec(k, c.enc(k, p, n)) == Some(p))
    && (forall k, j, p, n :: k != j ==> c.dec(j, c.enc(k, p, n)) == None)
    && (forall k, t :: c.dec(k, t).Some? ==> IsToken(c, k, c.dec(k, t).value, t))
    && (forall k, p, n :: LooksEncrypted(c.enc(k, p, n)) && |c.enc(k, p, n)| > |p|)
  }

  ghost predicate IsToken(c: Cipher, k: string, p: string, t: string) {
    exists n :: t == c.enc(k, p, n)
  }

  /** The two environment variables; "" is unset. */
  datatype Keys = Keys(primary: string, fallback: string)

  datatype Outcome<+T> = Ok(value: T) | KeyUnset | InvalidToken

  function Encrypt(c: Cipher, keys: Keys, plain: Option<string>, nonce: nat): Outcome<Option<string>> {
    if plain.None? then Ok(None)
    else if keys.primary == "" then KeyUnset
    else Ok(Some(c.enc(keys.primary, plain.value, nonce)))
  }

  function Decrypt(c: Cipher, keys: Keys, token: Option<string>): Outcome<Option<string>> {
    if token.None? then Ok(None)
    else if keys.primary == "" then KeyUnset
    else if c.dec(keys.primary, token.value).Some? then Ok(c.dec(keys.primary, token.value))
    else if keys.fallback == "" then InvalidToken
    else if c.dec(keys.fallback, token.value).Some? then Ok(c.dec(keys.fallback, token.value))
    else InvalidToken
  }

  /** The keys a read can open tokens of. */
  predicate Opens(keys: Keys, k: string) {
    k != "" && (k == keys.primary || k == keys.fallback)
  }

  lemma OneKey(c: Cipher, k: string, j: string, t: string)
    requires Lawful(c) && c.dec(k, t).Some? && c.dec(j, t).Some?
    ensures k == j
  {
    var n :| t == c.enc(k, c.dec(k, t).value, n);
  }

  /** What opens carries the version prefix and is longer than its text. */
  lemma OnlyTokensOpen(c: Cipher, k: string, t: string)
    requires Lawful(c)
    ensures c.dec(k, t).Some? ==> LooksEncrypted(t) && |t| > |c.dec(k, t).value|
  {
    if c.dec(k, t).Some? {
      var n :| t == c.enc(k, c.dec(k, t).value, n);
    }
  }

  /** A stored string is read as p exactly when one of the configured keys made it from p. */
  lemma ReadExactly(c: Cipher, keys: Keys, t: string, p: string)
    requires Lawful(c) && keys.primary != ""
    ensures Decrypt(c, keys, Some(t)) == Ok(Some(p)) <==> exists k :: Opens(keys, k) && c.dec(k, t) == Some(p)
  {
    if k :| Opens(keys, k) && c.dec(k, t) == Some(p) {
      if c.dec(keys.primary, t).Some? {
        OneKey(c, k, keys.primary, t);
      }
    }
    if Decrypt(c, keys, Some(t)) == Ok(Some(p)) {
      assert Opens(keys, keys.primary);
      assert keys.fallback != "" ==> Opens(keys, keys.fallback);
    }
  }

  /** A stored string that no configured key opens is refused as such; without a primary key
      nothing is encrypted or opened at all. */
  lemma RefusedExactly(c: Cipher, keys: Keys, t: string, nonce: nat)
    requires Lawful(c)
    ensures Encrypt(c, keys, Some(t), nonce) == KeyUnset <==> keys.primary == ""
    ensures keys.primary != "" ==> Encrypt(c, keys, Some(t), nonce) == Ok(Some(c.enc(keys.primary, t, nonce)))
    ensures Decrypt(c, keys, Some(t)) == KeyUnset <==> keys.primary == ""
    ensures Decrypt(c, keys, Some(t)) == InvalidToken <==>
            keys.primary != "" && c.dec(keys.primary, t).None? && (keys.fallback == "" || c.dec(keys.fallback, t).None?)
  {
  }

  /** What is written is read back, before and after the key it was written under becomes the
      fallback. */
  lemma RoundTrip(c: Cipher, keys: Keys, plain: string, nonce: nat, next: string)
    requires Lawful(c) && keys.primary != "" && next != ""
    ensures var token := Encrypt(c, keys, Some(plain), nonce);
            && token.Ok?
            && Decrypt(c, keys, token.value) == Ok(Some(plain))
            && Decrypt(c, Keys(next, keys.primary), token.value) == Ok(Some(plain))
  {
    var t := c.enc(keys.primary, plain, nonce);
    ReadExactly(c, keys, t, plain);
    ReadExactly(c, Keys(next, keys.primary), t, plain);
    assert Opens(keys, keys.primary) && Opens(Keys(next, keys.primary), keys.primary);
    assert c.dec(keys.primary, t) == Some(plain);
  }

  // --- The laws can be met ---

  function Header(k: string): string {
    TOKEN_PREFIX + Decimal(|k|) + "|" + k
  }

  function Opened(k: string, t: string): Option<string> {
    if |t| >= |Header(k)| && t[..|Header(k)|] == Header(k) then Some(t[|Header(k)|..]) else None
  }

  lemma HeadersDiffer(k: string, p: string, j: string, q: string)
    requires Header(k) + p == Header(j) + q
    ensures k == j
  {
    DecimalIsDigits(|k|);
    DecimalIsDigits(|j|);
    var n := |TOKEN_PREFIX|;
    assert (Header(k) + p)[n..] == Decimal(|k|) + ['|'] + (k + p);
    assert (Header(j) + q)[n..] == Decimal(|j|) + ['|'] + (j + q);
    FirstSplit('|', Decimal(|k|), k + p, Decimal(|j|), j + q);
    DecimalInjective(|k|, |j|);
    assert k == (k + p)[..|k|] && j == (j + q)[..|j|];
  }

  /** Some cipher is lawful, so nothing proved from the laws is proved of nothing. */
  lemma LawsAreConsistent() returns (c: Cipher)
    ensures Lawful(c)
  {
    c := Cipher((k, p, n) => Header(k) + p, (k, t) => Opened(k, t));
    forall k: string, p: string, n: nat
      ensures c.dec(k, c.enc(k, p, n)) == Some(p)
      ensures LooksEncrypted(c.enc(k, p, n)) && |c.enc(k, p, n)| > |p|
    {
    }
    forall k: string, j: string, p: string, n: nat | k != j
      ensures c.dec(j, c.enc(k, p, n)) == None
    {
      var t := Header(k) + p;
      if Opened(j, t).Some? {
        assert t == Header(j) + Opened(j, t).value;
        HeadersDiffer(k, p, j, Opened(j, t).value);
      }
    }
    forall k: string, t: string | c.dec(k, t).Some?
      ensures IsToken(c, k, c.dec(k, t).value, t)
    {
      assert t == c.enc(k, c.dec(k, t).value, 0);
    }
  }
}
