/** Signing keys of the first-party identity provider: the published key set,
    key lookup by key id, and the encoding of RSA numbers (section 6.3.1 of
    RFC 7518; key ids as in section 4.5 of RFC 7517). */
module OidcKeys {
  import opened Wrappers
  import opened Sequences

  type Octet = n: int | 0 <= n < 256
  type Octets = seq<Octet>

  datatype PublicKey = PublicKey(n: nat, e: int)

  // --------------------------------------------------------- number encoding

  /** big.Int.Bytes: big-endian without leading zeros; empty for zero. */
  function BigEndian(n: nat): (b: Octets)
    ensures n > 0 ==> |b| > 0
  {
    if n == 0 then [] else BigEndian(n / 256) + [n % 256]
  }

  function FromBigEndian(b: Octets): nat {
    if b == [] then 0 else 256 * FromBigEndian(b[..|b| - 1]) + b[|b| - 1]
  }

  lemma {:induction false} BigEndianRoundTrip(n: nat)
    ensures FromBigEndian(BigEndian(n)) == n
  {
    if n > 0 {
      var b := BigEndian(n);
      assert b[..|b| - 1] == BigEndian(n / 256);
      BigEndianRoundTrip(n / 256);
    }
  }

  function Pow256(k: nat): (p: nat)
    ensures p > 0
  {
    if k == 0 then 1 else 256 * Pow256(k - 1)
  }

  /** A number needs at most `k` octets exactly when it is below 256 to the k. */
  lemma {:induction false} BigEndianLength(n: nat, k: nat)
    ensures |BigEndian(n)| <= k <==> n < Pow256(k)
    decreases k
  {
    if k > 0 && n > 0 {
      BigEndianLength(n / 256, k - 1);
      assert n / 256 < Pow256(k - 1) <==> n < 256 * Pow256(k - 1);
    }
  }

  /** rsaExponentBytes. */
  function ExponentBytes(e: int): Octets { if e <= 0 then [] else BigEndian(e) }

  /** What rsaKeyFromJWK makes of exponent octets. */
  function ExponentOf(b: Octets): Option<nat> {
    if 1 <= |b| <= 4 && FromBigEndian(b) >= 3 then Some(FromBigEndian(b)) else None
  }

  /** The accumulation loop of rsaKeyFromJWK. */
  method DecodeExponent(b: Octets) returns (r: Option<nat>)
    ensures r == ExponentOf(b)
  {
    if |b| == 0 || |b| > 4 {
      return None;
    }
    var exponent: nat := 0;
    var i := 0;
    while i < |b|
      invariant 0 <= i <= |b|
      invariant exponent == FromBigEndian(b[..i])
    {
      assert b[..i + 1][..i] == b[..i];
      exponent := exponent * 256 + b[i];
      i := i + 1;
    }
    assert b[..i] == b;
    r := if exponent < 3 then None else Some(exponent);
  }

  lemma FourOctets()
    ensures Pow256(4) == 0x1_0000_0000
  {
    assert Pow256(1) == 256 && Pow256(2) == 0x1_0000 && Pow256(3) == 0x100_0000;
  }

  /** The exponent survives publication exactly from 3 up to below 2^32, and is
      refused everywhere else. */
  lemma ExponentAgreement(e: int)
    ensures ExponentOf(ExponentBytes(e)) == if 3 <= e < 0x1_0000_0000 then Some(e) else None
  {
    if e > 0 {
      BigEndianRoundTrip(e);
      BigEndianLength(e, 4);
      FourOctets();
    }
  }

  // ------------------------------------------------------------------- key set

  /** A key as configured: its parsed form, if it parses, and a key id. */
  datatype ConfiguredKey = ConfiguredKey(parsed: Option<PublicKey>, keyId: string)

  datatype PublishedKey = PublishedKey(kid: string, key: PublicKey)

  function BitLen(n: nat): nat { if n == 0 then 0 else 1 + BitLen(n / 2) }

  predicate Usable(c: ConfiguredKey) { c.parsed.Some? && BitLen(c.parsed.value.n) >= 2048 }

  /** rsaKeyID: the configured id, or a thumbprint of the key. */
  function KeyId(c: ConfiguredKey, thumbprint: PublicKey -> string): string
    requires c.parsed.Some?
  {
    if TrimSpace(c.keyId) != "" then TrimSpace(c.keyId) else thumbprint(c.parsed.value)
  }

  ghost predicate DistinctIds(keys: seq<PublishedKey>) {
    forall i, j :: 0 <= i < j < |keys| ==> keys[i].kid != keys[j].kid
  }

  /** The published form of a configured key, if it is usable. */
  function Publish(c: ConfiguredKey, thumbprint: PublicKey -> string): Option<PublishedKey> {
    if Usable(c) then Some(PublishedKey(KeyId(c, thumbprint), c.parsed.value)) else None
  }

  /** `keys` are all the configured keys in published form. */
  ghost predicate Publishes(keys: seq<PublishedKey>, configured: seq<ConfiguredKey>, publish: ConfiguredKey -> Option<PublishedKey>) {
    |keys| == |configured| && forall i :: 0 <= i < |keys| ==> publish(configured[i]) == Some(keys[i])
  }

  /** What newRuntimeFirstPartyIdP yields for a configuration: the keys that
      NewKeySet accepts. */
  ghost predicate KeySet(keys: seq<PublishedKey>, signing: ConfiguredKey, previous: seq<ConfiguredKey>, thumbprint: PublicKey -> string) {
    Publishes(keys, [signing] + previous, c => Publish(c, thumbprint)) && DistinctIds(keys)
  }

  /** Every key that a configuration publishes has a modulus and an id that is
      not blank, given that no thumbprint is blank. */
  lemma PublishedUsable(keys: seq<PublishedKey>, signing: ConfiguredKey, previous: seq<ConfiguredKey>, thumbprint: PublicKey -> string)
    requires KeySet(keys, signing, previous, thumbprint) && forall k :: TrimSpace(thumbprint(k)) != ""
    ensures forall k :: k in keys ==> k.key.n > 0 && TrimSpace(k.kid) != ""
  {
    var configured := [signing] + previous;
    forall i | 0 <= i < |keys| ensures keys[i].key.n > 0 && TrimSpace(keys[i].kid) != "" {
      assert Publish(configured[i], thumbprint) == Some(keys[i]);
      TrimSpaceTwice(configured[i].keyId);
    }
  }

  /** newRuntimeFirstPartyIdP: the signing key followed by the previous keys, or
      nothing if any key is unusable or any key id repeats. */
  method NewKeySet(signing: ConfiguredKey, previous: seq<ConfiguredKey>, publish: ConfiguredKey -> Option<PublishedKey>)
      returns (r: Option<seq<PublishedKey>>)
    ensures r.Some? ==> Publishes(r.value, [signing] + previous, publish) && DistinctIds(r.value)
    ensures r.None? ==> forall keys :: Publishes(keys, [signing] + previous, publish) ==> !DistinctIds(keys)
  {
    ghost var all := [signing] + previous;
    var current := publish(signing);
    if current.None? {
      assert all[0] == signing;
      return None;
    }
    var keys := [current.value];
    var seen := {current.value.kid};
    assert keys[0].kid in seen;
    var i := 0;
    while i < |previous|
      invariant 0 <= i <= |previous|
      invariant Publishes(keys, all[..i + 1], publish) && DistinctIds(keys)
      invariant forall j :: 0 <= j < |keys| ==> keys[j].kid in seen
      invariant forall kid :: kid in seen ==> exists j :: 0 <= j < |keys| && keys[j].kid == kid
    {
      var next := publish(previous[i]);
      assert all[i + 1] == previous[i] && all[..i + 2] == all[..i + 1] + [previous[i]];
      if next.None? {
        return None;
      }
      if next.value.kid in seen {
        ghost var j :| 0 <= j < |keys| && keys[j].kid == next.value.kid;
        forall other: seq<PublishedKey> | Publishes(other, all, publish) ensures !DistinctIds(other) {
          assert publish(all[j]) == Some(keys[j]) by { assert all[..i + 1][j] == all[j]; }
          assert other[j].kid == other[i + 1].kid;
        }
        return None;
      }
      seen := seen + {next.value.kid};
      keys := keys + [next.value];
      i := i + 1;
    }
    assert all[..i + 1] == all;
    r := Some(keys);
  }

  // ----------------------------------------------------------------------- JWKS

  /** Base64url without padding, as a codec that loses nothing. */
  datatype Codec = Codec(encode: Octets -> string, decode: string -> Option<Octets>)

  ghost predicate Faithful(c: Codec) { forall b :: c.decode(c.encode(b)) == Some(b) }

  datatype Jwk = Jwk(kty: string, use: string, alg: string, kid: string, n: string, e: string)

  function JwkOf(k: PublishedKey, c: Codec): Jwk {
    Jwk("RSA", "sig", "RS256", k.kid, c.encode(BigEndian(k.key.n)), c.encode(ExponentBytes(k.key.e)))
  }

  /** handleJWKS. */
  function Jwks(keys: seq<PublishedKey>, c: Codec): (r: seq<Jwk>)
    ensures |r| == |keys|
  {
    seq(|keys|, i requires 0 <= i < |keys| => JwkOf(keys[i], c))
  }

  /** rsaKeyFromJWK. */
  function KeyFromJwk(jwk: Jwk, c: Codec): Option<PublicKey> {
    var n, e := c.decode(jwk.n), c.decode(jwk.e);
    if n.None? || n.value == [] || e.None? then None
    else
      var exponent := ExponentOf(e.value);
      if exponent.None? then None else Some(PublicKey(FromBigEndian(n.value), exponent.value))
  }

  predicate Candidate(jwk: Jwk, kid: string) {
    jwk.kid == kid && jwk.kty == "RSA" && (jwk.use == "" || jwk.use == "sig") && (jwk.alg == "" || jwk.alg == "RS256")
  }

  /** fetchRSAKey: the first candidate decides, whether or not it decodes. */
  method FetchKey(jwks: seq<Jwk>, kid: string, c: Codec) returns (r: Option<PublicKey>)
    ensures r == FirstKey(jwks, kid, c)
  {
    var i := 0;
    while i < |jwks|
      invariant 0 <= i <= |jwks|
      invariant FirstKey(jwks, kid, c) == FirstKey(jwks[i..], kid, c)
    {
      if Candidate(jwks[i], kid) {
        return KeyFromJwk(jwks[i], c);
      }
      i := i + 1;
    }
    r := None;
  }

  function FirstKey(jwks: seq<Jwk>, kid: string, c: Codec): Option<PublicKey> {
    if jwks == [] then None
    else if Candidate(jwks[0], kid) then KeyFromJwk(jwks[0], c)
    else FirstKey(jwks[1..], kid, c)
  }

  /** A published key decodes to itself exactly within the exponent bounds. */
  lemma JwkRoundTrip(k: PublishedKey, c: Codec)
    requires Faithful(c) && k.key.n > 0
    ensures KeyFromJwk(JwkOf(k, c), c) == if 3 <= k.key.e < 0x1_0000_0000 then Some(k.key) else None
  {
    BigEndianRoundTrip(k.key.n);
    ExponentAgreement(k.key.e);
  }

  lemma {:induction false} LookupFinds(keys: seq<PublishedKey>, i: nat, c: Codec)
    requires DistinctIds(keys) && i < |keys|
    ensures FirstKey(Jwks(keys, c), keys[i].kid, c) == KeyFromJwk(JwkOf(keys[i], c), c)
  {
    assert Jwks(keys, c)[1..] == Jwks(keys[1..], c);
    if i > 0 {
      LookupFinds(keys[1..], i - 1, c);
    }
  }

  lemma {:induction false} LookupMisses(keys: seq<PublishedKey>, kid: string, c: Codec)
    requires forall i :: 0 <= i < |keys| ==> keys[i].kid != kid
    ensures FirstKey(Jwks(keys, c), kid, c) == None
  {
    if keys != [] {
      assert Jwks(keys, c)[1..] == Jwks(keys[1..], c);
      LookupMisses(keys[1..], kid, c);
    }
  }

  /** Across rotation: looking up a key id in any published set yields the very
      key that was published under it, for every key within the exponent
      bounds, and nothing for an id that is no longer published. */
  lemma KeyLookup(keys: seq<PublishedKey>, signer: PublishedKey, c: Codec)
    requires Faithful(c) && DistinctIds(keys) && forall k :: k in keys ==> k.key.n > 0
    ensures signer in keys ==>
      FirstKey(Jwks(keys, c), signer.kid, c) == if 3 <= signer.key.e < 0x1_0000_0000 then Some(signer.key) else None
    ensures (forall k :: k in keys ==> k.kid != signer.kid) ==> FirstKey(Jwks(keys, c), signer.kid, c) == None
  {
    if signer in keys {
      var i :| 0 <= i < |keys| && keys[i] == signer;
      LookupFinds(keys, i, c);
      JwkRoundTrip(signer, c);
    }
    if forall k :: k in keys ==> k.kid != signer.kid {
      LookupMisses(keys, signer.kid, c);
    }
  }
}
