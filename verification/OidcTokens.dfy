/** ID tokens: what the first-party provider signs and what the relying party
    accepts (signIDToken, verifyIDToken, validateClaims, decodeAudience; section
    3.1.3.7 of OpenID Connect Core 1.0). Instants are nanoseconds. */
module OidcTokens {
  import opened Wrappers
  import opened Sequences
  import opened OidcKeys

  const SECOND := 1_000_000_000
  const SKEW := 60 * SECOND

  datatype Audience = Missing | Single(value: string) | Many(values: seq<string>) | Malformed

  /** Absent numeric claims read as zero, absent texts as empty. */
  datatype Claims = Claims(
    issuer: string, subject: string, audience: Audience, authorizedParty: string,
    expiresAt: int, issuedAt: int, notBefore: int, nonce: string,
    email: string, emailVerified: bool, name: string)

  datatype Identity = Identity(issuer: string, subject: string, email: string, emailVerified: bool, name: string)

  datatype Header = Header(alg: string, kid: string)

  /** Relying-party configuration. */
  datatype Party = Party(issuerUrl: string, clientId: string)

  /** The provider: its issuer, client, token lifetime, and signing key. */
  datatype Provider = Provider(issuer: string, clientId: string, lifetime: int, signer: PublishedKey)

  datatype Grant = Grant(userId: string, nonce: string, email: string)

  predicate Blank(s: string) { TrimSpace(s) == "" }

  function TrimSlash(s: string): string {
    if s != "" && s[|s| - 1] == '/' then TrimSlash(s[..|s| - 1]) else s
  }

  /** Time.Unix: whole seconds, rounded down. */
  function Unix(t: int): int { t / SECOND }

  // ------------------------------------------------------------------- claims

  function DecodeAudience(a: Audience): Option<seq<string>> {
    match a
    case Missing => None
    case Malformed => None
    case Single(v) => if Blank(v) then None else Some([v])
    case Many(vs) => if vs == [] then None else Some(vs)
  }

  predicate TimesAccepted(expiresAt: int, issuedAt: int, notBefore: int, now: int) {
    && expiresAt != 0 && expiresAt * SECOND > now - SKEW
    && (notBefore != 0 ==> notBefore * SECOND <= now + SKEW)
    && (issuedAt != 0 ==> issuedAt * SECOND <= now + SKEW)
  }

  predicate AudienceAccepted(clientId: string, audience: Audience, authorizedParty: string) {
    var audiences := DecodeAudience(audience);
    audiences.Some? && clientId in audiences.value && (|audiences.value| > 1 ==> authorizedParty == clientId)
  }

  /** validateClaims. */
  predicate ClaimsAccepted(party: Party, c: Claims, nonceHash: string, now: int, hash: string -> string) {
    && c.issuer == TrimSlash(party.issuerUrl) && !Blank(c.subject)
    && AudienceAccepted(party.clientId, c.audience, c.authorizedParty)
    && TimesAccepted(c.expiresAt, c.issuedAt, c.notBefore, now)
    && !Blank(c.nonce) && hash(c.nonce) == nonceHash
  }

  /** The claims that signIDToken writes at an instant. */
  function IssuedClaims(p: Provider, g: Grant, at: int): Claims {
    Claims(p.issuer, "biz-user:" + g.userId, Single(p.clientId), "", Unix(at + p.lifetime), Unix(at), 0, g.nonce,
           if Blank(g.email) then "" else g.email, !Blank(g.email), "")
  }

  lemma SubjectNotBlank(userId: string)
    ensures !Blank("biz-user:" + userId)
  {
    var s := "biz-user:" + userId;
    assert s[0] == 'b';
    TrimRightKeeps(s);
  }

  /** Configurations that the runtime accepts together. */
  predicate Matched(p: Provider, party: Party) {
    TrimSlash(party.issuerUrl) == p.issuer && party.clientId == p.clientId && !Blank(p.clientId) && p.lifetime > 0
  }

  /** When the relying party accepts the provider's claims: exactly within the
      token's life and skew, with the two zero instants treated as absent. */
  lemma IssuedClaimsAccepted(p: Provider, party: Party, g: Grant, at: int, now: int, nonceHash: string, hash: string -> string)
    requires Matched(p, party)
    ensures ClaimsAccepted(party, IssuedClaims(p, g, at), nonceHash, now, hash) <==>
      && !Blank(g.nonce) && hash(g.nonce) == nonceHash
      && Unix(at + p.lifetime) != 0 && Unix(at + p.lifetime) * SECOND > now - SKEW
      && (Unix(at) == 0 || Unix(at) * SECOND <= now + SKEW)
  {
    SubjectNotBlank(g.userId);
  }

  /** From one second after the epoch on, the zero cases cannot arise. */
  lemma IssuedClaimsWindow(p: Provider, party: Party, g: Grant, at: int, now: int, hash: string -> string)
    requires Matched(p, party) && at >= SECOND && !Blank(g.nonce)
    ensures ClaimsAccepted(party, IssuedClaims(p, g, at), hash(g.nonce), now, hash) <==>
      Unix(at + p.lifetime) * SECOND > now - SKEW && Unix(at) * SECOND <= now + SKEW
  {
    IssuedClaimsAccepted(p, party, g, at, now, hash(g.nonce), hash);
    assert Unix(at) >= 1;
    assert Unix(at + p.lifetime) >= 1;
  }

  // -------------------------------------------------------------- wire format

  /** Encoding, JSON and RSA, not interpreted by the model. */
  datatype Wire = Wire(
    codec: Codec,
    headerJson: Header -> Octets, parseHeader: Octets -> Option<Header>,
    claimsJson: Claims -> Octets, parseClaims: Octets -> Option<Claims>,
    sign: (PublicKey, string) -> Option<Octets>, verify: (PublicKey, string, Octets) -> bool,
    hash: string -> string)

  /** What the model assumes of them: decoding undoes encoding, encoded text has
      no dots, and a signature verifies under the key that made it. Signing
      may fail, as it does in Go's crypto/rsa for exponents from 2^31 on. */
  ghost predicate Sound(w: Wire) {
    && Faithful(w.codec)
    && (forall b :: '.' !in w.codec.encode(b))
    && (forall h :: w.parseHeader(w.headerJson(h)) == Some(h))
    && (forall c :: w.parseClaims(w.claimsJson(c)) == Some(c))
    && (forall k, m :: w.sign(k, m).Some? ==> w.verify(k, m, w.sign(k, m).value))
  }

  function Unsigned(w: Wire, h: Header, c: Claims): string {
    w.codec.encode(w.headerJson(h)) + "." + w.codec.encode(w.claimsJson(c))
  }

  /** signIDToken. */
  function SignToken(w: Wire, p: Provider, g: Grant, at: int): Option<string> {
    var unsigned := Unsigned(w, Header("RS256", p.signer.kid), IssuedClaims(p, g, at));
    var signature := w.sign(p.signer.key, unsigned);
    if signature.None? then None else Some(unsigned + "." + w.codec.encode(signature.value))
  }

  function VerifyParts(w: Wire, parts: seq<string>, jwks: seq<Jwk>, party: Party, nonceHash: string, now: int): Option<Identity>
    requires |parts| == 3
  {
    var headerBytes := w.codec.decode(parts[0]);
    var header := if headerBytes.Some? then w.parseHeader(headerBytes.value) else None;
    if header.None? || header.value.alg != "RS256" || Blank(header.value.kid) then None
    else
      var key := FirstKey(jwks, header.value.kid, w.codec);
      var signature := w.codec.decode(parts[2]);
      if key.None? || signature.None? || !w.verify(key.value, parts[0] + "." + parts[1], signature.value) then None
      else
        var claimsBytes := w.codec.decode(parts[1]);
        var claims := if claimsBytes.Some? then w.parseClaims(claimsBytes.value) else None;
        if claims.None? || !ClaimsAccepted(party, claims.value, nonceHash, now, w.hash) then None
        else
          var c := claims.value;
          Some(Identity(c.issuer, c.subject, c.email, c.emailVerified, c.name))
  }

  /** verifyIDToken, given the fetched key set. */
  function VerifyToken(w: Wire, raw: string, jwks: seq<Jwk>, party: Party, nonceHash: string, now: int): Option<Identity> {
    var parts := Split(raw, '.');
    if |parts| != 3 then None else VerifyParts(w, parts, jwks, party, nonceHash, now)
  }

  /** A signed token splits into the three texts it was built from. */
  lemma TokenParts(w: Wire, p: Provider, g: Grant, at: int)
    requires Sound(w) && SignToken(w, p, g, at).Some?
    ensures var h, c := Header("RS256", p.signer.kid), IssuedClaims(p, g, at);
      Split(SignToken(w, p, g, at).value, '.') ==
      [w.codec.encode(w.headerJson(h)), w.codec.encode(w.claimsJson(c)), w.codec.encode(w.sign(p.signer.key, Unsigned(w, h, c)).value)]
  {
    var h, c := Header("RS256", p.signer.kid), IssuedClaims(p, g, at);
    var x, y := w.codec.encode(w.headerJson(h)), w.codec.encode(w.claimsJson(c));
    var z := w.codec.encode(w.sign(p.signer.key, Unsigned(w, h, c)).value);
    assert Join([y, z], '.') == y + ['.'] + z;
    assert [x, y, z][1..] == [y, z];
    assert Join([x, y, z], '.') == x + ['.'] + Join([y, z], '.');
    assert SignToken(w, p, g, at).value == Join([x, y, z], '.');
    SplitOfJoin([x, y, z], '.');
  }

  /** The identity that a grant comes to: none if no token could be signed. */
  function Redeemed(w: Wire, token: Option<string>, jwks: seq<Jwk>, party: Party, nonceHash: string, now: int): Option<Identity> {
    if token.None? then None else VerifyToken(w, token.value, jwks, party, nonceHash, now)
  }

  /** Issuer and verifier agree across rotation: a grant is redeemed against a
      later key set that still publishes p's signer if and only if its token was
      signed, the exponent is publishable and the claims are accepted at that
      time, and then the identity is the one that was granted. */
  lemma IssuerVerifierAgree(w: Wire, p: Provider, party: Party, g: Grant, at: int, now: int, nonceHash: string, published: seq<PublishedKey>)
    requires Sound(w) && Matched(p, party) && !Blank(p.signer.kid)
    requires DistinctIds(published) && p.signer in published && forall k :: k in published ==> k.key.n > 0
    ensures var r := Redeemed(w, SignToken(w, p, g, at), Jwks(published, w.codec), party, nonceHash, now);
      var claims := IssuedClaims(p, g, at);
      && (r.Some? <==> SignToken(w, p, g, at).Some? && 3 <= p.signer.key.e < 0x1_0000_0000 && ClaimsAccepted(party, claims, nonceHash, now, w.hash))
      && (r.Some? ==> r.value == Identity(p.issuer, "biz-user:" + g.userId, claims.email, claims.emailVerified, ""))
  {
    if SignToken(w, p, g, at).Some? {
      TokenParts(w, p, g, at);
      KeyLookup(published, p.signer, w.codec);
      var h, c := Header("RS256", p.signer.kid), IssuedClaims(p, g, at);
      assert w.parseHeader(w.headerJson(h)) == Some(h) && w.parseClaims(w.claimsJson(c)) == Some(c);
      assert w.verify(p.signer.key, Unsigned(w, h, c), w.sign(p.signer.key, Unsigned(w, h, c)).value);
    }
  }

  /** Rotation, from configuration to identity: whatever configuration comes
      later, if its signing or previous keys still include the key that signed a
      token and it yields a key set at all, the grant is redeemed exactly when the
      token was signed, the exponent is publishable and the claims are accepted at
      that time. */
  lemma RotationAgrees(w: Wire, p: Provider, party: Party, g: Grant, at: int, now: int, nonceHash: string,
                       signing: ConfiguredKey, previous: seq<ConfiguredKey>, thumbprint: PublicKey -> string, keys: seq<PublishedKey>)
    requires Sound(w) && Matched(p, party) && forall k :: !Blank(thumbprint(k))
    requires KeySet(keys, signing, previous, thumbprint)
    requires exists c :: c in [signing] + previous && Publish(c, thumbprint) == Some(p.signer)
    ensures var r := Redeemed(w, SignToken(w, p, g, at), Jwks(keys, w.codec), party, nonceHash, now);
      var claims := IssuedClaims(p, g, at);
      && (r.Some? <==> SignToken(w, p, g, at).Some? && 3 <= p.signer.key.e < 0x1_0000_0000 && ClaimsAccepted(party, claims, nonceHash, now, w.hash))
      && (r.Some? ==> r.value == Identity(p.issuer, "biz-user:" + g.userId, claims.email, claims.emailVerified, ""))
  {
    var configured := [signing] + previous;
    var i :| 0 <= i < |configured| && Publish(configured[i], thumbprint) == Some(p.signer);
    assert keys[i] == p.signer;
    PublishedUsable(keys, signing, previous, thumbprint);
    IssuerVerifierAgree(w, p, party, g, at, now, nonceHash, keys);
  }

  /** A key set that has dropped the signer's key id refuses its tokens. */
  lemma RetiredKeyRefused(w: Wire, p: Provider, party: Party, g: Grant, at: int, now: int, nonceHash: string, published: seq<PublishedKey>)
    requires Sound(w) && DistinctIds(published) && forall k :: k in published ==> k.kid != p.signer.kid && k.key.n > 0
    ensures Redeemed(w, SignToken(w, p, g, at), Jwks(published, w.codec), party, nonceHash, now) == None
  {
    if SignToken(w, p, g, at).Some? {
      TokenParts(w, p, g, at);
      KeyLookup(published, p.signer, w.codec);
      var h := Header("RS256", p.signer.kid);
      assert w.parseHeader(w.headerJson(h)) == Some(h);
    }
  }
}
