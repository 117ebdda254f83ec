// JWT validation against the retained signing keys. HMAC is idealised: a signature
// verifies under a key exactly when the token was signed with that key.
module JwtValidation {
  import opened Wrappers

  /** The issuer and audience the service expects, and Python's UUID parser. */
  datatype Settings = Settings(issuer: string, audience: string, uuid: string -> Option<nat>)

  /** A role or permission list item; `None` is an item that is not a string. */
  type Item = Option<string>

  /** The payload; `roles` and `permissions` are `None` when the claim is not a list. */
  datatype Claims = Claims(
    exp: Option<real>, iat: Option<real>, nbf: Option<real>, sub: Option<string>,
    iss: Option<string>, aud: Option<seq<string>>, tenantId: Option<string>,
    roles: Option<seq<Item>>, permissions: Option<seq<Item>>)

  datatype Token = Unparseable | Token(signedWith: string, claims: Claims)

  /** jwt.decode: a payload or one of the exceptions the key loop tells apart. */
  datatype Decoded = Payload(claims: Claims) | ExpiredSignature | InvalidSignature | OtherInvalid

  datatype TokenError = TokenExpired | TokenInvalid

  datatype VerifiedClaims = VerifiedClaims(subject: nat, tenantId: nat, roles: set<string>, permissions: set<string>)

  function CheckClaims(settings: Settings, c: Claims, now: real): Decoded {
    if c.exp.None? || c.iat.None? || c.sub.None? || c.iss.None? || c.aud.None? then OtherInvalid
    else if c.iat.value > now then OtherInvalid
    else if c.nbf.Some? && c.nbf.value > now then OtherInvalid
    else if c.exp.value <= now then ExpiredSignature
    else if c.iss.value != settings.issuer then OtherInvalid
    else if settings.audience !in c.aud.value then OtherInvalid
    else Payload(c)
  }

  /** The signature is checked before any claim is looked at. */
  function Decode(settings: Settings, token: Token, key: string, now: real): Decoded {
    if token.Unparseable? then OtherInvalid
    else if token.signedWith != key then InvalidSignature
    else CheckClaims(settings, token.claims, now)
  }

  function Strings(items: Option<seq<Item>>): set<string> {
    if items.None? then {} else set s <- items.value | s.Some? :: s.value
  }

  function ExtractClaims(settings: Settings, c: Claims): Result<VerifiedClaims, TokenError> {
    var subject := if c.sub.Some? then settings.uuid(c.sub.value) else None;
    if subject.None? then Err(TokenInvalid)
    else
      var tenant := if c.tenantId.Some? then settings.uuid(c.tenantId.value) else None;
      if tenant.None? then Err(TokenInvalid)
      else Ok(VerifiedClaims(subject.value, tenant.value, Strings(c.roles), Strings(c.permissions)))
  }

  // ---------- The specification: some retained key signed it, and its claims hold ----------

  function ClaimsVerdict(settings: Settings, c: Claims, now: real): Result<VerifiedClaims, TokenError> {
    match CheckClaims(settings, c, now)
    case Payload(claims) => ExtractClaims(settings, claims)
    case ExpiredSignature => Err(TokenExpired)
    case _ => Err(TokenInvalid)
  }

  function Verdict(settings: Settings, keys: seq<string>, token: Token, now: real): Result<VerifiedClaims, TokenError> {
    if token.Token? && token.signedWith in keys then ClaimsVerdict(settings, token.claims, now) else Err(TokenInvalid)
  }

  /** The key loop of validate_token: only a signature mismatch moves on to the next key. */
  method TryKeys(settings: Settings, keys: seq<string>, token: Token, now: real)
    returns (result: Result<VerifiedClaims, TokenError>)
    ensures result == Verdict(settings, keys, token, now)
  {
    for i := 0 to |keys|
      invariant token.Token? ==> token.signedWith !in keys[..i]
      invariant token.Unparseable? ==> i == 0
    {
      match Decode(settings, token, keys[i], now) {
        case Payload(claims) =>
          return ExtractClaims(settings, claims);
        case ExpiredSignature =>
          return Err(TokenExpired);
        case InvalidSignature =>
          assert keys[..i + 1] == keys[..i] + [keys[i]];
          continue;
        case OtherInvalid =>
          return Err(TokenInvalid);
      }
    }
    assert keys[..|keys|] == keys;
    return Err(TokenInvalid);
  }

  ghost predicate ClaimsHold(settings: Settings, c: Claims, now: real) {
    && c.exp.Some? && now < c.exp.value
    && c.iat.Some? && c.iat.value <= now
    && (c.nbf.Some? ==> c.nbf.value <= now)
    && c.iss == Some(settings.issuer)
    && c.aud.Some? && settings.audience in c.aud.value
    && c.sub.Some? && settings.uuid(c.sub.value).Some?
    && c.tenantId.Some? && settings.uuid(c.tenantId.value).Some?
  }

  /** The claims that are checked before the expiry. */
  ghost predicate ReachesExpiryCheck(c: Claims, now: real) {
    && c.exp.Some? && c.iat.Some? && c.sub.Some? && c.iss.Some? && c.aud.Some?
    && c.iat.value <= now && (c.nbf.Some? ==> c.nbf.value <= now)
  }

  /** A token is accepted exactly when a retained key signed it and every claim holds now; it
      is reported as expired exactly when a retained key signed it, nothing checked earlier
      fails and its expiry has come. The order in which keys are tried never matters. */
  lemma AcceptedIff(settings: Settings, keys: seq<string>, token: Token, now: real)
    ensures Verdict(settings, keys, token, now).Ok? <==>
            token.Token? && token.signedWith in keys && ClaimsHold(settings, token.claims, now)
    ensures Verdict(settings, keys, token, now) == Err(TokenExpired) <==>
            token.Token? && token.signedWith in keys && ReachesExpiryCheck(token.claims, now)
            && token.claims.exp.value <= now
    ensures forall other: seq<string> :: (forall k :: k in other <==> k in keys) ==>
              Verdict(settings, other, token, now) == Verdict(settings, keys, token, now)
  {
  }

  /** What an accepted token says: its own identifiers, and of the role and permission lists
      the items that are strings. */
  lemma VerifiedClaimsAreTheTokens(settings: Settings, keys: seq<string>, token: Token, now: real)
    requires Verdict(settings, keys, token, now).Ok?
    ensures var v := Verdict(settings, keys, token, now).value;
            && settings.uuid(token.claims.sub.value) == Some(v.subject)
            && settings.uuid(token.claims.tenantId.value) == Some(v.tenantId)
            && (forall r :: r in v.roles <==> token.claims.roles.Some? && Some(r) in token.claims.roles.value)
            && (forall p :: p in v.permissions <==>
                  token.claims.permissions.Some? && Some(p) in token.claims.permissions.value)
  {
    StringsAreTheStringItems(token.claims.roles);
    StringsAreTheStringItems(token.claims.permissions);
  }

  lemma StringsAreTheStringItems(items: Option<seq<Item>>)
    ensures forall s :: s in Strings(items) <==> items.Some? && Some(s) in items.value
  {
    if items.Some? {
      forall s | Some(s) in items.value
        ensures s in Strings(items)
      {
        var item: Item := Some(s);
        assert item in items.value && item.Some? && item.value == s;
      }
    }
  }
}
