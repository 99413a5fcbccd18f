/**
 * Team entitlement tokens: JWS Compact Serialization (section 7.1 of RFC 7515) with EdDSA, and the
 * write access they grant. JSON and Ed25519 are abstract; base64url, the splitting and the 64-bit time
 * arithmetic are concrete.
 */
module Entitlement {
  import opened Wrappers
  import opened Bytes
  import opened Introductions
  import Base64

  const AUDIENCE: string := "hybridcipher-desktop-cli"
  const TOKEN_TYPE: string := "hc-entitlement+jwt"
  const ALGORITHM: string := "EdDSA"
  const TEAM_PLAN: string := "team"
  const OFFLINE_VALIDITY_SECONDS: int := 30 * 24 * 60 * 60
  const CLOCK_SKEW_SECONDS: int := 300

  const I64_MAX: int := 0x7FFF_FFFF_FFFF_FFFF

  type I64 = n: int | -0x8000_0000_0000_0000 <= n <= 0x7FFF_FFFF_FFFF_FFFF

  datatype Claims = Claims(
    iss: string,
    aud: string,
    sub: string,
    organizationId: string,
    plan: string,
    team: bool,
    maxMembers: nat,
    entitlementVersion: I64,
    iat: I64,
    exp: I64)

  datatype Header = Header(alg: string, typ: string, kid: string)

  datatype TrustedKey = TrustedKey(kid: string, key: Octets)

  datatype Error = InvalidClaims | Malformed | InvalidHeader | WrongType | UnknownKey | InvalidSignature
                 | InvalidPayload | Rejected

  /** JSON texts of headers and claims. */
  datatype Json = Json(
    writeHeader: Header -> Octets,
    readHeader: Octets -> Option<Header>,
    writeClaims: Claims -> Octets,
    readClaims: Octets -> Option<Claims>)
  {
    /** Reading gives back what was written. */
    ghost predicate Faithful() {
      && (forall h :: readHeader(writeHeader(h)) == Some(h))
      && (forall c :: readClaims(writeClaims(c)) == Some(c))
    }
  }

  // ----- Text

  /** `str::split`: at least one part, and the parts hold no separator. */
  function SplitOn(s: string, sep: char): (parts: seq<string>)
    ensures |parts| >= 1
  {
    if s == "" then [""]
    else
      var rest := SplitOn(s[1..], sep);
      if s[0] == sep then [""] + rest else [[s[0]] + rest[0]] + rest[1..]
  }

  lemma {:induction false} SplitWithout(s: string, sep: char)
    requires sep !in s
    ensures SplitOn(s, sep) == [s]
  {
    if s != "" {
      SplitWithout(s[1..], sep);
      assert s == [s[0]] + s[1..];
    }
  }

  /** Joining and splitting again. */
  lemma {:induction false} SplitJoined(s: string, rest: string, sep: char)
    requires sep !in s
    ensures SplitOn(s + [sep] + rest, sep) == [s] + SplitOn(rest, sep)
    decreases |s|
  {
    var all := s + [sep] + rest;
    if s == "" {
      assert all[1..] == rest;
    } else {
      SplitJoined(s[1..], rest, sep);
      assert all[1..] == s[1..] + [sep] + rest;
      assert s == [s[0]] + s[1..];
    }
  }

  function TrimEndMatches(s: string, c: char): (r: string) {
    if s != "" && s[|s| - 1] == c then TrimEndMatches(s[..|s| - 1], c) else s
  }

  // ----- Signing and verifying

  function Encoded(b: Octets): (s: string) {
    Base64.Encode(Base64.URL_SAFE_NO_PAD, b)
  }

  function Decoded(s: string): (b: Option<Octets>) {
    Base64.Decode(Base64.URL_SAFE_NO_PAD, s)
  }

  function SigningInput(header: string, payload: string): (s: string) {
    header + ['.'] + payload
  }

  function Sign(json: Json, scheme: SignatureScheme, claims: Claims, kid: string, secret: Octets):
    (r: Result<string, Error>)
  {
    if kid == "" || claims.aud != AUDIENCE || claims.plan != TEAM_PLAN || !claims.team then Err(InvalidClaims)
    else
      var header := Encoded(json.writeHeader(Header(ALGORITHM, TOKEN_TYPE, kid)));
      var payload := Encoded(json.writeClaims(claims));
      var signature := scheme.sign(secret, Utf8(SigningInput(header, payload)));
      Ok(SigningInput(header, payload) + ['.'] + Encoded(signature))
  }

  /** The first trusted key with this identifier. */
  function FindKey(keys: seq<TrustedKey>, kid: string): (key: Option<TrustedKey>)
    ensures key.Some? <==> exists k <- keys :: k.kid == kid
    ensures key.Some? ==> key.value in keys && key.value.kid == kid
  {
    if keys == [] then None else if keys[0].kid == kid then Some(keys[0]) else FindKey(keys[1..], kid)
  }

  /** The part of verification that does not look at the clock: the claims the token proves. */
  function Authenticate(json: Json, scheme: SignatureScheme, token: string, keys: seq<TrustedKey>):
    (r: Result<Claims, Error>)
  {
    var parts := SplitOn(token, '.');
    if |parts| != 3 then Err(Malformed)
    else AuthenticateParts(json, scheme, parts[0], parts[1], parts[2], keys)
  }

  function AuthenticateParts(json: Json, scheme: SignatureScheme, header: string, payload: string, signature: string,
                             keys: seq<TrustedKey>): (r: Result<Claims, Error>)
  {
    var headerBytes := Decoded(header);
    var decodedHeader := if headerBytes.None? then None else json.readHeader(headerBytes.value);
    if decodedHeader.None? then Err(InvalidHeader)
    else if decodedHeader.value.alg != ALGORITHM || decodedHeader.value.typ != TOKEN_TYPE then Err(WrongType)
    else
      var key := FindKey(keys, decodedHeader.value.kid);
      if key.None? then Err(UnknownKey)
      else
        var signatureBytes := Decoded(signature);
        if signatureBytes.None?
          || !scheme.verifies(key.value.key, Utf8(SigningInput(header, payload)), signatureBytes.value)
        then Err(InvalidSignature)
        else
          var payloadBytes := Decoded(payload);
          var claims := if payloadBytes.None? then None else json.readClaims(payloadBytes.value);
          if claims.None? then Err(InvalidPayload) else Ok(claims.value)
  }

  function SaturatingAdd(a: I64, b: nat): (r: I64) {
    if a + b > I64_MAX then I64_MAX else a + b
  }

  function CheckedSub(a: I64, b: I64): (r: Option<I64>) {
    var d: int := a as int - b as int;
    if -0x8000_0000_0000_0000 <= d <= I64_MAX then Some(d) else None
  }

  /** What the claims must say whatever the time is. */
  predicate ForAccount(claims: Claims, issuer: string, user: string) {
    && TrimEndMatches(claims.iss, '/') == TrimEndMatches(issuer, '/')
    && claims.aud == AUDIENCE && claims.sub == user && claims.plan == TEAM_PLAN && claims.team
    && claims.organizationId != "" && claims.maxMembers != 0 && claims.entitlementVersion >= 1
  }

  predicate Refused(claims: Claims, issuer: string, user: string, now: I64, allowExpired: bool) {
    || !ForAccount(claims, issuer, user)
    || claims.iat > SaturatingAdd(now, CLOCK_SKEW_SECONDS)
    || (!allowExpired && claims.exp <= now)
    || claims.exp <= claims.iat
    || CheckedSub(claims.exp, claims.iat).None?
    || CheckedSub(claims.exp, claims.iat).value > OFFLINE_VALIDITY_SECONDS
  }

  function VerifyWithExpiry(json: Json, scheme: SignatureScheme, token: string, keys: seq<TrustedKey>,
                            issuer: string, user: string, now: I64, allowExpired: bool): (r: Result<Claims, Error>)
  {
    var claims := Authenticate(json, scheme, token, keys);
    if claims.Err? then claims
    else if Refused(claims.value, issuer, user, now, allowExpired) then Err(Rejected)
    else claims
  }

  // ----- Time, without machine limits

  /** The claims meet every rule that does not depend on the time. */
  ghost predicate WellTimed(claims: Claims, issuer: string, user: string) {
    ForAccount(claims, issuer, user) && 0 < claims.exp as int - claims.iat as int <= OFFLINE_VALIDITY_SECONDS
  }

  /** Saturation and checked subtraction change no verdict: the rules hold as over the integers. */
  lemma MachineArithmeticIsExact(claims: Claims, issuer: string, user: string, now: I64, allowExpired: bool)
    ensures !Refused(claims, issuer, user, now, allowExpired) <==>
            && WellTimed(claims, issuer, user)
            && claims.iat as int - CLOCK_SKEW_SECONDS <= now
            && (allowExpired || now < claims.exp)
  {
  }

  // ----- Round trip

  lemma AuthenticateSigned(json: Json, scheme: SignatureScheme, claims: Claims, kid: string, secret: Octets,
                           keys: seq<TrustedKey>)
    requires json.Faithful() && scheme.Correct()
    requires Sign(json, scheme, claims, kid, secret).Ok?
    requires FindKey(keys, kid) == Some(TrustedKey(kid, scheme.publicKey(secret)))
    ensures var token := Sign(json, scheme, claims, kid, secret).value;
            Authenticate(json, scheme, token, keys) == Ok(claims)
  {
    var headerBytes := json.writeHeader(Header(ALGORITHM, TOKEN_TYPE, kid));
    var payloadBytes := json.writeClaims(claims);
    var header, payload := Encoded(headerBytes), Encoded(payloadBytes);
    var message := Utf8(SigningInput(header, payload));
    var signatureBytes := scheme.sign(secret, message);
    var signature := Encoded(signatureBytes);
    ThreeParts(headerBytes, payloadBytes, signatureBytes);
    Base64.RoundTrip(Base64.URL_SAFE_NO_PAD, headerBytes);
    Base64.RoundTrip(Base64.URL_SAFE_NO_PAD, payloadBytes);
    Base64.RoundTrip(Base64.URL_SAFE_NO_PAD, signatureBytes);
    assert scheme.verifies(scheme.publicKey(secret), message, signatureBytes);
    assert AuthenticateParts(json, scheme, header, payload, signature, keys) == Ok(claims);
  }

  /** The alphabet holds no full stop, so a token always splits into its three parts. */
  lemma ThreeParts(header: Octets, payload: Octets, signature: Octets)
    ensures SplitOn(SigningInput(Encoded(header), Encoded(payload)) + ['.'] + Encoded(signature), '.') ==
            [Encoded(header), Encoded(payload), Encoded(signature)]
  {
    var h, p, s := Encoded(header), Encoded(payload), Encoded(signature);
    Base64.NoDots(Base64.URL_SAFE_NO_PAD, header);
    Base64.NoDots(Base64.URL_SAFE_NO_PAD, payload);
    Base64.NoDots(Base64.URL_SAFE_NO_PAD, signature);
    JoinThree(h, p, s);
  }

  lemma JoinThree(h: string, p: string, s: string)
    requires '.' !in h && '.' !in p && '.' !in s
    ensures SplitOn(h + ['.'] + p + ['.'] + s, '.') == [h, p, s]
  {
    SplitWithout(s, '.');
    SplitJoined(p, s, '.');
    SplitJoined(h, p + ['.'] + s, '.');
    assert h + ['.'] + p + ['.'] + s == h + ['.'] + (p + ['.'] + s);
  }

  /**
   * Verifying a signed token under the key it was signed with gives back the same claims exactly
   * when they are for this account and server, live at most thirty days, and the time fits.
   */
  lemma VerifySigned(json: Json, scheme: SignatureScheme, claims: Claims, kid: string, secret: Octets,
                     keys: seq<TrustedKey>, issuer: string, user: string, now: I64, allowExpired: bool)
    requires json.Faithful() && scheme.Correct()
    requires kid != "" && claims.aud == AUDIENCE && claims.plan == TEAM_PLAN && claims.team
    requires FindKey(keys, kid) == Some(TrustedKey(kid, scheme.publicKey(secret)))
    ensures Sign(json, scheme, claims, kid, secret).Ok?
    ensures var token := Sign(json, scheme, claims, kid, secret).value;
            var fits := && WellTimed(claims, issuer, user)
                        && claims.iat as int - CLOCK_SKEW_SECONDS <= now
                        && (allowExpired || now < claims.exp);
            VerifyWithExpiry(json, scheme, token, keys, issuer, user, now, allowExpired) ==
            if fits then Ok(claims) else Err(Rejected)
  {
    AuthenticateSigned(json, scheme, claims, kid, secret, keys);
    MachineArithmeticIsExact(claims, issuer, user, now, allowExpired);
  }

  function JoinWith(parts: seq<string>, sep: char): (s: string)
    requires |parts| >= 1
  {
    if |parts| == 1 then parts[0] else parts[0] + [sep] + JoinWith(parts[1..], sep)
  }

  lemma JoinOfThree(h: string, p: string, s: string, sep: char)
    ensures JoinWith([h, p, s], sep) == h + [sep] + p + [sep] + s
  {
    assert [h, p, s][1..] == [p, s] && [p, s][1..] == [s];
    assert JoinWith([p, s], sep) == p + [sep] + JoinWith([s], sep);
    assert h + [sep] + (p + [sep] + s) == h + [sep] + p + [sep] + s;
  }

  lemma {:induction false} SplitInverse(s: string, sep: char)
    ensures JoinWith(SplitOn(s, sep), sep) == s
    ensures forall p <- SplitOn(s, sep) :: sep !in p
  {
    if s != "" {
      SplitInverse(s[1..], sep);
      var rest, all := SplitOn(s[1..], sep), SplitOn(s, sep);
      assert s == [s[0]] + s[1..];
      assert rest[0] in rest;
      if s[0] == sep {
        assert all[1..] == rest;
      } else {
        assert all[1..] == rest[1..];
        assert |rest| > 1 ==> JoinWith(rest, sep) == rest[0] + [sep] + JoinWith(rest[1..], sep);
      }
    }
  }

  /**
   * The token is the parts `h`, `p` and `s`: a header of the right type that names a trusted key, the text of
   * `claims`, and that key's signature of both.
   */
  ghost predicate Proves(json: Json, scheme: SignatureScheme, keys: seq<TrustedKey>, token: string,
                         h: string, p: string, s: string, claims: Claims)
  {
    && token == h + ['.'] + p + ['.'] + s && '.' !in h && '.' !in p && '.' !in s
    && Decoded(h).Some? && Decoded(p).Some? && Decoded(s).Some?
    && json.readClaims(Decoded(p).value) == Some(claims)
    && json.readHeader(Decoded(h).value).Some?
    && var header := json.readHeader(Decoded(h).value).value;
    && header.alg == ALGORITHM && header.typ == TOKEN_TYPE && FindKey(keys, header.kid).Some?
    && scheme.verifies(FindKey(keys, header.kid).value.key, Utf8(SigningInput(h, p)), Decoded(s).value)
  }

  lemma AuthenticateIff(json: Json, scheme: SignatureScheme, token: string, keys: seq<TrustedKey>, claims: Claims)
    ensures Authenticate(json, scheme, token, keys) == Ok(claims) <==>
            exists h, p, s :: Proves(json, scheme, keys, token, h, p, s, claims)
  {
    if Authenticate(json, scheme, token, keys) == Ok(claims) {
      var parts := SplitOn(token, '.');
      SplitInverse(token, '.');
      assert parts[0] in parts && parts[1] in parts && parts[2] in parts;
      assert parts == [parts[0], parts[1], parts[2]];
      JoinOfThree(parts[0], parts[1], parts[2], '.');
      assert Proves(json, scheme, keys, token, parts[0], parts[1], parts[2], claims);
    }
    if h, p, s :| Proves(json, scheme, keys, token, h, p, s, claims) {
      JoinThree(h, p, s);
      assert AuthenticateParts(json, scheme, h, p, s, keys) == Ok(claims);
    }
  }

  /**
   * A token verifies with some claims exactly when it is three parts that prove them under the key its header
   * names, the claims are for this account and server and live at most thirty days, and the time fits.
   */
  lemma VerifiesIff(json: Json, scheme: SignatureScheme, token: string, keys: seq<TrustedKey>,
                    issuer: string, user: string, now: I64, allowExpired: bool, claims: Claims)
    ensures VerifyWithExpiry(json, scheme, token, keys, issuer, user, now, allowExpired) == Ok(claims) <==>
            && (exists h, p, s :: Proves(json, scheme, keys, token, h, p, s, claims))
            && WellTimed(claims, issuer, user)
            && claims.iat as int - CLOCK_SKEW_SECONDS <= now
            && (allowExpired || now < claims.exp)
  {
    AuthenticateIff(json, scheme, token, keys, claims);
    MachineArithmeticIsExact(claims, issuer, user, now, allowExpired);
  }

  // ----- Local write access

  datatype WriteAccess = WriteAccess(issuer: string, userId: string, entitlement: Option<string>, revoked: bool)

  datatype CachedGroup = CachedGroup(organizationId: Option<string>, organizationKnown: bool, role: Option<string>)

  datatype Denial = ReadOnlyRole | Revoked | NoEntitlement | BadEntitlement(error: Error) | OtherOrganization
                  | UnknownWorkspace

  predicate MayWrite(role: Option<string>) {
    role.Some? ==> role.value == "admin" || role.value == "owner" || role.value == "member"
  }

  function CheckGroup(json: Json, scheme: SignatureScheme, access: WriteAccess, organizationId: Option<string>,
                      role: Option<string>, keys: seq<TrustedKey>, now: I64): (denial: Option<Denial>)
  {
    if !MayWrite(role) then Some(ReadOnlyRole)
    else if organizationId.None? then None
    else if access.revoked then Some(Revoked)
    else if access.entitlement.None? then Some(NoEntitlement)
    else
      var claims := VerifyWithExpiry(json, scheme, access.entitlement.value, keys, access.issuer, access.userId, now,
        false);
      if claims.Err? then Some(BadEntitlement(claims.error))
      else if claims.value.organizationId != organizationId.value then Some(OtherOrganization)
      else None
  }

  function CheckCachedGroup(json: Json, scheme: SignatureScheme, access: WriteAccess, cache: map<Uuid, CachedGroup>,
                            groupId: Uuid, keys: seq<TrustedKey>, now: I64): (denial: Option<Denial>)
  {
    if groupId in cache && cache[groupId].organizationKnown
    then CheckGroup(json, scheme, access, cache[groupId].organizationId, cache[groupId].role, keys, now)
    else if access.entitlement.None? && !access.revoked then None
    else Some(UnknownWorkspace)
  }

  /** The claims of the stored token, when they allow this group to be written at some time. */
  ghost function GrantingClaims(json: Json, scheme: SignatureScheme, access: WriteAccess, group: CachedGroup,
                                keys: seq<TrustedKey>): (r: Option<Claims>)
  {
    if access.revoked || access.entitlement.None? || !MayWrite(group.role) then None
    else
      var claims := Authenticate(json, scheme, access.entitlement.value, keys);
      if claims.Ok? && WellTimed(claims.value, access.issuer, access.userId)
        && Some(claims.value.organizationId) == group.organizationId
      then Some(claims.value) else None
  }

  /**
   * For a stored record and a cached organization group, the times at which writing is allowed are
   * none, or exactly those from `iat - 300` up to but not including `exp`: at most thirty days and
   * 300 seconds. Wherever writing is allowed, the same claims open existing data then and ever after.
   */
  lemma WriteWindow(json: Json, scheme: SignatureScheme, access: WriteAccess, cache: map<Uuid, CachedGroup>,
                    groupId: Uuid, keys: seq<TrustedKey>)
    requires groupId in cache && cache[groupId].organizationKnown && cache[groupId].organizationId.Some?
    ensures var grant := GrantingClaims(json, scheme, access, cache[groupId], keys);
            && (forall now: I64 :: CheckCachedGroup(json, scheme, access, cache, groupId, keys, now).None? <==>
                 grant.Some? && grant.value.iat as int - CLOCK_SKEW_SECONDS <= now < grant.value.exp)
            && (grant.Some? ==>
                 grant.value.exp as int - (grant.value.iat as int - CLOCK_SKEW_SECONDS)
                 <= OFFLINE_VALIDITY_SECONDS + CLOCK_SKEW_SECONDS)
            && (forall now: I64, later: I64 ::
                 CheckCachedGroup(json, scheme, access, cache, groupId, keys, now).None? && now <= later ==>
                 VerifyWithExpiry(json, scheme, access.entitlement.value, keys, access.issuer, access.userId, later,
                   true) == Ok(grant.value))
  {
    var group := cache[groupId];
    var grant := GrantingClaims(json, scheme, access, group, keys);
    forall now: I64
      ensures CheckCachedGroup(json, scheme, access, cache, groupId, keys, now).None? <==>
              grant.Some? && grant.value.iat as int - CLOCK_SKEW_SECONDS <= now < grant.value.exp
    {
      WriteAllowedAt(json, scheme, access, group, keys, now);
    }
    forall now: I64, later: I64 | CheckCachedGroup(json, scheme, access, cache, groupId, keys, now).None?
      && now <= later
      ensures VerifyWithExpiry(json, scheme, access.entitlement.value, keys, access.issuer, access.userId, later,
              true) == Ok(grant.value)
    {
      MachineArithmeticIsExact(grant.value, access.issuer, access.userId, later, true);
    }
  }

  /** Outside known organizations the clock plays no part: only the role, or the absence of any Team data, does. */
  lemma OtherGroupsIgnoreTime(json: Json, scheme: SignatureScheme, access: WriteAccess, cache: map<Uuid, CachedGroup>,
                              groupId: Uuid, keys: seq<TrustedKey>, now: I64)
    ensures groupId in cache && cache[groupId].organizationKnown && cache[groupId].organizationId.None? ==>
              (CheckCachedGroup(json, scheme, access, cache, groupId, keys, now).None? <==>
                MayWrite(cache[groupId].role))
    ensures groupId !in cache || !cache[groupId].organizationKnown ==>
              (CheckCachedGroup(json, scheme, access, cache, groupId, keys, now).None? <==>
                access.entitlement == None && !access.revoked)
  {
  }

  lemma WriteAllowedAt(json: Json, scheme: SignatureScheme, access: WriteAccess, group: CachedGroup,
                       keys: seq<TrustedKey>, now: I64)
    requires group.organizationId.Some?
    ensures var grant := GrantingClaims(json, scheme, access, group, keys);
            CheckGroup(json, scheme, access, group.organizationId, group.role, keys, now).None? <==>
            grant.Some? && grant.value.iat as int - CLOCK_SKEW_SECONDS <= now < grant.value.exp
  {
    if !access.revoked && access.entitlement.Some? {
      var claims := Authenticate(json, scheme, access.entitlement.value, keys);
      if claims.Ok? {
        MachineArithmeticIsExact(claims.value, access.issuer, access.userId, now, false);
      }
    }
  }
}
