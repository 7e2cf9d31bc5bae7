/**
 * Session tokens (`utils/jwt.go`): the fixed claim set `GenerateJWT` signs with
 * HS256 (section 3.2 of RFC 7518) and the checks `VerifyJWT` applies.
 *
 * The JWT library is a parameter: its HMAC, its compact serialisation and its
 * parser. The signing key is the process-wide `JWT_SECRET`, passed explicitly;
 * the clock reading is passed as whole seconds (numeric dates have second
 * precision).
 */
module Jwt {
  import opened Wrappers

  /** Tokens expire eight hours after issue, in seconds. */
  const Lifetime: int := 8 * 60 * 60
  const IssuerName: string := "BARCLAYS BANK"
  const SubjectName: string := "user_authentication"
  const TokenId: string := "1"

  /** `Claims`: the username plus the registered claims of section 4.1 of RFC 7519. */
  datatype Claims = Claims(
    username: string,
    expiresAt: Option<int>, issuedAt: Option<int>, notBefore: Option<int>,
    issuer: string, subject: string, id: string)

  /** The `alg` header values the library knows; an unknown one fails to parse. */
  datatype Alg = HS256 | HS384 | HS512 | RS256 | RS384 | RS512 | ES256 | ES384 | ES512
               | PS256 | PS384 | PS512 | EdDSA | AlgNone

  /** The `*jwt.SigningMethodHMAC` family. */
  predicate IsHmac(a: Alg) {
    a == HS256 || a == HS384 || a == HS512
  }

  datatype Token = Token(alg: Alg, claims: Claims, signature: string)

  datatype Library = Library(
    /** The MAC of header and claims under a key; fails on an unusable key. */
    sign: (string, Alg, Claims) -> Option<string>,
    serialize: Token -> string,
    parse: string -> Option<Token>)

  /** The library reads back what it writes. */
  ghost predicate Faithful(lib: Library) {
    forall t {:trigger lib.serialize(t)} :: lib.parse(lib.serialize(t)) == Some(t)
  }

  datatype JwtError = SigningFailed | Malformed | UnexpectedSigningMethod(alg: Alg)
                    | InvalidSignature | InvalidClaims

  /** The claim set `GenerateJWT` builds for a user at clock reading `now`. */
  function IssueClaims(username: string, now: int): (c: Claims)
    ensures c.username == username
    ensures forall t :: TimeValid(c, t) <==> now <= t < now + Lifetime
  {
    Claims(username, Some(now + Lifetime), Some(now), Some(now), IssuerName, SubjectName, TokenId)
  }

  /** `GenerateJWT`: the serialised HS256 token, or `SigningFailed`. */
  function GenerateJWT(lib: Library, key: string, now: int, username: string): (r: Result<string, JwtError>)
    ensures r.Failure? <==> lib.sign(key, HS256, IssueClaims(username, now)).None?
    ensures r.Failure? ==> r.error == SigningFailed
    ensures r.Success? ==>
      r.value == lib.serialize(Token(HS256, IssueClaims(username, now), lib.sign(key, HS256, IssueClaims(username, now)).value))
  {
    var claims := IssueClaims(username, now);
    match lib.sign(key, HS256, claims)
    case None => Failure(SigningFailed)
    case Some(sig) => Success(lib.serialize(Token(HS256, claims, sig)))
  }

  /** Go's `(string, error)` pair read as a string: the empty string on failure. */
  function TokenString(r: Result<string, JwtError>): string {
    if r.Success? then r.value else ""
  }

  /** The library's default claim validation: not before `nbf`, strictly before `exp`; `iat` unchecked. */
  predicate TimeValid(c: Claims, now: int) {
    (c.expiresAt.None? || now < c.expiresAt.value) &&
    (c.notBefore.None? || c.notBefore.value <= now)
  }

  /**
   * `VerifyJWT`: claims come back exactly when the token parses, names an HMAC
   * algorithm, carries the MAC of its claims under `key`, and is inside its
   * validity window.
   */
  function VerifyJWT(lib: Library, key: string, now: int, s: string): (r: Result<Claims, JwtError>)
    ensures r.Success? <==>
      && lib.parse(s).Some?
      && IsHmac(lib.parse(s).value.alg)
      && lib.sign(key, lib.parse(s).value.alg, lib.parse(s).value.claims) == Some(lib.parse(s).value.signature)
      && TimeValid(lib.parse(s).value.claims, now)
    ensures r.Success? ==> r.value == lib.parse(s).value.claims
    ensures lib.parse(s).Some? && !IsHmac(lib.parse(s).value.alg) ==>
      r == Failure(UnexpectedSigningMethod(lib.parse(s).value.alg))
  {
    match lib.parse(s)
    case None => Failure(Malformed)
    case Some(t) =>
      if !IsHmac(t.alg) then Failure(UnexpectedSigningMethod(t.alg))
      else if lib.sign(key, t.alg, t.claims) != Some(t.signature) then Failure(InvalidSignature)
      else if !TimeValid(t.claims, now) then Failure(InvalidClaims)
      else Success(t.claims)
  }

  /** What a freshly issued token holds once parsed back. */
  lemma IssuedToken(lib: Library, key: string, issued: int, username: string, s: string)
    requires Faithful(lib)
    requires GenerateJWT(lib, key, issued, username) == Success(s)
    ensures lib.parse(s).Some? && lib.parse(s).value.alg == HS256
    ensures var c := lib.parse(s).value.claims;
      && c.username == username
      && c.expiresAt == Some(issued + Lifetime)
      && c.issuedAt == Some(issued) && c.notBefore == Some(issued)
      && c.issuer == "BARCLAYS BANK" && c.subject == "user_authentication" && c.id == "1"
  {
  }

  /** Round trip: inside the eight-hour window a fresh token verifies to its own claims. */
  lemma RoundTrip(lib: Library, key: string, issued: int, now: int, username: string, s: string)
    requires Faithful(lib)
    requires GenerateJWT(lib, key, issued, username) == Success(s)
    requires issued <= now < issued + Lifetime
    ensures VerifyJWT(lib, key, now, s) == Success(IssueClaims(username, issued))
    ensures VerifyJWT(lib, key, now, s).value.username == username
  {
    IssuedToken(lib, key, issued, username, s);
  }

  /** Outside the window (expired, or clock behind the issue time) the same token is refused. */
  lemma OutsideWindow(lib: Library, key: string, issued: int, now: int, username: string, s: string)
    requires Faithful(lib)
    requires GenerateJWT(lib, key, issued, username) == Success(s)
    requires now < issued || issued + Lifetime <= now
    ensures VerifyJWT(lib, key, now, s) == Failure(InvalidClaims)
  {
    IssuedToken(lib, key, issued, username, s);
  }

  /** A token signed under one key is refused under a key whose MAC differs. */
  lemma OtherKey(lib: Library, key: string, other: string, issued: int, now: int, username: string, s: string)
    requires Faithful(lib)
    requires GenerateJWT(lib, key, issued, username) == Success(s)
    requires lib.sign(other, HS256, IssueClaims(username, issued)) != lib.sign(key, HS256, IssueClaims(username, issued))
    ensures VerifyJWT(lib, other, now, s) == Failure(InvalidSignature)
  {
    IssuedToken(lib, key, issued, username, s);
  }
}
