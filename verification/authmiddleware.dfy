/**
 * The request guard in front of every `/api` route (`middleware/authmiddleware.go`):
 * a non-empty `Authorization` header, the bearer scheme of section 2.1 of RFC 6750
 * spelled exactly `Bearer ` (case and trailing space included), then `VerifyJWT`.
 */
module AuthMiddleware {
  import opened Wrappers
  import opened Text
  import Jwt

  const BearerPrefix: string := "Bearer "

  datatype Decision = Rejected(status: int, message: string) | Admitted(token: string)

  /** The guard chain as a decision on the header value. */
  function Authorize(lib: Jwt.Library, key: string, now: int, header: string): (d: Decision)
    ensures d.Admitted? <==>
      HasPrefix(header, BearerPrefix) && Jwt.VerifyJWT(lib, key, now, TrimPrefix(header, BearerPrefix)).Success?
    ensures d.Admitted? ==> BearerPrefix + d.token == header
    ensures d.Rejected? ==> d.status == 401
    ensures !HasPrefix(header, BearerPrefix) ==> d == Rejected(401, "Unauthorized Access.")
    ensures HasPrefix(header, BearerPrefix) && d.Rejected? ==> d.message == "Invalid Bearer Token."
  {
    if header == "" then Rejected(401, "Unauthorized Access.")
    else if !HasPrefix(header, BearerPrefix) then Rejected(401, "Unauthorized Access.")
    else
      var token := TrimPrefix(header, BearerPrefix);
      if Jwt.VerifyJWT(lib, key, now, token).Failure? then Rejected(401, "Invalid Bearer Token.")
      else Admitted(token)
  }

  /** The part of a gin context the guard reads and writes. */
  class Context {
    const authorization: string
    var status: int            // 0 while no response has been written
    var message: string
    var aborted: bool
    var keys: map<string, string>
    var handlerRan: bool       // whether the protected handler behind `c.Next()` ran

    constructor (authorization: string)
      ensures this.authorization == authorization
      ensures status == 0 && message == "" && !aborted && keys == map[] && !handlerRan
    {
      this.authorization := authorization;
      status, message, aborted, keys, handlerRan := 0, "", false, map[], false;
    }
  }

  /** The middleware closure run on one request. */
  method Guard(c: Context, lib: Jwt.Library, key: string, now: int)
    modifies c
    ensures match Authorize(lib, key, now, c.authorization)
      case Rejected(s, m) =>
        c.status == s && c.message == m && c.aborted && c.handlerRan == old(c.handlerRan) && c.keys == old(c.keys)
      case Admitted(t) =>
        c.keys == old(c.keys)["authToken" := t] && c.handlerRan
        && c.status == old(c.status) && c.message == old(c.message) && c.aborted == old(c.aborted)
  {
    var authHeader := c.authorization;
    if authHeader == "" {
      c.status, c.message := 401, "Unauthorized Access.";
      c.aborted := true;
      return;
    }
    if !HasPrefix(authHeader, BearerPrefix) {
      c.status, c.message := 401, "Unauthorized Access.";
      c.aborted := true;
      return;
    }
    var token := TrimPrefix(authHeader, BearerPrefix);
    var verified := Jwt.VerifyJWT(lib, key, now, token);
    if verified.Failure? {
      c.status, c.message := 401, "Invalid Bearer Token.";
      c.aborted := true;
      return;
    }
    c.keys := c.keys["authToken" := token];
    c.handlerRan := true;
  }

  /** A header carrying a freshly issued token is admitted for eight hours, and refused afterwards. */
  lemma {:induction false} FreshTokenAdmitted(lib: Jwt.Library, key: string, issued: int, now: int, username: string, s: string)
    requires Jwt.Faithful(lib)
    requires Jwt.GenerateJWT(lib, key, issued, username) == Success(s)
    ensures issued <= now < issued + Jwt.Lifetime ==> Authorize(lib, key, now, BearerPrefix + s) == Admitted(s)
    ensures issued + Jwt.Lifetime <= now ==> Authorize(lib, key, now, BearerPrefix + s) == Rejected(401, "Invalid Bearer Token.")
  {
    var header := BearerPrefix + s;
    assert HasPrefix(header, BearerPrefix) && TrimPrefix(header, BearerPrefix) == s by {
      assert header[..|BearerPrefix|] == BearerPrefix;
      assert header[|BearerPrefix|..] == s;
    }
    if issued <= now < issued + Jwt.Lifetime {
      Jwt.RoundTrip(lib, key, issued, now, username, s);
    }
    if issued + Jwt.Lifetime <= now {
      Jwt.OutsideWindow(lib, key, issued, now, username, s);
    }
  }

  /** The scheme is matched case-sensitively: a lower-case `bearer ` is refused before any verification. */
  lemma LowerCaseSchemeRefused(lib: Jwt.Library, key: string, now: int, s: string)
    ensures Authorize(lib, key, now, "bearer " + s) == Rejected(401, "Unauthorized Access.")
  {
    assert ("bearer " + s)[0] == 'b';
  }
}
