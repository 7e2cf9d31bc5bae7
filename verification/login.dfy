/**
 * Sign-in (`middleware/auth/login.go`): look the username up, compare the
 * password with bcrypt, and answer with the profile and a token issued for the
 * user's email address.
 */
module Login {
  import opened Wrappers
  import opened Records
  import opened Http
  import opened UserStore
  import Hashing
  import Jwt

  datatype LoginForm = LoginForm(username: string, password: string)

  /** `GetUserInfo`: none when there is no hit, otherwise the first hit decoded with its id. */
  function GetUserInfo(link: Link, hits: seq<Hit>): (r: Result<Option<User>, string>)
    ensures link != Up ==> r.Failure?
    ensures link == Up && hits == [] ==> r == Success(None)
    ensures link == Up && hits != [] ==> (r.Success? <==> WellTyped(hits[0].source))
    ensures link == Up && hits != [] && WellTyped(hits[0].source) ==> r == Success(DecodeUser(hits[0].id, hits[0].source))
    ensures r.Success? && r.value.Some? ==> hits != [] && Some(r.value.value) == DecodeUser(hits[0].id, hits[0].source)
  {
    match link
    case Down => Failure("search request failed")
    case Failing => Failure("error searching user")
    case Up =>
      if |hits| == 0 then Success(None)
      else
        match DecodeUser(hits[0].id, hits[0].source)
        case None => Failure("json: cannot unmarshal the user document")
        case Some(u) => Success(Some(u))
  }

  /** The profile object of a successful sign-in; it carries neither password nor secret. */
  function Profile(u: User, token: string): (m: map<string, Value>)
    ensures "password" !in m && "secret" !in m
    ensures "id" in m && m["id"] == Str(u.id)
    ensures "username" in m && m["username"] == Str(u.username)
    ensures "token" in m && m["token"] == Str(token)
  {
    map[
      "id" := Str(u.id), "firstname" := Str(u.firstname), "lastname" := Str(u.lastname),
      "email" := Str(u.email), "mobile" := Str(u.mobile), "username" := Str(u.username),
      "roles" := Str(u.roles), "isactivated" := Bool(u.isactivated), "isblocked" := Bool(u.isblocked),
      "userpicture" := Str(u.userpicture), "qrcodeurl" := View(u, Qrcodeurl),
      "token" := Str(token), "message" := Str("Login Successfull.")]
  }

  /** The users a sign-in finds for a username (a match query on `username`). */
  function UsernameHits(docs: map<string, Doc>, order: seq<string>, username: string): seq<Hit> {
    HitsOf(docs, MatchIds(docs, order, Username, username))
  }

  /** `Login` over the user table. */
  function Login(form: Option<LoginForm>, docs: map<string, Doc>, order: seq<string>, link: Link,
                 bcrypt: Hashing.Bcrypt, lib: Jwt.Library, key: string, now: int): (r: Reply)
    ensures form.None? ==> r == Message(400, "Invalid request format")
    ensures r.status == 200 <==>
      && form.Some?
      && GetUserInfo(link, UsernameHits(docs, order, form.value.username)).Success?
      && GetUserInfo(link, UsernameHits(docs, order, form.value.username)).value.Some?
      && bcrypt.compare(GetUserInfo(link, UsernameHits(docs, order, form.value.username)).value.value.password, form.value.password)
    ensures form.Some? && GetUserInfo(link, UsernameHits(docs, order, form.value.username)).Failure? ==>
      r == Message(400, GetUserInfo(link, UsernameHits(docs, order, form.value.username)).error)
    ensures form.Some? && GetUserInfo(link, UsernameHits(docs, order, form.value.username)) == Success(None) ==>
      r == Message(404, "Username not found, please register.")
    ensures form.Some? && GetUserInfo(link, UsernameHits(docs, order, form.value.username)).Success? ==>
      var found := GetUserInfo(link, UsernameHits(docs, order, form.value.username)).value;
      found.Some? && !bcrypt.compare(found.value.password, form.value.password) ==> r == Message(400, "Invalid Password.")
    ensures r.status == 200 ==>
      var u := GetUserInfo(link, UsernameHits(docs, order, form.value.username)).value.value;
      && r.Json?
      && "password" !in r.body && "secret" !in r.body
      && "id" in r.body && r.body["id"] == Str(u.id)
      && "username" in r.body && r.body["username"] == Str(u.username)
      && "token" in r.body && r.body["token"] == Str(Jwt.TokenString(Jwt.GenerateJWT(lib, key, now, u.email)))
  {
    match form
    case None => Message(400, "Invalid request format")
    case Some(f) =>
      match GetUserInfo(link, UsernameHits(docs, order, f.username))
      case Failure(e) => Message(400, e)
      case Success(None) => Message(404, "Username not found, please register.")
      case Success(Some(u)) =>
        if !Hashing.ComparePassword(bcrypt, u.password, f.password) then Message(400, "Invalid Password.")
        else
          var token := Jwt.TokenString(Jwt.GenerateJWT(lib, key, now, u.email));
          Json(200, Profile(u, token))
  }

  /** A first hit that does not decode (for instance a string `mailtoken`) makes sign-in fail with 400. */
  lemma UndecodableFirstHit(form: LoginForm, docs: map<string, Doc>, order: seq<string>,
                            bcrypt: Hashing.Bcrypt, lib: Jwt.Library, key: string, now: int)
    requires UsernameHits(docs, order, form.username) != []
    requires !WellTyped(UsernameHits(docs, order, form.username)[0].source)
    ensures Login(Some(form), docs, order, Up, bcrypt, lib, key, now).status == 400
  {
  }

  /**
   * When the username matches exactly one stored user whose digest accepts the
   * password, sign-in succeeds with that user's id and a token for its email.
   */
  lemma {:induction false} UniqueUserSignsIn(docs: map<string, Doc>, order: seq<string>, form: LoginForm, id: string,
                                            bcrypt: Hashing.Bcrypt, lib: Jwt.Library, key: string, now: int)
    requires MatchIds(docs, order, Username, form.username) == [id]
    requires WellTyped(docs[id]) && bcrypt.compare(DecodeUser(id, docs[id]).value.password, form.password)
    ensures var r := Login(Some(form), docs, order, Up, bcrypt, lib, key, now);
      && r.status == 200 && r.Json?
      && "id" in r.body && r.body["id"] == Str(id)
      && "token" in r.body
      && r.body["token"] == Str(Jwt.TokenString(Jwt.GenerateJWT(lib, key, now, DecodeUser(id, docs[id]).value.email)))
  {
    assert id in MatchIds(docs, order, Username, form.username);
    assert UsernameHits(docs, order, form.username) == [Hit(id, docs[id])];
  }
}
