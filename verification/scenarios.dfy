/**
 * End-to-end consequences across handlers: a user who registers can sign in with
 * the same password, and the token the sign-in returns opens the protected routes
 * for eight hours.
 */
module Scenarios {
  import opened Wrappers
  import opened Text
  import opened Records
  import opened UserStore
  import Hashing
  import Jwt
  import Login
  import Register
  import AuthMiddleware

  /**
   * After a successful registration on a well-typed table, signing in with the
   * same username and password succeeds for the new id, with a token issued for
   * the lower-cased email; within eight hours that token passes the guard.
   */
  lemma {:induction false} RegisterThenSignIn(docs: map<string, Doc>, order: seq<string>, form: Register.RegisterForm,
                                             bcrypt: Hashing.Bcrypt, salt: Hashing.Salt, newId: string,
                                             lib: Jwt.Library, key: string, issued: int, now: int)
    requires IndexValid(docs, order) && AllWellTyped(docs) && newId !in docs
    requires !Register.Taken(docs, order, Email, Lower(form.email), Up)
    requires !Register.Taken(docs, order, Username, form.username, Up)
    requires Hashing.Sound(bcrypt) && bcrypt.generate(salt, form.password).Some?
    ensures var digest := Hashing.HashPassword(bcrypt, salt, form.password);
      var docs' := docs[newId := EncodeUser(Register.NewUser(form, digest))];
      var r := Login.Login(Some(Login.LoginForm(form.username, form.password)), docs', order + [newId], Up,
                           bcrypt, lib, key, issued);
      var token := Jwt.GenerateJWT(lib, key, issued, Lower(form.email));
      && r.status == 200 && r.Json?
      && "id" in r.body && r.body["id"] == Str(newId)
      && "token" in r.body && r.body["token"] == Str(Jwt.TokenString(token))
      && (Jwt.Faithful(lib) && token.Success? && issued <= now < issued + Jwt.Lifetime ==>
            AuthMiddleware.Authorize(lib, key, now, AuthMiddleware.BearerPrefix + token.value).Admitted?)
  {
    var digest := Hashing.HashPassword(bcrypt, salt, form.password);
    var user := Register.NewUser(form, digest);
    var docs' := docs[newId := EncodeUser(user)];
    Register.RegisterKeepsUnique(docs, order, form, digest, newId);
    Register.RegisteredUserReadsBack(docs, form, digest, newId);
    Login.UniqueUserSignsIn(docs', order + [newId], Login.LoginForm(form.username, form.password), newId, bcrypt, lib, key, issued);
    var token := Jwt.GenerateJWT(lib, key, issued, Lower(form.email));
    if Jwt.Faithful(lib) && token.Success? {
      AuthMiddleware.FreshTokenAdmitted(lib, key, issued, now, Lower(form.email), token.value);
    }
  }
}
