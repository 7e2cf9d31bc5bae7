/**
 * Account creation (`middleware/auth/register.go`): lower-case the email, refuse
 * a taken email, then a taken username, then index a new user with the default
 * role, picture and MFA fields.
 */
module Register {
  import opened Wrappers
  import opened Text
  import opened Records
  import opened Http
  import opened UserStore
  import Hashing

  datatype RegisterForm = RegisterForm(
    firstname: string, lastname: string, email: string, mobile: string, username: string, password: string)

  /** The `models.User` the handler writes; its `id` is empty and the store assigns one. */
  function NewUser(form: RegisterForm, digest: string): (u: User)
    ensures Lower(u.email) == u.email && u.password == digest && u.username == form.username
    ensures u.isactivated && !u.isblocked && u.secret.None? && u.qrcodeurl.None?
  {
    LowerIdempotent(form.email);
    User("", form.firstname, form.lastname, Lower(form.email), form.mobile, form.username, digest,
         "ROLE_USER", true, false, "pix.png", 0, None, None)
  }

  /** What `SearchByEmail` / `SearchByUsername` report to the handler: a store error reads as "nothing found". */
  predicate Taken(docs: map<string, Doc>, order: seq<string>, f: Field, v: string, search: Link) {
    search == Up && |Decoded(HitsOf(docs, MatchIds(docs, order, f, v)))| > 0
  }

  method Register(store: Store, form: Option<RegisterForm>, bcrypt: Hashing.Bcrypt, salt: Hashing.Salt,
                  emailSearch: Link, nameSearch: Link, write: Link, newId: string) returns (r: Reply)
    requires store.Valid() && newId !in store.docs
    modifies store
    ensures store.Valid()
    ensures form.None? ==> r == Message(400, "Invalid request format") && unchanged(store)
    ensures form.Some? ==>
      var email := Lower(form.value.email);
      var emailTaken := Taken(old(store.docs), old(store.order), Email, email, emailSearch);
      var nameTaken := Taken(old(store.docs), old(store.order), Username, form.value.username, nameSearch);
      && (emailTaken ==> r == Message(400, "Email Address is already taken.") && unchanged(store))
      && (!emailTaken && nameTaken ==> r == Message(400, "Username is already taken.") && unchanged(store))
      && (!emailTaken && !nameTaken && write != Up ==> r == Message(500, "Failed to index user") && unchanged(store))
      && (!emailTaken && !nameTaken && write == Up ==>
            && store.docs == old(store.docs)[newId := EncodeUser(NewUser(form.value, Hashing.HashPassword(bcrypt, salt, form.value.password)))]
            && store.order == old(store.order) + [newId]
            && r == Message(201, "You have registered successfully, your user ID Is " + newId))
  {
    if form.None? {
      return Message(400, "Invalid request format");
    }
    var dto := form.value;
    var hashPwd := Hashing.HashPassword(bcrypt, salt, dto.password);
    dto := dto.(email := Lower(dto.email));
    var userEmail := SearchBy(store.docs, store.order, Email, dto.email, emailSearch);
    if userEmail.Success? && |userEmail.value| > 0 {
      return Message(400, "Email Address is already taken.");
    }
    var userName := SearchBy(store.docs, store.order, Username, dto.username, nameSearch);
    if userName.Success? && |userName.value| > 0 {
      return Message(400, "Username is already taken.");
    }
    var userModel := User("", dto.firstname, dto.lastname, dto.email, dto.mobile, dto.username, hashPwd,
                          "ROLE_USER", true, false, "pix.png", 0, None, None);
    if write != Up {
      return Message(500, "Failed to index user");
    }
    store.Insert(newId, EncodeUser(userModel));
    return Message(201, "You have registered successfully, your user ID Is " + newId);
  }

  /** The registered user reads back with the defaults, the lower-cased email and the bcrypt digest. */
  lemma {:induction false} RegisteredUserReadsBack(docs: map<string, Doc>, form: RegisterForm, digest: string, newId: string)
    ensures var u := GetUserid(docs[newId := EncodeUser(NewUser(form, digest))], newId, Up);
      && u.Success? && |u.value| == 1
      && u.value[0].id == newId
      && u.value[0].email == Lower(form.email) && u.value[0].username == form.username
      && u.value[0].password == digest
      && u.value[0].roles == "ROLE_USER" && u.value[0].isactivated && u.value[0].userpicture == "pix.png"
      && u.value[0].mailtoken == 0 && u.value[0].secret.None? && u.value[0].qrcodeurl.None?
  {
    DecodeEncode(newId, NewUser(form, digest));
  }

  /** Registration keeps every stored document decodable. */
  lemma RegisterKeepsWellTyped(docs: map<string, Doc>, form: RegisterForm, digest: string, newId: string)
    requires AllWellTyped(docs)
    ensures AllWellTyped(docs[newId := EncodeUser(NewUser(form, digest))])
  {
  }

  /** The indexed document holds the form's username and the lower-cased email. */
  lemma NewUserHolds(form: RegisterForm, digest: string)
    ensures Holds(EncodeUser(NewUser(form, digest)), Username, form.username)
    ensures Holds(EncodeUser(NewUser(form, digest)), Email, Lower(form.email))
  {
    var u := NewUser(form, digest);
    var d := EncodeUser(u);
    assert d[Username] == View(u, Username) && d[Email] == View(u, Email);
  }

  /** On a well-typed table, a value the search does not report as taken is held by no document. */
  lemma NotTakenNoMatch(docs: map<string, Doc>, order: seq<string>, f: Field, v: string)
    requires IndexValid(docs, order) && AllWellTyped(docs)
    requires !Taken(docs, order, f, v, Up)
    ensures forall id | id in docs :: !Holds(docs[id], f, v)
  {
    SearchSeesAll(docs, order, f, v);
  }

  /**
   * When both searches reach the store and every document decodes, a successful
   * registration leaves exactly one user with that username and one with that email.
   */
  lemma {:induction false} RegisterKeepsUnique(docs: map<string, Doc>, order: seq<string>, form: RegisterForm,
                                              digest: string, newId: string)
    requires IndexValid(docs, order) && AllWellTyped(docs) && newId !in docs
    requires !Taken(docs, order, Email, Lower(form.email), Up)
    requires !Taken(docs, order, Username, form.username, Up)
    ensures var docs' := docs[newId := EncodeUser(NewUser(form, digest))];
      && MatchIds(docs', order + [newId], Username, form.username) == [newId]
      && MatchIds(docs', order + [newId], Email, Lower(form.email)) == [newId]
  {
    var d := EncodeUser(NewUser(form, digest));
    NewUserHolds(form, digest);
    NotTakenNoMatch(docs, order, Username, form.username);
    NotTakenNoMatch(docs, order, Email, Lower(form.email));
    MatchIdsAppendFresh(docs, order, Username, form.username, newId, d);
    MatchIdsAppendFresh(docs, order, Email, Lower(form.email), newId, d);
  }
}
