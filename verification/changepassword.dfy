/**
 * Password change (`middleware/users/changepassword.go`): after confirming the user
 * exists, a partial update sets the bcrypt digest of the new password and resets
 * the activation flag, the picture and the mail token.
 *
 * The handler writes the mail token as the JSON string "0", while `dto.Users`
 * declares it a float64; `PasswordPatchAsWritten` keeps that payload and the
 * lemmas after it show what it breaks. The handler model uses `PasswordPatch`,
 * which writes the number 0.
 */
module ChangePassword {
  import opened Wrappers
  import opened Records
  import opened Http
  import opened UserStore
  import Hashing
  import Jwt
  import Login
  import Register

  /** `dto.ChangePassword`. */
  datatype ChangePasswordForm = ChangePasswordForm(password: string)

  /** The partial document the handler sends, with the mail token as written: a string. */
  function PasswordPatchAsWritten(digest: string): (patch: Doc)
    ensures patch.Keys == {Password, Isactivated, Userpicture, Mailtoken}
    ensures Mailtoken in patch && !TypeOk(Mailtoken, patch[Mailtoken]) && !WellTyped(patch)
  {
    map[Password := Str(digest), Isactivated := Bool(true), Userpicture := Str("pix.png"), Mailtoken := Str("0")]
  }

  /** The partial document with the mail token as the number the record declares. */
  function PasswordPatch(digest: string): (patch: Doc)
    ensures patch.Keys == PasswordPatchAsWritten(digest).Keys
    ensures forall f | f in patch && f != Mailtoken :: patch[f] == PasswordPatchAsWritten(digest)[f]
    ensures WellTyped(patch) && forall f | f in patch :: !patch[f].Null?
  {
    map[Password := Str(digest), Isactivated := Bool(true), Userpicture := Str("pix.png"), Mailtoken := Num(0)]
  }

  method ChangePassword(store: Store, id: string, body: Option<ChangePasswordForm>, bcrypt: Hashing.Bcrypt,
                        salt: Hashing.Salt, lookup: Link, write: Link) returns (r: Reply)
    requires store.Valid()
    modifies store
    ensures store.Valid() && store.order == old(store.order)
    ensures body.None? ==> r == Message(400, "Invalid request format") && store.docs == old(store.docs)
    ensures body.Some? && (GetUserid(old(store.docs), id, lookup).Failure? || id !in old(store.docs)) ==>
      r == Message(404, "User ID not found.") && store.docs == old(store.docs)
    ensures body.Some? && GetUserid(old(store.docs), id, lookup).Success? && id in old(store.docs) ==>
      if write == Up then
        var digest := Hashing.HashPassword(bcrypt, salt, body.value.password);
        && store.docs == old(store.docs)[id := Merge(old(store.docs)[id], PasswordPatch(digest))]
        && r == Message(200, "Password has been changed.")
      else store.docs == old(store.docs) && r.status == 500
  {
    if body.None? {
      return Message(400, "Invalid request format");
    }
    var user := GetUserid(store.docs, id, lookup);
    if user.Failure? || |user.value| == 0 {
      return Message(404, "User ID not found.");
    }
    var hash := Hashing.HashPassword(bcrypt, salt, body.value.password);
    var w := store.Update(id, PasswordPatch(hash), write);
    if w != Written {
      return WriteFailure(w);
    }
    return Message(200, "Password has been changed.");
  }

  /** The changed document decodes, with the four patched fields as the patch wrote them. */
  lemma {:induction false} ChangedFieldsReadBack(id: string, d: Doc, digest: string)
    requires WellTyped(d)
    ensures var u := DecodeUser(id, Merge(d, PasswordPatch(digest)));
      && u.Some? && u.value.password == digest && u.value.isactivated
      && u.value.userpicture == "pix.png" && u.value.mailtoken == 0
  {
    var patch := PasswordPatch(digest);
    PatchedField(id, d, patch, Password);
    PatchedField(id, d, patch, Isactivated);
    PatchedField(id, d, patch, Userpicture);
    PatchedField(id, d, patch, Mailtoken);
  }

  /** The changed document decodes with every field outside the patch as before. */
  lemma {:induction false} ChangedOthersKept(id: string, d: Doc, digest: string)
    requires WellTyped(d)
    ensures var u := DecodeUser(id, Merge(d, PasswordPatch(digest)));
      u.Some? && SameExcept(DecodeUser(id, d).value, u.value, {Password, Isactivated, Userpicture, Mailtoken})
  {
    var patch := PasswordPatch(digest);
    assert patch.Keys == {Password, Isactivated, Userpicture, Mailtoken};
    DecodeMerge(id, d, patch);
  }

  /**
   * After the change the user reads back with the new digest, activated, with the
   * default picture and a zero mail token; every other field is as before.
   */
  lemma {:induction false} ChangedUserReadsBack(docs: map<string, Doc>, id: string, digest: string)
    requires id in docs && WellTyped(docs[id])
    ensures var u := GetUserid(docs[id := Merge(docs[id], PasswordPatch(digest))], id, Up);
      && u.Success? && |u.value| == 1
      && u.value[0].password == digest && u.value[0].isactivated
      && u.value[0].userpicture == "pix.png" && u.value[0].mailtoken == 0
      && SameExcept(DecodeUser(id, docs[id]).value, u.value[0], {Password, Isactivated, Userpicture, Mailtoken})
  {
    ChangedFieldsReadBack(id, docs[id], digest);
    ChangedOthersKept(id, docs[id], digest);
  }

  /** A change keeps every stored document decodable. */
  lemma ChangeKeepsWellTyped(docs: map<string, Doc>, id: string, digest: string)
    requires AllWellTyped(docs) && id in docs
    ensures AllWellTyped(docs[id := Merge(docs[id], PasswordPatch(digest))])
  {
    MergeWellTyped(docs[id], PasswordPatch(digest));
  }

  /** The payload as written leaves a document that no longer decodes, so the user can no longer be looked up. */
  lemma AsWrittenBreaksLookup(docs: map<string, Doc>, id: string, digest: string)
    requires id in docs
    ensures !WellTyped(Merge(docs[id], PasswordPatchAsWritten(digest)))
    ensures GetUserid(docs[id := Merge(docs[id], PasswordPatchAsWritten(digest))], id, Up).Failure?
  {
    assert Merge(docs[id], PasswordPatchAsWritten(digest))[Mailtoken] == Str("0");
  }

  /** If only `id` matches `f = v`, every hit of that query after the change as written is undecodable. */
  lemma {:induction false} AsWrittenHitsUndecodable(docs: map<string, Doc>, order: seq<string>, id: string,
                                                     digest: string, f: Field, v: string)
    requires id in docs && f !in PasswordPatchAsWritten(digest)
    requires forall j | j in docs && j != id :: !Holds(docs[j], f, v)
    ensures var docs' := docs[id := Merge(docs[id], PasswordPatchAsWritten(digest))];
      var hits := HitsOf(docs', MatchIds(docs', order, f, v));
      && (id in order && Holds(docs[id], f, v) ==> hits != [])
      && forall k | 0 <= k < |hits| :: !WellTyped(hits[k].source)
  {
    var docs' := docs[id := Merge(docs[id], PasswordPatchAsWritten(digest))];
    var ids := MatchIds(docs', order, f, v);
    AsWrittenBreaksLookup(docs, id, digest);
    forall k | 0 <= k < |ids| ensures ids[k] == id {
      assert ids[k] in ids;
    }
    if id in order && Holds(docs[id], f, v) {
      assert Holds(docs'[id], f, v);
      assert id in ids;
    }
  }

  /**
   * After the change as written, signing in as that user always fails with 400,
   * whatever the password.
   */
  lemma {:induction false} AsWrittenLocksOut(docs: map<string, Doc>, order: seq<string>, id: string, digest: string,
                                             form: Login.LoginForm, bcrypt: Hashing.Bcrypt, lib: Jwt.Library, key: string, now: int)
    requires IndexValid(docs, order) && id in docs && Holds(docs[id], Username, form.username)
    requires forall j | j in docs && j != id :: !Holds(docs[j], Username, form.username)
    ensures Login.Login(Some(form), docs[id := Merge(docs[id], PasswordPatchAsWritten(digest))], order,
                        Up, bcrypt, lib, key, now).status == 400
  {
    var docs' := docs[id := Merge(docs[id], PasswordPatchAsWritten(digest))];
    AsWrittenHitsUndecodable(docs, order, id, digest, Username, form.username);
    Login.UndecodableFirstHit(form, docs', order, bcrypt, lib, key, now);
  }

  /**
   * After the change as written the user's email no longer counts as taken, so the
   * same address can be registered a second time.
   */
  lemma {:induction false} AsWrittenFreesEmail(docs: map<string, Doc>, order: seq<string>, id: string, digest: string, email: string)
    requires id in docs
    requires forall j | j in docs && j != id :: !Holds(docs[j], Email, email)
    ensures !Register.Taken(docs[id := Merge(docs[id], PasswordPatchAsWritten(digest))], order, Email, email, Up)
  {
    var docs' := docs[id := Merge(docs[id], PasswordPatchAsWritten(digest))];
    AsWrittenHitsUndecodable(docs, order, id, digest, Email, email);
    DecodedEmpty(HitsOf(docs', MatchIds(docs', order, Email, email)));
  }
}
