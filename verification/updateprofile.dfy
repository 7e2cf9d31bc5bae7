/**
 * Profile update (`middleware/users/updateprofile.go`): after confirming the user
 * exists, a partial update replaces the first name, last name and mobile number.
 */
module UpdateProfile {
  import opened Wrappers
  import opened Records
  import opened Http
  import opened UserStore

  /** `dto.ProfileData`. */
  datatype ProfileForm = ProfileForm(firstname: string, lastname: string, mobile: string)

  function ProfilePatch(form: ProfileForm): (patch: Doc)
    ensures patch.Keys == {Firstname, Lastname, Mobile}
    ensures WellTyped(patch) && forall f | f in patch :: !patch[f].Null?
  {
    map[Firstname := Str(form.firstname), Lastname := Str(form.lastname), Mobile := Str(form.mobile)]
  }

  method UpdateProfile(store: Store, id: string, body: Option<ProfileForm>, lookup: Link, write: Link)
    returns (r: Reply)
    requires store.Valid()
    modifies store
    ensures store.Valid() && store.order == old(store.order)
    ensures body.None? ==> r == Message(400, "Invalid request format") && store.docs == old(store.docs)
    ensures body.Some? && (GetUserid(old(store.docs), id, lookup).Failure? || id !in old(store.docs)) ==>
      r == Message(404, "User ID not found.") && store.docs == old(store.docs)
    ensures body.Some? && GetUserid(old(store.docs), id, lookup).Success? && id in old(store.docs) ==>
      if write == Up then
        && store.docs == old(store.docs)[id := Merge(old(store.docs)[id], ProfilePatch(body.value))]
        && r == Message(200, "Your profile has been updated successfully.")
      else store.docs == old(store.docs) && r.status == 500
  {
    if body.None? {
      return Message(400, "Invalid request format");
    }
    var user := GetUserid(store.docs, id, lookup);
    if user.Failure? || |user.value| == 0 {
      return Message(404, "User ID not found.");
    }
    var w := store.Update(id, ProfilePatch(body.value), write);
    if w != Written {
      return WriteFailure(w);
    }
    return Message(200, "Your profile has been updated successfully.");
  }

  /** After the update the user reads back with the submitted names and mobile number. */
  lemma {:induction false} ProfileFieldsReadBack(id: string, d: Doc, form: ProfileForm)
    requires WellTyped(d)
    ensures var u := DecodeUser(id, Merge(d, ProfilePatch(form)));
      && u.Some? && u.value.firstname == form.firstname && u.value.lastname == form.lastname
      && u.value.mobile == form.mobile
  {
    var patch := ProfilePatch(form);
    DecodeMerge(id, d, patch);
    var u := DecodeUser(id, Merge(d, patch)).value;
    assert View(u, Firstname) == Str(form.firstname);
    assert View(u, Lastname) == Str(form.lastname);
    assert View(u, Mobile) == Str(form.mobile);
  }

  /** Password, email, username, MFA fields and every other field read back unchanged. */
  lemma {:induction false} ProfileOthersKept(id: string, d: Doc, form: ProfileForm)
    requires WellTyped(d)
    ensures var u := DecodeUser(id, Merge(d, ProfilePatch(form)));
      u.Some? && SameExcept(DecodeUser(id, d).value, u.value, {Firstname, Lastname, Mobile})
  {
    DecodeMerge(id, d, ProfilePatch(form));
  }

  /** Submitting the same profile twice leaves the same document as submitting it once. */
  lemma ProfileIdempotent(d: Doc, form: ProfileForm)
    ensures Merge(Merge(d, ProfilePatch(form)), ProfilePatch(form)) == Merge(d, ProfilePatch(form))
  {
  }
}
