/**
 * OTP verification (`middleware/auth/mfaverifyotp.go`): a read-only decision over
 * the user looked up by id and the TOTP validator. The handler as written indexes
 * the lookup result and dereferences the stored secret before checking either, so
 * it is modelled twice: `MfaVerifyotp` with those panics as preconditions, and
 * `MfaVerifyotpChecked`, the total decision the handler's branches describe.
 */
module MfaVerifyotp {
  import opened Wrappers
  import opened Records
  import opened Http
  import opened UserStore
  import opened Otp
  import MfaActivate

  /** `dto.MfaKeys`: the submitted one-time code. */
  datatype MfaKeys = MfaKeys(otp: string)

  const Validated: string := "OTP code is successfully validated.s"
  const InvalidCode: string := "Invalid OTP code, please try again."

  /** The panics of the handler as written: `user[0]` on an empty result and `*secret` on a nil secret. */
  predicate WontPanic(docs: map<string, Doc>, id: string, body: Option<MfaKeys>, lookup: Link) {
    body.None? || GetUserid(docs, id, lookup).Failure?
    || (var users := GetUserid(docs, id, lookup).value; |users| > 0 && users[0].secret.Some?)
  }

  function Accepted(username: string): Reply {
    Json(200, map["username" := Str(username), "message" := Str(Validated)])
  }

  /** The handler as written; its `len(user) > 0` else-branch can never be taken. */
  function MfaVerifyotp(docs: map<string, Doc>, id: string, body: Option<MfaKeys>, lookup: Link,
                        kit: MfaKit, now: int): (r: Reply)
    requires WontPanic(docs, id, body, lookup)
    ensures body.None? ==> r == Message(400, "Invalid request format")
    ensures body.Some? && GetUserid(docs, id, lookup).Failure? ==>
      r == Message(400, GetUserid(docs, id, lookup).error)
    ensures r.status == 200 <==>
      body.Some? && id in docs && GetUserid(docs, id, lookup).Success?
      && var u := GetUserid(docs, id, lookup).value[0];
         kit.validate(body.value.otp, u.secret.value, now)
    ensures r.status == 200 ==> r == Accepted(DecodeUser(id, docs[id]).value.username)
    ensures r.status in {200, 400, 401}
    ensures r.status == 400 ==> body.None? || GetUserid(docs, id, lookup).Failure?
  {
    if body.None? then Message(400, "Invalid request format")
    else
      match GetUserid(docs, id, lookup)
      case Failure(e) => Message(400, e)
      case Success(users) =>
        var secret := users[0].secret;
        if |users| > 0 then
          if kit.validate(body.value.otp, secret.value, now) then Accepted(users[0].username)
          else Message(401, InvalidCode)
        else Message(400, "User ID not found.")
  }

  /**
   * The decision with the length check first and a missing secret refused like a
   * wrong code.
   */
  function MfaVerifyotpChecked(docs: map<string, Doc>, id: string, body: Option<MfaKeys>, lookup: Link,
                               kit: MfaKit, now: int): (r: Reply)
    ensures body.None? ==> r == Message(400, "Invalid request format")
    ensures body.Some? && lookup == Up && id !in docs ==> r == Message(400, "User ID not found.")
    ensures r.status == 200 <==>
      body.Some? && id in docs && GetUserid(docs, id, lookup).Success?
      && var u := GetUserid(docs, id, lookup).value[0];
         u.secret.Some? && kit.validate(body.value.otp, u.secret.value, now)
    ensures r.status == 200 ==> r == Accepted(DecodeUser(id, docs[id]).value.username)
    ensures r.status in {200, 400, 401}
  {
    if body.None? then Message(400, "Invalid request format")
    else
      match GetUserid(docs, id, lookup)
      case Failure(e) => Message(400, e)
      case Success(users) =>
        if |users| > 0 then
          match users[0].secret
          case Some(secret) =>
            if kit.validate(body.value.otp, secret, now) then Accepted(users[0].username)
            else Message(401, InvalidCode)
          case None => Message(401, InvalidCode)
        else Message(400, "User ID not found.")
  }

  /** Wherever the handler as written does not panic, the corrected decision answers the same. */
  lemma CheckedAgrees(docs: map<string, Doc>, id: string, body: Option<MfaKeys>, lookup: Link, kit: MfaKit, now: int)
    requires WontPanic(docs, id, body, lookup)
    ensures MfaVerifyotpChecked(docs, id, body, lookup, kit, now) == MfaVerifyotp(docs, id, body, lookup, kit, now)
  {
  }

  /** An id with no user, looked up successfully, makes the handler as written panic. */
  lemma UnknownIdPanics(docs: map<string, Doc>, id: string, otp: string)
    requires id !in docs
    ensures !WontPanic(docs, id, Some(MfaKeys(otp)), Up)
  {
  }

  /**
   * A user who disabled MFA has a null secret, so any later OTP check on that user
   * makes the handler as written panic.
   */
  lemma {:induction false} AfterDisablePanics(docs: map<string, Doc>, id: string, otp: string)
    requires id in docs && WellTyped(docs[id])
    ensures !WontPanic(docs[id := Merge(docs[id], MfaActivate.DisablePatch)], id, Some(MfaKeys(otp)), Up)
  {
    MfaActivate.DisabledUserReadsBack(docs, id);
  }

  /** A user with no secret is never validated by the corrected decision, whatever the code. */
  lemma NoSecretRefused(docs: map<string, Doc>, id: string, otp: string, kit: MfaKit, now: int)
    requires id in docs && WellTyped(docs[id]) && DecodeUser(id, docs[id]).value.secret.None?
    ensures MfaVerifyotpChecked(docs, id, Some(MfaKeys(otp)), Up, kit, now) == Message(401, InvalidCode)
  {
  }
}
