/**
 * MFA enrolment (`middleware/auth/mfaactivate.go`). Enabling generates a TOTP key
 * for the user's email under the issuer "BARCLAYS BANK", renders its URL as a QR
 * PNG, and stores the secret and the base64 of the PNG; disabling nulls both
 * fields without looking the user up.
 */
module MfaActivate {
  import opened Wrappers
  import opened Records
  import opened Http
  import opened UserStore
  import opened Otp

  const MfaIssuer: string := "BARCLAYS BANK"

  datatype MfaActivation = MfaActivation(twoFactorEnabled: bool)

  /** The partial document that enables MFA: exactly the secret and the QR image, both strings. */
  function EnablePatch(secret: string, qrcodeurl: string): (patch: Doc)
    ensures patch.Keys == {Secret, Qrcodeurl}
    ensures WellTyped(patch) && forall f | f in patch :: !patch[f].Null?
  {
    map[Secret := Str(secret), Qrcodeurl := Str(qrcodeurl)]
  }

  /** The painless script `ctx._source.secret = null; ctx._source.qrcodeurl = null`. */
  const DisablePatch: Doc := map[Secret := Null, Qrcodeurl := Null]

  /**
   * The handler. An undecodable body ends the process (`log.Fatalf`), so the body is
   * required. The result is `None` when the handler writes no response: enabling
   * MFA for an id with no user.
   */
  method MfaActivate(store: Store, id: string, body: Option<MfaActivation>, kit: MfaKit, entropy: Entropy,
                     lookup: Link, write: Link) returns (r: Option<Reply>)
    requires body.Some?
    requires store.Valid()
    modifies store
    ensures store.Valid() && store.order == old(store.order)
    ensures !body.value.twoFactorEnabled ==>
      if write == Up && id in old(store.docs) then
        store.docs == old(store.docs)[id := Merge(old(store.docs)[id], DisablePatch)]
        && r == Some(Message(200, "Multi-Factor Authenticator has been disabled."))
      else
        store.docs == old(store.docs) && r.Some? && r.value.status == 500
    ensures body.value.twoFactorEnabled ==>
      match GetUserid(old(store.docs), id, lookup)
      case Failure(e) => r == Some(Message(400, e)) && store.docs == old(store.docs)
      case Success(users) =>
        if users == [] then r.None? && store.docs == old(store.docs)
        else
          var key := kit.generate(MfaIssuer, users[0].email, entropy);
          var png := if key.Some? then kit.qrEncode(key.value.url) else None;
          if key.None? || png.None? || write != Up then
            store.docs == old(store.docs) && r.Some? && r.value.status == 500
          else
            var qr := kit.base64(png.value);
            && store.docs == old(store.docs)[id := Merge(old(store.docs)[id], EnablePatch(key.value.secret, qr))]
            && r == Some(Json(200, map["qrcodeurl" := Str(qr), "message" := Str("Multi-Factor Authenticator has been enabled.")]))
  {
    if body.value.twoFactorEnabled {
      var user := GetUserid(store.docs, id, lookup);
      if user.Failure? {
        return Some(Message(400, user.error));
      }
      if |user.value| > 0 {
        var key := kit.generate(MfaIssuer, user.value[0].email, entropy);
        if key.None? {
          return Some(Error(500, "Failed to generate TOTP secret"));
        }
        var secret := key.value.secret;
        var qrCodeUrl := key.value.url;
        var pngBytes := kit.qrEncode(qrCodeUrl);
        if pngBytes.None? {
          return Some(Error(500, "Failed to generate QR code"));
        }
        var base64Encoded := kit.base64(pngBytes.value);
        var w := store.Update(id, EnablePatch(secret, base64Encoded), write);
        if w != Written {
          return Some(WriteFailure(w));
        }
        return Some(Json(200, map["qrcodeurl" := Str(base64Encoded), "message" := Str("Multi-Factor Authenticator has been enabled.")]));
      }
      return None;
    } else {
      var w := store.Update(id, DisablePatch, write);
      if w != Written {
        return Some(WriteFailure(w));
      }
      return Some(Message(200, "Multi-Factor Authenticator has been disabled."));
    }
  }

  /** After enabling, the user reads back with that secret and QR image and is otherwise unchanged. */
  lemma {:induction false} EnabledUserReadsBack(docs: map<string, Doc>, id: string, secret: string, qr: string)
    requires id in docs && WellTyped(docs[id])
    ensures var u := GetUserid(docs[id := Merge(docs[id], EnablePatch(secret, qr))], id, Up);
      && u.Success? && |u.value| == 1
      && u.value[0].secret == Some(secret) && u.value[0].qrcodeurl == Some(qr)
      && SameExcept(DecodeUser(id, docs[id]).value, u.value[0], {Secret, Qrcodeurl})
  {
    DecodeMerge(id, docs[id], EnablePatch(secret, qr));
    var u := DecodeUser(id, Merge(docs[id], EnablePatch(secret, qr))).value;
    assert View(u, Secret) == Str(secret) && View(u, Qrcodeurl) == Str(qr);
  }

  /** After disabling, the user reads back with no secret and no QR image and is otherwise unchanged. */
  lemma {:induction false} DisabledUserReadsBack(docs: map<string, Doc>, id: string)
    requires id in docs && WellTyped(docs[id])
    ensures var u := GetUserid(docs[id := Merge(docs[id], DisablePatch)], id, Up);
      && u.Success? && |u.value| == 1
      && u.value[0].secret.None? && u.value[0].qrcodeurl.None?
      && SameExcept(DecodeUser(id, docs[id]).value, u.value[0], {Secret, Qrcodeurl})
  {
    DisabledClears(id, docs[id]);
    DisabledOthersKept(id, docs[id]);
  }

  /** Disabling leaves the document decodable with neither secret nor QR image. */
  lemma DisabledClears(id: string, d: Doc)
    requires WellTyped(d)
    ensures var after := DecodeUser(id, Merge(d, DisablePatch));
      after.Some? && after.value.secret.None? && after.value.qrcodeurl.None?
  {
    ClearedField(id, d, DisablePatch, Secret);
    ClearedField(id, d, DisablePatch, Qrcodeurl);
  }

  /** Disabling changes no field other than the secret and the QR image. */
  lemma DisabledOthersKept(id: string, d: Doc)
    requires WellTyped(d)
    ensures var after := DecodeUser(id, Merge(d, DisablePatch));
      after.Some? && SameExcept(DecodeUser(id, d).value, after.value, {Secret, Qrcodeurl})
  {
    assert DisablePatch.Keys == {Secret, Qrcodeurl};
    DecodeMerge(id, d, DisablePatch);
  }

  /** Disabling twice leaves the same document as disabling once. */
  lemma DisableIdempotent(d: Doc)
    ensures Merge(Merge(d, DisablePatch), DisablePatch) == Merge(d, DisablePatch)
  {
  }
}
