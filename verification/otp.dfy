/**
 * The TOTP, QR-code and base64 primitives the MFA handlers call. They live in
 * third-party libraries and stay uninterpreted: each is a field of `MfaKit`.
 */
module Otp {
  import opened Wrappers

  type Entropy = nat
  type Bytes = seq<int>

  /** What `totp.Generate` returns: the base32 secret and the `otpauth://` URL. */
  datatype OtpKey = OtpKey(secret: string, url: string)

  datatype MfaKit = MfaKit(
    /** `totp.Generate` with the given issuer and account name; may fail. */
    generate: (string, string, Entropy) -> Option<OtpKey>,
    /** `totp.Validate(passcode, secret)` at the given clock reading. */
    validate: (string, string, int) -> bool,
    /** `qrcode.Encode(url, Medium, 256)`: PNG bytes, or failure. */
    qrEncode: string -> Option<Bytes>,
    /** `base64.StdEncoding.EncodeToString`. */
    base64: Bytes -> string)
}
