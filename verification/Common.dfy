/** Bytes, results and the errors the library can return. */
module Common {

  type byte = b: int | 0 <= b < 256
  type Bytes = seq<byte>

  // Sizes fixed by CTAP2 hmac-secret, AES-256-GCM and the library itself.
  const SALT_LEN := 32
  const DATA_KEY_LEN := 32
  const NONCE_LEN := 12
  const USER_ID_LEN := 16
  const FORMAT_VERSION := 1

  // What one call to the random source yields when it does not fail.
  type Nonce = b: Bytes | |b| == NONCE_LEN witness seq(NONCE_LEN, _ => 0)
  type Salt = b: Bytes | |b| == SALT_LEN witness seq(SALT_LEN, _ => 0)
  type DataKey = b: Bytes | |b| == DATA_KEY_LEN witness seq(DATA_KEY_LEN, _ => 0)
  type UserID = b: Bytes | |b| == USER_ID_LEN witness seq(USER_ID_LEN, _ => 0)

  datatype Option<+T> = None | Some(value: T) {
    predicate IsFailure() { None? }

    function PropagateFailure<U>(): Option<U>
      requires None?
    {
      None
    }

    function Extract(): T
      requires Some?
    {
      value
    }
  }

  datatype Result<+T> = Ok(value: T) | Err(error: Error)

  /** The sentinels of errors.go first, then the failures that have no sentinel. */
  datatype Error =
    | NoSuchSecret
    | SlotOccupied
    | NoSuchSlot
    | UnknownCredential
    | UserVerificationMismatch
    | NotPresent
    | DerivationIgnoresSalt
    | NotEntropyVerified
    | WrongFormat
    | Locked
    | NoKeysEnrolled
    | LastKey
    | ResidentKey
    | NoPrf
    | SaltLength
    | NoCredentialID
    | Untrusted(attestationReason: nat)
    | NoRpID
    | RpIDConflict
    | NoName
    | NoValue
    | ReadFailed
    | NegativeSlot
    | AlreadyEnrolled
    | BadKeyLength
    | AuthenticationFailed
    | RandomSourceFailed
    | DeviceFailed(deviceReason: nat)
}
