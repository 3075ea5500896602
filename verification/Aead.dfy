/** An ideal AEAD (section 2 of RFC 5116) and an ideal HKDF (section 2 of RFC 5869), as terms.

    A sealed box remembers what went into it, and opens exactly for the same key, nonce and
    associated data. A derived key is the pair it was derived from, so two derivations agree
    only when both inputs do, and no derived key is ever a random one. */
module Aead {
  import opened Common

  /** Thirty-two random bytes, or an HKDF output. */
  datatype AeadKey = Raw(bytes: Bytes) | Hkdf(prf: Bytes, salt: Bytes)

  /** Ciphertext: an honest seal, or bytes that no seal produced. */
  datatype Box =
    | Box(key: AeadKey, nonce: Bytes, plaintext: Bytes, aad: Bytes)
    | Junk(bytes: Bytes)

  function KeyLength(key: AeadKey): nat {
    match key
    case Raw(bytes) => |bytes|
    case Hkdf(_, _) => DATA_KEY_LEN
  }

  function DeriveKek(prf: Bytes, salt: Bytes): Result<AeadKey> {
    if prf == [] then Err(NoPrf) else Ok(Hkdf(prf, salt))
  }

  /** nonce is what the random source yields for this seal; None means it failed. */
  function Seal(key: AeadKey, plaintext: Bytes, aad: Bytes, nonce: Option<Nonce>): Result<(Nonce, Box)> {
    if KeyLength(key) != DATA_KEY_LEN then Err(BadKeyLength)
    else if nonce.None? then Err(RandomSourceFailed)
    else Ok((nonce.value, Box(key, nonce.value, plaintext, aad)))
  }

  function Open(key: AeadKey, nonce: Bytes, box: Box, aad: Bytes): Result<Bytes> {
    if KeyLength(key) != DATA_KEY_LEN then Err(BadKeyLength)
    else if |nonce| != NONCE_LEN then Err(WrongFormat)
    else if box.Box? && box.key == key && box.nonce == nonce && box.aad == aad then Ok(box.plaintext)
    else Err(AuthenticationFailed)
  }

  /** Overwrites a buffer in place. */
  method Zero(b: array<byte>)
    modifies b
    ensures forall i :: 0 <= i < b.Length ==> b[i] == 0
  {
    for i := 0 to b.Length
      invariant forall j :: 0 <= j < i ==> b[j] == 0
    {
      b[i] := 0;
    }
  }
}
