/** The authenticator port: requests, answers, and the ledger of gestures spent on it. */
module Authenticators {
  import opened Common

  datatype UserVerification = UVDiscouraged | UVRequired

  datatype EnrollRequest = EnrollRequest(rpID: Bytes, rpName: Bytes, userID: Bytes, userName: Bytes, uv: UserVerification)

  /** attestation stands for the whole attestation statement, which only a trust decision reads. */
  datatype EnrollResult = EnrollResult(credentialID: Bytes, residentKey: bool, attestation: Bytes)

  datatype DeriveRequest = DeriveRequest(rpID: Bytes, credentialIDs: seq<Bytes>, salt: Bytes, uv: UserVerification)
  datatype DeriveResult = DeriveResult(secret: Bytes, credentialID: Bytes, userPresent: bool, userVerified: bool)

  /** Whatever answers: any function of the call's number and its request, so a device may change its
      mind from one call to the next, lie, fail, or be a different device each time. */
  datatype Port = Port(enroll: (nat, EnrollRequest) -> Result<EnrollResult>,
                       derive: (nat, DeriveRequest) -> Result<DeriveResult>)

  /** One gesture: what was asked and what came back. */
  datatype Call =
    | EnrollCall(creation: EnrollRequest, created: Result<EnrollResult>)
    | DeriveCall(request: DeriveRequest, answer: Result<DeriveResult>)

  class Authenticator {
    const port: Port
    var ledger: seq<Call>

    constructor (port: Port)
      ensures this.port == port && ledger == []
    {
      this.port := port;
      ledger := [];
    }

    method Enroll(request: EnrollRequest) returns (r: Result<EnrollResult>)
      modifies this
      ensures r == port.enroll(|old(ledger)|, request)
      ensures ledger == old(ledger) + [EnrollCall(request, r)]
    {
      r := port.enroll(|ledger|, request);
      ledger := ledger + [EnrollCall(request, r)];
    }

    method Derive(request: DeriveRequest) returns (r: Result<DeriveResult>)
      modifies this
      ensures r == port.derive(|old(ledger)|, request)
      ensures ledger == old(ledger) + [DeriveCall(request, r)]
    {
      r := port.derive(|ledger|, request);
      ledger := ledger + [DeriveCall(request, r)];
    }
  }

  predicate ValidRequest(r: DeriveRequest) {
    && r.credentialIDs != []
    && (forall i :: 0 <= i < |r.credentialIDs| ==> r.credentialIDs[i] != [])
    && |r.salt| == SALT_LEN
  }

  /** The check every provider runs; a bad allow-list is reported before a bad salt. */
  method Validate(r: DeriveRequest) returns (err: Option<Error>)
    ensures err.None? <==> ValidRequest(r)
    ensures err == Some(NoCredentialID) <==> (r.credentialIDs == [] || [] in r.credentialIDs)
    ensures err.Some? ==> err.value == NoCredentialID || err.value == SaltLength
  {
    if |r.credentialIDs| == 0 {
      return Some(NoCredentialID);
    }
    for i := 0 to |r.credentialIDs|
      invariant [] !in r.credentialIDs[..i]
    {
      if |r.credentialIDs[i]| == 0 {
        return Some(NoCredentialID);
      }
    }
    if |r.salt| != SALT_LEN {
      return Some(SaltLength);
    }
    return None;
  }

  // ----- Honest devices (hmac-secret, section 12.5 of CTAP 2.1) -----

  /** The output of hmac-secret: a function of the credential, of whether the operator was verified
      (each credential has two secrets), and of the salt. Nothing says it uses all of the salt. */
  type Device = (Bytes, bool, Bytes) -> Bytes

  /** Every answer comes from a credential in the allow-list, and its secret, if any, from the device. */
  ghost predicate Faithful(port: Port, device: Device) {
    forall n, request :: port.derive(n, request).Ok? ==>
      var a := port.derive(n, request).value;
      a.credentialID in request.credentialIDs
      && (a.secret == [] || a.secret == device(a.credentialID, a.userVerified, request.salt))
  }

  /** The device reads only the first n bytes of the salt for this credential. */
  ghost predicate ReadsPrefix(device: Device, credentialID: Bytes, n: nat) {
    forall uv, s: Bytes, s': Bytes :: |s| == |s'| == SALT_LEN && n <= SALT_LEN && s[..n] == s'[..n]
      ==> device(credentialID, uv, s) == device(credentialID, uv, s')
  }

  /** Different salts give different outputs for this credential. */
  ghost predicate SaltInjective(device: Device, credentialID: Bytes) {
    forall uv, s, s' :: device(credentialID, uv, s) == device(credentialID, uv, s') ==> s == s'
  }
}
