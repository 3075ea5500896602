/** The salt-dependence gate: derive again over the salt with its last byte flipped. */
module Entropy {
  import opened Common
  import opened Authenticators

  /** salt with byte i flipped; 255 - b is b XOR 0xFF. */
  function FlipAt(salt: Bytes, i: nat): (r: Bytes)
    requires i < |salt|
    ensures |r| == |salt| && r != salt && r[..i] == salt[..i]
  {
    var r := salt[i := 255 - salt[i]];
    assert r[i] != salt[i];
    r
  }

  function Probe(salt: Bytes): (r: Bytes)
    requires |salt| == SALT_LEN
    ensures |r| == SALT_LEN
  {
    FlipAt(salt, SALT_LEN - 1)
  }

  function ProbeRequest(rpID: Bytes, credentialID: Bytes, salt: Bytes, uv: UserVerification): DeriveRequest
    requires |salt| == SALT_LEN
  {
    DeriveRequest(rpID, [credentialID], Probe(salt), uv)
  }

  /** The verdict, and the ledger it leaves. */
  function Gate(port: Port, ledger: seq<Call>, rpID: Bytes, credentialID: Bytes, salt: Bytes, realOutput: Bytes,
                uv: UserVerification, observedUV: bool): (Option<Error>, seq<Call>)
  {
    if |salt| != SALT_LEN then (Some(SaltLength), ledger)
    else if realOutput == [] then (Some(NoPrf), ledger)
    else
      var request := ProbeRequest(rpID, credentialID, salt, uv);
      var answer := port.derive(|ledger|, request);
      (Judge(answer, realOutput, observedUV), ledger + [DeriveCall(request, answer)])
  }

  function Judge(answer: Result<DeriveResult>, realOutput: Bytes, observedUV: bool): Option<Error> {
    match answer
    case Err(e) => Some(e)
    case Ok(got) =>
      if !got.userPresent then Some(NotPresent)
      else if got.secret == [] then Some(NoPrf)
      else if got.userVerified != observedUV then Some(UserVerificationMismatch)
      else if got.secret == realOutput then Some(DerivationIgnoresSalt)
      else None
  }

  method VerifyDerivationDependsOnSalt(auth: Authenticator, rpID: Bytes, credentialID: Bytes, salt: array<byte>,
                                       realOutput: Bytes, uv: UserVerification, observedUV: bool)
    returns (err: Option<Error>)
    modifies auth
    ensures (err, auth.ledger)
         == Gate(auth.port, old(auth.ledger), rpID, credentialID, salt[..], realOutput, uv, observedUV)
  {
    if salt.Length != SALT_LEN {
      return Some(SaltLength);
    }
    if |realOutput| == 0 {
      return Some(NoPrf);
    }
    var probe := new byte[salt.Length](i requires 0 <= i < salt.Length reads salt => salt[i]);
    probe[probe.Length - 1] := 255 - probe[probe.Length - 1];
    assert probe[..] == Probe(salt[..]);
    var answer := auth.Derive(DeriveRequest(rpID, [credentialID], probe[..], uv));
    if answer.Err? {
      return Some(answer.error);
    }
    var got := answer.value;
    if !got.userPresent {
      return Some(NotPresent);
    }
    if |got.secret| == 0 {
      return Some(NoPrf);
    }
    if got.userVerified != observedUV {
      return Some(UserVerificationMismatch);
    }
    if got.secret == realOutput {
      return Some(DerivationIgnoresSalt);
    }
    return None;
  }

  // ----- What passing proves -----

  /** The output over this salt really differs from the output over its probe. */
  ghost predicate DependsOnTail(device: Device, credentialID: Bytes, uv: bool, salt: Bytes)
    requires |salt| == SALT_LEN
  {
    device(credentialID, uv, salt) != device(credentialID, uv, Probe(salt))
  }

  /** Passing the gate on a faithful port proves the dependence, for the very secret that is wrapped under. */
  lemma GatePassedMeansDependence(port: Port, device: Device, ledger: seq<Call>, rpID: Bytes, credentialID: Bytes,
                                  salt: Bytes, uv: UserVerification, observedUV: bool)
    requires Faithful(port, device)
    requires Gate(port, ledger, rpID, credentialID, salt, device(credentialID, observedUV, salt), uv, observedUV).0 == None
    ensures |salt| == SALT_LEN && DependsOnTail(device, credentialID, observedUV, salt)
  {
    var a := port.derive(|ledger|, ProbeRequest(rpID, credentialID, salt, uv));
    assert a.Ok? && a.value.credentialID == credentialID;
  }

  /** A device that reads fewer than all the salt bytes cannot depend on the last one. */
  lemma TruncationIsCaught(device: Device, credentialID: Bytes, n: nat, uv: bool, salt: Bytes)
    requires ReadsPrefix(device, credentialID, n) && n < SALT_LEN && |salt| == SALT_LEN
    ensures !DependsOnTail(device, credentialID, uv, salt)
  {
    assert Probe(salt)[..n] == Probe(salt)[..SALT_LEN - 1][..n] == salt[..SALT_LEN - 1][..n] == salt[..n];
  }

  /** Soundness: no salt and no ledger let a truncating device through; and when its probe answer is present,
      non-empty and consistently verified, the error says exactly what is wrong. */
  lemma GateRefusesTruncation(port: Port, device: Device, n: nat, ledger: seq<Call>, rpID: Bytes, credentialID: Bytes,
                              salt: Bytes, uv: UserVerification, observedUV: bool)
    requires Faithful(port, device) && ReadsPrefix(device, credentialID, n) && n < SALT_LEN
    ensures var realOutput := device(credentialID, observedUV, salt);
      var err := Gate(port, ledger, rpID, credentialID, salt, realOutput, uv, observedUV).0;
      && err != None
      && (|salt| == SALT_LEN && realOutput != [] ==>
            var a := port.derive(|ledger|, ProbeRequest(rpID, credentialID, salt, uv));
            a.Ok? && a.value.userPresent && a.value.secret != [] && a.value.userVerified == observedUV
            ==> err == Some(DerivationIgnoresSalt))
  {
    if |salt| == SALT_LEN {
      TruncationIsCaught(device, credentialID, n, observedUV, salt);
      var a := port.derive(|ledger|, ProbeRequest(rpID, credentialID, salt, uv));
      assert a.Ok? ==> a.value.credentialID == credentialID;
    }
  }

  /** Completeness: an honest device that uses the whole salt passes. */
  lemma GateAdmitsHonestDevice(port: Port, device: Device, ledger: seq<Call>, rpID: Bytes, credentialID: Bytes,
                               salt: Bytes, uv: UserVerification, observedUV: bool)
    requires Faithful(port, device) && SaltInjective(device, credentialID) && |salt| == SALT_LEN
    requires device(credentialID, observedUV, salt) != []
    requires var a := port.derive(|ledger|, ProbeRequest(rpID, credentialID, salt, uv));
             a.Ok? && a.value.userPresent && a.value.secret != [] && a.value.userVerified == observedUV
    ensures Gate(port, ledger, rpID, credentialID, salt, device(credentialID, observedUV, salt), uv, observedUV).0 == None
  {
    var a := port.derive(|ledger|, ProbeRequest(rpID, credentialID, salt, uv));
    assert a.value.credentialID == credentialID;
    assert Probe(salt) != salt;
  }

  /** The device that reads exactly the first n bytes, and returns them. */
  function PrefixDevice(n: nat): Device {
    (credentialID, uv, salt: Bytes) => if n <= |salt| then salt[..n] else []
  }

  /** Flipping byte i exposes every truncating device exactly when i is the last byte. */
  lemma OnlyTheTailCatchesTruncation(salt: Bytes, i: nat, credentialID: Bytes, uv: bool)
    requires |salt| == SALT_LEN && i < SALT_LEN
    ensures (forall device: Device, n: nat :: n < SALT_LEN && ReadsPrefix(device, credentialID, n)
               ==> device(credentialID, uv, salt) == device(credentialID, uv, FlipAt(salt, i)))
       <==> i == SALT_LEN - 1
  {
    if i == SALT_LEN - 1 {
      forall device: Device, n: nat | n < SALT_LEN && ReadsPrefix(device, credentialID, n)
        ensures device(credentialID, uv, salt) == device(credentialID, uv, FlipAt(salt, i))
      {
        TruncationIsCaught(device, credentialID, n, uv, salt);
      }
    } else {
      var device := PrefixDevice(i + 1);
      assert ReadsPrefix(device, credentialID, i + 1);
      var flipped := FlipAt(salt, i);
      assert salt[..i + 1][i] != flipped[..i + 1][i];
      assert device(credentialID, uv, salt) != device(credentialID, uv, flipped);
    }
  }
}
