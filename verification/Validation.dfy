/** The check of one request: matching certificate, signature, age (src/server.rs). */
module Validation {
  import opened Wrappers
  import opened Records
  import opened Signing

  datatype CertMatch = CertMatch(commonName: string, verifyingKey: VerifyingKey)

  /** A request that has been read; a verified request is one of these, with its record and its key. */
  datatype Request = Request(payload: SignedPayload, s3Key: string) {
    function Record(): ResourceRecordSet { payload.envelope.payload }
  }

  datatype Policy = Policy(maxAge: U32, skipVerify: bool)

  datatype Reason = NoMatchingKey | SignatureMismatch | BadTimestamp | TooOld

  /** `Abort`: adding the age limit leaves the range of `chrono`, which panics; panics abort the process. */
  datatype Check = Valid | Invalid(reason: Reason) | Abort

  const CLOCK_DRIFT_SECS := 15
  const NANOS := 1_000_000_000

  /** First and last second of `chrono::DateTime<Utc>` (years -262143 to 262142). */
  const MIN_TIMESTAMP := -8_334_601_228_800
  const MAX_TIMESTAMP := 8_210_266_876_799

  /** Last second in which an envelope signed then is still accepted. */
  function Deadline(signedAt: int, maxAge: U32): int {
    signedAt + maxAge + CLOCK_DRIFT_SECS
  }

  /** The certificate whose common name is the payload's name: the first one in the list. */
  function FirstMatch(certs: seq<CertMatch>, name: string): Option<CertMatch> {
    if certs == [] then None
    else if certs[0].commonName == name then Some(certs[0])
    else FirstMatch(certs[1..], name)
  }

  /** `UnverifiedDdnsRequest::validate`; `now` is in nanoseconds. */
  function Validate(meaning: Meaning, p: SignedPayload, key: VerifyingKey, policy: Policy, now: int): Check {
    if policy.skipVerify then Valid
    else if !Verify(meaning, key, CanonicalText(p.envelope), p.signature) then Invalid(SignatureMismatch)
    else if !(MIN_TIMESTAMP <= p.envelope.signedAt <= MAX_TIMESTAMP) then Invalid(BadTimestamp)
    else if Deadline(p.envelope.signedAt, policy.maxAge) > MAX_TIMESTAMP then Abort
    else if Deadline(p.envelope.signedAt, policy.maxAge) * NANOS < now then Invalid(TooOld)
    else Valid
  }

  /** The key of `dummy_ed25519_private_key`; any key would do, since it is not looked at. */
  const DUMMY_KEY: VerifyingKey := []

  /** `check_valid_ddns_request`: the signature is checked here and once more in `Validate`. */
  function CheckRequest(meaning: Meaning, certs: seq<CertMatch>, p: SignedPayload, policy: Policy, now: int): Check {
    if policy.skipVerify then Validate(meaning, p, DUMMY_KEY, policy, now) else
      match FirstMatch(certs, p.envelope.payload.name)
      case None => Invalid(NoMatchingKey)
      case Some(cert) =>
        if !Verify(meaning, cert.verifyingKey, CanonicalText(p.envelope), p.signature) then Invalid(SignatureMismatch)
        else Validate(meaning, p, cert.verifyingKey, policy, now)
  }

  // ---------------------------------------------------------------- what the check decides

  /** The envelope was signed with the key of the certificate that counts for its name. */
  predicate Authentic(meaning: Meaning, certs: seq<CertMatch>, p: SignedPayload) {
    var cert := FirstMatch(certs, p.envelope.payload.name);
    cert.Some? && meaning(p.signature) == Signed(cert.value.verifyingKey, CanonicalText(p.envelope))
  }

  /** The clock, in nanoseconds, is at most the age limit and 15 seconds past the time stamp. */
  predicate Fresh(signedAt: int, maxAge: U32, now: int) {
    now <= (signedAt + maxAge + 15) * 1_000_000_000
  }

  /** Time stamps that `chrono` can hold, with and without the age limit added. */
  predicate InRange(signedAt: int, maxAge: U32) {
    -8_334_601_228_800 <= signedAt && signedAt + maxAge + 15 <= 8_210_266_876_799
  }

  /** The first certificate for `name` stands at `i`. */
  predicate FirstAt(certs: seq<CertMatch>, name: string, i: nat) {
    i < |certs| && certs[i].commonName == name && forall j :: 0 <= j < i ==> certs[j].commonName != name
  }

  lemma {:induction false} FirstMatchExact(certs: seq<CertMatch>, name: string)
    ensures FirstMatch(certs, name).None? <==> forall i :: 0 <= i < |certs| ==> certs[i].commonName != name
    ensures FirstMatch(certs, name).Some? ==> exists i: nat :: FirstAt(certs, name, i) && certs[i] == FirstMatch(certs, name).value
  {
    if certs != [] {
      var rest := certs[1..];
      FirstMatchExact(rest, name);
      assert forall j :: 1 <= j < |certs| ==> certs[j] == rest[j - 1];
      if certs[0].commonName == name {
        assert FirstAt(certs, name, 0);
      } else if FirstMatch(rest, name).Some? {
        var i: nat :| FirstAt(rest, name, i) && rest[i] == FirstMatch(rest, name).value;
        assert FirstAt(certs, name, i + 1);
      }
    }
  }

  /** The two-stage check is one signature check and the age limit: each verdict with its exact condition, in seconds of the
      time stamp and nanoseconds of the clock. It aborts exactly on authentic time stamps so late that the age limit leaves
      the clock's range. */
  lemma CheckExact(meaning: Meaning, certs: seq<CertMatch>, p: SignedPayload, policy: Policy, now: int)
    requires !policy.skipVerify
    ensures var at, age, check := p.envelope.signedAt, policy.maxAge, CheckRequest(meaning, certs, p, policy, now);
      var authentic := exists i: nat :: FirstAt(certs, p.envelope.payload.name, i)
                                   && meaning(p.signature) == Signed(certs[i].verifyingKey, CanonicalText(p.envelope));
      var inRange := -8_334_601_228_800 <= at && at + age + 15 <= 8_210_266_876_799;
      && authentic == Authentic(meaning, certs, p)
      && (check == Valid <==> authentic && inRange && now <= (at + age + 15) * 1_000_000_000)
      && (check == Invalid(TooOld) <==> authentic && inRange && now > (at + age + 15) * 1_000_000_000)
      && (check == Abort <==> authentic && 8_210_266_876_799 - age - 15 < at <= 8_210_266_876_799)
      && (check == Invalid(BadTimestamp) <==> authentic && !(-8_334_601_228_800 <= at <= 8_210_266_876_799))
      && (check == Invalid(NoMatchingKey) <==> forall c :: c in certs ==> c.commonName != p.envelope.payload.name)
  {
    hide CanonicalText, FirstMatch;
    FirstMatchExact(certs, p.envelope.payload.name);
    forall c | c in certs && FirstMatch(certs, p.envelope.payload.name).None? ensures c.commonName != p.envelope.payload.name {
      var i :| 0 <= i < |certs| && certs[i] == c;
    }
    forall i: nat, j: nat | FirstAt(certs, p.envelope.payload.name, i) && FirstAt(certs, p.envelope.payload.name, j) ensures i == j {
    }
  }

  /** With `insecure_skip_verify` every request that could be read is accepted. */
  lemma SkipVerifyAccepts(meaning: Meaning, certs: seq<CertMatch>, p: SignedPayload, policy: Policy, now: int)
    requires policy.skipVerify
    ensures CheckRequest(meaning, certs, p, policy, now) == Valid
  {
  }

  /** An uploaded record that was signed with the key of the first matching certificate is accepted until its deadline. */
  lemma SignThenCheck(meaning: Meaning, certs: seq<CertMatch>, record: ResourceRecordSet, signedAt: I64,
                      key: VerifyingKey, signature: Signature, policy: Policy, now: int)
    requires meaning(signature) == Signed(key, CanonicalText(Envelope(record, signedAt)))
    requires InRange(signedAt, policy.maxAge) && Fresh(signedAt, policy.maxAge, now)
    requires FirstMatch(certs, record.name) == Some(CertMatch(record.name, key))
    ensures var text := UploadText(SignedPayload(Envelope(record, signedAt), signature));
      && ParseUpload(text) == Some(SignedPayload(Envelope(record, signedAt), signature))
      && CheckRequest(meaning, certs, ParseUpload(text).value, policy, now) == Valid
  {
    hide UploadText, ParseUpload, CanonicalText;
    UploadRoundTrip(SignedPayload(Envelope(record, signedAt), signature));
  }

  /** Once past its deadline an envelope is never accepted again, whatever certificates are installed. */
  lemma StaleForever(meaning: Meaning, certs: seq<CertMatch>, certs': seq<CertMatch>, p: SignedPayload,
                     policy: Policy, now: int, now': int)
    requires !policy.skipVerify && now <= now'
    requires CheckRequest(meaning, certs, p, policy, now) == Invalid(TooOld)
    ensures CheckRequest(meaning, certs', p, policy, now') != Valid
    ensures CheckRequest(meaning, certs', p, policy, now') != Abort
  {
    CheckExact(meaning, certs, p, policy, now);
    CheckExact(meaning, certs', p, policy, now');
  }

  predicate UniqueNames(certs: seq<CertMatch>) {
    forall i, j :: 0 <= i < j < |certs| ==> certs[i].commonName != certs[j].commonName
  }

  /** With unique common names only the set of certificates matters, not their order. */
  lemma OrderOfCertificates(certs: seq<CertMatch>, certs': seq<CertMatch>, name: string)
    requires multiset(certs) == multiset(certs') && UniqueNames(certs)
    ensures FirstMatch(certs, name) == FirstMatch(certs', name)
  {
    hide FirstMatch;
    FirstMatchExact(certs, name);
    FirstMatchExact(certs', name);
    assert forall c :: c in certs <==> c in multiset(certs);
    assert forall c :: c in certs' <==> c in multiset(certs');
    if FirstMatch(certs, name).Some? {
      assert FirstMatch(certs, name).value in certs';
    }
    if FirstMatch(certs', name).Some? {
      assert FirstMatch(certs', name).value in certs;
    }
  }

  /** So permuting the certificates changes no verdict. */
  lemma VerdictIgnoresOrder(meaning: Meaning, certs: seq<CertMatch>, certs': seq<CertMatch>, p: SignedPayload,
                            policy: Policy, now: int)
    requires multiset(certs) == multiset(certs') && UniqueNames(certs)
    ensures CheckRequest(meaning, certs, p, policy, now) == CheckRequest(meaning, certs', p, policy, now)
  {
    OrderOfCertificates(certs, certs', p.envelope.payload.name);
  }

  /** Verification pins the envelope: what was signed with that signature is this envelope and no other. */
  lemma ValidMeansThisEnvelope(meaning: Meaning, certs: seq<CertMatch>, p: SignedPayload, policy: Policy, now: int,
                               signed: Envelope, key: VerifyingKey)
    requires !policy.skipVerify && CheckRequest(meaning, certs, p, policy, now) == Valid
    requires meaning(p.signature) == Signed(key, CanonicalText(signed)) && SafeInteger(signed.signedAt)
    ensures signed == p.envelope
    ensures FirstMatch(certs, p.envelope.payload.name) == Some(CertMatch(p.envelope.payload.name, key))
  {
    hide CanonicalText;
    CheckExact(meaning, certs, p, policy, now);
    CanonicalInjective(signed, p.envelope);
    FirstMatchExact(certs, p.envelope.payload.name);
  }
}
