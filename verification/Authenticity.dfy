/** What the server writes was signed: over every run of the system, whatever others write to the bucket. */
module Authenticity {
  import opened Wrappers
  import opened Text
  import opened Records
  import opened Signing
  import opened Validation
  import opened Batch
  import opened Machine
  import opened Flow
  import opened Protocol
  import opened XmlNewlines

  /** The request was signed, exactly as it is, with the key of the first certificate for its name, one that was
      installed, and it was within the age limit when it was checked. */
  predicate Genuine(conf: Conf, meaning: Meaning, ledger: set<(VerifyingKey, Envelope)>, certificates: set<CertMatch>,
                    a: Acceptance) {
    var p := a.request.payload;
    && Authentic(meaning, a.certs, p)
    && FirstMatch(a.certs, p.envelope.payload.name).value in certificates
    && (FirstMatch(a.certs, p.envelope.payload.name).value.verifyingKey, p.envelope) in ledger
    && -8_334_601_228_800 <= p.envelope.signedAt
    && p.envelope.signedAt + conf.policy.maxAge + 15 <= 8_210_266_876_799
    && a.at <= (p.envelope.signedAt + conf.policy.maxAge + 15) * 1_000_000_000
  }

  /** This request's change, as it arrives, sets this entry. */
  predicate Sets(r: Request, key: ZoneKey, value: RRSet) {
    var c := NormalizeChange(ToChange(r.payload.envelope.payload));
    KeyOf(c) == key && ValueOf(c) == value
  }

  ghost predicate BucketUnforged(meaning: Meaning, s: State) {
    forall key :: key in s.bucket ==> CanWrite(meaning, s.ledger, Some(s.bucket[key]))
  }

  ghost predicate FlightUnforged(meaning: Meaning, s: State) {
    s.server.Some? ==> forall r :: r in Unchecked(s.server.value) ==> Unforged(meaning, s.ledger, r.payload)
  }

  ghost predicate CertsInstalled(s: State) {
    s.server.Some? ==> forall c :: c in CertsOf(s.server.value) ==> c in s.certificates
  }

  ghost predicate GoodVerified(s: State) {
    s.server.Some? ==> forall r :: r in Good(s.server.value) ==> r in Verified(s.history)
  }

  ghost predicate AllGenuine(conf: Conf, meaning: Meaning, s: State) {
    forall a :: a in s.history.acceptances ==> Genuine(conf, meaning, s.ledger, s.certificates, a)
  }

  ghost predicate ZoneExplained(zone: Zone, s: State) {
    forall key :: key in s.zone ==>
      (key in zone && zone[key] == s.zone[key]) || (exists r :: r in Verified(s.history) && Sets(r, key, s.zone[key]))
  }

  ghost predicate Honest(conf: Conf, meaning: Meaning, zone: Zone, s: State) {
    && BucketUnforged(meaning, s) && FlightUnforged(meaning, s) && CertsInstalled(s) && GoodVerified(s)
    && AllGenuine(conf, meaning, s) && ZoneExplained(zone, s)
  }

  // ---------------------------------------------------------------- the server

  /** A request that is accepted is genuine. */
  lemma AcceptedIsGenuine(conf: Conf, meaning: Meaning, s: State, e: Event, a: Acceptance)
    requires !conf.policy.skipVerify && FlightUnforged(meaning, s) && CertsInstalled(s) && s.server.Some? && Answers(s, e)
    requires a in Acceptances(conf, meaning, s.server.value, e)
    ensures Genuine(conf, meaning, s.ledger, s.certificates, a)
  {
    hide CanonicalText, Unforged;
    var p := a.request.payload;
    CheckExact(meaning, a.certs, p, conf.policy, e.now);
    FirstMatchExact(a.certs, p.envelope.payload.name);
    SignerInLedger(meaning, s.ledger, p, FirstMatch(a.certs, p.envelope.payload.name).value.verifyingKey);
  }

  lemma SignerInLedger(meaning: Meaning, ledger: set<(VerifyingKey, Envelope)>, p: SignedPayload, key: VerifyingKey)
    requires Unforged(meaning, ledger, p) && SafeInteger(p.envelope.signedAt)
    requires meaning(p.signature) == Signed(key, CanonicalText(p.envelope))
    ensures (key, p.envelope) in ledger
  {
    hide CanonicalText;
  }

  lemma ActKeepsGenuine(conf: Conf, meaning: Meaning, zone: Zone, s: State, e: Event, lands: bool)
    requires !conf.policy.skipVerify && Honest(conf, meaning, zone, s) && s.server.Some? && Answers(s, e)
    ensures var h' := HistoryAfter(conf, meaning, s, s.server.value, e, lands);
      forall a :: a in h'.acceptances ==> Genuine(conf, meaning, s.ledger, s.certificates, a)
  {
    hide Genuine, Acceptances, Live, TooOldBy, Unforged, CanWrite;
    forall a | a in Acceptances(conf, meaning, s.server.value, e) ensures Genuine(conf, meaning, s.ledger, s.certificates, a) {
      AcceptedIsGenuine(conf, meaning, s, e, a);
    }
  }

  lemma ActKeepsFlight(conf: Conf, meaning: Meaning, s: State, e: Event, t: Server)
    requires BucketUnforged(meaning, s) && s.server.Some? && FlightUnforged(meaning, s) && Answers(s, e)
    requires Active(t) ==> Flows(conf, meaning, s.server.value, e, t)
    ensures forall r :: r in Unchecked(t) ==> Unforged(meaning, s.ledger, r.payload)
  {
    hide ParseUpload, CheckRequest, Unforged, DeleteKeys, Good;
    if Active(t) {
      forall r | r in Unchecked(t) ensures Unforged(meaning, s.ledger, r.payload) {
        if r !in Unchecked(s.server.value) {
          assert r in FetchedBy(e);
        }
      }
    }
  }

  lemma ActKeepsCerts(conf: Conf, meaning: Meaning, s: State, e: Event, t: Server)
    requires CertsInstalled(s) && s.server.Some? && Answers(s, e)
    requires Active(t) ==> Flows(conf, meaning, s.server.value, e, t)
    ensures forall c :: c in CertsOf(t) ==> c in s.certificates
  {
    hide ParseUpload, CheckRequest, DeleteKeys, Good, Unchecked;
  }

  lemma ActKeepsGood(conf: Conf, meaning: Meaning, s: State, e: Event, lands: bool, t: Server)
    requires GoodVerified(s) && s.server.Some?
    requires Active(t) ==> Flows(conf, meaning, s.server.value, e, t)
    ensures forall r :: r in Good(t) ==> r in Verified(HistoryAfter(conf, meaning, s, s.server.value, e, lands))
  {
    hide ParseUpload, CheckRequest, DeleteKeys, Unchecked;
    var h' := HistoryAfter(conf, meaning, s, s.server.value, e, lands);
    if Active(t) {
      forall r | r in Good(t) ensures r in Verified(h') {
        if r in Good(s.server.value) {
          var a :| a in s.history.acceptances && a.request == r;
          assert a in h'.acceptances;
        } else {
          assert Acceptance(r, s.server.value.certs, e.now) in h'.acceptances;
        }
      }
    }
  }

  // ---------------------------------------------------------------- the zone

  /** Each entry after a commit is one of before, or set by one of the verified requests. */
  lemma CommitExplained(z: Zone, work: Work, key: ZoneKey)
    requires key in Apply(z, Arrived(BatchOf(work)))
    ensures var z' := Apply(z, Arrived(BatchOf(work)));
      (key in z && z[key] == z'[key]) || (exists r :: r in work.verified && Sets(r, key, z'[key]))
  {
    hide Arrived, Apply, NormalizeChange, ToChange;
    var cs := Arrived(BatchOf(work));
    ArrivedExact(BatchOf(work));
    LastChangeWins(z, cs, key);
    if LastFor(cs, key).Some? {
      LastForExact(cs, key);
      var i: nat :| LastAt(cs, key, i) && LastFor(cs, key) == Some(ValueOf(cs[i]));
      assert cs[i] == NormalizeChange(ToChange(work.verified[i].payload.envelope.payload));
      assert Sets(work.verified[i], key, Apply(z, cs)[key]);
    }
  }

  lemma ActKeepsZone(conf: Conf, meaning: Meaning, zone: Zone, s: State, e: Event, lands: bool)
    requires Honest(conf, meaning, zone, s) && s.server.Some? && Acts(s.server.value, e)
    ensures var z', h' := ZoneAfter(s.zone, e, lands), HistoryAfter(conf, meaning, s, s.server.value, e, lands);
      forall key :: key in z' ==>
        (key in zone && zone[key] == z'[key]) || (exists r :: r in Verified(h') && Sets(r, key, z'[key]))
  {
    hide Sets, Arrived, Apply, Live, Acceptances, TooOldBy, BatchOf, DeleteKeys, CanWrite, Unforged, Genuine;
    var z', h' := ZoneAfter(s.zone, e, lands), HistoryAfter(conf, meaning, s, s.server.value, e, lands);
    assert Verified(s.history) <= Verified(h');
    forall key | key in z' && !(key in s.zone && s.zone[key] == z'[key])
      ensures exists r :: r in Verified(h') && Sets(r, key, z'[key])
    {
      CommitExplained(s.zone, s.server.value.work, key);
      var r :| r in s.server.value.work.verified && Sets(r, key, z'[key]);
      assert r in Good(s.server.value);
    }
  }

  // ---------------------------------------------------------------- all steps

  lemma ActHonest(conf: Conf, meaning: Meaning, zone: Zone, s: State, e: Event, lands: bool)
    requires !conf.policy.skipVerify && Honest(conf, meaning, zone, s) && ActState(conf, meaning, s, e, lands).Some?
    ensures Honest(conf, meaning, zone, ActState(conf, meaning, s, e, lands).value)
  {
    hide Step, Flows, Acts, Good, Unchecked, CertsOf, Verified, HistoryAfter, ZoneAfter, Answers, CanWrite, Unforged;
    hide Genuine, Sets, Active;
    var server := s.server.value;
    var t := Step(conf, meaning, server, e).value;
    StepFlows(conf, meaning, server, e);
    ActKeepsGenuine(conf, meaning, zone, s, e, lands);
    ActKeepsFlight(conf, meaning, s, e, t);
    ActKeepsCerts(conf, meaning, s, e, t);
    ActKeepsGood(conf, meaning, s, e, lands, t);
    ActKeepsZone(conf, meaning, zone, s, e, lands);
  }

  lemma SignHonest(conf: Conf, meaning: Meaning, zone: Zone, s: State, entry: (VerifyingKey, Envelope), cert: CertMatch)
    requires Honest(conf, meaning, zone, s)
    ensures Honest(conf, meaning, zone, s.(ledger := s.ledger + {entry}))
    ensures Honest(conf, meaning, zone, s.(certificates := s.certificates + {cert}))
  {
    hide ParseUpload, CanonicalText, Authentic, Sets, Good, Unchecked, FirstMatch;
  }

  lemma WriteHonest(conf: Conf, meaning: Meaning, zone: Zone, s: State, key: string, text: Option<string>)
    requires Honest(conf, meaning, zone, s) && CanWrite(meaning, s.ledger, text)
    ensures Honest(conf, meaning, zone, WriteObject(s, key, text))
  {
    hide CanWrite, Unforged, Genuine, Sets, Good, Unchecked, InFlight, Matches;
  }

  lemma RestartHonest(conf: Conf, meaning: Meaning, zone: Zone, s: State, stale: set<Envelope>)
    requires Honest(conf, meaning, zone, s)
    ensures var history := s.history.(staleBefore := stale, missedNow := {});
      Honest(conf, meaning, zone, s.(server := Some(START), trace := [], history := history))
    ensures Honest(conf, meaning, zone, s.(server := None, trace := []))
  {
    hide CanWrite, Unforged, Genuine, Sets;
  }

  lemma StepHonest(conf: Conf, meaning: Meaning, zone: Zone, s: State, l: Label)
    requires !conf.policy.skipVerify && Honest(conf, meaning, zone, s) && StepState(conf, meaning, s, l).Some?
    ensures Honest(conf, meaning, zone, StepState(conf, meaning, s, l).value)
  {
    hide ActState, WriteObject, CanWrite, Unforged, Genuine, Sets, Good, Unchecked, Active;
    match l
    case Act(e, lands) => ActHonest(conf, meaning, zone, s, e, lands);
    case Write(key, text) => WriteHonest(conf, meaning, zone, s, key, text);
    case Sign(signer, e) => SignHonest(conf, meaning, zone, s, (signer, e), CertMatch("", []));
    case Install(cert) => SignHonest(conf, meaning, zone, s, ([], Envelope(ResourceRecordSet("", 0, A([])), 0)), cert);
    case StartRun => RestartHonest(conf, meaning, zone, s, s.history.stale);
    case Crash => RestartHonest(conf, meaning, zone, s, s.history.stale);
    case Tick(_) =>
  }

  lemma {:induction false} AlwaysHonest(conf: Conf, meaning: Meaning, init: State, labels: seq<Label>)
    requires !conf.policy.skipVerify && Initial(meaning, init) && After(conf, meaning, init, labels).Some?
    ensures Honest(conf, meaning, init.zone, After(conf, meaning, init, labels).value)
  {
    hide StepState, Honest, Initial;
    if labels == [] {
      InitialHonest(conf, meaning, init);
    } else {
      var front := labels[..|labels| - 1];
      AlwaysHonest(conf, meaning, init, front);
      StepHonest(conf, meaning, init.zone, After(conf, meaning, init, front).value, labels[|labels| - 1]);
    }
  }

  lemma InitialHonest(conf: Conf, meaning: Meaning, init: State)
    requires Initial(meaning, init)
    ensures Honest(conf, meaning, init.zone, init)
  {
    hide CanWrite;
  }

  /** The signed envelope behind a zone entry: same addresses, TTL and type; the entry's name is the signed name with a
      final dot, read with its line ends normalised. */
  ghost predicate Witnessed(conf: Conf, meaning: Meaning, s: State, key: ZoneKey, value: RRSet) {
    exists a :: a in s.history.acceptances && Genuine(conf, meaning, s.ledger, s.certificates, a)
      && var p := a.request.payload.envelope.payload;
        key == (Normalize(FixedName(p.name)), p.data.RecordType()) && value == RRSet(p.ttl, p.data)
  }

  /** At every point of every run, under any interleaving with writes of others: each zone entry is one the zone began
      with, or was signed as it stands by the key of the certificate for its name, in time. */
  lemma ZoneIsAuthentic(conf: Conf, meaning: Meaning, init: State, labels: seq<Label>, key: ZoneKey)
    requires !conf.policy.skipVerify && Initial(meaning, init) && After(conf, meaning, init, labels).Some?
    requires key in After(conf, meaning, init, labels).value.zone
    ensures var s := After(conf, meaning, init, labels).value;
      (key in init.zone && init.zone[key] == s.zone[key]) || Witnessed(conf, meaning, s, key, s.zone[key])
  {
    hide After, Initial, Genuine, BucketUnforged, FlightUnforged, CertsInstalled, GoodVerified;
    AlwaysHonest(conf, meaning, init, labels);
    var s := After(conf, meaning, init, labels).value;
    if !(key in init.zone && init.zone[key] == s.zone[key]) {
      var r :| r in Verified(s.history) && Sets(r, key, s.zone[key]);
      var a :| a in s.history.acceptances && a.request == r;
      assert Genuine(conf, meaning, s.ledger, s.certificates, a);
    }
  }

  /** Where no signed name holds a CR the name in the zone is the signed name, but for the final dot. */
  lemma PlainNames(name: string)
    requires CR !in name
    ensures Normalize(FixedName(name)) == name || (Normalize(FixedName(name)) == name + "." && !EndsWith(name, "."))
  {
    hide Normalize;
    NormalizeExact(FixedName(name));
  }
}
