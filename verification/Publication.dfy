/** From the client's command line to the zone: domain, record, signature, object, checks, batch, document. */
module Publication {
  import opened Wrappers
  import opened Text
  import opened Records
  import opened Signing
  import opened Validation
  import opened Batch
  import opened Machine
  import opened Protocol
  import opened XmlNewlines
  import opened Runs
  import opened Scenarios
  import opened ZoneEffect
  import Client
  import Domain
  import Replay

  /** An accepted domain holds no CR, so the document service reads it as it is. */
  lemma DomainArrives(lower: string -> string, text: string)
    requires Domain.Parse(lower, text).Name?
    ensures Normalize(FixedName(Domain.Parse(lower, text).inner)) == FixedName(Domain.Parse(lower, text).inner)
  {
    hide Normalize, Trim;
    var name := Domain.Parse(lower, text).inner;
    Domain.ParseExact(lower, text);
    var labels, rooted :| Domain.Derives(labels, rooted, name);
    Domain.DerivedShape(labels, rooted, name);
    NormalizeExact(FixedName(name));
  }

  /** Signing an envelope is what lets anyone upload it. */
  lemma SignedCanBeWritten(meaning: Meaning, ledger: set<(VerifyingKey, Envelope)>, p: SignedPayload, key: VerifyingKey)
    requires SafeInteger(p.envelope.signedAt)
    requires meaning(p.signature) == Signed(key, CanonicalText(p.envelope)) && (key, p.envelope) in ledger
    ensures CanWrite(meaning, ledger, Some(UploadText(p)))
  {
    hide CanonicalText, UploadText, ParseUpload;
    UploadRoundTrip(p);
    forall key', e: Envelope | SafeInteger(e.signedAt) && meaning(p.signature) == Signed(key', CanonicalText(e))
      ensures (key', e) in ledger
    {
      CanonicalInjective(e, p.envelope);
    }
  }

  /** The state after a client signed and uploaded. */
  function Uploaded(s: State, p: SignedPayload, key: VerifyingKey, s3Key: string): State {
    WriteObject(s.(ledger := s.ledger + {(key, p.envelope)}), s3Key, Some(UploadText(p)))
  }

  lemma InRangeIsSafe(signedAt: int, maxAge: U32)
    requires InRange(signedAt, maxAge)
    ensures SafeInteger(signedAt)
  {
  }

  lemma Upload(conf: Conf, meaning: Meaning, init: State, labels: seq<Label>, s: State, p: SignedPayload,
               key: VerifyingKey, s3Key: string)
    requires After(conf, meaning, init, labels) == Some(s) && SafeInteger(p.envelope.signedAt)
    requires meaning(p.signature) == Signed(key, CanonicalText(p.envelope))
    ensures After(conf, meaning, init, labels + [Sign(key, p.envelope)] + [Write(s3Key, Some(UploadText(p)))])
      == Some(Uploaded(s, p, key, s3Key))
  {
    hide After, WriteObject, UploadText, CanonicalText, CanWrite;
    var signed := s.(ledger := s.ledger + {(key, p.envelope)});
    Replay.Go(conf, meaning, init, labels, s, Sign(key, p.envelope));
    SignedCanBeWritten(meaning, signed.ledger, p, key);
    Replay.Go(conf, meaning, init, labels + [Sign(key, p.envelope)], signed, Write(s3Key, Some(UploadText(p))));
  }

  lemma UploadedState(s: State, p: SignedPayload, key: VerifyingKey, s3Key: string)
    ensures var t := Uploaded(s, p, key, s3Key);
      && t.bucket == s.bucket[s3Key := UploadText(p)] && t.zone == s.zone && t.now == s.now
      && t.certificates == s.certificates && t.server == s.server
  {
    hide UploadText, Verified, InFlight, Matches;
  }

  /** What a request sets its entry to. */
  function SetTo(r: Request): RRSet { RRSet(r.payload.envelope.payload.ttl, r.payload.envelope.payload.data) }

  /** Each entry of the zone is that of the last of these requests about it, or the one of before. */
  ghost predicate ZoneSetBy(before: Zone, rs: seq<Request>, after: Zone) {
    forall k ::
      && (NoneAbout(rs, k) ==> Lookup(after, k) == Lookup(before, k))
      && (forall i: nat :: LastAbout(rs, k, i) ==> Lookup(after, k) == Some(SetTo(rs[i])))
  }

  lemma BatchSets(z: Zone, rs: seq<Request>)
    ensures ZoneSetBy(z, rs, Apply(z, Arrived(ToChanges(RecordsOf(rs)))))
  {
    hide Apply, Arrived, Target, ToChanges, RecordsOf, Lookup, NoneAbout;
    var work := Work(rs, [], NO_ERRORS);
    assert BatchOf(work) == ToChanges(RecordsOf(rs)) by { BatchOfRecords(work); }
    forall k ensures (NoneAbout(rs, k) ==> Lookup(Apply(z, Arrived(BatchOf(work))), k) == Lookup(z, k))
      && forall i: nat :: LastAbout(rs, k, i) ==>
        Lookup(Apply(z, Arrived(BatchOf(work))), k) == Some(SetTo(rs[i]))
    {
      BatchMeans(z, work, k);
    }
  }

  lemma BatchOfRecords(work: Work)
    ensures BatchOf(work) == ToChanges(RecordsOf(work.verified))
  {
  }

  /** Some request is the last about an entry that one is about. */
  lemma {:induction false} SomeLast(rs: seq<Request>, r: Request) returns (i: nat)
    requires r in rs
    ensures LastAbout(rs, Target(r), i)
  {
    hide Target;
    var last := |rs| - 1;
    if Target(rs[last]) == Target(r) {
      i := last;
    } else {
      i := SomeLast(rs[..last], r);
    }
  }

  /** The last of these requests about the entry sets it to this. */
  ghost predicate LastSays(rs: seq<Request>, key: ZoneKey, value: RRSet) {
    forall i: nat :: LastAbout(rs, key, i) ==> SetTo(rs[i]) == value
  }

  /** An entry has the value of a verified request exactly if the last verified request about it says so, in particular if it is
      that request. */
  lemma OwnEntry(before: Zone, rs: seq<Request>, after: Zone, r: Request)
    requires ZoneSetBy(before, rs, after) && r in rs
    ensures (Target(r) in after && after[Target(r)] == SetTo(r)) <==> LastSays(rs, Target(r), SetTo(r))
  {
    hide Target;
    var i := SomeLast(rs, r);
    assert Lookup(after, Target(r)) == Some(SetTo(rs[i]));
  }

  /** What the client uploads for this record, whatever the time stamp and the signature. */
  predicate IsClientRequest(record: ResourceRecordSet, directory: string, r: Request) {
    r.payload.envelope.payload == record && r.s3Key == Client.ObjectKey(directory, record)
  }

  /** Signed with this key, which is that of the first certificate for its name, and within the age limit. */
  predicate InTime(conf: Conf, meaning: Meaning, certs: seq<CertMatch>, key: VerifyingKey, r: Request, now: int) {
    && meaning(r.payload.signature) == Signed(key, CanonicalText(r.payload.envelope))
    && FirstMatch(certs, r.payload.envelope.payload.name) == Some(CertMatch(r.payload.envelope.payload.name, key))
    && -8_334_601_228_800 <= r.payload.envelope.signedAt
    && r.payload.envelope.signedAt + conf.policy.maxAge + 15 <= 8_210_266_876_799
    && now <= (r.payload.envelope.signedAt + conf.policy.maxAge + 15) * 1_000_000_000
  }

  function WithUpload(bucket: map<string, string>, r: Request): map<string, string> {
    bucket[r.s3Key := UploadText(r.payload)]
  }

  /** The client's two steps. */
  function UploadLabels(key: VerifyingKey, r: Request): seq<Label> {
    [Sign(key, r.payload.envelope), Write(r.s3Key, Some(UploadText(r.payload)))]
  }

  /** From every state without a running server, whatever is stored: a client with an accepted domain whose certificate is the
      first of its name signs and uploads in time, and an undisturbed run follows. The run verifies the request, the zone is
      set by all requests it verifies, the object is gone, and the entry of the client's name and address type has the
      configured TTL and exactly the one queried address iff the last verified request about it says so. */
  lemma ClientIsPublished(conf: Conf, meaning: Meaning, init: State, labels: seq<Label>, s: State,
                          lower: string -> string, domain: string, ttl: Option<nat>, ip: Client.IpAddr, directory: string,
                          key: VerifyingKey, me: Request, pages: seq<ListedPage>, scope: Scope, files: seq<KeyFile>)
    returns (t: State, rs: seq<Request>)
    requires !conf.policy.skipVerify && After(conf, meaning, init, labels) == Some(s) && Idle(s)
    requires Domain.Parse(lower, domain).Name?
    requires IsClientRequest(Client.BuildRecord(Domain.Parse(lower, domain).inner, ttl, ip), directory, me)
    requires InTime(conf, meaning, CertsFrom(files), key, me, s.now) && Installed(files, s.certificates)
    requires scope(me.s3Key) && Lists(pages, WithUpload(s.bucket, me), scope)
    requires CanPublish(conf, meaning, WithUpload(s.bucket, me), scope, files, s.now)
    ensures var run := RunEvents(conf, meaning, pages, Serving(WithUpload(s.bucket, me)), files, s.now);
      After(conf, meaning, init, labels + UploadLabels(key, me) + Replay.RunLabels(run)) == Some(t)
    ensures t.server.Some? && t.server.value.Finished?
    ensures rs == Approved(conf, meaning, pages, Serving(WithUpload(s.bucket, me)), files, s.now) && me in rs
    ensures ZoneSetBy(s.zone, rs, t.zone) && Cleaned(WithUpload(s.bucket, me), scope, rs, t.bucket)
    ensures me.s3Key == directory + "/" + lower(Trim(domain)) + ".ddns.json" && me.s3Key !in t.bucket
    ensures var name := lower(Trim(domain));
      var entry := (if EndsWith(name, ".") then name else name + ".", if ip.IPv4? then TypeA else TypeAAAA);
      var addresses := if ip.IPv4? then A([ip.v4]) else AAAA([ip.v6]);
      var value := RRSet(if ttl.Some? then ttl.value % 0x1_0000_0000 else 300, addresses);
      (entry in t.zone && t.zone[entry] == value) <==> LastSays(rs, entry, value)
  {
    hide After, Apply, Arrived, Normalize, FixedName, UploadText, CanonicalText, Uploaded, Lookup;
    hide Client.ObjectKey, EndsWith, Domain.Parse, Lists, CanPublish, CertsFrom, FirstMatch, Approved, Cleaned, ZoneSetBy;
    hide RunEvents, RunEnd, ParseUpload, CheckRequest, LastAbout, Serving;
    var p, s1 := me.payload, Uploaded(s, me.payload, key, me.s3Key);
    Client.KeyNamesDomain(directory, me.payload.envelope.payload);
    DomainArrives(lower, domain);
    InRangeIsSafe(p.envelope.signedAt, conf.policy.maxAge);
    Upload(conf, meaning, init, labels, s, p, key, me.s3Key);
    UploadedState(s, p, key, me.s3Key);
    assert labels + UploadLabels(key, me) == labels + [Sign(key, p.envelope)] + [Write(me.s3Key, Some(UploadText(p)))];
    SignThenCheck(meaning, CertsFrom(files), p.envelope.payload, p.envelope.signedAt, key, p.signature, conf.policy, s.now);
    ApprovedStored(conf, meaning, pages, s1.bucket, scope, files, s.now, me);
    t := UndisturbedRun(conf, meaning, init, labels + UploadLabels(key, me), s1, pages, scope, files);
    rs := Approved(conf, meaning, pages, Serving(s1.bucket), files, s1.now);
    RunFinishes(conf, meaning, pages, s1.bucket, scope, files, s1.now);
    BatchSets(s.zone, rs);
    OwnEntry(s.zone, rs, t.zone, me);
    Domain.ParseExact(lower, domain);
    ClientSets(lower(Trim(domain)), ttl, ip, me);
    OwnObjectGone(s1.bucket, scope, rs, t.bucket, me);
  }

  /** The client's entry and value, in terms of its inputs. */
  lemma ClientSets(name: string, ttl: Option<nat>, ip: Client.IpAddr, me: Request)
    requires me.payload.envelope.payload == Client.BuildRecord(name, ttl, ip)
    requires Normalize(FixedName(name)) == FixedName(name)
    ensures Target(me) == (if EndsWith(name, ".") then name else name + ".", if ip.IPv4? then TypeA else TypeAAAA)
    ensures var addresses := if ip.IPv4? then A([ip.v4]) else AAAA([ip.v6]);
      SetTo(me) == RRSet(if ttl.Some? then ttl.value % 0x1_0000_0000 else 300, addresses)
  {
    hide Normalize, EndsWith;
  }

  lemma RunFinishes(conf: Conf, meaning: Meaning, pages: seq<ListedPage>, bucket: map<string, string>, scope: Scope,
                    files: seq<KeyFile>, now: int)
    requires Lists(pages, bucket, scope) && CanPublish(conf, meaning, bucket, scope, files, now)
    ensures RunEnd(conf, meaning, pages, Serving(bucket), files, now).Finished?
  {
    hide Lists, CertsFrom, RunEnd, Stored, CheckAt;
    UndisturbedEnd(conf, meaning, pages, bucket, scope, files, now);
  }

  lemma OwnObjectGone(bucket: map<string, string>, scope: Scope, rs: seq<Request>, after: map<string, string>, r: Request)
    requires Cleaned(bucket, scope, rs, after) && r in rs
    ensures r.s3Key !in after
  {
    hide EndsWith, ParseUpload;
    var i :| 0 <= i < |rs| && rs[i] == r;
    assert KeysOf(rs)[i] == r.s3Key;
  }
}
