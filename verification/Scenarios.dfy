/** What one server run does when nobody disturbs it, and how two runs can lose a verified request. */
module Scenarios {
  import opened Wrappers
  import opened Text
  import opened Records
  import opened Signing
  import opened Validation
  import opened Batch
  import opened Machine
  import opened Flow
  import opened Filtering
  import opened Protocol
  import opened Replay
  import opened Runs
  import Authenticity

  // ---------------------------------------------------------------- what is in the bucket

  /** Which keys a listing of the configured directory shows. */
  type Scope = string -> bool

  /** The pages show each stored key of the directory once, and no other key. */
  ghost predicate Lists(pages: seq<ListedPage>, bucket: map<string, string>, scope: Scope) {
    pages != [] && forall k :: multiset(KeysOfPages(pages))[k] == if k in bucket && scope(k) then 1 else 0
  }

  /** Fetches that give what is stored. */
  function Serving(bucket: map<string, string>): Store {
    k => if k in bucket then Some(bucket[k]) else None
  }

  /** Fetches that give what is stored or fail. */
  ghost predicate Serves(store: Store, bucket: map<string, string>) {
    forall k :: store(k).Some? ==> k in bucket && store(k).value == bucket[k]
  }

  /** The key files hold installed certificates. */
  ghost predicate Installed(files: seq<KeyFile>, certificates: set<CertMatch>) {
    forall c :: c in CertsFrom(files) ==> c in certificates
  }

  predicate Stored(bucket: map<string, string>, scope: Scope, r: Request) {
    scope(r.s3Key) && EndsWith(r.s3Key, ".ddns.json") && InBucket(bucket, r)
  }

  lemma Listed(pages: seq<ListedPage>, bucket: map<string, string>, scope: Scope, key: string)
    requires Lists(pages, bucket, scope)
    ensures key in KeysOfPages(pages) <==> key in bucket && scope(key)
  {
    hide KeysOfPages;
    assert key in KeysOfPages(pages) <==> multiset(KeysOfPages(pages))[key] > 0;
  }

  /** A run that lists everything finds the stored requests that are served. */
  lemma FindsStored(pages: seq<ListedPage>, bucket: map<string, string>, scope: Scope, store: Store, r: Request)
    requires Lists(pages, bucket, scope) && Serves(store, bucket)
    ensures r in Found(pages, store) <==> Stored(bucket, scope, r) && store(r.s3Key).Some?
  {
    hide EndsWith, ParseUpload, KeysOfPages, Found;
    FoundExact(pages, store, r);
    Listed(pages, bucket, scope, r.s3Key);
  }

  // ---------------------------------------------------------------- checks

  function CheckAt(conf: Conf, meaning: Meaning, files: seq<KeyFile>, now: int, r: Request): Check {
    CheckRequest(meaning, CertsFrom(files), r.payload, conf.policy, now)
  }

  /** The requests that the run verifies, in order. */
  function Approved(conf: Conf, meaning: Meaning, pages: seq<ListedPage>, store: Store, files: seq<KeyFile>,
                    now: int): seq<Request> {
    Select(conf, meaning, CertsFrom(files), AllAt(Found(pages, store), now), true)
  }

  lemma ApprovedExact(conf: Conf, meaning: Meaning, pages: seq<ListedPage>, store: Store, files: seq<KeyFile>,
                      now: int, r: Request)
    ensures r in Approved(conf, meaning, pages, store, files, now)
      <==> r in Found(pages, store) && CheckAt(conf, meaning, files, now, r).Valid?
  {
    hide Found, CertsFrom, CheckRequest, Select;
    var rs := Found(pages, store);
    InSelect(conf, meaning, CertsFrom(files), AllAt(rs, now), true, r);
    if r in rs {
      var i :| 0 <= i < |rs| && rs[i] == r;
      assert AllAt(rs, now)[i] == Timed(r, now);
    }
  }

  lemma AbortExact(conf: Conf, meaning: Meaning, pages: seq<ListedPage>, store: Store, files: seq<KeyFile>, now: int)
    ensures var ts := AllAt(Found(pages, store), now);
      FirstAbort(conf, meaning, CertsFrom(files), ts) < |ts|
      <==> exists r :: r in Found(pages, store) && CheckAt(conf, meaning, files, now, r).Abort?
  {
    hide Found, CertsFrom, CheckRequest, FirstAbort;
    var rs, certs := Found(pages, store), CertsFrom(files);
    var ts := AllAt(rs, now);
    var k := FirstAbort(conf, meaning, certs, ts);
    if k < |ts| {
      assert rs[k] in rs && CheckAt(conf, meaning, files, now, rs[k]).Abort?;
    } else {
      assert ts[..k] == ts;
      forall r | r in rs ensures !CheckAt(conf, meaning, files, now, r).Abort? {
        var i :| 0 <= i < |rs| && rs[i] == r;
        assert !CheckOf(conf, meaning, certs, ts[i]).Abort?;
      }
    }
  }

  lemma VerifiedOfRun(conf: Conf, meaning: Meaning, pages: seq<ListedPage>, store: Store, files: seq<KeyFile>, now: int)
    ensures var work := WorkOfRun(conf, meaning, pages, store, files, now);
      && work.verified == Approved(conf, meaning, pages, store, files, now)
      && work.errors.fetches == MissedIn(ReadEvents(pages, store, files))
      && work.errors.parses == MisreadIn(ReadEvents(pages, store, files))
  {
    hide Found, CertsFrom, ReadEvents, MissedIn, MisreadIn, BadFilesIn, Select, NamesOf;
  }

  // ---------------------------------------------------------------- effects of a run

  lemma DeleteFold(bucket: map<string, string>, zone: Zone, trace: seq<Event>, keys: seq<string>)
    ensures BucketAfterAll(bucket, trace + DeleteEvents(keys)) == BucketAfterAll(bucket, trace) - (set k | k in keys)
    ensures ZoneAfterAll(zone, trace + DeleteEvents(keys)) == ZoneAfterAll(zone, trace)
    decreases |keys|
  {
    hide BucketAfterAll, ZoneAfterAll;
    if keys == [] {
      assert trace + DeleteEvents(keys) == trace;
    } else {
      var front, last := keys[..|keys| - 1], keys[|keys| - 1];
      DeleteFold(bucket, zone, trace, front);
      FoldSnoc(bucket, zone, trace + DeleteEvents(front), DeleteObject(last, Status(204)));
      assert trace + DeleteEvents(keys) == trace + DeleteEvents(front) + [DeleteObject(last, Status(204))];
      assert (set k | k in keys) == (set k | k in front) + {last};
    }
  }

  /** Drop, commit and deletes after a trace without effects. */
  lemma EndEffect(bucket: map<string, string>, zone: Zone, trace: seq<Event>, work: Work)
    requires Quiet(trace)
    ensures BucketAfterAll(bucket, trace + EndEvents(work)) == bucket - (set k | k in DeleteKeys(work))
    ensures ZoneAfterAll(zone, trace + EndEvents(work)) == Apply(zone, Arrived(BatchOf(work)))
  {
    hide BucketAfterAll, ZoneAfterAll, DeleteKeys, BatchOf, Apply, Arrived, DeleteEvents, Quiet;
    var drop, commit := DropPrivileges(true), Commit(BatchOf(work), true);
    NoEffects(bucket, zone, trace);
    FoldSnoc(bucket, zone, trace, drop);
    FoldSnoc(bucket, zone, trace + [drop], commit);
    DeleteFold(bucket, zone, trace + [drop] + [commit], DeleteKeys(work));
    assert trace + EndEvents(work) == trace + [drop] + [commit] + DeleteEvents(DeleteKeys(work));
  }

  lemma QuietReading(pages: seq<ListedPage>, store: Store, files: seq<KeyFile>)
    ensures Quiet(ReadEvents(pages, store, files)) && Quiet(ListEvents(pages, store, |pages|))
  {
    hide CertsFrom, ReadEvents, ListEvents, Carries;
    var read, list := ReadEvents(pages, store, files), ListEvents(pages, store, |pages|);
    forall i | 0 <= i < |read| ensures NoEffect(read[i]) {
      ReadCarries(pages, store, files, 0, read[i]);
    }
    forall i | 0 <= i < |list| ensures NoEffect(list[i]) {
      ListInRead(pages, store, files, list[i]);
      ReadCarries(pages, store, files, 0, list[i]);
    }
  }

  lemma QuietChecks(ts: seq<Timed>)
    ensures Quiet(Checks(ts)) && Quiet([DropPrivileges(true)])
  {
  }

  /** The run gets as far as writing. */
  predicate Writes(conf: Conf, meaning: Meaning, pages: seq<ListedPage>, store: Store, files: seq<KeyFile>, now: int) {
    var ts := AllAt(Found(pages, store), now);
    && CertsFrom(files) != [] && !conf.dryRun
    && FirstAbort(conf, meaning, CertsFrom(files), ts) == |ts|
    && Approved(conf, meaning, pages, store, files, now) != []
  }

  lemma QuietRun(conf: Conf, meaning: Meaning, pages: seq<ListedPage>, store: Store, files: seq<KeyFile>, now: int)
    requires !Writes(conf, meaning, pages, store, files, now)
    ensures Quiet(RunEvents(conf, meaning, pages, store, files, now))
  {
    hide Found, CertsFrom, ReadEvents, ListEvents, WorkOfRun, FirstAbort, Checks, EndEvents, Approved, Quiet;
    VerifiedOfRun(conf, meaning, pages, store, files, now);
    var read, ts := ReadEvents(pages, store, files), AllAt(Found(pages, store), now);
    var k := FirstAbort(conf, meaning, CertsFrom(files), ts);
    QuietReading(pages, store, files);
    if k < |ts| {
      QuietChecks(ts[..k + 1]);
      QuietConcat(read, Checks(ts[..k + 1]));
    }
    QuietChecks(ts);
    QuietConcat(read, Checks(ts));
    QuietConcat(read + Checks(ts), [DropPrivileges(true)]);
  }

  /** A run either writes its whole batch and removes what it is done with, or changes nothing. */
  lemma RunEffect(conf: Conf, meaning: Meaning, pages: seq<ListedPage>, store: Store, files: seq<KeyFile>, now: int,
                  bucket: map<string, string>, zone: Zone)
    ensures var trace := RunEvents(conf, meaning, pages, store, files, now);
      var work := WorkOfRun(conf, meaning, pages, store, files, now);
      if Writes(conf, meaning, pages, store, files, now)
      then BucketAfterAll(bucket, trace) == bucket - (set k | k in DeleteKeys(work))
        && ZoneAfterAll(zone, trace) == Apply(zone, Arrived(BatchOf(work)))
      else BucketAfterAll(bucket, trace) == bucket && ZoneAfterAll(zone, trace) == zone
  {
    hide BucketAfterAll, ZoneAfterAll, Quiet, Apply, Arrived, BatchOf, DeleteKeys, WorkOfRun;
    if Writes(conf, meaning, pages, store, files, now) {
      WritingRun(conf, meaning, pages, store, files, now);
      var ts := AllAt(Found(pages, store), now);
      EndEffect(bucket, zone, ReadEvents(pages, store, files) + Checks(ts), WorkOfRun(conf, meaning, pages, store, files, now));
    } else {
      QuietRun(conf, meaning, pages, store, files, now);
      NoEffects(bucket, zone, RunEvents(conf, meaning, pages, store, files, now));
    }
  }

  lemma WritingRun(conf: Conf, meaning: Meaning, pages: seq<ListedPage>, store: Store, files: seq<KeyFile>, now: int)
    requires Writes(conf, meaning, pages, store, files, now)
    ensures var ts, work := AllAt(Found(pages, store), now), WorkOfRun(conf, meaning, pages, store, files, now);
      var checked := ReadEvents(pages, store, files) + Checks(ts);
      && RunEvents(conf, meaning, pages, store, files, now) == checked + EndEvents(work)
      && Quiet(checked)
  {
    hide Found, CertsFrom, ReadEvents, ListEvents, WorkOfRun, FirstAbort, Checks, EndEvents, Approved, Quiet;
    VerifiedOfRun(conf, meaning, pages, store, files, now);
    FoundSome(conf, meaning, pages, store, files, now);
    var ts := AllAt(Found(pages, store), now);
    QuietReading(pages, store, files);
    QuietChecks(ts);
    QuietConcat(ReadEvents(pages, store, files), Checks(ts));
  }

  lemma FoundSome(conf: Conf, meaning: Meaning, pages: seq<ListedPage>, store: Store, files: seq<KeyFile>, now: int)
    requires Approved(conf, meaning, pages, store, files, now) != []
    ensures Found(pages, store) != []
  {
    hide Found, CertsFrom;
  }

  // ---------------------------------------------------------------- one undisturbed run

  predicate Idle(s: State) { s.server.None? || !Active(s.server.value) }

  /** The outside can answer such a run as it goes. */
  lemma RunAnswerable(conf: Conf, meaning: Meaning, s: State, pages: seq<ListedPage>, store: Store, files: seq<KeyFile>)
    requires !conf.policy.skipVerify && pages != [] && Serves(store, s.bucket)
    requires Installed(files, s.certificates)
    ensures Answerable(s, RunEvents(conf, meaning, pages, store, files, s.now))
  {
    hide RunEvents, RunEnd, CertsFrom, StateAfter, BucketAfterAll;
    var trace := RunEvents(conf, meaning, pages, store, files, s.now);
    RunEnds(conf, meaning, pages, store, files, s.now);
    forall n | 0 <= n < |trace| ensures Answers(s.(bucket := BucketAfterAll(s.bucket, trace[..n])), trace[n]) {
      RunCarries(conf, meaning, pages, store, files, s.now, trace[n]);
      if trace[n].GetObject? {
        BucketWhenFetching(conf, meaning, s.bucket, trace, n);
      }
    }
  }

  /** No stored request stops the server, there are certificates, and this is no dry run. */
  ghost predicate CanPublish(conf: Conf, meaning: Meaning, bucket: map<string, string>, scope: Scope,
                             files: seq<KeyFile>, now: int) {
    && CertsFrom(files) != [] && !conf.dryRun
    && forall r :: Stored(bucket, scope, r) ==> !CheckAt(conf, meaning, files, now, r).Abort?
  }

  /** Those objects of the directory are gone that hold a published request or cannot be read. */
  ghost predicate Cleaned(bucket: map<string, string>, scope: Scope, rs: seq<Request>, after: map<string, string>) {
    && (forall k :: k in after ==> k in bucket && after[k] == bucket[k])
    && (forall k :: k in bucket ==> (k in after <==>
          k !in KeysOf(rs) && !(scope(k) && EndsWith(k, ".ddns.json") && ParseUpload(bucket[k]).None?)))
  }

  lemma ServingServes(bucket: map<string, string>)
    ensures Serves(Serving(bucket), bucket)
  {
  }

  lemma WritesExact(conf: Conf, meaning: Meaning, pages: seq<ListedPage>, bucket: map<string, string>, scope: Scope,
                    files: seq<KeyFile>, now: int)
    requires Lists(pages, bucket, scope)
    ensures var store := Serving(bucket);
      Writes(conf, meaning, pages, store, files, now)
      <==> CanPublish(conf, meaning, bucket, scope, files, now) && Approved(conf, meaning, pages, store, files, now) != []
  {
    hide Lists, Found, CertsFrom, FirstAbort, AllAt, Approved, CheckAt, EndsWith, ParseUpload;
    AbortExact(conf, meaning, pages, Serving(bucket), files, now);
    ServingServes(bucket);
    forall r ensures r in Found(pages, Serving(bucket)) <==> Stored(bucket, scope, r) {
      FindsStored(pages, bucket, scope, Serving(bucket), r);
    }
    AllAtLength(Found(pages, Serving(bucket)), now);
  }

  lemma AllAtLength(rs: seq<Request>, now: int)
    ensures |AllAt(rs, now)| == |rs|
  {
  }

  lemma DeletesExact(conf: Conf, meaning: Meaning, pages: seq<ListedPage>, bucket: map<string, string>, scope: Scope,
                     files: seq<KeyFile>, now: int)
    requires Lists(pages, bucket, scope)
    ensures var store := Serving(bucket);
      Cleaned(bucket, scope, Approved(conf, meaning, pages, store, files, now),
              bucket - (set k | k in DeleteKeys(WorkOfRun(conf, meaning, pages, store, files, now))))
  {
    hide Lists, Approved, WorkOfRun, EndsWith, ParseUpload, KeysOf, MissedIn, MisreadIn, ReadEvents, KeysOfPages;
    var store := Serving(bucket);
    VerifiedOfRun(conf, meaning, pages, store, files, now);
    forall k | k in bucket ensures k in DeleteKeys(WorkOfRun(conf, meaning, pages, store, files, now)) <==>
      k in KeysOf(Approved(conf, meaning, pages, store, files, now))
      || (scope(k) && EndsWith(k, ".ddns.json") && ParseUpload(bucket[k]).None?)
    {
      Listed(pages, bucket, scope, k);
      MissedExact(pages, store, files, k);
      MisreadExact(pages, store, files, k);
    }
  }

  lemma ApprovedStored(conf: Conf, meaning: Meaning, pages: seq<ListedPage>, bucket: map<string, string>, scope: Scope,
                       files: seq<KeyFile>, now: int, r: Request)
    requires Lists(pages, bucket, scope)
    ensures r in Approved(conf, meaning, pages, Serving(bucket), files, now)
      <==> Stored(bucket, scope, r) && CheckAt(conf, meaning, files, now, r).Valid?
  {
    hide Lists, Found, CertsFrom, Approved, CheckAt, EndsWith, ParseUpload;
    ServingServes(bucket);
    FindsStored(pages, bucket, scope, Serving(bucket), r);
    ApprovedExact(conf, meaning, pages, Serving(bucket), files, now, r);
  }

  /** From every state without a running server: a run that lists the whole directory, in any number of pages, and meets
      no failing call. It publishes all stored requests that pass, in the order of the listing, and removes them and what
      cannot be read; or, where nothing can be published, it changes nothing. */
  lemma UndisturbedRun(conf: Conf, meaning: Meaning, init: State, labels: seq<Label>, s: State, pages: seq<ListedPage>,
                       scope: Scope, files: seq<KeyFile>) returns (t: State)
    requires !conf.policy.skipVerify && After(conf, meaning, init, labels) == Some(s) && Idle(s)
    requires Lists(pages, s.bucket, scope) && Installed(files, s.certificates)
    ensures var run := RunEvents(conf, meaning, pages, Serving(s.bucket), files, s.now);
      After(conf, meaning, init, labels + RunLabels(run)) == Some(t)
    ensures t.server == Some(RunEnd(conf, meaning, pages, Serving(s.bucket), files, s.now))
    ensures var rs := Approved(conf, meaning, pages, Serving(s.bucket), files, s.now);
      if CanPublish(conf, meaning, s.bucket, scope, files, s.now) && rs != []
      then t.zone == Apply(s.zone, Arrived(ToChanges(RecordsOf(rs)))) && Cleaned(s.bucket, scope, rs, t.bucket)
      else t.zone == s.zone && t.bucket == s.bucket
    ensures t.now == s.now && t.certificates == s.certificates && t.ledger == s.ledger
  {
    hide After, StateAfter, RunEvents, RunEnd, Lists, CertsFrom, Answerable, BucketAfterAll, ZoneAfterAll, Verified;
    hide CommittedIn;
    hide Approved, CanPublish, Cleaned, Writes, Apply, Arrived, ToChanges, RecordsOf, WorkOfRun, Serving;
    var store := Serving(s.bucket);
    ServingServes(s.bucket);
    var trace := RunEvents(conf, meaning, pages, store, files, s.now);
    RunAnswerable(conf, meaning, s, pages, store, files) by { ListsSome(pages, s.bucket, scope); }
    RunEnds(conf, meaning, pages, store, files, s.now) by { ListsSome(pages, s.bucket, scope); }
    t := Replay.Replay(conf, meaning, init, labels, s, trace);
    RunEffect(conf, meaning, pages, store, files, s.now, s.bucket, s.zone);
    WritesExact(conf, meaning, pages, s.bucket, scope, files, s.now);
    DeletesExact(conf, meaning, pages, s.bucket, scope, files, s.now);
    VerifiedOfRun(conf, meaning, pages, store, files, s.now);
  }

  lemma ListsSome(pages: seq<ListedPage>, bucket: map<string, string>, scope: Scope)
    requires Lists(pages, bucket, scope)
    ensures pages != []
  {
  }

  /** How it ends where there are certificates: stopped exactly by a stored request whose check aborts, otherwise finished. */
  lemma UndisturbedEnd(conf: Conf, meaning: Meaning, pages: seq<ListedPage>, bucket: map<string, string>, scope: Scope,
                       files: seq<KeyFile>, now: int)
    requires Lists(pages, bucket, scope) && CertsFrom(files) != []
    ensures var end := RunEnd(conf, meaning, pages, Serving(bucket), files, now);
      && (end.Aborted? <==> exists r :: Stored(bucket, scope, r) && CheckAt(conf, meaning, files, now, r).Abort?)
      && (end.Aborted? || end.Finished?)
  {
    hide Lists, Found, CertsFrom, FirstAbort, AllAt, CheckAt, EndsWith, ParseUpload, WorkOfRun, ErrorsIn, ListEvents;
    hide ReadEvents, Serving;
    AbortExact(conf, meaning, pages, Serving(bucket), files, now);
    ServingServes(bucket);
    forall r ensures r in Found(pages, Serving(bucket)) <==> Stored(bucket, scope, r) {
      FindsStored(pages, bucket, scope, Serving(bucket), r);
      ServesStored(bucket, scope, r);
    }
    AllAtLength(Found(pages, Serving(bucket)), now);
  }

  lemma ServesStored(bucket: map<string, string>, scope: Scope, r: Request)
    ensures Stored(bucket, scope, r) ==> Serving(bucket)(r.s3Key).Some?
  {
    hide EndsWith, ParseUpload;
  }

  // ---------------------------------------------------------------- one request that stops every run

  /** An authentic upload whose time stamp is so late that the age limit leaves the range of the clock stops every
      undisturbed run, which then changes nothing; the object stays, and the next run meets it again. */
  lemma LateStampStops(conf: Conf, meaning: Meaning, init: State, labels: seq<Label>, s: State, pages: seq<ListedPage>,
                       scope: Scope, files: seq<KeyFile>, p: SignedPayload, s3Key: string, key: VerifyingKey) returns (t: State)
    requires !conf.policy.skipVerify && After(conf, meaning, init, labels) == Some(s) && Idle(s)
    requires Lists(pages, s.bucket, scope) && Installed(files, s.certificates)
    requires scope(s3Key) && EndsWith(s3Key, ".ddns.json") && s3Key in s.bucket && s.bucket[s3Key] == UploadText(p)
    requires meaning(p.signature) == Signed(key, CanonicalText(p.envelope))
    requires FirstMatch(CertsFrom(files), p.envelope.payload.name) == Some(CertMatch(p.envelope.payload.name, key))
    requires 8_210_266_876_799 - conf.policy.maxAge - 15 < p.envelope.signedAt <= 8_210_266_876_799
    ensures var run := RunEvents(conf, meaning, pages, Serving(s.bucket), files, s.now);
      After(conf, meaning, init, labels + RunLabels(run)) == Some(t)
    ensures t.server == Some(Aborted) && t.bucket == s.bucket && t.zone == s.zone
    ensures Idle(t) && t.now == s.now && t.certificates == s.certificates
  {
    hide After, RunEvents, RunEnd, Lists, CertsFrom, Approved, Cleaned, Serving, UploadText, ParseUpload, EndsWith;
    hide CanonicalText;
    var r := Request(p, s3Key);
    UploadRoundTrip(p);
    CheckExact(meaning, CertsFrom(files), p, conf.policy, s.now);
    assert Stored(s.bucket, scope, r) && CheckAt(conf, meaning, files, s.now, r).Abort?;
    FirstMatchExact(CertsFrom(files), p.envelope.payload.name);
    t := UndisturbedRun(conf, meaning, init, labels, s, pages, scope, files);
    UndisturbedEnd(conf, meaning, pages, s.bucket, scope, files, s.now);
  }

  /** For instance an upload signed for the last second of the clock. */
  lemma LastSecondStops(conf: Conf, meaning: Meaning, init: State, labels: seq<Label>, s: State, pages: seq<ListedPage>,
                        scope: Scope, files: seq<KeyFile>, record: ResourceRecordSet, signature: Signature, s3Key: string,
                        key: VerifyingKey) returns (t: State)
    requires !conf.policy.skipVerify && After(conf, meaning, init, labels) == Some(s) && Idle(s)
    requires Lists(pages, s.bucket, scope) && Installed(files, s.certificates)
    requires scope(s3Key) && EndsWith(s3Key, ".ddns.json") && s3Key in s.bucket
    requires s.bucket[s3Key] == UploadText(SignedPayload(Envelope(record, 8_210_266_876_799), signature))
    requires meaning(signature) == Signed(key, CanonicalText(Envelope(record, 8_210_266_876_799)))
    requires FirstMatch(CertsFrom(files), record.name) == Some(CertMatch(record.name, key))
    ensures var run := RunEvents(conf, meaning, pages, Serving(s.bucket), files, s.now);
      After(conf, meaning, init, labels + RunLabels(run)) == Some(t)
    ensures t.server == Some(Aborted) && t.bucket == s.bucket && t.zone == s.zone
  {
    hide After, RunEvents, Lists, CertsFrom, UploadText, EndsWith, CanonicalText, FirstMatch;
    var p := SignedPayload(Envelope(record, 8_210_266_876_799), signature);
    t := LateStampStops(conf, meaning, init, labels, s, pages, scope, files, p, s3Key, key);
  }

  // ---------------------------------------------------------------- two runs that lose a request

  lemma AnswerablePrefix(s: State, a: seq<Event>, b: seq<Event>)
    requires Answerable(s, a + b)
    ensures Answerable(s, a)
  {
    hide Answers, BucketAfterAll;
    forall n | 0 <= n < |a| ensures Answers(s.(bucket := BucketAfterAll(s.bucket, a[..n])), a[n]) {
      assert (a + b)[..n] == a[..n] && (a + b)[n] == a[n];
    }
  }

  /** A run over the whole directory that ends in a crash after its checks: everything that passes was verified. */
  lemma CrashAfterChecks(conf: Conf, meaning: Meaning, init: State, pages: seq<ListedPage>, scope: Scope, files: seq<KeyFile>)
    returns (labels: seq<Label>, t: State)
    requires Initial(meaning, init) && !conf.policy.skipVerify && Lists(pages, init.bucket, scope)
    requires Installed(files, init.certificates)
    requires CanPublish(conf, meaning, init.bucket, scope, files, init.now)
    requires Approved(conf, meaning, pages, Serving(init.bucket), files, init.now) != []
    ensures After(conf, meaning, init, labels) == Some(t) && t.server.None?
    ensures t.bucket == init.bucket && t.zone == init.zone && t.now == init.now && t.certificates == init.certificates
    ensures t.history.committed == {} && t.history.replaced == {}
    ensures forall r :: r in Approved(conf, meaning, pages, Serving(init.bucket), files, init.now) ==> r in Verified(t.history)
  {
    hide StateAfter, RunEvents, RunEnd, Lists, CertsFrom, Answerable, BucketAfterAll, ZoneAfterAll, Verified, StepState;
    hide Approved, CanPublish, WorkOfRun, Serving, Found, ReadEvents, Checks, FirstAbort, EndEvents, Quiet, CanWrite;
    var store := Serving(init.bucket);
    var read, ts := ReadEvents(pages, store, files), AllAt(Found(pages, store), init.now);
    var work := WorkOfRun(conf, meaning, pages, store, files, init.now);
    var checked := read + Checks(ts);
    ServingServes(init.bucket);
    ListsSome(pages, init.bucket, scope);
    RunAnswerable(conf, meaning, init, pages, store, files);
    WritesExact(conf, meaning, pages, init.bucket, scope, files, init.now);
    WritingRun(conf, meaning, pages, store, files, init.now);
    FoundSome(conf, meaning, pages, store, files, init.now);
    CheckedState(conf, meaning, pages, store, files, init.now);
    VerifiedOfRun(conf, meaning, pages, store, files, init.now);
    AnswerablePrefix(init, checked, EndEvents(work));
    assert After(conf, meaning, init, []) == Some(init);
    var m := Replay.Replay(conf, meaning, init, [], init, checked);
    labels := [] + RunLabels(checked);
    NoEffects(init.bucket, init.zone, checked);
    Authenticity.AlwaysHonest(conf, meaning, init, labels);
    assert forall r :: r in work.verified ==> r in Good(m.server.value);
    NothingCommitted(conf, meaning, checked);
    Go(conf, meaning, init, labels, m, Crash);
    CrashStep(conf, meaning, m);
    labels := labels + [Crash];
    t := m.(server := None, trace := []);
  }

  lemma CrashStep(conf: Conf, meaning: Meaning, m: State)
    ensures StepState(conf, meaning, m, Crash) == Some(m.(server := None, trace := []))
  {
  }

  lemma NothingCommitted(conf: Conf, meaning: Meaning, trace: seq<Event>)
    requires Quiet(trace)
    ensures forall r :: !CommittedIn(conf, meaning, trace, r)
  {
    hide StateAfter, Good;
  }

  /** Fetches that give what is stored, but for one that fails. */
  function Missing(bucket: map<string, string>, key: string): Store {
    k => if k == key || k !in bucket then None else Some(bucket[k])
  }

  lemma MissingServes(bucket: map<string, string>, key: string)
    ensures Serves(Missing(bucket, key), bucket)
    ensures forall k :: Missing(bucket, key)(k).Some? <==> k != key && k in bucket
  {
  }

  /** What is not served is not committed. */
  lemma MissedNotCommitted(conf: Conf, meaning: Meaning, pages: seq<ListedPage>, store: Store, files: seq<KeyFile>,
                           now: int, r: Request)
    requires store(r.s3Key).None?
    ensures !CommittedIn(conf, meaning, RunEvents(conf, meaning, pages, store, files, now), r)
  {
    hide StateAfter, RunEvents, CertsFrom, Good, ParseUpload;
    var trace := RunEvents(conf, meaning, pages, store, files, now);
    forall n | 0 <= n < |trace| && StateAfter(conf, meaning, trace[..n]).Some?
      ensures r !in Good(StateAfter(conf, meaning, trace[..n]).value)
    {
      OnlyFetched(conf, meaning, trace[..n]);
      InFetched(trace[..n], r);
      forall e | e in trace[..n] ensures r !in FetchedBy(e) {
        RunCarries(conf, meaning, pages, store, files, now, e);
      }
    }
  }

  lemma MissStillWrites(conf: Conf, meaning: Meaning, pages: seq<ListedPage>, bucket: map<string, string>, scope: Scope,
                        files: seq<KeyFile>, now: int, r: Request, other: Request)
    requires Lists(pages, bucket, scope) && CanPublish(conf, meaning, bucket, scope, files, now) && r.s3Key != other.s3Key
    requires Stored(bucket, scope, r) && Stored(bucket, scope, other) && CheckAt(conf, meaning, files, now, other).Valid?
    ensures var store := Missing(bucket, r.s3Key);
      && Writes(conf, meaning, pages, store, files, now)
      && other in Approved(conf, meaning, pages, store, files, now) && r !in Approved(conf, meaning, pages, store, files, now)
  {
    hide Lists, CertsFrom, Approved, Missing, Found, FirstAbort, AllAt, CheckAt, ParseUpload, EndsWith;
    var store := Missing(bucket, r.s3Key);
    MissingServes(bucket, r.s3Key);
    forall q ensures q in Found(pages, store) <==> Stored(bucket, scope, q) && store(q.s3Key).Some? {
      FindsStored(pages, bucket, scope, store, q);
    }
    AbortExact(conf, meaning, pages, store, files, now);
    ApprovedExact(conf, meaning, pages, store, files, now, other);
    ApprovedExact(conf, meaning, pages, store, files, now, r);
    AllAtLength(Found(pages, store), now);
  }

  lemma WritingEnds(conf: Conf, meaning: Meaning, pages: seq<ListedPage>, store: Store, files: seq<KeyFile>, now: int)
    requires Writes(conf, meaning, pages, store, files, now)
    ensures RunEnd(conf, meaning, pages, store, files, now).Finished?
  {
    hide CertsFrom, Found, FirstAbort, AllAt, WorkOfRun, ErrorsIn, ListEvents, ReadEvents, Approved;
    FoundSome(conf, meaning, pages, store, files, now);
  }

  /** A run over the whole directory in which one fetch fails and another request passes. */
  lemma RunWithMiss(conf: Conf, meaning: Meaning, init: State, labels: seq<Label>, s: State, pages: seq<ListedPage>,
                    scope: Scope,
                    files: seq<KeyFile>, r: Request, other: Request) returns (t: State)
    requires !conf.policy.skipVerify && After(conf, meaning, init, labels) == Some(s) && Idle(s)
    requires Lists(pages, s.bucket, scope) && Installed(files, s.certificates)
    requires CanPublish(conf, meaning, s.bucket, scope, files, s.now) && r.s3Key != other.s3Key
    requires Stored(s.bucket, scope, r) && Stored(s.bucket, scope, other) && CheckAt(conf, meaning, files, s.now, other).Valid?
    ensures var run := RunEvents(conf, meaning, pages, Missing(s.bucket, r.s3Key), files, s.now);
      After(conf, meaning, init, labels + RunLabels(run)) == Some(t)
    ensures t.server.Some? && t.server.value.Finished?
    ensures r.s3Key !in t.bucket && (r in t.history.committed ==> r in s.history.committed)
    ensures var rs := Approved(conf, meaning, pages, Missing(s.bucket, r.s3Key), files, s.now);
      other in rs && r !in rs && t.zone == Apply(s.zone, Arrived(ToChanges(RecordsOf(rs))))
    ensures t.history.replaced == s.history.replaced && Verified(s.history) <= Verified(t.history)
  {
    hide After, StateAfter, RunEvents, Lists, CertsFrom, Answerable, BucketAfterAll, ZoneAfterAll, Verified, CommittedIn;
    hide Approved, WorkOfRun, Missing, CheckAt, ParseUpload, EndsWith, ReadEvents, KeysOf, Writes, RunEnd, RecordsOf;
    hide ToChanges, Apply, Arrived, CanPublish;
    var store := Missing(s.bucket, r.s3Key);
    MissingServes(s.bucket, r.s3Key);
    ListsSome(pages, s.bucket, scope);
    MissStillWrites(conf, meaning, pages, s.bucket, scope, files, s.now, r, other);
    VerifiedOfRun(conf, meaning, pages, store, files, s.now);
    RunAnswerable(conf, meaning, s, pages, store, files);
    RunEnds(conf, meaning, pages, store, files, s.now);
    WritingEnds(conf, meaning, pages, store, files, s.now);
    t := Replay.Replay(conf, meaning, init, labels, s, RunEvents(conf, meaning, pages, store, files, s.now));
    RunEffect(conf, meaning, pages, store, files, s.now, s.bucket, s.zone);
    Listed(pages, s.bucket, scope, r.s3Key);
    MissedExact(pages, store, files, r.s3Key);
    MissedNotCommitted(conf, meaning, pages, store, files, s.now, r);
  }

  /** A verified request that is lost. Any two stored requests that pass, whatever else is stored: the first run checks
      everything and crashes; in the second run the fetch of the one fails and the other is committed; then both keys are
      deleted. All listings are complete, all keys are distinct, and nothing is written from outside. */
  lemma MissedFetchLoses(conf: Conf, meaning: Meaning, init: State, pages: seq<ListedPage>, scope: Scope, files: seq<KeyFile>,
                         r: Request, other: Request) returns (labels: seq<Label>, t: State)
    requires Initial(meaning, init) && !conf.policy.skipVerify && Lists(pages, init.bucket, scope)
    requires Installed(files, init.certificates)
    requires CanPublish(conf, meaning, init.bucket, scope, files, init.now) && r.s3Key != other.s3Key
    requires Stored(init.bucket, scope, r) && CheckAt(conf, meaning, files, init.now, r).Valid?
    requires Stored(init.bucket, scope, other) && CheckAt(conf, meaning, files, init.now, other).Valid?
    ensures After(conf, meaning, init, labels) == Some(t) && t.server.Some? && t.server.value.Finished?
    ensures r in Verified(t.history)
    ensures !InBucket(t.bucket, r) && r !in t.history.committed && r !in t.history.replaced
    ensures var rs := Approved(conf, meaning, pages, Missing(init.bucket, r.s3Key), files, init.now);
      other in rs && r !in rs && t.zone == Apply(init.zone, Arrived(ToChanges(RecordsOf(rs))))
  {
    hide Apply, Arrived, ToChanges, RecordsOf;
    hide After, Initial, RunEvents, Lists, CertsFrom, Verified, Approved, CanPublish, Stored, CheckAt, Serving, Missing;
    ApprovedStored(conf, meaning, pages, init.bucket, scope, files, init.now, r);
    var crashed;
    labels, crashed := CrashAfterChecks(conf, meaning, init, pages, scope, files);
    t := RunWithMiss(conf, meaning, init, labels, crashed, pages, scope, files, r, other);
    labels := labels + RunLabels(RunEvents(conf, meaning, pages, Missing(crashed.bucket, r.s3Key), files, crashed.now));
  }
}
