/** The main results about runs of the system, read off its labels alone: no recorded history is needed to state them. */
module RunWitnesses {
  import opened Wrappers
  import opened Text
  import opened Records
  import opened Signing
  import opened Validation
  import opened Batch
  import opened Machine
  import opened Flow
  import opened Protocol
  import opened Authenticity
  import opened XmlNewlines
  import NoLoss

  /** At step `i` a batch was committed with this request's change in it. */
  predicate CommitsAt(labels: seq<Label>, i: nat, r: Request) {
    var p := r.payload.envelope.payload;
    var name := if EndsWith(p.name, ".") then p.name else p.name + ".";
    && i < |labels| && labels[i].Act? && labels[i].event.Commit? && labels[i].event.ok
    && Upsert(ResourceRecordSet(name, p.ttl, p.data)) in labels[i].event.changes
  }

  /** At step `i` the server fetched this very request. */
  predicate FetchesAt(labels: seq<Label>, i: nat, r: Request) {
    && i < |labels| && labels[i].Act? && labels[i].event.GetObject? && labels[i].event.key == r.s3Key
    && labels[i].event.body.Some? && ParseUpload(labels[i].event.body.value) == Some(r.payload)
  }

  /** At step `i` something else was written to the key of this request, or its object was removed, from outside. */
  predicate OverwritesAt(labels: seq<Label>, i: nat, r: Request) {
    && i < |labels| && labels[i].Write? && labels[i].key == r.s3Key
    && (labels[i].text.Some? ==> ParseUpload(labels[i].text.value) != Some(r.payload))
  }

  /** At step `i` a fetch of this key failed although the object was there. */
  ghost predicate MissesAt(conf: Conf, meaning: Meaning, init: State, labels: seq<Label>, i: nat, key: string) {
    && i < |labels| && labels[i].Act? && labels[i].event == GetObject(key, None)
    && var s := After(conf, meaning, init, labels[..i]);
      s.Some? && key in s.value.bucket
  }

  /** No server run begins or crashes from step `i` to step `k`. */
  predicate SameRun(labels: seq<Label>, i: nat, k: nat) {
    forall j :: i <= j < k <= |labels| ==> !labels[j].StartRun? && !labels[j].Crash?
  }

  /** At step `i` the server removed the object with this key. */
  predicate RemovesAt(labels: seq<Label>, i: nat, key: string) {
    && i < |labels| && labels[i].Act? && labels[i].event.DeleteObject? && labels[i].event.key == key
    && (labels[i].lands || (labels[i].event.answer.Status? && 200 <= labels[i].event.answer.code < 300))
  }

  /** One server run misses the object with this key at step `i` and removes it at step `k`. */
  ghost predicate LosesAt(conf: Conf, meaning: Meaning, init: State, labels: seq<Label>, i: nat, k: nat, key: string) {
    i < k && MissesAt(conf, meaning, init, labels, i, key) && RemovesAt(labels, k, key) && SameRun(labels, i, k)
  }

  /** At step `i` this request, next in the queue, was checked against these certificates at this time. */
  ghost predicate ChecksAt(conf: Conf, meaning: Meaning, init: State, labels: seq<Label>, i: nat, r: Request,
                           certs: seq<CertMatch>, now: int, verdict: Check) {
    && i < |labels| && labels[i].Act? && labels[i].event == CheckOne(now)
    && var s := After(conf, meaning, init, labels[..i]);
      && s.Some? && s.value.now == now && s.value.server.Some? && s.value.server.value.Checking?
      && s.value.server.value.pending != [] && s.value.server.value.pending[0] == r && s.value.server.value.certs == certs
      && CheckRequest(meaning, certs, r.payload, conf.policy, now) == verdict
  }

  // ---------------------------------------------------------------- single steps

  lemma CommittedByStep(conf: Conf, meaning: Meaning, s: State, l: Label, r: Request)
    requires StepState(conf, meaning, s, l).Some?
    requires r in StepState(conf, meaning, s, l).value.history.committed && r !in s.history.committed
    ensures CommitsAt([l], 0, r)
  {
    hide Step, Live, Acceptances, TooOldBy, Verified, Matches, InFlight, CanWrite, BucketAfter, ZoneAfter, Flows, Answers;
    StepFlows(conf, meaning, s.server.value, l.event);
    var work := s.server.value.work;
    var i :| 0 <= i < |work.verified| && work.verified[i] == r;
    assert BatchOf(work)[i] == ToChange(r.payload.envelope.payload);
  }

  lemma ReplacedByStep(conf: Conf, meaning: Meaning, s: State, l: Label, r: Request)
    requires StepState(conf, meaning, s, l).Some?
    requires r in StepState(conf, meaning, s, l).value.history.replaced && r !in s.history.replaced
    ensures OverwritesAt([l], 0, r) && (r in Verified(s.history) || r in InFlight(s.server))
  {
    hide Step, Live, Acceptances, TooOldBy, Verified, InFlight, CanWrite, BucketAfter, ZoneAfter, Answers, ParseUpload;
  }

  lemma MissedByStep(conf: Conf, meaning: Meaning, s: State, l: Label, key: string)
    requires StepState(conf, meaning, s, l).Some?
    requires var t := StepState(conf, meaning, s, l).value; t.server.Some? && key in t.history.missedNow
    ensures s.server.Some? && !l.StartRun? && !l.Crash?
    ensures key in s.history.missedNow || (l.Act? && l.event == GetObject(key, None) && key in s.bucket)
  {
    hide Step, Live, Acceptances, TooOldBy, Verified, InFlight, CanWrite, BucketAfter, ZoneAfter, Answers, Matches;
  }

  lemma ForfeitedByStep(conf: Conf, meaning: Meaning, s: State, l: Label, r: Request)
    requires NoLoss.Safe(s) && StepState(conf, meaning, s, l).Some?
    requires r in StepState(conf, meaning, s, l).value.history.forfeited && r !in s.history.forfeited
    ensures RemovesAt([l], 0, r.s3Key) && s.server.Some? && r.s3Key in s.history.missedNow
  {
    hide Step, Acceptances, TooOldBy, Verified, InFlight, CanWrite, BucketAfter, ZoneAfter, Answers, Matches, Flows, Live;
    hide NoLoss.LiveInBucket, NoLoss.FlightInBucket, NoLoss.FlightIsLive, NoLoss.MisreadsClear, NoLoss.MissesClear;
    StepFlows(conf, meaning, s.server.value, l.event);
    NoLoss.DeleteIsSafe(s, l.event, r);
  }

  lemma HadByStep(conf: Conf, meaning: Meaning, s: State, l: Label, r: Request)
    requires StepState(conf, meaning, s, l).Some?
    requires var t := StepState(conf, meaning, s, l).value; r in Verified(t.history) || r in InFlight(t.server)
    ensures r in Verified(s.history) || r in InFlight(s.server) || FetchesAt([l], 0, r)
  {
    hide Step, CanWrite, ParseUpload, Live, HistoryAfter, BucketAfter, ZoneAfter, Answers, Matches, Verified, InFlight;
    if l.Act? {
      HadByAct(conf, meaning, s, l.event, l.lands, r);
    } else {
      OthersFetchNothing(conf, meaning, s, l);
    }
  }

  lemma HadByAct(conf: Conf, meaning: Meaning, s: State, e: Event, lands: bool, r: Request)
    requires s.server.Some? && Step(conf, meaning, s.server.value, e).Some?
    requires r in Verified(HistoryAfter(conf, meaning, s, s.server.value, e, lands))
          || r in InFlight(Step(conf, meaning, s.server.value, e))
    ensures r in Verified(s.history) || r in InFlight(s.server) || FetchesAt([Act(e, lands)], 0, r)
  {
    hide Step, TooOldBy, ParseUpload, CheckRequest, Live, DeleteKeys, BatchOf;
    StepFlows(conf, meaning, s.server.value, e);
  }

  lemma OthersFetchNothing(conf: Conf, meaning: Meaning, s: State, l: Label)
    requires StepState(conf, meaning, s, l).Some? && !l.Act?
    ensures var t := StepState(conf, meaning, s, l).value;
      Verified(t.history) == Verified(s.history) && InFlight(t.server) <= InFlight(s.server)
  {
    hide CanWrite, Matches;
  }

  lemma AcceptedByStep(conf: Conf, meaning: Meaning, s: State, l: Label, a: Acceptance)
    requires StepState(conf, meaning, s, l).Some?
    requires a in StepState(conf, meaning, s, l).value.history.acceptances && a !in s.history.acceptances
    ensures l.Act? && l.event == CheckOne(a.at) && s.now == a.at
    ensures s.server.Some? && s.server.value.Checking? && s.server.value.pending != []
    ensures s.server.value.pending[0] == a.request && s.server.value.certs == a.certs
    ensures CheckRequest(meaning, a.certs, a.request.payload, conf.policy, a.at) == Valid
  {
    hide Step, Live, TooOldBy, Verified, InFlight, CanWrite, BucketAfter, ZoneAfter, Matches, CheckRequest;
  }

  /** What a step keeps of the acceptances, and when the clock goes on. */
  lemma StepGoesOn(conf: Conf, meaning: Meaning, s: State, l: Label)
    requires StepState(conf, meaning, s, l).Some?
    ensures var t := StepState(conf, meaning, s, l).value;
      s.history.acceptances <= t.history.acceptances && s.now <= t.now
  {
    hide Step, Live, Acceptances, TooOldBy, Verified, InFlight, CanWrite, BucketAfter, ZoneAfter, Matches, Answers;
  }

  lemma GoodByStep(conf: Conf, meaning: Meaning, s: State, l: Label)
    requires StepState(conf, meaning, s, l).Some? && GoodVerified(s)
    ensures GoodVerified(StepState(conf, meaning, s, l).value)
  {
    hide Step, Live, TooOldBy, InFlight, CanWrite, BucketAfter, ZoneAfter, Matches, Answers, HistoryAfter, Flows, Acts;
    hide Verified, Good;
    if l.Act? {
      StepFlows(conf, meaning, s.server.value, l.event);
      ActKeepsGood(conf, meaning, s, l.event, l.lands, Step(conf, meaning, s.server.value, l.event).value);
      assert GoodVerified(StepState(conf, meaning, s, l).value);
    } else {
      OthersKeepGood(conf, meaning, s, l);
    }
  }

  lemma OthersKeepGood(conf: Conf, meaning: Meaning, s: State, l: Label)
    requires StepState(conf, meaning, s, l).Some? && !l.Act? && GoodVerified(s)
    ensures GoodVerified(StepState(conf, meaning, s, l).value)
  {
    hide Step, Live, TooOldBy, InFlight, CanWrite, Matches;
  }

  // ---------------------------------------------------------------- whole runs

  lemma {:induction false} Committer(conf: Conf, meaning: Meaning, init: State, labels: seq<Label>, r: Request) returns (i: nat)
    requires init.history == NO_HISTORY && After(conf, meaning, init, labels).Some?
    requires r in After(conf, meaning, init, labels).value.history.committed
    ensures CommitsAt(labels, i, r)
  {
    hide StepState, CommitsAt;
    var front, last := labels[..|labels| - 1], labels[|labels| - 1];
    if r in After(conf, meaning, init, front).value.history.committed {
      i := Committer(conf, meaning, init, front, r);
      CommitsLonger(labels, i, r);
    } else {
      CommittedByStep(conf, meaning, After(conf, meaning, init, front).value, last, r);
      i := |labels| - 1;
      CommitsLast(labels, r);
    }
  }

  lemma CommitsLonger(labels: seq<Label>, i: nat, r: Request)
    requires labels != [] && CommitsAt(labels[..|labels| - 1], i, r)
    ensures CommitsAt(labels, i, r)
  {
    hide EndsWith;
  }

  lemma CommitsLast(labels: seq<Label>, r: Request)
    requires labels != [] && CommitsAt([labels[|labels| - 1]], 0, r)
    ensures CommitsAt(labels, |labels| - 1, r)
  {
    hide EndsWith;
  }

  /** What was verified or is in flight was fetched. */
  lemma {:induction false} Fetcher(conf: Conf, meaning: Meaning, init: State, labels: seq<Label>, r: Request) returns (i: nat)
    requires init.history == NO_HISTORY && init.server.None? && After(conf, meaning, init, labels).Some?
    requires var s := After(conf, meaning, init, labels).value; r in Verified(s.history) || r in InFlight(s.server)
    ensures FetchesAt(labels, i, r)
  {
    hide StepState, ParseUpload;
    var front, last := labels[..|labels| - 1], labels[|labels| - 1];
    var s := After(conf, meaning, init, front).value;
    if r in Verified(s.history) || r in InFlight(s.server) {
      i := Fetcher(conf, meaning, init, front, r);
    } else {
      HadByStep(conf, meaning, s, last, r);
      i := |labels| - 1;
    }
  }

  lemma {:induction false} Overwriter(conf: Conf, meaning: Meaning, init: State, labels: seq<Label>, r: Request)
    returns (i: nat, k: nat)
    requires init.history == NO_HISTORY && init.server.None? && After(conf, meaning, init, labels).Some?
    requires r in After(conf, meaning, init, labels).value.history.replaced
    ensures i < k && FetchesAt(labels, i, r) && OverwritesAt(labels, k, r)
  {
    hide StepState, ParseUpload;
    var front, last := labels[..|labels| - 1], labels[|labels| - 1];
    if r in After(conf, meaning, init, front).value.history.replaced {
      i, k := Overwriter(conf, meaning, init, front, r);
    } else {
      ReplacedByStep(conf, meaning, After(conf, meaning, init, front).value, last, r);
      i := Fetcher(conf, meaning, init, front, r);
      k := |labels| - 1;
    }
  }

  lemma {:induction false} Misser(conf: Conf, meaning: Meaning, init: State, labels: seq<Label>, key: string) returns (i: nat)
    requires init.history == NO_HISTORY && init.server.None? && After(conf, meaning, init, labels).Some?
    requires var s := After(conf, meaning, init, labels).value; s.server.Some? && key in s.history.missedNow
    ensures MissesAt(conf, meaning, init, labels, i, key) && SameRun(labels, i, |labels|)
  {
    hide StepState;
    var front, last := labels[..|labels| - 1], labels[|labels| - 1];
    MissedByStep(conf, meaning, After(conf, meaning, init, front).value, last, key);
    if key in After(conf, meaning, init, front).value.history.missedNow {
      i := Misser(conf, meaning, init, front, key);
      assert labels[..i] == front[..i];
    } else {
      i := |labels| - 1;
    }
  }

  lemma {:induction false} Loser(conf: Conf, meaning: Meaning, init: State, labels: seq<Label>, r: Request)
    returns (i: nat, k: nat)
    requires Initial(meaning, init) && init.history == NO_HISTORY && init.server.None?
    requires After(conf, meaning, init, labels).Some? && r in After(conf, meaning, init, labels).value.history.forfeited
    ensures LosesAt(conf, meaning, init, labels, i, k, r.s3Key)
  {
    hide StepState, Initial, NoLoss.Safe;
    var front, last := labels[..|labels| - 1], labels[|labels| - 1];
    if r in After(conf, meaning, init, front).value.history.forfeited {
      i, k := Loser(conf, meaning, init, front, r);
    } else {
      NoLoss.AlwaysSafe(conf, meaning, init, front);
      ForfeitedByStep(conf, meaning, After(conf, meaning, init, front).value, last, r);
      i := Misser(conf, meaning, init, front, r.s3Key);
      k := |labels| - 1;
    }
    assert labels[..i] == front[..i];
  }

  /** Each acceptance is a check in the run that passed: at its time, of the next request, with the certificates then read. */
  lemma {:induction false} AcceptedInRun(conf: Conf, meaning: Meaning, init: State, labels: seq<Label>, a: Acceptance)
    returns (i: nat)
    requires init.history == NO_HISTORY && After(conf, meaning, init, labels).Some?
    requires a in After(conf, meaning, init, labels).value.history.acceptances
    ensures ChecksAt(conf, meaning, init, labels, i, a.request, a.certs, a.at, Valid)
  {
    hide StepState, CheckRequest;
    var front, last := labels[..|labels| - 1], labels[|labels| - 1];
    if a in After(conf, meaning, init, front).value.history.acceptances {
      i := AcceptedInRun(conf, meaning, init, front, a);
      assert labels[..i] == front[..i];
    } else {
      AcceptedByStep(conf, meaning, After(conf, meaning, init, front).value, last, a);
      i := |labels| - 1;
    }
  }

  lemma {:induction false} GoodIsVerified(conf: Conf, meaning: Meaning, init: State, labels: seq<Label>)
    requires init.server.None? && After(conf, meaning, init, labels).Some?
    ensures GoodVerified(After(conf, meaning, init, labels).value)
  {
    hide StepState, Verified, Good;
    if labels != [] {
      GoodIsVerified(conf, meaning, init, labels[..|labels| - 1]);
      GoodByStep(conf, meaning, After(conf, meaning, init, labels[..|labels| - 1]).value, labels[|labels| - 1]);
    }
  }

  lemma {:induction false} RunGoesOn(conf: Conf, meaning: Meaning, init: State, a: seq<Label>, b: seq<Label>)
    requires After(conf, meaning, init, a + b).Some?
    ensures After(conf, meaning, init, a).Some?
    ensures var s, t := After(conf, meaning, init, a).value, After(conf, meaning, init, a + b).value;
      s.history.acceptances <= t.history.acceptances && s.now <= t.now
    decreases |b|
  {
    hide StepState;
    if b == [] {
      assert a + b == a;
    } else {
      var front := b[..|b| - 1];
      assert (a + b)[..|a + b| - 1] == a + front;
      RunGoesOn(conf, meaning, init, a, front);
      StepGoesOn(conf, meaning, After(conf, meaning, init, a + front).value, b[|b| - 1]);
    }
  }

  /** Nothing verified is lost, whatever crashes and fails: a request that the server counts among its verified ones at some
      point of a run is, at every later point, in the bucket, or a batch with its change was committed; otherwise something
      else was written to its key from outside after the server had fetched it, or one and the same server run failed to
      fetch its key although the object was there, and then removed the object. */
  lemma NeverLost(conf: Conf, meaning: Meaning, init: State, earlier: seq<Label>, later: seq<Label>, r: Request)
    requires Initial(meaning, init) && After(conf, meaning, init, earlier + later).Some?
    requires var s := After(conf, meaning, init, earlier); s.Some? && s.value.server.Some? && r in Good(s.value.server.value)
    ensures var labels := earlier + later;
      var bucket := After(conf, meaning, init, labels).value.bucket;
      || (r.s3Key in bucket && ParseUpload(bucket[r.s3Key]) == Some(r.payload))
      || (exists i: nat :: CommitsAt(labels, i, r))
      || (exists i: nat, k: nat :: i < k && FetchesAt(labels, i, r) && OverwritesAt(labels, k, r))
      || (exists i: nat, k: nat :: LosesAt(conf, meaning, init, labels, i, k, r.s3Key))
  {
    hide After, Initial, CommitsAt, FetchesAt, OverwritesAt, LosesAt, ParseUpload, Good;
    var labels := earlier + later;
    StartsEmpty(meaning, init);
    GoodIsVerified(conf, meaning, init, earlier);
    RunGoesOn(conf, meaning, init, earlier, later);
    NoLoss.AlwaysSafe(conf, meaning, init, labels);
    var s := After(conf, meaning, init, labels).value;
    VerifiedStays(After(conf, meaning, init, earlier).value.history, s.history, r);
    if r in s.history.committed {
      var i := Committer(conf, meaning, init, labels, r);
    } else if r in s.history.replaced {
      var i, k := Overwriter(conf, meaning, init, labels, r);
    } else if r in s.history.forfeited {
      var i, k := Loser(conf, meaning, init, labels, r);
    } else {
      LiveIsStored(s, r);
    }
  }

  lemma LiveIsStored(s: State, r: Request)
    requires NoLoss.Safe(s) && r in Live(s.history)
    ensures r.s3Key in s.bucket && ParseUpload(s.bucket[r.s3Key]) == Some(r.payload)
  {
    hide ParseUpload, Verified, InFlight;
  }

  // ---------------------------------------------------------------- who signed what is in the zone

  lemma {:induction false} SignedInRun(conf: Conf, meaning: Meaning, init: State, labels: seq<Label>)
    requires After(conf, meaning, init, labels).Some?
    ensures var s := After(conf, meaning, init, labels).value;
      && (forall signer, e :: (signer, e) in s.ledger ==> (signer, e) in init.ledger || Sign(signer, e) in labels)
      && (forall cert :: cert in s.certificates ==> cert in init.certificates || Install(cert) in labels)
  {
    hide ActState, CanWrite, WriteObject;
    if labels != [] {
      var front, last := labels[..|labels| - 1], labels[|labels| - 1];
      SignedInRun(conf, meaning, init, front);
      assert labels == front + [last];
      LedgerByStep(conf, meaning, After(conf, meaning, init, front).value, last);
    }
  }

  lemma LedgerByStep(conf: Conf, meaning: Meaning, s: State, l: Label)
    requires StepState(conf, meaning, s, l).Some?
    ensures var t := StepState(conf, meaning, s, l).value;
      && (forall signer, e :: (signer, e) in t.ledger ==> (signer, e) in s.ledger || Sign(signer, e) == l)
      && (forall cert :: cert in t.certificates ==> cert in s.certificates || Install(cert) == l)
  {
    hide Step, HistoryAfter, BucketAfter, ZoneAfter, Answers, CanWrite, Matches, Verified, InFlight;
  }

  /** Whatever passes its check, at any point of any run and whatever others wrote to the bucket, was signed before, as it
      stands, with the key of the first certificate for its name, which was installed before, and is in time. */
  lemma PassedWasSigned(conf: Conf, meaning: Meaning, init: State, labels: seq<Label>, i: nat, r: Request,
                        certs: seq<CertMatch>, now: int) returns (n: nat)
    requires !conf.policy.skipVerify && Initial(meaning, init) && After(conf, meaning, init, labels).Some?
    requires ChecksAt(conf, meaning, init, labels, i, r, certs, now, Valid)
    ensures n < |certs| && certs[n].commonName == r.payload.envelope.payload.name
    ensures forall k :: 0 <= k < n ==> certs[k].commonName != r.payload.envelope.payload.name
    ensures certs[n] in init.certificates || Install(certs[n]) in labels[..i]
    ensures (certs[n].verifyingKey, r.payload.envelope) in init.ledger
         || Sign(certs[n].verifyingKey, r.payload.envelope) in labels[..i]
    ensures now <= (r.payload.envelope.signedAt + conf.policy.maxAge + 15) * 1_000_000_000
  {
    hide After, Initial, CheckRequest, CanonicalText, Honest, FirstMatch, Unforged;
    var s := After(conf, meaning, init, labels[..i]).value;
    var name, e := r.payload.envelope.payload.name, CheckOne(now);
    AlwaysHonest(conf, meaning, init, labels[..i]);
    SignedInRun(conf, meaning, init, labels[..i]);
    var a := Acceptance(r, certs, now);
    HonestParts(conf, meaning, init.zone, s);
    AcceptedIsGenuine(conf, meaning, s, e, a);
    FirstMatchExact(certs, name);
    n :| FirstAt(certs, name, n) && certs[n] == FirstMatch(certs, name).value;
  }

  lemma HonestParts(conf: Conf, meaning: Meaning, zone: Zone, s: State)
    requires Honest(conf, meaning, zone, s)
    ensures FlightUnforged(meaning, s) && CertsInstalled(s)
  {
    hide Unforged, Genuine, CanWrite, Sets;
  }

  /** An entry of the zone that is not as it was in the beginning stands there because a request with its addresses, its TTL
      and its name, but for the final dot and line ends, has passed its check in the run. */
  lemma ZoneWasChecked(conf: Conf, meaning: Meaning, init: State, labels: seq<Label>, key: ZoneKey)
    returns (i: nat, r: Request, certs: seq<CertMatch>, now: int)
    requires !conf.policy.skipVerify && Initial(meaning, init) && After(conf, meaning, init, labels).Some?
    requires var zone := After(conf, meaning, init, labels).value.zone;
      key in zone && !(key in init.zone && init.zone[key] == zone[key])
    ensures ChecksAt(conf, meaning, init, labels, i, r, certs, now, Valid)
    ensures var p := r.payload.envelope.payload;
      && key == (Normalize(if EndsWith(p.name, ".") then p.name else p.name + "."), if p.data.A? then TypeA else TypeAAAA)
      && After(conf, meaning, init, labels).value.zone[key] == RRSet(p.ttl, p.data)
  {
    hide After, Initial, Genuine, ChecksAt, Normalize, EndsWith;
    StartsEmpty(meaning, init);
    ZoneIsAuthentic(conf, meaning, init, labels, key);
    var s := After(conf, meaning, init, labels).value;
    var a :| a in s.history.acceptances && Genuine(conf, meaning, s.ledger, s.certificates, a)
      && var p := a.request.payload.envelope.payload;
        key == (Normalize(FixedName(p.name)), p.data.RecordType()) && s.zone[key] == RRSet(p.ttl, p.data);
    i := AcceptedInRun(conf, meaning, init, labels, a);
    r, certs, now := a.request, a.certs, a.at;
  }

  lemma StartsEmpty(meaning: Meaning, s: State)
    requires Initial(meaning, s)
    ensures s.server.None? && s.history == NO_HISTORY
  {
    hide CanWrite;
  }

  lemma VerifiedStays(h: History, h': History, r: Request)
    requires h.acceptances <= h'.acceptances && r in Verified(h)
    ensures r in Verified(h')
  {
  }

  /** An envelope once found too old in a run passes no later check and stops none, in whatever object it comes, whatever
      certificates are installed by then. */
  lemma TooOldStays(conf: Conf, meaning: Meaning, init: State, labels: seq<Label>, i: nat, k: nat, r: Request, r': Request,
                    certs: seq<CertMatch>, certs': seq<CertMatch>, now: int, now': int, verdict: Check)
    requires !conf.policy.skipVerify && After(conf, meaning, init, labels).Some?
    requires ChecksAt(conf, meaning, init, labels, i, r, certs, now, Invalid(TooOld))
    requires i <= k && ChecksAt(conf, meaning, init, labels, k, r', certs', now', verdict)
    requires r'.payload.envelope == r.payload.envelope
    ensures verdict != Valid && verdict != Abort
  {
    hide After, CheckRequest, CanonicalText;
    assert labels[..k] == labels[..i] + labels[i..k];
    RunGoesOn(conf, meaning, init, labels[..i], labels[i..k]);
    CheckExact(meaning, certs, r.payload, conf.policy, now);
    CheckExact(meaning, certs', r'.payload, conf.policy, now');
  }
}
