/** No verified request is lost: over every run of the system, with crashes, failing calls and foreign writes. */
module NoLoss {
  import opened Wrappers
  import opened Signing
  import opened Validation
  import opened Machine
  import opened Flow
  import opened Protocol

  ghost predicate LiveInBucket(s: State) {
    forall r :: r in Live(s.history) ==> InBucket(s.bucket, r)
  }

  predicate Running(s: State) { s.server.Some? && Active(s.server.value) }

  /** What the server has fetched is still there, unless it was replaced from outside or is committed. */
  ghost predicate FlightInBucket(s: State) {
    Running(s) ==> forall r :: r in InFlight(s.server) ==>
      r in s.history.replaced || r in s.history.committed || InBucket(s.bucket, r)
  }

  /** All live requests with this key were verified in this run. */
  ghost predicate OnlyGood(s: State, key: string)
    requires s.server.Some?
  {
    forall r :: r in Live(s.history) && r.s3Key == key ==> r in Good(s.server.value)
  }

  ghost predicate FlightIsLive(s: State) {
    Running(s) ==> forall v, r :: v in InFlight(s.server) && r in Live(s.history) && r.s3Key == v.s3Key ==>
      r == v || r in Good(s.server.value)
  }

  ghost predicate MisreadsClear(s: State) {
    Running(s) ==> forall k :: k in ErrorsOf(s.server.value).parses ==> OnlyGood(s, k)
  }

  ghost predicate MissesClear(s: State) {
    Running(s) ==> forall k :: k in ErrorsOf(s.server.value).fetches ==> k in s.history.missedNow || OnlyGood(s, k)
  }

  ghost predicate DeletesCommitted(s: State) {
    s.server.Some? && s.server.value.Deleting? ==>
      && (forall r :: r in Good(s.server.value) ==> r in s.history.committed)
      && (forall k :: k in s.server.value.keys ==> k in DeleteKeys(s.server.value.work))
  }

  ghost predicate ForfeitsMissed(s: State) {
    (forall r :: r in s.history.forfeited ==> r.s3Key in s.history.missed) && s.history.missedNow <= s.history.missed
  }

  ghost predicate Safe(s: State) {
    && LiveInBucket(s) && FlightInBucket(s) && FlightIsLive(s) && MisreadsClear(s) && MissesClear(s)
    && DeletesCommitted(s) && ForfeitsMissed(s)
  }

  // ---------------------------------------------------------------- steps of the server

  /** Which requests are live after an event. */
  lemma LiveAfter(conf: Conf, meaning: Meaning, s: State, e: Event, lands: bool, r: Request)
    requires s.server.Some? && Acts(s.server.value, e)
    requires r in Live(HistoryAfter(conf, meaning, s, s.server.value, e, lands))
    ensures r in Live(s.history) || (r in AcceptedBy(conf, meaning, s.server.value, e) && r in Unchecked(s.server.value))
    ensures Removes(e, lands) ==> r.s3Key != e.key && r in Live(s.history)
  {
    hide CheckRequest;
    var h' := HistoryAfter(conf, meaning, s, s.server.value, e, lands);
    var a :| a in h'.acceptances && a.request == r;
    if a in s.history.acceptances {
      assert r in Verified(s.history);
    }
  }

  lemma ActKeepsLive(conf: Conf, meaning: Meaning, s: State, e: Event, lands: bool)
    requires Safe(s) && Running(s) && Acts(s.server.value, e)
    ensures var h' := HistoryAfter(conf, meaning, s, s.server.value, e, lands);
      forall r :: r in Live(h') ==> InBucket(BucketAfter(s.bucket, e, lands), r)
  {
    hide AcceptedBy, ParseUpload, Verified;
    var h' := HistoryAfter(conf, meaning, s, s.server.value, e, lands);
    forall r | r in Live(h') ensures InBucket(BucketAfter(s.bucket, e, lands), r) {
      LiveAfter(conf, meaning, s, e, lands, r);
      if r !in Live(s.history) {
        assert r in InFlight(s.server);
      }
    }
  }

  lemma VerifiedIsNotLive(s: State, v: Request, r: Request)
    requires Safe(s) && s.server.Some? && s.server.value.Deleting? && v in Good(s.server.value)
    requires r in Live(s.history)
    ensures r.s3Key != v.s3Key
  {
    hide Verified;
    assert v in InFlight(s.server);
  }

  /** A key that the server deletes and a live request has is there for a failed fetch. */
  lemma DeletesOnlyFailedFetches(s: State, e: Event, r: Request)
    requires Safe(s) && Running(s) && Acts(s.server.value, e) && e.DeleteObject?
    requires r in Live(s.history) && r.s3Key == e.key
    ensures e.key in ErrorsOf(s.server.value).fetches
  {
    hide Verified;
    var work := s.server.value.work;
    assert e.key in DeleteKeys(work);
    forall i | 0 <= i < |work.verified| ensures KeysOf(work.verified)[i] != e.key {
      VerifiedIsNotLive(s, work.verified[i], r);
    }
    assert ErrorsOf(s.server.value) == work.errors;
    assert e.key in work.errors.parses ==> OnlyGood(s, e.key);
  }

  /** And that fetch failed while the object was there. */
  lemma DeleteIsSafe(s: State, e: Event, r: Request)
    requires Safe(s) && Running(s) && Acts(s.server.value, e) && e.DeleteObject?
    requires r in Live(s.history) && r.s3Key == e.key
    ensures e.key in s.history.missedNow && e.key in s.history.missed
  {
    hide Verified, DeleteKeys;
    DeletesOnlyFailedFetches(s, e, r);
    assert !OnlyGood(s, e.key);
  }

  lemma ActKeepsForfeits(conf: Conf, meaning: Meaning, s: State, e: Event, lands: bool)
    requires Safe(s) && Running(s) && Acts(s.server.value, e)
    ensures var h' := HistoryAfter(conf, meaning, s, s.server.value, e, lands);
      (forall r :: r in h'.forfeited ==> r.s3Key in h'.missed) && h'.missedNow <= h'.missed
  {
    hide Live, Acceptances, TooOldBy;
    var h' := HistoryAfter(conf, meaning, s, s.server.value, e, lands);
    forall r | r in h'.forfeited && r !in s.history.forfeited ensures r.s3Key in h'.missed {
      DeleteIsSafe(s, e, r);
    }
  }

  function Next(conf: Conf, meaning: Meaning, s: State, e: Event, lands: bool, t: Server): State
    requires s.server.Some?
  {
    State(BucketAfter(s.bucket, e, lands), ZoneAfter(s.zone, e, lands), s.now, s.ledger, s.certificates, Some(t), s.trace + [e],
          HistoryAfter(conf, meaning, s, s.server.value, e, lands))
  }

  /** The server took this step, and it goes on. */
  ghost predicate Went(conf: Conf, meaning: Meaning, s: State, e: Event, t: Server) {
    && Safe(s) && Running(s) && Active(t) && Answers(s, e)
    && Acts(s.server.value, e) && Flows(conf, meaning, s.server.value, e, t)
  }

  lemma HistoryKeeps(conf: Conf, meaning: Meaning, s: State, e: Event, lands: bool)
    requires s.server.Some?
    ensures var h' := HistoryAfter(conf, meaning, s, s.server.value, e, lands);
      && h'.replaced == s.history.replaced && s.history.committed <= h'.committed
      && (e.Commit? && e.ok ==> forall r :: r in Good(s.server.value) ==> r in h'.committed)
  {
    hide Live, Acceptances, TooOldBy, Good;
  }

  lemma ActKeepsFlight(conf: Conf, meaning: Meaning, s: State, e: Event, lands: bool, t: Server)
    requires Went(conf, meaning, s, e, t)
    ensures FlightInBucket(Next(conf, meaning, s, e, lands, t))
  {
    hide ParseUpload, CheckRequest, Live, DeleteKeys, LiveInBucket, FlightIsLive, MisreadsClear, MissesClear, HistoryAfter;
    var s' := Next(conf, meaning, s, e, lands, t);
    HistoryKeeps(conf, meaning, s, e, lands);
    forall r | r in InFlight(s'.server)
      ensures r in s'.history.replaced || r in s'.history.committed || InBucket(s'.bucket, r)
    {
      if r !in InFlight(s.server) {
        assert r in FetchedBy(e);
      }
    }
  }

  lemma ActKeepsUnique(conf: Conf, meaning: Meaning, s: State, e: Event, lands: bool, t: Server)
    requires Went(conf, meaning, s, e, t)
    ensures FlightIsLive(Next(conf, meaning, s, e, lands, t))
  {
    hide ParseUpload, CheckRequest, Live, HistoryAfter, DeleteKeys, MisreadsClear, MissesClear, FlightInBucket;
    hide DeletesCommitted, BucketAfter, ZoneAfter, Removes;
    var s' := Next(conf, meaning, s, e, lands, t);
    forall v, r | v in InFlight(s'.server) && r in Live(s'.history) && r.s3Key == v.s3Key ensures r == v || r in Good(t) {
      LiveAfter(conf, meaning, s, e, lands, r);
      assert v in InFlight(s.server) || v in FetchedBy(e);
    }
  }

  lemma ActKeepsMisreads(conf: Conf, meaning: Meaning, s: State, e: Event, lands: bool, t: Server)
    requires Went(conf, meaning, s, e, t)
    ensures MisreadsClear(Next(conf, meaning, s, e, lands, t))
  {
    hide ParseUpload, CheckRequest, Live, HistoryAfter, DeleteKeys, FlightIsLive, FlightInBucket, MissesClear, DeletesCommitted;
    var s' := Next(conf, meaning, s, e, lands, t);
    forall k, r | r in Live(s'.history) && r.s3Key == k && k in ErrorsOf(t).parses ensures r in Good(t) {
      LiveAfter(conf, meaning, s, e, lands, r);
    }
  }

  lemma ActKeepsMisses(conf: Conf, meaning: Meaning, s: State, e: Event, lands: bool, t: Server)
    requires Went(conf, meaning, s, e, t)
    ensures MissesClear(Next(conf, meaning, s, e, lands, t))
  {
    hide ParseUpload, CheckRequest, Live, HistoryAfter, DeleteKeys, FlightIsLive, FlightInBucket, MisreadsClear;
    hide DeletesCommitted;
    var s' := Next(conf, meaning, s, e, lands, t);
    MissedAfter(conf, meaning, s, e, lands);
    forall k, r | r in Live(s'.history) && r.s3Key == k && k in ErrorsOf(t).fetches
      ensures k in s'.history.missedNow || r in Good(t)
    {
      LiveAfter(conf, meaning, s, e, lands, r);
    }
  }

  lemma MissedAfter(conf: Conf, meaning: Meaning, s: State, e: Event, lands: bool)
    requires s.server.Some?
    ensures s.history.missedNow <= HistoryAfter(conf, meaning, s, s.server.value, e, lands).missedNow
    ensures e.GetObject? && e.body.None? && e.key in s.bucket ==>
      e.key in HistoryAfter(conf, meaning, s, s.server.value, e, lands).missedNow
  {
    hide Live, Acceptances, TooOldBy;
  }

  lemma ActKeepsDeletes(conf: Conf, meaning: Meaning, s: State, e: Event, lands: bool, t: Server)
    requires Went(conf, meaning, s, e, t)
    ensures DeletesCommitted(Next(conf, meaning, s, e, lands, t))
  {
    hide ParseUpload, CheckRequest, Live, DeleteKeys, FlightIsLive, FlightInBucket, MisreadsClear, MissesClear, LiveInBucket;
    hide HistoryAfter, BucketAfter, ZoneAfter;
    HistoryKeeps(conf, meaning, s, e, lands);
  }

  lemma ActSafe(conf: Conf, meaning: Meaning, s: State, e: Event, lands: bool)
    requires Safe(s) && ActState(conf, meaning, s, e, lands).Some?
    ensures Safe(ActState(conf, meaning, s, e, lands).value)
  {
    hide Step, Flows, Acts, Live, InFlight, ErrorsOf, HistoryAfter, BucketAfter, ZoneAfter, DeleteKeys;
    var t := Step(conf, meaning, s.server.value, e).value;
    StepFlows(conf, meaning, s.server.value, e);
    assert Running(s) by { ActsActive(s.server.value, e); }
    ActKeepsLive(conf, meaning, s, e, lands);
    ActKeepsForfeits(conf, meaning, s, e, lands);
    if Active(t) {
      ActKeepsFlight(conf, meaning, s, e, lands, t);
      ActKeepsUnique(conf, meaning, s, e, lands, t);
      ActKeepsMisreads(conf, meaning, s, e, lands, t);
      ActKeepsMisses(conf, meaning, s, e, lands, t);
      ActKeepsDeletes(conf, meaning, s, e, lands, t);
    }
  }

  // ---------------------------------------------------------------- steps of everything else

  lemma LiveAfterWrite(s: State, key: string, text: Option<string>, r: Request)
    requires r in Live(WriteObject(s, key, text).history)
    ensures r in Live(s.history) && Matches(r, key, text)
  {
    hide ParseUpload, InFlight;
    var known := Verified(s.history);
    assert r in known;
  }

  lemma WriteSafe(s: State, key: string, text: Option<string>)
    requires Safe(s)
    ensures Safe(WriteObject(s, key, text))
  {
    hide ParseUpload, Live, ErrorsOf, DeleteKeys;
    var s' := WriteObject(s, key, text);
    forall r | r in Live(s'.history) ensures r in Live(s.history) && InBucket(s'.bucket, r) {
      LiveAfterWrite(s, key, text, r);
    }
  }

  lemma StartSafe(s: State, stale: set<Envelope>)
    requires Safe(s)
    ensures var history := s.history.(staleBefore := stale, missedNow := {});
      Safe(s.(server := Some(START), trace := [], history := history))
    ensures Safe(s.(server := None, trace := []))
  {
    hide ParseUpload, DeleteKeys;
  }

  lemma StepSafe(conf: Conf, meaning: Meaning, s: State, l: Label)
    requires Safe(s) && StepState(conf, meaning, s, l).Some?
    ensures Safe(StepState(conf, meaning, s, l).value)
  {
    hide ActState, WriteObject, CanWrite, Live, InFlight, ErrorsOf, InBucket, DeleteKeys;
    match l
    case Act(e, lands) => ActSafe(conf, meaning, s, e, lands);
    case Write(key, text) => WriteSafe(s, key, text);
    case StartRun => StartSafe(s, s.history.stale);
    case Crash => StartSafe(s, s.history.stale);
    case Tick(_) =>
    case Install(_) =>
    case Sign(_, _) =>
  }

  lemma InitialSafe(meaning: Meaning, s: State)
    requires Initial(meaning, s)
    ensures Safe(s)
  {
    hide CanWrite, ParseUpload, DeleteKeys;
  }

  // ---------------------------------------------------------------- every run

  lemma {:induction false} AlwaysSafe(conf: Conf, meaning: Meaning, init: State, labels: seq<Label>)
    requires Initial(meaning, init) && After(conf, meaning, init, labels).Some?
    ensures Safe(After(conf, meaning, init, labels).value)
  {
    hide StepState, Safe, Initial;
    if labels == [] {
      InitialSafe(meaning, init);
    } else {
      var front := labels[..|labels| - 1];
      AlwaysSafe(conf, meaning, init, front);
      StepSafe(conf, meaning, After(conf, meaning, init, front).value, labels[|labels| - 1]);
    }
  }

  /** At every point of every run, with crashes anywhere: each verified request is in the bucket or in a committed batch,
      unless its object was replaced from outside after the server had fetched it, or a fetch of its key failed
      while the object was there. */
  lemma NothingLost(conf: Conf, meaning: Meaning, init: State, labels: seq<Label>, r: Request)
    requires Initial(meaning, init) && After(conf, meaning, init, labels).Some?
    requires r in Verified(After(conf, meaning, init, labels).value.history)
    ensures var s := After(conf, meaning, init, labels).value;
      InBucket(s.bucket, r) || r in s.history.committed || r in s.history.replaced || r.s3Key in s.history.missed
  {
    hide After, Initial, ParseUpload, InFlight, ErrorsOf, Verified, InBucket, DeleteKeys;
    AlwaysSafe(conf, meaning, init, labels);
  }

  /** While a run deletes, everything it verified is committed: a run never loses what it verified itself. */
  lemma CommittedBeforeDeleted(conf: Conf, meaning: Meaning, init: State, labels: seq<Label>, r: Request)
    requires Initial(meaning, init) && After(conf, meaning, init, labels).Some?
    requires var server := After(conf, meaning, init, labels).value.server;
      server.Some? && server.value.Deleting? && r in Good(server.value)
    ensures r in After(conf, meaning, init, labels).value.history.committed
  {
    hide After, Initial, Good, DeleteKeys;
    AlwaysSafe(conf, meaning, init, labels);
  }

  /** With fetches that fail only for absent objects, and no writes from outside to what was fetched, nothing is lost. */
  lemma ReliableFetchesLoseNothing(conf: Conf, meaning: Meaning, init: State, labels: seq<Label>, r: Request)
    requires Initial(meaning, init) && After(conf, meaning, init, labels).Some?
    requires var h := After(conf, meaning, init, labels).value.history; h.missed == {} && h.replaced == {} && r in Verified(h)
    ensures var s := After(conf, meaning, init, labels).value; InBucket(s.bucket, r) || r in s.history.committed
  {
    hide After, Initial, Verified, InBucket;
    NothingLost(conf, meaning, init, labels, r);
  }

  // ---------------------------------------------------------------- which requests the rest of a run loses

  /** Before the commit, the keys of live requests that are not verified are up for deletion exactly if their fetch failed. */
  lemma LossGuard(s: State, r: Request)
    requires Safe(s) && s.server.Some? && s.server.value.Committing?
    requires r in Live(s.history) && r !in s.server.value.work.verified
    ensures var work := s.server.value.work; r.s3Key in DeleteKeys(work) <==> r.s3Key in work.errors.fetches
  {
    hide Verified, ParseUpload;
    var work := s.server.value.work;
    forall i | 0 <= i < |work.verified| ensures KeysOf(work.verified)[i] != r.s3Key {
      assert work.verified[i] in InFlight(s.server);
    }
    assert ErrorsOf(s.server.value) == work.errors;
    assert r.s3Key in work.errors.parses ==> OnlyGood(s, r.s3Key);
  }

  lemma {:induction false} AfterFront(conf: Conf, meaning: Meaning, init: State, a: seq<Label>, b: seq<Label>)
    requires After(conf, meaning, init, a + b).Some?
    ensures After(conf, meaning, init, a).Some?
    decreases |b|
  {
    hide StepState;
    if b == [] {
      assert a + b == a;
    } else {
      assert (a + b)[..|a + b| - 1] == a + b[..|b| - 1];
      AfterFront(conf, meaning, init, a, b[..|b| - 1]);
    }
  }

  lemma AfterSnoc(conf: Conf, meaning: Meaning, init: State, labels: seq<Label>, l: Label)
    requires After(conf, meaning, init, labels).Some?
    ensures After(conf, meaning, init, labels + [l]) == StepState(conf, meaning, After(conf, meaning, init, labels).value, l)
  {
    hide StepState;
    assert (labels + [l])[..|labels|] == labels;
  }

  predicate Removal(l: Label) { l.Act? && Removes(l.event, l.lands) }

  function KeySet(keys: seq<string>): set<string> { set x | x in keys }

  lemma KeySetSnoc(keys: seq<string>, k: nat)
    requires k < |keys|
    ensures KeySet(keys[..k + 1]) == KeySet(keys[..k]) + {keys[k]} && keys[k..][0] == keys[k] && keys[k..][1..] == keys[k + 1..]
  {
    assert keys[..k + 1] == keys[..k] + [keys[k]];
  }

  ghost predicate Removed(s: State, keys: seq<string>, k: nat, t: State)
    requires k <= |keys|
  {
    && t.bucket == s.bucket - KeySet(keys[..k]) && t.history.committed == s.history.committed
    && exists w :: t.server == Some(DeleteState(keys[k..], w))
  }

  lemma RemovalStep(conf: Conf, meaning: Meaning, s: State, keys: seq<string>, k: nat, m: State, l: Label)
    requires k < |keys| && Removed(s, keys, k, m) && Removal(l) && StepState(conf, meaning, m, l).Some?
    ensures Removed(s, keys, k + 1, StepState(conf, meaning, m, l).value)
  {
    hide Live, DeleteKeys, Acceptances, TooOldBy, Deleted, FailDelete, KeySet, ZoneAfter, Answers;
    var w :| m.server == Some(DeleteState(keys[k..], w));
    KeySetSnoc(keys, k);
    var w' := if Deleted(l.event.answer) then w else FailDelete(w, keys[k]);
    assert StepState(conf, meaning, m, l).value.server == Some(DeleteState(keys[k + 1..], w'));
  }

  lemma {:induction false} RemovalsRemove(conf: Conf, meaning: Meaning, init: State, labels: seq<Label>, s: State,
                                          keys: seq<string>,
                                          work: Work, removals: seq<Label>, k: nat)
    requires After(conf, meaning, init, labels) == Some(s) && s.server == Some(DeleteState(keys, work))
    requires k <= |removals| == |keys| && (forall i :: 0 <= i < |removals| ==> Removal(removals[i]))
    requires After(conf, meaning, init, labels + removals).Some?
    ensures After(conf, meaning, init, labels + removals[..k]).Some?
    ensures Removed(s, keys, k, After(conf, meaning, init, labels + removals[..k]).value)
  {
    hide After, StepState, DeleteState, Removal;
    assert labels + removals == (labels + removals[..k]) + removals[k..];
    AfterFront(conf, meaning, init, labels + removals[..k], removals[k..]);
    if k == 0 {
      assert labels + removals[..0] == labels && keys[0..] == keys && KeySet(keys[..0]) == {};
    } else {
      RemovalsRemove(conf, meaning, init, labels, s, keys, work, removals, k - 1);
      assert labels + removals[..k] == (labels + removals[..k - 1]) + [removals[k - 1]];
      AfterSnoc(conf, meaning, init, labels + removals[..k - 1], removals[k - 1]);
      RemovalStep(conf, meaning, s, keys, k - 1, After(conf, meaning, init, labels + removals[..k - 1]).value, removals[k - 1]);
    }
  }

  lemma CommitMoves(conf: Conf, meaning: Meaning, work: Work)
    ensures Step(conf, meaning, Committing(work), Commit(BatchOf(work), true)) == Some(DeleteState(DeleteKeys(work), work))
  {
    hide DeleteKeys, BatchOf, DeleteState;
  }

  lemma CommitHistory(conf: Conf, meaning: Meaning, s: State, work: Work, lands: bool)
    ensures HistoryAfter(conf, meaning, s, Committing(work), Commit(BatchOf(work), true), lands).committed
      == s.history.committed + (set r | r in work.verified)
  {
    hide Live, BatchOf, Acceptances, TooOldBy;
  }

  lemma CommitCommits(conf: Conf, meaning: Meaning, s: State, work: Work, lands: bool)
    requires s.server == Some(Committing(work)) && StepState(conf, meaning, s, Act(Commit(BatchOf(work), true), lands)).Some?
    ensures var t := StepState(conf, meaning, s, Act(Commit(BatchOf(work), true), lands)).value;
      && t.server == Some(DeleteState(DeleteKeys(work), work)) && t.bucket == s.bucket
      && t.history.committed == s.history.committed + (set r | r in work.verified)
  {
    hide Step, HistoryAfter, ZoneAfter, DeleteKeys, BatchOf, DeleteState;
    CommitMoves(conf, meaning, work);
    CommitHistory(conf, meaning, s, work, lands);
  }

  /** Exactly which requests a run loses that commits and deletes: of the live ones, those that it did not verify and whose
      fetch it counts as failed. The condition can be read off the server's lists before the commit. */
  lemma LossExact(conf: Conf, meaning: Meaning, init: State, labels: seq<Label>, s: State, work: Work, lands: bool,
                  removals: seq<Label>, t: State, r: Request)
    requires Initial(meaning, init) && After(conf, meaning, init, labels) == Some(s) && s.server == Some(Committing(work))
    requires |removals| == |DeleteKeys(work)| && forall i :: 0 <= i < |removals| ==> Removal(removals[i])
    requires After(conf, meaning, init, labels + [Act(Commit(BatchOf(work), true), lands)] + removals) == Some(t)
    requires r in Live(s.history)
    ensures !InBucket(t.bucket, r) && r !in t.history.committed <==> r !in work.verified && r.s3Key in work.errors.fetches
  {
    hide After, Initial, StepState, DeleteState, DeleteKeys, BatchOf, ParseUpload, Removal, Safe;
    var commit := Act(Commit(BatchOf(work), true), lands);
    AlwaysSafe(conf, meaning, init, labels);
    AfterFront(conf, meaning, init, labels + [commit], removals);
    AfterSnoc(conf, meaning, init, labels, commit);
    CommitCommits(conf, meaning, s, work, lands);
    var m := After(conf, meaning, init, labels + [commit]).value;
    RemovalsRemove(conf, meaning, init, labels + [commit], m, DeleteKeys(work), work, removals, |removals|);
    assert removals[..|removals|] == removals && DeleteKeys(work)[..|DeleteKeys(work)|] == DeleteKeys(work);
    LiveIsStored(s, r);
    if r !in work.verified {
      LossGuard(s, r);
    }
  }

  lemma LiveIsStored(s: State, r: Request)
    requires Safe(s) && r in Live(s.history)
    ensures InBucket(s.bucket, r) && r !in s.history.committed
  {
    hide ParseUpload, Verified, InFlight;
  }
}
