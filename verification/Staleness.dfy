/** Too old stays too old: over every run of the system, with certificates changing and objects written again. */
module Staleness {
  import opened Wrappers
  import opened Signing
  import opened Validation
  import opened Machine
  import opened Flow
  import opened Protocol

  predicate Past(conf: Conf, e: Envelope, now: int) {
    !Fresh(e.signedAt, conf.policy.maxAge, now)
  }

  ghost predicate Timely(conf: Conf, s: State) {
    && (forall e :: e in s.history.stale ==> Past(conf, e, s.now))
    && s.history.staleBefore <= s.history.stale
    && (s.server.Some? ==> forall r :: r in Good(s.server.value) ==> r.payload.envelope !in s.history.staleBefore)
  }

  lemma AcceptedIsFresh(conf: Conf, meaning: Meaning, s: State, e: Event, r: Request)
    requires !conf.policy.skipVerify && s.server.Some? && Answers(s, e)
    requires r in AcceptedBy(conf, meaning, s.server.value, e)
    ensures !Past(conf, r.payload.envelope, s.now)
  {
    hide CanonicalText, Verify;
    CheckExact(meaning, s.server.value.certs, r.payload, conf.policy, e.now);
  }

  lemma TooOldIsPast(conf: Conf, meaning: Meaning, s: State, e: Event, envelope: Envelope)
    requires !conf.policy.skipVerify && s.server.Some? && Answers(s, e)
    requires envelope in TooOldBy(conf, meaning, s.server.value, e)
    ensures Past(conf, envelope, s.now)
  {
    hide CanonicalText, Verify;
    CheckExact(meaning, s.server.value.certs, s.server.value.pending[0].payload, conf.policy, e.now);
  }

  lemma ActTimely(conf: Conf, meaning: Meaning, s: State, e: Event, lands: bool)
    requires !conf.policy.skipVerify && Timely(conf, s) && ActState(conf, meaning, s, e, lands).Some?
    ensures Timely(conf, ActState(conf, meaning, s, e, lands).value)
  {
    hide Step, Acts, CheckRequest, Past, Answers, ParseUpload, Live, Acceptances, TooOldBy, AcceptedBy, BucketAfter;
    hide ZoneAfter, DeleteKeys;
    var server, t := s.server.value, Step(conf, meaning, s.server.value, e).value;
    StepFlows(conf, meaning, server, e);
    forall envelope | envelope in TooOldBy(conf, meaning, server, e) ensures Past(conf, envelope, s.now) {
      TooOldIsPast(conf, meaning, s, e, envelope);
    }
    forall r | r in AcceptedBy(conf, meaning, server, e) ensures !Past(conf, r.payload.envelope, s.now) {
      AcceptedIsFresh(conf, meaning, s, e, r);
    }
  }

  lemma StepTimely(conf: Conf, meaning: Meaning, s: State, l: Label)
    requires !conf.policy.skipVerify && Timely(conf, s) && StepState(conf, meaning, s, l).Some?
    ensures Timely(conf, StepState(conf, meaning, s, l).value)
  {
    hide ActState, CanWrite, Verified, Matches, InFlight;
    if l.Act? {
      ActTimely(conf, meaning, s, l.event, l.lands);
    }
  }

  lemma {:induction false} AlwaysTimely(conf: Conf, meaning: Meaning, init: State, labels: seq<Label>)
    requires !conf.policy.skipVerify && Initial(meaning, init) && After(conf, meaning, init, labels).Some?
    ensures Timely(conf, After(conf, meaning, init, labels).value)
  {
    hide StepState, Timely, CanWrite;
    if labels == [] {
      InitialTimely(conf, meaning, init);
    } else {
      var front := labels[..|labels| - 1];
      AlwaysTimely(conf, meaning, init, front);
      StepTimely(conf, meaning, After(conf, meaning, init, front).value, labels[|labels| - 1]);
    }
  }

  lemma InitialTimely(conf: Conf, meaning: Meaning, init: State)
    requires Initial(meaning, init)
    ensures Timely(conf, init)
  {
    hide CanWrite;
  }

  /** An envelope once found too old is never accepted again, in whatever object it comes. */
  lemma NeverAcceptedAgain(conf: Conf, meaning: Meaning, init: State, labels: seq<Label>, e: Event, lands: bool)
    requires !conf.policy.skipVerify && Initial(meaning, init) && After(conf, meaning, init, labels).Some?
    requires ActState(conf, meaning, After(conf, meaning, init, labels).value, e, lands).Some?
    ensures var s := After(conf, meaning, init, labels).value;
      forall a :: a in Acceptances(conf, meaning, s.server.value, e) ==> a.request.payload.envelope !in s.history.stale
  {
    hide After, Initial, Step, Past, CheckRequest, AcceptedBy, HistoryAfter, BucketAfter, ZoneAfter;
    AlwaysTimely(conf, meaning, init, labels);
    var s := After(conf, meaning, init, labels).value;
    forall a | a in Acceptances(conf, meaning, s.server.value, e) ensures !Past(conf, a.request.payload.envelope, s.now) {
      AcceptedIsFresh(conf, meaning, s, e, a.request);
    }
  }

  /** So no batch of a later run holds a change from it. */
  lemma NoStaleCommit(conf: Conf, meaning: Meaning, init: State, labels: seq<Label>, e: Event, lands: bool)
    requires !conf.policy.skipVerify && Initial(meaning, init) && After(conf, meaning, init, labels).Some?
    requires ActState(conf, meaning, After(conf, meaning, init, labels).value, e, lands).Some? && e.Commit?
    ensures var s := After(conf, meaning, init, labels).value;
      && s.server.value.Committing? && e.changes == BatchOf(s.server.value.work)
      && forall r :: r in s.server.value.work.verified ==> r.payload.envelope !in s.history.staleBefore
  {
    hide After, Initial, Step, Past, Flows, BatchOf, DeleteKeys;
    AlwaysTimely(conf, meaning, init, labels);
    var s := After(conf, meaning, init, labels).value;
    StepFlows(conf, meaning, s.server.value, e);
    assert forall r :: r in s.server.value.work.verified ==> r in Good(s.server.value);
  }
}
