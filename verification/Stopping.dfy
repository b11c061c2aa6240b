/** One authentic request with a late time stamp stops every run that meets it, before the run has done anything. */
module Stopping {
  import opened Wrappers
  import opened Signing
  import opened Validation
  import opened Machine
  import opened Flow
  import opened PhaseOrder
  import opened Protocol

  /** Whether the check of this request panics; the time of the check does not matter. */
  predicate Stops(conf: Conf, meaning: Meaning, certs: seq<CertMatch>, r: Request) {
    && !conf.policy.skipVerify && Authentic(meaning, certs, r.payload)
    && 8_210_266_876_799 - conf.policy.maxAge - 15 < r.payload.envelope.signedAt <= 8_210_266_876_799
  }

  lemma StopsExact(conf: Conf, meaning: Meaning, certs: seq<CertMatch>, r: Request, now: int)
    ensures CheckRequest(meaning, certs, r.payload, conf.policy, now).Abort? <==> Stops(conf, meaning, certs, r)
  {
    hide CanonicalText;
    if !conf.policy.skipVerify {
      CheckExact(meaning, certs, r.payload, conf.policy, now);
    }
  }

  /** The state after its checks, up to the end of the run. */
  predicate PastChecks(s: Server) { s.Dropping? || s.Committing? || s.Deleting? }

  /** What was fetched is unchecked still, or was checked against the certificates of this run and does not stop it. */
  ghost predicate Harmless(conf: Conf, meaning: Meaning, trace: seq<Event>, s: Server) {
    Active(s) ==> forall r :: r in FetchedIn(trace) ==>
      r in Unchecked(s) || ((s.Checking? || PastChecks(s)) && !Stops(conf, meaning, CertsIn(trace), r))
  }

  lemma CertsSnoc(trace: seq<Event>, e: Event)
    ensures FetchedIn(trace + [e]) == FetchedIn(trace) + FetchedBy(e)
    ensures !e.ReadKeyFile? ==> CertsIn(trace + [e]) == CertsIn(trace)
    ensures !e.GetObject? ==> FetchedIn(trace + [e]) == FetchedIn(trace)
  {
    hide ParseUpload;
    assert (trace + [e])[..|trace|] == trace;
  }

  lemma StepHarmless(conf: Conf, meaning: Meaning, trace: seq<Event>, s: Server, e: Event, t: Server)
    requires Active(s) && Harmless(conf, meaning, trace, s) && Step(conf, meaning, s, e) == Some(t)
    requires InChecks(s) ==> CertsOf(s) == CertsIn(trace)
    ensures Harmless(conf, meaning, trace + [e], t)
  {
    hide Step, Stops, CheckRequest, ParseUpload, DeleteKeys, BatchOf, Unchecked, FetchedIn, CertsIn, FetchedBy, Good, ErrorsOf;
    if Active(t) {
      StepFlows(conf, meaning, s, e);
      CertsSnoc(trace, e);
      StaysPast(conf, meaning, s, e, t);
      forall r | r in FetchedIn(trace + [e])
        ensures r in Unchecked(t) || ((t.Checking? || PastChecks(t)) && !Stops(conf, meaning, CertsIn(trace + [e]), r))
      {
        if e.CheckOne? {
          CheckedGoesOn(conf, meaning, s, e, t);
          HeadOrRest(s, r);
        }
      }
    }
  }

  lemma HeadOrRest(s: Server, r: Request)
    requires s.Checking? && s.pending != []
    ensures Unchecked(s) == s.pending && (r in s.pending ==> r == s.pending[0] || r in s.pending[1..])
  {
  }

  /** Checking is left only for what comes after it, and reading is over when it begins. */
  lemma StaysPast(conf: Conf, meaning: Meaning, s: Server, e: Event, t: Server)
    requires Step(conf, meaning, s, e) == Some(t) && Active(t)
    ensures s.Checking? || PastChecks(s) ==> (t.Checking? || PastChecks(t)) && !e.GetObject? && !e.ReadKeyFile?
    ensures PastChecks(t) ==> s.Checking? || PastChecks(s)
  {
    hide CheckRequest, ParseUpload, DeleteKeys, BatchOf;
  }

  lemma CheckedGoesOn(conf: Conf, meaning: Meaning, s: Server, e: Event, t: Server)
    requires s.Checking? && Step(conf, meaning, s, e) == Some(t) && Active(t)
    ensures s.pending != [] && !Stops(conf, meaning, s.certs, s.pending[0])
  {
    hide CheckRequest, Stops;
    StopsExact(conf, meaning, s.certs, s.pending[0], e.now);
  }

  lemma {:induction false} RunsAreHarmless(conf: Conf, meaning: Meaning, trace: seq<Event>)
    requires StateAfter(conf, meaning, trace).Some?
    ensures Harmless(conf, meaning, trace, StateAfter(conf, meaning, trace).value)
    decreases |trace|
  {
    hide Step, Harmless, CertsIn, Acts, Flows;
    if trace == [] {
      StartHarmless(conf, meaning);
    } else {
      var front, e := trace[..|trace| - 1], trace[|trace| - 1];
      var s := StateAfter(conf, meaning, front).value;
      StepFlows(conf, meaning, s, e);
      ActsActive(s, e);
      RunsAreHarmless(conf, meaning, front);
      if InChecks(s) {
        CertsAreRead(conf, meaning, front);
      }
      StepHarmless(conf, meaning, front, s, e, StateAfter(conf, meaning, trace).value);
      assert front + [e] == trace;
    }
  }

  lemma StartHarmless(conf: Conf, meaning: Meaning)
    ensures Harmless(conf, meaning, [], START)
  {
  }

  /** A run that has fetched a request and read certificates under which it stops the run never gets past its checks. */
  lemma NeverPastChecks(conf: Conf, meaning: Meaning, trace: seq<Event>, r: Request)
    requires StateAfter(conf, meaning, trace).Some?
    requires r in FetchedIn(trace) && Stops(conf, meaning, CertsIn(trace), r)
    ensures !PastChecks(StateAfter(conf, meaning, trace).value)
  {
    hide StateAfter, Stops, FetchedIn, CertsIn;
    RunsAreHarmless(conf, meaning, trace);
  }

  /** So it has not dropped, committed or deleted anything. */
  lemma StoppedRunsOnlyLook(conf: Conf, meaning: Meaning, trace: seq<Event>, r: Request)
    requires StateAfter(conf, meaning, trace).Some?
    requires r in FetchedIn(trace) && Stops(conf, meaning, CertsIn(trace), r)
    ensures AllEarly(trace)
  {
    hide Step, Stops, FetchedIn, CertsIn, FetchedBy, ReadBy, Early, EndsInDrop, EndsInCommit, CommitThenDeletes, DeleteKeys;
    RunsAreShaped(conf, meaning, trace);
    var s := StateAfter(conf, meaning, trace).value;
    if s.Finished? && trace != [] {
      var front, e := trace[..|trace| - 1], trace[|trace| - 1];
      var s0 := StateAfter(conf, meaning, front).value;
      assert front + [e] == trace;
      LastStep(conf, meaning, front, e);
      RunsAreShaped(conf, meaning, front);
      if InChecks(s0) {
        EarlyStep(conf, meaning, s0, e);
        AllEarlySnoc(front, e);
      } else {
        CertsSnoc(front, e);
        LastLook(conf, meaning, s0, e);
        NeverPastChecks(conf, meaning, front, r);
      }
    } else {
      NeverPastChecks(conf, meaning, trace, r);
    }
  }

  lemma LastStep(conf: Conf, meaning: Meaning, front: seq<Event>, e: Event)
    requires StateAfter(conf, meaning, front + [e]).Some?
    ensures StateAfter(conf, meaning, front).Some? && Step(conf, meaning, StateAfter(conf, meaning, front).value, e).Some?
    ensures InChecks(StateAfter(conf, meaning, front).value) || PastChecks(StateAfter(conf, meaning, front).value)
  {
    hide Step;
    assert (front + [e])[..|front|] == front;
    StepFlows(conf, meaning, StateAfter(conf, meaning, front).value, e);
    ActsActive(StateAfter(conf, meaning, front).value, e);
  }

  lemma LastLook(conf: Conf, meaning: Meaning, s: Server, e: Event)
    requires Step(conf, meaning, s, e).Some? && PastChecks(s)
    ensures !e.GetObject? && !e.ReadKeyFile? && FetchedBy(e) == []
  {
    hide Step, DeleteKeys, BatchOf, ParseUpload;
    StepFlows(conf, meaning, s, e);
  }

  /** In the whole system: while such an object is stored and its certificate installed, a run that has fetched it and read the
      certificate has changed nothing, and does not come to change anything. */
  lemma StoppedRunsChangeNothing(conf: Conf, meaning: Meaning, init: State, labels: seq<Label>, r: Request)
    requires Initial(meaning, init) && After(conf, meaning, init, labels).Some?
    requires var s := After(conf, meaning, init, labels).value;
      s.server.Some? && r in FetchedIn(s.trace) && Stops(conf, meaning, CertsIn(s.trace), r)
    ensures var s := After(conf, meaning, init, labels).value; AllEarly(s.trace) && !PastChecks(s.server.value)
  {
    hide After, Initial, StateAfter, Stops, FetchedIn, CertsIn, AllEarly;
    AlwaysTraced(conf, meaning, init, labels);
    var s := After(conf, meaning, init, labels).value;
    StoppedRunsOnlyLook(conf, meaning, s.trace, r);
    NeverPastChecks(conf, meaning, s.trace, r);
  }
}
