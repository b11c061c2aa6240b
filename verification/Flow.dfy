/** How requests and failed keys move through the states of a run. */
module Flow {
  import opened Wrappers
  import opened Text
  import opened Signing
  import opened Validation
  import opened Machine

  predicate Active(s: Server) { !s.Finished? && !s.Aborted? }

  /** Requests that are fetched and not yet checked. */
  function Unchecked(s: Server): seq<Request> {
    match s
    case Listing(_, unverified, _) => unverified
    case Fetching(_, _, unverified, _) => unverified
    case OpeningKeys(unverified, _) => unverified
    case ReadingKeys(_, _, unverified, _) => unverified
    case Checking(pending, _, _) => pending
    case _ => []
  }

  /** Requests that this run has verified. */
  function Good(s: Server): seq<Request> {
    match s
    case Checking(_, _, work) => work.verified
    case Dropping(work) => work.verified
    case Committing(work) => work.verified
    case Deleting(_, work) => work.verified
    case _ => []
  }

  function ErrorsOf(s: Server): Errors {
    match s
    case Listing(_, _, errors) => errors
    case Fetching(_, _, _, errors) => errors
    case OpeningKeys(_, errors) => errors
    case ReadingKeys(_, _, _, errors) => errors
    case Checking(_, _, work) => work.errors
    case Dropping(work) => work.errors
    case Committing(work) => work.errors
    case Deleting(_, work) => work.errors
    case Finished(_, errors) => errors
    case Aborted => NO_ERRORS
  }

  /** The certificates read so far. */
  function CertsOf(s: Server): seq<CertMatch> {
    match s
    case ReadingKeys(_, certs, _, _) => certs
    case Checking(_, certs, _) => certs
    case _ => []
  }

  function ReadBy(e: Event): seq<CertMatch> {
    if e.ReadKeyFile? && e.file.Certificate? then [e.file.cert] else []
  }

  function FetchedBy(e: Event): seq<Request> {
    if e.GetObject? && e.body.Some? && ParseUpload(e.body.value).Some?
    then [Request(ParseUpload(e.body.value).value, e.key)] else []
  }

  function MisreadBy(e: Event): seq<string> {
    if e.GetObject? && e.body.Some? && ParseUpload(e.body.value).None? then [e.key] else []
  }

  function MissedBy(e: Event): seq<string> {
    if e.GetObject? && e.body.None? then [e.key] else []
  }

  /** The request that this check verifies. */
  function AcceptedBy(conf: Conf, meaning: Meaning, s: Server, e: Event): seq<Request> {
    if s.Checking? && s.pending != [] && e.CheckOne?
       && CheckRequest(meaning, s.certs, s.pending[0].payload, conf.policy, e.now).Valid?
    then [s.pending[0]] else []
  }

  function LeftUnchecked(s: Server, e: Event): seq<Request> {
    if e.CheckOne? && Unchecked(s) != [] then Unchecked(s)[1..] else Unchecked(s)
  }

  /** Where everything is after a step that does not end the run. */
  predicate Flows(conf: Conf, meaning: Meaning, s: Server, e: Event, t: Server) {
    && Unchecked(t) == LeftUnchecked(s, e) + FetchedBy(e)
    && Good(t) == Good(s) + AcceptedBy(conf, meaning, s, e)
    && ErrorsOf(t).fetches == ErrorsOf(s).fetches + MissedBy(e)
    && ErrorsOf(t).parses == ErrorsOf(s).parses + MisreadBy(e)
    && (InChecks(t) ==> InChecks(s) && CertsOf(t) == CertsOf(s) + ReadBy(e))
    && (t.Deleting? <==> (s.Deleting? || (e.Commit? && e.ok)))
    && (s.Deleting? && s.keys != [] && t.Deleting? ==> t.keys == s.keys[1..] && DeleteKeys(t.work) == DeleteKeys(s.work))
    && (t.Deleting? && !s.Deleting? ==> t.keys == DeleteKeys(t.work))
  }

  /** What the acting state must be. */
  predicate Acts(s: Server, e: Event) {
    && Active(s)
    && (e.Commit? ==> s.Committing? && e.changes == BatchOf(s.work))
    && (e.DeleteObject? ==> s.Deleting? && s.keys != [] && e.key == s.keys[0])
    && (s.Deleting? ==> e.DeleteObject?)
    && (e.CheckOne? ==> s.Checking? && s.pending != [])
    && (e.GetObject? ==> s.Fetching?)
    && (e.ReadKeyFile? ==> s.ReadingKeys?)
  }

  lemma ActsActive(s: Server, e: Event)
    requires Acts(s, e)
    ensures Active(s)
  {
    hide DeleteKeys;
  }

  predicate FlowsOn(conf: Conf, meaning: Meaning, s: Server, e: Event, t: Option<Server>) {
    t.Some? ==> Acts(s, e) && (Active(t.value) ==> Flows(conf, meaning, s, e, t.value))
  }

  lemma ListingFlows(conf: Conf, meaning: Meaning, s: Server, e: Event)
    requires s.Listing?
    ensures FlowsOn(conf, meaning, s, e, StepListing(conf, s, e))
  {
  }

  lemma FetchingFlows(conf: Conf, meaning: Meaning, s: Server, e: Event)
    requires s.Fetching?
    ensures FlowsOn(conf, meaning, s, e, StepFetching(conf, s, e))
  {
    hide ParseUpload, EndsWith, Fetch, FetchState;
    if s.keys != [] {
      SkipFlows(conf, meaning, s);
      if e.GetObject? {
        GetFlows(conf, meaning, s, e.body);
      }
    }
  }

  lemma SkipFlows(conf: Conf, meaning: Meaning, s: Server)
    requires s.Fetching? && s.keys != []
    ensures FlowsOn(conf, meaning, s, SkipKey(s.keys[0]), Some(FetchState(conf, s.keys[1..], s.next, s.unverified, s.errors)))
  {
    hide ParseUpload, CheckRequest;
  }

  lemma GetFlows(conf: Conf, meaning: Meaning, s: Server, body: Option<string>)
    requires s.Fetching? && s.keys != []
    ensures FlowsOn(conf, meaning, s, GetObject(s.keys[0], body), Some(Fetch(conf, s, body)))
  {
    hide ParseUpload, CheckRequest;
  }

  lemma OpeningFlows(conf: Conf, meaning: Meaning, s: Server, e: Event)
    requires s.OpeningKeys?
    ensures FlowsOn(conf, meaning, s, e, StepOpening(s, e))
  {
    hide ParseUpload, CheckRequest;
  }

  lemma ReadingFlows(conf: Conf, meaning: Meaning, s: Server, e: Event)
    requires s.ReadingKeys?
    ensures FlowsOn(conf, meaning, s, e, StepReading(s, e))
  {
    hide ParseUpload, CheckRequest;
  }

  lemma CheckingFlows(conf: Conf, meaning: Meaning, s: Server, e: Event)
    requires s.Checking?
    ensures FlowsOn(conf, meaning, s, e, StepChecking(conf, meaning, s, e))
  {
    hide CheckRequest, ParseUpload, DeleteKeys, BatchOf;
  }

  lemma DroppingFlows(conf: Conf, meaning: Meaning, s: Server, e: Event)
    requires s.Dropping?
    ensures FlowsOn(conf, meaning, s, e, StepDropping(conf, s, e))
  {
    hide DeleteKeys, BatchOf, ParseUpload, CheckRequest;
  }

  lemma CommittingFlows(conf: Conf, meaning: Meaning, s: Server, e: Event)
    requires s.Committing?
    ensures FlowsOn(conf, meaning, s, e, StepCommitting(s, e))
  {
    hide DeleteKeys, BatchOf, ParseUpload, CheckRequest;
  }

  lemma DeletingFlows(conf: Conf, meaning: Meaning, s: Server, e: Event)
    requires s.Deleting?
    ensures FlowsOn(conf, meaning, s, e, StepDeleting(s, e))
  {
    hide KeysOf, BatchOf, ParseUpload, CheckRequest;
  }

  lemma StepFlows(conf: Conf, meaning: Meaning, s: Server, e: Event)
    ensures FlowsOn(conf, meaning, s, e, Step(conf, meaning, s, e))
  {
    hide StepListing, StepFetching, StepOpening, StepReading, StepChecking, StepDropping, StepCommitting, StepDeleting;
    hide Acts, Flows;
    match s
    case Listing(_, _, _) => ListingFlows(conf, meaning, s, e);
    case Fetching(_, _, _, _) => FetchingFlows(conf, meaning, s, e);
    case OpeningKeys(_, _) => OpeningFlows(conf, meaning, s, e);
    case ReadingKeys(_, _, _, _) => ReadingFlows(conf, meaning, s, e);
    case Checking(_, _, _) => CheckingFlows(conf, meaning, s, e);
    case Dropping(_) => DroppingFlows(conf, meaning, s, e);
    case Committing(_) => CommittingFlows(conf, meaning, s, e);
    case Deleting(_, _) => DeletingFlows(conf, meaning, s, e);
    case Finished(_, _) =>
    case Aborted =>
  }

  // ---------------------------------------------------------------- whole traces

  /** The requests fetched and read in a run, in order. */
  function FetchedIn(trace: seq<Event>): seq<Request> {
    if trace == [] then [] else FetchedIn(trace[..|trace| - 1]) + FetchedBy(trace[|trace| - 1])
  }

  function MissedIn(trace: seq<Event>): seq<string> {
    if trace == [] then [] else MissedIn(trace[..|trace| - 1]) + MissedBy(trace[|trace| - 1])
  }

  function MisreadIn(trace: seq<Event>): seq<string> {
    if trace == [] then [] else MisreadIn(trace[..|trace| - 1]) + MisreadBy(trace[|trace| - 1])
  }

  lemma {:induction false} InFetched(trace: seq<Event>, r: Request)
    ensures r in FetchedIn(trace) <==> exists e :: e in trace && r in FetchedBy(e)
  {
    hide FetchedBy;
    if trace != [] {
      var front, e := trace[..|trace| - 1], trace[|trace| - 1];
      InFetched(front, r);
      assert trace == front + [e];
    }
  }

  lemma {:induction false} InMissed(trace: seq<Event>, key: string)
    ensures key in MissedIn(trace) <==> exists e :: e in trace && key in MissedBy(e)
  {
    hide MissedBy;
    if trace != [] {
      var front, e := trace[..|trace| - 1], trace[|trace| - 1];
      InMissed(front, key);
      assert trace == front + [e];
    }
  }

  lemma {:induction false} InMisread(trace: seq<Event>, key: string)
    ensures key in MisreadIn(trace) <==> exists e :: e in trace && key in MisreadBy(e)
  {
    hide MisreadBy;
    if trace != [] {
      var front, e := trace[..|trace| - 1], trace[|trace| - 1];
      InMisread(front, key);
      assert trace == front + [e];
    }
  }

  /** Only what was fetched in this run is checked or verified in it. */
  lemma {:induction false} OnlyFetched(conf: Conf, meaning: Meaning, trace: seq<Event>)
    requires StateAfter(conf, meaning, trace).Some?
    ensures var s := StateAfter(conf, meaning, trace).value;
      forall r :: r in Unchecked(s) || r in Good(s) ==> r in FetchedIn(trace)
    decreases |trace|
  {
    hide Step, FetchedBy, CheckRequest, DeleteKeys;
    if trace != [] {
      var front, e := trace[..|trace| - 1], trace[|trace| - 1];
      StepFlows(conf, meaning, StateAfter(conf, meaning, front).value, e);
      OnlyFetched(conf, meaning, front);
    }
  }

  predicate KeyEvent(e: Event) { e.OpenKeyDirectory? || e.ReadKeyFile? }

  lemma SkipVerifyStep(conf: Conf, meaning: Meaning, s: Server, e: Event, t: Server)
    requires conf.policy.skipVerify && !s.OpeningKeys? && !s.ReadingKeys? && Step(conf, meaning, s, e) == Some(t)
    ensures !t.OpeningKeys? && !t.ReadingKeys? && !KeyEvent(e)
    ensures Active(t) && e.CheckOne? ==> s.Checking? && s.pending != [] && AcceptedBy(conf, meaning, s, e) == [s.pending[0]]
  {
    hide ParseUpload, EndsWith, DeleteKeys, BatchOf, CanonicalText;
  }

  /** With `insecure_skip_verify` no key file is looked at, and every request that is fetched and read gets through its
      check. */
  lemma {:induction false} SkipVerifyTakesAll(conf: Conf, meaning: Meaning, trace: seq<Event>)
    requires conf.policy.skipVerify && StateAfter(conf, meaning, trace).Some?
    ensures var s := StateAfter(conf, meaning, trace).value;
      && (forall i :: 0 <= i < |trace| ==> !KeyEvent(trace[i])) && !s.OpeningKeys? && !s.ReadingKeys?
      && (Active(s) ==> Good(s) + Unchecked(s) == FetchedIn(trace))
    decreases |trace|
  {
    hide Step, FetchedBy, CheckRequest, DeleteKeys, AcceptedBy;
    if trace != [] {
      var front, e := trace[..|trace| - 1], trace[|trace| - 1];
      var s, t := StateAfter(conf, meaning, front).value, StateAfter(conf, meaning, trace).value;
      SkipVerifyTakesAll(conf, meaning, front);
      SkipVerifyStep(conf, meaning, s, e, t);
      StepFlows(conf, meaning, s, e);
      if Active(t) {
        StillAll(conf, meaning, s, e, t, FetchedIn(front));
      }
    }
  }

  lemma StillAll(conf: Conf, meaning: Meaning, s: Server, e: Event, t: Server, fetched: seq<Request>)
    requires Acts(s, e) && Flows(conf, meaning, s, e, t) && Good(s) + Unchecked(s) == fetched
    requires e.CheckOne? ==> s.Checking? && s.pending != [] && AcceptedBy(conf, meaning, s, e) == [s.pending[0]]
    ensures Good(t) + Unchecked(t) == fetched + FetchedBy(e)
  {
    hide CheckRequest, DeleteKeys, ParseUpload, BatchOf, Good, ErrorsOf, CertsOf;
    if e.CheckOne? {
      MovesOver(Good(s), s.pending);
      assert FetchedBy(e) == [] && Unchecked(s) == s.pending;
      assert s.pending[1..] + [] == s.pending[1..] && fetched + [] == fetched;
    } else {
      assert AcceptedBy(conf, meaning, s, e) == [] && Good(s) + [] == Good(s);
      AssocRequests(Good(s), Unchecked(s), FetchedBy(e));
    }
  }

  lemma MovesOver(good: seq<Request>, pending: seq<Request>)
    requires pending != []
    ensures good + [pending[0]] + pending[1..] == good + pending
  {
  }

  lemma AssocRequests(a: seq<Request>, b: seq<Request>, c: seq<Request>)
    ensures a + (b + c) == (a + b) + c
  {
  }

  /** The certificates of all key files read in a run, in order. */
  function CertsIn(trace: seq<Event>): seq<CertMatch> {
    if trace == [] then [] else CertsIn(trace[..|trace| - 1]) + ReadBy(trace[|trace| - 1])
  }

  /** Requests are checked against exactly the certificates read in this run, in the order they were read. */
  lemma {:induction false} CertsAreRead(conf: Conf, meaning: Meaning, trace: seq<Event>)
    requires StateAfter(conf, meaning, trace).Some? && InChecks(StateAfter(conf, meaning, trace).value)
    ensures CertsOf(StateAfter(conf, meaning, trace).value) == CertsIn(trace)
    decreases |trace|
  {
    hide Step, ReadBy, Acts, DeleteKeys, ParseUpload, CheckRequest;
    if trace != [] {
      var front, e := trace[..|trace| - 1], trace[|trace| - 1];
      StepFlows(conf, meaning, StateAfter(conf, meaning, front).value, e);
      CertsAreRead(conf, meaning, front);
    }
  }
}
