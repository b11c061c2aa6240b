/** Every listed key ends in exactly one of four lists, and three of them are deleted. */
module Conservation {
  import opened Wrappers
  import opened Text
  import opened Signing
  import opened Validation
  import opened Machine

  // ---------------------------------------------------------------- keys in a trace

  function ListedBy(e: Event): multiset<string> {
    if e.ListPage? && e.page.Page? then multiset(e.page.keys) else multiset{}
  }

  function SkippedBy(e: Event): multiset<string> {
    if e.SkipKey? then multiset{e.key} else multiset{}
  }

  function GotBy(e: Event): multiset<string> {
    if e.GetObject? then multiset{e.key} else multiset{}
  }

  /** The keys of every page that was listed. */
  function Listed(trace: seq<Event>): multiset<string> {
    if trace == [] then multiset{} else Listed(trace[..|trace| - 1]) + ListedBy(trace[|trace| - 1])
  }

  /** The keys that were passed over for their suffix. */
  function Skipped(trace: seq<Event>): multiset<string> {
    if trace == [] then multiset{} else Skipped(trace[..|trace| - 1]) + SkippedBy(trace[|trace| - 1])
  }

  /** The keys that were fetched, or tried. */
  function Got(trace: seq<Event>): multiset<string> {
    if trace == [] then multiset{} else Got(trace[..|trace| - 1]) + GotBy(trace[|trace| - 1])
  }

  // ---------------------------------------------------------------- keys in a state

  function FailedKeys(errors: Errors): multiset<string> {
    multiset(errors.fetches) + multiset(errors.parses)
  }

  function Held(work: Work): multiset<string> {
    multiset(KeysOf(work.verified)) + multiset(KeysOf(work.rejected)) + FailedKeys(work.errors)
  }

  /** Keys that are listed and not yet looked at. */
  function Pending(s: Server): multiset<string> {
    if s.Fetching? then multiset(s.keys) else multiset{}
  }

  /** Keys that are in one of the lists of the run. */
  function Settled(s: Server): multiset<string> {
    match s
    case Listing(_, unverified, errors) => multiset(KeysOf(unverified)) + FailedKeys(errors)
    case Fetching(_, _, unverified, errors) => multiset(KeysOf(unverified)) + FailedKeys(errors)
    case OpeningKeys(unverified, errors) => multiset(KeysOf(unverified)) + FailedKeys(errors)
    case ReadingKeys(_, _, unverified, errors) => multiset(KeysOf(unverified)) + FailedKeys(errors)
    case Checking(pending, _, work) => multiset(KeysOf(pending)) + Held(work)
    case Dropping(work) => Held(work)
    case Committing(work) => Held(work)
    case Deleting(_, work) => Held(work)
    case Finished(_, _) => multiset{}
    case Aborted => multiset{}
  }

  predicate Continues(s: Option<Server>) {
    s.Some? && !s.value.Finished? && !s.value.Aborted?
  }

  /** A step that does not end the run puts each key fetched in one list and takes no key out of any. */
  predicate Conserves(s: Server, e: Event, t: Option<Server>) {
    Continues(t) ==>
      && Settled(t.value) == Settled(s) + GotBy(e)
      && Pending(t.value) + SkippedBy(e) + GotBy(e) == Pending(s) + ListedBy(e)
  }

  // ---------------------------------------------------------------- single requests

  lemma KeysSnoc(rs: seq<Request>, r: Request)
    ensures multiset(KeysOf(rs + [r])) == multiset(KeysOf(rs)) + multiset{r.s3Key}
  {
    assert KeysOf(rs + [r]) == KeysOf(rs) + [r.s3Key];
  }

  lemma HeadKey(keys: seq<string>)
    requires keys != []
    ensures multiset(keys) == multiset{keys[0]} + multiset(keys[1..])
  {
    assert keys == [keys[0]] + keys[1..];
  }

  lemma HeadRequest(rs: seq<Request>)
    requires rs != []
    ensures multiset(KeysOf(rs)) == multiset{rs[0].s3Key} + multiset(KeysOf(rs[1..]))
  {
    assert KeysOf(rs) == [rs[0].s3Key] + KeysOf(rs[1..]);
  }

  lemma HeldNothing(errors: Errors)
    ensures Held(Work([], [], errors)) == FailedKeys(errors)
  {
    hide FailedKeys;
    assert KeysOf([]) == [];
  }

  lemma HeldAfterCheck(work: Work, r: Request)
    ensures Held(Accept(work, r)) == Held(work) + multiset{r.s3Key} == Held(Reject(work, r))
  {
    hide KeysOf;
    KeysSnoc(work.verified, r);
    KeysSnoc(work.rejected, r);
  }

  // ---------------------------------------------------------------- where a loop leads

  lemma SettledAfterListing(conf: Conf, unverified: seq<Request>, errors: Errors)
    ensures var s := AfterListing(conf, unverified, errors);
      Continues(Some(s)) ==> Settled(s) == multiset(KeysOf(unverified)) + FailedKeys(errors) && Pending(s) == multiset{}
  {
    hide FailedKeys, Held, KeysOf;
    HeldNothing(errors);
  }

  lemma SettledAfterFetch(conf: Conf, keys: seq<string>, next: Option<string>, unverified: seq<Request>, errors: Errors)
    ensures var s := FetchState(conf, keys, next, unverified, errors);
      Continues(Some(s)) ==> Settled(s) == multiset(KeysOf(unverified)) + FailedKeys(errors) && Pending(s) == multiset(keys)
  {
    hide AfterListing, FailedKeys, KeysOf;
    SettledAfterListing(conf, unverified, errors);
  }

  lemma SettledAfterKeys(files: seq<string>, certs: seq<CertMatch>, unverified: seq<Request>, errors: Errors)
    ensures var s := KeyState(files, certs, unverified, errors);
      Continues(Some(s)) ==> Settled(s) == multiset(KeysOf(unverified)) + FailedKeys(errors) && Pending(s) == multiset{}
  {
    hide FailedKeys, Held, KeysOf;
    HeldNothing(errors);
  }

  lemma SettledAfterCheck(pending: seq<Request>, certs: seq<CertMatch>, work: Work)
    ensures var s := CheckState(pending, certs, work);
      Settled(s) == multiset(KeysOf(pending)) + Held(work) && Pending(s) == multiset{}
  {
    hide Held;
    assert KeysOf([]) == [];
  }

  // ---------------------------------------------------------------- single steps

  lemma ListingConserves(conf: Conf, s: Server, e: Event)
    requires s.Listing?
    ensures Conserves(s, e, StepListing(conf, s, e))
  {
    hide FetchState, KeysOf, FailedKeys;
    if e.ListPage? && e.page.Page? {
      SettledAfterFetch(conf, e.page.keys, e.page.next, s.unverified, s.errors);
    }
  }

  lemma SkipConserves(conf: Conf, s: Server)
    requires s.Fetching? && s.keys != []
    ensures Conserves(s, SkipKey(s.keys[0]), Some(FetchState(conf, s.keys[1..], s.next, s.unverified, s.errors)))
  {
    hide FetchState, KeysOf, FailedKeys;
    HeadKey(s.keys);
    SettledAfterFetch(conf, s.keys[1..], s.next, s.unverified, s.errors);
  }

  lemma FetchedConserves(conf: Conf, s: Server, body: Option<string>, unverified: seq<Request>, errors: Errors)
    requires s.Fetching? && s.keys != []
    requires multiset(KeysOf(unverified)) + FailedKeys(errors)
      == multiset(KeysOf(s.unverified)) + FailedKeys(s.errors) + multiset{s.keys[0]}
    ensures Conserves(s, GetObject(s.keys[0], body), Some(FetchState(conf, s.keys[1..], s.next, unverified, errors)))
  {
    hide FetchState, KeysOf, FailedKeys;
    HeadKey(s.keys);
    SettledAfterFetch(conf, s.keys[1..], s.next, unverified, errors);
  }

  lemma FetchConserves(conf: Conf, s: Server, body: Option<string>)
    requires s.Fetching? && s.keys != []
    ensures Conserves(s, GetObject(s.keys[0], body), Some(Fetch(conf, s, body)))
  {
    hide FetchState, KeysOf, Conserves, ParseUpload;
    var key := s.keys[0];
    if body.None? {
      FetchedConserves(conf, s, body, s.unverified, s.errors.(fetches := s.errors.fetches + [key]));
    } else if ParseUpload(body.value).None? {
      FetchedConserves(conf, s, body, s.unverified, s.errors.(parses := s.errors.parses + [key]));
    } else {
      var r := Request(ParseUpload(body.value).value, key);
      KeysSnoc(s.unverified, r);
      FetchedConserves(conf, s, body, s.unverified + [r], s.errors);
    }
  }

  lemma FetchingConserves(conf: Conf, s: Server, e: Event)
    requires s.Fetching?
    ensures Conserves(s, e, StepFetching(conf, s, e))
  {
    hide Settled, Pending, Fetch, FetchState, EndsWith;
    if s.keys != [] {
      SkipConserves(conf, s);
      if e.GetObject? {
        FetchConserves(conf, s, e.body);
      }
    }
  }

  lemma OpeningConserves(s: Server, e: Event)
    requires s.OpeningKeys?
    ensures Conserves(s, e, StepOpening(s, e))
  {
    hide KeyState, KeysOf, FailedKeys;
    if e.OpenKeyDirectory? && e.names.Some? {
      SettledAfterKeys(e.names.value, [], s.unverified, s.errors);
    }
  }

  lemma SameFailedKeys(errors: Errors, errors': Errors)
    requires errors.fetches == errors'.fetches && errors.parses == errors'.parses
    ensures FailedKeys(errors) == FailedKeys(errors')
  {
  }

  lemma ReadingConserves(s: Server, e: Event)
    requires s.ReadingKeys?
    ensures Conserves(s, e, StepReading(s, e))
  {
    hide KeyState, KeysOf, FailedKeys;
    if s.files != [] && e.ReadKeyFile? {
      var errors := s.errors.(keyFiles := s.errors.keyFiles + [s.files[0]]);
      SameFailedKeys(errors, s.errors);
      SettledAfterKeys(s.files[1..], s.certs, s.unverified, errors);
      if e.file.Certificate? {
        SettledAfterKeys(s.files[1..], s.certs + [e.file.cert], s.unverified, s.errors);
      }
    }
  }

  lemma CheckedConserves(s: Server, now: int, work: Work)
    requires s.Checking? && s.pending != []
    requires Held(work) == Held(s.work) + multiset{s.pending[0].s3Key}
    ensures Conserves(s, CheckOne(now), Some(CheckState(s.pending[1..], s.certs, work)))
  {
    hide KeysOf, Held, CheckState;
    SettledAfterCheck(s.pending[1..], s.certs, work);
    HeadRequest(s.pending);
  }

  lemma CheckingConserves(conf: Conf, meaning: Meaning, s: Server, e: Event)
    requires s.Checking?
    ensures Conserves(s, e, StepChecking(conf, meaning, s, e))
  {
    hide Settled, Pending, Held, CheckState, CheckRequest, Accept, Reject, KeysOf;
    if s.pending != [] && e.CheckOne? {
      HeldAfterCheck(s.work, s.pending[0]);
      CheckedConserves(s, e.now, Accept(s.work, s.pending[0]));
      CheckedConserves(s, e.now, Reject(s.work, s.pending[0]));
    }
  }

  lemma DroppingConserves(conf: Conf, s: Server, e: Event)
    requires s.Dropping?
    ensures Conserves(s, e, StepDropping(conf, s, e))
  {
    hide Held;
  }

  lemma CommittingConserves(s: Server, e: Event)
    requires s.Committing?
    ensures Conserves(s, e, StepCommitting(s, e))
  {
    hide Held, BatchOf, DeleteKeys;
  }

  lemma DeletingConserves(s: Server, e: Event)
    requires s.Deleting?
    ensures Conserves(s, e, StepDeleting(s, e))
  {
    hide Held, FailDelete;
    if s.keys != [] {
      FailDeleteHolds(s.work, s.keys[0]);
    }
  }

  lemma FailDeleteHolds(work: Work, key: string)
    ensures Held(FailDelete(work, key)) == Held(work)
  {
    hide KeysOf;
  }

  lemma NoneConserves(s: Server, e: Event)
    ensures Conserves(s, e, None)
  {
  }

  lemma StepConserves(conf: Conf, meaning: Meaning, s: Server, e: Event)
    ensures Conserves(s, e, Step(conf, meaning, s, e))
  {
    hide Conserves, StepListing, StepFetching, StepOpening, StepReading, StepChecking, StepDropping, StepCommitting;
    hide StepDeleting;
    match s
    case Listing(_, _, _) => ListingConserves(conf, s, e);
    case Fetching(_, _, _, _) => FetchingConserves(conf, s, e);
    case OpeningKeys(_, _) => OpeningConserves(s, e);
    case ReadingKeys(_, _, _, _) => ReadingConserves(s, e);
    case Checking(_, _, _) => CheckingConserves(conf, meaning, s, e);
    case Dropping(_) => DroppingConserves(conf, s, e);
    case Committing(_) => CommittingConserves(s, e);
    case Deleting(_, _) => DeletingConserves(s, e);
    case Finished(_, _) => NoneConserves(s, e);
    case Aborted => NoneConserves(s, e);
  }

  lemma StepContinues(conf: Conf, meaning: Meaning, s: Server, e: Event)
    requires Step(conf, meaning, s, e).Some?
    ensures Continues(Some(s))
  {
    hide StepListing, StepFetching, StepOpening, StepReading, StepChecking, StepDropping, StepCommitting, StepDeleting;
  }

  // ---------------------------------------------------------------- whole runs

  lemma SettledStart()
    ensures Settled(START) == multiset{} == Pending(START)
  {
    assert KeysOf([]) == [];
  }

  /** As long as the run goes on, each fetch is in one list, and each listed key is fetched, skipped or pending. */
  lemma {:induction false} Conservation(conf: Conf, meaning: Meaning, trace: seq<Event>)
    requires Continues(StateAfter(conf, meaning, trace))
    ensures var s := StateAfter(conf, meaning, trace).value;
      Settled(s) == Got(trace) && Pending(s) + Skipped(trace) + Got(trace) == Listed(trace)
    decreases |trace|
  {
    hide Settled, Pending, Step, ListedBy, SkippedBy, GotBy;
    if trace == [] {
      SettledStart();
    } else {
      var front, e := trace[..|trace| - 1], trace[|trace| - 1];
      var s := StateAfter(conf, meaning, front).value;
      StepContinues(conf, meaning, s, e);
      Conservation(conf, meaning, front);
      StepConserves(conf, meaning, s, e);
      var p, p' := Pending(s), Pending(StateAfter(conf, meaning, trace).value);
      assert p' + (Skipped(front) + SkippedBy(e)) + (Got(front) + GotBy(e))
        == (p' + SkippedBy(e) + GotBy(e)) + (Skipped(front) + Got(front))
        == (p + Skipped(front) + Got(front)) + ListedBy(e);
    }
  }

  lemma StepSuffix(conf: Conf, meaning: Meaning, s: Server, e: Event)
    requires Step(conf, meaning, s, e).Some?
    ensures e.GetObject? ==> EndsWith(e.key, ".ddns.json")
    ensures e.SkipKey? ==> !EndsWith(e.key, ".ddns.json")
  {
    hide EndsWith, Fetch, FetchState, KeyState, CheckNext, AfterDrop, DeleteState, BatchOf;
  }

  /** The suffix decides which keys are fetched and which are skipped. */
  lemma {:induction false} SuffixDecides(conf: Conf, meaning: Meaning, trace: seq<Event>)
    requires StateAfter(conf, meaning, trace).Some?
    ensures forall k :: k in Got(trace) ==> EndsWith(k, ".ddns.json")
    ensures forall k :: k in Skipped(trace) ==> !EndsWith(k, ".ddns.json")
    decreases |trace|
  {
    hide EndsWith, Step;
    if trace != [] {
      var front := trace[..|trace| - 1];
      SuffixDecides(conf, meaning, front);
      StepSuffix(conf, meaning, StateAfter(conf, meaning, front).value, trace[|trace| - 1]);
    }
  }

  /** The state of a run between its checks and its end. */
  function WorkOf(s: Server): Option<Work> {
    match s
    case Dropping(work) => Some(work)
    case Committing(work) => Some(work)
    case Deleting(_, work) => Some(work)
    case _ => None
  }

  /** Once the checks are done the four lists together hold exactly the listed keys with the suffix, each as often
      as it was listed. */
  lemma FourLists(conf: Conf, meaning: Meaning, trace: seq<Event>, key: string)
    requires StateAfter(conf, meaning, trace).Some? && WorkOf(StateAfter(conf, meaning, trace).value).Some?
    ensures var work := WorkOf(StateAfter(conf, meaning, trace).value).value;
      multiset(KeysOf(work.verified))[key] + multiset(KeysOf(work.rejected))[key]
        + multiset(work.errors.fetches)[key] + multiset(work.errors.parses)[key]
      == if EndsWith(key, ".ddns.json") then Listed(trace)[key] else 0
  {
    hide EndsWith, Step, KeysOf, StateAfter;
    var s := StateAfter(conf, meaning, trace).value;
    Conservation(conf, meaning, trace);
    SuffixDecides(conf, meaning, trace);
    assert Held(WorkOf(s).value)[key] == Got(trace)[key];
    assert Got(trace)[key] + Skipped(trace)[key] == Listed(trace)[key];
  }

  /** With distinct listed keys a rejected request keeps its object: its key is not handed to `cleanup`, and neither
      is a key without the suffix; every other listed key is. */
  lemma DeleteKeysExact(conf: Conf, meaning: Meaning, trace: seq<Event>, key: string)
    requires StateAfter(conf, meaning, trace).Some? && WorkOf(StateAfter(conf, meaning, trace).value).Some?
    requires Listed(trace)[key] <= 1
    ensures var work := WorkOf(StateAfter(conf, meaning, trace).value).value;
      && (key in DeleteKeys(work) <==> key in Listed(trace) && EndsWith(key, ".ddns.json") && key !in KeysOf(work.rejected))
      && multiset(DeleteKeys(work))[key] <= 1
  {
    hide EndsWith, Step, KeysOf, StateAfter;
    FourLists(conf, meaning, trace, key);
    var work := WorkOf(StateAfter(conf, meaning, trace).value).value;
    var v, f, p := KeysOf(work.verified), work.errors.fetches, work.errors.parses;
    assert multiset(v + f + p) == multiset(v) + multiset(f) + multiset(p);
    assert key in DeleteKeys(work) <==> key in multiset(DeleteKeys(work));
    assert key in KeysOf(work.rejected) <==> key in multiset(KeysOf(work.rejected));
  }
}
