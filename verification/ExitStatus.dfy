/** The exit of a run, in terms of what happened in it (src/server.rs, `handle_server`, `ServerErrors`). */
module ExitStatus {
  import opened Wrappers
  import opened Signing
  import opened Validation
  import opened Machine
  import opened Flow

  /** An event that stops a run with an error. */
  predicate Fatal(e: Event) {
    match e
    case ListPage(_, page) => page.ListFailed?
    case OpenKeyDirectory(names) => names.None?
    case ReadKeyFile(_, file) => file.Unreadable?
    case DropPrivileges(ok) => !ok
    case Commit(_, ok) => !ok
    case _ => false
  }

  /** A failure that a run goes on after: a fetch, an unreadable upload, a malformed key file, a rejected request, or a delete
      that is not answered with a status from 200 to 299. */
  predicate Fails(conf: Conf, meaning: Meaning, s: Server, e: Event) {
    match e
    case GetObject(_, body) => body.None? || ParseUpload(body.value).None?
    case ReadKeyFile(_, file) => file.Malformed?
    case CheckOne(now) =>
      s.Checking? && s.pending != [] && CheckRequest(meaning, s.certs, s.pending[0].payload, conf.policy, now).Invalid?
    case DeleteObject(_, answer) => !(answer.Status? && 200 <= answer.code < 300)
    case _ => false
  }

  predicate NoErrors(e: Errors) {
    e.fetches == [] && e.parses == [] && e.keyFiles == [] && e.signatures == [] && e.deletions == []
  }

  /** A step records an error exactly when something failed. */
  predicate Records(conf: Conf, meaning: Meaning, s: Server, e: Event, t: Server) {
    t.Aborted? || (NoErrors(ErrorsOf(t)) <==> NoErrors(ErrorsOf(s)) && !Fails(conf, meaning, s, e))
  }

  /** How a step that ends the run ends it. */
  predicate Ends(s: Server, e: Event, t: Server) {
    t.Finished? ==> t.ok == if s.Deleting? || (e.Commit? && e.ok) then NoErrors(t.errors) else !Fatal(e)
  }

  predicate Exits(conf: Conf, meaning: Meaning, s: Server, e: Event, t: Option<Server>) {
    t.Some? ==> Records(conf, meaning, s, e, t.value) && Ends(s, e, t.value)
  }

  lemma ListingExits(conf: Conf, meaning: Meaning, s: Server, e: Event)
    requires s.Listing?
    ensures Exits(conf, meaning, s, e, StepListing(conf, s, e))
  {
    hide ParseUpload, CheckRequest;
  }

  lemma FetchingExits(conf: Conf, meaning: Meaning, s: Server, e: Event)
    requires s.Fetching?
    ensures Exits(conf, meaning, s, e, StepFetching(conf, s, e))
  {
    hide ParseUpload, CheckRequest;
  }

  lemma KeysExit(conf: Conf, meaning: Meaning, s: Server, e: Event)
    ensures s.OpeningKeys? ==> Exits(conf, meaning, s, e, StepOpening(s, e))
    ensures s.ReadingKeys? ==> Exits(conf, meaning, s, e, StepReading(s, e))
  {
    hide ParseUpload, CheckRequest;
  }

  lemma CheckingExits(conf: Conf, meaning: Meaning, s: Server, e: Event)
    requires s.Checking?
    ensures Exits(conf, meaning, s, e, StepChecking(conf, meaning, s, e))
  {
    hide ParseUpload, CheckRequest;
  }

  lemma DroppingExits(conf: Conf, meaning: Meaning, s: Server, e: Event)
    requires s.Dropping?
    ensures Exits(conf, meaning, s, e, StepDropping(conf, s, e))
  {
    hide ParseUpload, CheckRequest, BatchOf;
  }

  lemma CommittingExits(conf: Conf, meaning: Meaning, s: Server, e: Event)
    requires s.Committing?
    ensures Exits(conf, meaning, s, e, StepCommitting(s, e))
  {
    hide ParseUpload, CheckRequest, DeleteKeys, BatchOf;
  }

  lemma DeletingExits(conf: Conf, meaning: Meaning, s: Server, e: Event)
    requires s.Deleting?
    ensures Exits(conf, meaning, s, e, StepDeleting(s, e))
  {
    hide ParseUpload, CheckRequest, BatchOf;
  }

  lemma StepExits(conf: Conf, meaning: Meaning, s: Server, e: Event)
    ensures Exits(conf, meaning, s, e, Step(conf, meaning, s, e))
  {
    hide StepListing, StepFetching, StepOpening, StepReading, StepChecking, StepDropping, StepCommitting, StepDeleting;
    hide Records, Ends;
    match s
    case Listing(_, _, _) => ListingExits(conf, meaning, s, e);
    case Fetching(_, _, _, _) => FetchingExits(conf, meaning, s, e);
    case OpeningKeys(_, _) => KeysExit(conf, meaning, s, e);
    case ReadingKeys(_, _, _, _) => KeysExit(conf, meaning, s, e);
    case Checking(_, _, _) => CheckingExits(conf, meaning, s, e);
    case Dropping(_) => DroppingExits(conf, meaning, s, e);
    case Committing(_) => CommittingExits(conf, meaning, s, e);
    case Deleting(_, _) => DeletingExits(conf, meaning, s, e);
    case Finished(_, _) =>
    case Aborted =>
  }

  // ---------------------------------------------------------------- whole runs

  predicate FailsAt(conf: Conf, meaning: Meaning, trace: seq<Event>, i: nat) {
    && i < |trace| && StateAfter(conf, meaning, trace[..i]).Some?
    && Fails(conf, meaning, StateAfter(conf, meaning, trace[..i]).value, trace[i])
  }

  predicate Committed(trace: seq<Event>) {
    exists i :: 0 <= i < |trace| && trace[i].Commit? && trace[i].ok
  }

  lemma FailsSnoc(conf: Conf, meaning: Meaning, front: seq<Event>, e: Event)
    requires StateAfter(conf, meaning, front).Some?
    ensures (forall i: nat :: !FailsAt(conf, meaning, front + [e], i))
      <==> (forall i: nat :: !FailsAt(conf, meaning, front, i)) && !Fails(conf, meaning, StateAfter(conf, meaning, front).value, e)
  {
    hide StateAfter, Fails;
    var all := front + [e];
    assert all[..|front|] == front && all[|front|] == e;
    forall i: nat | i < |front| ensures FailsAt(conf, meaning, all, i) == FailsAt(conf, meaning, front, i) {
      assert all[..i] == front[..i] && all[i] == front[i];
    }
    assert FailsAt(conf, meaning, all, |front|) == Fails(conf, meaning, StateAfter(conf, meaning, front).value, e);
  }

  /** The five lists are empty exactly as long as nothing has failed. */
  lemma {:induction false} ListsTellFailures(conf: Conf, meaning: Meaning, trace: seq<Event>)
    requires StateAfter(conf, meaning, trace).Some? && !StateAfter(conf, meaning, trace).value.Aborted?
    ensures NoErrors(ErrorsOf(StateAfter(conf, meaning, trace).value)) <==> forall i: nat :: !FailsAt(conf, meaning, trace, i)
    decreases |trace|
  {
    hide Step, Fails, NoErrors, ErrorsOf, Ends, FailsAt;
    if trace == [] {
      NothingYet(conf, meaning);
    } else {
      var front, e := trace[..|trace| - 1], trace[|trace| - 1];
      var s := StateAfter(conf, meaning, front).value;
      assert front + [e] == trace;
      StepFlows(conf, meaning, s, e);
      ActsActive(s, e);
      ListsTellFailures(conf, meaning, front);
      StepExits(conf, meaning, s, e);
      FailsSnoc(conf, meaning, front, e);
    }
  }

  lemma NothingYet(conf: Conf, meaning: Meaning)
    ensures NoErrors(ErrorsOf(START)) && forall i: nat :: !FailsAt(conf, meaning, [], i)
    ensures StateAfter(conf, meaning, []) == Some(START) && !Committed([])
  {
  }

  /** While a run goes on, it has committed exactly if it is deleting. */
  lemma {:induction false} DeletingMeansCommitted(conf: Conf, meaning: Meaning, trace: seq<Event>)
    requires StateAfter(conf, meaning, trace).Some? && Active(StateAfter(conf, meaning, trace).value)
    ensures StateAfter(conf, meaning, trace).value.Deleting? <==> Committed(trace)
    decreases |trace|
  {
    hide Step, DeleteKeys, CertsOf, Unchecked, Good, ErrorsOf, BatchOf;
    if trace == [] {
      NothingYet(conf, meaning);
    } else {
      var front, e := trace[..|trace| - 1], trace[|trace| - 1];
      var s := StateAfter(conf, meaning, front).value;
      assert front + [e] == trace;
      StepFlows(conf, meaning, s, e);
      DeletingMeansCommitted(conf, meaning, front);
      CommittedSnoc(front, e);
    }
  }

  lemma CommittedSnoc(front: seq<Event>, e: Event)
    ensures Committed(front + [e]) <==> Committed(front) || (e.Commit? && e.ok)
  {
    var all := front + [e];
    assert all[|front|] == e;
    if Committed(front) {
      var i :| 0 <= i < |front| && front[i].Commit? && front[i].ok;
      assert all[i] == front[i];
    }
  }

  /** A run that does not panic ends well exactly if its last event is not a fatal one and, where it has committed, nothing
      failed in the whole run. */
  lemma ExitExact(conf: Conf, meaning: Meaning, trace: seq<Event>, ok: bool, errors: Errors)
    requires StateAfter(conf, meaning, trace) == Some(Finished(ok, errors))
    ensures trace != []
    ensures ok <==> !Fatal(trace[|trace| - 1]) && (Committed(trace) ==> forall i: nat :: !FailsAt(conf, meaning, trace, i))
  {
    hide Step, Fails, NoErrors, FailsAt, DeleteKeys, CertsOf, Unchecked, Good, BatchOf, Committed, Records;
    NothingYet(conf, meaning);
    var front, e := trace[..|trace| - 1], trace[|trace| - 1];
    var s := StateAfter(conf, meaning, front).value;
    assert front + [e] == trace;
    StepFlows(conf, meaning, s, e);
    StepExits(conf, meaning, s, e);
    ActsActive(s, e);
    DeletingMeansCommitted(conf, meaning, front);
    CommittedSnoc(front, e);
    ListsTellFailures(conf, meaning, trace);
  }
}
