/** The server run as an automaton over the events it causes (src/server.rs, `handle_server`). */
module Machine {
  import opened Wrappers
  import opened Text
  import opened Records
  import opened Signing
  import opened Validation
  import opened Batch

  datatype ListAnswer = ListFailed | Page(keys: seq<string>, next: Option<string>)

  datatype KeyFileAnswer = Unreadable | Malformed | Certificate(cert: CertMatch)

  datatype DeleteAnswer = DeleteFailed | Status(code: nat)

  datatype Event =
    | ListPage(token: Option<string>, page: ListAnswer)
    | SkipKey(key: string)
    | GetObject(key: string, body: Option<string>)
    | OpenKeyDirectory(names: Option<seq<string>>)
    | ReadKeyFile(name: string, file: KeyFileAnswer)
    | CheckOne(now: int)
    | DropPrivileges(ok: bool)
    | Commit(changes: seq<Change>, ok: bool)
    | DeleteObject(key: string, answer: DeleteAnswer)

  /** The five error lists of `ServerErrors`, without the messages. */
  datatype Errors = Errors(fetches: seq<string>, parses: seq<string>, keyFiles: seq<string>,
                           signatures: seq<string>, deletions: seq<string>)
  {
    predicate HasErrors() {
      fetches != [] || parses != [] || keyFiles != [] || signatures != [] || deletions != []
    }
  }

  const NO_ERRORS := Errors([], [], [], [], [])

  datatype Conf = Conf(policy: Policy, dryRun: bool)

  /** Requests that passed and failed their checks so far, and the errors so far. */
  datatype Work = Work(verified: seq<Request>, rejected: seq<Request>, errors: Errors)

  datatype Server =
    | Listing(token: Option<string>, unverified: seq<Request>, errors: Errors)
    | Fetching(keys: seq<string>, next: Option<string>, unverified: seq<Request>, errors: Errors)
    | OpeningKeys(unverified: seq<Request>, errors: Errors)
    | ReadingKeys(files: seq<string>, certs: seq<CertMatch>, unverified: seq<Request>, errors: Errors)
    | Checking(pending: seq<Request>, certs: seq<CertMatch>, work: Work)
    | Dropping(work: Work)
    | Committing(work: Work)
    | Deleting(keys: seq<string>, work: Work)
    | Finished(ok: bool, errors: Errors)
    | Aborted

  /** The states before the drop. */
  predicate InChecks(s: Server) {
    s.Listing? || s.Fetching? || s.OpeningKeys? || s.ReadingKeys? || s.Checking?
  }

  function RecordsOf(rs: seq<Request>): seq<ResourceRecordSet> {
    seq(|rs|, i requires 0 <= i < |rs| => rs[i].Record())
  }

  function KeysOf(rs: seq<Request>): seq<string> {
    seq(|rs|, i requires 0 <= i < |rs| => rs[i].s3Key)
  }

  function BatchOf(work: Work): seq<Change> {
    ToChanges(RecordsOf(work.verified))
  }

  /** The keys handed to `cleanup`. */
  function DeleteKeys(work: Work): seq<string> {
    KeysOf(work.verified) + work.errors.fetches + work.errors.parses
  }

  predicate Deleted(answer: DeleteAnswer) {
    answer.Status? && 200 <= answer.code < 300
  }

  // ---------------------------------------------------------------- where each loop leads

  function AfterListing(conf: Conf, unverified: seq<Request>, errors: Errors): Server {
    if unverified == [] then Finished(true, errors)
    else if conf.policy.skipVerify then Checking(unverified, [], Work([], [], errors))
    else OpeningKeys(unverified, errors)
  }

  function FetchState(conf: Conf, keys: seq<string>, next: Option<string>, unverified: seq<Request>, errors: Errors): Server {
    if keys != [] then Fetching(keys, next, unverified, errors)
    else if next.Some? then Listing(next, unverified, errors)
    else AfterListing(conf, unverified, errors)
  }

  function KeyState(files: seq<string>, certs: seq<CertMatch>, unverified: seq<Request>, errors: Errors): Server {
    if files != [] then ReadingKeys(files, certs, unverified, errors)
    else if certs == [] then Finished(true, errors)
    else Checking(unverified, certs, Work([], [], errors))
  }

  function CheckState(pending: seq<Request>, certs: seq<CertMatch>, work: Work): Server {
    if pending != [] then Checking(pending, certs, work) else Dropping(work)
  }

  function AfterDrop(conf: Conf, work: Work): Server {
    if work.verified == [] || conf.dryRun then Finished(true, work.errors) else Committing(work)
  }

  function DeleteState(keys: seq<string>, work: Work): Server {
    if keys != [] then Deleting(keys, work) else Finished(!work.errors.HasErrors(), work.errors)
  }

  // ---------------------------------------------------------------- steps

  /** What a fetched object becomes. */
  function Fetch(conf: Conf, s: Server, body: Option<string>): Server
    requires s.Fetching? && s.keys != []
  {
    var key, rest := s.keys[0], s.keys[1..];
    if body.None? then FetchState(conf, rest, s.next, s.unverified, s.errors.(fetches := s.errors.fetches + [key]))
    else
      var p := ParseUpload(body.value);
      if p.None? then FetchState(conf, rest, s.next, s.unverified, s.errors.(parses := s.errors.parses + [key]))
      else FetchState(conf, rest, s.next, s.unverified + [Request(p.value, key)], s.errors)
  }

  function Reject(work: Work, r: Request): Work {
    Work(work.verified, work.rejected + [r], work.errors.(signatures := work.errors.signatures + [r.Record().name]))
  }

  function Accept(work: Work, r: Request): Work {
    work.(verified := work.verified + [r])
  }

  /** What the check of the next request does. */
  function CheckNext(conf: Conf, meaning: Meaning, s: Server, now: int): Server
    requires s.Checking? && s.pending != []
  {
    var r := s.pending[0];
    match CheckRequest(meaning, s.certs, r.payload, conf.policy, now)
    case Valid => CheckState(s.pending[1..], s.certs, Accept(s.work, r))
    case Invalid(_) => CheckState(s.pending[1..], s.certs, Reject(s.work, r))
    case Abort => Aborted
  }

  function StepListing(conf: Conf, s: Server, e: Event): Option<Server>
    requires s.Listing?
  {
    if !e.ListPage? || e.token != s.token then None
    else if e.page.ListFailed? then Some(Finished(false, s.errors))
    else Some(FetchState(conf, e.page.keys, e.page.next, s.unverified, s.errors))
  }

  function StepFetching(conf: Conf, s: Server, e: Event): Option<Server>
    requires s.Fetching?
  {
    if s.keys == [] then None
    else if !EndsWith(s.keys[0], DDNS_JSON_FILE_EXT) then
      if e == SkipKey(s.keys[0]) then Some(FetchState(conf, s.keys[1..], s.next, s.unverified, s.errors)) else None
    else if e.GetObject? && e.key == s.keys[0] then Some(Fetch(conf, s, e.body)) else None
  }

  function StepOpening(s: Server, e: Event): Option<Server>
    requires s.OpeningKeys?
  {
    if !e.OpenKeyDirectory? then None
    else if e.names.None? then Some(Finished(false, s.errors))
    else Some(KeyState(e.names.value, [], s.unverified, s.errors))
  }

  function StepReading(s: Server, e: Event): Option<Server>
    requires s.ReadingKeys?
  {
    if s.files == [] || !e.ReadKeyFile? || e.name != s.files[0] then None
    else if e.file.Unreadable? then Some(Finished(false, s.errors))
    else if e.file.Malformed? then
      Some(KeyState(s.files[1..], s.certs, s.unverified, s.errors.(keyFiles := s.errors.keyFiles + [s.files[0]])))
    else Some(KeyState(s.files[1..], s.certs + [e.file.cert], s.unverified, s.errors))
  }

  function StepChecking(conf: Conf, meaning: Meaning, s: Server, e: Event): Option<Server>
    requires s.Checking?
  {
    if s.pending == [] || !e.CheckOne? then None else Some(CheckNext(conf, meaning, s, e.now))
  }

  function StepDropping(conf: Conf, s: Server, e: Event): Option<Server>
    requires s.Dropping?
  {
    if !e.DropPrivileges? then None
    else if !e.ok then Some(Finished(false, s.work.errors))
    else Some(AfterDrop(conf, s.work))
  }

  function StepCommitting(s: Server, e: Event): Option<Server>
    requires s.Committing?
  {
    if !e.Commit? || e.changes != BatchOf(s.work) then None
    else if !e.ok then Some(Finished(false, s.work.errors))
    else Some(DeleteState(DeleteKeys(s.work), s.work))
  }

  function FailDelete(work: Work, key: string): Work {
    work.(errors := work.errors.(deletions := work.errors.deletions + [key]))
  }

  function StepDeleting(s: Server, e: Event): Option<Server>
    requires s.Deleting?
  {
    if s.keys == [] || !e.DeleteObject? || e.key != s.keys[0] then None
    else Some(DeleteState(s.keys[1..], if Deleted(e.answer) then s.work else FailDelete(s.work, s.keys[0])))
  }

  /** The state after an event, or `None` where the server does not cause this event. */
  function Step(conf: Conf, meaning: Meaning, s: Server, e: Event): Option<Server> {
    match s
    case Listing(_, _, _) => StepListing(conf, s, e)
    case Fetching(_, _, _, _) => StepFetching(conf, s, e)
    case OpeningKeys(_, _) => StepOpening(s, e)
    case ReadingKeys(_, _, _, _) => StepReading(s, e)
    case Checking(_, _, _) => StepChecking(conf, meaning, s, e)
    case Dropping(_) => StepDropping(conf, s, e)
    case Committing(_) => StepCommitting(s, e)
    case Deleting(_, _) => StepDeleting(s, e)
    case Finished(_, _) => None
    case Aborted => None
  }

  const START := Listing(None, [], NO_ERRORS)

  /** The state after a trace of events, or `None` where the server has no such trace. */
  function StateAfter(conf: Conf, meaning: Meaning, trace: seq<Event>): Option<Server>
    decreases |trace|
  {
    if trace == [] then Some(START) else
      var s := StateAfter(conf, meaning, trace[..|trace| - 1]);
      if s.None? then None else Step(conf, meaning, s.value, trace[|trace| - 1])
  }

  lemma StateAfterSnoc(conf: Conf, meaning: Meaning, trace: seq<Event>, e: Event)
    requires StateAfter(conf, meaning, trace).Some?
    ensures StateAfter(conf, meaning, trace + [e]) == Step(conf, meaning, StateAfter(conf, meaning, trace).value, e)
  {
    assert (trace + [e])[..|trace|] == trace;
  }

  lemma StateAfterFront(conf: Conf, meaning: Meaning, trace: seq<Event>, n: nat)
    requires StateAfter(conf, meaning, trace).Some? && n <= |trace|
    ensures StateAfter(conf, meaning, trace[..n]).Some?
    decreases |trace|
  {
    if n < |trace| {
      var front := trace[..|trace| - 1];
      StateAfterFront(conf, meaning, front, n);
      assert front[..n] == trace[..n];
    } else {
      assert trace[..n] == trace;
    }
  }
}
