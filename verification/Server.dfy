/** The server process with its loops and its error lists (src/server.rs). */
module Server {
  import opened Wrappers
  import opened Text
  import opened Records
  import opened Signing
  import opened Validation
  import opened Machine
  import opened Outside
  import opened PhaseOrder
  import opened Steps
  import Batch
  import Filtering
  import Privileges

  /** The outside, and the trace of what was asked of it. */
  class World {
    const env: Environment
    var trace: seq<Event>

    constructor (env: Environment)
      ensures this.env == env && trace == []
    {
      this.env := env;
      trace := [];
    }

    method ListPage(token: Option<string>) returns (page: ListAnswer)
      modifies this
      ensures page == env.list(|old(trace)|, token)
      ensures trace == old(trace) + [Event.ListPage(token, page)]
      ensures forall drops :: AnsweredAt(env, drops, |old(trace)|, Event.ListPage(token, page))
    {
      page := env.list(|trace|, token);
      trace := trace + [Event.ListPage(token, page)];
    }

    method WarnOfForeignKey(key: string)
      modifies this
      ensures trace == old(trace) + [SkipKey(key)]
      ensures forall drops :: AnsweredAt(env, drops, |old(trace)|, SkipKey(key))
    {
      trace := trace + [SkipKey(key)];
    }

    method GetObject(key: string) returns (body: Option<string>)
      modifies this
      ensures body == env.get(|old(trace)|, key)
      ensures trace == old(trace) + [Event.GetObject(key, body)]
      ensures forall drops :: AnsweredAt(env, drops, |old(trace)|, Event.GetObject(key, body))
    {
      body := env.get(|trace|, key);
      trace := trace + [Event.GetObject(key, body)];
    }

    method OpenKeyDirectory() returns (names: Option<seq<string>>)
      modifies this
      ensures names == env.keyDirectory(|old(trace)|)
      ensures trace == old(trace) + [Event.OpenKeyDirectory(names)]
      ensures forall drops :: AnsweredAt(env, drops, |old(trace)|, Event.OpenKeyDirectory(names))
    {
      names := env.keyDirectory(|trace|);
      trace := trace + [Event.OpenKeyDirectory(names)];
    }

    method ReadKeyFile(name: string) returns (file: KeyFileAnswer)
      modifies this
      ensures file == env.keyFile(|old(trace)|, name)
      ensures trace == old(trace) + [Event.ReadKeyFile(name, file)]
      ensures forall drops :: AnsweredAt(env, drops, |old(trace)|, Event.ReadKeyFile(name, file))
    {
      file := env.keyFile(|trace|, name);
      trace := trace + [Event.ReadKeyFile(name, file)];
    }

    method Now() returns (now: int)
      modifies this
      ensures now == env.clock(|old(trace)|)
      ensures trace == old(trace) + [CheckOne(now)]
      ensures forall drops :: AnsweredAt(env, drops, |old(trace)|, CheckOne(now))
    {
      now := env.clock(|trace|);
      trace := trace + [CheckOne(now)];
    }

    method DropPrivileges(process: Privileges.Process, users: string -> Privileges.Lookup, username: string) returns (ok: bool)
      modifies this, process
      ensures ok == Privileges.DropSucceeds(old(process.Value()), users, username)
      ensures ok && old(process.euid) != 0 ==> process.Value() == old(process.Value())
      ensures ok && old(process.euid) == 0 ==> DroppedTo(users, username, process.Value())
      ensures trace == old(trace) + [Event.DropPrivileges(ok)]
    {
      ok := process.MaybeDropPrivileges(users, username);
      trace := trace + [Event.DropPrivileges(ok)];
    }

    method CommitChanges(changes: seq<Change>) returns (ok: bool)
      modifies this
      ensures ok == env.commit(|old(trace)|, changes)
      ensures trace == old(trace) + [Commit(changes, ok)]
      ensures forall drops :: AnsweredAt(env, drops, |old(trace)|, Commit(changes, ok))
    {
      ok := env.commit(|trace|, changes);
      trace := trace + [Commit(changes, ok)];
    }

    method DeleteObject(key: string) returns (answer: DeleteAnswer)
      modifies this
      ensures answer == env.delete(|old(trace)|, key)
      ensures trace == old(trace) + [Event.DeleteObject(key, answer)]
      ensures forall drops :: AnsweredAt(env, drops, |old(trace)|, Event.DeleteObject(key, answer))
    {
      answer := env.delete(|trace|, key);
      trace := trace + [Event.DeleteObject(key, answer)];
    }
  }

  /** All ids are those of the named user, or of `nobody` if there is none of that name, who is not root; no groups are left. */
  ghost predicate DroppedTo(users: string -> Privileges.Lookup, username: string, c: Privileges.Credentials) {
    exists u, g ::
      && (users(username) == Privileges.User(u, g) || (users(username).NoUser? && users("nobody") == Privileges.User(u, g)))
      && u != 0 && c == Privileges.Credentials(u, u, u, g, g, g, [])
  }

  /** Errors that do not stop a run. */
  class ServerErrors {
    var failedS3Fetches: seq<string>
    var failedJsonParses: seq<string>
    var failedKeyParses: seq<string>
    var failedSignatureChecks: seq<string>
    var failedS3Deletions: seq<string>

    constructor ()
      ensures Value() == NO_ERRORS
    {
      failedS3Fetches, failedJsonParses, failedKeyParses, failedSignatureChecks, failedS3Deletions := [], [], [], [], [];
    }

    function Value(): Errors
      reads this
    {
      Errors(failedS3Fetches, failedJsonParses, failedKeyParses, failedSignatureChecks, failedS3Deletions)
    }

    /** The summary is an error exactly when one of the lists is not empty. */
    method PrintSummary() returns (ok: bool)
      ensures ok <==> failedS3Fetches == [] && failedJsonParses == [] && failedKeyParses == [] && failedSignatureChecks == []
                      && failedS3Deletions == []
    {
      var hasErrors := failedS3Fetches != [] || failedJsonParses != [] || failedKeyParses != []
        || failedSignatureChecks != [] || failedS3Deletions != [];
      ok := !hasErrors;
    }
  }

  // ---------------------------------------------------------------- step 1: fetch

  method FetchDdnsJsonsFromS3(conf: Conf, ghost meaning: Meaning, world: World, ghost drops: bool, ghost bound: nat)
    returns (unverified: seq<Request>, errors: ServerErrors, ok: bool)
    requires world.trace == [] && ChainsEnd(world.env, bound)
    modifies world
    ensures fresh(errors) && AllEarly(world.trace) && Answered(world.env, drops, world.trace)
    ensures StateAfter(conf, meaning, world.trace)
      == Some(if ok then AfterListing(conf, unverified, errors.Value()) else Finished(false, errors.Value()))
  {
    hide StateAfter, AfterListing, FetchState, EndsWith, ParseUpload, AnsweredAt, Answered;
    assert Answered(world.env, drops, []) by { NothingAnswered(world.env, drops); }
    errors := new ServerErrors();
    unverified, ok := [], true;
    var token: Option<string>, more := None, true;
    StartsListing(conf, meaning);
    while more
      invariant fresh(errors) && AllEarly(world.trace) && Answered(world.env, drops, world.trace)
      invariant more ==> StateAfter(conf, meaning, world.trace) == Some(Listing(token, unverified, errors.Value()))
      invariant !more ==> StateAfter(conf, meaning, world.trace) == Some(AfterListing(conf, unverified, errors.Value()))
      decreases more, if |world.trace| < bound then bound - |world.trace| else 0
    {
      ghost var before := world.trace;
      var page := world.ListPage(token);
      AnsweredSnoc(world.env, drops, before, Event.ListPage(token, page));
      ListStep(conf, meaning, before, token, unverified, errors.Value(), page);
      if page.ListFailed? {
        return unverified, errors, false;
      }
      for i := 0 to |page.keys|
        invariant fresh(errors) && |world.trace| > |before|
        invariant AllEarly(world.trace) && Answered(world.env, drops, world.trace)
        invariant StateAfter(conf, meaning, world.trace)
          == Some(FetchState(conf, page.keys[i..], page.next, unverified, errors.Value()))
      {
        ghost var s := FetchState(conf, page.keys[i..], page.next, unverified, errors.Value());
        ghost var sofar := world.trace;
        var key := page.keys[i];
        assert page.keys[i..][0] == key && page.keys[i..][1..] == page.keys[i + 1..];
        if !EndsWith(key, DDNS_JSON_FILE_EXT) {
          world.WarnOfForeignKey(key);
          AnsweredSnoc(world.env, drops, sofar, SkipKey(key));
          SkipStep(conf, meaning, sofar, page.keys[i..], page.next, unverified, errors.Value());
          continue;
        }
        var body := world.GetObject(key);
        AnsweredSnoc(world.env, drops, sofar, Event.GetObject(key, body));
        FetchStep(conf, meaning, sofar, page.keys[i..], page.next, unverified, errors.Value(), body);
        if body.Some? {
          var parsed := ParseUpload(body.value);
          if parsed.Some? {
            unverified := unverified + [Request(parsed.value, key)];
          } else {
            errors.failedJsonParses := errors.failedJsonParses + [key];
          }
        } else {
          errors.failedS3Fetches := errors.failedS3Fetches + [key];
        }
      }
      PageDone(conf, page.keys, page.next, unverified, errors.Value());
      token, more := page.next, page.next.Some?;
    }
  }

  // ---------------------------------------------------------------- step 2: validate

  method GetPublicKeyMap(conf: Conf, ghost meaning: Meaning, world: World, ghost drops: bool,
                         ghost unverified: seq<Request>, errors: ServerErrors)
    returns (certs: seq<CertMatch>, ok: bool)
    requires StateAfter(conf, meaning, world.trace) == Some(OpeningKeys(unverified, errors.Value()))
    requires AllEarly(world.trace) && Answered(world.env, drops, world.trace)
    modifies world, errors
    ensures old(world.trace) <= world.trace && AllEarly(world.trace) && Answered(world.env, drops, world.trace)
    ensures StateAfter(conf, meaning, world.trace)
      == Some(if ok then KeyState([], certs, unverified, errors.Value()) else Finished(false, errors.Value()))
  {
    hide StateAfter, KeyState, AnsweredAt, Answered;
    certs, ok := [], true;
    ghost var before := world.trace;
    var names := world.OpenKeyDirectory();
    AnsweredSnoc(world.env, drops, before, Event.OpenKeyDirectory(names));
    OpenStep(conf, meaning, before, unverified, errors.Value(), names);
    if names.None? {
      return [], false;
    }
    for i := 0 to |names.value|
      invariant before <= world.trace && AllEarly(world.trace) && Answered(world.env, drops, world.trace)
      invariant StateAfter(conf, meaning, world.trace) == Some(KeyState(names.value[i..], certs, unverified, errors.Value()))
    {
      ghost var sofar := world.trace;
      var name := names.value[i];
      assert names.value[i..][0] == name && names.value[i..][1..] == names.value[i + 1..];
      var file := world.ReadKeyFile(name);
      AnsweredSnoc(world.env, drops, sofar, Event.ReadKeyFile(name, file));
      ReadStep(conf, meaning, sofar, names.value[i..], certs, unverified, errors.Value(), file);
      if file.Unreadable? {
        return certs, false;
      }
      if file.Malformed? {
        errors.failedKeyParses := errors.failedKeyParses + [name];
        continue;
      }
      certs := certs + [file.cert];
    }
  }

  /** The verified requests are the ones that pass at the time of their check, in order. */
  method ValidateUnverifiedDnsRequests(conf: Conf, meaning: Meaning, world: World, ghost drops: bool,
                                       certs: seq<CertMatch>, unverified: seq<Request>, errors: ServerErrors)
    returns (verified: seq<Request>, aborted: bool, ghost timed: seq<Filtering.Timed>)
    requires unverified != [] && AllEarly(world.trace) && Answered(world.env, drops, world.trace)
    requires StateAfter(conf, meaning, world.trace) == Some(Checking(unverified, certs, Work([], [], errors.Value())))
    modifies world, errors
    ensures var work := Filtering.WorkAfter(conf, meaning, certs, Work([], [], old(errors.Value())), timed);
      && verified == work.verified == Filtering.Select(conf, meaning, certs, timed, true)
      && errors.Value() == work.errors
      && StateAfter(conf, meaning, world.trace) == Some(if aborted then Aborted else Dropping(work))
    ensures old(world.trace) <= world.trace && AllEarly(world.trace) && Answered(world.env, drops, world.trace)
    ensures |timed| <= |unverified| && Filtering.Requests(timed) == unverified[..|timed|]
    ensures forall i :: 0 <= i < |timed| ==> timed[i].now == world.env.clock(|old(world.trace)| + i)
    ensures !aborted ==> Filtering.Requests(timed) == unverified && Filtering.NoneAborts(conf, meaning, certs, timed)
  {
    hide StateAfter, CheckState, CheckRequest, Filtering.WorkAfter, Filtering.Select, AnsweredAt, Answered;
    ghost var start := Work([], [], errors.Value());
    verified, aborted, timed := [], false, [];
    Filtering.WorkStart(conf, meaning, certs, start);
    assert unverified[0..] == unverified;
    CheckStarts(unverified, certs, start);
    for i := 0 to |unverified|
      invariant old(world.trace) <= world.trace && AllEarly(world.trace) && Answered(world.env, drops, world.trace)
      invariant |world.trace| == |old(world.trace)| + i
      invariant forall j :: 0 <= j < |timed| ==> timed[j].now == world.env.clock(|old(world.trace)| + j)
      invariant Filtering.Requests(timed) == unverified[..i] && Filtering.NoneAborts(conf, meaning, certs, timed)
      invariant verified == Filtering.WorkAfter(conf, meaning, certs, start, timed).verified
      invariant errors.Value() == Filtering.WorkAfter(conf, meaning, certs, start, timed).errors
      invariant StateAfter(conf, meaning, world.trace)
        == Some(CheckState(unverified[i..], certs, Filtering.WorkAfter(conf, meaning, certs, start, timed)))
    {
      ghost var sofar, work := world.trace, Filtering.WorkAfter(conf, meaning, certs, start, timed);
      var request := unverified[i];
      assert unverified[i..][0] == request && unverified[i..][1..] == unverified[i + 1..];
      assert unverified[..i + 1] == unverified[..i] + [request];
      var now := world.Now();
      AnsweredSnoc(world.env, drops, sofar, CheckOne(now));
      CheckStep(conf, meaning, sofar, unverified[i..], certs, work, now);
      var check := CheckRequest(meaning, certs, request.payload, conf.policy, now);
      if check.Abort? {
        WorkOfSelected(conf, meaning, certs, start, timed);
        return verified, true, timed;
      }
      Filtering.WorkSnoc(conf, meaning, certs, start, timed, Filtering.Timed(request, now));
      timed := timed + [Filtering.Timed(request, now)];
      if check.Valid? {
        verified := verified + [request];
      } else {
        errors.failedSignatureChecks := errors.failedSignatureChecks + [request.Record().name];
      }
    }
    assert unverified[..|unverified|] == unverified;
    WorkOfSelected(conf, meaning, certs, start, timed);
    ChecksEnd(unverified, certs, Filtering.WorkAfter(conf, meaning, certs, start, timed));
  }

  lemma WorkOfSelected(conf: Conf, meaning: Meaning, certs: seq<CertMatch>, start: Work, timed: seq<Filtering.Timed>)
    requires start.verified == []
    ensures Filtering.WorkAfter(conf, meaning, certs, start, timed).verified == Filtering.Select(conf, meaning, certs, timed, true)
  {
    hide Filtering.Select;
  }

  // ---------------------------------------------------------------- step 3: commit and clean up

  method Cleanup(ghost conf: Conf, ghost meaning: Meaning, world: World, ghost drops: bool, keys: seq<string>,
                 errors: ServerErrors, ghost work: Work)
    returns (ghost places: seq<nat>)
    requires errors.Value() == work.errors && StateAfter(conf, meaning, world.trace) == Some(DeleteState(keys, work))
    requires Answered(world.env, drops, world.trace)
    modifies world, errors
    ensures old(world.trace) <= world.trace && Answered(world.env, drops, world.trace)
    ensures var deletes := world.trace[|old(world.trace)|..];
      && |deletes| == |keys|
      && (forall i :: 0 <= i < |keys| ==> deletes[i] == Event.DeleteObject(keys[i], world.env.delete(|old(world.trace)| + i, keys[i])))
      && old(errors.failedS3Deletions) <= errors.failedS3Deletions
      && PickedFailures(deletes, places, errors.failedS3Deletions[|old(errors.failedS3Deletions)|..])
    ensures errors.failedS3Fetches == old(errors.failedS3Fetches) && errors.failedJsonParses == old(errors.failedJsonParses)
    ensures errors.failedKeyParses == old(errors.failedKeyParses)
    ensures errors.failedSignatureChecks == old(errors.failedSignatureChecks)
    ensures StateAfter(conf, meaning, world.trace) == Some(Finished(!errors.Value().HasErrors(), errors.Value()))
  {
    hide StateAfter, DeleteState, ErrorsAfter, DeletesInOrder, AnsweredAt, Answered, PickedFailures;
    ghost var now, before := work, world.trace;
    assert world.trace[|before|..] == [];
    NoDeletes(work, keys);
    assert keys[0..] == keys;
    for i := 0 to |keys|
      invariant before <= world.trace && Answered(world.env, drops, world.trace)
      invariant |world.trace| == |before| + i && DeletesInOrder(world.trace[|before|..], keys)
      invariant errors.Value() == now.errors && now == work.(errors := ErrorsAfter(work, world.trace[|before|..]))
      invariant StateAfter(conf, meaning, world.trace) == Some(DeleteState(keys[i..], now))
    {
      ghost var sofar := world.trace;
      assert keys[i..][0] == keys[i] && keys[i..][1..] == keys[i + 1..];
      var answer := world.DeleteObject(keys[i]);
      AnsweredSnoc(world.env, drops, sofar, Event.DeleteObject(keys[i], answer));
      DeleteStep(conf, meaning, sofar, keys[i..], now, answer);
      ghost var e := Event.DeleteObject(keys[i], answer);
      assert world.trace[|before|..] == sofar[|before|..] + [e];
      DeletesSnoc(sofar[|before|..], e, keys);
      ErrorsAfterSnoc(work, sofar[|before|..], e);
      if answer.DeleteFailed? || answer.code < 200 || answer.code >= 300 {
        errors.failedS3Deletions := errors.failedS3Deletions + [keys[i]];
        now := FailDelete(now, keys[i]);
      }
    }
    DeletesEnd(keys, now);
    ghost var deletes := world.trace[|before|..];
    assert before + deletes == world.trace;
    places := DeletesAsSaid(world.env, drops, before, deletes, keys, work);
  }

  /** What the deletes of a run are, and which of them failed. */
  lemma DeletesAsSaid(env: Environment, drops: bool, before: seq<Event>, deletes: seq<Event>, keys: seq<string>, work: Work)
    returns (places: seq<nat>)
    requires Answered(env, drops, before + deletes) && DeletesInOrder(deletes, keys) && |deletes| == |keys|
    ensures forall i :: 0 <= i < |keys| ==> deletes[i] == Event.DeleteObject(keys[i], env.delete(|before| + i, keys[i]))
    ensures var errors := ErrorsAfter(work, deletes);
      && errors == work.errors.(deletions := errors.deletions) && work.errors.deletions <= errors.deletions
      && PickedFailures(deletes, places, errors.deletions[|work.errors.deletions|..])
  {
    hide FailedDeletes, PickedFailures;
    forall i | 0 <= i < |keys| ensures deletes[i] == Event.DeleteObject(keys[i], env.delete(|before| + i, keys[i])) {
      assert AnsweredAt(env, drops, |before| + i, (before + deletes)[|before| + i]);
    }
    places := FailedDeletesExact(deletes);
    assert (work.errors.deletions + FailedDeletes(deletes))[|work.errors.deletions|..] == FailedDeletes(deletes);
  }

  /** The trace holds a successful drop, or a commit. */
  predicate PastDrop(trace: seq<Event>) {
    exists i :: 0 <= i < |trace| && (trace[i].Commit? || trace[i] == Event.DropPrivileges(true))
  }

  lemma EarlyOrDropped(trace: seq<Event>, ok: bool)
    requires AllEarly(trace)
    ensures !PastDrop(trace) && (PastDrop(trace + [Event.DropPrivileges(ok)]) ==> ok)
  {
  }

  datatype Exit = Success | Failure | Panic

  /** How a run ended, as its final state says. */
  predicate ExitMatches(s: Server, exit: Exit) {
    match exit
    case Success => s.Finished? && s.ok
    case Failure => s.Finished? && !s.ok
    case Panic => s.Aborted?
  }

  /** Step 3, once it is clear that there is something to write. */
  method CommitAndCleanUp(ghost conf: Conf, ghost meaning: Meaning, world: World, ghost drops: bool,
                          verified: seq<Request>, errors: ServerErrors, ghost work: Work)
    returns (exit: Exit)
    requires verified == work.verified && errors.Value() == work.errors
    requires StateAfter(conf, meaning, world.trace) == Some(Committing(work)) && Answered(world.env, drops, world.trace)
    modifies world, errors
    ensures old(world.trace) <= world.trace && Answered(world.env, drops, world.trace)
    ensures Complete(conf, meaning, world.trace) && ExitMatches(StateAfter(conf, meaning, world.trace).value, exit)
  {
    hide StateAfter, DeleteState, DeleteKeys, BatchOf, RecordsOf, KeysOf, Batch.ToChanges, DeletesInOrder, ErrorsAfter;
    hide AnsweredAt, Answered;
    var changes := Batch.BuildChanges(RecordsOf(verified));
    var deleteKeys := KeysOf(verified) + errors.failedS3Fetches + errors.failedJsonParses;
    DropEnds(conf, work);
    ghost var sofar := world.trace;
    var committed := world.CommitChanges(changes);
    AnsweredSnoc(world.env, drops, sofar, Commit(changes, committed));
    CommitStep(conf, meaning, sofar, work, committed);
    if !committed {
      return Failure;
    }
    ghost var places := Cleanup(conf, meaning, world, drops, deleteKeys, errors, work);
    var ok := errors.PrintSummary();
    return if ok then Success else Failure;
  }

  /** The whole process: its trace is a completed run of the automaton with the answers of this outside, of which there is
      only one; its exit is that run's, and whatever it does after the drop it does with the credentials of the drop. */
  method HandleServer(conf: Conf, meaning: Meaning, world: World, process: Privileges.Process,
                      users: string -> Privileges.Lookup, dropToUser: string, ghost bound: nat)
    returns (exit: Exit)
    requires world.trace == [] && ChainsEnd(world.env, bound)
    modifies world, process
    ensures Complete(conf, meaning, world.trace)
    ensures Answered(world.env, Privileges.DropSucceeds(old(process.Value()), users, dropToUser), world.trace)
    ensures ExitMatches(StateAfter(conf, meaning, world.trace).value, exit)
    ensures PastDrop(world.trace) ==>
      if old(process.euid) != 0 then process.Value() == old(process.Value()) else DroppedTo(users, dropToUser, process.Value())
  {
    hide StateAfter, AfterListing, KeyState, AfterDrop, DeleteState, DeleteKeys, BatchOf, CheckRequest;
    hide Privileges.DropSucceeds, DroppedTo, PastDrop, AllEarly, Filtering.WorkAfter, Filtering.Select, Filtering.Requests;
    hide RecordsOf, KeysOf, Batch.ToChanges, Filtering.NoneAborts, AnsweredAt, Answered;
    ghost var drops := Privileges.DropSucceeds(process.Value(), users, dropToUser);
    var unverified, errors, fetched := FetchDdnsJsonsFromS3(conf, meaning, world, drops, bound);
    ListingEnds(conf, unverified, errors.Value());
    EarlyOrDropped(world.trace, drops);
    if !fetched {
      return Failure;
    }
    if unverified == [] {
      return Success;
    }
    var certs: seq<CertMatch> := [];
    if !conf.policy.skipVerify {
      var found;
      certs, found := GetPublicKeyMap(conf, meaning, world, drops, unverified, errors);
      KeysEnd(certs, unverified, errors.Value());
      EarlyOrDropped(world.trace, drops);
      if !found {
        return Failure;
      }
      if certs == [] {
        return Success;
      }
    }
    var verified, aborted, timed := ValidateUnverifiedDnsRequests(conf, meaning, world, drops, certs, unverified, errors);
    EarlyOrDropped(world.trace, drops);
    if aborted {
      return Panic;
    }
    ghost var work := StateAfter(conf, meaning, world.trace).value.work;
    ghost var checked := world.trace;
    var dropped := world.DropPrivileges(process, users, dropToUser);
    assert Answered(world.env, drops, checked + [Event.DropPrivileges(dropped)]) by {
      DropAnswered(world.env, drops, checked);
    }
    DropStep(conf, meaning, checked, work, dropped);
    DropEnds(conf, work);
    if !dropped {
      return Failure;
    }
    if verified == [] {
      return Success;
    }
    if conf.dryRun {
      return Success;
    }
    exit := CommitAndCleanUp(conf, meaning, world, drops, verified, errors, work);
  }
}
