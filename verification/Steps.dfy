/** Where a trace leads when one event is added, loop by loop. */
module Steps {
  import opened Wrappers
  import opened Text
  import opened Records
  import opened Signing
  import opened Validation
  import opened Machine
  import Batch

  lemma StartsListing(conf: Conf, meaning: Meaning)
    ensures StateAfter(conf, meaning, []) == Some(Listing(None, [], NO_ERRORS))
  {
  }

  lemma ListStep(conf: Conf, meaning: Meaning, trace: seq<Event>, token: Option<string>, unverified: seq<Request>,
                 errors: Errors, page: ListAnswer)
    requires StateAfter(conf, meaning, trace) == Some(Listing(token, unverified, errors))
    ensures StateAfter(conf, meaning, trace + [ListPage(token, page)])
      == Some(if page.ListFailed? then Finished(false, errors) else FetchState(conf, page.keys, page.next, unverified, errors))
    ensures page.Page? ==> page.keys[0..] == page.keys
  {
    hide StateAfter, FetchState;
    StateAfterSnoc(conf, meaning, trace, ListPage(token, page));
  }

  lemma SkipStep(conf: Conf, meaning: Meaning, trace: seq<Event>, keys: seq<string>, next: Option<string>,
                 unverified: seq<Request>, errors: Errors)
    requires keys != [] && !EndsWith(keys[0], DDNS_JSON_FILE_EXT)
    requires StateAfter(conf, meaning, trace) == Some(FetchState(conf, keys, next, unverified, errors))
    ensures StateAfter(conf, meaning, trace + [SkipKey(keys[0])]) == Some(FetchState(conf, keys[1..], next, unverified, errors))
  {
    hide StateAfter, EndsWith, AfterListing;
    StateAfterSnoc(conf, meaning, trace, SkipKey(keys[0]));
  }

  lemma FetchStep(conf: Conf, meaning: Meaning, trace: seq<Event>, keys: seq<string>, next: Option<string>,
                  unverified: seq<Request>, errors: Errors, body: Option<string>)
    requires keys != [] && EndsWith(keys[0], DDNS_JSON_FILE_EXT)
    requires StateAfter(conf, meaning, trace) == Some(FetchState(conf, keys, next, unverified, errors))
    ensures StateAfter(conf, meaning, trace + [GetObject(keys[0], body)])
      == Some(if body.None? then FetchState(conf, keys[1..], next, unverified, errors.(fetches := errors.fetches + [keys[0]]))
              else if ParseUpload(body.value).None? then
                FetchState(conf, keys[1..], next, unverified, errors.(parses := errors.parses + [keys[0]]))
              else FetchState(conf, keys[1..], next, unverified + [Request(ParseUpload(body.value).value, keys[0])], errors))
  {
    hide StateAfter, EndsWith, AfterListing, ParseUpload;
    StateAfterSnoc(conf, meaning, trace, GetObject(keys[0], body));
  }

  lemma PageDone(conf: Conf, keys: seq<string>, next: Option<string>, unverified: seq<Request>, errors: Errors)
    ensures FetchState(conf, keys[|keys|..], next, unverified, errors)
      == if next.Some? then Listing(next, unverified, errors) else AfterListing(conf, unverified, errors)
  {
  }

  lemma OpenStep(conf: Conf, meaning: Meaning, trace: seq<Event>, unverified: seq<Request>, errors: Errors,
                 names: Option<seq<string>>)
    requires StateAfter(conf, meaning, trace) == Some(OpeningKeys(unverified, errors))
    ensures StateAfter(conf, meaning, trace + [OpenKeyDirectory(names)])
      == Some(if names.None? then Finished(false, errors) else KeyState(names.value, [], unverified, errors))
    ensures names.Some? ==> names.value[0..] == names.value
  {
    hide StateAfter, KeyState;
    StateAfterSnoc(conf, meaning, trace, OpenKeyDirectory(names));
  }

  lemma ReadStep(conf: Conf, meaning: Meaning, trace: seq<Event>, files: seq<string>, certs: seq<CertMatch>,
                 unverified: seq<Request>, errors: Errors, file: KeyFileAnswer)
    requires files != [] && StateAfter(conf, meaning, trace) == Some(KeyState(files, certs, unverified, errors))
    ensures StateAfter(conf, meaning, trace + [ReadKeyFile(files[0], file)])
      == Some(match file
              case Unreadable => Finished(false, errors)
              case Malformed => KeyState(files[1..], certs, unverified, errors.(keyFiles := errors.keyFiles + [files[0]]))
              case Certificate(cert) => KeyState(files[1..], certs + [cert], unverified, errors))
  {
    hide StateAfter;
    StateAfterSnoc(conf, meaning, trace, ReadKeyFile(files[0], file));
  }

  lemma CheckStarts(pending: seq<Request>, certs: seq<CertMatch>, work: Work)
    requires pending != []
    ensures CheckState(pending, certs, work) == Checking(pending, certs, work)
  {
  }

  lemma ChecksEnd(pending: seq<Request>, certs: seq<CertMatch>, work: Work)
    ensures CheckState(pending[|pending|..], certs, work) == Dropping(work)
  {
  }

  lemma CheckStep(conf: Conf, meaning: Meaning, trace: seq<Event>, pending: seq<Request>, certs: seq<CertMatch>,
                  work: Work, now: int)
    requires pending != [] && StateAfter(conf, meaning, trace) == Some(CheckState(pending, certs, work))
    ensures StateAfter(conf, meaning, trace + [CheckOne(now)])
      == Some(match CheckRequest(meaning, certs, pending[0].payload, conf.policy, now)
              case Valid => CheckState(pending[1..], certs, Accept(work, pending[0]))
              case Invalid(_) => CheckState(pending[1..], certs, Reject(work, pending[0]))
              case Abort => Aborted)
  {
    hide StateAfter, CheckRequest;
    StateAfterSnoc(conf, meaning, trace, CheckOne(now));
  }

  lemma DeleteStep(conf: Conf, meaning: Meaning, trace: seq<Event>, keys: seq<string>, work: Work, answer: DeleteAnswer)
    requires keys != [] && StateAfter(conf, meaning, trace) == Some(DeleteState(keys, work))
    ensures StateAfter(conf, meaning, trace + [DeleteObject(keys[0], answer)])
      == Some(DeleteState(keys[1..], if Deleted(answer) then work else FailDelete(work, keys[0])))
  {
    hide StateAfter, Deleted, FailDelete;
    StateAfterSnoc(conf, meaning, trace, DeleteObject(keys[0], answer));
  }

  lemma DeletesEnd(keys: seq<string>, work: Work)
    ensures DeleteState(keys[|keys|..], work) == Finished(!work.errors.HasErrors(), work.errors)
  {
  }

  lemma DropStep(conf: Conf, meaning: Meaning, trace: seq<Event>, work: Work, ok: bool)
    requires StateAfter(conf, meaning, trace) == Some(Dropping(work))
    ensures StateAfter(conf, meaning, trace + [DropPrivileges(ok)])
      == Some(if !ok then Finished(false, work.errors) else AfterDrop(conf, work))
  {
    hide StateAfter, AfterDrop;
    StateAfterSnoc(conf, meaning, trace, DropPrivileges(ok));
  }

  lemma CommitStep(conf: Conf, meaning: Meaning, trace: seq<Event>, work: Work, ok: bool)
    requires StateAfter(conf, meaning, trace) == Some(Committing(work))
    ensures StateAfter(conf, meaning, trace + [Commit(BatchOf(work), ok)])
      == Some(if !ok then Finished(false, work.errors) else DeleteState(DeleteKeys(work), work))
  {
    hide StateAfter, BatchOf, DeleteKeys, DeleteState;
    StateAfterSnoc(conf, meaning, trace, Commit(BatchOf(work), ok));
  }

  lemma ListingEnds(conf: Conf, unverified: seq<Request>, errors: Errors)
    ensures var s := AfterListing(conf, unverified, errors);
      if unverified == [] then s == Finished(true, errors)
      else if conf.policy.skipVerify then s == Checking(unverified, [], Work([], [], errors))
      else s == OpeningKeys(unverified, errors)
  {
  }

  lemma KeysEnd(certs: seq<CertMatch>, unverified: seq<Request>, errors: Errors)
    ensures var s := KeyState([], certs, unverified, errors);
      if certs == [] then s == Finished(true, errors) else s == Checking(unverified, certs, Work([], [], errors))
  {
  }

  lemma DropEnds(conf: Conf, work: Work)
    ensures if work.verified == [] || conf.dryRun then AfterDrop(conf, work) == Finished(true, work.errors)
            else AfterDrop(conf, work) == Committing(work)
    ensures BatchOf(work) == Batch.ToChanges(RecordsOf(work.verified))
    ensures DeleteKeys(work) == KeysOf(work.verified) + work.errors.fetches + work.errors.parses
  {
  }
}
