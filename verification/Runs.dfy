/** Whole server runs, written out for any pages, objects and key files. */
module Runs {
  import opened Wrappers
  import opened Text
  import opened Signing
  import opened Validation
  import opened Machine
  import opened Flow
  import opened Filtering
  import opened PhaseOrder
  import Steps

  // ---------------------------------------------------------------- what the run finds

  /** A page of a listing, and the token under which it is asked for if it is not the first. */
  datatype ListedPage = ListedPage(keys: seq<string>, token: string)

  /** A file of the key directory; without a certificate it is malformed. */
  datatype KeyFile = KeyFile(name: string, cert: Option<CertMatch>)

  /** What fetching an object gives. */
  type Store = string -> Option<string>

  function TokenOf(pages: seq<ListedPage>, i: nat): Option<string> {
    if 0 < i < |pages| then Some(pages[i].token) else None
  }

  function KeysOfPages(pages: seq<ListedPage>): seq<string> {
    if pages == [] then [] else KeysOfPages(pages[..|pages| - 1]) + pages[|pages| - 1].keys
  }

  function CertsFrom(files: seq<KeyFile>): seq<CertMatch> {
    if files == [] then [] else
      var last := files[|files| - 1];
      CertsFrom(files[..|files| - 1]) + if last.cert.Some? then [last.cert.value] else []
  }

  // ---------------------------------------------------------------- the events

  function KeyEvent(store: Store, key: string): Event {
    if EndsWith(key, ".ddns.json") then GetObject(key, store(key)) else SkipKey(key)
  }

  function KeyEvents(store: Store, keys: seq<string>): seq<Event> {
    seq(|keys|, i requires 0 <= i < |keys| => KeyEvent(store, keys[i]))
  }

  function PageEvent(pages: seq<ListedPage>, i: nat): Event
    requires i < |pages|
  {
    ListPage(TokenOf(pages, i), Page(pages[i].keys, TokenOf(pages, i + 1)))
  }

  /** Listing and fetching the first `n` pages. */
  function ListEvents(pages: seq<ListedPage>, store: Store, n: nat): seq<Event>
    requires n <= |pages|
  {
    if n == 0 then [] else ListEvents(pages, store, n - 1) + ([PageEvent(pages, n - 1)] + KeyEvents(store, pages[n - 1].keys))
  }

  function FileEvent(file: KeyFile): Event {
    ReadKeyFile(file.name, if file.cert.Some? then Certificate(file.cert.value) else Malformed)
  }

  function FileEvents(files: seq<KeyFile>): seq<Event> {
    seq(|files|, i requires 0 <= i < |files| => FileEvent(files[i]))
  }

  function FileNames(files: seq<KeyFile>): seq<string> {
    seq(|files|, i requires 0 <= i < |files| => files[i].name)
  }

  /** Everything up to the checks. */
  function ReadEvents(pages: seq<ListedPage>, store: Store, files: seq<KeyFile>): seq<Event> {
    ListEvents(pages, store, |pages|) + ([OpenKeyDirectory(Some(FileNames(files)))] + FileEvents(files))
  }

  function DeleteEvents(keys: seq<string>): seq<Event> {
    seq(|keys|, i requires 0 <= i < |keys| => DeleteObject(keys[i], Status(204)))
  }

  function EndEvents(work: Work): seq<Event> {
    [DropPrivileges(true), Commit(BatchOf(work), true)] + DeleteEvents(DeleteKeys(work))
  }

  // ---------------------------------------------------------------- errors so far

  function BadFileBy(e: Event): seq<string> {
    if e.ReadKeyFile? && e.file.Malformed? then [e.name] else []
  }

  function BadFilesIn(trace: seq<Event>): seq<string> {
    if trace == [] then [] else BadFilesIn(trace[..|trace| - 1]) + BadFileBy(trace[|trace| - 1])
  }

  function ErrorsIn(trace: seq<Event>): Errors {
    Errors(MissedIn(trace), MisreadIn(trace), BadFilesIn(trace), [], [])
  }

  /** Where the fetch loop stands after this trace. */
  function FetchAt(conf: Conf, keys: seq<string>, next: Option<string>, trace: seq<Event>): Server {
    FetchState(conf, keys, next, FetchedIn(trace), ErrorsIn(trace))
  }

  /** Where the loop over the key files stands. */
  function FilesAt(names: seq<string>, trace: seq<Event>): Server {
    KeyState(names, CertsIn(trace), FetchedIn(trace), ErrorsIn(trace))
  }

  /** What one more event adds. */
  lemma Adds(trace: seq<Event>, e: Event)
    ensures FetchedIn(trace + [e]) == FetchedIn(trace) + FetchedBy(e)
    ensures CertsIn(trace + [e]) == CertsIn(trace) + ReadBy(e)
    ensures ErrorsIn(trace + [e]) == Errors(MissedIn(trace) + MissedBy(e), MisreadIn(trace) + MisreadBy(e),
                                            BadFilesIn(trace) + BadFileBy(e), [], [])
  {
    hide FetchedBy, ReadBy, MissedBy, MisreadBy, BadFileBy;
    assert (trace + [e])[..|trace|] == trace;
  }

  lemma AddsNothing(trace: seq<Event>, e: Event)
    requires !e.GetObject? && !e.ReadKeyFile?
    ensures FetchedIn(trace + [e]) == FetchedIn(trace) && CertsIn(trace + [e]) == CertsIn(trace)
    ensures ErrorsIn(trace + [e]) == ErrorsIn(trace)
  {
    hide FetchedIn, CertsIn, MissedIn, MisreadIn, BadFilesIn;
    Adds(trace, e);
  }

  lemma AppendNothing(trace: seq<Event>)
    ensures FetchedIn(trace) + [] == FetchedIn(trace) && CertsIn(trace) + [] == CertsIn(trace)
    ensures MissedIn(trace) + [] == MissedIn(trace) && MisreadIn(trace) + [] == MisreadIn(trace)
    ensures BadFilesIn(trace) + [] == BadFilesIn(trace)
  {
    hide FetchedIn, CertsIn, MissedIn, MisreadIn, BadFilesIn;
  }

  // ---------------------------------------------------------------- listing and fetching

  lemma KeyStep(conf: Conf, meaning: Meaning, store: Store, trace: seq<Event>, keys: seq<string>, next: Option<string>)
    requires keys != [] && StateAfter(conf, meaning, trace) == Some(FetchAt(conf, keys, next, trace))
    ensures var e := KeyEvent(store, keys[0]);
      StateAfter(conf, meaning, trace + [e]) == Some(FetchAt(conf, keys[1..], next, trace + [e]))
  {
    hide StateAfter, FetchState, EndsWith, FetchedIn, MissedIn, MisreadIn, BadFilesIn, ParseUpload;
    var e := KeyEvent(store, keys[0]);
    Adds(trace, e);
    AppendNothing(trace);
    if EndsWith(keys[0], ".ddns.json") {
      Steps.FetchStep(conf, meaning, trace, keys, next, FetchedIn(trace), ErrorsIn(trace), store(keys[0]));
    } else {
      Steps.SkipStep(conf, meaning, trace, keys, next, FetchedIn(trace), ErrorsIn(trace));
    }
  }

  lemma {:induction false} KeysLoop(conf: Conf, meaning: Meaning, store: Store, trace: seq<Event>, keys: seq<string>,
                                    next: Option<string>, k: nat)
    requires k <= |keys| && StateAfter(conf, meaning, trace) == Some(FetchAt(conf, keys, next, trace))
    ensures var trace' := trace + KeyEvents(store, keys[..k]);
      StateAfter(conf, meaning, trace') == Some(FetchAt(conf, keys[k..], next, trace'))
  {
    hide StateAfter, FetchAt, KeyEvent;
    if k == 0 {
      assert trace + KeyEvents(store, keys[..0]) == trace && keys[0..] == keys;
    } else {
      KeysLoop(conf, meaning, store, trace, keys, next, k - 1);
      var sofar := trace + KeyEvents(store, keys[..k - 1]);
      KeyStep(conf, meaning, store, sofar, keys[k - 1..], next);
      assert keys[k - 1..][0] == keys[k - 1] && keys[k - 1..][1..] == keys[k..];
      assert trace + KeyEvents(store, keys[..k]) == sofar + [KeyEvent(store, keys[k - 1])];
    }
  }

  /** Where the page loop stands after `n` pages. */
  function PagesAt(conf: Conf, pages: seq<ListedPage>, n: nat, trace: seq<Event>): Server {
    if n < |pages| then Listing(TokenOf(pages, n), FetchedIn(trace), ErrorsIn(trace))
    else AfterListing(conf, FetchedIn(trace), ErrorsIn(trace))
  }

  lemma {:induction false} PagesLoop(conf: Conf, meaning: Meaning, pages: seq<ListedPage>, store: Store, n: nat)
    requires pages != [] && n <= |pages|
    ensures var trace := ListEvents(pages, store, n);
      StateAfter(conf, meaning, trace) == Some(PagesAt(conf, pages, n, trace))
  {
    hide StateAfter, PagesAt, PageEvent, KeyEvents;
    if n == 0 {
      Steps.StartsListing(conf, meaning);
      PagesStart(conf, pages);
    } else {
      PagesLoop(conf, meaning, pages, store, n - 1);
      PageStep(conf, meaning, pages, store, n - 1);
    }
  }

  lemma PagesStart(conf: Conf, pages: seq<ListedPage>)
    requires pages != []
    ensures PagesAt(conf, pages, 0, []) == Listing(None, [], NO_ERRORS)
  {
  }

  lemma PageStep(conf: Conf, meaning: Meaning, pages: seq<ListedPage>, store: Store, i: nat)
    requires i < |pages|
    requires var trace := ListEvents(pages, store, i); StateAfter(conf, meaning, trace) == Some(PagesAt(conf, pages, i, trace))
    ensures var trace := ListEvents(pages, store, i + 1);
      StateAfter(conf, meaning, trace) == Some(PagesAt(conf, pages, i + 1, trace))
  {
    hide StateAfter, FetchState, AfterListing, KeyEvents, FetchedIn, ErrorsIn, ListEvents;
    var before, e, keys := ListEvents(pages, store, i), PageEvent(pages, i), pages[i].keys;
    Steps.ListStep(conf, meaning, before, TokenOf(pages, i), FetchedIn(before), ErrorsIn(before), e.page);
    AddsNothing(before, e);
    KeysLoop(conf, meaning, store, before + [e], keys, TokenOf(pages, i + 1), |keys|);
    assert keys[..|keys|] == keys;
    var after := before + [e] + KeyEvents(store, keys);
    Steps.PageDone(conf, keys, TokenOf(pages, i + 1), FetchedIn(after), ErrorsIn(after));
    ListEventsNext(pages, store, i);
  }

  lemma ListEventsNext(pages: seq<ListedPage>, store: Store, i: nat)
    requires i < |pages|
    ensures ListEvents(pages, store, i + 1)
      == ListEvents(pages, store, i) + [PageEvent(pages, i)] + KeyEvents(store, pages[i].keys)
  {
    hide KeyEvents, PageEvent;
  }

  // ---------------------------------------------------------------- key files

  lemma FileStep(conf: Conf, meaning: Meaning, files: seq<KeyFile>, trace: seq<Event>)
    requires files != [] && StateAfter(conf, meaning, trace) == Some(FilesAt(FileNames(files), trace))
    ensures var e := FileEvent(files[0]);
      StateAfter(conf, meaning, trace + [e]) == Some(FilesAt(FileNames(files[1..]), trace + [e]))
  {
    hide StateAfter, KeyState, FetchedIn, CertsIn, MissedIn, MisreadIn, BadFilesIn;
    var e := FileEvent(files[0]);
    Adds(trace, e);
    AppendNothing(trace);
    Steps.ReadStep(conf, meaning, trace, FileNames(files), CertsIn(trace), FetchedIn(trace), ErrorsIn(trace), e.file);
    assert FileNames(files)[1..] == FileNames(files[1..]);
  }

  lemma {:induction false} FilesLoop(conf: Conf, meaning: Meaning, files: seq<KeyFile>, trace: seq<Event>, k: nat)
    requires k <= |files| && StateAfter(conf, meaning, trace) == Some(FilesAt(FileNames(files), trace))
    ensures var trace' := trace + FileEvents(files[..k]);
      StateAfter(conf, meaning, trace') == Some(FilesAt(FileNames(files[k..]), trace'))
  {
    hide StateAfter, FilesAt, FileEvent, FileNames;
    if k == 0 {
      assert trace + FileEvents(files[..0]) == trace && files[0..] == files;
    } else {
      FilesLoop(conf, meaning, files, trace, k - 1);
      var sofar := trace + FileEvents(files[..k - 1]);
      FileStep(conf, meaning, files[k - 1..], sofar);
      assert files[k - 1..][0] == files[k - 1] && files[k - 1..][1..] == files[k..];
      assert trace + FileEvents(files[..k]) == sofar + [FileEvent(files[k - 1])];
    }
  }

  lemma {:induction false} CertsRead(files: seq<KeyFile>, trace: seq<Event>)
    requires CertsIn(trace) == []
    ensures CertsIn(trace + FileEvents(files)) == CertsFrom(files)
    ensures FetchedIn(trace + FileEvents(files)) == FetchedIn(trace)
    ensures MissedIn(trace + FileEvents(files)) == MissedIn(trace) && MisreadIn(trace + FileEvents(files)) == MisreadIn(trace)
  {
    hide CertsIn, FetchedIn, MissedIn, MisreadIn, BadFilesIn;
    if files == [] {
      assert trace + FileEvents(files) == trace;
    } else {
      var front, last := files[..|files| - 1], files[|files| - 1];
      CertsRead(front, trace);
      Adds(trace + FileEvents(front), FileEvent(last));
      assert trace + FileEvents(files) == trace + FileEvents(front) + [FileEvent(last)];
    }
  }

  // ---------------------------------------------------------------- the whole run

  /** The requests that are fetched and can be read, in the order of the listing. */
  function Found(pages: seq<ListedPage>, store: Store): seq<Request> {
    FetchedIn(ListEvents(pages, store, |pages|))
  }

  function AllAt(rs: seq<Request>, now: int): seq<Timed> {
    seq(|rs|, i requires 0 <= i < |rs| => Timed(rs[i], now))
  }

  /** The work at the end of the checks, if none aborts. */
  function WorkOfRun(conf: Conf, meaning: Meaning, pages: seq<ListedPage>, store: Store, files: seq<KeyFile>, now: int): Work {
    WorkAfter(conf, meaning, CertsFrom(files), Work([], [], ErrorsIn(ReadEvents(pages, store, files))),
              AllAt(Found(pages, store), now))
  }

  function OpenEvents(pages: seq<ListedPage>, store: Store, files: seq<KeyFile>): seq<Event> {
    ListEvents(pages, store, |pages|) + [OpenKeyDirectory(Some(FileNames(files)))]
  }

  lemma OpenState(conf: Conf, meaning: Meaning, pages: seq<ListedPage>, store: Store, files: seq<KeyFile>)
    requires !conf.policy.skipVerify && pages != [] && Found(pages, store) != []
    ensures var open := OpenEvents(pages, store, files);
      && StateAfter(conf, meaning, open) == Some(FilesAt(FileNames(files), open))
      && FetchedIn(open) == Found(pages, store) && CertsIn(open) == []
  {
    hide StateAfter, FetchedIn, CertsIn, MissedIn, MisreadIn, BadFilesIn, ListEvents, FileNames, KeyState;
    var list, names := ListEvents(pages, store, |pages|), FileNames(files);
    PagesLoop(conf, meaning, pages, store, |pages|);
    ListReadsNoKeys(pages, store);
    Steps.OpenStep(conf, meaning, list, FetchedIn(list), ErrorsIn(list), Some(names));
    AddsNothing(list, OpenKeyDirectory(Some(names)));
  }

  lemma ReadEventsAre(pages: seq<ListedPage>, store: Store, files: seq<KeyFile>)
    ensures ReadEvents(pages, store, files) == OpenEvents(pages, store, files) + FileEvents(files)
    ensures FetchedIn(ReadEvents(pages, store, files)) == Found(pages, store)
    ensures CertsIn(ReadEvents(pages, store, files)) == CertsFrom(files)
  {
    hide FetchedIn, CertsIn, ErrorsIn, ListEvents, FileEvents, FileNames, CertsFrom;
    var open := OpenEvents(pages, store, files);
    ListReadsNoKeys(pages, store);
    AddsNothing(ListEvents(pages, store, |pages|), OpenKeyDirectory(Some(FileNames(files))));
    CertsRead(files, open);
    AssocEvents(ListEvents(pages, store, |pages|), [OpenKeyDirectory(Some(FileNames(files)))], FileEvents(files));
  }

  lemma AssocEvents(a: seq<Event>, b: seq<Event>, c: seq<Event>)
    ensures a + (b + c) == a + b + c
  {
  }

  lemma ReadState(conf: Conf, meaning: Meaning, pages: seq<ListedPage>, store: Store, files: seq<KeyFile>)
    requires !conf.policy.skipVerify && pages != [] && Found(pages, store) != []
    ensures var read, rs, certs := ReadEvents(pages, store, files), Found(pages, store), CertsFrom(files);
      StateAfter(conf, meaning, read)
        == Some(if certs == [] then Finished(true, ErrorsIn(read)) else Checking(rs, certs, Work([], [], ErrorsIn(read))))
  {
    hide StateAfter, FetchedIn, CertsIn, ErrorsIn, FileEvents, FileNames, FilesAt, CertsFrom, ReadEvents, OpenEvents, Found;
    OpenState(conf, meaning, pages, store, files);
    FilesLoop(conf, meaning, files, OpenEvents(pages, store, files), |files|);
    ReadEventsAre(pages, store, files);
    assert files[..|files|] == files && files[|files|..] == [];
    FilesDone(ReadEvents(pages, store, files));
  }

  lemma FilesDone(trace: seq<Event>)
    ensures FilesAt(FileNames([]), trace)
      == if CertsIn(trace) == [] then Finished(true, ErrorsIn(trace))
         else Checking(FetchedIn(trace), CertsIn(trace), Work([], [], ErrorsIn(trace)))
  {
    hide FetchedIn, CertsIn, ErrorsIn;
    assert FileNames([]) == [];
  }

  lemma InKeyEvents(store: Store, keys: seq<string>, e: Event)
    ensures e in KeyEvents(store, keys) <==> exists k :: k in keys && e == KeyEvent(store, k)
  {
    hide KeyEvent;
    if e in KeyEvents(store, keys) {
      var i :| 0 <= i < |keys| && KeyEvents(store, keys)[i] == e;
      assert keys[i] in keys;
    }
    if k :| k in keys && e == KeyEvent(store, k) {
      var i :| 0 <= i < |keys| && keys[i] == k;
      assert KeyEvents(store, keys)[i] == e;
    }
  }

  /** The events of a listing are its pages and one event for each key. */
  lemma {:induction false} InListEvents(pages: seq<ListedPage>, store: Store, n: nat, e: Event)
    requires n <= |pages|
    ensures e in ListEvents(pages, store, n) <==>
      (exists i :: 0 <= i < n && e == PageEvent(pages, i)) || (exists k :: k in KeysOfPages(pages[..n]) && e == KeyEvent(store, k))
  {
    hide PageEvent, KeyEvents, KeyEvent;
    if n > 0 {
      InListEvents(pages, store, n - 1, e);
      InKeyEvents(store, pages[n - 1].keys, e);
      assert pages[..n][..n - 1] == pages[..n - 1];
    }
  }

  lemma ListReadsNoKeys(pages: seq<ListedPage>, store: Store)
    ensures CertsIn(ListEvents(pages, store, |pages|)) == []
  {
    hide EndsWith, ListEvents, CertsIn;
    var list := ListEvents(pages, store, |pages|);
    forall e | e in list ensures !e.ReadKeyFile? {
      InListEvents(pages, store, |pages|, e);
    }
    NoKeysRead(list);
  }

  lemma {:induction false} NoKeysRead(trace: seq<Event>)
    requires forall e :: e in trace ==> !e.ReadKeyFile?
    ensures CertsIn(trace) == []
  {
    if trace != [] {
      NoKeysRead(trace[..|trace| - 1]);
    }
  }

  /** The checks, up to the first that aborts. */
  lemma CheckedState(conf: Conf, meaning: Meaning, pages: seq<ListedPage>, store: Store, files: seq<KeyFile>, now: int)
    requires !conf.policy.skipVerify && pages != [] && Found(pages, store) != [] && CertsFrom(files) != []
    ensures var read, ts := ReadEvents(pages, store, files), AllAt(Found(pages, store), now);
      var k := FirstAbort(conf, meaning, CertsFrom(files), ts);
      if k < |ts| then StateAfter(conf, meaning, read + Checks(ts[..k + 1])) == Some(Aborted)
      else StateAfter(conf, meaning, read + Checks(ts)) == Some(Dropping(WorkOfRun(conf, meaning, pages, store, files, now)))
  {
    hide StateAfter, ReadEvents, Found, CertsFrom, WorkAfter, CheckOf;
    var read, rs, certs := ReadEvents(pages, store, files), Found(pages, store), CertsFrom(files);
    var ts := AllAt(rs, now);
    var k := FirstAbort(conf, meaning, certs, ts);
    ReadState(conf, meaning, pages, store, files);
    assert Requests(ts) == rs;
    LoopIsFilter(conf, meaning, read, certs, Work([], [], ErrorsIn(read)), ts, k);
    assert ts[..|ts|] == ts && Requests(ts[|ts|..]) == [];
  }

  lemma {:induction false} DeletesLoop(conf: Conf, meaning: Meaning, trace: seq<Event>, keys: seq<string>, work: Work, k: nat)
    requires k <= |keys| && StateAfter(conf, meaning, trace) == Some(DeleteState(keys, work))
    ensures StateAfter(conf, meaning, trace + DeleteEvents(keys[..k])) == Some(DeleteState(keys[k..], work))
  {
    hide StateAfter, DeleteState;
    if k == 0 {
      assert trace + DeleteEvents(keys[..0]) == trace && keys[0..] == keys;
    } else {
      DeletesLoop(conf, meaning, trace, keys, work, k - 1);
      var sofar := trace + DeleteEvents(keys[..k - 1]);
      Steps.DeleteStep(conf, meaning, sofar, keys[k - 1..], work, Status(204));
      assert keys[k - 1..][0] == keys[k - 1] && keys[k - 1..][1..] == keys[k..];
      assert trace + DeleteEvents(keys[..k]) == sofar + [DeleteObject(keys[k - 1], Status(204))];
    }
  }

  /** Drop, commit and deletes, when all of them succeed. */
  lemma EndState(conf: Conf, meaning: Meaning, trace: seq<Event>, work: Work)
    requires !conf.dryRun && work.verified != [] && StateAfter(conf, meaning, trace) == Some(Dropping(work))
    ensures StateAfter(conf, meaning, trace + EndEvents(work)) == Some(Finished(!work.errors.HasErrors(), work.errors))
  {
    hide StateAfter, DeleteKeys, BatchOf, DeleteState, DeleteEvents;
    var drop, commit, keys := DropPrivileges(true), Commit(BatchOf(work), true), DeleteKeys(work);
    Steps.DropStep(conf, meaning, trace, work, true);
    Steps.CommitStep(conf, meaning, trace + [drop], work, true);
    DeletesLoop(conf, meaning, trace + [drop] + [commit], keys, work, |keys|);
    Steps.DeletesEnd(keys, work);
    assert keys[..|keys|] == keys;
    assert trace + EndEvents(work) == trace + [drop] + [commit] + DeleteEvents(keys);
  }

  /** The run that meets no failure but what the store and the key files hold. */
  function RunEvents(conf: Conf, meaning: Meaning, pages: seq<ListedPage>, store: Store, files: seq<KeyFile>,
                     now: int): seq<Event> {
    var rs, certs := Found(pages, store), CertsFrom(files);
    var ts := AllAt(rs, now);
    var k := FirstAbort(conf, meaning, certs, ts);
    var work := WorkOfRun(conf, meaning, pages, store, files, now);
    if rs == [] then ListEvents(pages, store, |pages|)
    else if certs == [] then ReadEvents(pages, store, files)
    else if k < |ts| then ReadEvents(pages, store, files) + Checks(ts[..k + 1])
    else if conf.dryRun || work.verified == [] then ReadEvents(pages, store, files) + Checks(ts) + [DropPrivileges(true)]
    else ReadEvents(pages, store, files) + Checks(ts) + EndEvents(work)
  }

  /** How that run ends. */
  function RunEnd(conf: Conf, meaning: Meaning, pages: seq<ListedPage>, store: Store, files: seq<KeyFile>, now: int): Server {
    var rs, certs := Found(pages, store), CertsFrom(files);
    var ts := AllAt(rs, now);
    var work := WorkOfRun(conf, meaning, pages, store, files, now);
    if rs == [] then Finished(true, ErrorsIn(ListEvents(pages, store, |pages|)))
    else if certs == [] then Finished(true, ErrorsIn(ReadEvents(pages, store, files)))
    else if FirstAbort(conf, meaning, certs, ts) < |ts| then Aborted
    else if conf.dryRun || work.verified == [] then Finished(true, work.errors)
    else Finished(!work.errors.HasErrors(), work.errors)
  }

  lemma RunEnds(conf: Conf, meaning: Meaning, pages: seq<ListedPage>, store: Store, files: seq<KeyFile>, now: int)
    requires !conf.policy.skipVerify && pages != []
    ensures StateAfter(conf, meaning, RunEvents(conf, meaning, pages, store, files, now))
      == Some(RunEnd(conf, meaning, pages, store, files, now))
  {
    hide StateAfter, ListEvents, ReadEvents, CertsFrom, WorkOfRun, CheckOf, EndEvents, Checks, AllAt, ErrorsIn, FetchedIn;
    if Found(pages, store) == [] {
      PagesLoop(conf, meaning, pages, store, |pages|);
    } else if CertsFrom(files) == [] {
      ReadState(conf, meaning, pages, store, files);
    } else {
      CheckedState(conf, meaning, pages, store, files, now);
      var work := WorkOfRun(conf, meaning, pages, store, files, now);
      var checked := ReadEvents(pages, store, files) + Checks(AllAt(Found(pages, store), now));
      if StateAfter(conf, meaning, checked) == Some(Dropping(work)) {
        Steps.DropStep(conf, meaning, checked, work, true);
        if !conf.dryRun && work.verified != [] {
          EndState(conf, meaning, checked, work);
        }
      }
    }
  }

  // ---------------------------------------------------------------- what is found

  /** The requests found are exactly the listed objects with the suffix that are served and can be read. */
  lemma FoundExact(pages: seq<ListedPage>, store: Store, r: Request)
    ensures r in Found(pages, store) <==>
      && r.s3Key in KeysOfPages(pages) && EndsWith(r.s3Key, ".ddns.json")
      && store(r.s3Key).Some? && ParseUpload(store(r.s3Key).value) == Some(r.payload)
  {
    hide EndsWith, ParseUpload, ListEvents, FetchedIn, KeysOfPages;
    var list, e := ListEvents(pages, store, |pages|), KeyEvent(store, r.s3Key);
    InFetched(list, r);
    InListEvents(pages, store, |pages|, e);
    assert pages[..|pages|] == pages;
    forall e' | e' in list && r in FetchedBy(e') ensures e' == e && r.s3Key in KeysOfPages(pages) {
      InListEvents(pages, store, |pages|, e');
    }
  }

  lemma MissedExact(pages: seq<ListedPage>, store: Store, files: seq<KeyFile>, key: string)
    ensures key in MissedIn(ReadEvents(pages, store, files)) <==>
      key in KeysOfPages(pages) && EndsWith(key, ".ddns.json") && store(key).None?
  {
    hide EndsWith, ParseUpload, ListEvents, MissedIn, KeysOfPages, ReadEvents;
    var list, e := ListEvents(pages, store, |pages|), KeyEvent(store, key);
    SameAsListed(pages, store, files);
    InMissed(list, key);
    InListEvents(pages, store, |pages|, e);
    assert pages[..|pages|] == pages;
    forall e' | e' in list && key in MissedBy(e') ensures e' == e && key in KeysOfPages(pages) {
      InListEvents(pages, store, |pages|, e');
    }
  }

  lemma MisreadExact(pages: seq<ListedPage>, store: Store, files: seq<KeyFile>, key: string)
    ensures key in MisreadIn(ReadEvents(pages, store, files)) <==>
      && key in KeysOfPages(pages) && EndsWith(key, ".ddns.json")
      && store(key).Some? && ParseUpload(store(key).value).None?
  {
    hide EndsWith, ParseUpload, ListEvents, MisreadIn, KeysOfPages, ReadEvents;
    var list, e := ListEvents(pages, store, |pages|), KeyEvent(store, key);
    SameAsListed(pages, store, files);
    InMisread(list, key);
    InListEvents(pages, store, |pages|, e);
    assert pages[..|pages|] == pages;
    forall e' | e' in list && key in MisreadBy(e') ensures e' == e && key in KeysOfPages(pages) {
      InListEvents(pages, store, |pages|, e');
    }
  }

  lemma SameAsListed(pages: seq<ListedPage>, store: Store, files: seq<KeyFile>)
    ensures MissedIn(ReadEvents(pages, store, files)) == MissedIn(ListEvents(pages, store, |pages|))
    ensures MisreadIn(ReadEvents(pages, store, files)) == MisreadIn(ListEvents(pages, store, |pages|))
  {
    hide FetchedIn, CertsIn, MissedIn, MisreadIn, BadFilesIn, ListEvents, FileEvents, FileNames, CertsFrom;
    var list, open := ListEvents(pages, store, |pages|), OpenKeyDirectory(Some(FileNames(files)));
    ListReadsNoKeys(pages, store);
    AddsNothing(list, open);
    CertsRead(files, list + [open]);
    ReadEventsAre(pages, store, files);
  }

  lemma {:induction false} InCerts(files: seq<KeyFile>, i: nat)
    requires i < |files| && files[i].cert.Some?
    ensures files[i].cert.value in CertsFrom(files)
  {
    if i < |files| - 1 {
      InCerts(files[..|files| - 1], i);
    }
  }

  /** What the events of a run carry. */
  predicate Carries(store: Store, files: seq<KeyFile>, now: int, e: Event) {
    && (e.GetObject? ==> e.body == store(e.key))
    && (e.CheckOne? ==> e.now == now)
    && (e.ReadKeyFile? && e.file.Certificate? ==> e.file.cert in CertsFrom(files))
  }

  lemma ReadCarries(pages: seq<ListedPage>, store: Store, files: seq<KeyFile>, now: int, e: Event)
    requires e in ReadEvents(pages, store, files)
    ensures Carries(store, files, now, e) && Early(e)
  {
    hide EndsWith, ListEvents, CertsFrom, FileEvents, FileNames;
    if e in ListEvents(pages, store, |pages|) {
      InListEvents(pages, store, |pages|, e);
    } else if e in FileEvents(files) {
      FileCarries(store, files, now, e);
    }
  }

  lemma FileCarries(store: Store, files: seq<KeyFile>, now: int, e: Event)
    requires e in FileEvents(files)
    ensures Carries(store, files, now, e) && Early(e)
  {
    hide CertsFrom;
    var i :| 0 <= i < |files| && FileEvents(files)[i] == e;
    if files[i].cert.Some? {
      InCerts(files, i);
    }
  }

  lemma ChecksCarry(rs: seq<Request>, store: Store, files: seq<KeyFile>, now: int, k: nat, e: Event)
    requires k <= |rs| && e in Checks(AllAt(rs, now)[..k])
    ensures Carries(store, files, now, e) && Early(e)
  {
    hide CertsFrom;
  }

  lemma EndCarries(work: Work, store: Store, files: seq<KeyFile>, now: int, e: Event)
    requires e in EndEvents(work)
    ensures Carries(store, files, now, e)
  {
    hide CertsFrom, DeleteKeys, BatchOf;
  }

  lemma RunCarries(conf: Conf, meaning: Meaning, pages: seq<ListedPage>, store: Store, files: seq<KeyFile>, now: int, e: Event)
    requires e in RunEvents(conf, meaning, pages, store, files, now)
    ensures Carries(store, files, now, e)
  {
    hide Carries, ListEvents, ReadEvents, CertsFrom, WorkOfRun, FirstAbort, EndEvents, Checks, Found;
    var ts := AllAt(Found(pages, store), now);
    assert ts[..|ts|] == ts;
    if e in ListEvents(pages, store, |pages|) {
      ListInRead(pages, store, files, e);
    }
    if e in ReadEvents(pages, store, files) {
      ReadCarries(pages, store, files, now, e);
    }
    forall k: nat | k <= |ts| && e in Checks(ts[..k]) ensures Carries(store, files, now, e) {
      ChecksCarry(Found(pages, store), store, files, now, k, e);
    }
    if e in EndEvents(WorkOfRun(conf, meaning, pages, store, files, now)) {
      EndCarries(WorkOfRun(conf, meaning, pages, store, files, now), store, files, now, e);
    }
    DropCarries(store, files, now);
  }

  lemma DropCarries(store: Store, files: seq<KeyFile>, now: int)
    ensures Carries(store, files, now, DropPrivileges(true))
  {
  }

  lemma ListInRead(pages: seq<ListedPage>, store: Store, files: seq<KeyFile>, e: Event)
    requires e in ListEvents(pages, store, |pages|)
    ensures e in ReadEvents(pages, store, files)
  {
    hide ListEvents, FileEvents;
  }
}
