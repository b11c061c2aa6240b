/** The order of what a run does: checks, drop, commit, deletes. */
module PhaseOrder {
  import opened Wrappers
  import opened Text
  import opened Signing
  import opened Validation
  import opened Machine

  /** What is done before privileges are dropped: listing, fetching, reading keys, checking. */
  predicate Early(e: Event) {
    !e.DropPrivileges? && !e.Commit? && !e.DeleteObject?
  }

  predicate AllEarly(trace: seq<Event>) {
    forall i :: 0 <= i < |trace| ==> Early(trace[i])
  }

  /** The trace ends with the drop, after all checks. */
  predicate EndsInDrop(conf: Conf, meaning: Meaning, trace: seq<Event>, work: Work, ok: bool) {
    && trace != []
    && AllEarly(trace[..|trace| - 1])
    && StateAfter(conf, meaning, trace[..|trace| - 1]) == Some(Dropping(work))
    && trace[|trace| - 1] == DropPrivileges(ok)
  }

  /** The trace ends with the commit of the whole batch, directly after a successful drop. */
  predicate EndsInCommit(conf: Conf, meaning: Meaning, trace: seq<Event>, work: Work, ok: bool) {
    && trace != []
    && EndsInDrop(conf, meaning, trace[..|trace| - 1], work, true)
    && !conf.dryRun && work.verified != []
    && trace[|trace| - 1] == Commit(BatchOf(work), ok)
  }

  predicate DeletesInOrder(deletes: seq<Event>, keys: seq<string>) {
    |deletes| <= |keys| && forall i :: 0 <= i < |deletes| ==> deletes[i].DeleteObject? && deletes[i].key == keys[i]
  }

  /** The trace is a successful commit and then deletes of the keys handed to `cleanup`, in order. */
  predicate CommitThenDeletes(conf: Conf, meaning: Meaning, trace: seq<Event>, n: nat, work: Work) {
    && n <= |trace|
    && EndsInCommit(conf, meaning, trace[..n], work, true)
    && DeletesInOrder(trace[n..], DeleteKeys(work))
  }

  /** The keys whose deletion failed. */
  function FailedDeletes(deletes: seq<Event>): seq<string> {
    if deletes == [] then [] else
      var e := deletes[|deletes| - 1];
      FailedDeletes(deletes[..|deletes| - 1]) + if e.DeleteObject? && !Deleted(e.answer) then [e.key] else []
  }

  /** The keys at these places, which are exactly those of the deletes not answered with a status from 200 to 299, in order. */
  predicate PickedFailures(deletes: seq<Event>, places: seq<nat>, keys: seq<string>) {
    && |keys| == |places|
    && (forall j, k :: 0 <= j < k < |places| ==> places[j] < places[k])
    && (forall j :: 0 <= j < |places| ==>
          places[j] < |deletes| && deletes[places[j]].DeleteObject? && deletes[places[j]].key == keys[j])
    && (forall i :: 0 <= i < |deletes| && deletes[i].DeleteObject? ==>
          (i in places <==> !(deletes[i].answer.Status? && 200 <= deletes[i].answer.code < 300)))
  }

  lemma PickedSnoc(deletes: seq<Event>, e: Event, places: seq<nat>, keys: seq<string>)
    requires PickedFailures(deletes, places, keys) && e.DeleteObject?
    ensures if e.answer.Status? && 200 <= e.answer.code < 300 then PickedFailures(deletes + [e], places, keys)
            else PickedFailures(deletes + [e], places + [|deletes|], keys + [e.key])
  {
    var places' := places + [|deletes|];
    assert places'[|places|] == |deletes|;
    forall i | i in places ensures i in places' {
      var j :| 0 <= j < |places| && places[j] == i;
      assert places'[j] == i;
    }
  }

  lemma {:induction false} FailedDeletesExact(deletes: seq<Event>) returns (places: seq<nat>)
    requires forall i :: 0 <= i < |deletes| ==> deletes[i].DeleteObject?
    ensures PickedFailures(deletes, places, FailedDeletes(deletes))
  {
    hide PickedFailures;
    if deletes == [] {
      places := [];
      assert PickedFailures([], [], []) by { NothingPicked(); }
    } else {
      var front, e := deletes[..|deletes| - 1], deletes[|deletes| - 1];
      assert front + [e] == deletes;
      places := FailedDeletesExact(front);
      PickedSnoc(front, e, places, FailedDeletes(front));
      if Deleted(e.answer) {
        assert FailedDeletes(deletes) == FailedDeletes(front);
      } else {
        places := places + [|front|];
      }
    }
  }

  lemma NothingPicked()
    ensures PickedFailures([], [], [])
  {
  }

  function ErrorsAfter(work: Work, deletes: seq<Event>): Errors {
    work.errors.(deletions := work.errors.deletions + FailedDeletes(deletes))
  }

  /** What a trace looks like in each state. */
  ghost predicate Shaped(conf: Conf, meaning: Meaning, trace: seq<Event>, s: Server) {
    match s
    case Committing(work) => EndsInDrop(conf, meaning, trace, work, true) && !conf.dryRun && work.verified != []
    case Deleting(keys, work) => ShapedDeleting(conf, meaning, trace, keys, work)
    case Finished(ok, errors) => ShapedFinished(conf, meaning, trace, ok, errors)
    case _ => AllEarly(trace)
  }

  ghost predicate ShapedDeleting(conf: Conf, meaning: Meaning, trace: seq<Event>, keys: seq<string>, work: Work) {
    exists n: nat, w :: IsDeleting(conf, meaning, trace, keys, work, n, w)
  }

  predicate IsDeleting(conf: Conf, meaning: Meaning, trace: seq<Event>, keys: seq<string>, work: Work, n: nat, w: Work) {
    && CommitThenDeletes(conf, meaning, trace, n, w)
    && |trace| - n + |keys| == |DeleteKeys(w)|
    && keys == DeleteKeys(w)[|trace| - n..]
    && work == w.(errors := ErrorsAfter(w, trace[n..]))
  }

  /** A run without a fatal error that reached `cleanup` ends well exactly when no error was recorded. */
  predicate CompleteRun(conf: Conf, meaning: Meaning, trace: seq<Event>, ok: bool, errors: Errors, n: nat, w: Work) {
    && CommitThenDeletes(conf, meaning, trace, n, w)
    && |trace| - n == |DeleteKeys(w)|
    && errors == ErrorsAfter(w, trace[n..])
    && ok == !errors.HasErrors()
  }

  /** A run ends early, with the drop, with a failed commit, or after all deletes. */
  ghost predicate ShapedFinished(conf: Conf, meaning: Meaning, trace: seq<Event>, ok: bool, errors: Errors) {
    || AllEarly(trace)
    || (exists w :: EndsInDrop(conf, meaning, trace, w, ok) && errors == w.errors && (ok ==> conf.dryRun || w.verified == []))
    || (exists w :: EndsInCommit(conf, meaning, trace, w, false) && errors == w.errors && !ok)
    || (exists n: nat, w :: CompleteRun(conf, meaning, trace, ok, errors, n, w))
  }

  // ---------------------------------------------------------------- single steps

  lemma EarlyStep(conf: Conf, meaning: Meaning, s: Server, e: Event)
    requires InChecks(s) && Step(conf, meaning, s, e).Some?
    ensures Early(e)
    ensures var t := Step(conf, meaning, s, e).value; InChecks(t) || t.Dropping? || t.Finished? || t.Aborted?
  {
    hide CheckRequest, ParseUpload, EndsWith;
  }

  lemma AllEarlySnoc(trace: seq<Event>, e: Event)
    requires AllEarly(trace) && Early(e)
    ensures AllEarly(trace + [e])
  {
  }

  lemma DropShaped(conf: Conf, meaning: Meaning, trace: seq<Event>, work: Work, e: Event)
    requires StateAfter(conf, meaning, trace) == Some(Dropping(work)) && AllEarly(trace)
    requires StepDropping(conf, Dropping(work), e).Some?
    ensures Shaped(conf, meaning, trace + [e], StepDropping(conf, Dropping(work), e).value)
  {
    hide StateAfter, Early;
    var all := trace + [e];
    assert all[..|all| - 1] == trace;
    assert EndsInDrop(conf, meaning, all, work, e.ok);
  }

  lemma DeleteKeysNonempty(work: Work)
    requires work.verified != []
    ensures DeleteKeys(work) != []
  {
    assert KeysOf(work.verified) != [];
  }

  lemma CommitShaped(conf: Conf, meaning: Meaning, trace: seq<Event>, work: Work, e: Event)
    requires Shaped(conf, meaning, trace, Committing(work))
    requires StepCommitting(Committing(work), e).Some?
    ensures Shaped(conf, meaning, trace + [e], StepCommitting(Committing(work), e).value)
  {
    hide EndsInDrop, DeleteKeys, BatchOf;
    var all, keys := trace + [e], DeleteKeys(work);
    DeleteKeysNonempty(work);
    assert all[..|all| - 1] == trace && all[..|all|] == all && all[|all|..] == [] && keys[0..] == keys;
    assert EndsInCommit(conf, meaning, all, work, e.ok);
    if e.ok {
      assert ErrorsAfter(work, []) == work.errors;
      assert IsDeleting(conf, meaning, all, keys, work, |all|, work);
    }
  }

  lemma NoDeletes(w: Work, keys: seq<string>)
    ensures w.(errors := ErrorsAfter(w, [])) == w && DeletesInOrder([], keys)
  {
  }

  lemma ErrorsAfterSnoc(w: Work, deletes: seq<Event>, e: Event)
    requires e.DeleteObject?
    ensures w.(errors := ErrorsAfter(w, deletes + [e]))
      == var before := w.(errors := ErrorsAfter(w, deletes)); if Deleted(e.answer) then before else FailDelete(before, e.key)
  {
    assert (deletes + [e])[..|deletes|] == deletes;
  }

  lemma DeletesSnoc(deletes: seq<Event>, e: Event, keys: seq<string>)
    requires DeletesInOrder(deletes, keys) && |deletes| < |keys|
    requires e.DeleteObject? && e.key == keys[|deletes|]
    ensures DeletesInOrder(deletes + [e], keys)
  {
  }

  lemma DeleteShaped(conf: Conf, meaning: Meaning, trace: seq<Event>, s: Server, e: Event, n: nat, w: Work)
    requires s.Deleting? && IsDeleting(conf, meaning, trace, s.keys, s.work, n, w)
    requires StepDeleting(s, e).Some?
    ensures Shaped(conf, meaning, trace + [e], StepDeleting(s, e).value)
  {
    hide EndsInCommit, DeleteKeys, ErrorsAfter, FailDelete, DeletesInOrder, StateAfter, Deleted;
    var all, keys := trace + [e], DeleteKeys(w);
    assert all[..n] == trace[..n] && all[n..] == trace[n..] + [e];
    assert keys[|trace| - n..][0] == keys[|trace| - n] && keys[|trace| - n..][1..] == keys[|all| - n..];
    DeletesSnoc(trace[n..], e, keys);
    ErrorsAfterSnoc(w, trace[n..], e);
    var work := w.(errors := ErrorsAfter(w, all[n..]));
    if s.keys[1..] == [] {
      assert CompleteRun(conf, meaning, all, !work.errors.HasErrors(), work.errors, n, w);
    } else {
      assert IsDeleting(conf, meaning, all, s.keys[1..], work, n, w);
    }
  }

  lemma StepShaped(conf: Conf, meaning: Meaning, trace: seq<Event>, s: Server, e: Event)
    requires StateAfter(conf, meaning, trace) == Some(s) && Shaped(conf, meaning, trace, s)
    requires Step(conf, meaning, s, e).Some?
    ensures Shaped(conf, meaning, trace + [e], Step(conf, meaning, s, e).value)
  {
    hide StateAfter, AllEarly, StepListing, StepFetching, StepOpening, StepReading, StepChecking, StepDropping;
    hide StepCommitting, StepDeleting;
    hide EndsInDrop, IsDeleting, ShapedFinished;
    match s
    case Finished(_, _) =>
    case Aborted =>
    case Dropping(work) => DropShaped(conf, meaning, trace, work, e);
    case Committing(work) => CommitShaped(conf, meaning, trace, work, e);
    case Deleting(keys, work) =>
      var n: nat, w :| IsDeleting(conf, meaning, trace, keys, work, n, w);
      DeleteShaped(conf, meaning, trace, s, e, n, w);
    case _ =>
      EarlyStep(conf, meaning, s, e);
      AllEarlySnoc(trace, e);
      EarlyShaped(conf, meaning, trace + [e], Step(conf, meaning, s, e).value);
  }

  lemma EarlyShaped(conf: Conf, meaning: Meaning, trace: seq<Event>, s: Server)
    requires AllEarly(trace) && !s.Committing? && !s.Deleting?
    ensures Shaped(conf, meaning, trace, s)
  {
  }

  // ---------------------------------------------------------------- whole runs

  /** Every run has the shape of its state. */
  lemma {:induction false} RunsAreShaped(conf: Conf, meaning: Meaning, trace: seq<Event>)
    requires StateAfter(conf, meaning, trace).Some?
    ensures Shaped(conf, meaning, trace, StateAfter(conf, meaning, trace).value)
    decreases |trace|
  {
    hide Shaped, Step;
    if trace == [] {
      EarlyShaped(conf, meaning, trace, START);
    } else {
      var front, e := trace[..|trace| - 1], trace[|trace| - 1];
      RunsAreShaped(conf, meaning, front);
      StepShaped(conf, meaning, front, StateAfter(conf, meaning, front).value, e);
      assert front + [e] == trace;
    }
  }

  ghost predicate Explained(conf: Conf, meaning: Meaning, before: seq<Event>, e: Event) {
    match e
    case DropPrivileges(ok) => exists w :: EndsInDrop(conf, meaning, before + [e], w, ok)
    case Commit(changes, ok) => exists w ::
      EndsInCommit(conf, meaning, before + [e], w, ok) && changes == BatchOf(w) && |changes| == |w.verified| > 0
    case DeleteObject(key, _) => exists n: nat, w ::
      && CommitThenDeletes(conf, meaning, before + [e], n, w) && n <= |before| && |before| - n < |DeleteKeys(w)|
      && key == DeleteKeys(w)[|before| - n]
    case _ => AllEarly(before)
  }

  /** The four forms of a trace. */
  ghost predicate Formed(conf: Conf, meaning: Meaning, trace: seq<Event>) {
    || AllEarly(trace)
    || (exists w, ok :: EndsInDrop(conf, meaning, trace, w, ok))
    || (exists w, ok :: EndsInCommit(conf, meaning, trace, w, ok))
    || (exists n: nat, w :: CommitThenDeletes(conf, meaning, trace, n, w) && n < |trace|)
  }

  lemma CommitForm(conf: Conf, meaning: Meaning, trace: seq<Event>, n: nat, w: Work)
    requires CommitThenDeletes(conf, meaning, trace, n, w)
    ensures Formed(conf, meaning, trace)
  {
    hide EndsInCommit, DeleteKeys;
    if n == |trace| {
      assert trace[..n] == trace;
    }
  }

  lemma ShapedForm(conf: Conf, meaning: Meaning, trace: seq<Event>, s: Server)
    requires Shaped(conf, meaning, trace, s)
    ensures Formed(conf, meaning, trace)
  {
    hide EndsInDrop, EndsInCommit, CommitThenDeletes, DeleteKeys, AllEarly, ErrorsAfter;
    if s.Deleting? {
      var n: nat, w :| IsDeleting(conf, meaning, trace, s.keys, s.work, n, w);
      CommitForm(conf, meaning, trace, n, w);
    } else if n: nat, w :| s.Finished? && CompleteRun(conf, meaning, trace, s.ok, s.errors, n, w) {
      CommitForm(conf, meaning, trace, n, w);
    }
  }

  lemma LastExplained(conf: Conf, meaning: Meaning, before: seq<Event>, e: Event)
    requires Formed(conf, meaning, before + [e])
    ensures Explained(conf, meaning, before, e)
  {
    hide StateAfter, DeleteKeys, BatchOf;
    var all := before + [e];
    assert all[|all| - 1] == e && all[..|all| - 1] == before;
    if AllEarly(all) {
      assert Early(all[|all| - 1]);
    } else if w, ok :| EndsInDrop(conf, meaning, all, w, ok) {
    } else if w, ok :| EndsInCommit(conf, meaning, all, w, ok) {
      BatchSize(w);
    } else {
      var n: nat, w :| CommitThenDeletes(conf, meaning, all, n, w) && n < |all|;
      assert all[n..][|all| - 1 - n] == e;
    }
  }

  lemma BatchSize(w: Work)
    ensures |BatchOf(w)| == |w.verified|
  {
  }

  /** Each event of a run is explained by what came before it: the drop by the end of all checks, the commit by a
      successful drop and the whole batch of verified requests, each delete by a successful commit; everything else
      comes before the drop. */
  lemma PhaseOrder(conf: Conf, meaning: Meaning, trace: seq<Event>, i: nat)
    requires StateAfter(conf, meaning, trace).Some? && i < |trace|
    ensures Explained(conf, meaning, trace[..i], trace[i])
  {
    StateAfterFront(conf, meaning, trace, i + 1);
    RunsAreShaped(conf, meaning, trace[..i + 1]);
    ShapedForm(conf, meaning, trace[..i + 1], StateAfter(conf, meaning, trace[..i + 1]).value);
    assert trace[..i] + [trace[i]] == trace[..i + 1];
    LastExplained(conf, meaning, trace[..i], trace[i]);
  }

  /** Dry runs change nothing. */
  lemma DryRunsOnlyLook(conf: Conf, meaning: Meaning, trace: seq<Event>, i: nat)
    requires StateAfter(conf, meaning, trace).Some? && i < |trace| && conf.dryRun
    ensures !trace[i].Commit? && !trace[i].DeleteObject?
  {
    PhaseOrder(conf, meaning, trace, i);
  }

  lemma LateAt(trace: seq<Event>, i: nat)
    requires i < |trace| && !Early(trace[i])
    ensures !AllEarly(trace)
  {
  }

  lemma CommitIsInside(conf: Conf, meaning: Meaning, trace: seq<Event>, w: Work, ok: bool, i: nat)
    requires i < |trace| && trace[i].Commit? && trace[i].ok
    ensures !EndsInDrop(conf, meaning, trace, w, ok) && !EndsInCommit(conf, meaning, trace, w, false)
  {
    hide StateAfter, BatchOf;
    var front := trace[..|trace| - 1];
    if i < |front| {
      LateAt(front, i);
      if i < |front| - 1 {
        LateAt(front[..|front| - 1], i);
      }
    }
  }

  /** A run that committed and came to its end returned success exactly when the five lists were empty before its deletes and
      every delete was answered with a status from 200 to 299. */
  lemma SuccessExact(conf: Conf, meaning: Meaning, trace: seq<Event>, ok: bool, errors: Errors, i: nat)
    requires StateAfter(conf, meaning, trace) == Some(Finished(ok, errors))
    requires i < |trace| && trace[i].Commit? && trace[i].ok
    ensures exists n: nat, w :: CompleteRun(conf, meaning, trace, ok, errors, n, w) && SuccessMeans(trace, ok, n, w)
  {
    hide StateAfter, DeleteKeys, BatchOf, PickedFailures, FailedDeletes;
    RunsAreShaped(conf, meaning, trace);
    LateAt(trace, i);
    forall w, ok' ensures !EndsInDrop(conf, meaning, trace, w, ok') && !EndsInCommit(conf, meaning, trace, w, false) {
      CommitIsInside(conf, meaning, trace, w, ok', i);
    }
    var n: nat, w :| CompleteRun(conf, meaning, trace, ok, errors, n, w);
    var deletes := trace[n..];
    forall i | 0 <= i < |deletes| ensures trace[n + i] == deletes[i] && deletes[i].DeleteObject? {
    }
    var places := FailedDeletesExact(deletes);
    PickedNone(deletes, places, FailedDeletes(deletes));
    assert (forall i :: n <= i < |trace| ==> Answered2xx(trace[i])) <==> forall i :: 0 <= i < |deletes| ==> Answered2xx(deletes[i]) by {
      ShiftedSame(trace, n);
    }
  }

  predicate Answered2xx(e: Event) { e.DeleteObject? && e.answer.Status? && 200 <= e.answer.code < 300 }

  /** Success, in terms of the lists and the deletes. */
  predicate SuccessMeans(trace: seq<Event>, ok: bool, n: nat, w: Work) {
    ok <==>
      && w.errors.fetches == [] && w.errors.parses == [] && w.errors.keyFiles == [] && w.errors.signatures == []
      && w.errors.deletions == []
      && forall i :: n <= i < |trace| ==> Answered2xx(trace[i])
  }

  lemma ShiftedSame(trace: seq<Event>, n: nat)
    requires n <= |trace|
    ensures var deletes := trace[n..];
      (forall i :: n <= i < |trace| ==> Answered2xx(trace[i])) <==> forall i :: 0 <= i < |deletes| ==> Answered2xx(deletes[i])
  {
    if forall i :: 0 <= i < |trace[n..]| ==> Answered2xx(trace[n..][i]) {
      forall i | n <= i < |trace| ensures Answered2xx(trace[i]) {
        assert trace[n..][i - n] == trace[i];
      }
    }
  }

  lemma PickedNone(deletes: seq<Event>, places: seq<nat>, keys: seq<string>)
    requires PickedFailures(deletes, places, keys) && forall i :: 0 <= i < |deletes| ==> deletes[i].DeleteObject?
    ensures keys == [] <==> forall i :: 0 <= i < |deletes| ==> Answered2xx(deletes[i])
  {
    if keys != [] {
      assert places[0] in places;
    }
    if places == [] {
      forall i | 0 <= i < |deletes| ensures Answered2xx(deletes[i]) {
        assert i !in places;
      }
    }
  }
}
