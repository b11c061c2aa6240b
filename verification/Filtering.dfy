/** The validation loop as a filter (src/server.rs, `validate_unverified_dns_requests`). */
module Filtering {
  import opened Wrappers
  import opened Signing
  import opened Validation
  import opened Machine

  /** A request and the time at which it is checked. */
  datatype Timed = Timed(request: Request, now: int)

  function CheckOf(conf: Conf, meaning: Meaning, certs: seq<CertMatch>, t: Timed): Check {
    CheckRequest(meaning, certs, t.request.payload, conf.policy, t.now)
  }

  predicate Passes(conf: Conf, meaning: Meaning, certs: seq<CertMatch>, t: Timed) {
    CheckOf(conf, meaning, certs, t).Valid?
  }

  predicate NoneAborts(conf: Conf, meaning: Meaning, certs: seq<CertMatch>, ts: seq<Timed>) {
    forall i :: 0 <= i < |ts| ==> !CheckOf(conf, meaning, certs, ts[i]).Abort?
  }

  /** The requests whose check says `passing`, in their order. */
  function Select(conf: Conf, meaning: Meaning, certs: seq<CertMatch>, ts: seq<Timed>, passing: bool): seq<Request> {
    if ts == [] then [] else
      var last := ts[|ts| - 1];
      Select(conf, meaning, certs, ts[..|ts| - 1], passing)
        + if Passes(conf, meaning, certs, last) == passing then [last.request] else []
  }

  function NamesOf(rs: seq<Request>): seq<string> {
    seq(|rs|, i requires 0 <= i < |rs| => rs[i].payload.envelope.payload.name)
  }

  /** The work after these checks. */
  function WorkAfter(conf: Conf, meaning: Meaning, certs: seq<CertMatch>, work: Work, ts: seq<Timed>): Work {
    var rejected := Select(conf, meaning, certs, ts, false);
    Work(work.verified + Select(conf, meaning, certs, ts, true), work.rejected + rejected,
         work.errors.(signatures := work.errors.signatures + NamesOf(rejected)))
  }

  // ---------------------------------------------------------------- laws of the filter

  /** The selection is the requests at these places: all whose check says so, in ascending order. */
  predicate SelectedAt(conf: Conf, meaning: Meaning, certs: seq<CertMatch>, ts: seq<Timed>, passing: bool,
                       places: seq<nat>, rs: seq<Request>) {
    && |rs| == |places|
    && (forall j, k :: 0 <= j < k < |places| ==> places[j] < places[k])
    && (forall j :: 0 <= j < |places| ==> places[j] < |ts| && ts[places[j]].request == rs[j])
    && (forall i :: 0 <= i < |ts| ==> (Passes(conf, meaning, certs, ts[i]) == passing <==> i in places))
  }

  lemma SelectedSnoc(conf: Conf, meaning: Meaning, certs: seq<CertMatch>, ts: seq<Timed>, t: Timed, passing: bool,
                     places: seq<nat>, rs: seq<Request>)
    requires SelectedAt(conf, meaning, certs, ts, passing, places, rs)
    ensures if Passes(conf, meaning, certs, t) == passing
            then SelectedAt(conf, meaning, certs, ts + [t], passing, places + [|ts|], rs + [t.request])
            else SelectedAt(conf, meaning, certs, ts + [t], passing, places, rs)
  {
    hide Passes;
    if Passes(conf, meaning, certs, t) == passing {
      var places' := places + [|ts|];
      forall i | 0 <= i < |ts + [t]| ensures Passes(conf, meaning, certs, (ts + [t])[i]) == passing <==> i in places' {
        if i == |ts| {
          assert places'[|places|] == i;
        } else if i in places {
          var j :| 0 <= j < |places| && places[j] == i;
          assert places'[j] == i;
        }
      }
    }
  }

  lemma {:induction false} SelectExact(conf: Conf, meaning: Meaning, certs: seq<CertMatch>, ts: seq<Timed>,
                                       passing: bool) returns (places: seq<nat>)
    ensures SelectedAt(conf, meaning, certs, ts, passing, places, Select(conf, meaning, certs, ts, passing))
  {
    hide Passes, SelectedAt;
    if ts == [] {
      places := [];
      SelectedNothing(conf, meaning, certs, passing);
    } else {
      var front, last := ts[..|ts| - 1], ts[|ts| - 1];
      assert front + [last] == ts;
      places := SelectExact(conf, meaning, certs, front, passing);
      SelectedSnoc(conf, meaning, certs, front, last, passing, places, Select(conf, meaning, certs, front, passing));
      if Passes(conf, meaning, certs, last) == passing {
        places := places + [|front|];
      } else {
        assert Select(conf, meaning, certs, ts, passing) == Select(conf, meaning, certs, front, passing);
      }
    }
  }

  lemma SelectedNothing(conf: Conf, meaning: Meaning, certs: seq<CertMatch>, passing: bool)
    ensures SelectedAt(conf, meaning, certs, [], passing, [], [])
  {
  }

  lemma {:induction false} InSelect(conf: Conf, meaning: Meaning, certs: seq<CertMatch>, ts: seq<Timed>,
                                    passing: bool, r: Request)
    ensures r in Select(conf, meaning, certs, ts, passing)
      <==> exists i :: 0 <= i < |ts| && ts[i].request == r && Passes(conf, meaning, certs, ts[i]) == passing
  {
    hide Passes;
    if ts != [] {
      InSelect(conf, meaning, certs, ts[..|ts| - 1], passing, r);
    }
  }

  /** The loop over two lists is the loop over the first and then over the second. */
  lemma {:induction false} SelectConcat(conf: Conf, meaning: Meaning, certs: seq<CertMatch>, a: seq<Timed>,
                                        b: seq<Timed>, passing: bool)
    ensures Select(conf, meaning, certs, a + b, passing)
      == Select(conf, meaning, certs, a, passing) + Select(conf, meaning, certs, b, passing)
  {
    hide Passes;
    if b == [] {
      assert a + b == a;
    } else {
      assert (a + b)[..|a + b| - 1] == a + b[..|b| - 1];
      SelectConcat(conf, meaning, certs, a, b[..|b| - 1], passing);
    }
  }

  lemma {:induction false} SelectNone(conf: Conf, meaning: Meaning, certs: seq<CertMatch>, ts: seq<Timed>, passing: bool)
    requires forall i :: 0 <= i < |ts| ==> Passes(conf, meaning, certs, ts[i]) != passing
    ensures Select(conf, meaning, certs, ts, passing) == []
  {
    hide Passes;
    if ts != [] {
      SelectNone(conf, meaning, certs, ts[..|ts| - 1], passing);
    }
  }

  /** Requests that fail, anywhere in the list, are not selected. */
  lemma SelectSkips(conf: Conf, meaning: Meaning, certs: seq<CertMatch>, a: seq<Timed>, bad: seq<Timed>, b: seq<Timed>)
    requires forall i :: 0 <= i < |bad| ==> !Passes(conf, meaning, certs, bad[i])
    ensures Select(conf, meaning, certs, a + bad + b, true) == Select(conf, meaning, certs, a + b, true)
  {
    hide Passes;
    SelectConcat(conf, meaning, certs, a + bad, b, true);
    SelectConcat(conf, meaning, certs, a, bad, true);
    SelectConcat(conf, meaning, certs, a, b, true);
    SelectNone(conf, meaning, certs, bad, true);
  }

  /** With unique common names the order of the certificates does not matter. */
  lemma {:induction false} SelectIgnoresOrder(conf: Conf, meaning: Meaning, certs: seq<CertMatch>,
                                              certs': seq<CertMatch>, ts: seq<Timed>, passing: bool)
    requires multiset(certs) == multiset(certs') && UniqueNames(certs)
    ensures Select(conf, meaning, certs, ts, passing) == Select(conf, meaning, certs', ts, passing)
  {
    hide CheckRequest, UniqueNames;
    if ts != [] {
      SelectIgnoresOrder(conf, meaning, certs, certs', ts[..|ts| - 1], passing);
      var last := ts[|ts| - 1];
      VerdictIgnoresOrder(meaning, certs, certs', last.request.payload, conf.policy, last.now);
    }
  }

  // ---------------------------------------------------------------- the loop

  lemma NamesSnoc(rs: seq<Request>, r: Request)
    ensures NamesOf(rs + [r]) == NamesOf(rs) + [r.payload.envelope.payload.name]
  {
  }

  lemma SelectSnoc(conf: Conf, meaning: Meaning, certs: seq<CertMatch>, ts: seq<Timed>, t: Timed, passing: bool)
    ensures Select(conf, meaning, certs, ts + [t], passing)
      == Select(conf, meaning, certs, ts, passing) + if Passes(conf, meaning, certs, t) == passing then [t.request] else []
  {
    assert (ts + [t])[..|ts|] == ts;
  }

  /** One more check. */
  lemma WorkSnoc(conf: Conf, meaning: Meaning, certs: seq<CertMatch>, work: Work, ts: seq<Timed>, t: Timed)
    ensures var before := WorkAfter(conf, meaning, certs, work, ts);
      WorkAfter(conf, meaning, certs, work, ts + [t])
      == if Passes(conf, meaning, certs, t) then Accept(before, t.request) else Reject(before, t.request)
  {
    hide Passes, Select, NamesOf;
    SelectSnoc(conf, meaning, certs, ts, t, true);
    SelectSnoc(conf, meaning, certs, ts, t, false);
    var good, bad := Select(conf, meaning, certs, ts, true), Select(conf, meaning, certs, ts, false);
    var r := t.request;
    if Passes(conf, meaning, certs, t) {
      assert work.verified + (good + [r]) == (work.verified + good) + [r] && bad + [] == bad;
    } else {
      NamesSnoc(bad, r);
      assert work.rejected + (bad + [r]) == (work.rejected + bad) + [r] && good + [] == good;
      var signatures := work.errors.signatures;
      var name := r.payload.envelope.payload.name;
      assert signatures + (NamesOf(bad) + [name]) == (signatures + NamesOf(bad)) + [name];
    }
  }

  function Checks(ts: seq<Timed>): seq<Event> {
    seq(|ts|, i requires 0 <= i < |ts| => CheckOne(ts[i].now))
  }

  function Requests(ts: seq<Timed>): seq<Request> {
    seq(|ts|, i requires 0 <= i < |ts| => ts[i].request)
  }

  /** The work at the start of the loop is unchanged before the first check. */
  lemma WorkStart(conf: Conf, meaning: Meaning, certs: seq<CertMatch>, work: Work)
    ensures WorkAfter(conf, meaning, certs, work, []) == work
  {
  }

  lemma CheckStep(conf: Conf, meaning: Meaning, certs: seq<CertMatch>, work: Work, ts: seq<Timed>, k: nat)
    requires k < |ts|
    ensures var s := Checking(Requests(ts[k..]), certs, WorkAfter(conf, meaning, certs, work, ts[..k]));
      StepChecking(conf, meaning, s, CheckOne(ts[k].now))
      == Some(if CheckOf(conf, meaning, certs, ts[k]).Abort? then Aborted
              else CheckState(Requests(ts[k + 1..]), certs, WorkAfter(conf, meaning, certs, work, ts[..k + 1])))
  {
    hide CheckRequest, WorkAfter, CheckState;
    assert Requests(ts[k..])[0] == ts[k].request && Requests(ts[k..])[1..] == Requests(ts[k + 1..]);
    assert ts[..k + 1] == ts[..k] + [ts[k]];
    WorkSnoc(conf, meaning, certs, work, ts[..k], ts[k]);
  }

  /** The checks of a run are the filter, up to the first check that aborts. */
  lemma {:induction false} LoopIsFilter(conf: Conf, meaning: Meaning, trace: seq<Event>, certs: seq<CertMatch>,
                                        work: Work, ts: seq<Timed>, k: nat)
    requires ts != [] && StateAfter(conf, meaning, trace) == Some(Checking(Requests(ts), certs, work))
    requires k <= |ts| && NoneAborts(conf, meaning, certs, ts[..k])
    ensures StateAfter(conf, meaning, trace + Checks(ts[..k]))
      == Some(CheckState(Requests(ts[k..]), certs, WorkAfter(conf, meaning, certs, work, ts[..k])))
    ensures k < |ts| && CheckOf(conf, meaning, certs, ts[k]).Abort? ==>
      StateAfter(conf, meaning, trace + Checks(ts[..k + 1])) == Some(Aborted)
  {
    hide StateAfter, WorkAfter, CheckOf, StepChecking;
    if k == 0 {
      assert ts[..0] == [] && ts[0..] == ts && trace + Checks([]) == trace;
      WorkStart(conf, meaning, certs, work);
    } else {
      assert ts[..k][..k - 1] == ts[..k - 1] && ts[..k][k - 1] == ts[k - 1];
      LoopIsFilter(conf, meaning, trace, certs, work, ts, k - 1);
      LoopStep(conf, meaning, trace, certs, work, ts, k - 1);
    }
    if k < |ts| {
      LoopStep(conf, meaning, trace, certs, work, ts, k);
    }
  }

  lemma LoopStep(conf: Conf, meaning: Meaning, trace: seq<Event>, certs: seq<CertMatch>, work: Work, ts: seq<Timed>, k: nat)
    requires k < |ts|
    requires StateAfter(conf, meaning, trace + Checks(ts[..k]))
      == Some(CheckState(Requests(ts[k..]), certs, WorkAfter(conf, meaning, certs, work, ts[..k])))
    ensures StateAfter(conf, meaning, trace + Checks(ts[..k + 1]))
      == Some(if CheckOf(conf, meaning, certs, ts[k]).Abort? then Aborted
              else CheckState(Requests(ts[k + 1..]), certs, WorkAfter(conf, meaning, certs, work, ts[..k + 1])))
  {
    hide StateAfter, WorkAfter, CheckOf, StepChecking;
    var before := trace + Checks(ts[..k]);
    assert Requests(ts[k..]) != [];
    StateAfterSnoc(conf, meaning, before, CheckOne(ts[k].now));
    CheckStep(conf, meaning, certs, work, ts, k);
    assert trace + Checks(ts[..k + 1]) == before + [CheckOne(ts[k].now)];
  }

  /** The place of the first check that aborts, or the number of checks. */
  function FirstAbort(conf: Conf, meaning: Meaning, certs: seq<CertMatch>, ts: seq<Timed>): (k: nat)
    ensures k <= |ts| && NoneAborts(conf, meaning, certs, ts[..k])
    ensures k < |ts| ==> CheckOf(conf, meaning, certs, ts[k]).Abort?
  {
    hide CheckOf;
    if ts == [] then 0 else
      var front := ts[..|ts| - 1];
      var k := FirstAbort(conf, meaning, certs, front);
      assert front[..k] == ts[..k] && (k < |front| ==> front[k] == ts[k]);
      if k < |ts| - 1 || CheckOf(conf, meaning, certs, ts[|ts| - 1]).Abort? then k else |ts|
  }

  predicate StopsAt(conf: Conf, meaning: Meaning, trace: seq<Event>, ts: seq<Timed>, n: nat) {
    n <= |ts| && StateAfter(conf, meaning, trace + Checks(ts[..n])) == Some(Aborted)
  }

  /** One of these checks ends the process. */
  ghost predicate StopsWithin(conf: Conf, meaning: Meaning, trace: seq<Event>, ts: seq<Timed>) {
    exists n: nat :: StopsAt(conf, meaning, trace, ts, n)
  }

  lemma ChecksDone(pending: seq<Request>, certs: seq<CertMatch>, work: Work)
    requires pending == []
    ensures CheckState(pending, certs, work) == Dropping(work)
  {
  }

  /** The whole loop. */
  lemma WholeLoop(conf: Conf, meaning: Meaning, trace: seq<Event>, certs: seq<CertMatch>, work: Work, ts: seq<Timed>)
    requires ts != [] && StateAfter(conf, meaning, trace) == Some(Checking(Requests(ts), certs, work))
    ensures if NoneAborts(conf, meaning, certs, ts)
            then StateAfter(conf, meaning, trace + Checks(ts)) == Some(Dropping(WorkAfter(conf, meaning, certs, work, ts)))
            else StopsWithin(conf, meaning, trace, ts)
  {
    hide StateAfter, WorkAfter, CheckOf, Checks, CheckState;
    var k := FirstAbort(conf, meaning, certs, ts);
    LoopIsFilter(conf, meaning, trace, certs, work, ts, k);
    if k == |ts| {
      assert ts[..k] == ts;
      ChecksDone(Requests(ts[k..]), certs, WorkAfter(conf, meaning, certs, work, ts));
    } else {
      assert StopsAt(conf, meaning, trace, ts, k + 1);
    }
  }

  /** Two loops, one with failing requests among the others. Where the failing requests do not abort, both come to the drop with
      the same verified requests and the same batch; where one aborts, the loop that meets it does not come to the drop. */
  lemma BadRequestsDoNotDisturb(conf: Conf, meaning: Meaning, trace: seq<Event>, trace': seq<Event>, certs: seq<CertMatch>,
                                work: Work, work': Work, a: seq<Timed>, bad: seq<Timed>, b: seq<Timed>)
    requires a + b != [] && NoneAborts(conf, meaning, certs, a + b) && work.verified == work'.verified
    requires forall i :: 0 <= i < |bad| ==> !Passes(conf, meaning, certs, bad[i])
    requires StateAfter(conf, meaning, trace) == Some(Checking(Requests(a + bad + b), certs, work))
    requires StateAfter(conf, meaning, trace') == Some(Checking(Requests(a + b), certs, work'))
    ensures var disturbed := WorkAfter(conf, meaning, certs, work, a + bad + b);
      var plain := WorkAfter(conf, meaning, certs, work', a + b);
      && StateAfter(conf, meaning, trace' + Checks(a + b)) == Some(Dropping(plain))
      && disturbed.verified == plain.verified && BatchOf(disturbed) == BatchOf(plain)
      && if NoneAborts(conf, meaning, certs, bad)
         then StateAfter(conf, meaning, trace + Checks(a + bad + b)) == Some(Dropping(disturbed))
         else StopsWithin(conf, meaning, trace, a + bad + b)
  {
    hide StateAfter, Passes, CheckOf, Checks, Select, NamesOf;
    SelectSkips(conf, meaning, certs, a, bad, b);
    AbortsAmong(conf, meaning, certs, a, bad, b);
    WholeLoop(conf, meaning, trace, certs, work, a + bad + b);
    WholeLoop(conf, meaning, trace', certs, work', a + b);
  }

  lemma AbortsAmong(conf: Conf, meaning: Meaning, certs: seq<CertMatch>, a: seq<Timed>, bad: seq<Timed>, b: seq<Timed>)
    requires NoneAborts(conf, meaning, certs, a + b)
    ensures NoneAborts(conf, meaning, certs, a + bad + b) <==> NoneAborts(conf, meaning, certs, bad)
  {
    hide CheckOf;
    var all := a + bad + b;
    forall i | 0 <= i < |bad| ensures all[|a| + i] == bad[i] {
    }
    forall i | 0 <= i < |all| && !(|a| <= i < |a| + |bad|)
      ensures !CheckOf(conf, meaning, certs, all[i]).Abort?
    {
      assert all[i] == (a + b)[if i < |a| then i else i - |bad|];
    }
  }
}
