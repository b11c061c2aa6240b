/** Server runs inside the whole system, with nobody else acting meanwhile. */
module Replay {
  import opened Wrappers
  import opened Signing
  import opened Validation
  import opened Batch
  import opened Machine
  import opened Flow
  import opened PhaseOrder
  import opened Protocol

  function Acting(trace: seq<Event>): seq<Label> {
    seq(|trace|, i requires 0 <= i < |trace| => Act(trace[i], false))
  }

  /** The labels of a run with these events. */
  function RunLabels(trace: seq<Event>): seq<Label> {
    [StartRun] + Acting(trace)
  }

  function BucketAfterAll(bucket: map<string, string>, trace: seq<Event>): map<string, string> {
    if trace == [] then bucket
    else BucketAfter(BucketAfterAll(bucket, trace[..|trace| - 1]), trace[|trace| - 1], false)
  }

  function ZoneAfterAll(zone: Zone, trace: seq<Event>): Zone {
    if trace == [] then zone
    else ZoneAfter(ZoneAfterAll(zone, trace[..|trace| - 1]), trace[|trace| - 1], false)
  }

  /** The outside can give all these answers, one after the other. */
  predicate Answerable(s: State, trace: seq<Event>) {
    forall n :: 0 <= n < |trace| ==> Answers(s.(bucket := BucketAfterAll(s.bucket, trace[..n])), trace[n])
  }

  /** The request is in a batch that this run committed. */
  ghost predicate CommittedIn(conf: Conf, meaning: Meaning, trace: seq<Event>, r: Request) {
    exists n :: 0 <= n < |trace| && trace[n].Commit? && trace[n].ok && StateAfter(conf, meaning, trace[..n]).Some?
      && r in Good(StateAfter(conf, meaning, trace[..n]).value)
  }

  /** `t` is `s` after a run with these events. */
  ghost predicate Replays(conf: Conf, meaning: Meaning, s: State, trace: seq<Event>, t: State) {
    && t.server == StateAfter(conf, meaning, trace) && t.trace == trace
    && t.bucket == BucketAfterAll(s.bucket, trace) && t.zone == ZoneAfterAll(s.zone, trace)
    && t.now == s.now && t.ledger == s.ledger && t.certificates == s.certificates
    && t.history.replaced == s.history.replaced && Verified(s.history) <= Verified(t.history)
    && forall r :: r in t.history.committed ==> r in s.history.committed || CommittedIn(conf, meaning, trace, r)
  }

  lemma Go(conf: Conf, meaning: Meaning, init: State, labels: seq<Label>, s: State, l: Label)
    requires After(conf, meaning, init, labels) == Some(s)
    ensures After(conf, meaning, init, labels + [l]) == StepState(conf, meaning, s, l)
  {
    hide StepState;
    assert (labels + [l])[..|labels|] == labels;
  }

  lemma Starts(conf: Conf, meaning: Meaning, init: State, labels: seq<Label>, s: State) returns (t: State)
    requires After(conf, meaning, init, labels) == Some(s) && (s.server.None? || !Active(s.server.value))
    ensures After(conf, meaning, init, labels + RunLabels([])) == Some(t) && Replays(conf, meaning, s, [], t)
  {
    hide After, StateAfter, Active;
    Go(conf, meaning, init, labels, s, StartRun);
    assert RunLabels([]) == [StartRun];
    t := s.(server := Some(START), trace := [], history := s.history.(staleBefore := s.history.stale, missedNow := {}));
    TracedStart(conf, meaning);
  }

  lemma {:induction false} CommittedFront(conf: Conf, meaning: Meaning, front: seq<Event>, e: Event, r: Request)
    requires StateAfter(conf, meaning, front).Some?
    ensures CommittedIn(conf, meaning, front, r) ==> CommittedIn(conf, meaning, front + [e], r)
    ensures e.Commit? && e.ok && r in Good(StateAfter(conf, meaning, front).value) ==> CommittedIn(conf, meaning, front + [e], r)
  {
    hide StateAfter, Good;
    var all := front + [e];
    forall n | 0 <= n < |front| ensures all[..n] == front[..n] && all[n] == front[n] {
    }
    assert all[..|front|] == front && all[|front|] == e;
  }

  lemma FoldSnoc(bucket: map<string, string>, zone: Zone, front: seq<Event>, e: Event)
    ensures BucketAfterAll(bucket, front + [e]) == BucketAfter(BucketAfterAll(bucket, front), e, false)
    ensures ZoneAfterAll(zone, front + [e]) == ZoneAfter(ZoneAfterAll(zone, front), e, false)
  {
    hide BucketAfter, ZoneAfter;
    assert (front + [e])[..|front|] == front;
  }

  /** The state after an event that the outside can answer. */
  function Acted(conf: Conf, meaning: Meaning, m: State, e: Event, next: Server): State
    requires m.server.Some?
  {
    State(BucketAfter(m.bucket, e, false), ZoneAfter(m.zone, e, false), m.now, m.ledger, m.certificates, Some(next), m.trace + [e],
          HistoryAfter(conf, meaning, m, m.server.value, e, false))
  }

  lemma ActsAs(conf: Conf, meaning: Meaning, init: State, labels: seq<Label>, m: State, e: Event)
    requires After(conf, meaning, init, labels) == Some(m) && m.server.Some? && Answers(m, e)
    requires Step(conf, meaning, m.server.value, e).Some?
    ensures After(conf, meaning, init, labels + [Act(e, false)])
      == Some(Acted(conf, meaning, m, e, Step(conf, meaning, m.server.value, e).value))
  {
    hide After, Step, HistoryAfter, BucketAfter, ZoneAfter, Answers;
    Go(conf, meaning, init, labels, m, Act(e, false));
  }

  lemma ActedReplays(conf: Conf, meaning: Meaning, s: State, front: seq<Event>, e: Event, m: State, next: Server)
    requires Replays(conf, meaning, s, front, m) && m.server.Some?
    requires StateAfter(conf, meaning, front + [e]) == Some(next) && StateAfter(conf, meaning, front).Some?
    ensures Replays(conf, meaning, s, front + [e], Acted(conf, meaning, m, e, next))
  {
    hide StateAfter, HistoryAfter, BucketAfter, ZoneAfter, CommittedIn, Verified, Good, BucketAfterAll, ZoneAfterAll;
    var t := Acted(conf, meaning, m, e, next);
    FoldSnoc(s.bucket, s.zone, front, e);
    HistoryGrows(conf, meaning, m, e);
    forall r | r in t.history.committed ensures r in s.history.committed || CommittedIn(conf, meaning, front + [e], r) {
      CommittedFront(conf, meaning, front, e, r);
    }
  }

  lemma AnswersSame(s: State, m: State, e: Event)
    requires m.bucket == s.bucket && m.now == s.now && m.certificates == s.certificates
    ensures Answers(s, e) == Answers(m, e)
  {
  }

  /** One more event. */
  lemma ReplayStep(conf: Conf, meaning: Meaning, init: State, labels: seq<Label>, s: State, front: seq<Event>,
                   e: Event, m: State)
    returns (t: State)
    requires After(conf, meaning, init, labels) == Some(m) && Replays(conf, meaning, s, front, m)
    requires StateAfter(conf, meaning, front + [e]).Some? && StateAfter(conf, meaning, front).Some?
    requires Answers(s.(bucket := BucketAfterAll(s.bucket, front)), e)
    ensures After(conf, meaning, init, labels + [Act(e, false)]) == Some(t) && Replays(conf, meaning, s, front + [e], t)
  {
    hide After, StateAfter, Step, Acted, Answers, CommittedIn, Verified, BucketAfterAll, ZoneAfterAll;
    StateAfterSnoc(conf, meaning, front, e);
    AnswersSame(s.(bucket := BucketAfterAll(s.bucket, front)), m, e);
    ActsAs(conf, meaning, init, labels, m, e);
    var next := Step(conf, meaning, m.server.value, e).value;
    ActedReplays(conf, meaning, s, front, e, m, next);
    t := Acted(conf, meaning, m, e, next);
  }

  lemma HistoryGrows(conf: Conf, meaning: Meaning, m: State, e: Event)
    requires m.server.Some?
    ensures var h := HistoryAfter(conf, meaning, m, m.server.value, e, false);
      && Verified(m.history) <= Verified(h) && h.replaced == m.history.replaced
      && forall r :: r in h.committed ==> r in m.history.committed || (e.Commit? && e.ok && r in Good(m.server.value))
  {
    hide Live, CheckRequest, Good;
  }

  lemma RunLabelsSnoc(labels: seq<Label>, front: seq<Event>, e: Event)
    ensures labels + RunLabels(front) + [Act(e, false)] == labels + RunLabels(front + [e])
  {
    assert Acting(front + [e]) == Acting(front) + [Act(e, false)];
  }

  /** A run that the outside can answer can happen. */
  lemma {:induction false} Replay(conf: Conf, meaning: Meaning, init: State, labels: seq<Label>, s: State, trace: seq<Event>)
    returns (t: State)
    requires After(conf, meaning, init, labels) == Some(s) && (s.server.None? || !Active(s.server.value))
    requires StateAfter(conf, meaning, trace).Some? && Answerable(s, trace)
    ensures After(conf, meaning, init, labels + RunLabels(trace)) == Some(t) && Replays(conf, meaning, s, trace, t)
    decreases |trace|
  {
    hide After, StateAfter, Replays, Answers, Active, RunLabels;
    if trace == [] {
      t := Starts(conf, meaning, init, labels, s);
    } else {
      var front, e := trace[..|trace| - 1], trace[|trace| - 1];
      StateAfterFront(conf, meaning, trace, |front|);
      forall n | 0 <= n < |front| ensures Answers(s.(bucket := BucketAfterAll(s.bucket, front[..n])), front[n]) {
        assert trace[..n] == front[..n] && trace[n] == front[n];
      }
      var m := Replay(conf, meaning, init, labels, s, front);
      assert front + [e] == trace;
      t := ReplayStep(conf, meaning, init, labels + RunLabels(front), s, front, e, m);
      RunLabelsSnoc(labels, front, e);
    }
  }

  // ---------------------------------------------------------------- effects

  predicate NoEffect(e: Event) { !e.Commit? && !e.DeleteObject? }

  predicate Quiet(trace: seq<Event>) {
    forall i :: 0 <= i < |trace| ==> NoEffect(trace[i])
  }

  lemma QuietConcat(a: seq<Event>, b: seq<Event>)
    requires Quiet(a) && Quiet(b)
    ensures Quiet(a + b)
  {
    hide NoEffect;
  }

  lemma {:induction false} NoEffects(bucket: map<string, string>, zone: Zone, trace: seq<Event>)
    requires Quiet(trace)
    ensures BucketAfterAll(bucket, trace) == bucket && ZoneAfterAll(zone, trace) == zone
  {
    if trace != [] {
      NoEffects(bucket, zone, trace[..|trace| - 1]);
    }
  }

  /** The fetches of a run meet the bucket as it was at its start. */
  lemma BucketWhenFetching(conf: Conf, meaning: Meaning, bucket: map<string, string>, trace: seq<Event>, n: nat)
    requires StateAfter(conf, meaning, trace).Some? && n < |trace| && trace[n].GetObject?
    ensures BucketAfterAll(bucket, trace[..n]) == bucket
  {
    hide StateAfter, BucketAfterAll;
    PhaseOrder.PhaseOrder(conf, meaning, trace, n);
    NoEffects(bucket, map[], trace[..n]);
  }
}
