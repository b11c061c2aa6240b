/** What a commit of verified requests does to the zone, and what doing it again does. */
module ZoneEffect {
  import opened Wrappers
  import opened Records
  import opened Signing
  import opened Validation
  import opened Batch
  import opened Machine
  import opened Flow
  import opened Protocol
  import opened XmlNewlines

  /** The entry of the zone that a request is about: its name with a dot, line ends normalised, and its type. */
  function Target(r: Request): ZoneKey {
    (Normalize(FixedName(r.payload.envelope.payload.name)), r.payload.envelope.payload.data.RecordType())
  }

  /** The last request about this entry stands at `i`. */
  predicate LastAbout(rs: seq<Request>, key: ZoneKey, i: nat) {
    i < |rs| && Target(rs[i]) == key && forall j :: i < j < |rs| ==> Target(rs[j]) != key
  }

  predicate NoneAbout(rs: seq<Request>, key: ZoneKey) {
    forall i :: 0 <= i < |rs| ==> Target(rs[i]) != key
  }

  lemma ArrivedBatch(work: Work)
    ensures |Arrived(BatchOf(work))| == |work.verified|
    ensures forall i :: 0 <= i < |work.verified| ==>
      KeyOf(Arrived(BatchOf(work))[i]) == Target(work.verified[i])
      && var p := work.verified[i].payload.envelope.payload;
        ValueOf(Arrived(BatchOf(work))[i]) == RRSet(p.ttl, p.data)
  {
    hide Arrived, Normalize, FixedName;
    ArrivedExact(BatchOf(work));
  }

  /** A batch sets each entry to the last verified request about it and leaves all other entries alone. */
  lemma BatchMeans(z: Zone, work: Work, key: ZoneKey)
    ensures NoneAbout(work.verified, key) ==> Lookup(Apply(z, Arrived(BatchOf(work))), key) == Lookup(z, key)
    ensures forall i: nat :: LastAbout(work.verified, key, i) ==>
      var p := work.verified[i].payload.envelope.payload;
      Lookup(Apply(z, Arrived(BatchOf(work))), key) == Some(RRSet(p.ttl, p.data))
  {
    hide Arrived, Target, Apply, LastFor, BatchOf;
    var cs := Arrived(BatchOf(work));
    ArrivedBatch(work);
    LastChangeWins(z, cs, key);
    LastForExact(cs, key);
    if LastFor(cs, key).Some? {
      var k: nat :| LastAt(cs, key, k) && LastFor(cs, key) == Some(ValueOf(cs[k]));
      forall i: nat | LastAbout(work.verified, key, i) ensures i == k {
        assert KeyOf(cs[i]) == key && Target(work.verified[k]) == key;
      }
    }
  }

  /** A commit event of the system that lands does exactly that with the requests verified in this run. */
  lemma CommitMeans(conf: Conf, meaning: Meaning, s: State, e: Event, lands: bool, key: ZoneKey)
    requires ActState(conf, meaning, s, e, lands).Some? && e.Commit? && (e.ok || lands)
    ensures s.server.value.Committing?
    ensures var rs, t := s.server.value.work.verified, ActState(conf, meaning, s, e, lands).value;
      && (NoneAbout(rs, key) ==> Lookup(t.zone, key) == Lookup(s.zone, key))
      && forall i: nat :: LastAbout(rs, key, i) ==>
        var p := rs[i].payload.envelope.payload;
        Lookup(t.zone, key) == Some(RRSet(p.ttl, p.data))
  {
    hide Step, Flows, Arrived, Target, Apply, BatchOf, HistoryAfter, Answers, DeleteKeys, Lookup;
    StepFlows(conf, meaning, s.server.value, e);
    BatchMeans(s.zone, s.server.value.work, key);
  }

  predicate DistinctTargets(rs: seq<Request>) {
    forall i, j :: 0 <= i < j < |rs| ==> Target(rs[i]) != Target(rs[j])
  }

  /** After a crash between commit and cleanup, a run that verifies any of the same requests again, in any order, changes
      nothing, as long as no two of them are about one entry. */
  lemma RetryChangesNothing(z: Zone, work: Work, retry: Work)
    requires DistinctTargets(work.verified) && forall r :: r in retry.verified ==> r in work.verified
    ensures var z' := Apply(z, Arrived(BatchOf(work))); Apply(z', Arrived(BatchOf(retry))) == z'
  {
    hide Arrived, Apply, BatchOf, Normalize, FixedName;
    var cs, again := Arrived(BatchOf(work)), Arrived(BatchOf(retry));
    ArrivedBatch(work);
    ArrivedBatch(retry);
    forall i, j | 0 <= i < j < |cs| ensures KeyOf(cs[i]) != KeyOf(cs[j]) {
      assert Target(work.verified[i]) != Target(work.verified[j]);
    }
    forall c | c in again ensures c in cs {
      var j :| 0 <= j < |again| && again[j] == c;
      assert retry.verified[j] in work.verified;
      var i :| 0 <= i < |cs| && work.verified[i] == retry.verified[j];
      assert KeyOf(cs[i]) == KeyOf(c) && ValueOf(cs[i]) == ValueOf(c);
    }
    ReapplyPart(z, cs, again);
  }

  /** The whole batch again changes nothing, even where two requests are about one entry. */
  lemma RetryAllChangesNothing(z: Zone, work: Work, retry: Work)
    requires retry.verified == work.verified
    ensures var z' := Apply(z, Arrived(BatchOf(work))); Apply(z', Arrived(BatchOf(retry))) == z'
  {
    hide Arrived, Apply;
    ReapplyWhole(z, Arrived(BatchOf(work)));
  }
}
