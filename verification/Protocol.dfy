/** Clients, bucket, zone, clock and server runs as one transition system (src/server.rs, src/client.rs). */
module Protocol {
  import opened Wrappers
  import opened Records
  import opened Signing
  import opened Validation
  import opened Batch
  import opened Machine
  import opened Flow
  import Xml
  import opened XmlNewlines

  /** A request that passed its check, with the certificates and the clock of that check. */
  datatype Acceptance = Acceptance(request: Request, certs: seq<CertMatch>, at: int)

  /** What happened so far; no step looks at it.
      `replaced`: requests whose object was overwritten or removed from outside after the server had fetched it.
      `missed`: keys whose fetch failed although the object was there, `missedNow`: those of the current run.
      `forfeited`: verified requests whose object the server removed without having committed them.
      `stale`: envelopes found too old, `staleBefore`: those found before the current run began. */
  datatype History = History(acceptances: set<Acceptance>, committed: set<Request>, replaced: set<Request>,
                             forfeited: set<Request>, missed: set<string>, missedNow: set<string>, stale: set<Envelope>,
                             staleBefore: set<Envelope>)

  /** The ledger holds what was ever signed with which key, `certificates` what was ever installed;
      `trace` holds the events of the current run. */
  datatype State = State(bucket: map<string, string>, zone: Zone, now: int, ledger: set<(VerifyingKey, Envelope)>,
                         certificates: set<CertMatch>, server: Option<Server>, trace: seq<Event>, history: History)

  datatype Label =
    | Sign(signer: VerifyingKey, envelope: Envelope)
    | Write(key: string, text: Option<string>)
    | Install(cert: CertMatch)
    | Tick(nanos: nat)
    | StartRun
    | Crash
    | Act(event: Event, lands: bool)

  /** The signature was made by whoever signed this; signatures of other messages are never accepted and are free. */
  ghost predicate Unforged(meaning: Meaning, ledger: set<(VerifyingKey, Envelope)>, p: SignedPayload) {
    forall key, e: Envelope ::
      SafeInteger(e.signedAt) && meaning(p.signature) == Signed(key, CanonicalText(e)) ==> (key, e) in ledger
  }

  /** Anyone can write any text, but cannot make signatures of others. */
  ghost predicate CanWrite(meaning: Meaning, ledger: set<(VerifyingKey, Envelope)>, text: Option<string>) {
    text.Some? && ParseUpload(text.value).Some? ==> Unforged(meaning, ledger, ParseUpload(text.value).value)
  }

  // ---------------------------------------------------------------- views of the state

  function Verified(h: History): set<Request> {
    set a | a in h.acceptances :: a.request
  }

  /** Verified requests that nothing has happened to yet. */
  function Live(h: History): set<Request> {
    Verified(h) - h.committed - h.replaced - h.forfeited
  }

  predicate InBucket(bucket: map<string, string>, r: Request) {
    r.s3Key in bucket && ParseUpload(bucket[r.s3Key]) == Some(r.payload)
  }

  function InFlight(server: Option<Server>): set<Request> {
    if server.None? then {} else (set r | r in Unchecked(server.value)) + (set r | r in Good(server.value))
  }

  const COMMENT := "Updated via dyndynser"

  /** The changes that the DNS service reads from the document it is sent. */
  function Arrived(changes: seq<Change>): seq<Change> {
    match Xml.ReadDocument(Normalize(Xml.DocumentText(Some(COMMENT), changes)))
    case Some(d) => d.changes
    case None => []
  }

  lemma ArrivedExact(changes: seq<Change>)
    ensures Arrived(changes) == NormalizeChanges(changes)
  {
    hide Xml.DocumentText, Xml.ReadDocument, Normalize;
    ReadNormalized(Some(COMMENT), changes);
  }

  // ---------------------------------------------------------------- steps

  predicate Matches(r: Request, key: string, text: Option<string>) {
    r.s3Key == key ==> text.Some? && ParseUpload(text.value) == Some(r.payload)
  }

  function WriteObject(s: State, key: string, text: Option<string>): State {
    var known := Verified(s.history) + InFlight(s.server);
    s.(bucket := if text.Some? then s.bucket[key := text.value] else s.bucket - {key},
       history := s.history.(replaced := s.history.replaced + set r | r in known && !Matches(r, key, text)))
  }

  /** What the outside can answer to the server now. */
  predicate Answers(s: State, e: Event) {
    && (e.GetObject? && e.body.Some? ==> e.key in s.bucket && s.bucket[e.key] == e.body.value)
    && (e.CheckOne? ==> e.now == s.now)
    && (e.ReadKeyFile? && e.file.Certificate? ==> e.file.cert in s.certificates)
  }

  predicate Removes(e: Event, lands: bool) {
    e.DeleteObject? && (Deleted(e.answer) || lands)
  }

  function BucketAfter(bucket: map<string, string>, e: Event, lands: bool): map<string, string> {
    if Removes(e, lands) then bucket - {e.key} else bucket
  }

  function ZoneAfter(zone: Zone, e: Event, lands: bool): Zone {
    if e.Commit? && (e.ok || lands) then Apply(zone, Arrived(e.changes)) else zone
  }

  function Acceptances(conf: Conf, meaning: Meaning, server: Server, e: Event): set<Acceptance> {
    var rs := AcceptedBy(conf, meaning, server, e);
    if rs == [] then {} else {Acceptance(rs[0], server.certs, e.now)}
  }

  function TooOldBy(conf: Conf, meaning: Meaning, server: Server, e: Event): set<Envelope> {
    if server.Checking? && server.pending != [] && e.CheckOne?
       && CheckRequest(meaning, server.certs, server.pending[0].payload, conf.policy, e.now) == Invalid(TooOld)
    then {server.pending[0].payload.envelope} else {}
  }

  function MissedHere(bucket: map<string, string>, e: Event): set<string> {
    if e.GetObject? && e.body.None? && e.key in bucket then {e.key} else {}
  }

  function HistoryAfter(conf: Conf, meaning: Meaning, s: State, server: Server, e: Event, lands: bool): History {
    var h := s.history;
    History(
      h.acceptances + Acceptances(conf, meaning, server, e),
      h.committed + if e.Commit? && e.ok then (set r | r in Good(server)) else {},
      h.replaced,
      h.forfeited + if Removes(e, lands) then (set r | r in Live(h) && r.s3Key == e.key) else {},
      h.missed + MissedHere(s.bucket, e),
      h.missedNow + MissedHere(s.bucket, e),
      h.stale + TooOldBy(conf, meaning, server, e),
      h.staleBefore)
  }

  /** An event of the server; an action that the server takes for failed may land all the same. */
  function ActState(conf: Conf, meaning: Meaning, s: State, e: Event, lands: bool): Option<State> {
    if s.server.None? || !Answers(s, e) then None
    else
      var next := Step(conf, meaning, s.server.value, e);
      if next.None? then None
      else Some(State(BucketAfter(s.bucket, e, lands), ZoneAfter(s.zone, e, lands), s.now, s.ledger, s.certificates,
                      next, s.trace + [e], HistoryAfter(conf, meaning, s, s.server.value, e, lands)))
  }

  ghost function StepState(conf: Conf, meaning: Meaning, s: State, l: Label): Option<State> {
    match l
    case Sign(key, e) => Some(s.(ledger := s.ledger + {(key, e)}))
    case Write(key, text) => if CanWrite(meaning, s.ledger, text) then Some(WriteObject(s, key, text)) else None
    case Install(cert) => Some(s.(certificates := s.certificates + {cert}))
    case Tick(nanos) => Some(s.(now := s.now + nanos))
    case StartRun =>
      if s.server.Some? && Active(s.server.value) then None
      else Some(s.(server := Some(START), trace := [], history := s.history.(staleBefore := s.history.stale, missedNow := {})))
    case Crash => Some(s.(server := None, trace := []))
    case Act(e, lands) => ActState(conf, meaning, s, e, lands)
  }

  /** The state after these labels, or `None` where they are no run of the system. */
  ghost function After(conf: Conf, meaning: Meaning, init: State, labels: seq<Label>): Option<State> {
    if labels == [] then Some(init) else
      var s := After(conf, meaning, init, labels[..|labels| - 1]);
      if s.None? then None else StepState(conf, meaning, s.value, labels[|labels| - 1])
  }

  const NO_HISTORY := History({}, {}, {}, {}, {}, {}, {}, {})

  /** No server runs yet, and the bucket holds no forged signature. */
  ghost predicate Initial(meaning: Meaning, s: State) {
    && s.server.None? && s.trace == [] && s.history == NO_HISTORY
    && forall key :: key in s.bucket ==> CanWrite(meaning, s.ledger, Some(s.bucket[key]))
  }

  /** The events of the current run are a run of the server. */
  predicate Traced(conf: Conf, meaning: Meaning, s: State) {
    s.server.Some? ==> StateAfter(conf, meaning, s.trace) == s.server
  }

  lemma StepTraced(conf: Conf, meaning: Meaning, s: State, l: Label)
    requires Traced(conf, meaning, s) && StepState(conf, meaning, s, l).Some?
    ensures Traced(conf, meaning, StepState(conf, meaning, s, l).value)
  {
    hide StateAfter, Step, WriteObject, CanWrite, HistoryAfter, BucketAfter, ZoneAfter, Answers;
    if l.Act? {
      StateAfterSnoc(conf, meaning, s.trace, l.event);
    } else if l.StartRun? {
      TracedStart(conf, meaning);
    } else if l.Write? {
      WriteKeepsServer(s, l.key, l.text);
    }
  }

  lemma TracedStart(conf: Conf, meaning: Meaning)
    ensures StateAfter(conf, meaning, []) == Some(START)
  {
  }

  lemma WriteKeepsServer(s: State, key: string, text: Option<string>)
    ensures var t := WriteObject(s, key, text); t.server == s.server && t.trace == s.trace && t.ledger == s.ledger
  {
  }

  /** At every point of every run of the system, what the server has done since it was started is a run of the server:
      what holds of all its traces holds here. */
  lemma {:induction false} AlwaysTraced(conf: Conf, meaning: Meaning, init: State, labels: seq<Label>)
    requires Initial(meaning, init) && After(conf, meaning, init, labels).Some?
    ensures Traced(conf, meaning, After(conf, meaning, init, labels).value)
  {
    hide StepState, Traced;
    if labels == [] {
      InitialTraced(conf, meaning, init);
    } else {
      var front := labels[..|labels| - 1];
      AlwaysTraced(conf, meaning, init, front);
      StepTraced(conf, meaning, After(conf, meaning, init, front).value, labels[|labels| - 1]);
    }
  }

  lemma InitialTraced(conf: Conf, meaning: Meaning, init: State)
    requires Initial(meaning, init)
    ensures Traced(conf, meaning, init)
  {
  }
}
