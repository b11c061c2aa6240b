/** The outside of a run: what it answers to the n-th event, and that this decides the run. */
module Outside {
  import opened Wrappers
  import opened Text
  import opened Records
  import opened Machine
  import opened Flow
  import opened Signing

  /** What the outside answers to the n-th event of a run. */
  datatype Environment = Environment(
    list: (nat, Option<string>) -> ListAnswer,
    get: (nat, string) -> Option<string>,
    keyDirectory: nat -> Option<seq<string>>,
    keyFile: (nat, string) -> KeyFileAnswer,
    clock: nat -> int,
    commit: (nat, seq<Change>) -> bool,
    delete: (nat, string) -> DeleteAnswer)

  /** Page chains are finite. */
  ghost predicate ChainsEnd(env: Environment, bound: nat) {
    forall n: nat, token :: n >= bound && env.list(n, token).Page? ==> env.list(n, token).next.None?
  }

  /** The n-th event carries the answer of the outside. Whether privileges can be dropped is decided by the credentials of
      the process. */
  predicate AnsweredAt(env: Environment, drops: bool, n: nat, e: Event) {
    match e
    case ListPage(token, page) => page == env.list(n, token)
    case SkipKey(_) => true
    case GetObject(key, body) => body == env.get(n, key)
    case OpenKeyDirectory(names) => names == env.keyDirectory(n)
    case ReadKeyFile(name, file) => file == env.keyFile(n, name)
    case CheckOne(now) => now == env.clock(n)
    case DropPrivileges(ok) => ok == drops
    case Commit(changes, ok) => ok == env.commit(n, changes)
    case DeleteObject(key, answer) => answer == env.delete(n, key)
  }

  predicate Answered(env: Environment, drops: bool, trace: seq<Event>) {
    forall n :: 0 <= n < |trace| ==> AnsweredAt(env, drops, n, trace[n])
  }

  lemma AnsweredSnoc(env: Environment, drops: bool, trace: seq<Event>, e: Event)
    requires Answered(env, drops, trace) && AnsweredAt(env, drops, |trace|, e)
    ensures Answered(env, drops, trace + [e])
  {
    hide AnsweredAt;
  }

  lemma NothingAnswered(env: Environment, drops: bool)
    ensures Answered(env, drops, [])
  {
  }

  lemma DropAnswered(env: Environment, drops: bool, trace: seq<Event>)
    requires Answered(env, drops, trace)
    ensures Answered(env, drops, trace + [DropPrivileges(drops)])
  {
    AnsweredSnoc(env, drops, trace, DropPrivileges(drops));
  }

  /** In each state there is one event that carries the answer of the outside. */
  lemma OneEvent(conf: Conf, meaning: Meaning, env: Environment, drops: bool, n: nat, s: Server, e: Event, e': Event)
    requires AnsweredAt(env, drops, n, e) && AnsweredAt(env, drops, n, e')
    requires Step(conf, meaning, s, e).Some? && Step(conf, meaning, s, e').Some?
    ensures e == e'
  {
    hide EndsWith, Fetch, FetchState, KeyState, CheckNext, AfterDrop, DeleteState, DeleteKeys, BatchOf;
  }

  /** Two runs against the same outside agree as far as both go. */
  lemma {:induction false} SamePrefix(conf: Conf, meaning: Meaning, env: Environment, drops: bool, a: seq<Event>,
                                      b: seq<Event>, k: nat)
    requires StateAfter(conf, meaning, a).Some? && StateAfter(conf, meaning, b).Some?
    requires Answered(env, drops, a) && Answered(env, drops, b)
    requires k <= |a| && k <= |b|
    ensures a[..k] == b[..k]
  {
    hide StateAfter, Step, AnsweredAt;
    if k > 0 {
      SamePrefix(conf, meaning, env, drops, a, b, k - 1);
      StepAt(conf, meaning, a, k - 1);
      StepAt(conf, meaning, b, k - 1);
      OneEvent(conf, meaning, env, drops, k - 1, StateAfter(conf, meaning, a[..k - 1]).value, a[k - 1], b[k - 1]);
      assert a[..k] == a[..k - 1] + [a[k - 1]] && b[..k] == b[..k - 1] + [b[k - 1]];
    }
  }

  lemma StepAt(conf: Conf, meaning: Meaning, trace: seq<Event>, k: nat)
    requires StateAfter(conf, meaning, trace).Some? && k < |trace|
    ensures StateAfter(conf, meaning, trace[..k]).Some?
    ensures Step(conf, meaning, StateAfter(conf, meaning, trace[..k]).value, trace[k]).Some?
  {
    hide StateAfter, Step;
    StateAfterFront(conf, meaning, trace, k);
    StateAfterFront(conf, meaning, trace, k + 1);
    assert trace[..k + 1] == trace[..k] + [trace[k]];
    StateAfterSnoc(conf, meaning, trace[..k], trace[k]);
  }

  predicate Complete(conf: Conf, meaning: Meaning, trace: seq<Event>) {
    var s := StateAfter(conf, meaning, trace);
    s.Some? && !Active(s.value)
  }

  lemma NotLonger(conf: Conf, meaning: Meaning, env: Environment, drops: bool, a: seq<Event>, b: seq<Event>)
    requires Complete(conf, meaning, a) && Complete(conf, meaning, b)
    requires Answered(env, drops, a) && Answered(env, drops, b)
    ensures |b| <= |a|
  {
    hide StateAfter, Step, AnsweredAt, Active;
    if |a| < |b| {
      SamePrefix(conf, meaning, env, drops, a, b, |a|);
      assert a[..|a|] == a;
      StepAt(conf, meaning, b, |a|);
      StepFlows(conf, meaning, StateAfter(conf, meaning, a).value, b[|a|]);
      ActsActive(StateAfter(conf, meaning, a).value, b[|a|]);
      assert false;
    }
  }

  /** Against one outside there is one completed run. */
  lemma OnlyRun(conf: Conf, meaning: Meaning, env: Environment, drops: bool, a: seq<Event>, b: seq<Event>)
    requires Complete(conf, meaning, a) && Complete(conf, meaning, b)
    requires Answered(env, drops, a) && Answered(env, drops, b)
    ensures a == b
  {
    hide Complete, Answered;
    NotLonger(conf, meaning, env, drops, a, b);
    NotLonger(conf, meaning, env, drops, b, a);
    SameWhole(conf, meaning, env, drops, a, b);
  }

  lemma SameWhole(conf: Conf, meaning: Meaning, env: Environment, drops: bool, a: seq<Event>, b: seq<Event>)
    requires Complete(conf, meaning, a) && Complete(conf, meaning, b)
    requires Answered(env, drops, a) && Answered(env, drops, b) && |a| == |b|
    ensures a == b
  {
    hide StateAfter, AnsweredAt;
    SamePrefix(conf, meaning, env, drops, a, b, |a|);
    assert a[..|a|] == a && b[..|a|] == b;
  }
}
