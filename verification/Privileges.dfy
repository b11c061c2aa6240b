/** Process credentials, the calls that change them, and the privilege drop (src/unix.rs). */
module Privileges {
  /** Real, effective and saved user and group ids, and the supplementary groups. */
  datatype Credentials = Credentials(ruid: nat, euid: nat, suid: nat, rgid: nat, egid: nat, sgid: nat, groups: seq<nat>)

  datatype Call =
    | SetUid(uid: nat)
    | SetResUid(ruid: nat, euid: nat, suid: nat)
    | SetResGid(rgid: nat, egid: nat, sgid: nat)
    | SetGroups(groups: seq<nat>)

  /** Whether the kernel grants a call (setuid(2), setresuid(2), setresgid(2), setgroups(2) on Linux). */
  predicate Granted(c: Credentials, call: Call) {
    c.euid == 0 ||
    match call
    case SetUid(u) => u == c.ruid || u == c.suid
    case SetResUid(r, e, s) => {r, e, s} <= {c.ruid, c.euid, c.suid}
    case SetResGid(r, e, s) => {r, e, s} <= {c.rgid, c.egid, c.sgid}
    case SetGroups(_) => false
  }

  function Effect(c: Credentials, call: Call): Credentials {
    match call
    case SetUid(u) => if c.euid == 0 then c.(ruid := u, euid := u, suid := u) else c.(euid := u)
    case SetResUid(r, e, s) => c.(ruid := r, euid := e, suid := s)
    case SetResGid(r, e, s) => c.(rgid := r, egid := e, sgid := s)
    case SetGroups(g) => c.(groups := g)
  }

  /** A refused call changes nothing. */
  function Perform(c: Credentials, call: Call): Credentials {
    if Granted(c, call) then Effect(c, call) else c
  }

  function PerformAll(c: Credentials, calls: seq<Call>): Credentials
    decreases |calls|
  {
    if calls == [] then c else PerformAll(Perform(c, calls[0]), calls[1..])
  }

  datatype Lookup = LookupFailed | NoUser | User(uid: nat, gid: nat)

  /** A process, whose credentials the system calls change in place. */
  class Process {
    var ruid: nat
    var euid: nat
    var suid: nat
    var rgid: nat
    var egid: nat
    var sgid: nat
    var groups: seq<nat>

    function Value(): Credentials
      reads this
    {
      Credentials(ruid, euid, suid, rgid, egid, sgid, groups)
    }

    method SetGroups(g: seq<nat>) returns (ok: bool)
      modifies this
      ensures ok == Granted(old(Value()), Call.SetGroups(g))
      ensures Value() == Perform(old(Value()), Call.SetGroups(g))
    {
      ok := euid == 0;
      if ok {
        groups := g;
      }
    }

    method SetResGid(r: nat, e: nat, s: nat) returns (ok: bool)
      modifies this
      ensures ok == Granted(old(Value()), Call.SetResGid(r, e, s))
      ensures Value() == Perform(old(Value()), Call.SetResGid(r, e, s))
    {
      ok := euid == 0 || {r, e, s} <= {rgid, egid, sgid};
      if ok {
        rgid, egid, sgid := r, e, s;
      }
    }

    method SetResUid(r: nat, e: nat, s: nat) returns (ok: bool)
      modifies this
      ensures ok == Granted(old(Value()), Call.SetResUid(r, e, s))
      ensures Value() == Perform(old(Value()), Call.SetResUid(r, e, s))
    {
      ok := euid == 0 || {r, e, s} <= {ruid, euid, suid};
      if ok {
        ruid, euid, suid := r, e, s;
      }
    }

    method SetUid(u: nat) returns (ok: bool)
      modifies this
      ensures ok == Granted(old(Value()), Call.SetUid(u))
      ensures Value() == Perform(old(Value()), Call.SetUid(u))
    {
      if euid == 0 {
        ruid, euid, suid, ok := u, u, u, true;
      } else if u == ruid || u == suid {
        euid, ok := u, true;
      } else {
        ok := false;
      }
    }

    /** `maybe_drop_privileges`: groups, then group ids, then user ids, then the attempt to get back. From root it succeeds
        exactly if the named user exists and is not root, or there is none of that name and `nobody` exists and is not root;
        then every id is that user's and the groups are empty. */
    method MaybeDropPrivileges(users: string -> Lookup, username: string) returns (ok: bool)
      modifies this
      ensures old(euid) != 0 ==> ok && Value() == old(Value())
      ensures old(euid) == 0 && users(username).LookupFailed? ==> !ok
      ensures forall u, g :: old(euid) == 0 && users(username) == User(u, g) ==>
        ok == (u != 0) && (ok ==> Value() == Credentials(u, u, u, g, g, g, []))
      ensures forall u, g :: old(euid) == 0 && users(username).NoUser? && users("nobody") == User(u, g) ==>
        ok == (u != 0) && (ok ==> Value() == Credentials(u, u, u, g, g, g, []))
      ensures old(euid) == 0 && users(username).NoUser? && !users("nobody").User? ==> !ok
    {
      if euid != 0 {
        return true;
      }
      var user := users(username);
      if user.LookupFailed? {
        return false;
      }
      if user.NoUser? {
        user := users("nobody");
      }
      if !user.User? {
        return false;
      }
      var uid, gid := user.uid, user.gid;
      ok := SetGroups([]);
      if !ok {
        return;
      }
      ok := SetResGid(gid, gid, gid);
      if !ok {
        return;
      }
      ok := SetResUid(uid, uid, uid);
      if !ok {
        return;
      }
      if ruid != uid || rgid != gid {
        return false;
      }
      var regained := SetUid(0);
      ok := !regained;
    }
  }

  /** Whether the drop succeeds, which the credentials and the user database decide. */
  predicate DropSucceeds(c: Credentials, users: string -> Lookup, username: string) {
    c.euid != 0 ||
    match users(username)
    case LookupFailed => false
    case NoUser => users("nobody").User? && users("nobody").uid != 0
    case User(u, _) => u != 0
  }

  // ---------------------------------------------------------------- no way back

  function Uids(c: Credentials): set<nat> { {c.ruid, c.euid, c.suid} }

  function Gids(c: Credentials): set<nat> { {c.rgid, c.egid, c.sgid} }

  /** Without root among its ids a process gains no id it did not have, and its groups stay as they are. */
  lemma {:induction false} NothingGained(c: Credentials, calls: seq<Call>)
    requires 0 !in Uids(c)
    decreases |calls|
    ensures var d := PerformAll(c, calls);
      Uids(d) <= Uids(c) && Gids(d) <= Gids(c) && d.groups == c.groups
  {
    if calls != [] {
      NothingGained(Perform(c, calls[0]), calls[1..]);
    }
  }

  /** Once every id is that of a user who is not root and the groups are empty, no later calls change any of that. */
  lemma DropIsPermanent(u: nat, g: nat, calls: seq<Call>)
    requires u != 0
    ensures PerformAll(Credentials(u, u, u, g, g, g, []), calls) == Credentials(u, u, u, g, g, g, [])
  {
    var c := Credentials(u, u, u, g, g, g, []);
    NothingGained(c, calls);
    var d := PerformAll(c, calls);
    assert d.ruid in Uids(d) && d.euid in Uids(d) && d.suid in Uids(d);
    assert d.rgid in Gids(d) && d.egid in Gids(d) && d.sgid in Gids(d);
  }

  ghost predicate CanRegainRoot(c: Credentials) {
    exists calls :: PerformAll(c, calls).euid == 0
  }

  /** After an `Ok` root can be regained exactly where the drop was skipped and root was still a real or saved id. */
  lemma RegainExact(before: Credentials, after: Credentials, u: nat, g: nat)
    requires if before.euid != 0 then after == before else u != 0 && after == Credentials(u, u, u, g, g, g, [])
    ensures CanRegainRoot(after) <==> before.euid != 0 && (before.ruid == 0 || before.suid == 0)
  {
    if 0 !in Uids(after) {
      forall calls ensures PerformAll(after, calls).euid != 0 {
        NothingGained(after, calls);
        assert PerformAll(after, calls).euid in Uids(PerformAll(after, calls));
      }
    } else {
      var back := [SetUid(0)];
      assert back[1..] == [];
      assert PerformAll(after, back) == Perform(after, SetUid(0));
      assert PerformAll(after, back).euid == 0;
    }
  }

  /** Giving up the user id first leaves the groups as they were, whatever is called afterwards. */
  lemma UidFirstKeepsGroups(c: Credentials, uid: nat, calls: seq<Call>)
    requires uid != 0 && Granted(c, SetResUid(uid, uid, uid))
    ensures PerformAll(Perform(c, SetResUid(uid, uid, uid)), calls).groups == c.groups
    ensures !Granted(PerformAll(Perform(c, SetResUid(uid, uid, uid)), calls), SetGroups([]))
  {
    var d := Perform(c, SetResUid(uid, uid, uid));
    NothingGained(d, calls);
    assert PerformAll(d, calls).euid in Uids(PerformAll(d, calls));
  }
}
