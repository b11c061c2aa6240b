/** The change batch and what committing it does to a DNS zone (src/server.rs, `build_changes`). */
module Batch {
  import opened Wrappers
  import opened Text
  import opened Records

  type ZoneKey = (string, RecordType)

  datatype RRSet = RRSet(ttl: U32, data: RecordData)

  type Zone = map<ZoneKey, RRSet>

  /** The name with its final dot. */
  function FixedName(name: string): string {
    if EndsWith(name, ".") then name else name + "."
  }

  function ToChange(r: ResourceRecordSet): Change {
    Upsert(ResourceRecordSet(FixedName(r.name), r.ttl, r.data))
  }

  function ToChanges(rs: seq<ResourceRecordSet>): seq<Change> {
    seq(|rs|, i requires 0 <= i < |rs| => ToChange(rs[i]))
  }

  function KeyOf(c: Change): ZoneKey {
    (c.recordSet.name, c.recordSet.data.RecordType())
  }

  function ValueOf(c: Change): RRSet {
    RRSet(c.recordSet.ttl, c.recordSet.data)
  }

  /** A committed batch: the upserts in order. */
  function Apply(z: Zone, cs: seq<Change>): Zone {
    if cs == [] then z else
      var last := cs[|cs| - 1];
      Apply(z, cs[..|cs| - 1])[KeyOf(last) := ValueOf(last)]
  }

  // ---------------------------------------------------------------- what a batch means

  /** The value of the last change with this key, if there is one. */
  function LastFor(cs: seq<Change>, k: ZoneKey): Option<RRSet> {
    if cs == [] then None
    else if KeyOf(cs[|cs| - 1]) == k then Some(ValueOf(cs[|cs| - 1]))
    else LastFor(cs[..|cs| - 1], k)
  }

  function Lookup(z: Zone, k: ZoneKey): Option<RRSet> {
    if k in z then Some(z[k]) else None
  }

  /** After a commit each key has the value of its last change; keys without a change keep what they had. */
  lemma {:induction false} LastChangeWins(z: Zone, cs: seq<Change>, k: ZoneKey)
    ensures Lookup(Apply(z, cs), k) == if LastFor(cs, k).Some? then LastFor(cs, k) else Lookup(z, k)
  {
    if cs != [] {
      LastChangeWins(z, cs[..|cs| - 1], k);
    }
  }

  /** The last change with key `k` stands at `i`. */
  predicate LastAt(cs: seq<Change>, k: ZoneKey, i: nat) {
    i < |cs| && KeyOf(cs[i]) == k && forall j :: i < j < |cs| ==> KeyOf(cs[j]) != k
  }

  lemma {:induction false} LastForExact(cs: seq<Change>, k: ZoneKey)
    ensures LastFor(cs, k).None? <==> forall i :: 0 <= i < |cs| ==> KeyOf(cs[i]) != k
    ensures LastFor(cs, k).Some? ==> exists i: nat :: LastAt(cs, k, i) && LastFor(cs, k) == Some(ValueOf(cs[i]))
  {
    hide KeyOf, ValueOf;
    if cs != [] {
      var front := cs[..|cs| - 1];
      LastForExact(front, k);
      assert forall i :: 0 <= i < |front| ==> front[i] == cs[i];
      if KeyOf(cs[|cs| - 1]) == k {
        assert LastAt(cs, k, |cs| - 1);
      } else if LastFor(front, k).Some? {
        var i: nat :| LastAt(front, k, i) && LastFor(front, k) == Some(ValueOf(front[i]));
        LastAtLonger(cs, k, i);
      }
    }
  }

  lemma LastAtLonger(cs: seq<Change>, k: ZoneKey, i: nat)
    requires cs != [] && LastAt(cs[..|cs| - 1], k, i) && KeyOf(cs[|cs| - 1]) != k
    ensures LastAt(cs, k, i)
  {
    hide KeyOf;
    forall j | i < j < |cs| ensures KeyOf(cs[j]) != k {
      assert j < |cs| - 1 ==> cs[..|cs| - 1][j] == cs[j];
    }
  }

  lemma SameLookups(z: Zone, z': Zone)
    requires forall k :: Lookup(z, k) == Lookup(z', k)
    ensures z == z'
  {
    forall k ensures k in z <==> k in z' {
      assert Lookup(z, k) == Lookup(z', k);
    }
    forall k | k in z ensures z[k] == z'[k] {
      assert Lookup(z, k) == Lookup(z', k);
    }
  }

  /** Whether a later batch says the same as an earlier one about every key it touches. */
  ghost predicate Agrees(later: seq<Change>, earlier: seq<Change>) {
    forall k :: LastFor(later, k).Some? ==> LastFor(later, k) == LastFor(earlier, k)
  }

  ghost predicate TouchesOnly(later: seq<Change>, earlier: seq<Change>) {
    forall k :: LastFor(later, k).Some? ==> LastFor(earlier, k).Some?
  }

  /** Applying changes again after a commit leaves the zone alone exactly when they agree with the batch committed. */
  lemma ReapplyExact(z: Zone, batch: seq<Change>, again: seq<Change>)
    requires TouchesOnly(again, batch)
    ensures Apply(Apply(z, batch), again) == Apply(z, batch) <==> Agrees(again, batch)
  {
    var z1 := Apply(z, batch);
    var z2 := Apply(z1, again);
    forall k ensures Lookup(z2, k) == if LastFor(again, k).Some? then LastFor(again, k) else Lookup(z1, k) {
      LastChangeWins(z1, again, k);
    }
    forall k ensures Lookup(z1, k) == if LastFor(batch, k).Some? then LastFor(batch, k) else Lookup(z, k) {
      LastChangeWins(z, batch, k);
    }
    if Agrees(again, batch) {
      SameLookups(z2, z1);
    }
    if z2 == z1 {
      forall k | LastFor(again, k).Some? ensures LastFor(again, k) == LastFor(batch, k) {
        assert Lookup(z2, k) == Lookup(z1, k);
      }
    }
  }

  /** Committing the same batch twice is committing it once. */
  lemma ReapplyWhole(z: Zone, batch: seq<Change>)
    ensures Apply(Apply(z, batch), batch) == Apply(z, batch)
  {
    ReapplyExact(z, batch, batch);
  }

  predicate DistinctKeys(cs: seq<Change>) {
    forall i, j :: 0 <= i < j < |cs| ==> KeyOf(cs[i]) != KeyOf(cs[j])
  }

  /** Any part of a committed batch with distinct keys, in any order and with repetitions, changes nothing. */
  lemma ReapplyPart(z: Zone, batch: seq<Change>, part: seq<Change>)
    requires DistinctKeys(batch) && forall c :: c in part ==> c in batch
    ensures Apply(Apply(z, batch), part) == Apply(z, batch)
  {
    forall k | LastFor(part, k).Some? ensures LastFor(part, k) == LastFor(batch, k) {
      LastForExact(part, k);
      LastForExact(batch, k);
      var i: nat :| LastAt(part, k, i) && LastFor(part, k) == Some(ValueOf(part[i]));
      assert part[i] in batch;
    }
    ReapplyExact(z, batch, part);
  }

  /** Without distinct keys a part of the batch can undo the rest of it. */
  lemma PartCanUndo(c: Change, d: Change, z: Zone)
    requires KeyOf(c) == KeyOf(d) && ValueOf(c) != ValueOf(d)
    ensures Apply(Apply(z, [c, d]), [c]) != Apply(z, [c, d])
  {
    var k := KeyOf(c);
    LastChangeWins(Apply(z, [c, d]), [c], k);
    LastChangeWins(z, [c, d], k);
  }

  /** A name and the same name with its final dot meet at one key. */
  lemma FixedNameExact(name: string, name': string)
    ensures FixedName(name) == FixedName(name') <==>
      name == name' || (name == name' + "." && !EndsWith(name', ".")) || (name' == name + "." && !EndsWith(name, "."))
    ensures EndsWith(FixedName(name), ".") && FixedName(FixedName(name)) == FixedName(name)
  {
    forall s: string ensures EndsWith(s + ".", ".") && (s + ".")[..|s|] == s {
      assert (s + ".")[|s|..] == ".";
    }
    if FixedName(name) == FixedName(name') && EndsWith(name, ".") == EndsWith(name', ".") == false {
      assert (name + ".")[..|name|] == name && (name' + ".")[..|name'|] == name';
    }
  }

  /** The loop of `build_changes`. */
  method BuildChanges(records: seq<ResourceRecordSet>) returns (changes: seq<Change>)
    ensures changes == ToChanges(records)
    ensures |changes| == |records|
    ensures forall i :: 0 <= i < |records| ==>
      && changes[i].recordSet.name == (if EndsWith(records[i].name, ".") then records[i].name else records[i].name + ".")
      && changes[i].recordSet.ttl == records[i].ttl && changes[i].recordSet.data == records[i].data
  {
    hide EndsWith;
    changes := [];
    for i := 0 to |records|
      invariant changes == ToChanges(records[..i])
    {
      var r := records[i];
      var fixedName := r.name;
      if !EndsWith(r.name, ".") {
        fixedName := fixedName + ".";
      }
      changes := changes + [Upsert(ResourceRecordSet(fixedName, r.ttl, r.data))];
      assert records[..i + 1] == records[..i] + [r];
    }
    assert records[..|records|] == records;
  }
}
