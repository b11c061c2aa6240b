/** The signed envelope: its JSON schema, its canonical bytes and its signature (src/signatures.rs). */
module Signing {
  import opened Wrappers
  import opened Text
  import opened Addresses
  import opened Records
  import opened Json

  type I64 = n: int | -0x8000_0000_0000_0000 <= n < 0x8000_0000_0000_0000

  /** The 64 bytes of an Ed25519 signature. */
  type Signature = s: seq<Octet> | |s| == 64 witness seq(64, _ => 0)

  datatype Envelope = Envelope(payload: ResourceRecordSet, signedAt: I64)

  datatype SignedPayload = SignedPayload(envelope: Envelope, signature: Signature)

  // ---------------------------------------------------------------- symbolic signatures

  type VerifyingKey = seq<Octet>

  /** What a string of signature bytes stands for: one message signed with one key, or nothing. */
  datatype SignatureMeaning = Signed(key: VerifyingKey, message: string) | Meaningless

  type Meaning = seq<Octet> -> SignatureMeaning

  predicate Verify(meaning: Meaning, key: VerifyingKey, message: string, signature: Signature) {
    meaning(signature) == Signed(key, message)
  }

  // ---------------------------------------------------------------- hex

  function HexEncode(bytes: seq<Octet>): string {
    if bytes == [] then "" else HexByte(bytes[0]) + HexEncode(bytes[1..])
  }

  function HexDecode(s: string): Option<seq<Octet>> {
    if s == "" then Some([])
    else if |s| == 1 || !AllDigits(s[..2], Hex) then None
    else
      var tail := HexDecode(s[2..]);
      if tail.None? then None else Some([DigitValue(s[0]) * 16 + DigitValue(s[1])] + tail.value)
  }

  lemma {:induction false} HexRoundTrip(bytes: seq<Octet>)
    ensures HexDecode(HexEncode(bytes)) == Some(bytes)
  {
    if bytes != [] {
      HexRoundTrip(bytes[1..]);
      var h, tail := HexByte(bytes[0]), HexEncode(bytes[1..]);
      assert (h + tail)[..2] == h && (h + tail)[2..] == tail;
      assert [bytes[0]] + bytes[1..] == bytes;
    }
  }

  /** Two lower-case digits for each byte. */
  lemma {:induction false} HexForm(bytes: seq<Octet>)
    ensures |HexEncode(bytes)| == 2 * |bytes| && forall c :: c in HexEncode(bytes) ==> c in "0123456789abcdef"
  {
    hide DigitChar;
    if bytes != [] {
      HexForm(bytes[1..]);
      DigitIsDigit(bytes[0] / 16);
      DigitIsDigit(bytes[0] % 16);
    }
  }

  lemma DigitIsDigit(d: nat)
    requires d < 16
    ensures DigitChar(d) in "0123456789abcdef"
  {
    DigitCharExact(d);
  }

  /** Exactly the strings of 128 hex digits, in either case, are read as signatures. */
  function ParseSignature(s: string): Option<Signature> {
    var bytes := HexDecode(s);
    if bytes.Some? && |bytes.value| == 64 then Some(bytes.value) else None
  }

  lemma {:induction false} HexDecodeDomain(s: string)
    ensures HexDecode(s).Some? <==> |s| % 2 == 0 && AllDigits(s, Hex)
    ensures HexDecode(s).Some? ==> |HexDecode(s).value| == |s| / 2
    decreases |s|
  {
    if |s| >= 2 {
      HexDecodeDomain(s[2..]);
      assert s == s[..2] + s[2..];
    }
  }

  lemma SignatureDomain(s: string)
    ensures ParseSignature(s).Some? <==> |s| == 128 && AllDigits(s, Hex)
  {
    HexDecodeDomain(s);
  }

  // ---------------------------------------------------------------- to JSON

  function V4Strings(a: seq<V4>): seq<Json> {
    seq(|a|, i requires 0 <= i < |a| => Str(V4Text(a[i])))
  }

  function V6Strings(a: seq<V6>): seq<Json> {
    seq(|a|, i requires 0 <= i < |a| => Str(V6Text(a[i])))
  }

  /** The externally tagged enum: one member named after the variant. */
  function DataJson(d: RecordData): Json {
    match d
    case A(v4) => Obj([Field("A", Arr(V4Strings(v4)))])
    case AAAA(v6) => Obj([Field("AAAA", Arr(V6Strings(v6)))])
  }

  function IntJson(n: int): Json { Num(IntText(n)) }

  /** Members in the order the structs declare them. */
  function RecordJson(r: ResourceRecordSet): Json {
    Obj([Field("name", Str(r.name)), Field("ttl", IntJson(r.ttl)), Field("data", DataJson(r.data))])
  }

  function EnvelopeJson(e: Envelope): Json {
    Obj([Field("payload", RecordJson(e.payload)), Field("signed_at_unix_secs", IntJson(e.signedAt))])
  }

  function SignedJson(p: SignedPayload): Json {
    Obj([Field("envelope", EnvelopeJson(p.envelope)), Field("signature", Str(HexEncode(p.signature)))])
  }

  /** Members in the order of their names (RFC 8785 section 3.2.3). */
  function CanonicalJson(e: Envelope): Json {
    var r := e.payload;
    Obj([Field("payload", Obj([Field("data", DataJson(r.data)), Field("name", Str(r.name)), Field("ttl", IntJson(r.ttl))])),
         Field("signed_at_unix_secs", IntJson(e.signedAt))])
  }

  /** The integers that RFC 8785 prints as they are; from 2^53 on it prints the nearest double. */
  predicate SafeInteger(n: int) { -0x20_0000_0000_0000 < n < 0x20_0000_0000_0000 }

  /** The bytes that are signed, for envelopes whose time stamp is a safe integer. */
  function CanonicalText(e: Envelope): string { Compact(CanonicalJson(e)) }

  /** The object that the client uploads. */
  function UploadText(p: SignedPayload): string { Pretty(SignedJson(p)) }

  // ---------------------------------------------------------------- canonical order

  /** Every object in the value has its members in strictly ascending order of name. */
  predicate KeysAscend(v: Json)
    decreases v
  {
    match v
    case Arr(items) => forall i :: 0 <= i < |items| ==> KeysAscend(items[i])
    case Obj(fields) =>
      && (forall i, j :: 0 <= i < j < |fields| ==> Less(fields[i].key, fields[j].key))
      && forall i :: 0 <= i < |fields| ==> KeysAscend(fields[i].value)
    case _ => true
  }

  lemma DataAscends(d: RecordData)
    ensures KeysAscend(DataJson(d))
  {
    var items := if d.A? then V4Strings(d.v4) else V6Strings(d.v6);
    assert forall i :: 0 <= i < |items| ==> items[i].Str?;
    assert KeysAscend(Arr(items));
  }

  lemma SchemaKeysAscend()
    ensures Less("data", "name") && Less("data", "ttl") && Less("name", "ttl")
    ensures Less("payload", "signed_at_unix_secs")
  {
    LessAt("data", "name", 0);
    LessAt("data", "ttl", 0);
    LessAt("name", "ttl", 0);
    LessAt("payload", "signed_at_unix_secs", 0);
  }

  lemma PairAscends(a: Field, b: Field)
    requires Less(a.key, b.key) && KeysAscend(a.value) && KeysAscend(b.value)
    ensures KeysAscend(Obj([a, b]))
  {
  }

  lemma TripleAscends(a: Field, b: Field, c: Field)
    requires Less(a.key, b.key) && Less(b.key, c.key) && Less(a.key, c.key)
    requires KeysAscend(a.value) && KeysAscend(b.value) && KeysAscend(c.value)
    ensures KeysAscend(Obj([a, b, c]))
  {
  }

  lemma Rotate(a: Field, b: Field, c: Field)
    ensures multiset([a, b, c]) == multiset([b, c, a])
  {
    assert [a, b, c] == [a] + [b, c] && [b, c, a] == [b, c] + [a];
  }

  /** The canonical value is the struct's value with the members of each object put in order. */
  lemma CanonicalOrder(e: Envelope)
    ensures KeysAscend(CanonicalJson(e))
    ensures var c, r := CanonicalJson(e).fields, EnvelopeJson(e).fields;
      && |c| == |r| == 2 && c[0].key == r[0].key == "payload" && c[1] == r[1]
      && multiset(c[0].value.fields) == multiset(r[0].value.fields)
  {
    var r := e.payload;
    DataAscends(r.data);
    SchemaKeysAscend();
    TripleAscends(Field("data", DataJson(r.data)), Field("name", Str(r.name)), Field("ttl", IntJson(r.ttl)));
    Rotate(Field("data", DataJson(r.data)), Field("name", Str(r.name)), Field("ttl", IntJson(r.ttl)));
    PairAscends(CanonicalJson(e).fields[0], CanonicalJson(e).fields[1]);
  }

  // ---------------------------------------------------------------- from JSON

  /** The only member with this name; a missing or a repeated member is an error. */
  function Member(fields: seq<Field>, key: string): Option<Json> {
    if fields == [] then None
    else if fields[0].key == key
    then if HasMember(fields[1..], key) then None else Some(fields[0].value)
    else Member(fields[1..], key)
  }

  predicate HasMember(fields: seq<Field>, key: string) {
    exists i :: 0 <= i < |fields| && fields[i].key == key
  }

  /** The member with this name stands at `i`, and no other has it. */
  predicate OnlyAt(fields: seq<Field>, key: string, i: nat) {
    i < |fields| && fields[i].key == key && forall j :: 0 <= j < |fields| && j != i ==> fields[j].key != key
  }

  lemma {:induction false} MemberExact(fields: seq<Field>, key: string)
    ensures Member(fields, key).Some? <==> exists i: nat :: OnlyAt(fields, key, i)
    ensures forall i: nat :: OnlyAt(fields, key, i) ==> Member(fields, key) == Some(fields[i].value)
  {
    if fields != [] {
      var rest := fields[1..];
      MemberExact(rest, key);
      assert forall j :: 1 <= j < |fields| ==> fields[j] == rest[j - 1];
      if fields[0].key == key {
        forall i: nat | OnlyAt(fields, key, i) ensures i == 0 && !HasMember(rest, key) {
          assert fields[0].key == key;
        }
        if !HasMember(rest, key) {
          assert OnlyAt(fields, key, 0);
        }
      } else {
        forall i: nat | OnlyAt(fields, key, i) ensures i > 0 && OnlyAt(rest, key, i - 1) {
        }
        if i: nat :| OnlyAt(rest, key, i) {
          assert OnlyAt(fields, key, i + 1);
        }
      }
    }
  }

  /** The parts of a struct: by name from an object, where other members are ignored, or by position from an array. */
  function Parts2(v: Json, a: string, b: string): Option<(Json, Json)> {
    match v
    case Obj(fields) =>
      var x, y := Member(fields, a), Member(fields, b);
      if x.Some? && y.Some? then Some((x.value, y.value)) else None
    case Arr(items) => if |items| == 2 then Some((items[0], items[1])) else None
    case _ => None
  }

  function Parts3(v: Json, a: string, b: string, c: string): Option<(Json, Json, Json)> {
    match v
    case Obj(fields) =>
      var x, y, z := Member(fields, a), Member(fields, b), Member(fields, c);
      if x.Some? && y.Some? && z.Some? then Some((x.value, y.value, z.value)) else None
    case Arr(items) => if |items| == 3 then Some((items[0], items[1], items[2])) else None
    case _ => None
  }

  function DecodeText(v: Json): Option<string> {
    if v.Str? then Some(v.text) else None
  }

  function DecodeInt(v: Json): Option<int> {
    if v.Num? then IntegerOf(v.lexeme) else None
  }

  function DecodeV4s(items: seq<Json>): Option<seq<V4>> {
    if items == [] then Some([]) else
      var h, t := if items[0].Str? then ParseV4(items[0].text) else None, DecodeV4s(items[1..]);
      if h.Some? && t.Some? then Some([h.value] + t.value) else None
  }

  function DecodeV6s(items: seq<Json>): Option<seq<V6>> {
    if items == [] then Some([]) else
      var h, t := if items[0].Str? then ParseV6(items[0].text) else None, DecodeV6s(items[1..]);
      if h.Some? && t.Some? then Some([h.value] + t.value) else None
  }

  /** One member named after a variant, holding an array of address texts. */
  function DecodeData(v: Json): Option<RecordData> {
    if !v.Obj? || |v.fields| != 1 || !v.fields[0].value.Arr? then None
    else if v.fields[0].key == "A" then
      var a := DecodeV4s(v.fields[0].value.items);
      if a.Some? then Some(A(a.value)) else None
    else if v.fields[0].key == "AAAA" then
      var a := DecodeV6s(v.fields[0].value.items);
      if a.Some? then Some(AAAA(a.value)) else None
    else None
  }

  function DecodeRecord(v: Json): Option<ResourceRecordSet> {
    var p := Parts3(v, "name", "ttl", "data");
    if p.None? then None else
      var name, ttl, data := DecodeText(p.value.0), DecodeInt(p.value.1), DecodeData(p.value.2);
      if name.Some? && ttl.Some? && data.Some? && 0 <= ttl.value < 0x1_0000_0000
      then Some(ResourceRecordSet(name.value, ttl.value, data.value)) else None
  }

  function DecodeEnvelope(v: Json): Option<Envelope> {
    var p := Parts2(v, "payload", "signed_at_unix_secs");
    if p.None? then None else
      var payload, at := DecodeRecord(p.value.0), DecodeInt(p.value.1);
      if payload.Some? && at.Some? && -0x8000_0000_0000_0000 <= at.value < 0x8000_0000_0000_0000
      then Some(Envelope(payload.value, at.value)) else None
  }

  function DecodeSigned(v: Json): Option<SignedPayload> {
    var p := Parts2(v, "envelope", "signature");
    if p.None? then None else
      var envelope, hex := DecodeEnvelope(p.value.0), DecodeText(p.value.1);
      if envelope.None? || hex.None? then None else
        var signature := ParseSignature(hex.value);
        if signature.Some? then Some(SignedPayload(envelope.value, signature.value)) else None
  }

  /** What the server makes of an object's text. */
  function ParseUpload(text: string): Option<SignedPayload> {
    var v := ParseDocument(text);
    if v.None? then None else DecodeSigned(v.value)
  }

  // ---------------------------------------------------------------- reading undoes writing

  lemma {:induction false} V4sRoundTrip(a: seq<V4>)
    ensures DecodeV4s(V4Strings(a)) == Some(a)
  {
    hide ParseV4, V4Text;
    if a != [] {
      V4RoundTrip(a[0]);
      V4sRoundTrip(a[1..]);
      assert V4Strings(a)[1..] == V4Strings(a[1..]);
      assert [a[0]] + a[1..] == a;
    }
  }

  lemma {:induction false} V6sRoundTrip(a: seq<V6>)
    ensures DecodeV6s(V6Strings(a)) == Some(a)
  {
    hide ParseV6, V6Text;
    if a != [] {
      V6RoundTrip(a[0]);
      V6sRoundTrip(a[1..]);
      assert V6Strings(a)[1..] == V6Strings(a[1..]);
      assert [a[0]] + a[1..] == a;
    }
  }

  lemma DataRoundTrip(d: RecordData)
    ensures DecodeData(DataJson(d)) == Some(d)
    ensures WellFormed(DataJson(d))
  {
    match d
    case A(v4) =>
      V4sRoundTrip(v4);
      assert WellFormed(Arr(V4Strings(v4)));
    case AAAA(v6) =>
      V6sRoundTrip(v6);
      assert WellFormed(Arr(V6Strings(v6)));
  }

  lemma Pick2(a: Field, b: Field)
    requires a.key != b.key
    ensures Member([a, b], a.key) == Some(a.value) && Member([a, b], b.key) == Some(b.value)
  {
    assert [a, b][1..] == [b] && [b][1..] == [];
  }

  lemma Pick3(a: Field, b: Field, c: Field)
    requires a.key != b.key && a.key != c.key && b.key != c.key
    ensures Member([a, b, c], a.key) == Some(a.value)
    ensures Member([a, b, c], b.key) == Some(b.value)
    ensures Member([a, b, c], c.key) == Some(c.value)
  {
    assert [a, b, c][1..] == [b, c];
    Pick2(b, c);
  }

  lemma WellFormedTriple(a: Field, b: Field, c: Field)
    requires WellFormed(a.value) && WellFormed(b.value) && WellFormed(c.value)
    ensures WellFormed(Obj([a, b, c]))
  {
  }

  lemma RecordParts(r: ResourceRecordSet)
    ensures DecodeText(Str(r.name)) == Some(r.name) && WellFormed(Str(r.name))
    ensures DecodeInt(IntJson(r.ttl)) == Some(r.ttl) && WellFormed(IntJson(r.ttl))
    ensures DecodeData(DataJson(r.data)) == Some(r.data) && WellFormed(DataJson(r.data))
  {
    hide DataJson, DecodeData, IntText, IntegerOf;
    DataRoundTrip(r.data);
    IntegerRoundTrip(r.ttl);
  }

  lemma RecordRoundTrip(r: ResourceRecordSet)
    ensures DecodeRecord(RecordJson(r)) == Some(r)
    ensures WellFormed(RecordJson(r))
  {
    hide Member, DataJson, DecodeData, IntJson, DecodeInt, DecodeText, WellFormed;
    var name, ttl, data := Field("name", Str(r.name)), Field("ttl", IntJson(r.ttl)), Field("data", DataJson(r.data));
    RecordParts(r);
    Pick3(name, ttl, data);
    WellFormedTriple(name, ttl, data);
  }

  lemma SortedRecordRoundTrip(r: ResourceRecordSet)
    ensures var v := Obj([Field("data", DataJson(r.data)), Field("name", Str(r.name)), Field("ttl", IntJson(r.ttl))]);
      DecodeRecord(v) == Some(r) && WellFormed(v)
  {
    hide Member, DataJson, DecodeData, IntJson, DecodeInt, DecodeText, WellFormed;
    var name, ttl, data := Field("name", Str(r.name)), Field("ttl", IntJson(r.ttl)), Field("data", DataJson(r.data));
    RecordParts(r);
    Pick3(data, name, ttl);
    WellFormedTriple(data, name, ttl);
  }

  lemma EnvelopeFrom(payload: Json, r: ResourceRecordSet, at: I64)
    requires DecodeRecord(payload) == Some(r)
    ensures DecodeEnvelope(Obj([Field("payload", payload), Field("signed_at_unix_secs", IntJson(at))])) == Some(Envelope(r, at))
  {
    IntegerRoundTrip(at);
    PartsOfPair("payload", payload, "signed_at_unix_secs", IntJson(at));
  }

  lemma PartsOfPair(a: string, x: Json, b: string, y: Json)
    requires a != b
    ensures Parts2(Obj([Field(a, x), Field(b, y)]), a, b) == Some((x, y))
  {
    Pick2(Field(a, x), Field(b, y));
  }

  lemma WellFormedPair(a: Field, b: Field)
    requires WellFormed(a.value) && WellFormed(b.value)
    ensures WellFormed(Obj([a, b]))
  {
  }

  lemma EnvelopeRoundTrip(e: Envelope)
    ensures DecodeEnvelope(EnvelopeJson(e)) == Some(e) && WellFormed(EnvelopeJson(e))
    ensures DecodeEnvelope(CanonicalJson(e)) == Some(e) && WellFormed(CanonicalJson(e))
  {
    RecordRoundTrip(e.payload);
    EnvelopeFrom(RecordJson(e.payload), e.payload, e.signedAt);
    SortedRecordRoundTrip(e.payload);
    EnvelopeFrom(CanonicalJson(e).fields[0].value, e.payload, e.signedAt);
    IntegerRoundTrip(e.signedAt);
    var at := Field("signed_at_unix_secs", IntJson(e.signedAt));
    WellFormedPair(Field("payload", RecordJson(e.payload)), at);
    WellFormedPair(CanonicalJson(e).fields[0], at);
  }

  lemma PrettyIsWrite(v: Json)
    ensures Pretty(v) == Write(v, true, 0)
  {
  }

  /** The server reads back exactly the payload that the client uploaded. */
  lemma UploadRoundTrip(p: SignedPayload)
    ensures ParseUpload(UploadText(p)) == Some(p)
  {
    hide EnvelopeJson, Pretty, HexEncode, HexDecode, ParseDocument, WellFormed, DecodeEnvelope, Parts2;
    assert UploadText(p) == Write(SignedJson(p), true, 0) by { PrettyIsWrite(SignedJson(p)); }
    EnvelopeRoundTrip(p.envelope);
    HexRoundTrip(p.signature);
    PartsOfPair("envelope", EnvelopeJson(p.envelope), "signature", Str(HexEncode(p.signature)));
    WellFormedPair(Field("envelope", EnvelopeJson(p.envelope)), Field("signature", Str(HexEncode(p.signature))));
    DocumentRoundTrip(SignedJson(p), true, "", "");
    assert "" + (Write(SignedJson(p), true, 0) + "") == Write(SignedJson(p), true, 0);
  }

  /** The canonical bytes determine the envelope. */
  lemma CanonicalRoundTrip(e: Envelope)
    requires SafeInteger(e.signedAt)
    ensures var v := ParseDocument(CanonicalText(e)); v.Some? && DecodeEnvelope(v.value) == Some(e)
  {
    EnvelopeRoundTrip(e);
    DocumentRoundTrip(CanonicalJson(e), false, "", "");
    assert "" + (Write(CanonicalJson(e), false, 0) + "") == CanonicalText(e);
  }

  /** Distinct envelopes never share canonical bytes. */
  lemma CanonicalInjective(e: Envelope, e': Envelope)
    requires SafeInteger(e.signedAt) && SafeInteger(e'.signedAt)
    requires CanonicalText(e) == CanonicalText(e')
    ensures e == e'
  {
    CanonicalRoundTrip(e);
    CanonicalRoundTrip(e');
  }
}
