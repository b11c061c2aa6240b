/** The two texts of an envelope, written out: what is signed and what is uploaded (src/signatures.rs). */
module SignedText {
  import opened Text
  import opened Addresses
  import opened Records
  import opened Json
  import opened Signing

  /** Members between braces, each after the line break `inner`, the closing brace after `outer`. */
  function Braces(members: seq<string>, inner: string, outer: string): string {
    "{" + inner + Join(members, "," + inner) + outer + "}"
  }

  function Brackets(items: seq<string>, inner: string, outer: string): string {
    if items == [] then "[]" else "[" + inner + Join(items, "," + inner) + outer + "]"
  }

  // ---------------------------------------------------------------- the writers in these terms

  function FieldTexts(fields: seq<Field>, pretty: bool, depth: nat): seq<string> {
    seq(|fields|, i requires 0 <= i < |fields| => WriteField(fields[i], pretty, depth))
  }

  function ItemTexts(items: seq<Json>, pretty: bool, depth: nat): seq<string> {
    seq(|items|, i requires 0 <= i < |items| => Write(items[i], pretty, depth))
  }

  lemma {:induction false} FieldsJoined(fields: seq<Field>, pretty: bool, depth: nat)
    ensures WriteFields(fields, pretty, depth) == Join(FieldTexts(fields, pretty, depth), "," + Break(pretty, depth))
  {
    hide WriteField, Break;
    if |fields| > 1 {
      FieldsJoined(fields[1..], pretty, depth);
      assert FieldTexts(fields, pretty, depth)[1..] == FieldTexts(fields[1..], pretty, depth);
      AssocComma(WriteField(fields[0], pretty, depth), Break(pretty, depth), WriteFields(fields[1..], pretty, depth));
    }
  }

  lemma {:induction false} ItemsJoined(items: seq<Json>, pretty: bool, depth: nat)
    ensures WriteItems(items, pretty, depth) == Join(ItemTexts(items, pretty, depth), "," + Break(pretty, depth))
  {
    hide Write, Break;
    if |items| > 1 {
      ItemsJoined(items[1..], pretty, depth);
      assert ItemTexts(items, pretty, depth)[1..] == ItemTexts(items[1..], pretty, depth);
      AssocComma(Write(items[0], pretty, depth), Break(pretty, depth), WriteItems(items[1..], pretty, depth));
    }
  }

  lemma AssocComma(a: string, b: string, c: string)
    ensures a + "," + b + c == a + ("," + b) + c
  {
  }

  lemma ObjectWritten(fields: seq<Field>, pretty: bool, depth: nat)
    requires fields != []
    ensures Write(Obj(fields), pretty, depth)
      == Braces(FieldTexts(fields, pretty, depth + 1), Break(pretty, depth + 1), Break(pretty, depth))
  {
    hide FieldTexts, Break, WriteFields, Join;
    FieldsJoined(fields, pretty, depth + 1);
  }

  lemma ArrayWritten(items: seq<Json>, pretty: bool, depth: nat)
    ensures Write(Arr(items), pretty, depth)
      == Brackets(ItemTexts(items, pretty, depth + 1), Break(pretty, depth + 1), Break(pretty, depth))
  {
    hide Break, WriteItems, Join, Write;
    ItemsJoined(items, pretty, depth + 1);
    ArrayUnfold(items, pretty, depth);
  }

  lemma ArrayUnfold(items: seq<Json>, pretty: bool, depth: nat)
    ensures Write(Arr(items), pretty, depth)
      == if items == [] then "[]"
         else "[" + Break(pretty, depth + 1) + WriteItems(items, pretty, depth + 1) + Break(pretty, depth) + "]"
  {
    hide Break, WriteItems;
  }

  /** Text without quotes, backslashes and control characters is quoted as it is. */
  lemma {:induction false} EscapePlain(s: string)
    requires forall i :: 0 <= i < |s| ==> s[i] as int >= 0x20 && s[i] != '"' && s[i] != '\\'
    ensures EscapeText(s) == s
  {
    if s != "" {
      EscapePlain(s[1..]);
      assert s == [s[0]] + s[1..];
    }
  }

  predicate PlainKey(key: string) {
    forall i :: 0 <= i < |key| ==> 'A' <= key[i] <= 'Z' || 'a' <= key[i] <= 'z' || key[i] == '_'
  }

  /** A member is its quoted name, a colon, a blank where the text is pretty, and its value. */
  lemma FieldWritten(key: string, quoted: string, v: Json, pretty: bool, depth: nat)
    requires PlainKey(key) && quoted == "\"" + key + "\":"
    ensures WriteField(Field(key, v), pretty, depth) == (if pretty then quoted + " " else quoted) + Write(v, pretty, depth)
  {
    hide Write, EscapeText;
    EscapePlain(key);
    Assoc("\"" + key + "\"", ":", " ");
    Assoc("\"" + key, "\"", ":");
    assert "\"" + ":" == "\":" && ":" + " " == ": ";
  }

  lemma Assoc(a: string, b: string, c: string)
    ensures a + b + c == a + (b + c)
  {
  }

  // ---------------------------------------------------------------- the envelope

  /** The addresses as JSON strings. */
  function AddressQuotes(d: RecordData): seq<string> {
    match d
    case A(v4) => seq(|v4|, i requires 0 <= i < |v4| => QuoteText(V4Text(v4[i])))
    case AAAA(v6) => seq(|v6|, i requires 0 <= i < |v6| => QuoteText(V6Text(v6[i])))
  }

  lemma AddressesWritten(d: RecordData, pretty: bool, depth: nat)
    ensures ItemTexts(DataJson(d).fields[0].value.items, pretty, depth) == AddressQuotes(d)
  {
    hide V4Text, V6Text, QuoteText;
    var items := DataJson(d).fields[0].value.items;
    assert |items| == |AddressQuotes(d)|;
    forall i | 0 <= i < |items| ensures Write(items[i], pretty, depth) == AddressQuotes(d)[i] {
      assert items[i] == if d.A? then Str(V4Text(d.v4[i])) else Str(V6Text(d.v6[i]));
    }
  }

  lemma DataWritten(d: RecordData, key: string, pretty: bool, depth: nat)
    requires key == if d.A? then "\"A\":" else "\"AAAA\":"
    ensures Write(DataJson(d), pretty, depth)
      == Braces([(if pretty then key + " " else key)
                 + Brackets(AddressQuotes(d), Break(pretty, depth + 2), Break(pretty, depth + 1))],
                Break(pretty, depth + 1), Break(pretty, depth))
  {
    hide Write, AddressQuotes, Braces, Brackets, Break, ItemTexts, WriteField;
    var fields := DataJson(d).fields;
    AddressesWritten(d, pretty, depth + 2);
    ArrayWritten(fields[0].value.items, pretty, depth + 1);
    FieldWritten(fields[0].key, key, fields[0].value, pretty, depth + 1);
    ObjectWritten(fields, pretty, depth);
    FieldTextsOne(fields[0], pretty, depth + 1);
  }

  lemma FieldTextsOne(a: Field, pretty: bool, depth: nat)
    ensures FieldTexts([a], pretty, depth) == [WriteField(a, pretty, depth)]
  {
    hide WriteField;
  }

  lemma FieldTextsTwo(a: Field, b: Field, pretty: bool, depth: nat)
    ensures FieldTexts([a, b], pretty, depth) == [WriteField(a, pretty, depth), WriteField(b, pretty, depth)]
  {
    hide WriteField;
  }

  lemma FieldTextsThree(a: Field, b: Field, c: Field, pretty: bool, depth: nat)
    ensures FieldTexts([a, b, c], pretty, depth)
      == [WriteField(a, pretty, depth), WriteField(b, pretty, depth), WriteField(c, pretty, depth)]
  {
    hide WriteField;
  }

  lemma LeavesWritten(s: string, n: int, pretty: bool, depth: nat)
    ensures Write(Str(s), pretty, depth) == QuoteText(s) && Write(IntJson(n), pretty, depth) == IntText(n)
  {
    hide QuoteText, IntText;
  }

  lemma RecordKeys()
    ensures PlainKey("data") && "\"" + "data" + "\":" == "\"data\":"
    ensures PlainKey("name") && "\"" + "name" + "\":" == "\"name\":"
    ensures PlainKey("ttl") && "\"" + "ttl" + "\":" == "\"ttl\":"
  {
  }

  lemma CompactRecord(p: ResourceRecordSet)
    ensures var list := Brackets(AddressQuotes(p.data), "", "");
      var data := Braces([(if p.data.A? then "\"A\":" else "\"AAAA\":") + list], "", "");
      Write(Obj([Field("data", DataJson(p.data)), Field("name", Str(p.name)), Field("ttl", IntJson(p.ttl))]), false, 1)
        == Braces(["\"data\":" + data, "\"name\":" + QuoteText(p.name), "\"ttl\":" + IntText(p.ttl)], "", "")
  {
    hide Write, AddressQuotes, Braces, Brackets, DataJson, IntJson, QuoteText, WriteField, FieldTexts, IntText, Break;
    hide PlainKey;
    NoBreaks();
    RecordKeys();
    var data, name, ttl := Field("data", DataJson(p.data)), Field("name", Str(p.name)), Field("ttl", IntJson(p.ttl));
    DataWritten(p.data, if p.data.A? then "\"A\":" else "\"AAAA\":", false, 2);
    LeavesWritten(p.name, p.ttl, false, 2);
    FieldWritten("data", "\"data\":", data.value, false, 2);
    FieldWritten("name", "\"name\":", name.value, false, 2);
    FieldWritten("ttl", "\"ttl\":", ttl.value, false, 2);
    FieldTextsThree(data, name, ttl, false, 2);
    ObjectWritten([data, name, ttl], false, 1);
  }

  lemma NoBreaks()
    ensures forall depth: nat :: Break(false, depth) == ""
  {
  }

  /** What is signed: members in the order of their names, and no blanks (section 3.2 of RFC 8785). */
  lemma CanonicalWritten(e: Envelope)
    ensures var p := e.payload;
      var list := Brackets(AddressQuotes(p.data), "", "");
      var data := Braces([(if p.data.A? then "\"A\":" else "\"AAAA\":") + list], "", "");
      var record := Braces(["\"data\":" + data, "\"name\":" + QuoteText(p.name), "\"ttl\":" + IntText(p.ttl)], "", "");
      CanonicalText(e) == Braces(["\"payload\":" + record, "\"signed_at_unix_secs\":" + IntText(e.signedAt)], "", "")
  {
    hide Write, AddressQuotes, Braces, Brackets, DataJson, IntJson, QuoteText, WriteField, FieldTexts, IntText;
    var at := Field("signed_at_unix_secs", IntJson(e.signedAt));
    var payload := CanonicalJson(e).fields[0];
    CompactRecord(e.payload);
    LeavesWritten("", e.signedAt, false, 1);
    FieldWritten("payload", "\"payload\":", payload.value, false, 1);
    StampKey();
    FieldWritten("signed_at_unix_secs", "\"signed_at_unix_secs\":", at.value, false, 1);
    FieldTextsTwo(payload, at, false, 1);
    ObjectWritten([payload, at], false, 0);
  }

  lemma StampKey()
    ensures PlainKey("signed_at_unix_secs")
    ensures "\"" + "signed_at_unix_secs" + "\":" == "\"signed_at_unix_secs\":"
    ensures "\"signed_at_unix_secs\":" + " " == "\"signed_at_unix_secs\": "
  {
  }

  lemma Breaks()
    ensures Break(true, 0) == "\n" && Break(true, 1) == "\n  " && Break(true, 2) == "\n    "
    ensures Break(true, 3) == "\n      " && Break(true, 4) == "\n        " && Break(true, 5) == "\n          "
  {
  }

  lemma PrettyRecord(p: ResourceRecordSet)
    ensures var list := Brackets(AddressQuotes(p.data), "\n          ", "\n        ");
      var data := Braces([(if p.data.A? then "\"A\": " else "\"AAAA\": ") + list], "\n        ", "\n      ");
      Write(RecordJson(p), true, 2)
        == Braces(["\"name\": " + QuoteText(p.name), "\"ttl\": " + IntText(p.ttl), "\"data\": " + data],
                  "\n      ", "\n    ")
  {
    hide Write, AddressQuotes, Braces, Brackets, DataJson, IntJson, QuoteText, WriteField, FieldTexts, IntText, Break;
    var data, name, ttl := Field("data", DataJson(p.data)), Field("name", Str(p.name)), Field("ttl", IntJson(p.ttl));
    hide PlainKey;
    Breaks();
    RecordKeys();
    DataWritten(p.data, if p.data.A? then "\"A\":" else "\"AAAA\":", true, 3);
    LeavesWritten(p.name, p.ttl, true, 3);
    FieldWritten("data", "\"data\":", data.value, true, 3);
    FieldWritten("name", "\"name\":", name.value, true, 3);
    FieldWritten("ttl", "\"ttl\":", ttl.value, true, 3);
    assert "\"A\":" + " " == "\"A\": " && "\"AAAA\":" + " " == "\"AAAA\": ";
    assert "\"data\":" + " " == "\"data\": " && "\"name\":" + " " == "\"name\": " && "\"ttl\":" + " " == "\"ttl\": ";
    FieldTextsThree(name, ttl, data, true, 3);
    ObjectWritten([name, ttl, data], true, 2);
  }

  lemma PrettyEnvelope(e: Envelope)
    ensures var at := "\"signed_at_unix_secs\": " + IntText(e.signedAt);
      Write(EnvelopeJson(e), true, 1)
        == Braces(["\"payload\": " + Write(RecordJson(e.payload), true, 2), at], "\n    ", "\n  ")
  {
    hide Write, Braces, RecordJson, IntJson, WriteField, FieldTexts, IntText, Break;
    var payload, at := Field("payload", RecordJson(e.payload)), Field("signed_at_unix_secs", IntJson(e.signedAt));
    Breaks();
    LeavesWritten("", e.signedAt, true, 2);
    StampKey();
    FieldWritten("payload", "\"payload\":", payload.value, true, 2);
    FieldWritten("signed_at_unix_secs", "\"signed_at_unix_secs\":", at.value, true, 2);
    assert "\"payload\":" + " " == "\"payload\": ";
    FieldTextsTwo(payload, at, true, 2);
    ObjectWritten([payload, at], true, 1);
  }

  lemma EnvelopeKeys()
    ensures PlainKey("envelope") && "\"" + "envelope" + "\":" == "\"envelope\":"
    ensures PlainKey("signature") && "\"" + "signature" + "\":" == "\"signature\":"
    ensures "\"envelope\":" + " " == "\"envelope\": " && "\"signature\":" + " " == "\"signature\": "
  {
  }

  lemma PrettySigned(u: SignedPayload)
    ensures var signature := "\"signature\": " + QuoteText(HexEncode(u.signature));
      UploadText(u) == Braces(["\"envelope\": " + Write(EnvelopeJson(u.envelope), true, 1), signature], "\n  ", "\n")
  {
    hide Write, Braces, EnvelopeJson, QuoteText, WriteField, FieldTexts, Break, HexEncode, PlainKey;
    Breaks();
    EnvelopeKeys();
    var envelope, signature := Field("envelope", EnvelopeJson(u.envelope)), Field("signature", Str(HexEncode(u.signature)));
    LeavesWritten(HexEncode(u.signature), 0, true, 1);
    FieldWritten("envelope", "\"envelope\":", envelope.value, true, 1);
    FieldWritten("signature", "\"signature\":", signature.value, true, 1);
    FieldTextsTwo(envelope, signature, true, 1);
    ObjectWritten([envelope, signature], true, 0);
  }

  /** What is uploaded: members in the order of the structs, two blanks of indentation for each level. */
  lemma UploadWritten(u: SignedPayload)
    ensures var p := u.envelope.payload;
      var list := Brackets(AddressQuotes(p.data), "\n          ", "\n        ");
      var data := Braces([(if p.data.A? then "\"A\": " else "\"AAAA\": ") + list], "\n        ", "\n      ");
      var record := Braces(["\"name\": " + QuoteText(p.name), "\"ttl\": " + IntText(p.ttl), "\"data\": " + data],
                           "\n      ", "\n    ");
      var at := "\"signed_at_unix_secs\": " + IntText(u.envelope.signedAt);
      var envelope := Braces(["\"payload\": " + record, at], "\n    ", "\n  ");
      var signature := "\"signature\": " + QuoteText(HexEncode(u.signature));
      UploadText(u) == Braces(["\"envelope\": " + envelope, signature], "\n  ", "\n")
  {
    hide Write, AddressQuotes, Braces, Brackets, EnvelopeJson, RecordJson, QuoteText, IntText, HexEncode, UploadText;
    PrettyRecord(u.envelope.payload);
    PrettyEnvelope(u.envelope);
    PrettySigned(u);
  }
}
