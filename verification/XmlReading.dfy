/** Reading a change document gives back what was written into it. */
module XmlReading {
  import opened Wrappers
  import opened Text
  import opened Addresses
  import opened Records
  import opened Xml

  // ---------------------------------------------------------------- one tag, one element

  lemma SkipToTag(indent: nat, tag: string, rest: string)
    ensures SkipBlanks(Spaces(indent) + ("<" + tag + ">") + rest) == "<" + tag + ">" + rest
  {
    var s := "<" + tag + ">" + rest;
    assert Spaces(indent) + ("<" + tag + ">") + rest == Spaces(indent) + s;
    SkipConcat(Spaces(indent), s);
    SkipNone(s);
  }

  lemma TakeMarkOf(indent: nat, tag: string, rest: string)
    ensures TakeMark(SkipBlanks(Mark(indent, tag, rest)), tag) == Some(SkipBlanks(rest))
  {
    SkipToTag(indent, tag, "\n" + rest);
    EatConcat("<" + tag + ">", "\n" + rest);
    SkipConcat("\n", rest);
  }

  lemma TakeEndTag(tag: string, rest: string)
    ensures TakeMark(("</" + tag + ">") + ("\n" + rest), "/" + tag) == Some(SkipBlanks(rest))
  {
    assert "<" + ("/" + tag) + ">" == "</" + tag + ">";
    EatConcat("</" + tag + ">", "\n" + rest);
    SkipConcat("\n", rest);
  }

  lemma TakeLeafOf(indent: nat, tag: string, raw: string, text: string, rest: string)
    requires '<' !in raw && Unescape(raw) == Some(text)
    ensures TakeLeaf(SkipBlanks(Leaf(indent, tag, raw, rest)), tag) == Some(Parsed(text, SkipBlanks(rest)))
  {
    hide Unescape, SkipBlanks, TakeMark, Before, Eat;
    var after := ("</" + tag + ">") + ("\n" + rest);
    SkipToTag(indent, tag, raw + after);
    EatConcat("<" + tag + ">", raw + after);
    BeforeConcat(raw, after, '<');
    TakeEndTag(tag, rest);
  }

  lemma StartsAt(s: string, lit: string, k: nat)
    requires k < |lit|
    ensures StartsWith(s, lit) ==> s[k] == lit[k]
  {
    if StartsWith(s, lit) {
      assert s[..|lit|][k] == s[k];
    }
  }

  /** A tag is not mistaken for another one that differs from it at `k`. */
  lemma OtherMark(indent: nat, tag: string, rest: string, other: string, k: nat)
    requires k < |tag| && k < |other| && tag[k] != other[k]
    ensures var s := SkipBlanks(Spaces(indent) + ("<" + tag + ">") + rest);
      TakeMark(s, other).None? && TakeLeaf(s, other).None?
  {
    SkipToTag(indent, tag, rest);
    var s, lit := "<" + tag + ">" + rest, "<" + other + ">";
    assert s[k + 1] == tag[k] && lit[k + 1] == other[k];
    StartsAt(s, lit, k + 1);
  }

  lemma OtherMarkOf(indent: nat, tag: string, rest: string, other: string, k: nat)
    requires k < |tag| && k < |other| && tag[k] != other[k]
    ensures TakeMark(SkipBlanks(Mark(indent, tag, rest)), other).None?
    ensures TakeLeaf(SkipBlanks(Mark(indent, tag, rest)), other).None?
  {
    OtherMark(indent, tag, "\n" + rest, other, k);
  }

  // ---------------------------------------------------------------- values

  predicate Plain(s: string) {
    forall i :: 0 <= i < |s| ==> !IsSpecial(s[i])
  }

  lemma PlainUnescape(s: string)
    requires Plain(s)
    ensures Unescape(s) == Some(s) && '<' !in s
  {
    EscapePlain(s);
    EscapeRoundTrip(s);
  }

  lemma V4TextPlain(v: V4)
    ensures Plain(V4Text(v))
  {
    forall c | IsSpecial(c) ensures c !in V4Text(v) {
      V4TextLacks(v, c);
    }
    forall i | 0 <= i < |V4Text(v)| ensures !IsSpecial(V4Text(v)[i]) {
      assert V4Text(v)[i] in V4Text(v);
    }
  }

  lemma V4TextLacks(v: V4, c: char)
    requires DigitValue(c) == 16 && c != '.'
    ensures c !in V4Text(v)
  {
    NumTextLacks(v.a, Decimal, c);
    NumTextLacks(v.b, Decimal, c);
    NumTextLacks(v.c, Decimal, c);
    NumTextLacks(v.d, Decimal, c);
    JoinLacks([NumText(v.a, Decimal), NumText(v.b, Decimal), NumText(v.c, Decimal), NumText(v.d, Decimal)], ".", c);
  }

  lemma GroupsTextLacks(g: seq<Group>, c: char)
    requires DigitValue(c) == 16 && c != ':'
    ensures c !in GroupsText(g)
  {
    forall i | 0 <= i < |g| ensures c !in GroupTexts(g)[i] {
      NumTextLacks(g[i], Hex, c);
    }
    JoinLacks(GroupTexts(g), ":", c);
  }

  lemma V6TextLacks(g: V6, c: char)
    requires IsSpecial(c)
    ensures c !in V6Text(g)
  {
    hide V4Text, ToV4Mapped, GroupsText, LongestZeros, ZeroRunAt;
    if ToV4Mapped(g).Some? {
      V4TextLacks(ToV4Mapped(g).value, c);
    } else {
      var s := LongestZeros(g, 0);
      GroupsTextLacks(g[..s], c);
      GroupsTextLacks(g[s + ZeroRunAt(g, s)..], c);
      GroupsTextLacks(g, c);
    }
  }

  lemma V6TextPlain(g: V6)
    ensures Plain(V6Text(g))
  {
    forall c | IsSpecial(c) ensures c !in V6Text(g) {
      V6TextLacks(g, c);
    }
    forall i | 0 <= i < |V6Text(g)| ensures !IsSpecial(V6Text(g)[i]) {
      assert V6Text(g)[i] in V6Text(g);
    }
  }

  lemma AddressTextsPlain(d: RecordData)
    ensures forall i :: 0 <= i < |AddressTexts(d)| ==> Plain(AddressTexts(d)[i])
  {
    forall i | 0 <= i < |AddressTexts(d)| ensures Plain(AddressTexts(d)[i]) {
      if d.A? {
        V4TextPlain(d.v4[i]);
      } else {
        V6TextPlain(d.v6[i]);
      }
    }
  }

  lemma NumTextPlain(n: nat)
    ensures Plain(NumText(n, Decimal))
  {
    NumRoundTrip(n, Decimal);
    var t := NumText(n, Decimal);
    forall i | 0 <= i < |t| ensures !IsSpecial(t[i]) {
      assert DigitValue(t[i]) < 10;
    }
  }

  lemma {:induction false} ReadValuesOf(values: seq<string>, rest: string)
    requires forall i :: 0 <= i < |values| ==> Plain(values[i])
    requires TakeMark(SkipBlanks(rest), "ResourceRecord").None?
    ensures ReadValues(SkipBlanks(ValuesText(values, rest))) == Some(Parsed(values, SkipBlanks(rest)))
  {
    hide Mark, Leaf, TakeMark, TakeLeaf;
    if values != [] {
      var tail := ValuesText(values[1..], rest);
      var close := Mark(12, "/ResourceRecord", tail);
      TakeMarkOf(12, "ResourceRecord", Leaf(21, "Value", values[0], close));
      PlainUnescape(values[0]);
      TakeLeafOf(21, "Value", values[0], values[0], close);
      TakeMarkOf(12, "/ResourceRecord", tail);
      ReadValuesOf(values[1..], rest);
      assert [values[0]] + values[1..] == values;
    }
  }

  lemma {:induction false} ReadV4sOf(a: seq<V4>)
    ensures ReadV4s(AddressTexts(A(a))) == Some(a)
  {
    hide ParseV4, V4Text;
    if a != [] {
      V4RoundTrip(a[0]);
      ReadV4sOf(a[1..]);
      assert AddressTexts(A(a))[1..] == AddressTexts(A(a[1..]));
      assert [a[0]] + a[1..] == a;
    }
  }

  lemma {:induction false} ReadV6sOf(a: seq<V6>)
    ensures ReadV6s(AddressTexts(AAAA(a))) == Some(a)
  {
    hide ParseV6, V6Text;
    if a != [] {
      V6RoundTrip(a[0]);
      ReadV6sOf(a[1..]);
      assert AddressTexts(AAAA(a))[1..] == AddressTexts(AAAA(a[1..]));
      assert [a[0]] + a[1..] == a;
    }
  }

  lemma ReadDataOf(d: RecordData)
    ensures ReadData(d.RecordType().Show(), AddressTexts(d)) == Some(d)
  {
    match d
    case A(v4) => ReadV4sOf(v4);
    case AAAA(v6) => ReadV6sOf(v6);
  }

  // ---------------------------------------------------------------- records, changes, documents

  lemma ReadRecordOf(r: ResourceRecordSet, rest: string)
    ensures ReadRecord(SkipBlanks(RecordText(r, rest))) == Some(Parsed(r, SkipBlanks(rest)))
  {
    hide Mark, Leaf, TakeMark, TakeLeaf, ReadValues, ValuesText, ReadData, AddressTexts, NumText, ParseDecimal;
    hide Escape, Unescape, SkipBlanks;
    var values := AddressTexts(r.data);
    var kind, ttl := r.data.RecordType().Show(), NumText(r.ttl, Decimal);
    var k4 := Mark(10, "/ResourceRecords", rest);
    var k3 := Mark(10, "ResourceRecords", ValuesText(values, k4));
    var k2 := Leaf(10, "TTL", ttl, k3);
    var k1 := Leaf(10, "Type", kind, k2);
    EscapeRoundTrip(r.name);
    TakeLeafOf(10, "Name", Escape(r.name), r.name, k1);
    PlainUnescape(kind);
    TakeLeafOf(10, "Type", kind, kind, k2);
    NumTextPlain(r.ttl);
    PlainUnescape(ttl);
    TakeLeafOf(10, "TTL", ttl, ttl, k3);
    TakeMarkOf(10, "ResourceRecords", ValuesText(values, k4));
    AddressTextsPlain(r.data);
    OtherMarkOf(10, "/ResourceRecords", rest, "ResourceRecord", 0);
    ReadValuesOf(values, k4);
    TakeMarkOf(10, "/ResourceRecords", rest);
    ReadDataOf(r.data);
    ParseDecimalText(r.ttl);
  }

  lemma ReadChangeOf(c: Change, rest: string)
    ensures ReadChange(SkipBlanks(ChangeText(c, rest))) == Some(Parsed(c, SkipBlanks(rest)))
    ensures TakeMark(SkipBlanks(ChangeText(c, rest)), "Change").Some?
  {
    hide Mark, Leaf, TakeMark, TakeLeaf;
    var k4 := Mark(6, "/Change", rest);
    var k3 := Mark(8, "/ResourceRecordSet", k4);
    var k2 := Mark(8, "ResourceRecordSet", RecordText(c.recordSet, k3));
    var k1 := Leaf(8, "Action", "UPSERT", k2);
    TakeMarkOf(6, "Change", k1);
    PlainUnescape("UPSERT");
    TakeLeafOf(8, "Action", "UPSERT", "UPSERT", k2);
    TakeMarkOf(8, "ResourceRecordSet", RecordText(c.recordSet, k3));
    ReadRecordOf(c.recordSet, k3);
    TakeMarkOf(8, "/ResourceRecordSet", k4);
    TakeMarkOf(6, "/Change", rest);
  }

  lemma {:induction false} ReadChangesOf(cs: seq<Change>, rest: string)
    requires TakeMark(SkipBlanks(rest), "Change").None?
    ensures ReadChanges(SkipBlanks(ChangesText(cs, rest))) == Some(Parsed(cs, SkipBlanks(rest)))
  {
    hide ChangeText, ReadChange, TakeMark;
    if cs != [] {
      ReadChangeOf(cs[0], ChangesText(cs[1..], rest));
      ReadChangesOf(cs[1..], rest);
      assert [cs[0]] + cs[1..] == cs;
    }
  }

  lemma ReadBatchOf(comment: Option<string>, cs: seq<Change>)
    ensures ReadBatch(SkipBlanks(BatchText(comment, cs))) == Some(Document(comment, cs))
  {
    hide Mark, Leaf, TakeMark, TakeLeaf, ReadChanges, ChangesText, Escape, Unescape, SkipBlanks;
    var changes := Mark(4, "Changes", ChangesText(cs, CLOSING));
    if comment.Some? {
      EscapeRoundTrip(comment.value);
      TakeLeafOf(4, "Comment", Escape(comment.value), comment.value, changes);
    } else {
      OtherMarkOf(4, "Changes", ChangesText(cs, CLOSING), "Comment", 1);
    }
    TakeMarkOf(4, "Changes", ChangesText(cs, CLOSING));
    OtherMarkOf(4, "/Changes", Mark(2, "/ChangeBatch", END), "Change", 0);
    ReadChangesOf(cs, CLOSING);
    TakeMarkOf(4, "/Changes", Mark(2, "/ChangeBatch", END));
    TakeMarkOf(2, "/ChangeBatch", END);
    SkipEnd();
  }

  lemma SkipEnd()
    ensures SkipBlanks(END) == END
  {
    SkipNone(END);
  }

  lemma StartsWithTag(tag: string, rest: string)
    ensures SkipBlanks(Mark(0, tag, rest)) == Mark(0, tag, rest)
  {
    assert Mark(0, tag, rest)[0] == '<';
    SkipNone(Mark(0, tag, rest));
  }

  lemma ReadHeadOf(prolog: string, request: string, rest: string)
    ensures ReadHead(HeadText(prolog, request, rest), prolog, request) == Some(SkipBlanks(rest))
  {
    hide Mark, TakeMark, SkipBlanks;
    var k2 := Mark(2, "ChangeBatch", rest);
    var k1 := Mark(0, request, k2);
    StartsWithTag(prolog, k1);
    TakeMarkOf(0, prolog, k1);
    TakeMarkOf(0, request, k2);
    TakeMarkOf(2, "ChangeBatch", rest);
  }

  /** The document loses nothing: comment, names, types, TTLs and every address are read back in order. */
  lemma DocumentRoundTrip(comment: Option<string>, cs: seq<Change>)
    ensures ReadDocument(DocumentText(comment, cs)) == Some(Document(comment, cs))
  {
    hide HeadText, ReadHead, BatchText, ReadBatch, SkipBlanks;
    ReadHeadOf(PROLOG, REQUEST, BatchText(comment, cs));
    ReadBatchOf(comment, cs);
  }

  /** Different batches never share a document. */
  lemma DocumentInjective(comment: Option<string>, cs: seq<Change>, comment': Option<string>, cs': seq<Change>)
    requires DocumentText(comment, cs) == DocumentText(comment', cs')
    ensures comment == comment' && cs == cs'
  {
    hide DocumentText, ReadDocument;
    DocumentRoundTrip(comment, cs);
    DocumentRoundTrip(comment', cs');
  }
}
