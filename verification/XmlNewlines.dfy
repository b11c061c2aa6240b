/** What line-end normalisation (XML 1.0 section 2.11) does to a change document. */
module XmlNewlines {
  import opened Wrappers
  import opened Text
  import opened Addresses
  import opened Records
  import opened Xml
  import opened XmlReading

  const CR := '\r'

  /** An XML processor reads CR LF, and a CR alone, as one LF. */
  function Normalize(s: string): string {
    if s == "" then ""
    else if s[0] == CR then
      if |s| > 1 && s[1] == '\n' then Normalize(s[1..]) else "\n" + Normalize(s[1..])
    else [s[0]] + Normalize(s[1..])
  }

  lemma {:induction false} NormalizeExact(s: string)
    ensures CR !in Normalize(s)
    ensures Normalize(s) == s <==> CR !in s
  {
    if s != "" {
      NormalizeExact(s[1..]);
      assert [s[0]] + s[1..] == s;
    }
  }

  lemma {:induction false} NormalizeConcat(a: string, b: string)
    requires b != "" ==> b[0] != '\n'
    ensures Normalize(a + b) == Normalize(a) + Normalize(b)
  {
    if a == "" {
      assert a + b == b;
    } else {
      NormalizeConcat(a[1..], b);
      assert (a + b)[1..] == a[1..] + b;
      if |a| == 1 && b != "" {
        assert (a + b)[1] == b[0];
      }
    }
  }

  /** Wherever it stands, a CR LF becomes one LF, and so does a CR without a LF behind it. */
  lemma NormalizeLaws(a: string, b: string)
    ensures Normalize(a + ("\r\n" + b)) == Normalize(a) + ("\n" + Normalize(b))
    ensures !(b != "" && b[0] == '\n') ==> Normalize(a + ("\r" + b)) == Normalize(a) + ("\n" + Normalize(b))
  {
    hide Normalize;
    NormalizeConcat(a, "\r\n" + b);
    assert "\r\n" + b == [CR] + ("\n" + b);
    NormalizeCrLf(b);
    if !(b != "" && b[0] == '\n') {
      NormalizeConcat(a, "\r" + b);
      NormalizeConcat("\r", b);
      NormalizeLone();
    }
  }

  lemma NormalizeCrLf(b: string)
    ensures Normalize([CR] + ("\n" + b)) == "\n" + Normalize(b)
  {
    assert ([CR] + ("\n" + b))[1..] == "\n" + b && ("\n" + b)[1..] == b;
  }

  lemma NormalizeLone()
    ensures Normalize("\r") == "\n"
  {
  }

  lemma {:induction false} NormalizePlain(plain: string, rest: string)
    requires CR !in plain
    ensures Normalize(plain + rest) == plain + Normalize(rest)
  {
    if plain == "" {
      assert plain + rest == rest;
    } else {
      NormalizePlain(plain[1..], rest);
      assert (plain + rest)[1..] == plain[1..] + rest;
      assert plain + Normalize(rest) == [plain[0]] + (plain[1..] + Normalize(rest));
    }
  }

  /** Escaping leaves line ends alone. */
  lemma EscapeHead(s: string, rest: string)
    requires rest != "" && rest[0] != '\n'
    ensures var t := Escape(s) + rest; t != "" && (t[0] == '\n' <==> s != "" && s[0] == '\n')
  {
    if s == "" {
      assert Escape(s) + rest == rest;
    }
  }

  lemma {:induction false} NormalizeEscaped(s: string, rest: string)
    requires rest != "" && rest[0] != '\n'
    ensures Normalize(Escape(s) + rest) == Escape(Normalize(s)) + Normalize(rest)
  {
    if s == "" {
      assert Escape(s) + rest == rest;
    } else {
      NormalizeEscaped(s[1..], rest);
      assert s == [s[0]] + s[1..];
      if s[0] == CR {
        NormalizeEscapedCr(s[1..], rest);
      } else {
        NormalizeEscapedChar(s[0], s[1..], rest);
      }
    }
  }

  lemma NormalizeEscapedCr(s: string, rest: string)
    requires rest != "" && rest[0] != '\n'
    requires Normalize(Escape(s) + rest) == Escape(Normalize(s)) + Normalize(rest)
    ensures Normalize(Escape([CR] + s) + rest) == Escape(Normalize([CR] + s)) + Normalize(rest)
  {
    hide Normalize, Escape;
    EscapeHead(s, rest);
    NormalizeCr(s, Escape(s) + rest);
    EscapeCons(CR, s, rest);
    EscapeCons('\n', Normalize(s), Normalize(rest));
    assert "" + Normalize(s) == Normalize(s);
    assert "\n" + (Escape(Normalize(s)) + Normalize(rest)) == ['\n'] + (Escape(Normalize(s)) + Normalize(rest));
  }

  lemma NormalizeEscapedChar(c: char, s: string, rest: string)
    requires c != CR
    requires Normalize(Escape(s) + rest) == Escape(Normalize(s)) + Normalize(rest)
    ensures Normalize(Escape([c] + s) + rest) == Escape(Normalize([c] + s)) + Normalize(rest)
  {
    hide Normalize, Escape;
    EscapeCons(c, s, rest);
    NormalizePlain(EscapeChar(c), Escape(s) + rest);
    NormalizePlain([c], s);
    EscapeCons(c, Normalize(s), Normalize(rest));
  }

  lemma EscapeCons(c: char, s: string, rest: string)
    ensures Escape([c] + s) + rest == EscapeChar(c) + (Escape(s) + rest)
  {
    hide EscapeChar;
    assert ([c] + s)[1..] == s;
    Assoc(EscapeChar(c), Escape(s), rest);
  }

  lemma NormalizeCr(s: string, tail: string)
    requires tail != "" && (tail[0] == '\n' <==> s != "" && s[0] == '\n')
    ensures Normalize([CR] + tail) == (if tail[0] == '\n' then "" else "\n") + Normalize(tail)
    ensures Normalize([CR] + s) == (if tail[0] == '\n' then "" else "\n") + Normalize(s)
  {
    assert ([CR] + tail)[1..] == tail && ([CR] + s)[1..] == s;
  }

  // ---------------------------------------------------------------- through the document

  function NormalizeChange(c: Change): Change {
    Upsert(ResourceRecordSet(Normalize(c.recordSet.name), c.recordSet.ttl, c.recordSet.data))
  }

  function NormalizeChanges(cs: seq<Change>): seq<Change> {
    seq(|cs|, i requires 0 <= i < |cs| => NormalizeChange(cs[i]))
  }

  function NormalizeComment(comment: Option<string>): Option<string> {
    if comment.Some? then Some(Normalize(comment.value)) else None
  }

  lemma NormalizeMark(indent: nat, tag: string, rest: string)
    requires CR !in tag
    ensures Normalize(Mark(indent, tag, rest)) == Mark(indent, tag, Normalize(rest))
  {
    var plain := Spaces(indent) + ("<" + tag + ">") + "\n";
    assert Mark(indent, tag, rest) == plain + rest;
    NormalizePlain(plain, rest);
    assert Mark(indent, tag, Normalize(rest)) == plain + Normalize(rest);
  }

  lemma NormalizeLeaf(indent: nat, tag: string, text: string, rest: string)
    requires CR !in tag
    ensures Normalize(Leaf(indent, tag, Escape(text), rest)) == Leaf(indent, tag, Escape(Normalize(text)), Normalize(rest))
  {
    hide Escape, Normalize;
    var open, close := Spaces(indent) + ("<" + tag + ">"), ("</" + tag + ">") + "\n";
    assert ("</" + tag + ">") + ("\n" + rest) == close + rest;
    assert ("</" + tag + ">") + ("\n" + Normalize(rest)) == close + Normalize(rest);
    NormalizePlain(open, Escape(text) + (close + rest));
    NormalizeEscaped(text, close + rest);
    NormalizePlain(close, rest);
  }

  lemma NormalizeFixedLeaf(indent: nat, tag: string, text: string, rest: string)
    requires CR !in tag && CR !in text && Plain(text)
    ensures Normalize(Leaf(indent, tag, text, rest)) == Leaf(indent, tag, text, Normalize(rest))
  {
    EscapePlain(text);
    NormalizeExact(text);
    NormalizeLeaf(indent, tag, text, rest);
  }

  lemma {:induction false} NormalizeValues(values: seq<string>, rest: string)
    requires forall i :: 0 <= i < |values| ==> Plain(values[i]) && CR !in values[i]
    ensures Normalize(ValuesText(values, rest)) == ValuesText(values, Normalize(rest))
  {
    hide Mark, Leaf, Normalize;
    if values != [] {
      var tail := ValuesText(values[1..], rest);
      var close := Mark(12, "/ResourceRecord", tail);
      NormalizeMark(12, "ResourceRecord", Leaf(21, "Value", values[0], close));
      NormalizeFixedLeaf(21, "Value", values[0], close);
      NormalizeMark(12, "/ResourceRecord", tail);
      NormalizeValues(values[1..], rest);
    }
  }

  lemma V4TextLine(v: V4)
    ensures CR !in V4Text(v)
  {
    V4TextLacks(v, CR);
  }

  lemma V6TextLine(g: V6)
    ensures CR !in V6Text(g)
  {
    hide V4Text, ToV4Mapped, GroupsText, LongestZeros, ZeroRunAt;
    if ToV4Mapped(g).Some? {
      V4TextLine(ToV4Mapped(g).value);
    } else {
      var s := LongestZeros(g, 0);
      GroupsTextLacks(g[..s], CR);
      GroupsTextLacks(g[s + ZeroRunAt(g, s)..], CR);
      GroupsTextLacks(g, CR);
    }
  }

  lemma AddressTextsLines(d: RecordData)
    ensures forall i :: 0 <= i < |AddressTexts(d)| ==> CR !in AddressTexts(d)[i]
  {
    forall i | 0 <= i < |AddressTexts(d)| ensures CR !in AddressTexts(d)[i] {
      if d.A? {
        V4TextLine(d.v4[i]);
      } else {
        V6TextLine(d.v6[i]);
      }
    }
  }

  lemma NormalizeRecord(r: ResourceRecordSet, rest: string)
    ensures Normalize(RecordText(r, rest)) == RecordText(ResourceRecordSet(Normalize(r.name), r.ttl, r.data), Normalize(rest))
  {
    hide Mark, Leaf, Normalize, Escape, ValuesText, AddressTexts, NumText, Plain;
    var values := AddressTexts(r.data);
    var kind, ttl := r.data.RecordType().Show(), NumText(r.ttl, Decimal);
    var k4 := Mark(10, "/ResourceRecords", rest);
    var k3 := Mark(10, "ResourceRecords", ValuesText(values, k4));
    var k2 := Leaf(10, "TTL", ttl, k3);
    NormalizeLeaf(10, "Name", r.name, Leaf(10, "Type", kind, k2));
    TypePlain(r.data);
    NormalizeFixedLeaf(10, "Type", kind, k2);
    NumTextPlain(r.ttl);
    NumTextLacks(r.ttl, Decimal, CR);
    NormalizeFixedLeaf(10, "TTL", ttl, k3);
    NormalizeMark(10, "ResourceRecords", ValuesText(values, k4));
    AddressTextsPlain(r.data);
    AddressTextsLines(r.data);
    NormalizeValues(values, k4);
    NormalizeMark(10, "/ResourceRecords", rest);
  }

  lemma TypePlain(d: RecordData)
    ensures Plain(d.RecordType().Show()) && CR !in d.RecordType().Show()
  {
  }

  lemma NormalizeChangeText(c: Change, rest: string)
    ensures Normalize(ChangeText(c, rest)) == ChangeText(NormalizeChange(c), Normalize(rest))
  {
    hide Mark, Leaf, Normalize, RecordText;
    var k4 := Mark(6, "/Change", rest);
    var k3 := Mark(8, "/ResourceRecordSet", k4);
    var k2 := Mark(8, "ResourceRecordSet", RecordText(c.recordSet, k3));
    NormalizeMark(6, "Change", Leaf(8, "Action", "UPSERT", k2));
    NormalizeFixedLeaf(8, "Action", "UPSERT", k2);
    NormalizeMark(8, "ResourceRecordSet", RecordText(c.recordSet, k3));
    NormalizeRecord(c.recordSet, k3);
    NormalizeMark(8, "/ResourceRecordSet", k4);
    NormalizeMark(6, "/Change", rest);
  }

  lemma {:induction false} NormalizeChangesText(cs: seq<Change>, rest: string)
    ensures Normalize(ChangesText(cs, rest)) == ChangesText(NormalizeChanges(cs), Normalize(rest))
  {
    hide Normalize, ChangeText;
    if cs != [] {
      NormalizeChangeText(cs[0], ChangesText(cs[1..], rest));
      NormalizeChangesText(cs[1..], rest);
      assert NormalizeChanges(cs)[1..] == NormalizeChanges(cs[1..]);
    }
  }

  lemma NormalizeClosing()
    ensures Normalize(CLOSING) == CLOSING
  {
    hide Mark, Normalize;
    NormalizeMark(4, "/Changes", Mark(2, "/ChangeBatch", END));
    NormalizeMark(2, "/ChangeBatch", END);
    RequestNamePlain();
    NormalizeExact(END);
  }

  lemma NormalizeBatch(comment: Option<string>, cs: seq<Change>)
    ensures Normalize(BatchText(comment, cs)) == BatchText(NormalizeComment(comment), NormalizeChanges(cs))
  {
    hide Mark, Leaf, Normalize, Escape, ChangesText;
    var changes := Mark(4, "Changes", ChangesText(cs, CLOSING));
    if comment.Some? {
      NormalizeLeaf(4, "Comment", comment.value, changes);
    }
    NormalizeMark(4, "Changes", ChangesText(cs, CLOSING));
    NormalizeChangesText(cs, CLOSING);
    NormalizeClosing();
  }

  lemma NormalizeHead(prolog: string, request: string, rest: string)
    requires CR !in prolog && CR !in request
    ensures Normalize(HeadText(prolog, request, rest)) == HeadText(prolog, request, Normalize(rest))
  {
    hide Mark, Normalize;
    var k2 := Mark(2, "ChangeBatch", rest);
    NormalizeMark(0, prolog, Mark(0, request, k2));
    NormalizeMark(0, request, k2);
    NormalizeMark(2, "ChangeBatch", rest);
  }

  lemma FixedTagsPlain()
    ensures CR !in PROLOG && CR !in REQUEST
  {
    assert CR !in " xmlns=\"https://route53" && CR !in ".amazonaws.com/doc/2013-04-01/\"";
    RequestNamePlain();
  }

  lemma RequestNamePlain()
    ensures CR !in REQUEST_NAME
  {
  }

  /** What an XML processor reads: the batch, with the line ends of its names and comment normalised. */
  lemma ReadNormalized(comment: Option<string>, cs: seq<Change>)
    ensures ReadDocument(Normalize(DocumentText(comment, cs))) == Some(Document(NormalizeComment(comment), NormalizeChanges(cs)))
  {
    hide HeadText, BatchText, Normalize, ReadDocument, NormalizeComment, NormalizeChanges;
    FixedTagsPlain();
    NormalizeHead(PROLOG, REQUEST, BatchText(comment, cs));
    NormalizeBatch(comment, cs);
    DocumentRoundTrip(NormalizeComment(comment), NormalizeChanges(cs));
  }

  predicate LineEndsPlain(comment: Option<string>, cs: seq<Change>) {
    (comment.Some? ==> CR !in comment.value) && forall i :: 0 <= i < |cs| ==> CR !in cs[i].recordSet.name
  }

  /** Exactly the batches without a CR in a name or in the comment arrive as they were meant. */
  lemma ArrivesExact(comment: Option<string>, cs: seq<Change>)
    ensures ReadDocument(Normalize(DocumentText(comment, cs))) == Some(Document(comment, cs)) <==> LineEndsPlain(comment, cs)
  {
    hide DocumentText, ReadDocument, Normalize;
    ReadNormalized(comment, cs);
    if comment.Some? {
      NormalizeExact(comment.value);
    }
    forall i | 0 <= i < |cs| ensures NormalizeChanges(cs)[i] == cs[i] <==> CR !in cs[i].recordSet.name {
      NormalizeExact(cs[i].recordSet.name);
    }
    if LineEndsPlain(comment, cs) {
      assert NormalizeChanges(cs) == cs;
    }
  }
}
