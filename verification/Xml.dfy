/** The Route 53 change document: its writer, its escapes, its reader and the tag extractor
    (src/dns/route53/aws_route53.rs). */
module Xml {
  import opened Wrappers
  import opened Text
  import opened Addresses
  import opened Records

  // ---------------------------------------------------------------- escaping

  predicate IsSpecial(c: char) { c == '&' || c == '<' || c == '>' || c == '"' || c == '\'' }

  function EscapeChar(c: char): string {
    if c == '&' then "&amp;"
    else if c == '<' then "&lt;"
    else if c == '>' then "&gt;"
    else if c == '"' then "&quot;"
    else if c == '\'' then "&apos;"
    else [c]
  }

  function Escape(s: string): string {
    if s == "" then "" else EscapeChar(s[0]) + Escape(s[1..])
  }

  /** The five predefined entities of XML 1.0 section 4.6; any other `&` is an error. */
  function UnescapeChar(s: string): (r: Option<Parsed<char>>)
    requires s != ""
    ensures r.Some? ==> |r.value.rest| < |s|
  {
    if s[0] != '&' then Some(Parsed(s[0], s[1..]))
    else if StartsWith(s, "&amp;") then Some(Parsed('&', s[5..]))
    else if StartsWith(s, "&lt;") then Some(Parsed('<', s[4..]))
    else if StartsWith(s, "&gt;") then Some(Parsed('>', s[4..]))
    else if StartsWith(s, "&quot;") then Some(Parsed('"', s[6..]))
    else if StartsWith(s, "&apos;") then Some(Parsed('\'', s[6..]))
    else None
  }

  function Unescape(s: string): Option<string>
    decreases |s|
  {
    if s == "" then Some("") else
      var c := UnescapeChar(s);
      if c.None? then None else
        var t := Unescape(c.value.rest);
        if t.None? then None else Some([c.value.value] + t.value)
  }

  lemma UnescapeEscapedChar(c: char, rest: string)
    ensures UnescapeChar(EscapeChar(c) + rest) == Some(Parsed(c, rest))
    ensures '<' !in EscapeChar(c) && '>' !in EscapeChar(c) && EscapeChar(c) != ""
  {
    var s := EscapeChar(c) + rest;
    EatConcat(EscapeChar(c), rest);
    if IsSpecial(c) {
      assert s[1] == EscapeChar(c)[1] && s[2] == EscapeChar(c)[2];
      SecondChars(s, "&amp;");
      SecondChars(s, "&lt;");
      SecondChars(s, "&gt;");
      SecondChars(s, "&quot;");
      SecondChars(s, "&apos;");
    }
  }

  lemma SecondChars(s: string, lit: string)
    requires |lit| >= 3
    ensures StartsWith(s, lit) ==> s[1] == lit[1] && s[2] == lit[2]
  {
    if StartsWith(s, lit) {
      assert s[..|lit|][1] == s[1] && s[..|lit|][2] == s[2];
    }
  }

  /** Escaping can be undone, and escaped text holds no markup. */
  lemma {:induction false} EscapeRoundTrip(s: string)
    ensures Unescape(Escape(s)) == Some(s)
    ensures '<' !in Escape(s) && '>' !in Escape(s)
  {
    if s != "" {
      EscapeRoundTrip(s[1..]);
      UnescapeEscapedChar(s[0], Escape(s[1..]));
      assert [s[0]] + s[1..] == s;
    }
  }

  lemma {:induction false} EscapePlain(s: string)
    requires forall i :: 0 <= i < |s| ==> !IsSpecial(s[i])
    ensures Escape(s) == s
  {
    if s != "" {
      EscapePlain(s[1..]);
      assert [s[0]] + s[1..] == s;
    }
  }

  lemma Assoc(a: string, b: string, c: string)
    ensures a + b + c == a + (b + c)
  {
  }

  lemma {:induction false} EscapeConcat(a: string, b: string)
    ensures Escape(a + b) == Escape(a) + Escape(b)
  {
    hide EscapeChar;
    if a == "" {
      assert a + b == b;
    } else {
      EscapeConcat(a[1..], b);
      assert (a + b)[0] == a[0] && (a + b)[1..] == a[1..] + b;
      Assoc(EscapeChar(a[0]), Escape(a[1..]), Escape(b));
    }
  }

  lemma EscapeOne(c: char)
    ensures Escape([c]) == EscapeChar(c)
  {
    assert [c][1..] == "" && EscapeChar(c) + "" == EscapeChar(c);
  }

  lemma EscapeNothing()
    ensures Escape("") == ""
  {
  }

  /** `xml_escape`: text without special characters is returned as it is. */
  method XmlEscape(s: string) returns (out: string)
    ensures out == Escape(s)
  {
    hide Escape;
    assert Escape("") == "" by { EscapeNothing(); }
    if exists i :: 0 <= i < |s| && IsSpecial(s[i]) {
      out := "";
      for i := 0 to |s|
        invariant out == Escape(s[..i])
      {
        assert s[..i + 1] == s[..i] + [s[i]];
        EscapeConcat(s[..i], [s[i]]);
        EscapeOne(s[i]);
        match s[i] {
          case '&' => out := out + "&amp;";
          case '<' => out := out + "&lt;";
          case '>' => out := out + "&gt;";
          case '"' => out := out + "&quot;";
          case '\'' => out := out + "&apos;";
          case c => out := out + [c];
        }
      }
      assert s[..|s|] == s;
    } else {
      EscapePlain(s);
      out := s;
    }
  }

  // ---------------------------------------------------------------- the document

  /** A line with one tag, followed by the rest of the document. */
  function Mark(indent: nat, tag: string, rest: string): string {
    Spaces(indent) + ("<" + tag + ">") + ("\n" + rest)
  }

  /** A line with one element and its text, followed by the rest of the document. */
  function Leaf(indent: nat, tag: string, text: string, rest: string): string {
    Spaces(indent) + ("<" + tag + ">") + (text + (("</" + tag + ">") + ("\n" + rest)))
  }

  const PROLOG := "?xml version=\"1.0\" encoding=\"UTF-8\"?"
  const NAMESPACE := " xmlns=\"https://route53" + ".amazonaws.com/doc/2013-04-01/\""
  const REQUEST_NAME := "ChangeResourceRecordSetsRequest"
  const REQUEST := REQUEST_NAME + NAMESPACE
  const END := "</" + REQUEST_NAME + ">"

  function AddressTexts(d: RecordData): seq<string> {
    match d
    case A(v4) => seq(|v4|, i requires 0 <= i < |v4| => V4Text(v4[i]))
    case AAAA(v6) => seq(|v6|, i requires 0 <= i < |v6| => V6Text(v6[i]))
  }

  function ValuesText(values: seq<string>, rest: string): string {
    if values == [] then rest else
      Mark(12, "ResourceRecord", Leaf(21, "Value", values[0], Mark(12, "/ResourceRecord", ValuesText(values[1..], rest))))
  }

  function ChangeText(c: Change, rest: string): string {
    var r := c.recordSet;
    Mark(6, "Change", Leaf(8, "Action", "UPSERT", Mark(8, "ResourceRecordSet", RecordText(r,
      Mark(8, "/ResourceRecordSet", Mark(6, "/Change", rest))))))
  }

  function RecordText(r: ResourceRecordSet, rest: string): string {
    Leaf(10, "Name", Escape(r.name), Leaf(10, "Type", r.data.RecordType().Show(), Leaf(10, "TTL", NumText(r.ttl, Decimal),
      Mark(10, "ResourceRecords", ValuesText(AddressTexts(r.data), Mark(10, "/ResourceRecords", rest))))))
  }

  function ChangesText(cs: seq<Change>, rest: string): string {
    if cs == [] then rest else ChangeText(cs[0], ChangesText(cs[1..], rest))
  }

  const CLOSING := Mark(4, "/Changes", Mark(2, "/ChangeBatch", END))

  function CommentText(comment: Option<string>, rest: string): string {
    if comment.Some? then Leaf(4, "Comment", Escape(comment.value), rest) else rest
  }

  /** The opening lines, around the rest of the document. */
  function HeadText(prolog: string, request: string, rest: string): string {
    Mark(0, prolog, Mark(0, request, Mark(2, "ChangeBatch", rest)))
  }

  function BatchText(comment: Option<string>, cs: seq<Change>): string {
    CommentText(comment, Mark(4, "Changes", ChangesText(cs, CLOSING)))
  }

  function DocumentText(comment: Option<string>, cs: seq<Change>): string {
    HeadText(PROLOG, REQUEST, BatchText(comment, cs))
  }

  lemma MarkAppend(x: string, indent: nat, tag: string, rest: string)
    ensures x + Mark(indent, tag, "") + rest == x + Mark(indent, tag, rest)
  {
  }

  lemma LeafAppend(x: string, indent: nat, tag: string, text: string, rest: string)
    ensures x + Leaf(indent, tag, text, "") + rest == x + Leaf(indent, tag, text, rest)
  {
  }

  /** The inner loop of `build_change_xml`. */
  method WriteValues(x0: string, values: seq<string>, ghost rest: string) returns (x: string)
    ensures x + rest == x0 + ValuesText(values, rest)
  {
    x := x0;
    for i := 0 to |values|
      invariant x + ValuesText(values[i..], rest) == x0 + ValuesText(values, rest)
    {
      ghost var after := ValuesText(values[i + 1..], rest);
      assert values[i..][0] == values[i] && values[i..][1..] == values[i + 1..];
      MarkAppend(x, 12, "ResourceRecord", Leaf(21, "Value", values[i], Mark(12, "/ResourceRecord", after)));
      x := x + Mark(12, "ResourceRecord", "");
      LeafAppend(x, 21, "Value", values[i], Mark(12, "/ResourceRecord", after));
      x := x + Leaf(21, "Value", values[i], "");
      MarkAppend(x, 12, "/ResourceRecord", after);
      x := x + Mark(12, "/ResourceRecord", "");
    }
    assert values[|values|..] == [];
  }

  /** The part of `build_change_xml` between a change's record set tags. */
  method WriteRecord(x0: string, r: ResourceRecordSet, ghost rest: string) returns (x: string)
    ensures x + rest == x0 + RecordText(r, rest)
  {
    ghost var k4 := Mark(10, "/ResourceRecords", rest);
    ghost var k3 := Mark(10, "ResourceRecords", ValuesText(AddressTexts(r.data), k4));
    ghost var k2 := Leaf(10, "TTL", NumText(r.ttl, Decimal), k3);
    ghost var k1 := Leaf(10, "Type", r.data.RecordType().Show(), k2);
    var name := XmlEscape(r.name);
    LeafAppend(x0, 10, "Name", name, k1);
    x := x0 + Leaf(10, "Name", name, "");
    LeafAppend(x, 10, "Type", r.data.RecordType().Show(), k2);
    x := x + Leaf(10, "Type", r.data.RecordType().Show(), "");
    LeafAppend(x, 10, "TTL", NumText(r.ttl, Decimal), k3);
    x := x + Leaf(10, "TTL", NumText(r.ttl, Decimal), "");
    MarkAppend(x, 10, "ResourceRecords", ValuesText(AddressTexts(r.data), k4));
    x := x + Mark(10, "ResourceRecords", "");
    x := WriteValues(x, AddressTexts(r.data), k4);
    MarkAppend(x, 10, "/ResourceRecords", rest);
    x := x + Mark(10, "/ResourceRecords", "");
  }

  method WriteChange(x0: string, c: Change, ghost rest: string) returns (x: string)
    ensures x + rest == x0 + ChangeText(c, rest)
  {
    ghost var k4 := Mark(6, "/Change", rest);
    ghost var k3 := Mark(8, "/ResourceRecordSet", k4);
    ghost var k2 := Mark(8, "ResourceRecordSet", RecordText(c.recordSet, k3));
    ghost var k1 := Leaf(8, "Action", "UPSERT", k2);
    MarkAppend(x0, 6, "Change", k1);
    x := x0 + Mark(6, "Change", "");
    LeafAppend(x, 8, "Action", "UPSERT", k2);
    x := x + Leaf(8, "Action", "UPSERT", "");
    MarkAppend(x, 8, "ResourceRecordSet", RecordText(c.recordSet, k3));
    x := x + Mark(8, "ResourceRecordSet", "");
    x := WriteRecord(x, c.recordSet, k3);
    MarkAppend(x, 8, "/ResourceRecordSet", k4);
    x := x + Mark(8, "/ResourceRecordSet", "");
    MarkAppend(x, 6, "/Change", rest);
    x := x + Mark(6, "/Change", "");
  }

  lemma ChangesFrom(cs: seq<Change>, i: nat, rest: string)
    requires i < |cs|
    ensures ChangesText(cs[i..], rest) == ChangeText(cs[i], ChangesText(cs[i + 1..], rest))
  {
    assert cs[i..][0] == cs[i] && cs[i..][1..] == cs[i + 1..];
  }

  method WriteChanges(x0: string, cs: seq<Change>, ghost rest: string) returns (x: string)
    ensures x + rest == x0 + ChangesText(cs, rest)
  {
    x := x0;
    for i := 0 to |cs|
      invariant x + ChangesText(cs[i..], rest) == x0 + ChangesText(cs, rest)
    {
      ChangesFrom(cs, i, rest);
      x := WriteChange(x, cs[i], ChangesText(cs[i + 1..], rest));
    }
    assert cs[|cs|..] == [];
  }

  method WriteComment(x0: string, comment: Option<string>, ghost rest: string) returns (x: string)
    ensures x + rest == x0 + CommentText(comment, rest)
  {
    x := x0;
    if comment.Some? {
      var c := XmlEscape(comment.value);
      LeafAppend(x, 4, "Comment", c, rest);
      x := x + Leaf(4, "Comment", c, "");
    }
  }

  method WriteHead(prolog: string, request: string, ghost rest: string) returns (x: string)
    ensures x + rest == HeadText(prolog, request, rest)
  {
    ghost var k := Mark(2, "ChangeBatch", rest);
    MarkAppend("", 0, prolog, Mark(0, request, k));
    x := Mark(0, prolog, "");
    MarkAppend(x, 0, request, k);
    x := x + Mark(0, request, "");
    MarkAppend(x, 2, "ChangeBatch", rest);
    x := x + Mark(2, "ChangeBatch", "");
  }

  method WriteClosing(x0: string) returns (x: string)
    ensures x == x0 + CLOSING
  {
    MarkAppend(x0, 4, "/Changes", Mark(2, "/ChangeBatch", END));
    x := x0 + Mark(4, "/Changes", "");
    MarkAppend(x, 2, "/ChangeBatch", END);
    x := x + Mark(2, "/ChangeBatch", "");
    x := x + END;
  }

  /** `build_change_xml`: what has been written, with what is still to come, is always the document. */
  method BuildChangeXml(comment: Option<string>, cs: seq<Change>) returns (x: string)
    ensures x == DocumentText(comment, cs)
  {
    ghost var changes := ChangesText(cs, CLOSING);
    x := WriteHead(PROLOG, REQUEST, CommentText(comment, Mark(4, "Changes", changes)));
    x := WriteComment(x, comment, Mark(4, "Changes", changes));
    MarkAppend(x, 4, "Changes", changes);
    x := x + Mark(4, "Changes", "");
    x := WriteChanges(x, cs, CLOSING);
    assert x + CLOSING == DocumentText(comment, cs);
    x := WriteClosing(x);
  }

  // ---------------------------------------------------------------- reading the document

  /** The text after this tag and the blanks behind it. */
  function TakeMark(s: string, tag: string): (r: Option<string>)
    ensures r.Some? ==> |r.value| < |s|
  {
    var t := Eat(s, "<" + tag + ">");
    if t.None? then None else Some(SkipBlanks(t.value))
  }

  /** The text of this element, and what follows it. */
  function TakeLeaf(s: string, tag: string): (r: Option<Parsed<string>>)
    ensures r.Some? ==> |r.value.rest| < |s|
  {
    var t := Eat(s, "<" + tag + ">");
    if t.None? then None else
      var n := Before(t.value, '<');
      var text, rest := Unescape(t.value[..n]), TakeMark(t.value[n..], "/" + tag);
      if text.None? || rest.None? then None else Some(Parsed(text.value, rest.value))
  }

  function ReadValues(s: string): (r: Option<Parsed<seq<string>>>)
    ensures r.Some? ==> |r.value.rest| <= |s|
    decreases |s|
  {
    var a := TakeMark(s, "ResourceRecord");
    if a.None? then Some(Parsed([], s)) else
      var v := TakeLeaf(a.value, "Value");
      if v.None? then None else
        var b := TakeMark(v.value.rest, "/ResourceRecord");
        if b.None? then None else
          var more := ReadValues(b.value);
          if more.None? then None else Some(Parsed([v.value.value] + more.value.value, more.value.rest))
  }

  function ReadV4s(values: seq<string>): Option<seq<V4>> {
    if values == [] then Some([]) else
      var h, t := ParseV4(values[0]), ReadV4s(values[1..]);
      if h.None? || t.None? then None else Some([h.value] + t.value)
  }

  function ReadV6s(values: seq<string>): Option<seq<V6>> {
    if values == [] then Some([]) else
      var h, t := ParseV6(values[0]), ReadV6s(values[1..]);
      if h.None? || t.None? then None else Some([h.value] + t.value)
  }

  function ReadData(kind: string, values: seq<string>): Option<RecordData> {
    if kind == "A" then
      var a := ReadV4s(values);
      if a.None? then None else Some(A(a.value))
    else if kind == "AAAA" then
      var a := ReadV6s(values);
      if a.None? then None else Some(AAAA(a.value))
    else None
  }

  function ReadTtl(s: string): Option<U32> {
    var n := ParseDecimal(s);
    if n.Some? && n.value < 0x1_0000_0000 then Some(n.value) else None
  }

  function ReadRecord(s: string): (r: Option<Parsed<ResourceRecordSet>>)
    ensures r.Some? ==> |r.value.rest| < |s|
  {
    var name := TakeLeaf(s, "Name");
    if name.None? then None else
      var kind := TakeLeaf(name.value.rest, "Type");
      if kind.None? then None else
        var ttl := TakeLeaf(kind.value.rest, "TTL");
        if ttl.None? then None else
          var open := TakeMark(ttl.value.rest, "ResourceRecords");
          if open.None? then None else
            var values := ReadValues(open.value);
            if values.None? then None else
              var close := TakeMark(values.value.rest, "/ResourceRecords");
              var data, n := ReadData(kind.value.value, values.value.value), ReadTtl(ttl.value.value);
              if close.None? || data.None? || n.None? then None
              else Some(Parsed(ResourceRecordSet(name.value.value, n.value, data.value), close.value))
  }

  function ReadChange(s: string): (r: Option<Parsed<Change>>)
    ensures r.Some? ==> |r.value.rest| < |s|
  {
    var open := TakeMark(s, "Change");
    if open.None? then None else
      var action := TakeLeaf(open.value, "Action");
      if action.None? || action.value.value != "UPSERT" then None else
        var body := TakeMark(action.value.rest, "ResourceRecordSet");
        if body.None? then None else
          var r := ReadRecord(body.value);
          if r.None? then None else
            var a := TakeMark(r.value.rest, "/ResourceRecordSet");
            if a.None? then None else
              var b := TakeMark(a.value, "/Change");
              if b.None? then None else Some(Parsed(Upsert(r.value.value), b.value))
  }

  function ReadChanges(s: string): (r: Option<Parsed<seq<Change>>>)
    decreases |s|
  {
    if TakeMark(s, "Change").None? then Some(Parsed([], s)) else
      var c := ReadChange(s);
      if c.None? then None else
        var more := ReadChanges(c.value.rest);
        if more.None? then None else Some(Parsed([c.value.value] + more.value.value, more.value.rest))
  }

  datatype Document = Document(comment: Option<string>, changes: seq<Change>)

  function ReadBatch(s: string): Option<Document> {
    var comment := TakeLeaf(s, "Comment");
    var t := TakeMark(if comment.Some? then comment.value.rest else s, "Changes");
    if t.None? then None else
      var cs := ReadChanges(t.value);
      if cs.None? then None else
        var a := TakeMark(cs.value.rest, "/Changes");
        if a.None? then None else
          var b := TakeMark(a.value, "/ChangeBatch");
          if b.None? || b.value != END then None
          else Some(Document(if comment.Some? then Some(comment.value.value) else None, cs.value.value))
  }

  function ReadHead(s: string, prolog: string, request: string): Option<string> {
    var a := TakeMark(s, prolog);
    if a.None? then None else
      var b := TakeMark(a.value, request);
      if b.None? then None else TakeMark(b.value, "ChangeBatch")
  }

  /** A reader for the request grammar that accepts any layout between tags. */
  function ReadDocument(s: string): Option<Document> {
    var t := ReadHead(s, PROLOG, REQUEST);
    if t.None? then None else ReadBatch(t.value)
  }
}
