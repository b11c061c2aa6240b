/** The change document line by line (src/dns/route53/aws_route53.rs). */
module XmlWritten {
  import opened Wrappers
  import opened Text
  import opened Addresses
  import opened Records
  import opened Xml

  function ValueLines(d: RecordData): seq<string> {
    match d
    case A(v4) => ValuesLines(seq(|v4|, i requires 0 <= i < |v4| => V4Text(v4[i])))
    case AAAA(v6) => ValuesLines(seq(|v6|, i requires 0 <= i < |v6| => V6Text(v6[i])))
  }

  function ValuesLines(values: seq<string>): seq<string> {
    if values == [] then [] else
      ["            <ResourceRecord>",
       "                     <Value>" + (values[0] + "</Value>"),
       "            </ResourceRecord>"] + ValuesLines(values[1..])
  }

  function RecordLines(r: ResourceRecordSet): seq<string> {
    ["          <Name>" + (Escape(r.name) + "</Name>"),
     if r.data.A? then "          <Type>A</Type>" else "          <Type>AAAA</Type>",
     "          <TTL>" + (NumText(r.ttl, Decimal) + "</TTL>"),
     "          <ResourceRecords>"] + ValueLines(r.data) + ["          </ResourceRecords>"]
  }

  function ChangeLines(c: Change): seq<string> {
    ["      <Change>", "        <Action>UPSERT</Action>", "        <ResourceRecordSet>"] + RecordLines(c.recordSet)
    + ["        </ResourceRecordSet>", "      </Change>"]
  }

  function ChangesLines(cs: seq<Change>): seq<string> {
    if cs == [] then [] else ChangeLines(cs[0]) + ChangesLines(cs[1..])
  }

  // ---------------------------------------------------------------- one line

  lemma MarkLine(indent: nat, tag: string, line: string, lines: seq<string>)
    requires line == Spaces(indent) + ("<" + tag + ">") && lines != []
    ensures Mark(indent, tag, Join(lines, "\n")) == Join([line] + lines, "\n")
  {
    hide Join, Spaces;
    JoinMore(line, lines, "\n");
    var rest := Join(lines, "\n");
    assert line + "\n" + rest == line + ("\n" + rest);
  }

  lemma LeafLine(indent: nat, tag: string, text: string, line: string, lines: seq<string>)
    requires line == Spaces(indent) + ("<" + tag + ">") + (text + ("</" + tag + ">")) && lines != []
    ensures Leaf(indent, tag, text, Join(lines, "\n")) == Join([line] + lines, "\n")
  {
    hide Join, Spaces;
    JoinMore(line, lines, "\n");
    AssocLeaf(Spaces(indent) + ("<" + tag + ">"), text, "</" + tag + ">", Join(lines, "\n"));
  }

  lemma AssocLeaf(a: string, b: string, c: string, rest: string)
    ensures a + (b + (c + ("\n" + rest))) == a + (b + c) + "\n" + rest
  {
  }

  lemma {:induction false} ValuesWritten(values: seq<string>, lines: seq<string>)
    requires lines != []
    ensures ValuesText(values, Join(lines, "\n")) == Join(ValuesLines(values) + lines, "\n")
  {
    hide Join, Mark, Leaf, Spaces;
    if values == [] {
      assert [] + lines == lines;
    } else {
      ValuesWritten(values[1..], lines);
      var tail := ValuesLines(values[1..]) + lines;
      var line := "                     <Value>" + (values[0] + "</Value>");
      OpenValueTag();
      CloseValueTag();
      ValueTag();
      MarkLine(12, "/ResourceRecord", "            </ResourceRecord>", tail);
      LeafLine(21, "Value", values[0], line, ["            </ResourceRecord>"] + tail);
      MarkLine(12, "ResourceRecord", "            <ResourceRecord>", [line] + (["            </ResourceRecord>"] + tail));
      assert ValuesLines(values) + lines
        == ["            <ResourceRecord>"] + ([line] + (["            </ResourceRecord>"] + tail));
    }
  }

  lemma OpenValueTag()
    ensures Spaces(12) + ("<" + "ResourceRecord" + ">") == "            <ResourceRecord>"
  {
  }

  lemma CloseValueTag()
    ensures Spaces(12) + ("<" + "/ResourceRecord" + ">") == "            </ResourceRecord>"
  {
  }

  lemma OpenValuesTag()
    ensures Spaces(10) + ("<" + "ResourceRecords" + ">") == "          <ResourceRecords>"
  {
  }

  lemma CloseValuesTag()
    ensures Spaces(10) + ("<" + "/ResourceRecords" + ">") == "          </ResourceRecords>"
  {
  }

  lemma OpenSetTag()
    ensures Spaces(8) + ("<" + "ResourceRecordSet" + ">") == "        <ResourceRecordSet>"
  {
  }

  lemma CloseSetTag()
    ensures Spaces(8) + ("<" + "/ResourceRecordSet" + ">") == "        </ResourceRecordSet>"
  {
  }

  lemma OpenChangeTag()
    ensures Spaces(6) + ("<" + "Change" + ">") == "      <Change>"
  {
  }

  lemma CloseChangeTag()
    ensures Spaces(6) + ("<" + "/Change" + ">") == "      </Change>"
  {
  }

  lemma OpenChangesTag()
    ensures Spaces(4) + ("<" + "Changes" + ">") == "    <Changes>"
  {
  }

  lemma CloseChangesTag()
    ensures Spaces(4) + ("<" + "/Changes" + ">") == "    </Changes>"
  {
  }

  lemma OpenBatchTag()
    ensures Spaces(2) + ("<" + "ChangeBatch" + ">") == "  <ChangeBatch>"
  {
  }

  lemma CloseBatchTag()
    ensures Spaces(2) + ("<" + "/ChangeBatch" + ">") == "  </ChangeBatch>"
  {
  }

  lemma ValueTag()
    ensures Spaces(21) + ("<" + "Value" + ">") == "                     <Value>" && "</" + "Value" + ">" == "</Value>"
  {
  }

  lemma NameTag()
    ensures Spaces(10) + ("<" + "Name" + ">") == "          <Name>" && "</" + "Name" + ">" == "</Name>"
  {
  }

  lemma TypeTag()
    ensures Spaces(10) + ("<" + "Type" + ">") == "          <Type>" && "</" + "Type" + ">" == "</Type>"
  {
  }

  lemma TtlTag()
    ensures Spaces(10) + ("<" + "TTL" + ">") == "          <TTL>" && "</" + "TTL" + ">" == "</TTL>"
  {
  }

  lemma ActionTag()
    ensures Spaces(8) + ("<" + "Action" + ">") == "        <Action>" && "</" + "Action" + ">" == "</Action>"
  {
  }

  lemma CommentTag()
    ensures Spaces(4) + ("<" + "Comment" + ">") == "    <Comment>" && "</" + "Comment" + ">" == "</Comment>"
  {
  }

  lemma RecordWritten(r: ResourceRecordSet, lines: seq<string>)
    requires lines != []
    ensures RecordText(r, Join(lines, "\n")) == Join(RecordLines(r) + lines, "\n")
  {
    hide Join, Mark, Leaf, ValuesText, ValuesLines, Escape, NumText, Spaces;
    var l5 := ["          </ResourceRecords>"] + lines;
    var l4 := ["          <ResourceRecords>"] + (ValueLines(r.data) + l5);
    var ttl := "          <TTL>" + (NumText(r.ttl, Decimal) + "</TTL>");
    var kind := if r.data.A? then "          <Type>A</Type>" else "          <Type>AAAA</Type>";
    var name := "          <Name>" + (Escape(r.name) + "</Name>");
    CloseValuesTag();
    MarkLine(10, "/ResourceRecords", "          </ResourceRecords>", lines);
    AddressLines(r.data);
    ValuesWritten(AddressTexts(r.data), l5);
    OpenValuesTag();
    MarkLine(10, "ResourceRecords", "          <ResourceRecords>", ValueLines(r.data) + l5);
    TtlTag();
    LeafLine(10, "TTL", NumText(r.ttl, Decimal), ttl, l4);
    KindTag(r.data);
    LeafLine(10, "Type", r.data.RecordType().Show(), kind, [ttl] + l4);
    NameTag();
    LeafLine(10, "Name", Escape(r.name), name, [kind] + ([ttl] + l4));
    RecordList(name, kind, ttl, ValueLines(r.data), lines);
  }

  lemma RecordList(name: string, kind: string, ttl: string, values: seq<string>, lines: seq<string>)
    ensures [name] + ([kind] + ([ttl] + (["          <ResourceRecords>"] + (values + (["          </ResourceRecords>"] + lines)))))
      == [name, kind, ttl, "          <ResourceRecords>"] + values + ["          </ResourceRecords>"] + lines
  {
  }

  lemma AddressLines(d: RecordData)
    ensures ValuesLines(AddressTexts(d)) == ValueLines(d)
  {
    hide ValuesLines, V4Text, V6Text;
  }

  lemma KindTag(d: RecordData)
    ensures Spaces(10) + ("<" + "Type" + ">") + (d.RecordType().Show() + ("</" + "Type" + ">"))
      == if d.A? then "          <Type>A</Type>" else "          <Type>AAAA</Type>"
  {
    TypeTag();
    assert "          <Type>" + ("A" + "</Type>") == "          <Type>A</Type>";
    assert "          <Type>" + ("AAAA" + "</Type>") == "          <Type>AAAA</Type>";
  }

  lemma ChangeWritten(c: Change, lines: seq<string>)
    requires lines != []
    ensures ChangeText(c, Join(lines, "\n")) == Join(ChangeLines(c) + lines, "\n")
  {
    hide Join, Mark, Leaf, RecordText, RecordLines, Spaces;
    var l3 := ["      </Change>"] + lines;
    var l2 := ["        </ResourceRecordSet>"] + l3;
    var l1 := ["        <ResourceRecordSet>"] + (RecordLines(c.recordSet) + l2);
    CloseChangeTag();
    MarkLine(6, "/Change", "      </Change>", lines);
    CloseSetTag();
    MarkLine(8, "/ResourceRecordSet", "        </ResourceRecordSet>", l3);
    RecordWritten(c.recordSet, l2);
    OpenSetTag();
    MarkLine(8, "ResourceRecordSet", "        <ResourceRecordSet>", RecordLines(c.recordSet) + l2);
    ActionLine();
    LeafLine(8, "Action", "UPSERT", "        <Action>UPSERT</Action>", l1);
    OpenChangeTag();
    MarkLine(6, "Change", "      <Change>", ["        <Action>UPSERT</Action>"] + l1);
    ChangeList(RecordLines(c.recordSet), lines);
  }

  lemma ActionLine()
    ensures Spaces(8) + ("<" + "Action" + ">") + ("UPSERT" + ("</" + "Action" + ">")) == "        <Action>UPSERT</Action>"
  {
    ActionTag();
    assert "UPSERT" + "</Action>" == "UPSERT</Action>";
    assert "        <Action>" + "UPSERT</Action>" == "        <Action>UPSERT</Action>";
  }

  lemma ChangeList(record: seq<string>, lines: seq<string>)
    ensures ["      <Change>"] + (["        <Action>UPSERT</Action>"] + (["        <ResourceRecordSet>"]
        + (record + (["        </ResourceRecordSet>"] + (["      </Change>"] + lines)))))
      == ["      <Change>", "        <Action>UPSERT</Action>", "        <ResourceRecordSet>"] + record
         + ["        </ResourceRecordSet>", "      </Change>"] + lines
  {
  }

  lemma {:induction false} ChangesWritten(cs: seq<Change>, lines: seq<string>)
    requires lines != []
    ensures ChangesText(cs, Join(lines, "\n")) == Join(ChangesLines(cs) + lines, "\n")
  {
    hide Join, ChangeText, ChangeLines;
    if cs == [] {
      assert [] + lines == lines;
    } else {
      ChangesWritten(cs[1..], lines);
      ChangeWritten(cs[0], ChangesLines(cs[1..]) + lines);
      assert ChangeLines(cs[0]) + (ChangesLines(cs[1..]) + lines) == ChangesLines(cs) + lines;
    }
  }

  // ---------------------------------------------------------------- the whole document

  lemma ClosingWritten()
    ensures CLOSING == Join(["    </Changes>", "  </ChangeBatch>", "</ChangeResourceRecordSetsRequest>"], "\n")
  {
    hide Join, Mark;
    var end := "</ChangeResourceRecordSetsRequest>";
    EndTag();
    JoinOne(end, "\n");
    CloseBatchTag();
    MarkLine(2, "/ChangeBatch", "  </ChangeBatch>", [end]);
    CloseChangesTag();
    MarkLine(4, "/Changes", "    </Changes>", ["  </ChangeBatch>"] + [end]);
    assert ["    </Changes>"] + (["  </ChangeBatch>"] + [end]) == ["    </Changes>", "  </ChangeBatch>", end];
  }

  lemma EndTag()
    ensures END == "</ChangeResourceRecordSetsRequest>"
  {
  }

  lemma PrologTag()
    ensures Spaces(0) + ("<" + PROLOG + ">") == "<" + "?xml version=\"1.0\" encoding=\"UTF-8\"?" + ">"
  {
    hide Spaces;
    AssocTag("?xml version=\"1.0\" encoding=\"UTF-8\"?", "", "");
  }

  lemma AssocTag(name: string, a: string, b: string)
    ensures Spaces(0) + ("<" + (name + (a + b)) + ">") == "<" + name + a + b + ">"
  {
  }

  lemma RequestTag()
    ensures Spaces(0) + ("<" + REQUEST + ">")
      == "<" + "ChangeResourceRecordSetsRequest" + " xmlns=\"https://route53" + ".amazonaws.com/doc/2013-04-01/\"" + ">"
  {
    hide Spaces;
    AssocTag("ChangeResourceRecordSetsRequest", " xmlns=\"https://route53", ".amazonaws.com/doc/2013-04-01/\"");
  }

  /** The whole document is these lines. */
  lemma DocumentWritten(comment: Option<string>, cs: seq<Change>)
    ensures DocumentText(comment, cs) == Join(
      ["<" + "?xml version=\"1.0\" encoding=\"UTF-8\"?" + ">",
       "<" + "ChangeResourceRecordSetsRequest" + " xmlns=\"https://route53" + ".amazonaws.com/doc/2013-04-01/\"" + ">",
       "  <ChangeBatch>"]
      + (match comment case Some(c) => ["    <Comment>" + (Escape(c) + "</Comment>")] case None => [])
      + ["    <Changes>"] + ChangesLines(cs)
      + ["    </Changes>", "  </ChangeBatch>", "</ChangeResourceRecordSetsRequest>"], "\n")
  {
    hide Join, Mark, Leaf, ChangesText, ChangesLines, Escape, Spaces;
    var closing := ["    </Changes>", "  </ChangeBatch>", "</ChangeResourceRecordSetsRequest>"];
    var request := "<" + "ChangeResourceRecordSetsRequest" + " xmlns=\"https://route53" + ".amazonaws.com/doc/2013-04-01/\"" + ">";
    var prolog := "<" + "?xml version=\"1.0\" encoding=\"UTF-8\"?" + ">";
    var front := match comment case Some(c) => ["    <Comment>" + (Escape(c) + "</Comment>")] case None => [];
    ClosingWritten();
    ChangesWritten(cs, closing);
    OpenChangesTag();
    var changes := ["    <Changes>"] + (ChangesLines(cs) + closing);
    MarkLine(4, "Changes", "    <Changes>", ChangesLines(cs) + closing);
    if comment.Some? {
      CommentTag();
      LeafLine(4, "Comment", Escape(comment.value), "    <Comment>" + (Escape(comment.value) + "</Comment>"), changes);
    } else {
      assert [] + changes == changes;
    }
    OpenBatchTag();
    MarkLine(2, "ChangeBatch", "  <ChangeBatch>", front + changes);
    RequestTag();
    MarkLine(0, REQUEST, request, ["  <ChangeBatch>"] + (front + changes));
    PrologTag();
    MarkLine(0, PROLOG, prolog, [request] + (["  <ChangeBatch>"] + (front + changes)));
    DocumentList(prolog, request, front, ChangesLines(cs), closing);
  }

  lemma DocumentList(prolog: string, request: string, front: seq<string>, changes: seq<string>, closing: seq<string>)
    ensures [prolog] + ([request] + (["  <ChangeBatch>"] + (front + (["    <Changes>"] + (changes + closing)))))
      == [prolog, request, "  <ChangeBatch>"] + front + ["    <Changes>"] + changes + closing
  {
  }
}
