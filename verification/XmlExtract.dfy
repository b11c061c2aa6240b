/** The first-match tag extractor, and what it finds in a change document. */
module XmlExtract {
  import opened Wrappers
  import opened Text
  import opened Records
  import opened Xml
  import opened XmlReading

  /** The text behind the first place where `pat` stands. */
  function After(s: string, pat: string): Option<string> {
    var i := Find(s, pat);
    if i.None? then None else Some(s[i.value + |pat|..])
  }

  /** `extract_xml_text`: the trimmed text between the first opening tag and the first closing tag behind it. */
  function ExtractXmlText(xml: string, tag: string): Option<string> {
    var t := After(xml, "<" + tag + ">");
    if t.None? then None else
      var n := Find(t.value, "</" + tag + ">");
      if n.None? then None else Some(Trim(t.value[..n.value]))
  }

  // ---------------------------------------------------------------- for any text

  /** `pat` stands at `i`, and nowhere between `from` and `i`. */
  predicate FirstFrom(s: string, pat: string, from: nat, i: nat) {
    from <= i && OccursAt(s, pat, i) && forall k :: from <= k < i ==> !OccursAt(s, pat, k)
  }

  /** The first `open` stands at `i`, and the first `close` behind it at `j`. */
  predicate Encloses(s: string, open: string, close: string, i: nat, j: nat) {
    FirstFrom(s, open, 0, i) && FirstFrom(s, close, i + |open|, j)
  }

  lemma OccursInSuffix(s: string, pat: string, from: nat, k: nat)
    requires from <= |s|
    ensures OccursAt(s[from..], pat, k) <==> OccursAt(s, pat, from + k)
  {
    if k + |pat| <= |s| - from {
      assert s[from..][k..k + |pat|] == s[from + k..from + k + |pat|];
    }
  }

  lemma FirstIsFound(s: string, pat: string)
    ensures Find(s, pat).Some? ==> FirstFrom(s, pat, 0, Find(s, pat).value) && Find(s, pat).value + |pat| <= |s|
    ensures Find(s, pat).None? ==> forall i: nat :: !FirstFrom(s, pat, 0, i)
  {
    hide Find;
  }

  lemma FirstIsUnique(s: string, pat: string, i: nat, i': nat)
    requires FirstFrom(s, pat, 0, i) && FirstFrom(s, pat, 0, i')
    ensures i == i'
  {
    hide OccursAt;
  }

  /** What is searched behind the first opening tag. */
  lemma ClosedBehind(s: string, open: string, close: string, i: nat)
    requires FirstFrom(s, open, 0, i) && i + |open| <= |s|
    ensures var from, n := i + |open|, Find(s[i + |open|..], close);
      && (n.Some? ==> from + n.value <= |s| && Encloses(s, open, close, i, from + n.value)
                      && s[from..][..n.value] == s[from..from + n.value])
      && (n.None? ==> forall j: nat :: from <= j ==> !OccursAt(s, close, j))
  {
    var from, n := i + |open|, Find(s[i + |open|..], close);
    FirstIsFound(s[from..], close);
    forall j: nat | from <= j ensures OccursAt(s[from..], close, j - from) <==> OccursAt(s, close, j) {
      OccursInSuffix(s, close, from, j - from);
    }
    if n.Some? {
      BehindFirst(s, close, from, n.value);
    } else {
      forall j: nat | from <= j ensures !OccursAt(s, close, j) {
        assert !OccursAt(s[from..], close, j - from);
      }
    }
  }

  lemma BehindFirst(s: string, pat: string, from: nat, n: nat)
    requires from <= |s| && FirstFrom(s[from..], pat, 0, n) && n <= |s| - from
    ensures FirstFrom(s, pat, from, from + n) && s[from..][..n] == s[from..from + n]
  {
    hide OccursAt;
    OccursInSuffix(s, pat, from, n);
    forall k | from <= k < from + n ensures !OccursAt(s, pat, k) {
      OccursInSuffix(s, pat, from, k - from);
    }
  }

  /** The extractor's answer in terms of places in the text, whatever the text. */
  lemma ExtractExact(xml: string, tag: string)
    ensures var open, close := "<" + tag + ">", "</" + tag + ">";
      && (ExtractXmlText(xml, tag).Some? ==> exists i: nat, j: nat ::
            Encloses(xml, open, close, i, j) && ExtractXmlText(xml, tag) == Some(Trim(xml[i + |open|..j])))
      && (ExtractXmlText(xml, tag).None? ==> forall i: nat, j: nat ::
            !(FirstFrom(xml, open, 0, i) && i + |open| <= j && OccursAt(xml, close, j)))
  {
    hide Trim, Find, Encloses, FirstFrom, OccursAt;
    var open, close := "<" + tag + ">", "</" + tag + ">";
    FirstIsFound(xml, open);
    if After(xml, open).Some? {
      var i := Find(xml, open).value;
      ClosedBehind(xml, open, close, i);
      forall i': nat | FirstFrom(xml, open, 0, i') ensures i' == i {
        FirstIsUnique(xml, open, i, i');
      }
    }
  }

  // ---------------------------------------------------------------- in a change document

  /** Text in which no `<` is followed by `c` holds no tag that starts with `c`. */
  lemma SkipFront(front: string, rest: string, pat: string)
    requires |pat| >= 2
    requires forall i :: 0 <= i < |front| && front[i] == pat[0] ==> i + 1 < |front| && front[i + 1] != pat[1]
    ensures After(front + rest, pat) == After(rest, pat)
  {
    var s := front + rest;
    forall i: nat | i < |front| ensures !OccursAt(s, pat, i) {
      OccursChar(s, pat, i, 0);
      OccursChar(s, pat, i, 1);
    }
    assert s[|front|..] == rest;
    forall k: nat ensures OccursAt(rest, pat, k) <==> OccursAt(s, pat, |front| + k) {
      OccursInSuffix(s, pat, |front|, k);
    }
    var j := Find(rest, pat);
    forall k: nat | j.Some? ==> k < |front| + j.value ensures !OccursAt(s, pat, k) {
      if k >= |front| {
        assert !OccursAt(rest, pat, k - |front|);
      }
    }
    if j.Some? {
      assert OccursAt(s, pat, |front| + j.value);
      FindIs(s, pat, |front| + j.value);
      assert s[|front| + j.value + |pat|..] == rest[j.value + |pat|..];
    }
  }

  /** An opening tag is not found in lines of other tags. */
  predicate StartsOther(tag: string, pat: string) {
    |pat| >= 2 && pat[0] == '<' && tag != "" && tag[0] != pat[1] && '<' !in tag
  }

  /** An indented tag and text behind it hold one `<`. */
  lemma OneOpening(indent: nat, tag: string, raw: string)
    requires '<' !in tag && '<' !in raw
    ensures var s := Spaces(indent) + ("<" + tag + ">") + raw;
      |s| == indent + |tag| + 2 + |raw| && forall i :: 0 <= i < |s| && i != indent ==> s[i] != '<'
  {
    var t := "<" + tag + ">";
    assert forall i :: 0 < i < |t| ==> t[i] == if i <= |tag| then tag[i - 1] else '>';
    var s := Spaces(indent) + t;
    assert forall i :: indent <= i < |s| ==> s[i] == t[i - indent];
  }

  lemma SkipMark(indent: nat, tag: string, rest: string, pat: string)
    requires StartsOther(tag, pat)
    ensures After(Mark(indent, tag, rest), pat) == After(rest, pat)
  {
    hide After;
    var front := Spaces(indent) + ("<" + tag + ">") + "\n";
    assert Mark(indent, tag, rest) == front + rest;
    OneOpening(indent, tag, "\n");
    assert front[indent + 1] == tag[0];
    SkipFront(front, rest, pat);
  }

  lemma SkipLeaf(indent: nat, tag: string, raw: string, rest: string, pat: string)
    requires StartsOther(tag, pat) && pat[1] != '/' && '<' !in raw
    ensures After(Leaf(indent, tag, raw, rest), pat) == After(rest, pat)
  {
    hide After;
    var open := Spaces(indent) + ("<" + tag + ">") + raw;
    var close := ("</" + tag + ">") + "\n";
    assert Leaf(indent, tag, raw, rest) == open + (close + rest);
    OneOpening(indent, tag, raw);
    assert open[indent + 1] == tag[0];
    SkipFront(open, close + rest, pat);
    EndTagLacks(tag);
    SkipFront(close, rest, pat);
  }

  lemma EndTagLacks(tag: string)
    requires '<' !in tag
    ensures var close := ("</" + tag + ">") + "\n";
      |close| > 2 && close[1] == '/' && forall i :: 0 < i < |close| ==> close[i] != '<'
  {
    var t := "/" + tag;
    OneOpening(0, t, "\n");
    assert ("</" + tag + ">") + "\n" == Spaces(0) + ("<" + t + ">") + "\n";
  }

  lemma FoundLeaf(indent: nat, tag: string, raw: string, rest: string)
    requires tag != "" && '<' !in raw && '<' !in tag
    ensures ExtractXmlText(Leaf(indent, tag, raw, rest), tag) == Some(Trim(raw))
  {
    var pat, after := "<" + tag + ">", ("</" + tag + ">") + ("\n" + rest);
    var s := Leaf(indent, tag, raw, rest);
    assert s == Spaces(indent) + (pat + (raw + after));
    SkipFront(Spaces(indent), pat + (raw + after), pat);
    FoundAtFront(pat, raw + after);
    FindBehind(raw, "</" + tag + ">", "\n" + rest);
    assert (raw + after)[..|raw|] == raw;
  }

  lemma FoundAtFront(pat: string, rest: string)
    ensures After(pat + rest, pat) == Some(rest)
  {
    assert (pat + rest)[..|pat|] == pat && (pat + rest)[|pat|..] == rest;
    assert OccursAt(pat + rest, pat, 0);
  }

  lemma FindBehind(raw: string, close: string, rest: string)
    requires close != "" && close[0] !in raw
    ensures Find(raw + (close + rest), close) == Some(|raw|)
  {
    var s := raw + (close + rest);
    assert s[|raw|..|raw| + |close|] == close;
    assert OccursAt(s, close, |raw|);
    forall i: nat | i < |raw| ensures !OccursAt(s, close, i) {
      OccursChar(s, close, i, 0);
      assert s[i] == raw[i];
    }
    FindIs(s, close, |raw|);
  }

  lemma SameAfter(s: string, t: string, tag: string)
    requires After(s, "<" + tag + ">") == After(t, "<" + tag + ">")
    ensures ExtractXmlText(s, tag) == ExtractXmlText(t, tag)
  {
  }

  /** The opening lines, the comment and the batch's own tags: none of them starts like `pat`. */
  predicate MissesHead(pat: string) {
    |pat| >= 2 && pat[0] == '<' && pat[1] != '?' && pat[1] != 'C' && pat[1] != '/'
  }

  predicate MissesAll(pat: string) {
    MissesHead(pat) && pat[1] != 'A' && pat[1] != 'R' && pat[1] != 'N' && pat[1] != 'T' && pat[1] != 'V'
  }

  lemma FixedTagsLack()
    ensures '<' !in PROLOG && '<' !in REQUEST
  {
    assert '<' !in " xmlns=\"https://route53" && '<' !in ".amazonaws.com/doc/2013-04-01/\"";
    RequestNameLacks();
  }

  lemma RequestNameLacks()
    ensures '<' !in REQUEST_NAME
  {
  }

  lemma SkipHead(prolog: string, request: string, comment: Option<string>, cs: seq<Change>, pat: string)
    requires StartsOther(prolog, pat) && StartsOther(request, pat) && MissesHead(pat)
    ensures After(HeadText(prolog, request, BatchText(comment, cs)), pat) == After(ChangesText(cs, CLOSING), pat)
  {
    hide Mark, Leaf, After, Escape, ChangesText;
    var changes := Mark(4, "Changes", ChangesText(cs, CLOSING));
    var batch := BatchText(comment, cs);
    SkipMark(0, prolog, Mark(0, request, Mark(2, "ChangeBatch", batch)), pat);
    SkipMark(0, request, Mark(2, "ChangeBatch", batch), pat);
    SkipMark(2, "ChangeBatch", batch, pat);
    if comment.Some? {
      EscapeRoundTrip(comment.value);
      SkipLeaf(4, "Comment", Escape(comment.value), changes, pat);
    }
    SkipMark(4, "Changes", ChangesText(cs, CLOSING), pat);
  }

  lemma SkipDocumentHead(comment: Option<string>, cs: seq<Change>, pat: string)
    requires MissesHead(pat)
    ensures After(DocumentText(comment, cs), pat) == After(ChangesText(cs, CLOSING), pat)
  {
    hide HeadText, BatchText, After, ChangesText;
    FixedTagsLack();
    SkipHead(PROLOG, REQUEST, comment, cs, pat);
  }

  lemma {:induction false} SkipValues(values: seq<string>, rest: string, pat: string)
    requires MissesAll(pat) && forall i :: 0 <= i < |values| ==> Plain(values[i])
    ensures After(ValuesText(values, rest), pat) == After(rest, pat)
  {
    hide Mark, Leaf, After;
    if values != [] {
      var tail := ValuesText(values[1..], rest);
      var close := Mark(12, "/ResourceRecord", tail);
      SkipMark(12, "ResourceRecord", Leaf(21, "Value", values[0], close), pat);
      PlainUnescape(values[0]);
      SkipLeaf(21, "Value", values[0], close, pat);
      SkipMark(12, "/ResourceRecord", tail, pat);
      SkipValues(values[1..], rest, pat);
    }
  }

  lemma SkipRecord(r: ResourceRecordSet, rest: string, pat: string)
    requires MissesAll(pat)
    ensures After(RecordText(r, rest), pat) == After(rest, pat)
  {
    hide Mark, Leaf, After, Escape, ValuesText, AddressTexts, NumText, Plain;
    var values := AddressTexts(r.data);
    var kind, ttl := r.data.RecordType().Show(), NumText(r.ttl, Decimal);
    var k4 := Mark(10, "/ResourceRecords", rest);
    var k3 := Mark(10, "ResourceRecords", ValuesText(values, k4));
    var k2 := Leaf(10, "TTL", ttl, k3);
    var k1 := Leaf(10, "Type", kind, k2);
    EscapeRoundTrip(r.name);
    SkipLeaf(10, "Name", Escape(r.name), k1, pat);
    SkipLeaf(10, "Type", kind, k2, pat);
    NumTextLacks(r.ttl, '<');
    SkipLeaf(10, "TTL", ttl, k3, pat);
    SkipMark(10, "ResourceRecords", ValuesText(values, k4), pat);
    AddressTextsPlain(r.data);
    SkipValues(values, k4, pat);
    SkipMark(10, "/ResourceRecords", rest, pat);
  }

  lemma NumTextLacks(n: nat, c: char)
    requires IsSpecial(c)
    ensures c !in NumText(n, Decimal)
  {
    NumTextPlain(n);
  }

  lemma SkipChange(c: Change, rest: string, pat: string)
    requires MissesAll(pat)
    ensures After(ChangeText(c, rest), pat) == After(rest, pat)
  {
    hide Mark, Leaf, After, RecordText;
    var k4 := Mark(6, "/Change", rest);
    var k3 := Mark(8, "/ResourceRecordSet", k4);
    var k2 := Mark(8, "ResourceRecordSet", RecordText(c.recordSet, k3));
    SkipMark(6, "Change", Leaf(8, "Action", "UPSERT", k2), pat);
    SkipLeaf(8, "Action", "UPSERT", k2, pat);
    SkipMark(8, "ResourceRecordSet", RecordText(c.recordSet, k3), pat);
    SkipRecord(c.recordSet, k3, pat);
    SkipMark(8, "/ResourceRecordSet", k4, pat);
    SkipMark(6, "/Change", rest, pat);
  }

  lemma {:induction false} SkipChanges(cs: seq<Change>, pat: string)
    requires MissesAll(pat)
    ensures After(ChangesText(cs, CLOSING), pat).None?
  {
    hide ChangeText, Mark, After;
    if cs == [] {
      SkipMark(4, "/Changes", Mark(2, "/ChangeBatch", END), pat);
      SkipMark(2, "/ChangeBatch", END, pat);
      SkipEndTag(pat);
    } else {
      SkipChange(cs[0], ChangesText(cs[1..], CLOSING), pat);
      SkipChanges(cs[1..], pat);
    }
  }

  lemma NotInEndTag(tag: string, pat: string)
    requires |pat| >= 2 && pat[0] == '<' && pat[1] != '/' && '<' !in tag
    ensures After("</" + tag + ">", pat).None?
  {
    var s := "</" + tag + ">";
    EndTagLacks(tag);
    forall i: nat ensures !OccursAt(s, pat, i) {
      OccursChar(s, pat, i, 0);
      OccursChar(s, pat, i, 1);
      assert i < |s| ==> s[i] == (s + "\n")[i];
    }
  }

  lemma SkipEndTag(pat: string)
    requires MissesAll(pat)
    ensures After(END, pat).None?
  {
    hide After;
    RequestNameLacks();
    NotInEndTag(REQUEST_NAME, pat);
  }

  /** A tag whose name starts like none of the document's tags is not found, whatever the texts contain. */
  lemma NothingToExtract(comment: Option<string>, cs: seq<Change>, tag: string)
    requires MissesAll("<" + tag + ">")
    ensures ExtractXmlText(DocumentText(comment, cs), tag).None?
  {
    hide DocumentText, ChangesText, After;
    SkipDocumentHead(comment, cs, "<" + tag + ">");
    SkipChanges(cs, "<" + tag + ">");
  }

  /** The tags of the response are not found in a request. */
  lemma ResponseTagsAbsent(comment: Option<string>, cs: seq<Change>)
    ensures ExtractXmlText(DocumentText(comment, cs), "Id").None?
    ensures ExtractXmlText(DocumentText(comment, cs), "Status").None?
  {
    hide DocumentText, ExtractXmlText;
    assert "<" + "Id" + ">" == "<Id>" && "<" + "Status" + ">" == "<Status>";
    NothingToExtract(comment, cs, "Id");
    NothingToExtract(comment, cs, "Status");
  }

  /** `Name` gives the first change's name, escaped and trimmed, through any comment. */
  lemma ExtractFirstName(comment: Option<string>, cs: seq<Change>)
    requires cs != []
    ensures ExtractXmlText(DocumentText(comment, cs), "Name") == Some(Trim(Escape(cs[0].recordSet.name)))
  {
    hide DocumentText, Mark, Leaf, After, Escape, ExtractXmlText, Trim, ChangeText, RecordText;
    var c, rest := cs[0], ChangesText(cs[1..], CLOSING);
    var pat := "<" + "Name" + ">";
    assert pat == "<Name>";
    SkipDocumentHead(comment, cs, pat);
    SkipToName(c, rest, pat);
    SameAfter(DocumentText(comment, cs), NameOn(c, rest), "Name");
    EscapeRoundTrip(c.recordSet.name);
    ghost var k3 := Mark(8, "/ResourceRecordSet", Mark(6, "/Change", rest));
    ExtractOwnName(c.recordSet, k3);
  }

  /** The change's text from its name on. */
  function NameOn(c: Change, rest: string): string {
    RecordText(c.recordSet, Mark(8, "/ResourceRecordSet", Mark(6, "/Change", rest)))
  }

  lemma SkipToName(c: Change, rest: string, pat: string)
    requires pat == "<Name>"
    ensures After(ChangeText(c, rest), pat) == After(NameOn(c, rest), pat)
  {
    hide Mark, Leaf, After, RecordText;
    var k2 := Mark(8, "ResourceRecordSet", NameOn(c, rest));
    SkipMark(6, "Change", Leaf(8, "Action", "UPSERT", k2), pat);
    SkipLeaf(8, "Action", "UPSERT", k2, pat);
    SkipMark(8, "ResourceRecordSet", NameOn(c, rest), pat);
  }

  lemma ExtractOwnName(r: ResourceRecordSet, rest: string)
    ensures ExtractXmlText(RecordText(r, rest), "Name") == Some(Trim(Escape(r.name)))
  {
    hide Mark, Leaf, After, Escape, ExtractXmlText, Trim, ValuesText, AddressTexts, NumText;
    EscapeRoundTrip(r.name);
    var k1 := Leaf(10, "Type", r.data.RecordType().Show(), Leaf(10, "TTL", NumText(r.ttl, Decimal),
      Mark(10, "ResourceRecords", ValuesText(AddressTexts(r.data), Mark(10, "/ResourceRecords", rest)))));
    FoundLeaf(10, "Name", Escape(r.name), k1);
  }

  // ---------------------------------------------------------------- identifiers

  /** The bare zone id that `change_resource_record_sets` puts into the request path. */
  function BareZoneId(id: string): string {
    Trim(StripAll(StripAll(id, "/hostedzone/"), "hostedzone/"))
  }

  function RequestPath(id: string): string {
    "/2013-04-01/hostedzone/" + BareZoneId(id) + "/rrset/"
  }

  /** The three documented spellings of a zone id mean the same zone. */
  lemma ZoneIdSpellings(z: string)
    requires Trimmed(z) && !StartsWith(z, "/hostedzone/") && !StartsWith(z, "hostedzone/")
    ensures RequestPath(z) == RequestPath("/hostedzone/" + z) == RequestPath("hostedzone/" + z)
    ensures RequestPath(z) == "/2013-04-01/hostedzone/" + z + "/rrset/"
  {
    BareZoneIdOf(z);
  }

  lemma BareZoneIdOf(z: string)
    requires Trimmed(z) && !StartsWith(z, "/hostedzone/") && !StartsWith(z, "hostedzone/")
    ensures BareZoneId(z) == BareZoneId("/hostedzone/" + z) == BareZoneId("hostedzone/" + z) == z
  {
    var a, b := "/hostedzone/" + z, "hostedzone/" + z;
    assert a[..12] == "/hostedzone/" && a[12..] == z;
    assert b[..11] == "hostedzone/" && b[11..] == z;
    assert !StartsWith(b, "/hostedzone/") by {
      assert b[0] == 'h';
    }
  }
}
