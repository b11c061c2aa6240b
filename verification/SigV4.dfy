/** AWS Signature Version 4 request headers (src/dns/route53/aws_signature.rs). */
module SigV4 {
  import opened Wrappers
  import opened Text

  type Header = (string, string)

  // ---------------------------------------------------------------- the sorted map

  /** A `BTreeMap<String, String>`: entries in strictly ascending order of key. */
  predicate Sorted(m: seq<Header>) {
    forall i, j :: 0 <= i < j < |m| ==> Less(m[i].0, m[j].0)
  }

  function Insert(m: seq<Header>, k: string, v: string): seq<Header> {
    if m == [] || Less(k, m[0].0) then [(k, v)] + m
    else if k == m[0].0 then [(k, v)] + m[1..]
    else [m[0]] + Insert(m[1..], k, v)
  }

  function Names(m: seq<Header>): seq<string> {
    seq(|m|, i requires 0 <= i < |m| => m[i].0)
  }

  /** Inserting keeps the order, sets the key's value and leaves every other entry alone. */
  lemma {:induction false} InsertExact(m: seq<Header>, k: string, v: string)
    requires Sorted(m)
    ensures Sorted(Insert(m, k, v))
    ensures forall e :: e in Insert(m, k, v) <==> e == (k, v) || (e in m && e.0 != k)
  {
    if m == [] {
    } else if Less(k, m[0].0) {
      forall i | 0 <= i < |m| ensures Less(k, m[i].0) && m[i].0 != k {
        if i > 0 {
          LessTransitive(k, m[0].0, m[i].0);
        }
        LessTotal(k, m[i].0);
      }
    } else if k == m[0].0 {
      forall i | 1 <= i < |m| ensures m[i].0 != k {
        LessTotal(k, m[i].0);
      }
      assert m == [m[0]] + m[1..];
    } else {
      InsertExact(m[1..], k, v);
      LessTotal(k, m[0].0);
      assert m == [m[0]] + m[1..];
      var rest := Insert(m[1..], k, v);
      forall j | 0 <= j < |rest| ensures Less(m[0].0, rest[j].0) {
        assert rest[j] in rest;
      }
    }
  }

  // ---------------------------------------------------------------- the canonical request

  function HeaderLine(h: Header): string {
    h.0 + ":" + Trim(h.1)
  }

  function CanonicalHeaders(m: seq<Header>): string {
    if m == [] then "" else HeaderLine(m[0]) + "\n" + CanonicalHeaders(m[1..])
  }

  function CanonicalRequest(verb: string, path: string, query: string, m: seq<Header>, payloadHash: string): string {
    Join([verb, path, query, CanonicalHeaders(m), Join(Names(m), ";"), payloadHash], "\n")
  }

  datatype CanonicalParts = CanonicalParts(verb: string, path: string, query: string,
                                           headers: seq<Header>, signed: seq<string>, payloadHash: string)

  function ReadHeaderLine(line: string): Header {
    var n := Before(line, ':');
    (line[..n], if n < |line| then line[n + 1..] else "")
  }

  /** Header lines up to the first blank line. */
  function ReadHeaders(lines: seq<string>): seq<Header> {
    if lines == [] || lines[0] == "" then [] else [ReadHeaderLine(lines[0])] + ReadHeaders(lines[1..])
  }

  /** A reader of canonical requests: three lines, the header block, a blank line, the name list, the hash. */
  function ReadCanonical(s: string): Option<CanonicalParts> {
    var lines := Split(s, '\n');
    if |lines| < 6 then None else
      var headers := ReadHeaders(lines[3..]);
      var k := 3 + |headers|;
      if k + 3 != |lines| || lines[k] != "" then None
      else Some(CanonicalParts(lines[0], lines[1], lines[2], headers, Split(lines[k + 1], ';'), lines[k + 2]))
  }

  predicate OneLine(s: string) { '\n' !in s }

  predicate ReadableName(s: string) {
    OneLine(s) && ':' !in s && ';' !in s
  }

  predicate Readable(m: seq<Header>) {
    forall i :: 0 <= i < |m| ==> ReadableName(m[i].0) && OneLine(Trim(m[i].1))
  }

  function Trimming(m: seq<Header>): seq<Header> {
    seq(|m|, i requires 0 <= i < |m| => (m[i].0, Trim(m[i].1)))
  }

  function HeaderLines(m: seq<Header>): seq<string> {
    seq(|m|, i requires 0 <= i < |m| => HeaderLine(m[i]))
  }

  /** The header block and the joins around it are one list of lines with a blank line inside. */
  lemma {:induction false} HeaderBlock(m: seq<Header>, signed: string, payloadHash: string)
    ensures CanonicalHeaders(m) + ("\n" + (signed + ("\n" + payloadHash)))
      == Join(HeaderLines(m) + ["", signed, payloadHash], "\n")
  {
    hide HeaderLine, Join;
    var tail := ["", signed, payloadHash];
    if m == [] {
      JoinOne(payloadHash, "\n");
      JoinMore("", [signed, payloadHash], "\n");
      JoinMore(signed, [payloadHash], "\n");
      assert HeaderLines(m) + tail == [""] + [signed, payloadHash];
      assert [signed] + [payloadHash] == [signed, payloadHash];
    } else {
      HeaderBlock(m[1..], signed, payloadHash);
      assert HeaderLines(m) + tail == [HeaderLine(m[0])] + (HeaderLines(m[1..]) + tail);
      JoinMore(HeaderLine(m[0]), HeaderLines(m[1..]) + tail, "\n");
      AssocLine(HeaderLine(m[0]), CanonicalHeaders(m[1..]), "\n" + (signed + ("\n" + payloadHash)));
    }
  }

  lemma AssocLine(a: string, b: string, c: string)
    ensures a + "\n" + b + c == a + "\n" + (b + c)
  {
  }

  lemma CanonicalLines(verb: string, path: string, query: string, m: seq<Header>, payloadHash: string)
    ensures CanonicalRequest(verb, path, query, m, payloadHash)
      == Join([verb, path, query] + (HeaderLines(m) + ["", Join(Names(m), ";"), payloadHash]), "\n")
  {
    hide HeaderLines, CanonicalHeaders, Names;
    var signed := Join(Names(m), ";");
    var block := HeaderLines(m) + ["", signed, payloadHash];
    HeaderBlock(m, signed, payloadHash);
    JoinSix(verb, path, query, CanonicalHeaders(m), signed, payloadHash);
    assert [verb, path, query] + block == [verb] + ([path] + ([query] + block));
    JoinMore(query, block, "\n");
    JoinMore(path, [query] + block, "\n");
    JoinMore(verb, [path] + ([query] + block), "\n");
  }

  lemma JoinSix(a: string, b: string, c: string, d: string, e: string, f: string)
    ensures Join([a, b, c, d, e, f], "\n") == a + "\n" + (b + "\n" + (c + "\n" + (d + ("\n" + (e + ("\n" + f))))))
  {
    assert [a, b, c, d, e, f] == [a] + [b, c, d, e, f];
    JoinMore(a, [b, c, d, e, f], "\n");
    assert [b, c, d, e, f] == [b] + [c, d, e, f];
    JoinMore(b, [c, d, e, f], "\n");
    assert [c, d, e, f] == [c] + [d, e, f];
    JoinMore(c, [d, e, f], "\n");
    assert [d, e, f] == [d] + [e, f];
    JoinMore(d, [e, f], "\n");
    assert [e, f] == [e] + [f];
    JoinMore(e, [f], "\n");
  }

  lemma ReadHeaderLineOf(h: Header)
    requires ':' !in h.0
    ensures ReadHeaderLine(HeaderLine(h)) == (h.0, Trim(h.1))
    ensures HeaderLine(h) != ""
  {
    assert HeaderLine(h) == h.0 + (":" + Trim(h.1));
    BeforeConcat(h.0, ":" + Trim(h.1), ':');
    assert HeaderLine(h)[|h.0| + 1..] == Trim(h.1);
  }

  lemma {:induction false} ReadHeadersOf(m: seq<Header>, tail: seq<string>)
    requires Readable(m) && tail != [] && tail[0] == ""
    ensures ReadHeaders(HeaderLines(m) + tail) == Trimming(m)
  {
    hide HeaderLine, ReadHeaderLine, Trim;
    if m != [] {
      ReadHeaderLineOf(m[0]);
      ReadHeadersOf(m[1..], tail);
      assert HeaderLines(m) + tail == [HeaderLine(m[0])] + (HeaderLines(m[1..]) + tail);
      assert Trimming(m) == [(m[0].0, Trim(m[0].1))] + Trimming(m[1..]);
    } else {
      assert HeaderLines(m) + tail == tail;
    }
  }

  lemma SignedNamesSplit(m: seq<Header>)
    requires Readable(m) && m != []
    ensures Split(Join(Names(m), ";"), ';') == Names(m)
    ensures OneLine(Join(Names(m), ";"))
  {
    SplitJoin(Names(m), ';');
    JoinLacks(Names(m), ";", '\n');
  }

  /** The canonical request can be read back, whether or not the query line is empty. */
  lemma CanonicalRoundTrip(verb: string, path: string, query: string, m: seq<Header>, payloadHash: string)
    requires OneLine(verb) && OneLine(path) && OneLine(query) && OneLine(payloadHash)
    requires Readable(m) && m != []
    ensures ReadCanonical(CanonicalRequest(verb, path, query, m, payloadHash))
      == Some(CanonicalParts(verb, path, query, Trimming(m), Names(m), payloadHash))
  {
    hide CanonicalRequest, HeaderLine, ReadHeaders, Join, Split, Names, Readable, Trim;
    var signed := Join(Names(m), ";");
    var tail := ["", signed, payloadHash];
    var block := HeaderLines(m) + tail;
    var lines := [verb, path, query] + block;
    CanonicalLines(verb, path, query, m, payloadHash);
    SignedNamesSplit(m);
    HeaderLinesOneLine(m);
    SplitJoin(lines, '\n');
    ReadHeadersOf(m, tail);
    assert lines[3..] == block;
  }

  lemma HeaderLinesOneLine(m: seq<Header>)
    requires Readable(m)
    ensures forall i :: 0 <= i < |HeaderLines(m)| ==> OneLine(HeaderLines(m)[i])
  {
    hide HeaderLine;
    forall i | 0 <= i < |m| ensures OneLine(HeaderLine(m[i])) {
      HeaderLineOneLine(m[i]);
    }
  }

  lemma HeaderLineOneLine(h: Header)
    requires OneLine(h.0) && OneLine(Trim(h.1))
    ensures OneLine(HeaderLine(h))
  {
  }

  // ---------------------------------------------------------------- signing

  /** The hash functions, with text standing for bytes. */
  datatype Hashes = Hashes(sha256Hex: string -> string, hmac: (string, string) -> string, hex: string -> string)

  datatype Credentials = Credentials(accessKey: string, secretKey: string, sessionToken: Option<string>)

  datatype Clock = Clock(date: string, time: string) {
    /** `%Y%m%dT%H%M%SZ` */
    function Stamp(): string { date + "T" + time + "Z" }
  }

  function Scope(date: string, region: string, service: string): string {
    Join([date, region, service, "aws4_request"], "/")
  }

  function StringToSign(stamp: string, scope: string, requestHash: string): string {
    Join(["AWS4-HMAC-SHA256", stamp, scope, requestHash], "\n")
  }

  /** The headers that are signed. */
  function BaseHeaders(host: string, body: string, payloadHash: string, stamp: string, token: Option<string>): seq<Header> {
    (if body != "" then [("content-type", "application/xml")] else [])
    + [("host", host), ("x-amz-content-sha256", payloadHash), ("x-amz-date", stamp)]
    + (if token.Some? then [("x-amz-security-token", token.value)] else [])
  }

  function Authorization(accessKey: string, scope: string, signed: string, signature: string): string {
    "AWS4-HMAC-SHA256 Credential=" + accessKey + "/" + scope + ", SignedHeaders=" + signed + ", Signature=" + signature
  }

  lemma NamesAscend()
    ensures Less("authorization", "content-type") && Less("authorization", "host")
    ensures Less("content-type", "host") && Less("content-type", "x-amz-content-sha256")
    ensures Less("host", "x-amz-content-sha256") && Less("content-type", "x-amz-date") && Less("host", "x-amz-date")
    ensures Less("x-amz-content-sha256", "x-amz-date")
    ensures Less("content-type", "x-amz-security-token") && Less("host", "x-amz-security-token")
    ensures Less("x-amz-content-sha256", "x-amz-security-token") && Less("x-amz-date", "x-amz-security-token")
  {
    hide Less;
    LessAt("authorization", "content-type", 0);
    LessAt("authorization", "host", 0);
    LessAt("content-type", "host", 0);
    LessAt("content-type", "x-amz-content-sha256", 0);
    LessAt("host", "x-amz-content-sha256", 0);
    LessAt("content-type", "x-amz-date", 0);
    LessAt("host", "x-amz-date", 0);
    LessAt("x-amz-content-sha256", "x-amz-date", 6);
    LessAt("content-type", "x-amz-security-token", 0);
    LessAt("host", "x-amz-security-token", 0);
    LessAt("x-amz-content-sha256", "x-amz-security-token", 6);
    LessAt("x-amz-date", "x-amz-security-token", 6);
  }

  /** A new greatest key goes to the end, a new least key to the front. */
  lemma {:induction false} InsertLast(m: seq<Header>, k: string, v: string)
    requires forall i :: 0 <= i < |m| ==> Less(m[i].0, k)
    ensures Insert(m, k, v) == m + [(k, v)]
  {
    if m != [] {
      LessTotal(m[0].0, k);
      InsertLast(m[1..], k, v);
      assert m == [m[0]] + m[1..];
    }
  }

  lemma InsertFirst(m: seq<Header>, k: string, v: string)
    requires m != [] && Less(k, m[0].0)
    ensures Insert(m, k, v) == [(k, v)] + m
  {
  }

  lemma InsertNone(k: string, v: string)
    ensures Insert([], k, v) == [(k, v)]
  {
  }

  lemma BaseSorted(host: string, body: string, payloadHash: string, stamp: string, token: Option<string>)
    ensures Sorted(BaseHeaders(host, body, payloadHash, stamp, token))
    ensures forall i :: 0 <= i < |BaseHeaders(host, body, payloadHash, stamp, token)| ==>
      Less("authorization", BaseHeaders(host, body, payloadHash, stamp, token)[i].0)
  {
    hide Less;
    NamesAscend();
    LessTransitive("authorization", "host", "x-amz-content-sha256");
    LessTransitive("authorization", "host", "x-amz-date");
    LessTransitive("authorization", "host", "x-amz-security-token");
  }

  // ---------------------------------------------------------------- the texts, written out

  /** The names of the signed headers as they stand in the texts. */
  lemma NamesWritten(host: string, body: string, payloadHash: string, stamp: string, token: Option<string>)
    ensures Join(Names(BaseHeaders(host, body, payloadHash, stamp, token)), ";")
      == (if body != "" then "content-type;" else "") + "host;x-amz-content-sha256;x-amz-date"
         + (if token.Some? then ";x-amz-security-token" else "")
  {
    hide Join, Names;
    var plain := ["host", "x-amz-content-sha256", "x-amz-date"];
    var last := if token.Some? then ["x-amz-security-token"] else [];
    PlainNamesWritten();
    JoinSnoc(plain, "x-amz-security-token", ";");
    NamesOfBase(host, body, payloadHash, stamp, token);
    if token.None? {
      assert plain + last == plain;
    }
    TokenNamed("host;x-amz-content-sha256;x-amz-date");
    if body != "" {
      JoinMore("content-type", plain + last, ";");
      TypeNamed("host;x-amz-content-sha256;x-amz-date", if token.Some? then ";x-amz-security-token" else "");
    } else {
      assert [] + (plain + last) == plain + last;
    }
  }

  lemma TokenNamed(names: string)
    ensures names + ";" + "x-amz-security-token" == names + ";x-amz-security-token"
    ensures names + "" == names
  {
  }

  lemma TypeNamed(names: string, more: string)
    ensures "content-type" + ";" + (names + more) == "content-type;" + names + more
  {
  }

  lemma NamesOfBase(host: string, body: string, payloadHash: string, stamp: string, token: Option<string>)
    ensures Names(BaseHeaders(host, body, payloadHash, stamp, token))
      == (if body != "" then ["content-type"] else [])
         + (["host", "x-amz-content-sha256", "x-amz-date"] + (if token.Some? then ["x-amz-security-token"] else []))
  {
  }

  lemma PlainNamesWritten()
    ensures Join(["host", "x-amz-content-sha256", "x-amz-date"], ";") == "host;x-amz-content-sha256;x-amz-date"
  {
    hide Join;
    JoinThree("host", "x-amz-content-sha256", "x-amz-date");
    assert "host" + ";" == "host;";
    assert "host;" + "x-amz-content-sha256" == "host;x-amz-content-sha256";
    assert "host;x-amz-content-sha256" + ";" == "host;x-amz-content-sha256;";
    assert "host;x-amz-content-sha256;" + "x-amz-date" == "host;x-amz-content-sha256;x-amz-date";
  }

  lemma JoinThree(a: string, b: string, c: string)
    ensures Join([a, b, c], ";") == a + ";" + b + ";" + c
  {
    hide Join;
    JoinOne(a, ";");
    JoinSnoc([a], b, ";");
    assert [a] + [b] == [a, b];
    JoinSnoc([a, b], c, ";");
    assert [a, b] + [c] == [a, b, c];
  }

  lemma ScopeWritten(date: string, region: string, service: string)
    ensures Scope(date, region, service) == date + "/" + region + "/" + service + "/aws4_request"
  {
    hide Join;
    JoinFour(date, region, service, "aws4_request", "/");
    assert date + "/" + region + "/" + service + "/" + "aws4_request"
        == date + "/" + region + "/" + service + ("/" + "aws4_request");
  }

  lemma JoinFour(a: string, b: string, c: string, d: string, sep: string)
    ensures Join([a, b, c, d], sep) == a + sep + b + sep + c + sep + d
  {
    hide Join;
    JoinOne(a, sep);
    JoinSnoc([a], b, sep);
    assert [a] + [b] == [a, b];
    JoinSnoc([a, b], c, sep);
    assert [a, b] + [c] == [a, b, c];
    JoinSnoc([a, b, c], d, sep);
    assert [a, b, c] + [d] == [a, b, c, d];
  }

  lemma StringToSignWritten(stamp: string, scope: string, requestHash: string)
    ensures StringToSign(stamp, scope, requestHash)
      == "AWS4-HMAC-SHA256" + "\n" + stamp + "\n" + scope + "\n" + requestHash
  {
    JoinFour("AWS4-HMAC-SHA256", stamp, scope, requestHash, "\n");
  }

  lemma HeadersOne(k: string, v: string)
    ensures CanonicalHeaders([(k, v)]) == k + ":" + Trim(v) + "\n"
  {
    hide Trim;
    assert [(k, v)][1..] == [];
    assert CanonicalHeaders([]) == "";
  }

  lemma {:induction false} HeadersConcat(a: seq<Header>, b: seq<Header>)
    ensures CanonicalHeaders(a + b) == CanonicalHeaders(a) + CanonicalHeaders(b)
  {
    hide HeaderLine;
    if a == [] {
      assert a + b == b;
    } else {
      HeadersConcat(a[1..], b);
      assert a + b == [a[0]] + (a[1..] + b);
      AssocLine(HeaderLine(a[0]), CanonicalHeaders(a[1..]), CanonicalHeaders(b));
    }
  }

  lemma HeaderBlockWritten(host: string, body: string, payloadHash: string, stamp: string, token: Option<string>)
    ensures CanonicalHeaders(BaseHeaders(host, body, payloadHash, stamp, token))
      == (if body != "" then "content-type:application/xml\n" else "")
         + ("host:" + Trim(host) + "\n")
         + ("x-amz-content-sha256:" + Trim(payloadHash) + "\n")
         + ("x-amz-date:" + Trim(stamp) + "\n")
         + (match token case Some(t) => "x-amz-security-token:" + Trim(t) + "\n" case None => "")
  {
    hide CanonicalHeaders, Trim;
    var front := if body != "" then [("content-type", "application/xml")] else [];
    var last := if token.Some? then [("x-amz-security-token", token.value)] else [];
    HeadersNone();
    TypeLine();
    HeadersOne("host", host);
    HeadersOne("x-amz-content-sha256", payloadHash);
    HeadersOne("x-amz-date", stamp);
    if token.Some? {
      HeadersOne("x-amz-security-token", token.value);
      TokenLine(Trim(token.value));
    }
    HeadersFive(front, ("host", host), ("x-amz-content-sha256", payloadHash), ("x-amz-date", stamp), last);
    HostLine(Trim(host));
    HashLine(Trim(payloadHash));
    DateLine(Trim(stamp));
  }

  lemma HeadersNone()
    ensures CanonicalHeaders([]) == ""
  {
  }

  lemma TypeLine()
    ensures CanonicalHeaders([("content-type", "application/xml")]) == "content-type:application/xml\n"
  {
    hide Trim, CanonicalHeaders;
    HeadersOne("content-type", "application/xml");
    assert Trim("application/xml") == "application/xml";
    assert "content-type" + ":" + "application/xml" + "\n" == "content-type:application/xml\n";
  }

  lemma HostLine(v: string)
    ensures "host" + ":" + v + "\n" == "host:" + v + "\n"
  {
  }

  lemma HashLine(v: string)
    ensures "x-amz-content-sha256" + ":" + v + "\n" == "x-amz-content-sha256:" + v + "\n"
  {
  }

  lemma DateLine(v: string)
    ensures "x-amz-date" + ":" + v + "\n" == "x-amz-date:" + v + "\n"
  {
  }

  lemma TokenLine(v: string)
    ensures "x-amz-security-token" + ":" + v + "\n" == "x-amz-security-token:" + v + "\n"
  {
  }

  lemma HeadersFive(front: seq<Header>, a: Header, b: Header, c: Header, last: seq<Header>)
    ensures CanonicalHeaders(front + [a, b, c] + last)
      == CanonicalHeaders(front) + CanonicalHeaders([a]) + CanonicalHeaders([b]) + CanonicalHeaders([c])
       + CanonicalHeaders(last)
  {
    hide CanonicalHeaders;
    HeadersConcat(front + [a, b, c], last);
    assert front + [a, b, c] == front + [a] + [b] + [c];
    HeadersConcat(front + [a] + [b], [c]);
    HeadersConcat(front + [a], [b]);
    HeadersConcat(front, [a]);
  }

  lemma CanonicalWritten(verb: string, path: string, query: string, m: seq<Header>, payloadHash: string)
    ensures CanonicalRequest(verb, path, query, m, payloadHash)
      == verb + "\n" + path + "\n" + query + "\n" + CanonicalHeaders(m) + "\n" + Join(Names(m), ";") + "\n" + payloadHash
  {
    hide CanonicalHeaders, Names, Join;
    var headers, names := CanonicalHeaders(m), Join(Names(m), ";");
    JoinFour(verb, path, query, headers, "\n");
    JoinSnoc([verb, path, query, headers], names, "\n");
    assert [verb, path, query, headers] + [names] == [verb, path, query, headers, names];
    JoinSnoc([verb, path, query, headers, names], payloadHash, "\n");
    assert [verb, path, query, headers, names] + [payloadHash] == [verb, path, query, headers, names, payloadHash];
  }

  // ---------------------------------------------------------------- reading the authorization

  datatype AuthorizationParts = AuthorizationParts(credential: seq<string>, signedHeaders: seq<string>, signature: string)

  /** A reader of authorization values: the credential is split at slashes, the name list at semicolons. */
  function ReadAuthorization(s: string): Option<AuthorizationParts> {
    match Eat(s, "AWS4-HMAC-SHA256 Credential=")
    case None => None
    case Some(rest) =>
      var n := Before(rest, ',');
      match Eat(rest[n..], ", SignedHeaders=")
      case None => None
      case Some(list) =>
        var k := Before(list, ',');
        match Eat(list[k..], ", Signature=")
        case None => None
        case Some(signature) => Some(AuthorizationParts(Split(rest[..n], '/'), Split(list[..k], ';'), signature))
  }

  lemma ReadAuthorizationOf(credential: string, names: string, signature: string)
    requires ',' !in credential && ',' !in names
    ensures var s := "AWS4-HMAC-SHA256 Credential=" + credential + ", SignedHeaders=" + names + ", Signature=" + signature;
      ReadAuthorization(s) == Some(AuthorizationParts(Split(credential, '/'), Split(names, ';'), signature))
  {
    hide Before, Split, Eat;
    var list := names + (", Signature=" + signature);
    var rest := credential + (", SignedHeaders=" + list);
    AssocParts("AWS4-HMAC-SHA256 Credential=", credential, ", SignedHeaders=", names, ", Signature=", signature);
    EatConcat("AWS4-HMAC-SHA256 Credential=", rest);
    BeforeConcat(credential, ", SignedHeaders=" + list, ',');
    EatConcat(", SignedHeaders=", list);
    BeforeConcat(names, ", Signature=" + signature, ',');
    EatConcat(", Signature=", signature);
  }

  lemma AssocParts(a: string, b: string, c: string, d: string, e: string, f: string)
    ensures a + b + c + d + e + f == a + (b + (c + (d + (e + f))))
  {
  }

  lemma CredentialSplit(accessKey: string, date: string, region: string, service: string)
    requires forall part :: part in [accessKey, date, region, service] ==> ',' !in part && '/' !in part
    ensures var credential := accessKey + "/" + Scope(date, region, service);
      ',' !in credential && Split(credential, '/') == [accessKey, date, region, service, "aws4_request"]
  {
    hide Join, Split;
    var parts := [accessKey, date, region, service, "aws4_request"];
    JoinMore(accessKey, [date, region, service, "aws4_request"], "/");
    assert [accessKey] + [date, region, service, "aws4_request"] == parts;
    assert forall i :: 0 <= i < 4 ==> parts[i] in [accessKey, date, region, service];
    SplitJoin(parts, '/');
    JoinLacks(parts, "/", ',');
  }

  /** The authorization value gives back the access key, the scope, the names of the signed headers and the signature. */
  lemma AuthorizationRoundTrip(accessKey: string, date: string, region: string, service: string, m: seq<Header>,
                               signature: string)
    requires forall part :: part in [accessKey, date, region, service] ==> ',' !in part && '/' !in part
    requires m != [] && forall i :: 0 <= i < |m| ==> ListableName(m[i].0)
    ensures ReadAuthorization(Authorization(accessKey, Scope(date, region, service), Join(Names(m), ";"), signature))
      == Some(AuthorizationParts([accessKey, date, region, service, "aws4_request"], Names(m), signature))
  {
    hide Join, Split, Scope, ReadAuthorization;
    var credential := accessKey + "/" + Scope(date, region, service);
    CredentialSplit(accessKey, date, region, service);
    SplitJoin(Names(m), ';');
    JoinLacks(Names(m), ";", ',');
    ReadAuthorizationOf(credential, Join(Names(m), ";"), signature);
    AssocCredential("AWS4-HMAC-SHA256 Credential=", accessKey, "/", Scope(date, region, service));
  }

  lemma AssocCredential(a: string, b: string, c: string, d: string)
    ensures a + b + c + d == a + (b + c + d)
  {
  }

  predicate ListableName(n: string) { ';' !in n && ',' !in n }

  lemma BaseNamesListable(host: string, body: string, payloadHash: string, stamp: string, token: Option<string>)
    ensures var m := BaseHeaders(host, body, payloadHash, stamp, token);
      m != [] && forall i :: 0 <= i < |m| ==> ListableName(m[i].0)
  {
    hide ListableName;
    PlainNamesListable();
    HashNameListable();
    TokenNameListable();
  }

  lemma PlainNamesListable()
    ensures ListableName("content-type") && ListableName("host") && ListableName("x-amz-date")
  {
  }

  lemma HashNameListable()
    ensures ListableName("x-amz-content-sha256")
  {
  }

  lemma TokenNameListable()
    ensures ListableName("x-amz-security-token")
  {
  }

  lemma CanonicalReadBack(verb: string, path: string, query: string, host: string, body: string, payloadHash: string,
                          stamp: string, token: Option<string>)
    requires '\n' !in verb && '\n' !in path && '\n' !in query
    requires var m := BaseHeaders(host, body, payloadHash, stamp, token);
      forall i :: 0 <= i < |m| ==> '\n' !in m[i].1
    ensures var m := BaseHeaders(host, body, payloadHash, stamp, token);
      ReadCanonical(CanonicalRequest(verb, path, query, m, payloadHash))
        == Some(CanonicalParts(verb, path, query, Trimming(m), Names(m), payloadHash))
  {
    hide CanonicalRequest, ReadCanonical, Trimming, Trim, ReadableName, Names;
    var m := BaseHeaders(host, body, payloadHash, stamp, token);
    BaseNamesReadable(host, body, payloadHash, stamp, token);
    forall i | 0 <= i < |m| ensures OneLine(Trim(m[i].1)) {
      TrimKeepsLine(m[i].1);
    }
    assert m[if body != "" then 2 else 1].1 == payloadHash;
    CanonicalRoundTrip(verb, path, query, m, payloadHash);
  }

  lemma TrimKeepsLine(v: string)
    requires OneLine(v)
    ensures OneLine(Trim(v))
  {
    hide Trim;
    forall i | 0 <= i < |Trim(v)| ensures Trim(v)[i] != '\n' {
      TrimInside(v, i);
    }
  }

  lemma ToSignReadBack(clock: Clock, region: string, service: string, requestHash: string)
    requires forall part :: part in [clock.date, clock.time, region, service, requestHash] ==> '\n' !in part
    ensures Split(StringToSign(clock.Stamp(), Scope(clock.date, region, service), requestHash), '\n')
      == ["AWS4-HMAC-SHA256", clock.Stamp(), Scope(clock.date, region, service), requestHash]
  {
    hide StringToSign, Scope, Split;
    ScopeWritten(clock.date, region, service);
    StringToSignRoundTrip(clock.Stamp(), Scope(clock.date, region, service), requestHash);
  }

  lemma ReadBack(h: Hashes, clock: Clock, verb: string, host: string, path: string, query: string, body: string,
                 service: string, region: string, credentials: Credentials, signature: string, hdrs: seq<Header>)
    requires var base := BaseHeaders(host, body, h.sha256Hex(body), clock.Stamp(), credentials.sessionToken);
      var scope := Scope(clock.date, region, service);
      hdrs == [("authorization", Authorization(credentials.accessKey, scope, Join(Names(base), ";"), signature))] + base
    ensures (forall part :: part in [credentials.accessKey, clock.date, region, service] ==> ',' !in part && '/' !in part) ==>
      ReadAuthorization(hdrs[0].1) == Some(AuthorizationParts(
        [credentials.accessKey, clock.date, region, service, "aws4_request"], Names(hdrs[1..]), signature))
    ensures var base := BaseHeaders(host, body, h.sha256Hex(body), clock.Stamp(), credentials.sessionToken);
      var hash := h.sha256Hex(CanonicalRequest(verb, path, query, base, h.sha256Hex(body)));
      (forall part :: part in [clock.date, clock.time, region, service, hash] ==> '\n' !in part) ==>
        Split(StringToSign(clock.Stamp(), Scope(clock.date, region, service), hash), '\n')
          == ["AWS4-HMAC-SHA256", clock.Stamp(), Scope(clock.date, region, service), hash]
    ensures var base := BaseHeaders(host, body, h.sha256Hex(body), clock.Stamp(), credentials.sessionToken);
      '\n' !in verb && '\n' !in path && '\n' !in query && (forall i :: 1 <= i < |hdrs| ==> '\n' !in hdrs[i].1) ==>
        ReadCanonical(CanonicalRequest(verb, path, query, base, h.sha256Hex(body)))
          == Some(CanonicalParts(verb, path, query, Trimming(hdrs[1..]), Names(hdrs[1..]), h.sha256Hex(body)))
  {
    hide CanonicalRequest, Authorization, Scope, StringToSign, Join, Names, ReadAuthorization, ReadCanonical, Split, Trimming,
         BaseHeaders, ListableName;
    var base := BaseHeaders(host, body, h.sha256Hex(body), clock.Stamp(), credentials.sessionToken);
    var hash := h.sha256Hex(CanonicalRequest(verb, path, query, base, h.sha256Hex(body)));
    assert hdrs[1..] == base;
    BaseNamesListable(host, body, h.sha256Hex(body), clock.Stamp(), credentials.sessionToken);
    if forall part :: part in [credentials.accessKey, clock.date, region, service] ==> ',' !in part && '/' !in part {
      AuthorizationRoundTrip(credentials.accessKey, clock.date, region, service, base, signature);
    }
    if forall part :: part in [clock.date, clock.time, region, service, hash] ==> '\n' !in part {
      ToSignReadBack(clock, region, service, hash);
    }
    if '\n' !in verb && '\n' !in path && '\n' !in query && (forall i :: 1 <= i < |hdrs| ==> '\n' !in hdrs[i].1) {
      assert forall i :: 0 <= i < |base| ==> base[i] == hdrs[i + 1];
      CanonicalReadBack(verb, path, query, host, body, h.sha256Hex(body), clock.Stamp(), credentials.sessionToken);
    }
  }

  lemma HeadersWritten(accessKey: string, scope: string, names: string, signature: string,
                       host: string, body: string, payloadHash: string, stamp: string, token: Option<string>)
    ensures [("authorization", Authorization(accessKey, scope, names, signature))]
        + BaseHeaders(host, body, payloadHash, stamp, token)
      == [("authorization", "AWS4-HMAC-SHA256 Credential=" + accessKey + "/" + scope + ", SignedHeaders=" + names
                            + ", Signature=" + signature)]
         + (if body != "" then [("content-type", "application/xml")] else [])
         + [("host", host), ("x-amz-content-sha256", payloadHash), ("x-amz-date", stamp)]
         + (match token case Some(t) => [("x-amz-security-token", t)] case None => [])
  {
  }

  /** The headers of the request in a map, one insertion after the other. */
  method HeadersToSign(host: string, body: string, payloadHash: string, stamp: string, token: Option<string>)
    returns (hdrs: seq<Header>)
    ensures hdrs == BaseHeaders(host, body, payloadHash, stamp, token)
  {
    hide Less, Insert;
    InsertNone("content-type", "application/xml");
    NamesAscend();
    hdrs := [];
    if body != "" {
      hdrs := Insert(hdrs, "content-type", "application/xml");
    }
    InsertLast(hdrs, "host", host);
    hdrs := Insert(hdrs, "host", host);
    InsertLast(hdrs, "x-amz-content-sha256", payloadHash);
    hdrs := Insert(hdrs, "x-amz-content-sha256", payloadHash);
    InsertLast(hdrs, "x-amz-date", stamp);
    hdrs := Insert(hdrs, "x-amz-date", stamp);
    if token.Some? {
      InsertLast(hdrs, "x-amz-security-token", token.value);
      hdrs := Insert(hdrs, "x-amz-security-token", token.value);
    }
  }

  /** `aws_sigv4_headers`: the map is filled, signed as it stands, and then given its authorization. */
  method AwsSigv4Headers(h: Hashes, clock: Clock, verb: string, host: string, path: string, query: string, body: string,
                         service: string, region: string, credentials: Credentials) returns (hdrs: seq<Header>)
    ensures var stamp, hash := clock.date + "T" + clock.time + "Z", h.sha256Hex(body);
      // The canonical request is made of all that is sent.
      var names := (if body != "" then "content-type;" else "") + "host;x-amz-content-sha256;x-amz-date"
        + (if credentials.sessionToken.Some? then ";x-amz-security-token" else "");
      var typeLine := if body != "" then "content-type:application/xml\n" else "";
      var hostLine, hashLine := "host:" + Trim(host) + "\n", "x-amz-content-sha256:" + Trim(hash) + "\n";
      var tokenLine := match credentials.sessionToken
        case Some(token) => "x-amz-security-token:" + Trim(token) + "\n"
        case None => "";
      var lines := typeLine + hostLine + hashLine + ("x-amz-date:" + Trim(stamp) + "\n") + tokenLine;
      var canonical := verb + "\n" + path + "\n" + query + "\n" + lines + "\n" + names + "\n" + hash;
      // The string to sign names the time, the scope and the hash of the canonical request.
      var scope := clock.date + "/" + region + "/" + service + "/aws4_request";
      var toSign := "AWS4-HMAC-SHA256" + "\n" + stamp + "\n" + scope + "\n" + h.sha256Hex(canonical);
      // The signature is over the string to sign, with a key derived in four steps.
      var dateKey := h.hmac("AWS4" + credentials.secretKey, clock.date);
      var signature := h.hex(h.hmac(h.hmac(h.hmac(h.hmac(dateKey, region), service), "aws4_request"), toSign));
      // The headers are sent in ascending order of name.
      var credential := "AWS4-HMAC-SHA256 Credential=" + credentials.accessKey + "/" + scope;
      && hdrs == [("authorization", credential + ", SignedHeaders=" + names + ", Signature=" + signature)]
           + (if body != "" then [("content-type", "application/xml")] else [])
           + [("host", host), ("x-amz-content-sha256", hash), ("x-amz-date", stamp)]
           + (match credentials.sessionToken case Some(token) => [("x-amz-security-token", token)] case None => [])
      // A service that reads these texts finds every part of the request again.
      && ((forall part :: part in [credentials.accessKey, clock.date, region, service] ==> ',' !in part && '/' !in part) ==>
            ReadAuthorization(hdrs[0].1) == Some(AuthorizationParts(
              [credentials.accessKey, clock.date, region, service, "aws4_request"], Names(hdrs[1..]), signature)))
      && ((forall part :: part in [clock.date, clock.time, region, service, h.sha256Hex(canonical)] ==> '\n' !in part) ==>
            Split(toSign, '\n') == ["AWS4-HMAC-SHA256", stamp, scope, h.sha256Hex(canonical)])
      && ('\n' !in verb && '\n' !in path && '\n' !in query && (forall i :: 1 <= i < |hdrs| ==> '\n' !in hdrs[i].1) ==>
            ReadCanonical(canonical) == Some(CanonicalParts(verb, path, query, Trimming(hdrs[1..]), Names(hdrs[1..]), hash)))
  {
    hide CanonicalRequest, CanonicalHeaders, Authorization, Less, Scope, StringToSign, Join, Names, Insert, ReadAuthorization,
         ReadCanonical, Split, Trim, Trimming, Sorted, BaseHeaders;
    var payloadHash := h.sha256Hex(body);
    hdrs := HeadersToSign(host, body, payloadHash, clock.Stamp(), credentials.sessionToken);
    ghost var base := hdrs;
    var signedHeaders := FoldNames(hdrs);
    var canonicalRequest := CanonicalRequest(verb, path, query, hdrs, payloadHash);
    var scope := Scope(clock.date, region, service);
    var stringToSign := StringToSign(clock.Stamp(), scope, h.sha256Hex(canonicalRequest));
    var kDate := h.hmac("AWS4" + credentials.secretKey, clock.date);
    var kRegion := h.hmac(kDate, region);
    var kService := h.hmac(kRegion, service);
    var kSigning := h.hmac(kService, "aws4_request");
    var sig := h.hex(h.hmac(kSigning, stringToSign));
    NamesWritten(host, body, payloadHash, clock.Stamp(), credentials.sessionToken);
    ScopeWritten(clock.date, region, service);
    StringToSignWritten(clock.Stamp(), scope, h.sha256Hex(canonicalRequest));
    HeaderBlockWritten(host, body, payloadHash, clock.Stamp(), credentials.sessionToken);
    CanonicalWritten(verb, path, query, base, payloadHash);
    BaseSorted(host, body, payloadHash, clock.Stamp(), credentials.sessionToken);
    BaseNamesListable(host, body, payloadHash, clock.Stamp(), credentials.sessionToken);
    InsertFirst(hdrs, "authorization", Authorization(credentials.accessKey, scope, signedHeaders, sig));
    hdrs := Insert(hdrs, "authorization", Authorization(credentials.accessKey, scope, signedHeaders, sig));
    HeadersWritten(credentials.accessKey, scope, signedHeaders, sig, host, body, payloadHash, clock.Stamp(),
                   credentials.sessionToken);
    ReadBack(h, clock, verb, host, path, query, body, service, region, credentials, sig, hdrs);
  }

  /** The fold that lists the header names. */
  method FoldNames(m: seq<Header>) returns (acc: string)
    ensures acc == Join(Names(m), ";")
  {
    hide Join;
    acc := "";
    JoinNothing(";");
    for i := 0 to |m|
      invariant acc == Join(Names(m)[..i], ";")
    {
      JoinSnoc(Names(m)[..i], m[i].0, ";");
      assert Names(m)[..i + 1] == Names(m)[..i] + [m[i].0];
      if i > 0 {
        acc := acc + ";";
      }
      acc := acc + m[i].0;
    }
    assert Names(m)[..|m|] == Names(m);
  }

  lemma {:induction false} JoinSnoc(t: seq<string>, last: string, sep: string)
    ensures Join(t + [last], sep) == (if t == [] then last else Join(t, sep) + sep + last)
  {
    hide Join;
    if t == [] {
      assert t + [last] == [last];
      JoinOne(last, sep);
    } else {
      var rest := t[1..];
      JoinSnoc(rest, last, sep);
      assert t + [last] == [t[0]] + (rest + [last]) && t == [t[0]] + rest;
      JoinMore(t[0], rest + [last], sep);
      if rest == [] {
        assert t == [t[0]];
        JoinOne(t[0], sep);
      } else {
        JoinMore(t[0], rest, sep);
        AssocSnoc(t[0], sep, Join(rest, sep), last);
      }
    }
  }

  lemma AssocSnoc(h: string, sep: string, mid: string, last: string)
    ensures h + sep + (mid + sep + last) == h + sep + mid + sep + last
  {
  }

  lemma JoinNothing(sep: string)
    ensures Join([], sep) == ""
  {
  }

  // ---------------------------------------------------------------- what is sent

  /** Header values that the HTTP library accepts: visible ASCII and tabs. */
  predicate SendableValue(v: string) {
    forall i :: 0 <= i < |v| ==> 32 <= v[i] as int < 127 || v[i] == '\t'
  }

  /** The characters of a token (section 5.6.2 of RFC 9110). */
  predicate IsTokenChar(c: char) {
    'a' <= c <= 'z' || 'A' <= c <= 'Z' || '0' <= c <= '9' || c in "!#$%&'*+-.^_`|~"
  }

  const MAX_NAME_LENGTH := 65535

  /** Header names that the HTTP library accepts: tokens of bounded length. */
  predicate SendableName(n: string) {
    1 <= |n| <= MAX_NAME_LENGTH && forall i :: 0 <= i < |n| ==> IsTokenChar(n[i])
  }

  lemma SendableExact(n: string, v: string)
    ensures SendableName(n) <==> 1 <= |n| <= 65535 && forall c :: c in n ==>
      'a' <= c <= 'z' || 'A' <= c <= 'Z' || '0' <= c <= '9' || c in "!#$%&'*+-.^_`|~"
    ensures SendableValue(v) <==> forall c :: c in v ==> ' ' <= c <= '~' || c == '\t'
  {
    assert forall i :: 0 <= i < |n| ==> n[i] in n;
    assert forall i :: 0 <= i < |v| ==> v[i] in v;
    assert ' ' as int == 32 && '~' as int == 126;
  }

  /** The value under this name after inserting all entries in order; names are lowercased. */
  function HeaderFor(m: seq<Header>, name: string): Option<string> {
    if m == [] then None
    else if AsciiLower(m[|m| - 1].0) == name then Some(m[|m| - 1].1)
    else HeaderFor(m[..|m| - 1], name)
  }

  /** Under each name stands the value of the last entry with that name, in whatever case it was written. */
  lemma {:induction false} HeaderForLast(m: seq<Header>, name: string)
    ensures HeaderFor(m, name).None? <==> forall i :: 0 <= i < |m| ==> AsciiLower(m[i].0) != name
    ensures forall i :: 0 <= i < |m| && AsciiLower(m[i].0) == name ==>
      (forall j :: i < j < |m| ==> AsciiLower(m[j].0) != name) ==> HeaderFor(m, name) == Some(m[i].1)
  {
    hide AsciiLower;
    if m != [] && AsciiLower(m[|m| - 1].0) != name {
      HeaderForLast(m[..|m| - 1], name);
      assert m == m[..|m| - 1] + [m[|m| - 1]];
    }
  }

  function Value(hm: map<string, string>, name: string): Option<string> {
    if name in hm then Some(hm[name]) else None
  }

  /** `to_header_map`; `None` where a name or a value is refused. Of names that differ in case only the last value stays. */
  method ToHeaderMap(m: seq<Header>) returns (hm: Option<map<string, string>>)
    // Accepted iff each name is a token of at most 65535 characters and each value visible ASCII, spaces and tabs.
    ensures hm.Some? <==> forall i :: 0 <= i < |m| ==>
      && 1 <= |m[i].0| <= 65535
      && (forall c :: c in m[i].0 ==>
            'a' <= c <= 'z' || 'A' <= c <= 'Z' || '0' <= c <= '9' || c in "!#$%&'*+-.^_`|~")
      && (forall c :: c in m[i].1 ==> ' ' <= c <= '~' || c == '\t')
    ensures hm.Some? ==> forall name :: Value(hm.value, name) == HeaderFor(m, name)
  {
    hide SendableName, SendableValue, AsciiLower;
    forall i | 0 <= i < |m| {
      SendableExact(m[i].0, m[i].1);
    }
    var acc: map<string, string> := map[];
    for i := 0 to |m|
      invariant forall j :: 0 <= j < i ==> SendableName(m[j].0) && SendableValue(m[j].1)
      invariant forall name :: Value(acc, name) == HeaderFor(m[..i], name)
    {
      if !(SendableName(m[i].0) && SendableValue(m[i].1)) {
        return None;
      }
      assert m[..i + 1][..i] == m[..i] && m[..i + 1][i] == m[i];
      acc := acc[AsciiLower(m[i].0) := m[i].1];
    }
    assert m[..|m|] == m;
    hm := Some(acc);
  }

  /** Distinct lower-case names, like those of the signed headers, arrive as they are. */
  lemma {:induction false} HeaderForExact(m: seq<Header>, name: string, v: string)
    requires Sorted(m) && forall i :: 0 <= i < |m| ==> AsciiLower(m[i].0) == m[i].0
    ensures HeaderFor(m, name) == Some(v) <==> (name, v) in m
  {
    hide AsciiLower, Less;
    if m != [] {
      var front, last := m[..|m| - 1], m[|m| - 1];
      HeaderForExact(front, name, v);
      assert m == front + [last];
      forall i | 0 <= i < |front| ensures front[i].0 != last.0 {
        LessTotal(m[i].0, last.0);
      }
    }
  }

  lemma BaseNamesReadable(host: string, body: string, payloadHash: string, stamp: string, token: Option<string>)
    ensures var m := BaseHeaders(host, body, payloadHash, stamp, token);
      m != [] && forall i :: 0 <= i < |m| ==> ReadableName(m[i].0)
  {
    hide ReadableName;
    PlainNamesReadable();
    HashNameReadable();
    TokenNameReadable();
  }

  lemma PlainNamesReadable()
    ensures ReadableName("content-type") && ReadableName("host") && ReadableName("x-amz-date")
  {
  }

  lemma HashNameReadable()
    ensures ReadableName("x-amz-content-sha256")
  {
  }

  lemma TokenNameReadable()
    ensures ReadableName("x-amz-security-token")
  {
  }

  lemma TrimOneLine(v: string)
    requires SendableValue(v)
    ensures OneLine(Trim(v))
  {
    forall i | 0 <= i < |Trim(v)| ensures Trim(v)[i] != '\n' {
      TrimInside(v, i);
    }
  }

  lemma SendableOneLine(v: string)
    requires SendableValue(v)
    ensures OneLine(v)
  {
  }

  lemma TrimInside(v: string, i: nat)
    requires i < |Trim(v)|
    ensures Trim(v)[i] in v
  {
    var a := TrimStart(v);
    assert Trim(v)[i] == a[i];
    assert a[i] == v[|v| - |a| + i];
  }

  /** Everything sent is signed: the names sent are the signed names and `authorization`, the signed list is strictly
      ascending and splits into exactly those names, and the text that was hashed gives back every header sent. */
  lemma SentIsSigned(verb: string, path: string, query: string, host: string, body: string, payloadHash: string,
                     stamp: string, token: Option<string>, authorization: string)
    requires OneLine(verb) && OneLine(path) && OneLine(query)
    requires var base := BaseHeaders(host, body, payloadHash, stamp, token);
      forall i :: 0 <= i < |base| ==> SendableValue(base[i].1)
    ensures var base := BaseHeaders(host, body, payloadHash, stamp, token);
      var sent := [("authorization", authorization)] + base;
      && Sorted(sent)
      && Names(sent) == ["authorization"] + Names(base)
      && Split(Join(Names(base), ";"), ';') == Names(base)
      && ReadCanonical(CanonicalRequest(verb, path, query, base, payloadHash))
           == Some(CanonicalParts(verb, path, query, Trimming(base), Names(base), payloadHash))
  {
    hide CanonicalRequest, ReadCanonical, Less, Join, Split, Trimming, Trim, SendableValue, ReadableName;
    var base := BaseHeaders(host, body, payloadHash, stamp, token);
    BaseSorted(host, body, payloadHash, stamp, token);
    BaseNamesReadable(host, body, payloadHash, stamp, token);
    forall i | 0 <= i < |base| ensures OneLine(Trim(base[i].1)) {
      TrimOneLine(base[i].1);
    }
    assert base[if body != "" then 2 else 1].1 == payloadHash;
    SendableOneLine(payloadHash);
    SignedNamesSplit(base);
    CanonicalRoundTrip(verb, path, query, base, payloadHash);
  }

  /** The string to sign determines the time stamp, the scope and the hash of the request. */
  lemma StringToSignRoundTrip(stamp: string, scope: string, requestHash: string)
    requires OneLine(stamp) && OneLine(scope) && OneLine(requestHash)
    ensures Split(StringToSign(stamp, scope, requestHash), '\n') == ["AWS4-HMAC-SHA256", stamp, scope, requestHash]
  {
    assert OneLine("AWS4-HMAC-SHA256");
    SplitJoin(["AWS4-HMAC-SHA256", stamp, scope, requestHash], '\n');
  }

  /** The scope determines date, region and service. */
  lemma ScopeRoundTrip(date: string, region: string, service: string)
    requires '/' !in date && '/' !in region && '/' !in service
    ensures Split(Scope(date, region, service), '/') == [date, region, service, "aws4_request"]
  {
    assert '/' !in "aws4_request";
    SplitJoin([date, region, service, "aws4_request"], '/');
  }
}
