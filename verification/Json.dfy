/** JSON values, the compact and pretty writers of `serde_json`, and its reader. */
module Json {
  import opened Wrappers
  import opened Text

  /** Numbers keep their text: only the schema decides whether a number is an integer in range. */
  datatype Json =
    | Null
    | Bool(b: bool)
    | Num(lexeme: string)
    | Str(text: string)
    | Arr(items: seq<Json>)
    | Obj(fields: seq<Field>)

  datatype Field = Field(key: string, value: Json)

  // ---------------------------------------------------------------- strings

  function HexByte(n: nat): string
    requires n < 0x100
  {
    [DigitChar(n / 16), DigitChar(n % 16)]
  }

  /** RFC 8785 section 3.2.2.2: two-character escapes where JSON has them, `\u00xx` for other controls. */
  function EscapeChar(c: char): string {
    if c == '"' then "\\\""
    else if c == '\\' then "\\\\"
    else if c as int == 8 then "\\b"
    else if c as int == 9 then "\\t"
    else if c as int == 10 then "\\n"
    else if c as int == 12 then "\\f"
    else if c as int == 13 then "\\r"
    else if c as int < 0x20 then "\\u00" + HexByte(c as int)
    else [c]
  }

  function EscapeText(s: string): string {
    if s == "" then "" else EscapeChar(s[0]) + EscapeText(s[1..])
  }

  function QuoteText(s: string): string {
    "\"" + EscapeText(s) + "\""
  }

  /** Four hex digits as a UTF-16 code unit. */
  function ParseUnit(s: string): Option<Parsed<nat>> {
    if |s| >= 4 && AllDigits(s[..4], Hex)
    then Some(Parsed(DigitValue(s[0]) * 0x1000 + DigitValue(s[1]) * 0x100 + DigitValue(s[2]) * 0x10 + DigitValue(s[3]), s[4..]))
    else None
  }

  /** The part of a `\u` escape after the `u`: one unit, or a surrogate pair. */
  function ParseUnicodeEscape(s: string): Option<Parsed<char>> {
    match ParseUnit(s)
    case None => None
    case Some(Parsed(hi, rest)) =>
      if hi < 0xD800 || 0xE000 <= hi < 0x10000 then Some(Parsed(hi as char, rest))
      else if hi >= 0xDC00 || !StartsWith(rest, "\\u") then None
      else
        match ParseUnit(rest[2..])
        case Some(Parsed(lo, rest')) =>
          if 0xDC00 <= lo < 0xE000
          then Some(Parsed((0x10000 + (hi - 0xD800) * 0x400 + (lo - 0xDC00)) as char, rest'))
          else None
        case None => None
  }

  /** One escape, without its backslash. */
  function ParseEscape(s: string): (r: Option<Parsed<char>>)
    ensures r.Some? ==> |r.value.rest| < |s|
  {
    if s == "" then None
    else if s[0] in "\"\\/" then Some(Parsed(s[0], s[1..]))
    else if s[0] == 'b' then Some(Parsed(8 as char, s[1..]))
    else if s[0] == 't' then Some(Parsed(9 as char, s[1..]))
    else if s[0] == 'n' then Some(Parsed(10 as char, s[1..]))
    else if s[0] == 'f' then Some(Parsed(12 as char, s[1..]))
    else if s[0] == 'r' then Some(Parsed(13 as char, s[1..]))
    else if s[0] == 'u' then ParseUnicodeEscape(s[1..])
    else None
  }

  /** The rest of a string after its opening quote. */
  function ParseChars(s: string): (r: Option<Parsed<string>>)
    ensures r.Some? ==> |r.value.rest| < |s|
    decreases |s|
  {
    if s == "" then None
    else if s[0] == '"' then Some(Parsed("", s[1..]))
    else if s[0] == '\\' then
      (match ParseEscape(s[1..])
       case None => None
       case Some(Parsed(c, rest)) =>
         match ParseChars(rest)
         case None => None
         case Some(Parsed(t, rest')) => Some(Parsed([c] + t, rest')))
    else if s[0] as int < 0x20 then None
    else
      match ParseChars(s[1..])
      case None => None
      case Some(Parsed(t, rest)) => Some(Parsed([s[0]] + t, rest))
  }

  lemma ParseEscapedControl(n: nat, rest: string)
    requires n < 0x20
    ensures ParseEscape("u00" + HexByte(n) + rest) == Some(Parsed(n as char, rest))
  {
    var t := "00" + HexByte(n) + rest;
    assert "u00" + HexByte(n) + rest == "u" + t;
    assert t[..4] == "00" + HexByte(n) && t[4..] == rest;
  }

  lemma ParseEscapedChar(c: char, rest: string)
    ensures var e := EscapeChar(c);
      e != "" && e[0] != '"' && e[0] as int >= 0x20
      && (if e[0] == '\\' then ParseEscape(e[1..] + rest) == Some(Parsed(c, rest)) else e == [c])
  {
    var e := EscapeChar(c);
    if e[0] == '\\' && |e| == 2 {
      assert (e[1..] + rest)[1..] == rest;
    } else if e[0] == '\\' {
      ParseEscapedControl(c as int, rest);
      assert e[1..] == "u00" + HexByte(c as int);
    }
  }

  /** Two characters where JSON has a short escape, six in lower-case hexadecimal for other controls, else the character. */
  lemma EscapeForm(c: char)
    ensures |EscapeChar(c)| == if c in "\"\\\U{8}\t\n\U{C}\r" then 2 else if c < ' ' then 6 else 1
    ensures |EscapeChar(c)| == 6 ==>
      EscapeChar(c)[..4] == "\\u00" && forall d :: d in EscapeChar(c)[4..] ==> d in "0123456789abcdef"
  {
    if c < ' ' {
      DigitCharExact(c as int / 16);
      DigitCharExact(c as int % 16);
      assert ("\\u00" + HexByte(c as int))[4..] == HexByte(c as int);
    }
  }

  lemma {:induction false} ParseEscapedText(s: string, rest: string)
    ensures ParseChars(EscapeText(s) + "\"" + rest) == Some(Parsed(s, rest))
  {
    hide EscapeChar, ParseEscape;
    if s == "" {
      assert EscapeText(s) + "\"" + rest == "\"" + rest;
    } else {
      var e, tail := EscapeChar(s[0]), EscapeText(s[1..]) + "\"" + rest;
      ParseEscapedText(s[1..], rest);
      ParseEscapedChar(s[0], tail);
      assert EscapeText(s) + "\"" + rest == e + tail;
      assert (e + tail)[1..] == e[1..] + tail;
      assert [s[0]] + s[1..] == s;
      assert e == [s[0]] ==> e[1..] + tail == tail;
    }
  }

  // ---------------------------------------------------------------- numbers

  predicate IsDigit(c: char) { '0' <= c <= '9' }

  predicate IsNumberChar(c: char) { IsDigit(c) || c in "+-.eE" }

  /** The exponent part of a number, possibly absent. */
  predicate IsExponent(s: string) {
    s == "" || (s[0] in "eE" &&
      var t := if |s| > 1 && s[1] in "+-" then s[2..] else s[1..];
      t != "" && Run(t, IsDigit) == |t|)
  }

  /** Fraction and exponent of a number, both optional. */
  predicate IsFraction(s: string) {
    if s != "" && s[0] == '.'
    then var n := Run(s[1..], IsDigit); n > 0 && IsExponent(s[1 + n..])
    else IsExponent(s)
  }

  /** The number grammar of RFC 8259 section 6. */
  predicate IsNumber(s: string) {
    var t := if s != "" && s[0] == '-' then s[1..] else s;
    var n := Run(t, IsDigit);
    n > 0 && (t[0] == '0' ==> n == 1) && IsFraction(t[n..])
  }

  /** The integer a number stands for; a fraction, an exponent and `-0` make it a float instead. */
  function IntegerOf(lexeme: string): (r: Option<int>) {
    if lexeme != "" && lexeme[0] == '-' then
      var m := ParseDecimal(lexeme[1..]);
      if m.None? || m.value == 0 then None else var k: int := m.value; Some(-k)
    else
      var m := ParseDecimal(lexeme);
      if m.None? then None else Some(m.value)
  }

  lemma DecimalDigits(n: nat)
    ensures var t := NumText(n, Decimal);
      && t != "" && (forall i :: 0 <= i < |t| ==> IsDigit(t[i])) && (t[0] == '0' ==> |t| == 1)
      && Run(t, IsDigit) == |t| && t[|t|..] == "" && t[0] != '-'
  {
    NumRoundTrip(n, Decimal);
    var t := NumText(n, Decimal);
    NumTextCase(n, Decimal);
    assert t + "" == t;
    RunConcat(t, "", IsDigit);
  }

  lemma {:induction false} NumTextCase(n: nat, b: Radix)
    ensures forall c :: c in NumText(n, b) ==> IsDigit(c) || (b == Hex && 'a' <= c <= 'f')
    decreases n
  {
    if n >= b.Base() {
      NumTextCase(b.Div(n), b);
    }
  }

  lemma IntegerRoundTrip(n: int)
    ensures IntegerOf(IntText(n)) == Some(n)
    ensures IsNumber(IntText(n)) && forall c :: c in IntText(n) ==> IsNumberChar(c)
  {
    var m: nat := if n < 0 then -n else n;
    var t := NumText(m, Decimal);
    DecimalDigits(m);
    ParseDecimalText(m);
    assert ("-" + t)[1..] == t;
  }

  // ---------------------------------------------------------------- writing

  /** The break the pretty writer puts before an entry: a line feed and two spaces for each level. */
  function Break(pretty: bool, depth: nat): string {
    if pretty then "\n" + Spaces(2 * depth) else ""
  }

  function Write(v: Json, pretty: bool, depth: nat): string
    decreases v, 1
  {
    match v
    case Null => "null"
    case Bool(b) => if b then "true" else "false"
    case Num(lexeme) => lexeme
    case Str(text) => QuoteText(text)
    case Arr(items) =>
      if items == [] then "[]"
      else "[" + Break(pretty, depth + 1) + WriteItems(items, pretty, depth + 1) + Break(pretty, depth) + "]"
    case Obj(fields) =>
      if fields == [] then "{}"
      else "{" + Break(pretty, depth + 1) + WriteFields(fields, pretty, depth + 1) + Break(pretty, depth) + "}"
  }

  function WriteItems(items: seq<Json>, pretty: bool, depth: nat): string
    decreases items, 0
  {
    if items == [] then ""
    else if |items| == 1 then Write(items[0], pretty, depth)
    else Write(items[0], pretty, depth) + "," + Break(pretty, depth) + WriteItems(items[1..], pretty, depth)
  }

  function WriteFields(fields: seq<Field>, pretty: bool, depth: nat): string
    decreases fields, 0
  {
    if fields == [] then ""
    else if |fields| == 1 then WriteField(fields[0], pretty, depth)
    else WriteField(fields[0], pretty, depth) + "," + Break(pretty, depth) + WriteFields(fields[1..], pretty, depth)
  }

  function WriteField(f: Field, pretty: bool, depth: nat): string
    decreases f, 0
  {
    QuoteText(f.key) + (if pretty then ": " else ":") + Write(f.value, pretty, depth)
  }

  function Compact(v: Json): string { Write(v, false, 0) }

  function Pretty(v: Json): string { Write(v, true, 0) }

  // ---------------------------------------------------------------- reading

  /** Values without parts: strings, `null`, booleans and numbers. */
  function ParseAtom(s: string): (r: Option<Parsed<Json>>)
    requires s != ""
    ensures r.Some? ==> |r.value.rest| < |s|
  {
    if s[0] == '"' then
      var t := ParseChars(s[1..]);
      if t.None? then None else Some(Parsed(Str(t.value.value), t.value.rest))
    else if StartsWith(s, "null") then Some(Parsed(Null, s[4..]))
    else if StartsWith(s, "true") then Some(Parsed(Bool(true), s[4..]))
    else if StartsWith(s, "false") then Some(Parsed(Bool(false), s[5..]))
    else
      var n := Run(s, IsNumberChar);
      if n > 0 && IsNumber(s[..n]) then Some(Parsed(Num(s[..n]), s[n..])) else None
  }

  function ParseValue(s: string): (r: Option<Parsed<Json>>)
    ensures r.Some? ==> |r.value.rest| < |s|
    decreases |s|, 0
  {
    if s == "" then None
    else if s[0] == '[' then
      var t := SkipBlanks(s[1..]);
      if t != "" && t[0] == ']' then Some(Parsed(Arr([]), t[1..])) else
        var items := ParseItems(t);
        if items.None? then None else Some(Parsed(Arr(items.value.value), items.value.rest))
    else if s[0] == '{' then
      var t := SkipBlanks(s[1..]);
      if t != "" && t[0] == '}' then Some(Parsed(Obj([]), t[1..])) else
        var fields := ParseFields(t);
        if fields.None? then None else Some(Parsed(Obj(fields.value.value), fields.value.rest))
    else ParseAtom(s)
  }

  /** The entries of an array, from the first entry to after the closing bracket. */
  function ParseItems(s: string): (r: Option<Parsed<seq<Json>>>)
    ensures r.Some? ==> |r.value.rest| < |s|
    decreases |s|, 1
  {
    var v := ParseValue(s);
    if v.None? then None else
      var t := SkipBlanks(v.value.rest);
      if t == "" then None
      else if t[0] == ']' then Some(Parsed([v.value.value], t[1..]))
      else if t[0] == ',' then
        var vs := ParseItems(SkipBlanks(t[1..]));
        if vs.None? then None else Some(Parsed([v.value.value] + vs.value.value, vs.value.rest))
      else None
  }

  function ParseField(s: string): (r: Option<Parsed<Field>>)
    ensures r.Some? ==> |r.value.rest| < |s|
    decreases |s|, 1
  {
    if s == "" || s[0] != '"' then None else
      var key := ParseChars(s[1..]);
      if key.None? then None else
        var t := SkipBlanks(key.value.rest);
        if t == "" || t[0] != ':' then None else
          var v := ParseValue(SkipBlanks(t[1..]));
          if v.None? then None else Some(Parsed(Field(key.value.value, v.value.value), v.value.rest))
  }

  /** The members of an object, from the first key to after the closing brace. */
  function ParseFields(s: string): (r: Option<Parsed<seq<Field>>>)
    ensures r.Some? ==> |r.value.rest| < |s|
    decreases |s|, 2
  {
    var f := ParseField(s);
    if f.None? then None else
      var t := SkipBlanks(f.value.rest);
      if t == "" then None
      else if t[0] == '}' then Some(Parsed([f.value.value], t[1..]))
      else if t[0] == ',' then
        var fs := ParseFields(SkipBlanks(t[1..]));
        if fs.None? then None else Some(Parsed([f.value.value] + fs.value.value, fs.value.rest))
      else None
  }

  /** `serde_json::from_slice`: one value, with nothing but blanks around it. */
  function ParseDocument(s: string): Option<Json> {
    match ParseValue(SkipBlanks(s))
    case Some(Parsed(v, rest)) => if SkipBlanks(rest) == "" then Some(v) else None
    case None => None
  }

  // ---------------------------------------------------------------- reading undoes writing

  predicate Reads(s: string, v: Json, rest: string) { ParseValue(s) == Some(Parsed(v, rest)) }

  predicate ReadsItems(s: string, vs: seq<Json>, rest: string) { ParseItems(s) == Some(Parsed(vs, rest)) }

  predicate ReadsField(s: string, f: Field, rest: string) { ParseField(s) == Some(Parsed(f, rest)) }

  predicate ReadsFields(s: string, fs: seq<Field>, rest: string) { ParseFields(s) == Some(Parsed(fs, rest)) }

  /** Every number in the value is written as JSON writes numbers. */
  predicate WellFormed(v: Json)
    decreases v, 1
  {
    match v
    case Num(lexeme) => IsNumber(lexeme) && forall c :: c in lexeme ==> IsNumberChar(c)
    case Arr(items) => forall i :: 0 <= i < |items| ==> WellFormed(items[i])
    case Obj(fields) => forall i :: 0 <= i < |fields| ==> WellFormed(fields[i].value)
    case _ => true
  }

  /** Text that can follow a value without becoming part of it. */
  predicate Ends(rest: string) {
    rest != "" ==> !IsNumberChar(rest[0])
  }

  lemma SkipBreak(pretty: bool, depth: nat, rest: string)
    requires rest != "" ==> !IsBlank(rest[0])
    ensures SkipBlanks(Break(pretty, depth) + rest) == rest
    ensures rest != "" && Ends(rest) ==> Ends(Break(pretty, depth) + rest)
  {
    RunConcat(Break(pretty, depth), rest, IsBlank);
  }

  /** A written value starts with a character that no blank, bracket or comma can be mistaken for. */
  lemma WriteStart(v: Json, pretty: bool, depth: nat)
    requires WellFormed(v)
    ensures var t := Write(v, pretty, depth); t != "" && !IsBlank(t[0]) && t[0] != ']' && t[0] != '}'
  {
    if v.Num? {
      assert v.lexeme[0] in v.lexeme;
    }
  }

  lemma ReadAtom(s: string)
    requires s != "" && s[0] != '[' && s[0] != '{'
    ensures ParseValue(s) == ParseAtom(s)
  {
  }

  lemma ParseNumber(lexeme: string, rest: string)
    requires lexeme != "" && IsNumber(lexeme) && Ends(rest)
    requires forall i :: 0 <= i < |lexeme| ==> IsNumberChar(lexeme[i])
    ensures ParseAtom(lexeme + rest) == Some(Parsed(Num(lexeme), rest))
  {
    RunConcat(lexeme, rest, IsNumberChar);
    var s := lexeme + rest;
    assert s[0] == lexeme[0];
    StartChar(s, "null");
    StartChar(s, "true");
    StartChar(s, "false");
  }

  lemma StartChar(s: string, lit: string)
    requires lit != ""
    ensures StartsWith(s, lit) ==> s[0] == lit[0]
  {
    if StartsWith(s, lit) {
      assert s[..|lit|][0] == s[0];
    }
  }

  lemma ParseQuoted(text: string, rest: string)
    ensures var s := QuoteText(text) + rest; s != "" && s[0] == '"' && ParseChars(s[1..]) == Some(Parsed(text, rest))
  {
    hide ParseChars, EscapeText;
    ParseEscapedText(text, rest);
    assert (QuoteText(text) + rest)[1..] == EscapeText(text) + "\"" + rest;
  }

  /** One step of the reader at each compound, stated on where the blanks end. */
  lemma ReadArray(s: string, body: string, items: seq<Json>, rest: string)
    requires s != "" && s[0] == '[' && SkipBlanks(s[1..]) == body
    requires body != "" && body[0] != ']'
    requires ReadsItems(body, items, rest)
    ensures Reads(s, Arr(items), rest)
  {
  }

  lemma ReadObject(s: string, body: string, fields: seq<Field>, rest: string)
    requires s != "" && s[0] == '{' && SkipBlanks(s[1..]) == body
    requires body != "" && body[0] != '}'
    requires ReadsFields(body, fields, rest)
    ensures Reads(s, Obj(fields), rest)
  {
  }

  lemma ReadLastItem(s: string, v: Json, rest: string, tail: string)
    requires Reads(s, v, tail)
    requires SkipBlanks(tail) == "]" + rest
    ensures ReadsItems(s, [v], rest)
  {
    assert ("]" + rest)[1..] == rest;
  }

  lemma ReadMoreItems(s: string, v: Json, tail: string, next: string, vs: seq<Json>, rest: string)
    requires Reads(s, v, tail)
    requires tail != "" && tail[0] == ',' && SkipBlanks(tail) == tail && SkipBlanks(tail[1..]) == next
    requires ReadsItems(next, vs, rest)
    ensures ReadsItems(s, [v] + vs, rest)
  {
  }

  lemma ReadField(s: string, key: string, colon: string, body: string, v: Json, rest: string)
    requires s != "" && s[0] == '"' && ParseChars(s[1..]) == Some(Parsed(key, colon))
    requires colon != "" && colon[0] == ':' && SkipBlanks(colon) == colon && SkipBlanks(colon[1..]) == body
    requires Reads(body, v, rest)
    ensures ReadsField(s, Field(key, v), rest)
  {
  }

  lemma ReadLastField(s: string, f: Field, rest: string, tail: string)
    requires ReadsField(s, f, tail)
    requires SkipBlanks(tail) == "}" + rest
    ensures ReadsFields(s, [f], rest)
  {
    assert ("}" + rest)[1..] == rest;
  }

  lemma ReadMoreFields(s: string, f: Field, tail: string, next: string, fs: seq<Field>, rest: string)
    requires ReadsField(s, f, tail)
    requires tail != "" && tail[0] == ',' && SkipBlanks(tail) == tail && SkipBlanks(tail[1..]) == next
    requires ReadsFields(next, fs, rest)
    ensures ReadsFields(s, [f] + fs, rest)
  {
  }

  /** What follows an opening bracket or a comma: a break, then the next entry. */
  lemma SkipToEntry(c: char, pretty: bool, depth: nat, body: string)
    requires body != "" && !IsBlank(body[0])
    ensures var s := [c] + Break(pretty, depth) + body;
      s[0] == c && SkipBlanks(s[1..]) == body && (c == ',' ==> SkipBlanks(s) == s && Ends(s))
  {
    hide Break, Run, SkipBlanks, IsBlank, IsNumberChar, Spaces;
    Behind(c, Break(pretty, depth), body);
    SkipBreak(pretty, depth, body);
    CommaEnds();
    if c == ',' {
      SkipNone([c] + Break(pretty, depth) + body);
    }
  }

  lemma Behind(c: char, b: string, body: string)
    ensures ([c] + b + body)[0] == c && ([c] + b + body)[1..] == b + body
  {
  }

  lemma CommaEnds()
    ensures !IsNumberChar(',') && !IsBlank(',')
  {
  }

  /** What follows the last entry: a break, then the closing bracket. */
  lemma SkipToClose(c: char, pretty: bool, depth: nat, rest: string)
    requires c == ']' || c == '}'
    ensures var s := Break(pretty, depth) + ([c] + rest);
      SkipBlanks(s) == [c] + rest && Ends(s)
  {
    SkipBreak(pretty, depth, [c] + rest);
  }

  lemma ReadEmpty(rest: string)
    ensures Reads("[]" + rest, Arr([]), rest)
    ensures Reads("{}" + rest, Obj([]), rest)
  {
    assert ("[]" + rest)[1..] == "]" + rest && ("{}" + rest)[1..] == "}" + rest;
    SkipNone("]" + rest);
    SkipNone("}" + rest);
    assert ("]" + rest)[1..] == rest && ("}" + rest)[1..] == rest;
  }

  lemma ArrayText(items: seq<Json>, pretty: bool, depth: nat, rest: string)
    ensures Write(Arr(items), pretty, depth) + rest
      == if items == [] then "[]" + rest else "[" + Break(pretty, depth + 1) + ItemsTail(items, pretty, depth + 1, depth, rest)
  {
    hide Break, WriteItems;
    Assoc("[", Break(pretty, depth + 1), WriteItems(items, pretty, depth + 1), Break(pretty, depth), "]", rest);
  }

  lemma ObjectText(fields: seq<Field>, pretty: bool, depth: nat, rest: string)
    ensures Write(Obj(fields), pretty, depth) + rest
      == if fields == [] then "{}" + rest else "{" + Break(pretty, depth + 1) + FieldsTail(fields, pretty, depth + 1, depth, rest)
  {
    hide Break, WriteFields;
    Assoc("{", Break(pretty, depth + 1), WriteFields(fields, pretty, depth + 1), Break(pretty, depth), "}", rest);
  }

  /** The reader gives back what the compact or the pretty writer wrote. */
  lemma {:induction false} ParseWritten(v: Json, pretty: bool, depth: nat, rest: string)
    requires WellFormed(v) && Ends(rest)
    ensures Reads(Write(v, pretty, depth) + rest, v, rest)
    decreases v, 1
  {
    hide Write, WriteItems, WriteFields, Break, ItemsTail, FieldsTail, Reads, ReadsItems, ReadsFields, Ends, IsBlank;
    hide SkipBlanks;
    match v
    case Arr(items) =>
      ArrayText(items, pretty, depth, rest);
      if items == [] {
        ReadEmpty(rest);
      } else {
        var body := ItemsTail(items, pretty, depth + 1, depth, rest);
        ItemsStart(items, pretty, depth + 1, depth, rest);
        SkipToEntry('[', pretty, depth + 1, body);
        ParseWrittenItems(items, pretty, depth + 1, depth, rest);
        ReadArray("[" + Break(pretty, depth + 1) + body, body, items, rest);
      }
    case Obj(fields) =>
      ObjectText(fields, pretty, depth, rest);
      if fields == [] {
        ReadEmpty(rest);
      } else {
        var body := FieldsTail(fields, pretty, depth + 1, depth, rest);
        QuoteIsNoBlank();
        FieldsStart(fields, pretty, depth + 1, depth, rest);
        SkipToEntry('{', pretty, depth + 1, body);
        ParseWrittenFields(fields, pretty, depth + 1, depth, rest);
        ReadObject("{" + Break(pretty, depth + 1) + body, body, fields, rest);
      }
    case _ =>
      ParseWrittenAtom(v, pretty, depth, rest);
  }

  lemma Assoc(a: string, b: string, c: string, d: string, e: string, f: string)
    ensures a + b + c + d + e + f == a + b + (c + d + e + f)
  {
  }

  lemma AssocLast(a: string, b: string, c: string, d: string)
    ensures a + b + c + d == a + (b + (c + d))
  {
  }

  lemma AssocMore(a: string, b: string, c: string, d: string, e: string, f: string, g: string)
    ensures a + b + c + d + e + f + g == a + (b + c + (d + e + f + g))
  {
  }

  lemma ItemsStart(items: seq<Json>, pretty: bool, depth: nat, outer: nat, rest: string)
    requires items != [] && WellFormed(items[0])
    ensures var t := ItemsTail(items, pretty, depth, outer, rest);
      t != "" && !IsBlank(t[0]) && t[0] != ']'
  {
    WriteStart(items[0], pretty, depth);
  }

  lemma FieldsStart(fields: seq<Field>, pretty: bool, depth: nat, outer: nat, rest: string)
    requires fields != []
    ensures var t := FieldsTail(fields, pretty, depth, outer, rest);
      t != "" && t[0] == '"'
  {
    assert WriteField(fields[0], pretty, depth)[0] == '"';
  }

  lemma ParseWrittenAtom(v: Json, pretty: bool, depth: nat, rest: string)
    requires WellFormed(v) && Ends(rest) && !v.Arr? && !v.Obj?
    ensures Reads(Write(v, pretty, depth) + rest, v, rest)
  {
    WriteStart(v, pretty, depth);
    var s := Write(v, pretty, depth) + rest;
    match v
    case Null =>
      EatConcat("null", rest);
      ReadAtom(s);
    case Bool(b) =>
      EatConcat(if b then "true" else "false", rest);
      ReadAtom(s);
    case Num(lexeme) =>
      assert lexeme[0] in lexeme;
      ParseNumber(lexeme, rest);
      ReadAtom(s);
    case Str(text) =>
      ParseQuoted(text, rest);
      ReadAtom(s);
  }

  /** Written entries up to and after their closing bracket. */
  function ItemsTail(items: seq<Json>, pretty: bool, depth: nat, outer: nat, rest: string): string {
    WriteItems(items, pretty, depth) + Break(pretty, outer) + "]" + rest
  }

  function FieldsTail(fields: seq<Field>, pretty: bool, depth: nat, outer: nat, rest: string): string {
    WriteFields(fields, pretty, depth) + Break(pretty, outer) + "}" + rest
  }

  lemma ItemsTailParts(items: seq<Json>, pretty: bool, depth: nat, outer: nat, rest: string)
    requires items != []
    ensures ItemsTail(items, pretty, depth, outer, rest) == Write(items[0], pretty, depth) +
      if |items| == 1 then Break(pretty, outer) + ("]" + rest)
      else "," + Break(pretty, depth) + ItemsTail(items[1..], pretty, depth, outer, rest)
  {
    var head := Write(items[0], pretty, depth);
    if |items| == 1 {
      AssocLast(head, Break(pretty, outer), "]", rest);
    } else {
      AssocMore(head, ",", Break(pretty, depth), WriteItems(items[1..], pretty, depth), Break(pretty, outer), "]", rest);
    }
  }

  lemma FieldsTailParts(fields: seq<Field>, pretty: bool, depth: nat, outer: nat, rest: string)
    requires fields != []
    ensures FieldsTail(fields, pretty, depth, outer, rest) == WriteField(fields[0], pretty, depth) +
      if |fields| == 1 then Break(pretty, outer) + ("}" + rest)
      else "," + Break(pretty, depth) + FieldsTail(fields[1..], pretty, depth, outer, rest)
  {
    var head := WriteField(fields[0], pretty, depth);
    if |fields| == 1 {
      AssocLast(head, Break(pretty, outer), "}", rest);
    } else {
      AssocMore(head, ",", Break(pretty, depth), WriteFields(fields[1..], pretty, depth), Break(pretty, outer), "}", rest);
    }
  }

  lemma {:induction false} ParseWrittenItems(items: seq<Json>, pretty: bool, depth: nat, outer: nat, rest: string)
    requires items != [] && forall i :: 0 <= i < |items| ==> WellFormed(items[i])
    ensures ReadsItems(ItemsTail(items, pretty, depth, outer, rest), items, rest)
    decreases items, 0
  {
    hide Write, WriteItems, Break, ItemsTail, Reads, ReadsItems, Ends, IsBlank;
    ItemsTailParts(items, pretty, depth, outer, rest);
    if |items| == 1 {
      ParseWritten(items[0], pretty, depth, Break(pretty, outer) + ("]" + rest)) by {
        SkipToClose(']', pretty, outer, rest);
      }
      LastItem(Write(items[0], pretty, depth), items[0], pretty, outer, rest);
      assert [items[0]] == items;
    } else {
      var next := ItemsTail(items[1..], pretty, depth, outer, rest);
      ItemsStart(items[1..], pretty, depth, outer, rest);
      ParseWritten(items[0], pretty, depth, "," + Break(pretty, depth) + next) by {
        SkipToEntry(',', pretty, depth, next);
      }
      ParseWrittenItems(items[1..], pretty, depth, outer, rest);
      MoreItems(Write(items[0], pretty, depth), items[0], pretty, depth, next, items[1..], rest);
      assert [items[0]] + items[1..] == items;
    }
  }

  lemma LastItem(head: string, v: Json, pretty: bool, outer: nat, rest: string)
    requires Reads(head + (Break(pretty, outer) + ("]" + rest)), v, Break(pretty, outer) + ("]" + rest))
    ensures ReadsItems(head + (Break(pretty, outer) + ("]" + rest)), [v], rest)
  {
    var tail := Break(pretty, outer) + ("]" + rest);
    SkipToClose(']', pretty, outer, rest);
    ReadLastItem(head + tail, v, rest, tail);
  }

  lemma MoreItems(head: string, v: Json, pretty: bool, depth: nat, next: string, vs: seq<Json>, rest: string)
    requires next != "" && !IsBlank(next[0])
    requires Reads(head + ("," + Break(pretty, depth) + next), v, "," + Break(pretty, depth) + next)
    requires ReadsItems(next, vs, rest)
    ensures ReadsItems(head + ("," + Break(pretty, depth) + next), [v] + vs, rest)
  {
    var tail := "," + Break(pretty, depth) + next;
    SkipToEntry(',', pretty, depth, next);
    ReadMoreItems(head + tail, v, tail, next, vs, rest);
  }

  lemma {:induction false} ParseWrittenField(f: Field, pretty: bool, depth: nat, rest: string)
    requires WellFormed(f.value) && Ends(rest)
    ensures ReadsField(WriteField(f, pretty, depth) + rest, f, rest)
    decreases f, 0
  {
    var v := Write(f.value, pretty, depth) + rest;
    WriteStart(f.value, pretty, depth);
    ParseWritten(f.value, pretty, depth, rest);
    SkipColon(pretty, v);
    KeyAndValue(f.key, (if pretty then ": " else ":") + v, v, f.value, rest);
    AssocField(QuoteText(f.key), if pretty then ": " else ":", Write(f.value, pretty, depth), rest);
  }

  lemma AssocField(a: string, b: string, c: string, d: string)
    ensures a + b + c + d == a + (b + (c + d))
  {
  }

  lemma KeyAndValue(key: string, colon: string, v: string, value: Json, rest: string)
    requires colon != "" && colon[0] == ':' && SkipBlanks(colon) == colon && SkipBlanks(colon[1..]) == v
    requires Reads(v, value, rest)
    ensures ReadsField(QuoteText(key) + colon, Field(key, value), rest)
  {
    ParseQuoted(key, colon);
    ReadField(QuoteText(key) + colon, key, colon, v, value, rest);
  }

  lemma SkipColon(pretty: bool, v: string)
    requires v != "" && !IsBlank(v[0])
    ensures var colon := (if pretty then ": " else ":") + v;
      colon[0] == ':' && SkipBlanks(colon) == colon && SkipBlanks(colon[1..]) == v
  {
    hide Run, SkipBlanks, IsBlank;
    var colon := (if pretty then ": " else ":") + v;
    assert colon[1..] == (if pretty then " " else "") + v;
    ColonAndSpace();
    SkipConcat(if pretty then " " else "", v);
    SkipNone(v);
    SkipNone(colon);
  }

  lemma ColonAndSpace()
    ensures !IsBlank(':') && IsBlank(' ')
  {
  }

  lemma {:induction false} ParseWrittenFields(fields: seq<Field>, pretty: bool, depth: nat, outer: nat, rest: string)
    requires fields != [] && forall i :: 0 <= i < |fields| ==> WellFormed(fields[i].value)
    ensures ReadsFields(FieldsTail(fields, pretty, depth, outer, rest), fields, rest)
    decreases fields, 0
  {
    hide Write, WriteField, WriteFields, Break, FieldsTail, ReadsField, ReadsFields, Ends, IsBlank;
    QuoteIsNoBlank();
    FieldsTailParts(fields, pretty, depth, outer, rest);
    if |fields| == 1 {
      ParseWrittenField(fields[0], pretty, depth, Break(pretty, outer) + ("}" + rest)) by {
        SkipToClose('}', pretty, outer, rest);
      }
      LastField(WriteField(fields[0], pretty, depth), fields[0], pretty, outer, rest);
      assert [fields[0]] == fields;
    } else {
      var next := FieldsTail(fields[1..], pretty, depth, outer, rest);
      FieldsStart(fields[1..], pretty, depth, outer, rest);
      ParseWrittenField(fields[0], pretty, depth, "," + Break(pretty, depth) + next) by {
        SkipToEntry(',', pretty, depth, next);
      }
      ParseWrittenFields(fields[1..], pretty, depth, outer, rest);
      MoreFields(WriteField(fields[0], pretty, depth), fields[0], pretty, depth, next, fields[1..], rest);
      assert [fields[0]] + fields[1..] == fields;
    }
  }

  lemma QuoteIsNoBlank()
    ensures !IsBlank('"')
  {
  }

  lemma LastField(head: string, f: Field, pretty: bool, outer: nat, rest: string)
    requires ReadsField(head + (Break(pretty, outer) + ("}" + rest)), f, Break(pretty, outer) + ("}" + rest))
    ensures ReadsFields(head + (Break(pretty, outer) + ("}" + rest)), [f], rest)
  {
    var tail := Break(pretty, outer) + ("}" + rest);
    SkipToClose('}', pretty, outer, rest);
    ReadLastField(head + tail, f, rest, tail);
  }

  lemma MoreFields(head: string, f: Field, pretty: bool, depth: nat, next: string, fs: seq<Field>, rest: string)
    requires next != "" && !IsBlank(next[0])
    requires ReadsField(head + ("," + Break(pretty, depth) + next), f, "," + Break(pretty, depth) + next)
    requires ReadsFields(next, fs, rest)
    ensures ReadsFields(head + ("," + Break(pretty, depth) + next), [f] + fs, rest)
  {
    var tail := "," + Break(pretty, depth) + next;
    SkipToEntry(',', pretty, depth, next);
    ReadMoreFields(head + tail, f, tail, next, fs, rest);
  }

  /** Whole documents: compact and pretty text both read back as the value written, with blanks before and behind it, and are
      refused with anything else behind it. */
  lemma DocumentRoundTrip(v: Json, pretty: bool, front: string, back: string)
    requires WellFormed(v) && Ends(back) && forall c :: c in front ==> c in " \t\n\r"
    ensures ParseDocument(front + (Write(v, pretty, 0) + back))
      == if forall c :: c in back ==> c in " \t\n\r" then Some(v) else None
  {
    hide ParseDocument, WellFormed, Ends, Write, Reads, SkipBlanks;
    var text := Write(v, pretty, 0) + back;
    ParseWritten(v, pretty, 0, back);
    TextStarts(v, pretty, back);
    BlanksBefore(front, text);
    BlanksOnly(back);
    ReadsDocument(front + text, text, v, back);
  }

  lemma TextStarts(v: Json, pretty: bool, back: string)
    requires WellFormed(v)
    ensures SkipBlanks(Write(v, pretty, 0) + back) == Write(v, pretty, 0) + back
  {
    hide Write, WellFormed, SkipBlanks, IsBlank;
    WriteStart(v, pretty, 0);
    SkipNone(Write(v, pretty, 0) + back);
  }

  lemma BlanksBefore(front: string, s: string)
    requires forall c :: c in front ==> c in " \t\n\r"
    ensures SkipBlanks(front + s) == SkipBlanks(s)
  {
    hide SkipBlanks;
    assert forall i :: 0 <= i < |front| ==> front[i] in front;
    SkipConcat(front, s);
  }

  lemma BlanksOnly(s: string)
    ensures SkipBlanks(s) == "" <==> forall c :: c in s ==> c in " \t\n\r"
  {
    assert forall i :: 0 <= i < |s| ==> s[i] in s;
  }

  lemma ReadsDocument(s: string, text: string, v: Json, rest: string)
    requires SkipBlanks(s) == text && Reads(text, v, rest)
    ensures ParseDocument(s) == if SkipBlanks(rest) == "" then Some(v) else None
  {
    hide SkipBlanks;
  }
}
