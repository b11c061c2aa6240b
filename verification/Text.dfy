/** The string operations of the Rust standard library that the program relies on. */
module Text {
  import opened Wrappers

  // ---------------------------------------------------------------- searching

  predicate OccursAt(s: string, pat: string, i: int) {
    0 <= i && i + |pat| <= |s| && s[i..i + |pat|] == pat
  }

  /** An occurrence shows the characters of the pattern. */
  lemma OccursChar(s: string, pat: string, i: nat, k: nat)
    requires k < |pat|
    ensures OccursAt(s, pat, i) ==> s[i + k] == pat[k]
  {
    if OccursAt(s, pat, i) {
      assert s[i..i + |pat|][k] == pat[k];
    }
  }

  function FindFrom(s: string, pat: string, i: nat): (r: Option<nat>)
    requires i <= |s|
    ensures r.Some? ==> i <= r.value && OccursAt(s, pat, r.value)
    ensures forall j :: i <= j && (r.Some? ==> j < r.value) ==> !OccursAt(s, pat, j)
    decreases |s| - i
  {
    if OccursAt(s, pat, i) then Some(i)
    else if i == |s| then None
    else FindFrom(s, pat, i + 1)
  }

  /** `str::find`: the first place where `pat` stands in `s`. */
  function Find(s: string, pat: string): (r: Option<nat>)
    ensures r.Some? ==> OccursAt(s, pat, r.value)
    ensures forall j :: 0 <= j && (r.Some? ==> j < r.value) ==> !OccursAt(s, pat, j)
  {
    FindFrom(s, pat, 0)
  }

  lemma FindIs(s: string, pat: string, i: nat)
    requires OccursAt(s, pat, i) && forall j :: 0 <= j < i ==> !OccursAt(s, pat, j)
    ensures Find(s, pat) == Some(i)
  {
  }

  predicate StartsWith(s: string, pat: string) {
    |pat| <= |s| && s[..|pat|] == pat
  }

  predicate EndsWith(s: string, pat: string) {
    |pat| <= |s| && s[|s| - |pat|..] == pat
  }

  /** `s` without the literal at its front. */
  function Eat(s: string, lit: string): (r: Option<string>)
    ensures r.Some? <==> StartsWith(s, lit)
    ensures r.Some? ==> s == lit + r.value
  {
    if StartsWith(s, lit) then Some(s[|lit|..]) else None
  }

  lemma EatConcat(lit: string, rest: string)
    ensures Eat(lit + rest, lit) == Some(rest)
  {
    assert (lit + rest)[..|lit|] == lit;
    assert (lit + rest)[|lit|..] == rest;
  }

  // ---------------------------------------------------------------- runs of characters

  /** Length of the longest front part whose characters all satisfy `p`. */
  function Run(s: string, p: char -> bool): (n: nat)
    ensures n <= |s|
    ensures forall i :: 0 <= i < n ==> p(s[i])
    ensures n < |s| ==> !p(s[n])
  {
    if s == "" || !p(s[0]) then 0 else
      var n := Run(s[1..], p);
      assert forall i :: 1 <= i < n + 1 ==> s[i] == s[1..][i - 1];
      n + 1
  }

  /** A run ends exactly where its kind of character ends. */
  lemma RunConcat(a: string, b: string, p: char -> bool)
    requires forall i :: 0 <= i < |a| ==> p(a[i])
    requires b != "" ==> !p(b[0])
    ensures Run(a + b, p) == |a|
    ensures (a + b)[..|a|] == a && (a + b)[|a|..] == b
  {
    assert (a + b)[..|a|] == a;
    assert (a + b)[|a|..] == b;
  }

  /** Length of the part of `s` before the first `c`. */
  function Before(s: string, c: char): (n: nat)
    ensures n <= |s|
    ensures c !in s[..n]
    ensures n < |s| ==> s[n] == c
  {
    if s == "" || s[0] == c then 0 else
      var n := Before(s[1..], c);
      assert s[..n + 1] == [s[0]] + s[1..][..n];
      n + 1
  }

  lemma BeforeConcat(a: string, b: string, c: char)
    requires c !in a
    requires b != "" ==> b[0] == c
    ensures Before(a + b, c) == |a|
    ensures (a + b)[..|a|] == a && (a + b)[|a|..] == b
  {
    var n := Before(a + b, c);
    assert (a + b)[..|a|] == a;
    assert (a + b)[|a|..] == b;
    assert forall i :: 0 <= i < n ==> (a + b)[..n][i] == (a + b)[i];
  }

  // ---------------------------------------------------------------- split and join

  function Join(parts: seq<string>, sep: string): string {
    if |parts| == 0 then ""
    else if |parts| == 1 then parts[0]
    else parts[0] + sep + Join(parts[1..], sep)
  }

  lemma {:induction false} JoinLacks(parts: seq<string>, sep: string, c: char)
    requires c !in sep
    requires forall i :: 0 <= i < |parts| ==> c !in parts[i]
    ensures c !in Join(parts, sep)
  {
    if |parts| > 1 {
      JoinLacks(parts[1..], sep, c);
    }
  }

  /** `str::split` on one character: always at least one part. */
  function Split(s: string, c: char): (parts: seq<string>)
    ensures |parts| >= 1
    decreases |s|
  {
    var n := Before(s, c);
    if n == |s| then [s] else [s[..n]] + Split(s[n + 1..], c)
  }

  lemma {:induction false} SplitJoin(parts: seq<string>, c: char)
    requires |parts| >= 1
    requires forall i :: 0 <= i < |parts| ==> c !in parts[i]
    ensures Split(Join(parts, [c]), c) == parts
  {
    hide Before;
    if |parts| == 1 {
      assert parts[0] + "" == parts[0];
      BeforeConcat(parts[0], "", c);
    } else {
      var tail := Join(parts[1..], [c]);
      var s := Join(parts, [c]);
      assert s == parts[0] + ([c] + tail);
      BeforeConcat(parts[0], [c] + tail, c);
      assert s[|parts[0]| + 1..] == tail;
      SplitJoin(parts[1..], c);
    }
  }

  lemma {:induction false} JoinSplit(s: string, c: char)
    ensures Join(Split(s, c), [c]) == s
    ensures forall i :: 0 <= i < |Split(s, c)| ==> c !in Split(s, c)[i]
    decreases |s|
  {
    hide Before, Join;
    var n := Before(s, c);
    if n == |s| {
      assert s[..n] == s;
      JoinOne(s, [c]);
    } else {
      JoinSplit(s[n + 1..], c);
      var rest := Split(s[n + 1..], c);
      JoinMore(s[..n], rest, [c]);
      CutAt(s, n);
    }
  }

  lemma JoinOne(s: string, sep: string)
    ensures Join([s], sep) == s
  {
  }

  lemma JoinMore(h: string, t: seq<string>, sep: string)
    requires t != []
    ensures Join([h] + t, sep) == h + sep + Join(t, sep)
  {
    assert ([h] + t)[1..] == t;
  }

  lemma CutAt(s: string, n: nat)
    requires n < |s|
    ensures s == s[..n] + [s[n]] + s[n + 1..]
  {
  }

  // ---------------------------------------------------------------- white space

  /** The Unicode White_Space property, which `str::trim` uses. */
  predicate IsWhitespace(c: char) {
    var n := c as int;
    || 0x9 <= n <= 0xD || n == 0x20 || n == 0x85 || n == 0xA0 || n == 0x1680
    || 0x2000 <= n <= 0x200A || n == 0x2028 || n == 0x2029 || n == 0x202F || n == 0x205F || n == 0x3000
  }

  predicate Trimmed(s: string) {
    s != "" ==> !IsWhitespace(s[0]) && !IsWhitespace(s[|s| - 1])
  }

  function TrimEnd(s: string): (r: string)
    ensures |r| <= |s| && r == s[..|r|]
    ensures r != "" ==> !IsWhitespace(r[|r| - 1])
    ensures forall i :: |r| <= i < |s| ==> IsWhitespace(s[i])
  {
    if s != "" && IsWhitespace(s[|s| - 1]) then
      var r := TrimEnd(s[..|s| - 1]);
      assert forall i :: |r| <= i < |s| - 1 ==> s[i] == s[..|s| - 1][i];
      r
    else s
  }

  function TrimStart(s: string): (r: string)
    ensures |r| <= |s| && r == s[|s| - |r|..]
    ensures r != "" ==> !IsWhitespace(r[0])
    ensures forall i :: 0 <= i < |s| - |r| ==> IsWhitespace(s[i])
  {
    s[Run(s, IsWhitespace)..]
  }

  /** `str::trim`. */
  function Trim(s: string): (r: string)
    ensures Trimmed(r)
    ensures Trimmed(s) ==> r == s
  {
    var a := TrimStart(s);
    var r := TrimEnd(a);
    assert r != "" ==> r[0] == a[0];
    r
  }

  lemma WhitespaceExact(c: char)
    ensures IsWhitespace(c) <==>
      || '\t' <= c <= '\r' || c in " \U{85}\U{A0}\U{1680}" || '\U{2000}' <= c <= '\U{200A}'
      || c in "\U{2028}\U{2029}\U{202F}\U{205F}\U{3000}"
  {
  }

  /** Trimming takes white space off both ends, all of it, and nothing else. */
  lemma TrimExact(s: string) returns (front: string, back: string)
    ensures s == front + Trim(s) + back
    ensures forall c :: c in front + back ==> IsWhitespace(c)
    ensures var r := Trim(s); r != "" ==> !IsWhitespace(r[0]) && !IsWhitespace(r[|r| - 1])
  {
    hide IsWhitespace, TrimEnd, TrimStart;
    var a := TrimStart(s);
    front, back := s[..|s| - |a|], a[|Trim(s)|..];
    assert s == front + a && a == Trim(s) + back;
    AssocTrim(front, Trim(s), back);
    assert forall i :: 0 <= i < |back| ==> back[i] == a[|Trim(s)| + i];
  }

  lemma AssocTrim(a: string, b: string, c: string)
    ensures a + (b + c) == a + b + c
  {
  }

  /** `str::trim_start_matches` with a string pattern: strips the pattern as often as it stands in front. */
  function StripAll(s: string, pat: string): (r: string)
    requires pat != ""
    ensures !StartsWith(r, pat)
    ensures !StartsWith(s, pat) ==> r == s
    decreases |s|
  {
    if StartsWith(s, pat) then StripAll(s[|pat|..], pat) else s
  }

  function Repeat(pat: string, n: nat): string {
    if n == 0 then "" else pat + Repeat(pat, n - 1)
  }

  /** However often the pattern stands in front, all of it goes. */
  lemma {:induction false} StripAllExact(pat: string, n: nat, r: string)
    requires pat != "" && !StartsWith(r, pat)
    ensures StripAll(Repeat(pat, n) + r, pat) == r
  {
    if n == 0 {
      assert "" + r == r;
    } else {
      StripAllExact(pat, n - 1, r);
      assert Repeat(pat, n) + r == pat + (Repeat(pat, n - 1) + r);
    }
  }

  function AsciiLower(s: string): string {
    seq(|s|, i requires 0 <= i < |s| => if 'A' <= s[i] <= 'Z' then (s[i] as int + 32) as char else s[i])
  }

  /** The letters become those of the other alphabet, every other character stays. */
  lemma AsciiLowerExact(s: string)
    ensures |AsciiLower(s)| == |s|
    ensures forall i, k :: 0 <= i < |s| && 0 <= k < 26 && s[i] == "ABCDEFGHIJKLMNOPQRSTUVWXYZ"[k] ==>
      AsciiLower(s)[i] == "abcdefghijklmnopqrstuvwxyz"[k]
    ensures forall i :: 0 <= i < |s| && s[i] !in "ABCDEFGHIJKLMNOPQRSTUVWXYZ" ==> AsciiLower(s)[i] == s[i]
  {
    forall k | 0 <= k < 26
      ensures "ABCDEFGHIJKLMNOPQRSTUVWXYZ"[k] as int == 'A' as int + k
      ensures "abcdefghijklmnopqrstuvwxyz"[k] as int == 'a' as int + k
    {
      AlphabetAt(k);
    }
    forall i | 0 <= i < |s| && 'A' <= s[i] <= 'Z' ensures s[i] in "ABCDEFGHIJKLMNOPQRSTUVWXYZ" {
      AlphabetAt(s[i] as int - 'A' as int);
    }
  }

  lemma AlphabetAt(k: nat)
    requires k < 26
    ensures "ABCDEFGHIJKLMNOPQRSTUVWXYZ"[k] as int == 'A' as int + k
    ensures "abcdefghijklmnopqrstuvwxyz"[k] as int == 'a' as int + k
  {
  }

  // ---------------------------------------------------------------- reading

  /** What a reader has made of the front of a text, and what is left of it. */
  datatype Parsed<+T> = Parsed(value: T, rest: string)

  function Spaces(n: nat): string {
    seq(n, _ => ' ')
  }

  /** The blanks of JSON and of XML. */
  predicate IsBlank(c: char) { c in " \t\n\r" }

  function SkipBlanks(s: string): (r: string)
    ensures |r| <= |s|
    ensures r != "" ==> !IsBlank(r[0])
  {
    s[Run(s, IsBlank)..]
  }

  lemma SkipConcat(blanks: string, s: string)
    requires forall i :: 0 <= i < |blanks| ==> IsBlank(blanks[i])
    ensures SkipBlanks(blanks + s) == SkipBlanks(s)
  {
    var n := Run(s, IsBlank);
    var front := blanks + s[..n];
    assert blanks + s == front + s[n..];
    RunConcat(front, s[n..], IsBlank);
  }

  lemma SkipNone(s: string)
    requires s != "" ==> !IsBlank(s[0])
    ensures SkipBlanks(s) == s
  {
  }

  // ---------------------------------------------------------------- numbers

  datatype Radix = Decimal | Hex {
    function Base(): nat { if Decimal? then 10 else 16 }
    function Div(n: nat): nat { if Decimal? then n / 10 else n / 16 }
    function Mod(n: nat): nat { if Decimal? then n % 10 else n % 16 }
    function Times(n: nat): nat { if Decimal? then n * 10 else n * 16 }
  }

  function DigitChar(d: nat): char
    requires d < 16
  {
    if d < 10 then ('0' as int + d) as char else ('a' as int + d - 10) as char
  }

  /** Value of a digit of either case; 16 for a character that is no digit. */
  function DigitValue(c: char): nat {
    if '0' <= c <= '9' then c as int - '0' as int
    else if 'a' <= c <= 'f' then c as int - 'a' as int + 10
    else if 'A' <= c <= 'F' then c as int - 'A' as int + 10
    else 16
  }

  predicate AllDigits(s: string, b: Radix) {
    forall i :: 0 <= i < |s| ==> DigitValue(s[i]) < b.Base()
  }

  /** Lower-case digits without leading zeros, as `{}` and `{:x}` print them. */
  function NumText(n: nat, b: Radix): string
    decreases n
  {
    if n < b.Base() then [DigitChar(n)] else NumText(b.Div(n), b) + [DigitChar(b.Mod(n))]
  }

  function NumValue(s: string, b: Radix): nat {
    if s == "" then 0 else b.Times(NumValue(s[..|s| - 1], b)) + DigitValue(s[|s| - 1])
  }

  lemma NumSnoc(t: string, d: nat, b: Radix)
    requires d < 16
    ensures NumValue(t + [DigitChar(d)], b) == b.Times(NumValue(t, b)) + d
  {
    assert (t + [DigitChar(d)])[..|t|] == t;
  }

  lemma DivMod(n: nat, b: Radix)
    ensures b.Times(b.Div(n)) + b.Mod(n) == n && b.Mod(n) < b.Base() <= 16
    ensures n >= b.Base() ==> 0 < b.Div(n) < n
  {
  }

  lemma DigitsSnoc(t: string, d: nat, b: Radix)
    requires AllDigits(t, b) && d < b.Base() <= 16
    ensures AllDigits(t + [DigitChar(d)], b)
  {
  }

  /** The digits of a number are digits, carry its value, and have no leading zero. */
  lemma {:induction false} NumRoundTrip(n: nat, b: Radix)
    ensures NumText(n, b) != "" && AllDigits(NumText(n, b), b)
    ensures NumValue(NumText(n, b), b) == n
    ensures NumText(n, b)[0] == '0' ==> n == 0 && |NumText(n, b)| == 1
    decreases n
  {
    hide AllDigits, NumValue, Radix.Div, Radix.Mod, Radix.Times;
    DivMod(n, b);
    if n < b.Base() {
      SingleDigit(n, b);
    } else {
      NumRoundTrip(b.Div(n), b);
      DigitsSnoc(NumText(b.Div(n), b), b.Mod(n), b);
      NumSnoc(NumText(b.Div(n), b), b.Mod(n), b);
    }
  }

  lemma SingleDigit(n: nat, b: Radix)
    requires n < b.Base() <= 16
    ensures AllDigits([DigitChar(n)], b) && NumValue([DigitChar(n)], b) == n
    ensures DigitChar(n) == '0' ==> n == 0
  {
    NumSnoc("", n, b);
    assert "" + [DigitChar(n)] == [DigitChar(n)];
  }

  lemma NumTextShort(n: nat)
    requires n < 0x10000
    ensures |NumText(n, Hex)| <= 4
  {
    var a := n / 16;
    var c := a / 16;
    assert c / 16 < 16;
    assert |NumText(c, Hex)| <= 2;
    assert |NumText(a, Hex)| <= 3;
  }

  /** A decimal number without leading zeros. */
  function ParseDecimal(s: string): Option<nat> {
    if s != "" && AllDigits(s, Decimal) && (s[0] == '0' ==> |s| == 1) then Some(NumValue(s, Decimal)) else None
  }

  lemma ParseDecimalText(n: nat)
    ensures ParseDecimal(NumText(n, Decimal)) == Some(n)
  {
    NumRoundTrip(n, Decimal);
  }

  /** A text without leading zeros is the text of its value. */
  lemma {:induction false} NumTextOfValue(s: string)
    requires s != "" && AllDigits(s, Decimal) && (s[0] == '0' ==> |s| == 1)
    ensures NumText(NumValue(s, Decimal), Decimal) == s
  {
    hide NumText, DigitChar, DigitValue;
    var front, last := s[..|s| - 1], s[|s| - 1];
    assert s == front + [last];
    assert DigitValue(last) < 10;
    DigitBack(last);
    if front == "" {
      NumTextUnfold(DigitValue(last));
    } else {
      NumTextOfValue(front);
      NumValuePositive(front);
      NumTextUnfold(NumValue(s, Decimal));
    }
  }

  lemma DigitBack(c: char)
    requires DigitValue(c) < 10
    ensures DigitChar(DigitValue(c)) == c && (DigitValue(c) == 0 <==> c == '0')
  {
  }

  lemma NumTextUnfold(n: nat)
    ensures n < 10 ==> NumText(n, Decimal) == [DigitChar(n)]
    ensures n >= 10 ==> NumText(n, Decimal) == NumText(n / 10, Decimal) + [DigitChar(n % 10)]
  {
  }

  lemma {:induction false} NumValuePositive(s: string)
    requires s != "" && AllDigits(s, Decimal) && s[0] != '0'
    ensures NumValue(s, Decimal) > 0
  {
    hide DigitValue;
    DigitBack(s[0]);
    if |s| > 1 {
      NumValuePositive(s[..|s| - 1]);
    }
  }

  /** Exactly the printed decimal numbers are read, each as the number it is the text of. */
  lemma ParseDecimalExact(s: string, n: nat)
    ensures ParseDecimal(s) == Some(n) <==> s == NumText(n, Decimal)
  {
    ParseDecimalText(n);
    if ParseDecimal(s).Some? {
      NumTextOfValue(s);
    }
  }

  /** Printed digits are lower-case. */
  lemma {:induction false} NumTextLower(n: nat, b: Radix)
    ensures forall c :: c in NumText(n, b) ==> c in "0123456789abcdef"
    decreases n
  {
    hide DigitChar, Radix.Div, Radix.Mod;
    DivMod(n, b);
    if n < b.Base() {
      DigitCharExact(n);
    } else {
      NumTextLower(b.Div(n), b);
      DigitCharExact(b.Mod(n));
    }
  }

  lemma DigitCharExact(d: nat)
    requires d < 16
    ensures DigitChar(d) == "0123456789abcdef"[d]
  {
  }

  function IntText(n: int): string {
    if n < 0 then "-" + NumText(-n, Decimal) else NumText(n, Decimal)
  }

  // ---------------------------------------------------------------- order

  /** Lexicographic order by code point, which is the byte order of UTF-8 text. */
  predicate Less(a: string, b: string) {
    b != "" && (a == "" || a[0] < b[0] || (a[0] == b[0] && Less(a[1..], b[1..])))
  }

  /** Two strings that first differ at `i` are ordered by their characters there. */
  lemma {:induction false} LessAt(a: string, b: string, i: nat)
    requires i <= |a| && i < |b| && a[..i] == b[..i] && (i < |a| ==> a[i] < b[i])
    ensures Less(a, b)
    decreases i
  {
    if i > 0 {
      assert a[..i][0] == b[..i][0];
      assert a[1..][..i - 1] == a[..i][1..] && b[1..][..i - 1] == b[..i][1..];
      LessAt(a[1..], b[1..], i - 1);
    }
  }

  lemma {:induction false} LessTransitive(a: string, b: string, c: string)
    requires Less(a, b) && Less(b, c)
    ensures Less(a, c)
  {
    if a != "" && a[0] == b[0] == c[0] {
      LessTransitive(a[1..], b[1..], c[1..]);
    }
  }

  /** Exactly one of before, equal, after. */
  lemma {:induction false} LessTotal(a: string, b: string)
    ensures a == b || Less(a, b) || Less(b, a)
    ensures !(Less(a, b) && Less(b, a)) && !(a == b && Less(a, b))
  {
    if a != "" && b != "" {
      LessTotal(a[1..], b[1..]);
      if a[0] == b[0] && a[1..] == b[1..] {
        assert a == [a[0]] + a[1..] && b == [b[0]] + b[1..];
      }
    }
  }
}
