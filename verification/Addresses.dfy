/** IP addresses and the text that `Ipv4Addr` and `Ipv6Addr` print and read. */
module Addresses {
  import opened Wrappers
  import opened Text

  type Octet = n: nat | n < 0x100
  type Group = n: nat | n < 0x10000

  datatype V4 = V4(a: Octet, b: Octet, c: Octet, d: Octet)

  /** Eight 16-bit groups, most significant first. */
  type V6 = g: seq<Group> | |g| == 8 witness [0, 0, 0, 0, 0, 0, 0, 0]

  // ---------------------------------------------------------------- IPv4

  function V4Text(v: V4): string {
    Join([NumText(v.a, Decimal), NumText(v.b, Decimal), NumText(v.c, Decimal), NumText(v.d, Decimal)], ".")
  }

  function ParseOctet(s: string): Option<Octet> {
    match ParseDecimal(s)
    case Some(n) => if n < 0x100 then Some(n) else None
    case None => None
  }

  /** Four decimal octets without leading zeros. */
  function ParseV4(s: string): Option<V4> {
    var parts := Split(s, '.');
    if |parts| != 4 then None else
      match (ParseOctet(parts[0]), ParseOctet(parts[1]), ParseOctet(parts[2]), ParseOctet(parts[3]))
      case (Some(a), Some(b), Some(c), Some(d)) => Some(V4(a, b, c, d))
      case _ => None
  }

  lemma NumTextLacks(n: nat, b: Radix, c: char)
    requires DigitValue(c) == 16
    ensures c !in NumText(n, b)
  {
    NumRoundTrip(n, b);
  }

  lemma V4RoundTrip(v: V4)
    ensures ParseV4(V4Text(v)) == Some(v)
    ensures ':' !in V4Text(v) && '.' in V4Text(v)
  {
    var parts := [NumText(v.a, Decimal), NumText(v.b, Decimal), NumText(v.c, Decimal), NumText(v.d, Decimal)];
    forall n: nat ensures '.' !in NumText(n, Decimal) && ':' !in NumText(n, Decimal) {
      NumTextLacks(n, Decimal, '.');
      NumTextLacks(n, Decimal, ':');
    }
    SplitJoin(parts, '.');
    ParseDecimalText(v.a);
    ParseDecimalText(v.b);
    ParseDecimalText(v.c);
    ParseDecimalText(v.d);
    assert V4Text(v) == parts[0] + "." + Join(parts[1..], ".");
    assert V4Text(v)[|parts[0]|] == '.';
    JoinLacks(parts, ".", ':');
  }

  /** Exactly the printed dotted quads are read. */
  lemma V4Exact(s: string, v: V4)
    ensures ParseV4(s) == Some(v) <==> s == V4Text(v)
  {
    hide Split, Join, NumText, ParseDecimal;
    V4RoundTrip(v);
    if ParseV4(s) == Some(v) {
      var parts := Split(s, '.');
      ParseDecimalExact(parts[0], v.a);
      ParseDecimalExact(parts[1], v.b);
      ParseDecimalExact(parts[2], v.c);
      ParseDecimalExact(parts[3], v.d);
      assert parts == [parts[0], parts[1], parts[2], parts[3]];
      JoinSplit(s, '.');
    }
  }

  // ---------------------------------------------------------------- IPv6

  predicate Zeros(g: V6, start: nat, len: nat) {
    start + len <= 8 && forall i :: start <= i < start + len ==> g[i] == 0
  }

  /** Length of the run of zero groups that starts at `i`. */
  function ZeroRunAt(g: V6, i: nat): (n: nat)
    requires i <= 8
    ensures Zeros(g, i, n)
    ensures i + n < 8 ==> g[i + n] != 0
    decreases 8 - i
  {
    if i == 8 || g[i] != 0 then 0 else 1 + ZeroRunAt(g, i + 1)
  }

  /** Start of the first longest run of zero groups at or after `i` (RFC 5952 section 4.2.3). */
  function LongestZeros(g: V6, i: nat): (s: nat)
    requires i < 8
    ensures i <= s < 8
    ensures forall j :: i <= j < 8 ==> ZeroRunAt(g, j) <= ZeroRunAt(g, s)
    ensures forall j :: i <= j < s ==> ZeroRunAt(g, j) < ZeroRunAt(g, s)
    decreases 8 - i
  {
    if i == 7 then 7 else
      var s := LongestZeros(g, i + 1);
      if ZeroRunAt(g, i) >= ZeroRunAt(g, s) then i else s
  }

  /** The IPv4 address inside an IPv4-mapped IPv6 address. */
  function ToV4Mapped(g: V6): Option<V4> {
    if Zeros(g, 0, 5) && g[5] == 0xFFFF
    then Some(V4(g[6] / 256, g[6] % 256, g[7] / 256, g[7] % 256))
    else None
  }

  function GroupTexts(g: seq<Group>): seq<string> {
    seq(|g|, i requires 0 <= i < |g| => NumText(g[i], Hex))
  }

  function GroupsText(g: seq<Group>): string {
    Join(GroupTexts(g), ":")
  }

  /** `Ipv6Addr` printing: mapped addresses show the IPv4 part, the first longest run of at least two
      zero groups becomes `::`, groups are lower-case hex without leading zeros (RFC 5952 section 4). */
  function V6Text(g: V6): string {
    match ToV4Mapped(g)
    case Some(v) => "::ffff:" + V4Text(v)
    case None =>
      var s := LongestZeros(g, 0);
      var n := ZeroRunAt(g, s);
      if n > 1 then GroupsText(g[..s]) + "::" + GroupsText(g[s + n..]) else GroupsText(g)
  }

  function ParseGroup(s: string): Option<Group> {
    if 1 <= |s| <= 4 && AllDigits(s, Hex) && NumValue(s, Hex) < 0x10000 then Some(NumValue(s, Hex)) else None
  }

  function QuadGroups(v: V4): seq<Group> {
    [v.a * 256 + v.b, v.c * 256 + v.d]
  }

  /** Groups of one to four hex digits; the last part may be a dotted quad where `quad` allows it. */
  function ParseParts(parts: seq<string>, quad: bool): Option<seq<Group>> {
    if |parts| == 0 then Some([])
    else if |parts| == 1 && quad && ParseV4(parts[0]).Some? then
      var v := ParseV4(parts[0]).value;
      Some(QuadGroups(v))
    else
      match (ParseGroup(parts[0]), ParseParts(parts[1..], quad))
      case (Some(h), Some(t)) => Some([h] + t)
      case _ => None
  }

  function ParseGroups(s: string, quad: bool): Option<seq<Group>> {
    if s == "" then Some([]) else ParseParts(Split(s, ':'), quad)
  }

  /** RFC 4291 section 2.2: eight groups, or fewer around one `::` that stands for at least one zero group. */
  function ParseV6(s: string): Option<V6> {
    match Find(s, "::")
    case None =>
      (match ParseGroups(s, true)
       case Some(g) => if |g| == 8 then Some(g) else None
       case None => None)
    case Some(i) =>
      match (ParseGroups(s[..i], false), ParseGroups(s[i + 2..], true))
      case (Some(l), Some(r)) => FillGap(l, r)
      case _ => None
  }

  function FillGap(l: seq<Group>, r: seq<Group>): Option<V6> {
    if |l| + |r| <= 7 then Some(l + seq(8 - |l| - |r|, _ => 0) + r) else None
  }

  lemma FillGapExact(g: V6, s: nat, n: nat)
    requires Zeros(g, s, n) && n >= 1
    ensures FillGap(g[..s], g[s + n..]) == Some(g)
  {
    assert g[..s] + seq(8 - s - (8 - s - n), _ => 0) + g[s + n..] == g;
  }

  /** Reading around a `::` whose place is known. */
  lemma ParseAround(l: seq<Group>, right: string, r: seq<Group>)
    requires right != "" ==> right[0] != ':'
    requires ParseGroups(right, true) == Some(r)
    ensures ParseV6(GroupsText(l) + "::" + right) == FillGap(l, r)
  {
    var t := GroupsText(l);
    var s := t + "::" + right;
    FindGap(l, right);
    assert s[..|t|] == t && s[|t| + 2..] == right;
    GroupsRoundTrip(l, false);
  }

  lemma GroupTextShape(n: Group)
    ensures ParseGroup(NumText(n, Hex)) == Some(n)
    ensures ParseV4(NumText(n, Hex)).None?
    ensures ':' !in NumText(n, Hex) && NumText(n, Hex) != ""
  {
    NumRoundTrip(n, Hex);
    NumTextShort(n);
    NumTextLacks(n, Hex, ':');
    NumTextLacks(n, Hex, '.');
    var t := NumText(n, Hex);
    assert t + "" == t;
    BeforeConcat(t, "", '.');
  }

  lemma {:induction false} ParsePartsRoundTrip(g: seq<Group>, quad: bool)
    ensures ParseParts(GroupTexts(g), quad) == Some(g)
  {
    hide NumText, ParseGroup, ParseV4;
    if |g| > 0 {
      GroupTextShape(g[0]);
      assert GroupTexts(g)[0] == NumText(g[0], Hex) && GroupTexts(g)[1..] == GroupTexts(g[1..]);
      ParsePartsRoundTrip(g[1..], quad);
      assert [g[0]] + g[1..] == g;
    }
  }

  /** Text of groups: no `::` inside, no `:` at either end. */
  lemma {:induction false} GroupsTextShape(g: seq<Group>)
    ensures var t := GroupsText(g);
      && (t == "" <==> g == [])
      && (t != "" ==> t[0] != ':' && t[|t| - 1] != ':')
      && forall i :: 0 <= i < |t| - 1 ==> !(t[i] == ':' && t[i + 1] == ':')
  {
    if |g| > 0 {
      GroupTextShape(g[0]);
      var h := NumText(g[0], Hex);
      if |g| > 1 {
        GroupsTextShape(g[1..]);
        assert GroupTexts(g)[1..] == GroupTexts(g[1..]);
        assert GroupsText(g) == h + ":" + GroupsText(g[1..]);
      }
    }
  }

  lemma GroupsRoundTrip(g: seq<Group>, quad: bool)
    ensures ParseGroups(GroupsText(g), quad) == Some(g)
  {
    GroupsTextShape(g);
    if g != [] {
      forall i | 0 <= i < |g| ensures ':' !in GroupTexts(g)[i] {
        GroupTextShape(g[i]);
      }
      SplitJoin(GroupTexts(g), ':');
      ParsePartsRoundTrip(g, quad);
    }
  }

  /** The `::` between two group texts is found where it was put. */
  lemma FindGap(l: seq<Group>, rest: string)
    requires rest != "" ==> rest[0] != ':'
    ensures Find(GroupsText(l) + "::" + rest, "::") == Some(|GroupsText(l)|)
  {
    GroupsTextShape(l);
    var t := GroupsText(l);
    var s := t + "::" + rest;
    assert OccursAt(s, "::", |t|);
    forall i | 0 <= i < |t| ensures !OccursAt(s, "::", i) {
      OccursChar(s, "::", i, 0);
      OccursChar(s, "::", i, 1);
    }
  }

  lemma AllOnesGroup()
    ensures ParseGroup("ffff") == Some(0xFFFF) && ParseV4("ffff").None?
  {
    GroupTextShape(0xFFFF);
    assert NumText(0xF, Hex) == "f";
    assert NumText(0xFF, Hex) == "f" + "f" == "ff";
    assert NumText(0xFFF, Hex) == "ff" + "f" == "fff";
    assert NumText(0xFFFF, Hex) == "fff" + "f" == "ffff";
  }

  lemma QuadParts(q: string, v: V4)
    requires ParseV4(q) == Some(v)
    ensures ParseParts(["ffff", q], true) == Some([0xFFFF] + QuadGroups(v))
  {
    AllOnesGroup();
    assert ["ffff", q][1..] == [q];
    assert ParseParts([q], true) == Some(QuadGroups(v));
  }

  lemma QuadTail(v: V4)
    ensures ParseGroups("ffff:" + V4Text(v), true) == Some([0xFFFF] + QuadGroups(v))
  {
    var q := V4Text(v);
    V4RoundTrip(v);
    QuadParts(q, v);
    assert Join(["ffff", q], ":") == "ffff:" + q by {
      assert ["ffff", q][1..] == [q];
    }
    assert ':' !in "ffff";
    SplitJoin(["ffff", q], ':');
  }

  lemma MappedRoundTrip(g: V6)
    requires ToV4Mapped(g).Some?
    ensures ParseV6("::ffff:" + V4Text(ToV4Mapped(g).value)) == Some(g)
  {
    hide ToV4Mapped, V4Text, Split, Find, Join, ParseV6, ParseGroups, GroupsText, FillGap, QuadGroups, Zeros;
    var v := ToV4Mapped(g).value;
    QuadTail(v);
    MappedGroups(g);
    EmptyGroups("ffff:" + V4Text(v));
    ParseAround([], "ffff:" + V4Text(v), g[5..]);
    FillGapExact(g, 0, 5);
    assert g[..0] == [] && "::" + ("ffff:" + V4Text(v)) == "::ffff:" + V4Text(v);
  }

  lemma MappedGroups(g: V6)
    requires ToV4Mapped(g).Some?
    ensures g[5..] == [0xFFFF] + QuadGroups(ToV4Mapped(g).value) && Zeros(g, 0, 5)
  {
  }

  lemma EmptyGroups(tail: string)
    requires tail != ""
    ensures GroupsText([]) + "::" + tail == "::" + tail
  {
  }

  lemma GapRoundTrip(g: V6, s: nat, n: nat)
    requires Zeros(g, s, n) && n >= 1
    ensures ParseV6(GroupsText(g[..s]) + "::" + GroupsText(g[s + n..])) == Some(g)
  {
    var r := g[s + n..];
    GroupsTextShape(r);
    GroupsRoundTrip(r, true);
    ParseAround(g[..s], GroupsText(r), r);
    FillGapExact(g, s, n);
  }

  lemma FullRoundTrip(g: V6)
    ensures ParseV6(GroupsText(g)) == Some(g)
  {
    var t := GroupsText(g);
    GroupsTextShape(g);
    forall i | 0 <= i ensures !OccursAt(t, "::", i) {
      OccursChar(t, "::", i, 0);
      OccursChar(t, "::", i, 1);
    }
    GroupsRoundTrip(g, true);
  }

  /** A run of zero groups fits into the longest run from where it starts. */
  lemma {:induction false} ZeroRunLongest(g: V6, i: nat, n: nat)
    requires Zeros(g, i, n)
    ensures n <= ZeroRunAt(g, i)
    decreases n
  {
    if n > 0 {
      assert g[i] == 0;
      ZeroRunLongest(g, i + 1, n - 1);
    }
  }

  /** The text of an address (sections 4 and 5 of RFC 5952): a mapped address shows its dotted quad; otherwise the first of
      the longest runs of zero groups is shortened to `::`, if it holds two or more. */
  lemma V6Form(g: V6) returns (s: nat, n: nat)
    ensures s + n <= 8 && forall i :: s <= i < s + n ==> g[i] == 0
    ensures g[..5] == [0, 0, 0, 0, 0] && g[5] == 0xFFFF ==>
      V6Text(g) == "::ffff:" + V4Text(V4(g[6] / 256, g[6] % 256, g[7] / 256, g[7] % 256))
    ensures !(g[..5] == [0, 0, 0, 0, 0] && g[5] == 0xFFFF) ==>
      V6Text(g) == if n >= 2 then GroupsText(g[..s]) + "::" + GroupsText(g[s + n..]) else GroupsText(g)
    ensures forall s': nat, n': nat :: n' >= 1 && Zeros(g, s', n') ==> n' < n || (n' == n && s <= s')
  {
    hide GroupsText, V4Text, ZeroRunAt, LongestZeros, Zeros, ToV4Mapped;
    s := LongestZeros(g, 0);
    n := ZeroRunAt(g, s);
    MappedExact(g);
    LongestFirst(g);
  }

  lemma LongestFirst(g: V6)
    ensures var s := LongestZeros(g, 0);
      var n := ZeroRunAt(g, s);
      && s + n <= 8 && (forall i :: s <= i < s + n ==> g[i] == 0)
      && forall s': nat, n': nat :: n' >= 1 && Zeros(g, s', n') ==> n' < n || (n' == n && s <= s')
  {
    hide ZeroRunAt, LongestZeros;
    var s := LongestZeros(g, 0);
    forall s': nat, n': nat | n' >= 1 && Zeros(g, s', n')
      ensures n' < ZeroRunAt(g, s) || (n' == ZeroRunAt(g, s) && s <= s')
    {
      ZeroRunLongest(g, s', n');
    }
  }

  lemma MappedExact(g: V6)
    ensures ToV4Mapped(g) == if g[..5] == [0, 0, 0, 0, 0] && g[5] == 0xFFFF
      then Some(V4(g[6] / 256, g[6] % 256, g[7] / 256, g[7] % 256)) else None
  {
    if g[..5] == [0, 0, 0, 0, 0] {
      forall i | 0 <= i < 5 ensures g[i] == 0 {
        assert g[..5][i] == 0;
      }
    }
  }

  /** A group is written in lower-case hexadecimal digits without leading zeros. */
  lemma GroupForm(g: seq<Group>, i: nat)
    requires i < |g|
    ensures var t := GroupTexts(g)[i];
      && t != "" && (t[0] == '0' ==> t == "0") && NumValue(t, Hex) == g[i]
      && forall c :: c in t ==> c in "0123456789abcdef"
  {
    hide NumText, NumValue;
    NumRoundTrip(g[i], Hex);
    NumTextLower(g[i], Hex);
  }

  /** Reading back the printed form of an IPv6 address gives the address. */
  lemma V6RoundTrip(g: V6)
    ensures ParseV6(V6Text(g)) == Some(g)
  {
    hide ParseV6, ToV4Mapped, V4Text, GroupsText, Zeros, LongestZeros, ZeroRunAt;
    if ToV4Mapped(g).Some? {
      MappedRoundTrip(g);
    } else {
      var s := LongestZeros(g, 0);
      var n := ZeroRunAt(g, s);
      if n > 1 {
        GapRoundTrip(g, s, n);
      } else {
        FullRoundTrip(g);
      }
    }
  }
}
