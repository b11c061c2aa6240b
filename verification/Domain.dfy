/** Domain names (src/config.rs). */
module Domain {
  import opened Wrappers
  import opened Text

  datatype DomainError = NameLength | LabelLength | LabelHyphen | LabelCharacter | NumericTld

  datatype Parsed = Name(inner: string) | Refused(error: DomainError)

  /** Length of the UTF-8 form, which is what `str::len` counts. */
  function Utf8Length(s: string): nat {
    if s == "" then 0 else
      var n := s[0] as int;
      (if n < 0x80 then 1 else if n < 0x800 then 2 else if n < 0x10000 then 3 else 4) + Utf8Length(s[1..])
  }

  predicate IsDigit(c: char) { '0' <= c <= '9' }

  predicate IsAlphanumeric(c: char) { IsDigit(c) || 'a' <= c <= 'z' || 'A' <= c <= 'Z' }

  predicate NumericLabel(l: string) {
    forall i :: 0 <= i < |l| ==> IsDigit(l[i])
  }

  function CheckLabel(l: string): Option<DomainError> {
    if l == "" || Utf8Length(l) > 63 then Some(LabelLength)
    else if l[0] == '-' || l[|l| - 1] == '-' then Some(LabelHyphen)
    else if exists i :: 0 <= i < |l| && !(IsAlphanumeric(l[i]) || l[i] == '-') then Some(LabelCharacter)
    else None
  }

  /** The complaint about the first label that has one. */
  function CheckLabels(labels: seq<string>): (complaint: Option<DomainError>)
    ensures complaint.Some? ==> !complaint.value.NameLength? && !complaint.value.NumericTld?
  {
    if labels == [] then None
    else if CheckLabel(labels[0]).Some? then CheckLabel(labels[0])
    else CheckLabels(labels[1..])
  }

  function StripDot(s: string): string {
    if EndsWith(s, ".") then s[..|s| - 1] else s
  }

  /** `DomainName::parse`; `lower` is Unicode lowercasing. */
  function Parse(lower: string -> string, text: string): Parsed {
    var name := lower(Trim(text));
    if name == "" || Utf8Length(name) > 253 then Refused(NameLength) else
      var labels := Split(StripDot(name), '.');
      var complaint := CheckLabels(labels);
      if complaint.Some? then Refused(complaint.value)
      else if NumericLabel(labels[|labels| - 1]) then Refused(NumericTld)
      else Name(name)
  }

  // ---------------------------------------------------------------- the grammar

  /** RFC 1123 section 2.1: letters, digits and inner hyphens, at most 63 of them. */
  predicate IsLabel(l: string) {
    && 1 <= |l| <= 63
    && (forall c :: c in l ==> 'a' <= c <= 'z' || 'A' <= c <= 'Z' || '0' <= c <= '9' || c == '-')
    && l[0] != '-' && l[|l| - 1] != '-'
  }

  predicate HasNonDigit(l: string) {
    exists i :: 0 <= i < |l| && !('0' <= l[i] <= '9')
  }

  /** `name` is these labels joined by dots, with a closing dot where `rooted`; the last label is not all digits. */
  predicate Derives(labels: seq<string>, rooted: bool, name: string) {
    && |labels| >= 1
    && (forall i :: 0 <= i < |labels| ==> IsLabel(labels[i]))
    && HasNonDigit(labels[|labels| - 1])
    && name == Join(labels, ".") + (if rooted then "." else "")
    && |name| <= 253
  }

  ghost predicate IsDomain(name: string) {
    exists labels, rooted :: Derives(labels, rooted, name)
  }

  predicate IsAscii(s: string) {
    forall i :: 0 <= i < |s| ==> s[i] as int < 0x80
  }

  lemma {:induction false} Utf8LengthBound(s: string)
    ensures Utf8Length(s) >= |s|
    ensures IsAscii(s) ==> Utf8Length(s) == |s|
  {
    if s != "" {
      Utf8LengthBound(s[1..]);
    }
  }

  lemma LabelExact(l: string)
    ensures CheckLabel(l).None? <==> IsLabel(l)
    ensures IsLabel(l) ==> '.' !in l && IsAscii(l) && l != "" && IsAlphanumeric(l[0]) && IsAlphanumeric(l[|l| - 1])
    ensures IsLabel(l) ==> forall i :: 0 <= i < |l| ==> IsAlphanumeric(l[i]) || l[i] == '-'
  {
    Utf8LengthBound(l);
    assert forall i :: 0 <= i < |l| ==> l[i] in l;
    assert CheckLabel(l).None? ==> forall i :: 0 <= i < |l| ==> IsAlphanumeric(l[i]) || l[i] == '-';
    assert CheckLabel(l).None? ==> IsAscii(l);
  }

  lemma NumericExact(l: string)
    ensures NumericLabel(l) <==> !HasNonDigit(l)
  {
  }

  lemma {:induction false} LabelsExact(labels: seq<string>)
    ensures CheckLabels(labels).None? <==> forall i :: 0 <= i < |labels| ==> IsLabel(labels[i])
  {
    if labels != [] {
      LabelExact(labels[0]);
      LabelsExact(labels[1..]);
      assert forall i :: 1 <= i < |labels| ==> labels[i] == labels[1..][i - 1];
    }
  }

  predicate IsNameChar(c: char) { IsAlphanumeric(c) || c == '-' || c == '.' }

  /** Joined labels are ASCII, begin and end like labels, and have the length of the labels and their dots. */
  lemma {:induction false} JoinedShape(labels: seq<string>)
    requires |labels| >= 1 && forall i :: 0 <= i < |labels| ==> IsLabel(labels[i])
    ensures var s := Join(labels, ".");
      && s != "" && IsAlphanumeric(s[0]) && IsAlphanumeric(s[|s| - 1])
      && (forall i :: 0 <= i < |s| ==> IsNameChar(s[i]))
      && |s| + 2 == WireLength(labels)
  {
    hide IsLabel, CheckLabel;
    LabelExact(labels[0]);
    if |labels| == 1 {
      assert labels[1..] == [];
    } else {
      JoinedShape(labels[1..]);
    }
  }

  /** Octets of a name on the wire: a length octet before each label, and the root label (RFC 1035 section 3.1). */
  function WireLength(labels: seq<string>): nat {
    if labels == [] then 1 else 1 + |labels[0]| + WireLength(labels[1..])
  }

  lemma StripJoined(s: string, rooted: bool)
    requires s != "" && s[|s| - 1] != '.'
    ensures var name := s + (if rooted then "." else "");
      StripDot(name) == s && EndsWith(name, ".") == rooted
  {
    var name := s + (if rooted then "." else "");
    assert name[|name| - 1..][0] == name[|name| - 1];
    assert name[|name| - 1..] == [name[|name| - 1]];
  }

  lemma DerivedShape(labels: seq<string>, rooted: bool, name: string)
    requires Derives(labels, rooted, name)
    ensures name != "" && StripDot(name) == Join(labels, ".") && EndsWith(name, ".") == rooted
    ensures forall i :: 0 <= i < |name| ==> IsNameChar(name[i])
  {
    JoinedShape(labels);
    StripJoined(Join(labels, "."), rooted);
  }

  lemma NameIsPlain(name: string)
    requires name != "" && forall i :: 0 <= i < |name| ==> IsNameChar(name[i])
    ensures IsAscii(name) && Utf8Length(name) == |name| && Trim(name) == name
  {
    hide Trim, Utf8Length;
    Utf8LengthBound(name);
    assert IsNameChar(name[0]) && IsNameChar(name[|name| - 1]);
  }

  lemma DerivedSplit(labels: seq<string>)
    requires |labels| >= 1 && forall i :: 0 <= i < |labels| ==> IsLabel(labels[i])
    ensures Split(Join(labels, "."), '.') == labels
  {
    forall i | 0 <= i < |labels| ensures '.' !in labels[i] {
      LabelExact(labels[i]);
    }
    SplitJoin(labels, '.');
  }

  /** The checks that `Parse` makes on the trimmed and lowercased name. */
  predicate Passes(name: string) {
    && name != "" && Utf8Length(name) <= 253
    && var labels := Split(StripDot(name), '.');
      CheckLabels(labels).None? && !NumericLabel(labels[|labels| - 1])
  }

  lemma DerivedPasses(labels: seq<string>, rooted: bool, name: string)
    requires Derives(labels, rooted, name)
    ensures Passes(name)
  {
    hide Utf8Length, CheckLabel, IsLabel, Split, Join, Trim;
    DerivedShape(labels, rooted, name);
    NameIsPlain(name);
    DerivedSplit(labels);
    LabelsExact(labels);
    NumericExact(labels[|labels| - 1]);
  }

  lemma PassesDerives(name: string)
    requires Passes(name)
    ensures Derives(Split(StripDot(name), '.'), EndsWith(name, "."), name)
  {
    hide CheckLabels, Utf8Length, Split, Join, IsLabel, NumericLabel;
    var labels := Split(StripDot(name), '.');
    LabelsExact(labels);
    NumericExact(labels[|labels| - 1]);
    JoinSplit(StripDot(name), '.');
    Utf8LengthBound(name);
    if EndsWith(name, ".") {
      assert name == name[..|name| - 1] + name[|name| - 1..];
    }
  }

  /** Exactly the names of the grammar are accepted, after trimming and lowercasing, and nothing else is changed. */
  lemma ParseExact(lower: string -> string, text: string)
    ensures Parse(lower, text).Name? <==> IsDomain(lower(Trim(text)))
    ensures Parse(lower, text).Name? ==> Parse(lower, text).inner == lower(Trim(text))
  {
    var name := lower(Trim(text));
    assert Parse(lower, text).Name? <==> Passes(name);
    if Passes(name) {
      PassesDerives(name);
    }
    if labels, rooted :| Derives(labels, rooted, name) {
      DerivedPasses(labels, rooted, name);
    }
  }

  predicate AllLabels(labels: seq<string>) {
    forall i :: 0 <= i < |labels| ==> IsLabel(labels[i])
  }

  /** The first label that is none stands at `i`. */
  predicate FirstBad(labels: seq<string>, i: nat) {
    i < |labels| && !IsLabel(labels[i]) && forall j :: 0 <= j < i ==> IsLabel(labels[j])
  }

  lemma {:induction false} FirstComplaint(labels: seq<string>, i: nat)
    requires FirstBad(labels, i)
    ensures CheckLabels(labels) == CheckLabel(labels[i]) && CheckLabel(labels[i]).Some?
    decreases i
  {
    hide IsLabel, CheckLabel;
    LabelExact(labels[0]);
    if i > 0 {
      assert forall j :: 1 <= j < i ==> labels[j] == labels[1..][j - 1];
      FirstComplaint(labels[1..], i - 1);
    }
  }

  /** Why a name is refused: for its length, for what is wrong with its first bad label, or for a last label of digits. */
  lemma RefusedExact(lower: string -> string, text: string)
    requires !Parse(lower, text).Name?
    ensures Parse(lower, text).error.NameLength? <==> lower(Trim(text)) == "" || Utf8Length(lower(Trim(text))) > 253
    ensures !Parse(lower, text).error.NameLength? ==>
      (Parse(lower, text).error.NumericTld? <==> AllLabels(Split(StripDot(lower(Trim(text))), '.')))
    ensures var error, labels := Parse(lower, text).error, Split(StripDot(lower(Trim(text))), '.');
      forall i: nat :: !error.NameLength? && FirstBad(labels, i) ==>
        error == if labels[i] == "" || Utf8Length(labels[i]) > 63 then LabelLength
                 else if StartsWith(labels[i], "-") || EndsWith(labels[i], "-") then LabelHyphen
                 else LabelCharacter
  {
    hide Utf8Length, Split, StripDot, Trim, IsLabel, NumericLabel;
    var labels := Split(StripDot(lower(Trim(text))), '.');
    LabelsExact(labels);
    forall i: nat | FirstBad(labels, i)
      ensures CheckLabels(labels) == Some(
        if labels[i] == "" || Utf8Length(labels[i]) > 63 then LabelLength
        else if StartsWith(labels[i], "-") || EndsWith(labels[i], "-") then LabelHyphen
        else LabelCharacter)
    {
      FirstComplaint(labels, i);
      if labels[i] != "" {
        HyphenExact(labels[i]);
      }
    }
  }

  lemma HyphenExact(l: string)
    requires l != ""
    ensures StartsWith(l, "-") == (l[0] == '-') && EndsWith(l, "-") == (l[|l| - 1] == '-')
  {
    assert l[..1] == [l[0]] && l[|l| - 1..] == [l[|l| - 1]];
  }

  lemma PassesFitsWire(name: string)
    requires Passes(name)
    ensures var labels := Split(StripDot(name), '.');
      && Join(labels, ".") + (if EndsWith(name, ".") then "." else "") == name
      && WireLength(labels) <= (if EndsWith(name, ".") then 254 else 255)
      && forall i :: 0 <= i < |labels| ==> 1 <= |labels[i]| <= 63
  {
    hide Split, Join, WireLength, Utf8Length, CheckLabels, Passes, StripDot, EndsWith;
    PassesDerives(name);
    JoinedShape(Split(StripDot(name), '.'));
  }

  /** The labels of an accepted name joined again give the name, and fit the wire limit of 255 octets. */
  lemma AcceptedFitsWire(lower: string -> string, text: string)
    requires Parse(lower, text).Name?
    ensures var name := Parse(lower, text).inner;
      var labels := Split(StripDot(name), '.');
      && Join(labels, ".") + (if EndsWith(name, ".") then "." else "") == name
      && WireLength(labels) <= (if EndsWith(name, ".") then 254 else 255)
      && forall i :: 0 <= i < |labels| ==> 1 <= |labels[i]| <= 63
  {
    hide Split, Join, WireLength, Utf8Length, CheckLabels, NumericLabel, StripDot, EndsWith, Trim;
    PassesFitsWire(Parse(lower, text).inner);
  }

  // ---------------------------------------------------------------- parsing twice

  /** What is used of Unicode lowercasing: its effect on ASCII, and that it leaves no ASCII capital. */
  ghost predicate Lowercases(lower: string -> string) {
    && (forall s :: IsAscii(s) ==> lower(s) == AsciiLower(s))
    && forall s, c :: c in lower(s) ==> !('A' <= c <= 'Z')
  }

  /** An accepted name is accepted again, unchanged. */
  lemma ParseAgain(lower: string -> string, text: string)
    requires Lowercases(lower) && Parse(lower, text).Name?
    ensures Parse(lower, Parse(lower, text).inner) == Parse(lower, text)
  {
    hide Utf8Length, CheckLabels, NumericLabel, Split, StripDot, Trim, IsAscii, Lowercases;
    var name := Parse(lower, text).inner;
    PassingIsPlain(name);
    LoweredStays(lower, Trim(text));
    ParsePassing(lower, name);
  }

  lemma ParsePassing(lower: string -> string, name: string)
    requires Passes(name) && Trim(name) == name && lower(name) == name
    ensures Parse(lower, name) == Name(name)
  {
    hide Utf8Length, CheckLabels, NumericLabel, Split, StripDot, Trim;
  }

  lemma PassingIsPlain(name: string)
    requires Passes(name)
    ensures IsAscii(name) && Trim(name) == name
  {
    hide Passes, IsAscii, Trim, Split, StripDot, EndsWith, Derives, Join;
    PassesDerives(name);
    DerivedShape(Split(StripDot(name), '.'), EndsWith(name, "."), name);
    NameIsPlain(name);
  }

  lemma LoweredStays(lower: string -> string, s: string)
    requires Lowercases(lower) && IsAscii(lower(s))
    ensures lower(lower(s)) == lower(s)
  {
    var name := lower(s);
    assert forall i :: 0 <= i < |name| ==> name[i] in name;
    assert AsciiLower(name) == name;
  }
}
