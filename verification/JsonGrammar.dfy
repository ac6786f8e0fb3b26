/**
 * The texts that the parser accepts, given by syntax trees (RFC 8259): it reads exactly the texts of
 * objects whose members are strings, and reads each as what its tree says.
 */
module JsonGrammar {
  import opened Prelude
  import opened CanonicalJson

  // ---------------------------------------------------------------- syntax trees

  datatype Digit = Digit(value: int, capital: bool)

  datatype Code = Code(a: Digit, b: Digit, c: Digit, d: Digit)

  /** One character of a string: as itself, by a letter, by its number or by the numbers of a surrogate pair. */
  datatype Unit = Plain(c: char) | Short(letter: char) | Numbered(code: Code) | Pair(high: Code, low: Code)

  /** A member with the white space around its colon, before and after it. */
  datatype Member = Member(before: string, key: seq<Unit>, afterKey: string, beforeValue: string, value: seq<Unit>, after: string)

  /** blank is the white space in an object without members. */
  datatype Document = Document(lead: string, blank: string, members: seq<Member>, trail: string)

  const SHORT_ESCAPES := map[
    '\"' := '\"', '\\' := '\\', '/' := '/', 'b' := '\U{0008}', 'f' := '\U{000C}', 'n' := '\n', 'r' := '\r', 't' := '\t']

  predicate IsCode(x: Code) {
    0 <= x.a.value < 16 && 0 <= x.b.value < 16 && 0 <= x.c.value < 16 && 0 <= x.d.value < 16
  }

  function Number(x: Code): int {
    x.a.value * 0x1000 + x.b.value * 0x100 + x.c.value * 16 + x.d.value
  }

  predicate IsUnit(u: Unit) {
    match u
    case Plain(c) => c as int >= 0x20 && c != '\"' && c != '\\'
    case Short(letter) => letter in SHORT_ESCAPES
    case Numbered(x) => IsCode(x) && !(0xD800 <= Number(x) < 0xE000)
    case Pair(high, low) => IsCode(high) && IsCode(low) && 0xD800 <= Number(high) < 0xDC00 <= Number(low) < 0xE000
  }

  predicate AreUnits(us: seq<Unit>) {
    forall i :: 0 <= i < |us| ==> IsUnit(us[i])
  }

  predicate AllSpace(s: string) {
    forall i :: 0 <= i < |s| ==> s[i] in {' ', '\t', '\n', '\r'}
  }

  predicate IsMember(m: Member) {
    AreUnits(m.key) && AreUnits(m.value) && AllSpace(m.before) && AllSpace(m.afterKey) && AllSpace(m.beforeValue) && AllSpace(m.after)
  }

  predicate AreMembers(ms: seq<Member>) {
    forall i :: 0 <= i < |ms| ==> IsMember(ms[i])
  }

  predicate IsDocument(d: Document) {
    AllSpace(d.lead) && AllSpace(d.blank) && AreMembers(d.members) && AllSpace(d.trail)
  }

  // ---------------------------------------------------------------- their texts

  function DigitText(d: Digit): char
    requires 0 <= d.value < 16
  {
    if d.capital then "0123456789ABCDEF"[d.value] else "0123456789abcdef"[d.value]
  }

  function CodeText(x: Code): (s: string)
    requires IsCode(x)
    ensures |s| == 6
  {
    ['\\', 'u', DigitText(x.a), DigitText(x.b), DigitText(x.c), DigitText(x.d)]
  }

  function UnitText(u: Unit): string
    requires IsUnit(u)
  {
    match u
    case Plain(c) => [c]
    case Short(letter) => ['\\', letter]
    case Numbered(x) => CodeText(x)
    case Pair(high, low) => CodeText(high) + CodeText(low)
  }

  function BodyText(us: seq<Unit>): string
    requires AreUnits(us)
  {
    if us == [] then "" else UnitText(us[0]) + BodyText(us[1..])
  }

  function StringText(us: seq<Unit>): string
    requires AreUnits(us)
  {
    "\"" + (BodyText(us) + "\"")
  }

  function MemberText(m: Member): string
    requires IsMember(m)
  {
    m.before + (StringText(m.key) + (m.afterKey + (":" + (m.beforeValue + (StringText(m.value) + m.after)))))
  }

  function MembersText(ms: seq<Member>): string
    requires ms != [] && AreMembers(ms)
  {
    if |ms| == 1 then MemberText(ms[0]) else MemberText(ms[0]) + ("," + MembersText(ms[1..]))
  }

  function DocumentText(d: Document): string
    requires IsDocument(d)
  {
    d.lead + ("{" + ((if d.members == [] then d.blank else MembersText(d.members)) + ("}" + d.trail)))
  }

  // ---------------------------------------------------------------- what they stand for

  function UnitValue(u: Unit): char
    requires IsUnit(u)
  {
    match u
    case Plain(c) => c
    case Short(letter) => SHORT_ESCAPES[letter]
    case Numbered(x) => Number(x) as char
    case Pair(high, low) => (0x1_0000 + (Number(high) - 0xD800) * 0x400 + (Number(low) - 0xDC00)) as char
  }

  function StringValue(us: seq<Unit>): (s: string)
    requires AreUnits(us)
    ensures |s| == |us|
  {
    seq(|us|, i requires 0 <= i < |us| => UnitValue(us[i]))
  }

  function Members(ms: seq<Member>): (d: Dict)
    requires AreMembers(ms)
    ensures |d| == |ms|
  {
    seq(|ms|, i requires 0 <= i < |ms| => (StringValue(ms[i].key), StringValue(ms[i].value)))
  }

  // ---------------------------------------------------------------- characters

  lemma Regroup(a: string, b: string, c: string)
    ensures (a + b) + c == a + (b + c)
  {
  }

  lemma DigitRead(d: Digit)
    requires 0 <= d.value < 16
    ensures HexValue(DigitText(d)) == Some(d.value)
  {
  }

  lemma CodeRead(x: Code, rest: string)
    requires IsCode(x)
    ensures ReadUnicodeEscape(CodeText(x) + rest) == Some(Number(x)) && (CodeText(x) + rest)[6..] == rest
  {
    DigitRead(x.a);
    DigitRead(x.b);
    DigitRead(x.c);
    DigitRead(x.d);
    hide HexValue, DigitText;
  }

  lemma UnitRead(u: Unit, rest: string)
    requires IsUnit(u)
    ensures ReadChar(UnitText(u) + rest) == Some((UnitValue(u), rest))
  {
    match u
    case Plain(c) => assert ([c] + rest)[1..] == rest;
    case Short(letter) => assert (['\\', letter] + rest)[2..] == rest;
    case Numbered(x) =>
      CodeRead(x, rest);
      hide ReadUnicodeEscape, CodeText, Number;
    case Pair(high, low) => PairRead(high, low, rest);
  }

  lemma PairRead(high: Code, low: Code, rest: string)
    requires IsUnit(Pair(high, low))
    ensures ReadChar(UnitText(Pair(high, low)) + rest) == Some((UnitValue(Pair(high, low)), rest))
  {
    CodeRead(high, CodeText(low) + rest);
    CodeRead(low, rest);
    hide ReadUnicodeEscape, ReadChar, CodeText, Number;
    Regroup(CodeText(high), CodeText(low), rest);
    TwoNumbersRead(CodeText(high) + (CodeText(low) + rest), Number(high), Number(low), rest);
  }

  lemma TwoNumbersRead(s: string, high: int, low: int, rest: string)
    requires 0xD800 <= high < 0xDC00 <= low < 0xE000
    requires ReadUnicodeEscape(s) == Some(high) && ReadUnicodeEscape(s[6..]) == Some(low) && s[6..][6..] == rest
    ensures ReadChar(s) == Some(((0x1_0000 + (high - 0xD800) * 0x400 + (low - 0xDC00)) as char, rest))
  {
    assert s[0] == '\\' && s[1] == 'u';
    hide ReadUnicodeEscape;
    assert s[12..] == rest;
  }

  lemma DigitOf(c: char) returns (d: Digit)
    requires HexValue(c).Some?
    ensures 0 <= d.value < 16 && d.value == HexValue(c).value && DigitText(d) == c
  {
    d := Digit(HexValue(c).value, 'A' <= c <= 'F');
  }

  lemma CodeOf(s: string) returns (x: Code)
    requires ReadUnicodeEscape(s).Some?
    ensures IsCode(x) && Number(x) == ReadUnicodeEscape(s).value && s == CodeText(x) + s[6..]
  {
    var a := DigitOf(s[2]);
    var b := DigitOf(s[3]);
    var c := DigitOf(s[4]);
    var d := DigitOf(s[5]);
    hide HexValue, DigitText;
    x := Code(a, b, c, d);
    assert CodeText(x) == s[..6];
  }

  lemma UnitOf(s: string) returns (u: Unit)
    requires ReadChar(s).Some?
    ensures IsUnit(u) && s == UnitText(u) + ReadChar(s).value.1 && UnitValue(u) == ReadChar(s).value.0
  {
    if s[0] != '\\' {
      u := Plain(s[0]);
    } else if s[1] != 'u' {
      u := Short(s[1]);
      assert s == ['\\', s[1]] + s[2..];
    } else {
      u := NumberedUnit(s);
    }
  }

  lemma NumberedUnit(s: string) returns (u: Unit)
    requires ReadChar(s).Some? && s[0] == '\\' && s[1] == 'u'
    ensures IsUnit(u) && s == UnitText(u) + ReadChar(s).value.1 && UnitValue(u) == ReadChar(s).value.0
  {
    var high := CodeOf(s);
    hide ReadUnicodeEscape, CodeText, Number;
    if 0xD800 <= Number(high) < 0xE000 {
      var low := CodeOf(s[6..]);
      u := Pair(high, low);
      assert s[6..][6..] == s[12..];
    } else {
      u := Numbered(high);
    }
  }

  // ---------------------------------------------------------------- strings

  lemma UnitStart(u: Unit)
    requires IsUnit(u)
    ensures UnitText(u) != "" && UnitText(u)[0] != '\"'
  {
  }

  lemma ValueOfRest(us: seq<Unit>)
    requires us != [] && AreUnits(us)
    ensures AreUnits(us[1..]) && StringValue(us) == [UnitValue(us[0])] + StringValue(us[1..])
  {
    hide UnitValue, IsUnit;
  }

  lemma BodyGoesOn(s: string, c: char, rest: string)
    requires s != "" && s[0] != '\"' && ReadChar(s) == Some((c, rest)) && ReadBody(rest).Some?
    ensures ReadBody(s) == Some(([c] + ReadBody(rest).value.0, ReadBody(rest).value.1))
  {
    hide ReadChar;
  }

  lemma {:induction false} BodyRead(us: seq<Unit>, rest: string)
    requires AreUnits(us)
    ensures ReadBody(BodyText(us) + ("\"" + rest)) == Some((StringValue(us), rest))
  {
    if us == [] {
      assert BodyText(us) + ("\"" + rest) == "\"" + rest && ("\"" + rest)[1..] == rest;
    } else {
      var later := BodyText(us[1..]) + ("\"" + rest);
      BodyRead(us[1..], rest);
      ValueOfRest(us);
      UnitStart(us[0]);
      UnitRead(us[0], later);
      hide ReadChar, ReadBody, UnitText, UnitValue, IsUnit, AreUnits, StringValue;
      Regroup(UnitText(us[0]), BodyText(us[1..]), "\"" + rest);
      BodyGoesOn(UnitText(us[0]) + later, UnitValue(us[0]), later);
    }
  }

  lemma {:induction false} BodyOf(s: string) returns (us: seq<Unit>)
    requires ReadBody(s).Some?
    ensures AreUnits(us) && s == BodyText(us) + ("\"" + ReadBody(s).value.1) && StringValue(us) == ReadBody(s).value.0
    decreases |s|
  {
    if s[0] == '\"' {
      us := [];
      assert s == "\"" + s[1..];
    } else {
      var u := UnitOf(s);
      hide ReadChar, UnitText, UnitValue, IsUnit;
      var rest := ReadChar(s).value.1;
      var later := BodyOf(rest);
      us := [u] + later;
      assert us[1..] == later;
      ValueOfRest(us);
      Regroup(UnitText(u), BodyText(later), "\"" + ReadBody(s).value.1);
    }
  }

  lemma StringRead(us: seq<Unit>, rest: string)
    requires AreUnits(us)
    ensures ReadString(StringText(us) + rest) == Some((StringValue(us), rest))
  {
    BodyRead(us, rest);
    hide ReadBody, BodyText, StringValue, AreUnits;
    Regroup(BodyText(us), "\"", rest);
    Regroup("\"", BodyText(us) + "\"", rest);
    assert ("\"" + (BodyText(us) + ("\"" + rest)))[1..] == BodyText(us) + ("\"" + rest);
  }

  lemma StringOf(s: string) returns (us: seq<Unit>)
    requires ReadString(s).Some?
    ensures AreUnits(us) && s == StringText(us) + ReadString(s).value.1 && StringValue(us) == ReadString(s).value.0
  {
    us := BodyOf(s[1..]);
    hide ReadBody, BodyText, StringValue;
    var rest := ReadString(s).value.1;
    assert s == "\"" + s[1..];
    assert s == StringText(us) + rest by {
      Regroup(BodyText(us), "\"", rest);
      Regroup("\"", BodyText(us) + "\"", rest);
    }
  }

  // ---------------------------------------------------------------- white space

  predicate StartsSolid(s: string) {
    s == "" || s[0] !in {' ', '\t', '\n', '\r'}
  }

  lemma {:induction false} SpaceSkipped(w: string, rest: string)
    requires AllSpace(w) && StartsSolid(rest)
    ensures SkipSpace(w + rest) == rest
  {
    if w == "" {
      assert w + rest == rest;
    } else {
      assert (w + rest)[1..] == w[1..] + rest;
      SpaceSkipped(w[1..], rest);
    }
  }

  lemma {:induction false} SpaceOf(s: string) returns (w: string)
    ensures AllSpace(w) && s == w + SkipSpace(s) && StartsSolid(SkipSpace(s))
  {
    if s != "" && IsSpace(s[0]) {
      var later := SpaceOf(s[1..]);
      w := [s[0]] + later;
    } else {
      w := "";
    }
  }

  // ---------------------------------------------------------------- members

  function MemberBody(m: Member): string
    requires IsMember(m)
  {
    StringText(m.key) + (m.afterKey + (":" + (m.beforeValue + (StringText(m.value) + m.after))))
  }

  /** The text up to the colon, and from the value on, separately. */
  lemma MemberRead(m: Member, rest: string)
    requires IsMember(m) && rest != "" && StartsSolid(rest)
    ensures SkipSpace(MemberText(m) + rest) == MemberBody(m) + rest
    ensures ReadEntry(MemberBody(m) + rest) == Some(((StringValue(m.key), StringValue(m.value)), rest))
  {
    hide ReadString, StringValue, BodyText, AreUnits;
    var afterValue := m.after + rest;
    var value := StringText(m.value) + afterValue;
    var colon := ":" + (m.beforeValue + value);
    var afterKey := m.afterKey + colon;
    assert MemberBody(m) + rest == StringText(m.key) + afterKey;
    assert MemberText(m) + rest == m.before + (MemberBody(m) + rest);
    SpaceSkipped(m.before, MemberBody(m) + rest);
    StringRead(m.key, afterKey);
    SpaceSkipped(m.afterKey, colon);
    assert colon[1..] == m.beforeValue + value;
    SpaceSkipped(m.beforeValue, value);
    StringRead(m.value, afterValue);
    SpaceSkipped(m.after, rest);
  }

  lemma MemberOf(s: string, before: string) returns (m: Member)
    requires ReadEntry(s).Some? && AllSpace(before)
    ensures IsMember(m) && m.before == before && before + s == MemberText(m) + ReadEntry(s).value.1
    ensures (StringValue(m.key), StringValue(m.value)) == ReadEntry(s).value.0 && StartsSolid(ReadEntry(s).value.1)
  {
    hide ReadString, StringValue, BodyText, AreUnits, SkipSpace, AllSpace;
    var key := StringOf(s);
    var afterKey := ReadString(s).value.1;
    var w1 := SpaceOf(afterKey);
    var colon := SkipSpace(afterKey);
    var w2 := SpaceOf(colon[1..]);
    var value := SkipSpace(colon[1..]);
    var v := StringOf(value);
    var afterValue := ReadString(value).value.1;
    var w3 := SpaceOf(afterValue);
    m := Member(before, key, w1, w2, v, w3);
    JoinMember(m, s, afterKey, colon, value, afterValue, SkipSpace(afterValue));
  }

  lemma JoinMember(m: Member, s: string, afterKey: string, colon: string, value: string, afterValue: string, rest: string)
    requires IsMember(m) && s == StringText(m.key) + afterKey && afterKey == m.afterKey + colon
    requires colon != "" && colon[0] == ':' && colon[1..] == m.beforeValue + value
    requires value == StringText(m.value) + afterValue && afterValue == m.after + rest
    ensures m.before + s == MemberText(m) + rest
  {
    hide StringText, AllSpace, AreUnits;
    assert colon == ":" + colon[1..];
    var k, v := StringText(m.key), StringText(m.value);
    calc {
      m.before + s;
      m.before + (k + (m.afterKey + (":" + (m.beforeValue + (v + (m.after + rest))))));
      m.before + (k + (m.afterKey + (":" + (m.beforeValue + (v + m.after + rest)))));
      m.before + (k + (m.afterKey + (":" + (m.beforeValue + (v + m.after) + rest))));
      MemberText(m) + rest;
    }
  }

  lemma FirstMember(ms: seq<Member>)
    requires ms != [] && AreMembers(ms)
    ensures IsMember(ms[0]) && AreMembers(ms[1..])
    ensures Members(ms) == [(StringValue(ms[0].key), StringValue(ms[0].value))] + Members(ms[1..])
  {
    hide IsMember, StringValue;
  }

  lemma {:induction false} MembersRead(ms: seq<Member>, trail: string)
    requires ms != [] && AreMembers(ms) && AllSpace(trail)
    ensures ReadMembers(SkipSpace(MembersText(ms) + ("}" + trail))) == Some(Members(ms))
  {
    FirstMember(ms);
    hide ReadEntry, SkipSpace, MemberText, MemberBody, IsMember, AreMembers, StringValue;
    if |ms| == 1 {
      var end := "}" + trail;
      MemberRead(ms[0], end);
      assert end[1..] == trail + "";
      SpaceSkipped(trail, "");
      assert MembersText(ms) + end == MemberText(ms[0]) + end;
      assert Members(ms) == [(StringValue(ms[0].key), StringValue(ms[0].value))];
    } else {
      var later := MembersText(ms[1..]) + ("}" + trail);
      var rest := "," + later;
      MemberRead(ms[0], rest);
      assert rest[1..] == later;
      MembersRead(ms[1..], trail);
      Separated(MemberText(ms[0]), MembersText(ms[1..]), "}" + trail);
    }
  }

  lemma Separated(a: string, b: string, c: string)
    ensures (a + ("," + b)) + c == a + ("," + (b + c))
  {
    Regroup(",", b, c);
    Regroup(a, "," + b, c);
  }

  lemma OnlySpace(s: string)
    requires SkipSpace(s) == ""
    ensures AllSpace(s)
  {
    var w := SpaceOf(s);
    assert s == w;
  }

  lemma {:induction false} MembersOf(s: string, before: string) returns (ms: seq<Member>, trail: string)
    requires ReadMembers(s).Some? && AllSpace(before)
    ensures ms != [] && AreMembers(ms) && AllSpace(trail)
    ensures before + s == MembersText(ms) + ("}" + trail) && Members(ms) == ReadMembers(s).value
    decreases |s|
  {
    var m := MemberOf(s, before);
    hide SkipSpace, AllSpace, MemberText, MembersText, IsMember, AreMembers, StringValue, Members, ReadEntry;
    var rest := ReadEntry(s).value.1;
    assert rest == [rest[0]] + rest[1..];
    if rest[0] == '}' {
      ms, trail := [m], rest[1..];
      OnlySpace(trail);
      OneMember(m);
    } else {
      var w := SpaceOf(rest[1..]);
      var later, end := MembersOf(SkipSpace(rest[1..]), w);
      ms, trail := [m] + later, end;
      MoreMembers(m, later);
      Separated(MemberText(m), MembersText(later), "}" + trail);
    }
  }

  lemma OneMember(m: Member)
    requires IsMember(m)
    ensures AreMembers([m]) && MembersText([m]) == MemberText(m) && Members([m]) == [(StringValue(m.key), StringValue(m.value))]
  {
    FirstMember([m]);
    hide IsMember, StringValue, MemberText, Members;
    assert Members([m][1..]) == [];
  }

  lemma MoreMembers(m: Member, later: seq<Member>)
    requires IsMember(m) && later != [] && AreMembers(later)
    ensures AreMembers([m] + later) && MembersText([m] + later) == MemberText(m) + ("," + MembersText(later))
    ensures Members([m] + later) == [(StringValue(m.key), StringValue(m.value))] + Members(later)
  {
    hide IsMember, StringValue, MemberText;
    var ms := [m] + later;
    assert AreMembers(ms) && ms[1..] == later;
    FirstMember(ms);
  }

  // ---------------------------------------------------------------- documents

  lemma DocumentRead(d: Document)
    requires IsDocument(d)
    ensures ReadObject(DocumentText(d)) == Some(Members(d.members))
  {
    hide ReadMembers, SkipSpace, AllSpace, MembersText, AreMembers;
    var inner := (if d.members == [] then d.blank else MembersText(d.members)) + ("}" + d.trail);
    SpaceSkipped(d.lead, "{" + inner);
    assert ("{" + inner)[1..] == inner;
    if d.members == [] {
      SpaceSkipped(d.blank, "}" + d.trail);
      assert ("}" + d.trail)[1..] == d.trail + "";
      SpaceSkipped(d.trail, "");
    } else {
      MembersRead(d.members, d.trail);
      StartsWithQuote(d.members, d.trail);
    }
  }

  lemma StartsWithQuote(ms: seq<Member>, trail: string)
    requires ms != [] && AreMembers(ms)
    ensures var s := SkipSpace(MembersText(ms) + ("}" + trail)); s != "" && s[0] == '\"'
  {
    FirstMember(ms);
    var rest := if |ms| == 1 then "}" + trail else "," + (MembersText(ms[1..]) + ("}" + trail));
    MemberRead(ms[0], rest);
    hide SkipSpace, ReadEntry, AreMembers, IsMember, MemberText;
    if |ms| > 1 {
      Separated(MemberText(ms[0]), MembersText(ms[1..]), "}" + trail);
    }
    assert MembersText(ms) + ("}" + trail) == MemberText(ms[0]) + rest;
  }

  lemma DocumentOf(s: string) returns (d: Document)
    requires ReadObject(s).Some?
    ensures IsDocument(d) && DocumentText(d) == s && Members(d.members) == ReadObject(s).value
  {
    var lead := SpaceOf(s);
    var open := SkipSpace(s);
    var blank := SpaceOf(open[1..]);
    var inner := SkipSpace(open[1..]);
    hide SkipSpace, ReadMembers;
    assert open == "{" + open[1..];
    if inner != "" && inner[0] == '}' {
      OnlySpace(inner[1..]);
      d := Document(lead, blank, [], inner[1..]);
      assert inner == "}" + inner[1..];
    } else {
      var ms, trail := MembersOf(inner, blank);
      d := Document(lead, "", ms, trail);
    }
  }

  // ---------------------------------------------------------------- main results

  ghost predicate IsTextOf(s: string, entries: Dict) {
    exists d :: IsDocument(d) && DocumentText(d) == s && Members(d.members) == entries
  }

  /**
   * The parser reads exactly the texts of objects whose members are strings, whatever their white space,
   * escapes and member order, and reads each as the members it is the text of.
   */
  lemma ReadsExactly(s: string, entries: Dict)
    ensures ReadObject(s) == Some(entries) <==> IsTextOf(s, entries)
  {
    hide ReadObject, DocumentText, Members, AreMembers, AllSpace;
    if ReadObject(s) == Some(entries) {
      var d := DocumentOf(s);
      assert IsDocument(d) && DocumentText(d) == s && Members(d.members) == entries;
    }
    if IsTextOf(s, entries) {
      var d :| IsDocument(d) && DocumentText(d) == s && Members(d.members) == entries;
      DocumentRead(d);
    }
  }

  /** Of members with one key the last one counts, and there is no other entry. */
  lemma {:induction false} LastCounts(d: Dict, i: nat)
    requires i < |d| && forall j :: i < j < |d| ==> d[j].0 != d[i].0
    ensures d[i].0 in AsMap(d) && AsMap(d)[d[i].0] == d[i].1
  {
    var n := |d| - 1;
    if i < n {
      assert d[..n][i] == d[i];
      LastCounts(d[..n], i);
    }
  }

  lemma {:induction false} KeysOfMembers(d: Dict, key: string)
    ensures key in AsMap(d) <==> exists i :: 0 <= i < |d| && d[i].0 == key
  {
    if d != [] {
      var n := |d| - 1;
      KeysOfMembers(d[..n], key);
      assert forall i :: 0 <= i < n ==> d[..n][i] == d[i];
      assert key == d[n].0 ==> exists i :: 0 <= i < |d| && d[i].0 == key;
    }
  }
}
