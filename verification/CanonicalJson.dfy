/**
 * JSON text for flat objects of strings (RFC 8259 sections 4 and 7), as Python's json module
 * writes and reads it. Text is a sequence of code points; UTF-8 encoding is left outside.
 */
module CanonicalJson {
  import opened Prelude
  import opened StringOrder

  /** json.dumps(ensure_ascii=False) or json.dumps(ensure_ascii=True). */
  datatype Mode = Raw | Ascii

  /** One "key": value member; a dict is its members in insertion order. */
  type Entry = (string, string)
  type Dict = seq<Entry>

  predicate DistinctKeys(d: Dict) {
    forall i, j :: 0 <= i < j < |d| ==> d[i].0 != d[j].0
  }

  /** The mapping a list of members denotes: a later member replaces an earlier one. */
  function AsMap(d: Dict): map<string, string> {
    if d == [] then map[]
    else AsMap(d[..|d| - 1])[d[|d| - 1].0 := d[|d| - 1].1]
  }

  // ---------------------------------------------------------------- printing

  function HexDigit(n: int): char
    requires 0 <= n < 16
  {
    "0123456789abcdef"[n]
  }

  function Hex4(n: int): (h: string)
    requires 0 <= n < 0x1_0000
    ensures |h| == 4
  {
    [HexDigit(n / 0x1000), HexDigit(n / 0x100 % 16), HexDigit(n / 16 % 16), HexDigit(n % 16)]
  }

  /** The body of one \uXXXX escape. */
  function UnicodeEscape(n: int): (s: string)
    requires 0 <= n < 0x1_0000
    ensures |s| == 6
  {
    "\\u" + Hex4(n)
  }

  function Escape(c: char, mode: Mode): (s: string) {
    if c == '\"' then "\\\""
    else if c == '\\' then "\\\\"
    else if c == '\n' then "\\n"
    else if c == '\r' then "\\r"
    else if c == '\t' then "\\t"
    else if c == '\U{0008}' then "\\b"
    else if c == '\U{000C}' then "\\f"
    else if c as int < 0x20 then UnicodeEscape(c as int)
    else if mode.Raw? || c as int < 0x7F then [c]
    else if c as int < 0x1_0000 then UnicodeEscape(c as int)
    else
      var v := c as int - 0x1_0000;
      UnicodeEscape(0xD800 + v / 0x400) + UnicodeEscape(0xDC00 + v % 0x400)
  }

  function EscapeAll(t: string, mode: Mode): string {
    if t == "" then "" else Escape(t[0], mode) + EscapeAll(t[1..], mode)
  }

  function Quote(t: string, mode: Mode): string {
    "\"" + EscapeAll(t, mode) + "\""
  }

  function DumpEntry(e: Entry, mode: Mode): string {
    Quote(e.0, mode) + ":" + Quote(e.1, mode)
  }

  function DumpMembers(d: Dict, mode: Mode): string {
    if d == [] then ""
    else if |d| == 1 then DumpEntry(d[0], mode)
    else DumpEntry(d[0], mode) + "," + DumpMembers(d[1..], mode)
  }

  /** json.dumps(d, separators=(",", ":")) without sorting. */
  function DumpInOrder(d: Dict, mode: Mode): string {
    "{" + DumpMembers(d, mode) + "}"
  }

  // sorted(d.items()): one pass of insertion per member
  function InsertByKey(e: Entry, d: Dict): Dict {
    if d == [] || Leq(e.0, d[0].0) then [e] + d
    else [d[0]] + InsertByKey(e, d[1..])
  }

  function SortByKey(d: Dict): Dict {
    if d == [] then [] else InsertByKey(d[0], SortByKey(d[1..]))
  }

  /** json.dumps(d, sort_keys=True, separators=(",", ":")). */
  function Dump(d: Dict, mode: Mode): string {
    DumpInOrder(SortByKey(d), mode)
  }

  /** The reference printer: the members of a mapping in ascending key order. */
  function SortedEntries(m: map<string, string>): (d: Dict)
    ensures |d| == |m|
  {
    var keys := Sorted(m.Keys);
    seq(|keys|, i requires 0 <= i < |keys| => (assert keys[i] in keys; (keys[i], m[keys[i]])))
  }

  function Canonical(m: map<string, string>, mode: Mode): string {
    DumpInOrder(SortedEntries(m), mode)
  }

  // ---------------------------------------------------------------- parsing

  predicate IsSpace(c: char) {
    c == ' ' || c == '\t' || c == '\n' || c == '\r'
  }

  function SkipSpace(s: string): (r: string)
    ensures |r| <= |s|
  {
    if s != "" && IsSpace(s[0]) then SkipSpace(s[1..]) else s
  }

  function HexValue(c: char): (r: Option<int>)
    ensures r.Some? ==> 0 <= r.value < 16
  {
    if '0' <= c <= '9' then Some(c as int - '0' as int)
    else if 'a' <= c <= 'f' then Some(c as int - 'a' as int + 10)
    else if 'A' <= c <= 'F' then Some(c as int - 'A' as int + 10)
    else None
  }

  /** The value of the six characters \uXXXX at the front of s. */
  function ReadUnicodeEscape(s: string): (r: Option<int>)
    ensures r.Some? ==> |s| >= 6 && 0 <= r.value < 0x1_0000
  {
    if |s| < 6 || s[0] != '\\' || s[1] != 'u' then None
    else
      var a, b, c, d := HexValue(s[2]), HexValue(s[3]), HexValue(s[4]), HexValue(s[5]);
      if a.Some? && b.Some? && c.Some? && d.Some?
      then Some(a.value * 0x1000 + b.value * 0x100 + c.value * 16 + d.value)
      else None
  }

  function ShortEscape(c: char): Option<char> {
    if c == '\"' then Some('\"')
    else if c == '\\' then Some('\\')
    else if c == '/' then Some('/')
    else if c == 'n' then Some('\n')
    else if c == 'r' then Some('\r')
    else if c == 't' then Some('\t')
    else if c == 'b' then Some('\U{0008}')
    else if c == 'f' then Some('\U{000C}')
    else None
  }

  /**
   * The first character of a string body and what follows it. An unescaped control character is
   * refused; so is an unpaired surrogate, which no text that encodes to UTF-8 contains.
   */
  function ReadChar(s: string): (r: Option<(char, string)>)
    ensures r.Some? ==> |r.value.1| < |s|
  {
    if s == "" || s[0] as int < 0x20 || s[0] == '\"' then None
    else if s[0] != '\\' then Some((s[0], s[1..]))
    else if |s| < 2 then None
    else if s[1] != 'u' then
      match ShortEscape(s[1])
      case Some(c) => Some((c, s[2..]))
      case None => None
    else
      match ReadUnicodeEscape(s)
      case None => None
      case Some(u) =>
        if u < 0xD800 || 0xE000 <= u then Some((u as char, s[6..]))
        else if 0xDC00 <= u then None
        else
          match ReadUnicodeEscape(s[6..])
          case None => None
          case Some(w) =>
            if 0xDC00 <= w < 0xE000
            then Some(((0x1_0000 + (u - 0xD800) * 0x400 + (w - 0xDC00)) as char, s[12..]))
            else None
  }

  /** The rest of a string after its opening quotation mark. */
  function ReadBody(s: string): (r: Option<(string, string)>)
    ensures r.Some? ==> |r.value.1| < |s|
    decreases |s|
  {
    if s != "" && s[0] == '\"' then Some(("", s[1..]))
    else
      match ReadChar(s)
      case None => None
      case Some((c, rest)) =>
        match ReadBody(rest)
        case None => None
        case Some((t, tail)) => Some(([c] + t, tail))
  }

  function ReadString(s: string): (r: Option<(string, string)>)
    ensures r.Some? ==> |r.value.1| < |s|
  {
    if s != "" && s[0] == '\"' then ReadBody(s[1..]) else None
  }

  /** string ws ':' ws string ws, with what follows. */
  function ReadEntry(s: string): (r: Option<(Entry, string)>)
    ensures r.Some? ==> |r.value.1| < |s|
  {
    match ReadString(s)
    case None => None
    case Some((key, afterKey)) =>
      var colon := SkipSpace(afterKey);
      if colon == "" || colon[0] != ':' then None
      else
        match ReadString(SkipSpace(colon[1..]))
        case None => None
        case Some((value, rest)) => Some(((key, value), SkipSpace(rest)))
  }

  /** One or more members separated by commas, then '}' and nothing but space. */
  function ReadMembers(s: string): Option<Dict>
    decreases |s|
  {
    match ReadEntry(s)
    case None => None
    case Some((e, rest)) =>
      if rest == "" then None
      else if rest[0] == '}' then
        if SkipSpace(rest[1..]) == "" then Some([e]) else None
      else if rest[0] != ',' then None
      else
        match ReadMembers(SkipSpace(rest[1..]))
        case None => None
        case Some(es) => Some([e] + es)
  }

  /** The members of a flat object of strings, in textual order; None for any other text. */
  function ReadObject(s: string): Option<Dict> {
    var open := SkipSpace(s);
    if open == "" || open[0] != '{' then None
    else
      var inner := SkipSpace(open[1..]);
      if inner != "" && inner[0] == '}' then
        if SkipSpace(inner[1..]) == "" then Some([]) else None
      else ReadMembers(inner)
  }

  /** json.loads for the objects this module prints. */
  function Loads(s: string): Option<map<string, string>> {
    match ReadObject(s)
    case None => None
    case Some(d) => Some(AsMap(d))
  }

  // ---------------------------------------------------------------- round trip

  lemma HexDigitValue(n: int)
    requires 0 <= n < 16
    ensures HexValue(HexDigit(n)) == Some(n)
  {
  }

  lemma HexDigits(n: int)
    requires 0 <= n < 0x1_0000
    ensures n == n / 0x1000 * 0x1000 + n / 0x100 % 16 * 0x100 + n / 16 % 16 * 16 + n % 16
  {
    assert n / 0x100 == n / 0x1000 * 16 + n / 0x100 % 16;
    assert n / 16 == n / 0x100 * 16 + n / 16 % 16;
  }

  /** What ReadUnicodeEscape makes of six given characters. */
  lemma SixCharacters(s: string, a: int, b: int, c: int, d: int)
    requires |s| >= 6 && s[0] == '\\' && s[1] == 'u'
    requires 0 <= a < 16 && 0 <= b < 16 && 0 <= c < 16 && 0 <= d < 16
    requires s[2] == HexDigit(a) && s[3] == HexDigit(b) && s[4] == HexDigit(c) && s[5] == HexDigit(d)
    ensures ReadUnicodeEscape(s) == Some(a * 0x1000 + b * 0x100 + c * 16 + d)
  {
    HexDigitValue(a);
    HexDigitValue(b);
    HexDigitValue(c);
    HexDigitValue(d);
  }

  lemma UnicodeEscapeRead(n: int, rest: string)
    requires 0 <= n < 0x1_0000
    ensures ReadUnicodeEscape(UnicodeEscape(n) + rest) == Some(n)
    ensures (UnicodeEscape(n) + rest)[6..] == rest
  {
    hide ReadUnicodeEscape, HexDigit;
    HexDigits(n);
    var s := UnicodeEscape(n) + rest;
    assert s[2] == HexDigit(n / 0x1000) && s[3] == HexDigit(n / 0x100 % 16);
    assert s[4] == HexDigit(n / 16 % 16) && s[5] == HexDigit(n % 16);
    SixCharacters(s, n / 0x1000, n / 0x100 % 16, n / 16 % 16, n % 16);
  }

  /** A \uXXXX escape that is no surrogate reads as its character. */
  lemma PlainEscapeRead(c: char, rest: string)
    requires c as int < 0x1_0000
    ensures ReadChar(UnicodeEscape(c as int) + rest) == Some((c, rest))
  {
    UnicodeEscapeRead(c as int, rest);
  }

  /** Two \uXXXX escapes that form a surrogate pair read as one character. */
  lemma PairEscapeRead(c: char, rest: string)
    requires c as int >= 0x1_0000
    ensures var v := c as int - 0x1_0000;
            ReadChar(UnicodeEscape(0xD800 + v / 0x400) + UnicodeEscape(0xDC00 + v % 0x400) + rest) == Some((c, rest))
  {
    var v := c as int - 0x1_0000;
    var hi, lo := UnicodeEscape(0xD800 + v / 0x400), UnicodeEscape(0xDC00 + v % 0x400);
    assert hi + lo + rest == hi + (lo + rest);
    UnicodeEscapeRead(0xD800 + v / 0x400, lo + rest);
    UnicodeEscapeRead(0xDC00 + v % 0x400, rest);
    assert (hi + (lo + rest))[12..] == (lo + rest)[6..];
    assert v == v / 0x400 * 0x400 + v % 0x400;
  }

  lemma ShortEscapeRead(e: char, c: char, rest: string)
    requires ShortEscape(e) == Some(c)
    ensures ReadChar(['\\', e] + rest) == Some((c, rest))
  {
    assert (['\\', e] + rest)[2..] == rest;
  }

  /** Every character, escaped in either mode, is read back with the text after it untouched. */
  lemma EscapeRead(c: char, mode: Mode, rest: string)
    ensures ReadChar(Escape(c, mode) + rest) == Some((c, rest))
  {
    if c == '\"' { ShortEscapeRead('\"', c, rest); }
    else if c == '\\' { ShortEscapeRead('\\', c, rest); }
    else if c == '\n' { ShortEscapeRead('n', c, rest); }
    else if c == '\r' { ShortEscapeRead('r', c, rest); }
    else if c == '\t' { ShortEscapeRead('t', c, rest); }
    else if c == '\U{0008}' { ShortEscapeRead('b', c, rest); }
    else if c == '\U{000C}' { ShortEscapeRead('f', c, rest); }
    else if c as int < 0x20 { PlainEscapeRead(c, rest); }
    else if mode.Raw? || c as int < 0x7F { assert ([c] + rest)[1..] == rest; }
    else if c as int < 0x1_0000 { PlainEscapeRead(c, rest); }
    else { PairEscapeRead(c, rest); }
  }

  /** An escape never starts with an unescaped quotation mark. */
  lemma EscapeStart(c: char, mode: Mode)
    ensures Escape(c, mode) != "" && Escape(c, mode)[0] != '\"'
  {
  }

  lemma {:induction false} QuoteRead(t: string, mode: Mode, rest: string)
    ensures ReadBody(EscapeAll(t, mode) + "\"" + rest) == Some((t, rest))
    ensures ReadString(Quote(t, mode) + rest) == Some((t, rest))
  {
    hide Escape, ReadChar;
    var body := EscapeAll(t, mode) + "\"" + rest;
    assert (Quote(t, mode) + rest)[1..] == body;
    if t == "" {
      assert body[1..] == rest;
    } else {
      var tail := EscapeAll(t[1..], mode) + "\"" + rest;
      assert body == Escape(t[0], mode) + tail;
      EscapeRead(t[0], mode, tail);
      EscapeStart(t[0], mode);
      QuoteRead(t[1..], mode, rest);
      assert t == [t[0]] + t[1..];
    }
  }

  /** A quoted string followed by anything, read where a string is expected. */
  lemma QuoteStart(t: string, mode: Mode, rest: string)
    ensures Quote(t, mode) + rest != "" && (Quote(t, mode) + rest)[0] == '\"'
    ensures SkipSpace(Quote(t, mode) + rest) == Quote(t, mode) + rest
  {
  }

  lemma EntryRead(e: Entry, mode: Mode, rest: string)
    requires rest != "" && !IsSpace(rest[0])
    ensures ReadEntry(DumpEntry(e, mode) + rest) == Some((e, rest))
    ensures DumpEntry(e, mode) != "" && DumpEntry(e, mode)[0] == '\"'
  {
    hide Quote, ReadString;
    var value := Quote(e.1, mode) + rest;
    var colon := ":" + value;
    QuoteStart(e.0, mode, ":" + Quote(e.1, mode));
    assert DumpEntry(e, mode) == Quote(e.0, mode) + (":" + Quote(e.1, mode));
    assert DumpEntry(e, mode) + rest == Quote(e.0, mode) + colon;
    QuoteRead(e.0, mode, colon);
    assert SkipSpace(colon) == colon;
    assert colon[1..] == value;
    QuoteStart(e.1, mode, rest);
    QuoteRead(e.1, mode, rest);
    assert SkipSpace(rest) == rest;
  }

  lemma MembersStart(d: Dict, mode: Mode, rest: string)
    requires d != []
    ensures DumpMembers(d, mode) + rest != "" && (DumpMembers(d, mode) + rest)[0] == '\"'
    ensures SkipSpace(DumpMembers(d, mode) + rest) == DumpMembers(d, mode) + rest
  {
    QuoteStart(d[0].0, mode, "");
  }

  /** One step of ReadMembers over a member that a comma follows. */
  lemma ReadMembersComma(e: Entry, mode: Mode, tail: string)
    requires SkipSpace(tail) == tail
    ensures ReadMembers(DumpEntry(e, mode) + "," + tail)
         == (match ReadMembers(tail) case None => None case Some(es) => Some([e] + es))
  {
    var rest := "," + tail;
    EntryRead(e, mode, rest);
    assert DumpEntry(e, mode) + "," + tail == DumpEntry(e, mode) + rest;
    assert rest[1..] == tail;
  }

  /** The last step of ReadMembers. */
  lemma ReadMembersLast(e: Entry, mode: Mode)
    ensures ReadMembers(DumpEntry(e, mode) + "}") == Some([e])
  {
    var rest := "}";
    EntryRead(e, mode, rest);
    assert rest[1..] == "";
  }

  lemma DumpMembersStep(d: Dict, mode: Mode)
    requires |d| > 1
    ensures DumpMembers(d, mode) + "}" == DumpEntry(d[0], mode) + "," + (DumpMembers(d[1..], mode) + "}")
  {
  }

  lemma {:induction false} MembersRead(d: Dict, mode: Mode)
    requires d != []
    ensures ReadMembers(DumpMembers(d, mode) + "}") == Some(d)
  {
    if |d| == 1 {
      ReadMembersLast(d[0], mode);
      assert d == [d[0]];
      assert DumpMembers(d, mode) == DumpEntry(d[0], mode);
    } else {
      MembersRead(d[1..], mode);
      MembersStart(d[1..], mode, "}");
      DumpMembersStep(d, mode);
      ReadMembersComma(d[0], mode, DumpMembers(d[1..], mode) + "}");
      assert [d[0]] + d[1..] == d;
    }
  }

  lemma NoMembers(mode: Mode)
    ensures DumpMembers([], mode) == ""
  {
  }

  /** Reading what was printed gives back the very members, in either mode. */
  lemma ObjectRead(d: Dict, mode: Mode)
    ensures ReadObject(DumpInOrder(d, mode)) == Some(d)
  {
    hide ReadMembers, DumpMembers;
    var s := DumpInOrder(d, mode);
    var inner := DumpMembers(d, mode) + "}";
    assert s == "{" + inner && s[1..] == inner;
    if d == [] {
      NoMembers(mode);
      assert inner == "}" && inner[1..] == "";
    } else {
      MembersStart(d, mode, "}");
      MembersRead(d, mode);
    }
  }

  // ---------------------------------------------------------------- key order does not matter

  /** Membership and lookup in a dict whose keys are distinct. */
  lemma {:induction false} AsMapLookup(d: Dict)
    requires DistinctKeys(d)
    ensures forall k :: k in AsMap(d) <==> exists i :: 0 <= i < |d| && d[i].0 == k
    ensures forall i :: 0 <= i < |d| ==> d[i].0 in AsMap(d) && AsMap(d)[d[i].0] == d[i].1
  {
    if d != [] {
      var n := |d| - 1;
      var init := d[..n];
      AsMapLookup(init);
      forall k | k in AsMap(d) ensures exists i :: 0 <= i < |d| && d[i].0 == k {
        if k == d[n].0 {
        } else {
          assert k in AsMap(init);
          var i :| 0 <= i < |init| && init[i].0 == k;
          assert d[i].0 == k;
        }
      }
      forall i | 0 <= i < |d| ensures d[i].0 in AsMap(d) && AsMap(d)[d[i].0] == d[i].1 {
        if i < n { assert init[i] == d[i]; }
      }
    }
  }

  predicate AscendingKeys(d: Dict) {
    forall i, j :: 0 <= i < j < |d| ==> Less(d[i].0, d[j].0)
  }

  lemma PrependAscending(e: Entry, d: Dict)
    requires AscendingKeys(d)
    requires forall i :: 0 <= i < |d| ==> Less(e.0, d[i].0)
    ensures AscendingKeys([e] + d)
  {
    hide Less;
    var r := [e] + d;
    forall i, j | 0 <= i < j < |r| ensures Less(r[i].0, r[j].0) {
      assert r[j] == d[j - 1];
      if i > 0 { assert r[i] == d[i - 1]; }
    }
  }

  lemma {:induction false} InsertKeepsMembers(e: Entry, d: Dict)
    ensures multiset(InsertByKey(e, d)) == multiset(d) + multiset{e}
  {
    hide Leq;
    if d != [] && !Leq(e.0, d[0].0) {
      InsertKeepsMembers(e, d[1..]);
      assert d == [d[0]] + d[1..];
    }
  }

  lemma {:induction false} InsertKeepsOrder(e: Entry, d: Dict)
    requires AscendingKeys(d)
    requires forall i :: 0 <= i < |d| ==> d[i].0 != e.0
    ensures AscendingKeys(InsertByKey(e, d))
  {
    hide Leq;
    if d == [] {
    } else if Leq(e.0, d[0].0) {
      forall i | 0 <= i < |d| ensures Less(e.0, d[i].0) {
        if i > 0 { LessTransitive(e.0, d[0].0, d[i].0); }
      }
      PrependAscending(e, d);
    } else {
      LeqTotal(e.0, d[0].0);
      InsertKeepsOrder(e, d[1..]);
      InsertKeepsMembers(e, d[1..]);
      var rest := InsertByKey(e, d[1..]);
      forall j | 0 <= j < |rest| ensures Less(d[0].0, rest[j].0) {
        assert rest[j] in multiset(rest);
        if rest[j] != e { assert rest[j] in d[1..]; }
      }
      PrependAscending(d[0], rest);
    }
  }

  lemma {:induction false} SortKeeps(d: Dict)
    requires DistinctKeys(d)
    ensures AscendingKeys(SortByKey(d))
    ensures multiset(SortByKey(d)) == multiset(d)
  {
    if d != [] {
      SortKeeps(d[1..]);
      assert d == [d[0]] + d[1..];
      var rest := SortByKey(d[1..]);
      forall i | 0 <= i < |rest| ensures rest[i].0 != d[0].0 {
        assert rest[i] in multiset(rest);
        assert rest[i] in d[1..];
      }
      InsertKeepsMembers(d[0], rest);
      InsertKeepsOrder(d[0], rest);
    }
  }

  /** Two dicts with distinct keys and the same members denote the same mapping. */
  lemma SameMembersSameMap(a: Dict, b: Dict)
    requires DistinctKeys(a) && DistinctKeys(b) && multiset(a) == multiset(b)
    ensures AsMap(a) == AsMap(b)
  {
    AsMapLookup(a);
    AsMapLookup(b);
    forall k ensures k in AsMap(a) <==> k in AsMap(b) {
      if k in AsMap(a) {
        var i :| 0 <= i < |a| && a[i].0 == k;
        assert a[i] in multiset(b);
      }
      if k in AsMap(b) {
        var i :| 0 <= i < |b| && b[i].0 == k;
        assert b[i] in multiset(a);
      }
    }
    forall k | k in AsMap(a) ensures AsMap(a)[k] == AsMap(b)[k] {
      var i :| 0 <= i < |a| && a[i].0 == k;
      assert a[i] in multiset(b);
      var j :| 0 <= j < |b| && b[j] == a[i];
    }
  }

  lemma KeyListIsSorted(d: Dict, keys: seq<string>)
    requires AscendingKeys(d) && |keys| == |d| && forall i :: 0 <= i < |d| ==> keys[i] == d[i].0
    ensures keys == Sorted(AsMap(d).Keys)
  {
    AsMapLookup(d);
    hide AsMap, Less, Sorted;
    assert Ascending(keys);
    forall k ensures k in keys <==> k in AsMap(d).Keys {
      if k in keys { var i :| 0 <= i < |keys| && keys[i] == k; }
      if k in AsMap(d) {
        var i :| 0 <= i < |d| && d[i].0 == k;
        assert keys[i] == k;
      }
    }
    AscendingUnique(keys, Sorted(AsMap(d).Keys));
  }

  /** Members in ascending key order are determined by the mapping they denote. */
  lemma AscendingIsSorted(d: Dict)
    requires AscendingKeys(d)
    ensures d == SortedEntries(AsMap(d))
  {
    AsMapLookup(d);
    KeyListIsSorted(d, seq(|d|, i requires 0 <= i < |d| => d[i].0));
    hide AsMap, Less, Sorted, AscendingKeys;
    forall i | 0 <= i < |d| ensures d[i] == SortedEntries(AsMap(d))[i] {
      assert d[i].0 == Sorted(AsMap(d).Keys)[i];
    }
  }

  /**
   * The printer ignores insertion order: whatever order the members of a dict were inserted in,
   * it prints the canonical text of the mapping they denote.
   */
  lemma DumpIgnoresOrder(d: Dict, mode: Mode)
    requires DistinctKeys(d)
    ensures Dump(d, mode) == Canonical(AsMap(d), mode)
  {
    SortKeeps(d);
    SameMembersSameMap(d, SortByKey(d));
    AscendingIsSorted(SortByKey(d));
  }

  lemma SortedEntriesAt(m: map<string, string>, k: string) returns (i: int)
    requires k in m
    ensures 0 <= i < |SortedEntries(m)| && SortedEntries(m)[i] == (k, m[k])
  {
    var keys := Sorted(m.Keys);
    assert k in keys;
    i :| 0 <= i < |keys| && keys[i] == k;
  }

  lemma SortedEntriesAscending(m: map<string, string>)
    ensures AscendingKeys(SortedEntries(m)) && DistinctKeys(SortedEntries(m))
    ensures forall i :: 0 <= i < |SortedEntries(m)| ==> SortedEntries(m)[i].0 in m && SortedEntries(m)[i].1 == m[SortedEntries(m)[i].0]
  {
    var keys := Sorted(m.Keys);
    var d := SortedEntries(m);
    forall i | 0 <= i < |d| ensures d[i].0 in m && d[i].1 == m[d[i].0] {
      assert keys[i] in keys;
    }
    forall i, j | 0 <= i < j < |d| ensures Less(d[i].0, d[j].0) {
      assert Less(keys[i], keys[j]);
    }
  }

  lemma SortedEntriesMap(m: map<string, string>)
    ensures AsMap(SortedEntries(m)) == m
  {
    hide SortedEntries, AsMap, AscendingKeys;
    var d := SortedEntries(m);
    SortedEntriesAscending(m);
    AsMapLookup(d);
    forall k ensures k in m <==> k in AsMap(d) {
      if k in m { var i := SortedEntriesAt(m, k); }
    }
    forall k | k in m ensures m[k] == AsMap(d)[k] {
      var i := SortedEntriesAt(m, k);
    }
  }

  // ---------------------------------------------------------------- main results

  /** The parser undoes the printer, in both modes. */
  lemma LoadsUndoesCanonical(m: map<string, string>, mode: Mode)
    ensures Loads(Canonical(m, mode)) == Some(m)
  {
    ObjectRead(SortedEntries(m), mode);
    SortedEntriesMap(m);
  }

  /** One canonical text per mapping: equal texts (even across the two modes) mean equal mappings. */
  lemma CanonicalInjective(a: map<string, string>, aMode: Mode, b: map<string, string>, bMode: Mode)
    ensures Canonical(a, aMode) == Canonical(b, bMode) ==> a == b
  {
    hide Canonical, Loads;
    LoadsUndoesCanonical(a, aMode);
    LoadsUndoesCanonical(b, bMode);
  }

  /**
   * The two routes to the signed text agree. The signer prints p unescaped and signs that text;
   * then it reads its own file, adds one member and publishes an ASCII-escaped message. Whoever
   * reads the message, drops that member and prints the rest unescaped gets the signed text.
   */
  lemma RebuiltTextIsSignedText(p: map<string, string>, key: string, value: string)
    requires key !in p
    ensures Loads(Canonical(p, Raw)) == Some(p)
    ensures var message := Canonical(p[key := value], Ascii);
            && Loads(message) == Some(p[key := value])
            && Canonical(p[key := value] - {key}, Raw) == Canonical(p, Raw)
  {
    hide Canonical, Loads;
    LoadsUndoesCanonical(p, Raw);
    LoadsUndoesCanonical(p[key := value], Ascii);
    assert p[key := value] - {key} == p;
  }

  // ---------------------------------------------------------------- what the text looks like

  /** No control character; nothing beyond ~ either when escaping to ASCII. */
  predicate Printable(s: string, mode: Mode) {
    forall i :: 0 <= i < |s| ==> 0x20 <= s[i] as int && (mode.Ascii? ==> s[i] as int < 0x7F)
  }

  lemma HexDigitPrintable(n: int)
    requires 0 <= n < 16
    ensures 0x20 <= HexDigit(n) as int < 0x7F
  {
  }

  lemma UnicodePrintable(n: int)
    requires 0 <= n < 0x1_0000
    ensures Printable(UnicodeEscape(n), Ascii)
  {
    HexDigitPrintable(n / 0x1000);
    HexDigitPrintable(n / 0x100 % 16);
    HexDigitPrintable(n / 16 % 16);
    HexDigitPrintable(n % 16);
    hide HexDigit;
  }

  lemma JoinPrintable(a: string, b: string, mode: Mode)
    requires Printable(a, mode) && Printable(b, mode)
    ensures Printable(a + b, mode)
  {
  }

  lemma PairPrintable(c: char)
    requires c as int >= 0x1_0000
    ensures Printable(Escape(c, Ascii), Ascii)
  {
    hide UnicodeEscape, Printable;
    var high, low := SurrogatesOf(c);
    UnicodePrintable(high);
    UnicodePrintable(low);
    hide Escape;
    JoinPrintable(UnicodeEscape(high), UnicodeEscape(low), Ascii);
  }

  lemma SurrogatesOf(c: char) returns (high: int, low: int)
    requires c as int >= 0x1_0000
    ensures 0 <= high < 0x1_0000 && 0 <= low < 0x1_0000
    ensures Escape(c, Ascii) == UnicodeEscape(high) + UnicodeEscape(low)
  {
    hide UnicodeEscape;
    var v := c as int - 0x1_0000;
    high, low := 0xD800 + v / 0x400, 0xDC00 + v % 0x400;
  }

  lemma EscapePrintable(c: char, mode: Mode)
    ensures Printable(Escape(c, mode), mode)
  {
    hide UnicodeEscape;
    if c as int >= 0x1_0000 && mode.Ascii? {
      PairPrintable(c);
      hide Printable;
    } else if c as int < 0x1_0000 {
      UnicodePrintable(c as int);
    }
  }

  lemma {:induction false} EscapeAllPrintable(t: string, mode: Mode)
    ensures Printable(EscapeAll(t, mode), mode)
  {
    if t != "" {
      EscapePrintable(t[0], mode);
      EscapeAllPrintable(t[1..], mode);
      hide Escape;
    }
  }

  lemma EntryPrintable(e: Entry, mode: Mode)
    ensures Printable(DumpEntry(e, mode), mode) && Printable(",", mode)
  {
    EscapeAllPrintable(e.0, mode);
    EscapeAllPrintable(e.1, mode);
    hide EscapeAll;
  }

  lemma {:induction false} DumpMembersPrintable(d: Dict, mode: Mode)
    ensures Printable(DumpMembers(d, mode), mode)
  {
    if |d| > 1 {
      EntryPrintable(d[0], mode);
      DumpMembersPrintable(d[1..], mode);
      hide Printable, DumpEntry;
      JoinPrintable(DumpEntry(d[0], mode), ",", mode);
      JoinPrintable(DumpEntry(d[0], mode) + ",", DumpMembers(d[1..], mode), mode);
    } else if |d| == 1 {
      EntryPrintable(d[0], mode);
    }
  }

  /** Canonical texts contain no line break or other control character, and published ones only ASCII. */
  lemma CanonicalIsPrintable(m: map<string, string>, mode: Mode)
    ensures Printable(Canonical(m, mode), mode)
  {
    DumpMembersPrintable(SortedEntries(m), mode);
    hide DumpMembers, SortedEntries;
  }

  /** Text that needs no escape: printable, without quotation mark and backslash. */
  predicate Plain(s: string, mode: Mode) {
    Printable(s, mode) && forall i :: 0 <= i < |s| ==> s[i] != '\"' && s[i] != '\\'
  }

  /** A character keeps its form exactly when it needs no escape. */
  lemma EscapesExactly(c: char, mode: Mode)
    ensures Escape(c, mode) == [c] <==> Plain([c], mode)
  {
    assert [c][0] == c;
    assert Escape(c, mode) != [c] ==> |Escape(c, mode)| >= 2;
  }

  /** The two characters before the digits, and four lower-case hexadecimal digits. */
  predicate UnicodeForm(s: string) {
    |s| == 6 && s[..2] == "\\u" && forall i :: 2 <= i < 6 ==> s[i] in "0123456789abcdef"
  }

  lemma HexDigitLower(n: int)
    requires 0 <= n < 16
    ensures HexDigit(n) in "0123456789abcdef"
  {
  }

  lemma UnicodeEscapeForm(n: int)
    requires 0 <= n < 0x1_0000
    ensures UnicodeForm(UnicodeEscape(n))
  {
    HexDigitLower(n / 0x1000);
    HexDigitLower(n / 0x100 % 16);
    HexDigitLower(n / 16 % 16);
    HexDigitLower(n % 16);
    hide HexDigit;
  }

  /**
   * An escape is a short one exactly for the seven characters that have one, and then that one; any other
   * character that cannot stand for itself becomes one numbered escape or a pair of them.
   */
  lemma EscapeForms(c: char, mode: Mode)
    ensures var s := Escape(c, mode);
            && (|s| == 2 <==> c in {'\"', '\\', '\n', '\r', '\t', '\U{0008}', '\U{000C}'})
            && (|s| == 2 ==> s[0] == '\\' && ShortEscape(s[1]) == Some(c))
            && (|s| == 1 ==> s == [c])
            && (|s| > 2 ==> UnicodeForm(s) || (|s| == 12 && UnicodeForm(s[..6]) && UnicodeForm(s[6..])))
  {
    hide UnicodeEscape, UnicodeForm;
    if c as int >= 0x1_0000 && mode.Ascii? {
      var high, low := SurrogatesOf(c);
      UnicodeEscapeForm(high);
      UnicodeEscapeForm(low);
      assert Escape(c, mode)[..6] == UnicodeEscape(high) && Escape(c, mode)[6..] == UnicodeEscape(low);
    } else if c as int < 0x1_0000 {
      UnicodeEscapeForm(c as int);
    }
  }

  lemma {:induction false} PlainUnchanged(t: string, mode: Mode)
    requires Plain(t, mode)
    ensures EscapeAll(t, mode) == t
  {
    if t != "" {
      EscapesExactly(t[0], mode);
      PlainUnchanged(t[1..], mode);
      hide Escape;
      assert t == [t[0]] + t[1..];
    }
  }

  /** The text of two plain members: lower key first, no space, one comma. */
  lemma TwoMembersText(k: string, v: string, l: string, w: string, mode: Mode)
    requires Plain(k, mode) && Plain(v, mode) && Plain(l, mode) && Plain(w, mode) && k != l && Precedes(k, l)
    ensures Canonical(map[k := v, l := w], mode)
         == "{" + (("\"" + k + "\"" + ":" + ("\"" + v + "\"")) + "," + ("\"" + l + "\"" + ":" + ("\"" + w + "\""))) + "}"
  {
    PlainUnchanged(k, mode);
    PlainUnchanged(v, mode);
    PlainUnchanged(l, mode);
    PlainUnchanged(w, mode);
    TwoMembersSorted(k, v, l, w);
    hide SortedEntries, EscapeAll, Plain, Precedes;
    var d := [(k, v), (l, w)];
    assert d[1..] == [(l, w)];
    assert DumpMembers([(l, w)], mode) == DumpEntry((l, w), mode);
    assert DumpMembers(d, mode) == DumpEntry((k, v), mode) + "," + DumpEntry((l, w), mode);
  }

  lemma TwoMembersSorted(k: string, v: string, l: string, w: string)
    requires k != l && Precedes(k, l)
    ensures SortedEntries(map[k := v, l := w]) == [(k, v), (l, w)]
  {
    var d := [(k, v), (l, w)];
    LeqExactly(k, l);
    AscendingIsSorted(d);
    hide SortedEntries, Leq, Precedes;
    assert d[..1] == [(k, v)] && [(k, v)][..0] == [];
    assert AsMap(d) == map[k := v, l := w];
  }
}
