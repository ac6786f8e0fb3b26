/**
 * Digests, stable identifiers and timestamps. The digest function and the calendar are parameters:
 * SHA-256 is taken to be injective, and parsing a formatted instant to give that instant back.
 */
module Identifiers {
  import opened Prelude
  import opened CanonicalJson

  datatype Platform = Platform(sha256: string -> string, format: int -> string, parse: string -> Option<int>)

  ghost predicate Sound(p: Platform) {
    && (forall a, b :: p.sha256(a) == p.sha256(b) ==> a == b)
    && (forall t :: p.parse(p.format(t)) == Some(t))
  }

  /** sha256_hex: the digest of the canonical text of a flat mapping. */
  function Sha256Hex(p: Platform, value: map<string, string>): string {
    p.sha256(Canonical(value, Raw))
  }

  lemma Sha256HexInjective(p: Platform, a: map<string, string>, b: map<string, string>)
    requires Sound(p)
    ensures Sha256Hex(p, a) == Sha256Hex(p, b) ==> a == b
  {
    CanonicalInjective(a, Raw, b, Raw);
  }

  // json.dumps of a tuple of strings, with the default ", " separator and ASCII escapes
  function JsonTail(values: seq<string>): string {
    if values == [] then "]"
    else ", " + (Quote(values[0], Ascii) + JsonTail(values[1..]))
  }

  function JsonArray(values: seq<string>): string {
    if values == [] then "[]"
    else "[" + (Quote(values[0], Ascii) + JsonTail(values[1..]))
  }

  function StableId(p: Platform, prefix: string, values: seq<string>): string {
    prefix + ":" + p.sha256(JsonArray(values))
  }

  /** s.split(":", 1): the text before the first colon and the text after it. */
  function SplitAtColon(s: string): (string, string) {
    if s == "" then ("", "")
    else if s[0] == ':' then ("", s[1..])
    else
      var (before, after) := SplitAtColon(s[1..]);
      ([s[0]] + before, after)
  }

  /** The closing quotation mark of a quoted string can be found again. */
  lemma QuotePrefix(a: string, x: string, b: string, y: string)
    requires Quote(a, Ascii) + x == Quote(b, Ascii) + y
    ensures a == b && x == y
  {
    QuoteRead(a, Ascii, x);
    QuoteRead(b, Ascii, y);
  }

  lemma TailStart(values: seq<string>)
    ensures JsonTail(values) != "" && JsonTail(values)[0] == (if values == [] then ']' else ',')
    ensures values != [] ==> JsonTail(values)[2..] == Quote(values[0], Ascii) + JsonTail(values[1..])
  {
  }

  lemma {:induction false} JsonTailInjective(a: seq<string>, b: seq<string>)
    requires JsonTail(a) == JsonTail(b)
    ensures a == b
  {
    TailStart(a);
    TailStart(b);
    if a != [] {
      QuotePrefix(a[0], JsonTail(a[1..]), b[0], JsonTail(b[1..]));
      JsonTailInjective(a[1..], b[1..]);
      assert a == [a[0]] + a[1..] && b == [b[0]] + b[1..];
    }
  }

  lemma JsonArrayInjective(a: seq<string>, b: seq<string>)
    requires JsonArray(a) == JsonArray(b)
    ensures a == b
  {
    assert a != [] ==> JsonArray(a)[1..] == Quote(a[0], Ascii) + JsonTail(a[1..]);
    assert b != [] ==> JsonArray(b)[1..] == Quote(b[0], Ascii) + JsonTail(b[1..]);
    assert a == [] ==> JsonArray(a)[1] == ']';
    assert b == [] ==> JsonArray(b)[1] == ']';
    if a != [] && b != [] {
      QuotePrefix(a[0], JsonTail(a[1..]), b[0], JsonTail(b[1..]));
      JsonTailInjective(a[1..], b[1..]);
      assert a == [a[0]] + a[1..] && b == [b[0]] + b[1..];
    }
  }

  lemma {:induction false} SplitUndoesPrefix(prefix: string, rest: string)
    requires ':' !in prefix
    ensures SplitAtColon(prefix + ":" + rest) == (prefix, rest)
  {
    var s := prefix + ":" + rest;
    if prefix == "" {
      assert s[1..] == rest;
    } else {
      assert s[1..] == prefix[1..] + ":" + rest;
      SplitUndoesPrefix(prefix[1..], rest);
      assert prefix == [prefix[0]] + prefix[1..];
    }
  }

  /** A stable id determines its prefix and every value it was made from. */
  lemma StableIdInjective(p: Platform, prefix: string, values: seq<string>, prefix': string, values': seq<string>)
    requires Sound(p) && ':' !in prefix && ':' !in prefix'
    ensures StableId(p, prefix, values) == StableId(p, prefix', values') ==> prefix == prefix' && values == values'
  {
    if StableId(p, prefix, values) == StableId(p, prefix', values') {
      SplitUndoesPrefix(prefix, p.sha256(JsonArray(values)));
      SplitUndoesPrefix(prefix', p.sha256(JsonArray(values')));
      JsonArrayInjective(values, values');
    }
  }

  /** The id of two plain values: the digest of their array, with the separators json.dumps uses by default. */
  lemma StableIdText(p: Platform, prefix: string, a: string, b: string)
    requires Plain(a, Ascii) && Plain(b, Ascii)
    ensures StableId(p, prefix, [a, b]) == prefix + ":" + p.sha256("[" + ("\"" + a + "\"" + (", " + ("\"" + b + "\"" + "]"))))
  {
    PlainUnchanged(a, Ascii);
    PlainUnchanged(b, Ascii);
    assert [a, b][1..] == [b] && [b][1..] == [];
    hide Plain, EscapeAll;
    assert JsonTail([b]) == ", " + (Quote(b, Ascii) + JsonTail([]));
    assert JsonArray([a, b]) == "[" + (Quote(a, Ascii) + JsonTail([b]));
  }
}
