/**
 * Strings ordered by code point, as Python's sorted() and Rego's sort() order them,
 * and the strictly ascending list of a finite set of strings.
 */
module StringOrder {

  predicate Leq(a: string, b: string) {
    if a == "" then true
    else if b == "" then false
    else if a[0] != b[0] then a[0] < b[0]
    else Leq(a[1..], b[1..])
  }

  predicate Less(a: string, b: string) {
    a != b && Leq(a, b)
  }

  predicate Ascending(s: seq<string>) {
    forall i, j :: 0 <= i < j < |s| ==> Less(s[i], s[j])
  }

  /** The first position where they differ decides, and a proper beginning comes first. */
  predicate Precedes(a: string, b: string) {
    a <= b || exists n :: 0 <= n < |a| && n < |b| && a[..n] == b[..n] && a[n] < b[n]
  }

  lemma {:induction false} LeqExactly(a: string, b: string)
    ensures Leq(a, b) <==> Precedes(a, b)
  {
    if a != "" && b != "" && a[0] == b[0] {
      LeqExactly(a[1..], b[1..]);
      PrecedesTail(a, b);
    } else if a != "" && b != "" && a[0] < b[0] {
      assert a[..0] == b[..0];
    }
  }

  lemma PrecedesTail(a: string, b: string)
    requires a != "" && b != "" && a[0] == b[0]
    ensures Precedes(a, b) <==> Precedes(a[1..], b[1..])
  {
    var x, y := a[1..], b[1..];
    assert a == [a[0]] + x && b == [b[0]] + y;
    if n :| 0 <= n < |a| && n < |b| && a[..n] == b[..n] && a[n] < b[n] {
      assert a[..n][1..] == x[..n - 1] && b[..n][1..] == y[..n - 1];
      assert x[n - 1] < y[n - 1];
    }
    if n :| 0 <= n < |x| && n < |y| && x[..n] == y[..n] && x[n] < y[n] {
      assert a[..n + 1] == [a[0]] + x[..n] && b[..n + 1] == [b[0]] + y[..n];
      assert a[n + 1] < b[n + 1];
    }
  }

  lemma {:induction false} LeqReflexive(a: string)
    ensures Leq(a, a)
  {
    if a != "" { LeqReflexive(a[1..]); }
  }

  lemma {:induction false} LeqTotal(a: string, b: string)
    ensures Leq(a, b) || Leq(b, a)
  {
    if a != "" && b != "" && a[0] == b[0] { LeqTotal(a[1..], b[1..]); }
  }

  lemma {:induction false} LeqAntisymmetric(a: string, b: string)
    requires Leq(a, b) && Leq(b, a)
    ensures a == b
  {
    if a != "" && b != "" {
      LeqAntisymmetric(a[1..], b[1..]);
      assert a == [a[0]] + a[1..] && b == [b[0]] + b[1..];
    }
  }

  lemma {:induction false} LeqTransitive(a: string, b: string, c: string)
    requires Leq(a, b) && Leq(b, c)
    ensures Leq(a, c)
  {
    if a != "" && b != "" && c != "" && a[0] == b[0] == c[0] { LeqTransitive(a[1..], b[1..], c[1..]); }
  }

  lemma LessTransitive(a: string, b: string, c: string)
    requires Less(a, b) && Leq(b, c)
    ensures Less(a, c)
  {
    LeqTransitive(a, b, c);
    if a == c { LeqAntisymmetric(a, b); }
  }

  /** The least element of a nonempty set. */
  lemma {:induction false} LeastExists(s: set<string>) returns (m: string)
    requires s != {}
    ensures m in s && forall x :: x in s ==> Leq(m, x)
  {
    m :| m in s;
    LeqReflexive(m);
    var rest := s - {m};
    if rest != {} {
      var n := LeastExists(rest);
      LeqTotal(m, n);
      var least := if Leq(m, n) then m else n;
      forall x | x in s ensures Leq(least, x) {
        if x != m {
          assert x in rest;
          if Leq(m, n) { LeqTransitive(m, n, x); }
        }
      }
      m := least;
    } else {
      assert s == {m};
    }
  }

  lemma LeastUnique(s: set<string>, m: string, n: string)
    requires m in s && n in s
    requires (forall x :: x in s ==> Leq(m, x)) && (forall x :: x in s ==> Leq(n, x))
    ensures m == n
  {
    LeqAntisymmetric(m, n);
  }

  function Least(s: set<string>): (m: string)
    requires s != {}
    ensures m in s && forall x :: x in s ==> Leq(m, x)
  {
    assert exists m :: m in s && forall x :: x in s ==> Leq(m, x) by { var w := LeastExists(s); }
    assert forall m, n | m in s && n in s && (forall x :: x in s ==> Leq(m, x)) && (forall x :: x in s ==> Leq(n, x)) :: m == n by {
      forall m, n | m in s && n in s && (forall x :: x in s ==> Leq(m, x)) && (forall x :: x in s ==> Leq(n, x)) ensures m == n {
        LeastUnique(s, m, n);
      }
    }
    var m :| m in s && forall x :: x in s ==> Leq(m, x);
    m
  }

  /** sorted(s): the elements of s, each once, in strictly ascending order. */
  function Sorted(s: set<string>): (r: seq<string>)
    ensures Ascending(r)
    ensures forall x :: x in r <==> x in s
    ensures |r| == |s|
  {
    if s == {} then []
    else
      var m := Least(s);
      [m] + Sorted(s - {m})
  }

  /** A strictly ascending list is determined by its elements. */
  lemma {:induction false} AscendingUnique(a: seq<string>, b: seq<string>)
    requires Ascending(a) && Ascending(b)
    requires forall x :: x in a <==> x in b
    ensures a == b
  {
    HasMember(a);
    HasMember(b);
    if a != [] {
      assert a[0] in b;
      assert b[0] in a;
      HeadIsLeast(a, b[0]);
      HeadIsLeast(b, a[0]);
      LeqAntisymmetric(a[0], b[0]);
      forall x ensures x in a[1..] <==> x in b[1..] {
        TailMembers(a, x);
        TailMembers(b, x);
      }
      AscendingUnique(a[1..], b[1..]);
      assert a == [a[0]] + a[1..] && b == [b[0]] + b[1..];
    }
  }

  lemma HasMember(a: seq<string>)
    ensures a != [] <==> exists x :: x in a
  {
    if a != [] { assert a[0] in a; }
  }

  lemma HeadIsLeast(a: seq<string>, x: string)
    requires Ascending(a) && x in a
    ensures Leq(a[0], x)
  {
    LeqReflexive(x);
    var i :| 0 <= i < |a| && a[i] == x;
    assert i > 0 ==> Less(a[0], a[i]);
  }

  lemma TailMembers(a: seq<string>, x: string)
    requires Ascending(a) && a != []
    ensures x in a[1..] <==> x in a && x != a[0]
  {
    assert a == [a[0]] + a[1..];
    if x in a[1..] {
      var i :| 0 <= i < |a[1..]| && a[1..][i] == x;
      assert Less(a[0], a[i + 1]);
    }
  }
}
