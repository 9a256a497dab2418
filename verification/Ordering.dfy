/** Strict total orders, the lexicographic order Python uses on strings and tuples, and the sorted
    enumeration of a finite set. */
module Ordering {

  ghost predicate StrictTotal<T(!new)>(lt: (T, T) -> bool) {
    && (forall x :: !lt(x, x))
    && (forall x, y, z :: lt(x, y) && lt(y, z) ==> lt(x, z))
    && (forall x, y :: x == y || lt(x, y) || lt(y, x))
  }

  ghost predicate Sorted<T>(lt: (T, T) -> bool, q: seq<T>) {
    forall i, j :: 0 <= i < j < |q| ==> lt(q[i], q[j])
  }

  function Elements<T>(q: seq<T>): set<T> {
    set x | x in q
  }

  // Lexicographic order

  predicate Lex<T(==)>(lt: (T, T) -> bool, a: seq<T>, b: seq<T>) {
    if b == [] then false
    else if a == [] then true
    else if a[0] == b[0] then Lex(lt, a[1..], b[1..])
    else lt(a[0], b[0])
  }

  lemma {:induction false} LexIrreflexive<T(!new)>(lt: (T, T) -> bool, a: seq<T>)
    ensures !Lex(lt, a, a)
  {
    if a != [] {
      LexIrreflexive(lt, a[1..]);
    }
  }

  lemma {:induction false} LexTransitive<T(!new)>(lt: (T, T) -> bool, a: seq<T>, b: seq<T>, c: seq<T>)
    requires StrictTotal(lt)
    requires Lex(lt, a, b) && Lex(lt, b, c)
    ensures Lex(lt, a, c)
  {
    if a != [] && a[0] == b[0] == c[0] {
      LexTransitive(lt, a[1..], b[1..], c[1..]);
    }
  }

  lemma {:induction false} LexConnected<T(!new)>(lt: (T, T) -> bool, a: seq<T>, b: seq<T>)
    requires StrictTotal(lt)
    ensures a == b || Lex(lt, a, b) || Lex(lt, b, a)
  {
    if a != [] && b != [] && a[0] == b[0] {
      LexConnected(lt, a[1..], b[1..]);
      if a[1..] == b[1..] {
        assert a == [a[0]] + a[1..];
        assert b == [b[0]] + b[1..];
      }
    }
  }

  /** The two sequences agree before n, and there a ends first or holds the smaller element. */
  ghost predicate FirstDifference<T>(lt: (T, T) -> bool, a: seq<T>, b: seq<T>, n: nat) {
    && n <= |a| && n < |b| && a[..n] == b[..n]
    && (n == |a| || (a[n] != b[n] && lt(a[n], b[n])))
  }

  /** The order is the dictionary order: what counts is the first difference, and a proper prefix comes first. */
  lemma {:induction false} LexIsDictionary<T>(lt: (T, T) -> bool, a: seq<T>, b: seq<T>)
    ensures Lex(lt, a, b) <==> exists n :: FirstDifference(lt, a, b, n)
  {
    if b != [] {
      if a == [] || a[0] != b[0] {
        assert a[..0] == b[..0];
        assert FirstDifference(lt, a, b, 0) <==> Lex(lt, a, b);
        forall n: nat ensures n > 0 ==> !FirstDifference(lt, a, b, n) {
          AgreeAtStart(lt, a, b, n);
        }
      } else {
        LexIsDictionary(lt, a[1..], b[1..]);
        forall n: nat ensures FirstDifference(lt, a, b, n + 1) <==> FirstDifference(lt, a[1..], b[1..], n) {
          ShiftedDifference(lt, a, b, n);
        }
        assert !FirstDifference(lt, a, b, 0);
        if n: nat :| FirstDifference(lt, a[1..], b[1..], n) {
          assert FirstDifference(lt, a, b, n + 1);
        }
        if n: nat :| FirstDifference(lt, a, b, n) {
          assert FirstDifference(lt, a, b, (n - 1) + 1);
          assert FirstDifference(lt, a[1..], b[1..], n - 1);
        }
      }
    }
  }

  lemma AgreeAtStart<T>(lt: (T, T) -> bool, a: seq<T>, b: seq<T>, n: nat)
    ensures n > 0 && FirstDifference(lt, a, b, n) ==> a != [] && b != [] && a[0] == b[0]
  {
    if 0 < n <= |a| && n <= |b| && a[..n] == b[..n] {
      assert a[0] == a[..n][0] == b[..n][0] == b[0];
    }
  }

  lemma ShiftedDifference<T>(lt: (T, T) -> bool, a: seq<T>, b: seq<T>, n: nat)
    requires a != [] && b != [] && a[0] == b[0]
    ensures FirstDifference(lt, a, b, n + 1) <==> FirstDifference(lt, a[1..], b[1..], n)
  {
    if n + 1 <= |a| && n + 1 < |b| {
      assert a[..n + 1] == [a[0]] + a[1..][..n];
      assert b[..n + 1] == [b[0]] + b[1..][..n];
      if a[..n + 1] == b[..n + 1] {
        assert a[1..][..n] == a[..n + 1][1..] == b[..n + 1][1..] == b[1..][..n];
      }
    }
  }

  // Sorted enumeration of a set

  predicate IsMin<T(==)>(lt: (T, T) -> bool, m: T, s: set<T>) {
    m in s && forall x :: x in s ==> x == m || lt(m, x)
  }

  lemma {:induction false} MinExists<T(!new)>(lt: (T, T) -> bool, s: set<T>)
    requires StrictTotal(lt) && s != {}
    ensures exists m :: IsMin(lt, m, s)
  {
    var x :| x in s;
    if s == {x} {
      assert IsMin(lt, x, s);
    } else {
      var rest := s - {x};
      assert s == {x} + rest;
      MinExists(lt, rest);
      var m :| IsMin(lt, m, rest);
      var least := if lt(x, m) then x else m;
      forall y | y in s ensures y == least || lt(least, y) {
        assert y == x || y in rest;
      }
      assert IsMin(lt, least, s);
    }
  }

  function Min<T(==, !new)>(lt: (T, T) -> bool, s: set<T>): (m: T)
    requires StrictTotal(lt) && s != {}
    ensures IsMin(lt, m, s)
  {
    MinExists(lt, s);
    var m :| IsMin(lt, m, s) && m in s;
    m
  }

  /** `sorted(s)`: the elements of s in increasing order. */
  function SortedSeq<T(==, !new)>(lt: (T, T) -> bool, s: set<T>): (q: seq<T>)
    requires StrictTotal(lt)
    ensures Sorted(lt, q)
    ensures Elements(q) == s
  {
    if s == {} then []
    else
      var m := Min(lt, s);
      var rest := SortedSeq(lt, s - {m});
      assert forall x :: x in Elements([m] + rest) <==> x == m || x in Elements(rest);
      [m] + rest
  }

  lemma NonEmptyElements<T>(q: seq<T>)
    ensures q != [] <==> Elements(q) != {}
  {
    if q != [] {
      assert q[0] in Elements(q);
    }
  }

  /** A set has only one increasing enumeration. */
  lemma {:induction false} SortedUnique<T(!new)>(lt: (T, T) -> bool, p: seq<T>, q: seq<T>)
    requires StrictTotal(lt)
    requires Sorted(lt, p) && Sorted(lt, q) && Elements(p) == Elements(q)
    ensures p == q
  {
    NonEmptyElements(p);
    NonEmptyElements(q);
    if p != [] {
      assert p[0] in Elements(p);
      assert q[0] in Elements(p) by {
        assert q[0] in Elements(q);
      }
      assert p[0] == q[0];
      forall x
        ensures x in Elements(p[1..]) <==> x in Elements(q[1..])
      {
        assert x in Elements(p) <==> x == p[0] || x in Elements(p[1..]);
        assert x in Elements(q) <==> x == q[0] || x in Elements(q[1..]);
        assert p[0] !in p[1..] && q[0] !in q[1..];
      }
      SortedUnique(lt, p[1..], q[1..]);
      assert p == [p[0]] + p[1..] && q == [q[0]] + q[1..];
    }
  }

  // Instances

  predicate CharLess(x: char, y: char) {
    x < y
  }

  predicate StringLess(a: string, b: string) {
    Lex(CharLess, a, b)
  }

  /** Python's order on 2-tuples of strings. */
  predicate PairLess(p: (string, string), q: (string, string)) {
    StringLess(p.0, q.0) || (p.0 == q.0 && StringLess(p.1, q.1))
  }

  predicate ItemsLess(a: seq<(string, string)>, b: seq<(string, string)>) {
    Lex(PairLess, a, b)
  }

  /** Strings in dictionary order of their characters. */
  lemma StringLessIsDictionary(a: string, b: string)
    ensures StringLess(a, b) <==>
              exists n :: 0 <= n <= |a| && n < |b| && a[..n] == b[..n] && (n == |a| || a[n] < b[n])
  {
    LexIsDictionary(CharLess, a, b);
    if n: nat :| FirstDifference(CharLess, a, b, n) {
      assert 0 <= n <= |a| && n < |b| && a[..n] == b[..n] && (n == |a| || a[n] < b[n]);
    }
    if n :| 0 <= n <= |a| && n < |b| && a[..n] == b[..n] && (n == |a| || a[n] < b[n]) {
      assert FirstDifference(CharLess, a, b, n);
    }
  }

  lemma StringLessTotal()
    ensures StrictTotal(StringLess)
  {
    forall a: string ensures !StringLess(a, a) { LexIrreflexive(CharLess, a); }
    forall a: string, b: string, c: string | StringLess(a, b) && StringLess(b, c) ensures StringLess(a, c) {
      LexTransitive(CharLess, a, b, c);
    }
    forall a: string, b: string ensures a == b || StringLess(a, b) || StringLess(b, a) {
      LexConnected(CharLess, a, b);
    }
  }

  lemma PairLessTotal()
    ensures StrictTotal(PairLess)
  {
    StringLessTotal();
    forall x: (string, string), y: (string, string), z: (string, string) | PairLess(x, y) && PairLess(y, z)
      ensures PairLess(x, z)
    {
      assert StringLess(x.0, y.0) && StringLess(y.0, z.0) ==> StringLess(x.0, z.0);
      assert StringLess(x.1, y.1) && StringLess(y.1, z.1) ==> StringLess(x.1, z.1);
    }
    forall x: (string, string), y: (string, string) ensures x == y || PairLess(x, y) || PairLess(y, x) {
      assert x.0 == y.0 || StringLess(x.0, y.0) || StringLess(y.0, x.0);
      assert x.1 == y.1 || StringLess(x.1, y.1) || StringLess(y.1, x.1);
    }
  }

  lemma ItemsLessTotal()
    ensures StrictTotal(ItemsLess)
  {
    PairLessTotal();
    forall a: seq<(string, string)> ensures !ItemsLess(a, a) { LexIrreflexive(PairLess, a); }
    forall a: seq<(string, string)>, b: seq<(string, string)>, c: seq<(string, string)>
      | ItemsLess(a, b) && ItemsLess(b, c)
      ensures ItemsLess(a, c)
    {
      LexTransitive(PairLess, a, b, c);
    }
    forall a: seq<(string, string)>, b: seq<(string, string)> ensures a == b || ItemsLess(a, b) || ItemsLess(b, a) {
      LexConnected(PairLess, a, b);
    }
  }
}
