/**
 * Lexicographic order on sequences of code points or bytes: the order of Python strings and
 * byte strings, and of the keys of an ordered key-value store.
 */
module Lex {
  type Text = seq<nat>

  predicate Lt(a: Text, b: Text) {
    b != [] && (a == [] || a[0] < b[0] || (a[0] == b[0] && Lt(a[1..], b[1..])))
  }

  predicate Le(a: Text, b: Text) {
    a == b || Lt(a, b)
  }

  lemma {:induction false} LtIrreflexive(a: Text)
    ensures !Lt(a, a)
    decreases |a|
  {
    if a != [] { LtIrreflexive(a[1..]); }
  }

  lemma {:induction false} LtTransitive(a: Text, b: Text, c: Text)
    requires Lt(a, b) && Lt(b, c)
    ensures Lt(a, c)
    decreases |a|
  {
    if a != [] && a[0] == b[0] && b[0] == c[0] { LtTransitive(a[1..], b[1..], c[1..]); }
  }

  lemma {:induction false} LtTotal(a: Text, b: Text)
    ensures Lt(a, b) || Lt(b, a) || a == b
    decreases |a|
  {
    if a != [] && b != [] && a[0] == b[0] {
      LtTotal(a[1..], b[1..]);
      if a[1..] == b[1..] { assert a == [a[0]] + a[1..] && b == [b[0]] + b[1..]; }
    }
  }

  lemma LtAsymmetric(a: Text, b: Text)
    requires Lt(a, b)
    ensures !Lt(b, a)
  {
    if Lt(b, a) { LtTransitive(a, b, a); LtIrreflexive(a); }
  }

  // --- Sorted sequences ------------------------------------------------------------------------

  ghost predicate Sorted(s: seq<Text>) {
    forall i, j :: 0 <= i < j < |s| ==> Lt(s[i], s[j])
  }

  ghost predicate SameElements(s: seq<Text>, keys: set<Text>) {
    forall k :: k in s <==> k in keys
  }

  /** Places `k` in a strictly sorted sequence that does not hold it. */
  method Insert(s: seq<Text>, k: Text) returns (r: seq<Text>)
    requires Sorted(s) && k !in s
    ensures Sorted(r) && forall x :: x in r <==> x in s || x == k
  {
    var i := 0;
    while i < |s| && Lt(s[i], k)
      invariant 0 <= i <= |s|
      invariant forall j :: 0 <= j < i ==> Lt(s[j], k)
    {
      i := i + 1;
    }
    forall j | i <= j < |s| ensures Lt(k, s[j]) {
      LtTotal(s[i], k);
      if i < j { LtTransitive(k, s[i], s[j]); }
    }
    r := s[..i] + [k] + s[i..];
    assert s == s[..i] + s[i..];
  }

  /** Python's `sorted` on a set of strings. */
  method SortedKeys(keys: set<Text>) returns (r: seq<Text>)
    ensures Sorted(r) && SameElements(r, keys)
  {
    r := [];
    var todo := keys;
    while todo != {}
      invariant todo <= keys && Sorted(r) && SameElements(r, keys - todo)
      decreases todo
    {
      var k :| k in todo;
      r := Insert(r, k);
      todo := todo - {k};
    }
  }

  lemma EmptyHasNone(a: seq<Text>, b: seq<Text>)
    requires b != [] && forall x :: x in a <==> x in b
    ensures a != []
  {
    assert b[0] in b;
  }

  /** A set has only one strictly sorted enumeration. */
  lemma {:induction false} SortedUnique(a: seq<Text>, b: seq<Text>)
    requires Sorted(a) && Sorted(b) && forall x :: x in a <==> x in b
    ensures a == b
    decreases |a|
  {
    if a == [] {
      if b != [] { EmptyHasNone(a, b); }
    } else {
      assert a[0] in a && a[0] in b;
      assert b[0] in b && b[0] in a;
      var i :| 0 <= i < |b| && b[i] == a[0];
      var j :| 0 <= j < |a| && a[j] == b[0];
      if i > 0 {
        assert Lt(b[0], a[0]);
        assert j > 0 ==> Lt(a[0], b[0]);
        if j > 0 { LtAsymmetric(a[0], b[0]); } else { LtIrreflexive(a[0]); }
      }
      assert a[0] == b[0];
      forall x ensures x in a[1..] <==> x in b[1..] {
        TailMember(a, x);
        TailMember(b, x);
      }
      SortedUnique(a[1..], b[1..]);
      assert a == [a[0]] + a[1..] && b == [b[0]] + b[1..];
    }
  }

  lemma TailMember(a: seq<Text>, x: Text)
    requires Sorted(a) && a != []
    ensures x in a[1..] <==> x in a && x != a[0]
  {
    LtIrreflexive(a[0]);
    if x in a && x != a[0] {
      var i :| 0 <= i < |a| && a[i] == x;
      assert a[1..][i - 1] == x;
    }
  }
}
