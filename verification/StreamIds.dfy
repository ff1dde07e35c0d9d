/**
 * Stream ids (node/runtime/phase.py:358): a fork names its `idx`-th child by appending "/b" and the
 * decimal index to the parent's id. Ids that are not below one another stay so under forking.
 */
module StreamIds {
  import opened Sequences

  function Digit(d: nat): char
    requires d < 10
  {
    '0' + d as char
  }

  /** `str(n)` */
  function Decimal(n: nat): (s: string)
    ensures s != [] && forall c :: c in s ==> '0' <= c <= '9'
  {
    if n < 10 then [Digit(n)] else Decimal(n / 10) + [Digit(n % 10)]
  }

  lemma {:induction false} DecimalInjective(m: nat, n: nat)
    requires Decimal(m) == Decimal(n)
    ensures m == n
  {
    var s := Decimal(m);
    assert s[|s| - 1] == Digit(m % 10) == Digit(n % 10);
    if m >= 10 && n >= 10 {
      assert Decimal(m / 10) == s[..|s| - 1] == Decimal(n / 10);
      DecimalInjective(m / 10, n / 10);
    }
  }

  function ChildId(parent: string, i: nat): string {
    parent + "/b" + Decimal(i)
  }

  /** `s` is the stream `base` or named below it. */
  predicate Under(s: string, base: string) {
    s == base || StartsWith(s, base + "/")
  }

  predicate Apart(a: string, b: string) {
    !Under(a, b) && !Under(b, a)
  }

  /** The children of one fork have different ids, and none of them is below another. */
  lemma {:induction false} ChildrenApart(parent: string, i: nat, j: nat)
    requires i != j
    ensures Apart(ChildId(parent, i), ChildId(parent, j))
  {
    ChildNotUnder(parent, i, j);
    ChildNotUnder(parent, j, i);
  }

  lemma {:induction false} ChildNotUnder(parent: string, i: nat, j: nat)
    requires i != j
    ensures !Under(ChildId(parent, i), ChildId(parent, j))
  {
    var stem := parent + "/b";
    var a, b := stem + Decimal(i), stem + Decimal(j);
    assert a[|stem|..] == Decimal(i) && b[|stem|..] == Decimal(j);
    if a == b { DecimalInjective(i, j); }
    forall k | |stem| <= k < |a| ensures a[k] != '/' { assert a[k] in Decimal(i); }
    assert (b + "/")[|b|] == '/';
  }

  lemma {:induction false} UnderTransitive(a: string, b: string, c: string)
    requires Under(a, b) && Under(b, c)
    ensures Under(a, c)
  {
    if a != b && b != c {
      assert a[..|b| + 1][..|c| + 1] == b[..|c| + 1];
    }
  }

  /** A child is below its parent, and its parent is not below it. */
  lemma {:induction false} ChildUnder(parent: string, i: nat)
    ensures Under(ChildId(parent, i), parent) && !Under(parent, ChildId(parent, i))
  {
    assert ChildId(parent, i)[..|parent| + 1] == parent + "/";
  }

  /** Whoever is apart from a stream is apart from every child of it. */
  lemma {:induction false} ApartFromChild(x: string, parent: string, i: nat)
    requires Apart(x, parent)
    ensures Apart(x, ChildId(parent, i))
  {
    var child := ChildId(parent, i);
    ChildUnder(parent, i);
    if Under(x, child) { UnderTransitive(x, child, parent); }
    if Under(child, x) { CommonBelow(child, x, parent); }
  }

  /** Two streams that have something below both are not apart. */
  lemma {:induction false} CommonBelow(low: string, a: string, b: string)
    requires Under(low, a) && Under(low, b)
    ensures !Apart(a, b)
  {
    if low != a && low != b {
      assert low[..|a| + 1] == a + "/" && low[..|b| + 1] == b + "/";
      if |a| <= |b| { Shorter(low, a, b); } else { Shorter(low, b, a); }
    }
  }

  lemma {:induction false} Shorter(low: string, a: string, b: string)
    requires StartsWith(low, a + "/") && StartsWith(low, b + "/") && |a| <= |b|
    ensures Under(b, a)
  {
    assert low[..|a|] == (a + "/")[..|a|] == a;
    assert low[..|b|] == (b + "/")[..|b|] == b;
    if |a| == |b| {
      assert a == b;
    } else {
      assert b[..|a| + 1] == low[..|b|][..|a| + 1] == low[..|a| + 1] == a + "/";
    }
  }
}
