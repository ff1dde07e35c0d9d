/**
 * `BranchController._slice_fuel` (node/runtime/phase.py): how a fork divides its fuel. Ratios are
 * exact reals, so rounding is only the truncation the code asks for.
 */
module FuelSlices {
  import opened Wrappers

  function SumInts(s: seq<int>): int {
    if s == [] then 0 else SumInts(s[..|s| - 1]) + s[|s| - 1]
  }

  function SumReals(s: seq<real>): real {
    if s == [] then 0.0 else SumReals(s[..|s| - 1]) + s[|s| - 1]
  }

  /** Python's `int(x)`: truncation toward zero. */
  function Trunc(x: real): int {
    if x >= 0.0 then x.Floor else -(-x).Floor
  }

  /** `divmod` shares: the first `total % count` branches get one unit more. */
  function EqualShares(total: int, count: nat): (s: seq<int>)
    requires count > 0
    ensures |s| == count
  {
    seq(count, i requires 0 <= i < count => total / count + (if i < total % count then 1 else 0))
  }

  /** The exact part of `total` that one ratio earns. */
  function Part(total: int, ratio: real, whole: real): real
    requires whole != 0.0
  {
    total as real * (ratio / whole)
  }

  function Truncated(total: int, ratios: seq<real>, whole: real): (s: seq<int>)
    requires whole != 0.0
    ensures |s| == |ratios|
  {
    seq(|ratios|, i requires 0 <= i < |ratios| => Trunc(Part(total, ratios[i], whole)))
  }

  /** Truncated shares, with what truncation lost added to the first one. */
  function RatioShares(total: int, ratios: seq<real>): (s: seq<int>)
    requires ratios != [] && SumReals(ratios) != 0.0
    ensures |s| == |ratios|
  {
    var t := Truncated(total, ratios, SumReals(ratios));
    t[0 := t[0] + (total - SumInts(t))]
  }

  /** `_slice_fuel`; None is the ZeroDivisionError. */
  function SliceFuel(total: int, count: nat, ratios: seq<real>): Option<seq<int>> {
    if ratios == [] then
      if count == 0 then None else Some(EqualShares(total, count))
    else if SumReals(ratios) == 0.0 then None
    else Some(RatioShares(total, ratios))
  }

  lemma {:induction false} SumIntsSnoc(s: seq<int>, x: int)
    ensures SumInts(s + [x]) == SumInts(s) + x
  {
    assert (s + [x])[..|s|] == s;
  }

  lemma {:induction false} SumIntsUpdate(s: seq<int>, i: nat, x: int)
    requires i < |s|
    ensures SumInts(s[i := x]) == SumInts(s) - s[i] + x
    decreases |s|
  {
    var n := |s| - 1;
    if i < n {
      assert s[i := x][..n] == s[..n][i := x];
      SumIntsUpdate(s[..n], i, x);
    } else {
      assert s[i := x][..n] == s[..n];
    }
  }

  lemma {:induction false} SumIntsSplit(s: seq<int>, n: nat)
    requires n <= |s|
    ensures SumInts(s) == SumInts(s[..n]) + SumInts(s[n..])
    decreases |s| - n
  {
    if n == |s| {
      assert s[..n] == s;
    } else {
      var m := |s| - 1;
      SumIntsSplit(s[..m], n);
      assert s[..m][..n] == s[..n] && s[..m][n..] == s[n..][..m - n];
    }
  }

  lemma {:induction false} SumIntsNonNegative(s: seq<int>)
    requires forall i :: 0 <= i < |s| ==> s[i] >= 0
    ensures SumInts(s) >= 0
    ensures SumInts(s) == 0 <==> forall i :: 0 <= i < |s| ==> s[i] == 0
    decreases |s|
  {
    if s != [] { SumIntsNonNegative(s[..|s| - 1]); }
  }

  /** The first `k` of `count` equal shares. */
  lemma {:induction false} EqualPrefixSum(total: int, count: nat, k: nat)
    requires 0 < count && k <= count
    ensures SumInts(EqualShares(total, count)[..k])
         == k * (total / count) + (if k < total % count then k else total % count)
    decreases k
  {
    if k > 0 {
      var s := EqualShares(total, count);
      EqualPrefixSum(total, count, k - 1);
      assert s[..k][..k - 1] == s[..k - 1];
    }
  }

  lemma {:induction false} EqualSum(total: int, count: nat)
    requires count > 0
    ensures SumInts(EqualShares(total, count)) == total
  {
    EqualPrefixSum(total, count, count);
    assert EqualShares(total, count)[..count] == EqualShares(total, count);
  }

  lemma {:induction false} RatioSum(total: int, ratios: seq<real>)
    requires ratios != [] && SumReals(ratios) != 0.0
    ensures SumInts(RatioShares(total, ratios)) == total
  {
    var t := Truncated(total, ratios, SumReals(ratios));
    SumIntsUpdate(t, 0, t[0] + (total - SumInts(t)));
  }

  /** Whatever is asked, the shares add up to the fuel that was there. */
  lemma {:induction false} SharesAddUp(total: int, count: nat, ratios: seq<real>)
    requires SliceFuel(total, count, ratios).Some?
    ensures SumInts(SliceFuel(total, count, ratios).value) == total
    ensures ratios == [] ==> forall i, j :: 0 <= i < count && 0 <= j < count ==>
      SliceFuel(total, count, ratios).value[i] - SliceFuel(total, count, ratios).value[j] <= 1
  {
    if ratios == [] { EqualSum(total, count); } else { RatioSum(total, ratios); }
  }

  // --- Ratios ----------------------------------------------------------------------------------------

  ghost predicate NonNegative(ratios: seq<real>) {
    forall i :: 0 <= i < |ratios| ==> ratios[i] >= 0.0
  }

  lemma {:induction false} SumRealsNonNegative(ratios: seq<real>)
    requires NonNegative(ratios)
    ensures SumReals(ratios) >= 0.0
    decreases |ratios|
  {
    if ratios != [] { SumRealsNonNegative(ratios[..|ratios| - 1]); }
  }

  lemma PartNonNegative(total: int, ratio: real, whole: real)
    requires total >= 0 && ratio >= 0.0 && whole > 0.0
    ensures Part(total, ratio, whole) >= 0.0
  {
    var q := ratio / whole;
    assert q >= 0.0;
  }

  lemma PartAdds(total: int, a: real, b: real, whole: real)
    requires whole != 0.0
    ensures Part(total, a + b, whole) == Part(total, a, whole) + Part(total, b, whole)
  {
    var x, y := a / whole, b / whole;
    assert (a + b) / whole == x + y;
    MulAdds(total as real, x, y);
  }

  lemma MulAdds(t: real, x: real, y: real)
    ensures t * (x + y) == t * x + t * y
  {
  }

  lemma PartOfWhole(total: int, whole: real)
    requires whole != 0.0
    ensures Part(total, whole, whole) == total as real && Part(total, 0.0, whole) == 0.0
  {
    DivSelf(whole);
    assert 0.0 / whole == 0.0;
  }

  lemma DivSelf(w: real)
    requires w != 0.0
    ensures w / w == 1.0
  {
  }

  function Parts(total: int, ratios: seq<real>, whole: real): (p: seq<real>)
    requires whole != 0.0
    ensures |p| == |ratios|
  {
    seq(|ratios|, i requires 0 <= i < |ratios| => Part(total, ratios[i], whole))
  }

  lemma {:induction false} PartsSum(total: int, ratios: seq<real>, whole: real)
    requires whole != 0.0
    ensures SumReals(Parts(total, ratios, whole)) == Part(total, SumReals(ratios), whole)
    decreases |ratios|
  {
    if ratios == [] {
      PartOfWhole(total, whole);
    } else {
      var n := |ratios| - 1;
      PartsSum(total, ratios[..n], whole);
      assert Parts(total, ratios, whole)[..n] == Parts(total, ratios[..n], whole);
      PartAdds(total, SumReals(ratios[..n]), ratios[n], whole);
    }
  }

  function Floors(parts: seq<real>): (s: seq<int>)
    ensures |s| == |parts|
  {
    seq(|parts|, i requires 0 <= i < |parts| => parts[i].Floor)
  }

  lemma {:induction false} FloorsSum(parts: seq<real>)
    ensures SumInts(Floors(parts)) as real <= SumReals(parts) <= SumInts(Floors(parts)) as real + |parts| as real
    decreases |parts|
  {
    if parts != [] {
      var n := |parts| - 1;
      FloorsSum(parts[..n]);
      assert Floors(parts)[..n] == Floors(parts[..n]);
    }
  }

  /**
   * Sharing by non-negative ratios: no share is negative; every share but the first is its exact
   * part rounded down, and the first gets the rest, at most one unit per ratio more.
   */
  lemma {:induction false} RatioSharesClose(total: int, ratios: seq<real>)
    requires total >= 0 && ratios != [] && NonNegative(ratios) && SumReals(ratios) != 0.0
    ensures var s, whole := RatioShares(total, ratios), SumReals(ratios);
            && (forall i :: 0 <= i < |s| ==> s[i] >= 0)
            && (forall i :: 0 < i < |s| ==> s[i] == Part(total, ratios[i], whole).Floor)
            && Part(total, ratios[0], whole).Floor <= s[0] <= Part(total, ratios[0], whole).Floor + |ratios|
  {
    var whole := SumReals(ratios);
    SumRealsNonNegative(ratios);
    var t, parts := Truncated(total, ratios, whole), Parts(total, ratios, whole);
    forall i | 0 <= i < |t| ensures parts[i] >= 0.0 && t[i] == parts[i].Floor {
      PartNonNegative(total, ratios[i], whole);
    }
    assert t == Floors(parts);
    FloorsSum(parts);
    PartsSum(total, ratios, whole);
    PartOfWhole(total, whole);
    assert SumInts(t) <= total <= SumInts(t) + |ratios|;
  }

  /** What the ratios from `from` on earn, truncated: no later share is anything else. */
  function EarnedFrom(total: int, ratios: seq<real>, from: nat): int {
    if from >= |ratios| || SumReals(ratios) == 0.0 then 0
    else SumInts(Truncated(total, ratios, SumReals(ratios))[from..])
  }

  lemma TruncNegativeIff(x: real)
    ensures Trunc(x) < 0 <==> x <= -1.0
  {
  }

  /**
   * For any ratios, negative ones included: no share is negative if and only if every ratio but
   * the first earns more than -1 and together they earn no more than the total. Equal shares are
   * non-negative if and only if the total is.
   */
  lemma {:induction false} SharesNonNegativeIff(total: int, count: nat, ratios: seq<real>)
    requires SliceFuel(total, count, ratios).Some?
    ensures var s := SliceFuel(total, count, ratios).value;
            (forall i :: 0 <= i < |s| ==> s[i] >= 0) <==>
              if ratios == [] then total >= 0
              else
                && (forall i :: 0 < i < |ratios| ==> Part(total, ratios[i], SumReals(ratios)) > -1.0)
                && EarnedFrom(total, ratios, 1) <= total
  {
    var s := SliceFuel(total, count, ratios).value;
    if ratios == [] {
      if total < 0 { assert s[count - 1] < 0; }
    } else {
      FirstShare(total, ratios);
      forall i | 0 < i < |s| ensures s[i] < 0 <==> Part(total, ratios[i], SumReals(ratios)) <= -1.0 {
        TruncNegativeIff(Part(total, ratios[i], SumReals(ratios)));
      }
    }
  }

  /** The first share is what the others leave of the total. */
  lemma {:induction false} FirstShare(total: int, ratios: seq<real>)
    requires ratios != [] && SumReals(ratios) != 0.0
    ensures RatioShares(total, ratios)[0] == total - EarnedFrom(total, ratios, 1)
  {
    var t := Truncated(total, ratios, SumReals(ratios));
    SumIntsSplit(t, 1);
    assert t[..1] == [] + [t[0]];
    SumIntsSnoc([], t[0]);
    if |ratios| == 1 { assert t[1..] == []; }
  }

  lemma {:induction false} SharesNonNegative(total: int, count: nat, ratios: seq<real>)
    requires total >= 0 && NonNegative(ratios) && SliceFuel(total, count, ratios).Some?
    ensures forall i :: 0 <= i < |SliceFuel(total, count, ratios).value| ==>
            SliceFuel(total, count, ratios).value[i] >= 0
  {
    if ratios != [] { RatioSharesClose(total, ratios); }
  }

  // --- What the fork hands out -------------------------------------------------------------------------

  /** `zip(branch_targets, allocations)` drops the shares beyond the last target. */
  function HandedOut(shares: seq<int>, targets: nat): seq<int> {
    if targets < |shares| then shares[..targets] else shares
  }

  function Dropped(shares: seq<int>, targets: nat): seq<int> {
    if targets < |shares| then shares[targets..] else []
  }

  /**
   * Every ratio of a later target earns more than -1, and the ratios but the first, surplus ones
   * included, together earn no more than the total. Without ratios: the total is not negative.
   */
  ghost predicate TargetsSolvent(total: int, targets: nat, ratios: seq<real>) {
    if ratios == [] then total >= 0
    else SumReals(ratios) != 0.0
         && (forall i :: 0 < i < |ratios| && i < targets ==> Part(total, ratios[i], SumReals(ratios)) > -1.0)
         && EarnedFrom(total, ratios, 1) <= total
  }

  /** For any ratios, negative ones included: no target gets a negative share exactly under that condition. */
  lemma {:induction false} HandedOutNonNegativeIff(total: int, targets: nat, ratios: seq<real>)
    requires targets > 0 && SliceFuel(total, targets, ratios).Some?
    ensures var h := HandedOut(SliceFuel(total, targets, ratios).value, targets);
            (forall i :: 0 <= i < |h| ==> h[i] >= 0) <==> TargetsSolvent(total, targets, ratios)
  {
    var s := SliceFuel(total, targets, ratios).value;
    var h := HandedOut(s, targets);
    if ratios == [] {
      if total < 0 { assert h[targets - 1] < 0; }
    } else {
      FirstShare(total, ratios);
      forall i | 0 < i < |h| ensures h[i] < 0 <==> Part(total, ratios[i], SumReals(ratios)) <= -1.0 {
        TruncNegativeIff(Part(total, ratios[i], SumReals(ratios)));
      }
    }
  }

  /** The shares handed out are the fuel minus the dropped ones. */
  lemma {:induction false} HandedOutSum(total: int, targets: nat, ratios: seq<real>)
    requires SliceFuel(total, targets, ratios).Some?
    ensures var s := SliceFuel(total, targets, ratios).value;
            SumInts(HandedOut(s, targets)) == total - SumInts(Dropped(s, targets))
  {
    var s := SliceFuel(total, targets, ratios).value;
    SharesAddUp(total, targets, ratios);
    if targets < |s| { SumIntsSplit(s, targets); }
  }

  lemma {:induction false} DroppedIsEarned(total: int, targets: nat, ratios: seq<real>)
    requires targets > 0 && SliceFuel(total, targets, ratios).Some?
    ensures SumInts(Dropped(SliceFuel(total, targets, ratios).value, targets)) == EarnedFrom(total, ratios, targets)
  {
    var s := SliceFuel(total, targets, ratios).value;
    if targets < |s| {
      assert s[targets..] == Truncated(total, ratios, SumReals(ratios))[targets..];
    }
  }

  /**
   * For any ratios, negative ones included: a fork hands out exactly its fuel if and only if the
   * truncated parts of the ratios beyond the last target add up to nothing. It burns fuel if they
   * add up to more, and mints fuel if they add up to less.
   */
  lemma {:induction false} HandsOutAllIff(total: int, targets: nat, ratios: seq<real>)
    requires targets > 0 && SliceFuel(total, targets, ratios).Some?
    ensures var out := SumInts(HandedOut(SliceFuel(total, targets, ratios).value, targets));
            && (out == total <==> EarnedFrom(total, ratios, targets) == 0)
            && (out < total <==> EarnedFrom(total, ratios, targets) > 0)
            && (out > total <==> EarnedFrom(total, ratios, targets) < 0)
            && (|ratios| <= targets ==> out == total)
  {
    HandedOutSum(total, targets, ratios);
    DroppedIsEarned(total, targets, ratios);
  }

  /** With non-negative ratios nothing is minted, and nothing is burnt exactly when each of them earns less than
    * one unit. */
  lemma {:induction false} NonNegativeHandsOutIff(total: int, targets: nat, ratios: seq<real>)
    requires total >= 0 && targets > 0 && NonNegative(ratios) && SliceFuel(total, targets, ratios).Some?
    ensures EarnedFrom(total, ratios, targets) >= 0
    ensures EarnedFrom(total, ratios, targets) == 0
       <==> forall i :: targets <= i < |ratios| ==> Part(total, ratios[i], SumReals(ratios)) < 1.0
  {
    var whole := SumReals(ratios);
    SumRealsNonNegative(ratios);
    if targets < |ratios| {
      var d := Truncated(total, ratios, whole)[targets..];
      forall i | targets <= i < |ratios|
        ensures d[i - targets] >= 0 && (d[i - targets] == 0 <==> Part(total, ratios[i], whole) < 1.0) {
        PartNonNegative(total, ratios[i], whole);
      }
      forall k | 0 <= k < |d| ensures d[k] >= 0 { assert d[k] == d[(k + targets) - targets]; }
      SumIntsNonNegative(d);
      if forall i :: targets <= i < |ratios| ==> Part(total, ratios[i], whole) < 1.0 {
        forall k | 0 <= k < |d| ensures d[k] == 0 { assert d[k] == d[(k + targets) - targets]; }
      }
    }
  }

  lemma {:induction false} SumOfThree(a: real, b: real, c: real)
    ensures SumReals([a, b, c]) == a + b + c && SumReals([a, b]) == a + b
  {
    assert [a, b, c][..2] == [a, b] && [a, b][..1] == [a] && [a][..0] == [];
    assert SumReals([a]) == a;
  }

  lemma {:induction false} SumOfInts(a: int, b: int, c: int)
    ensures SumInts([a, b, c]) == a + b + c && SumInts([a, b]) == a + b
  {
    assert [a, b, c][..2] == [a, b] && [a, b][..1] == [a] && [a][..0] == [];
    assert SumInts([a]) == a;
  }

  /** Three equal ratios for two targets burn a third of the fuel. */
  lemma ThreeRatiosTwoTargets()
    ensures SliceFuel(30, 2, [1.0, 1.0, 1.0]) == Some([10, 10, 10])
    ensures SumInts(HandedOut([10, 10, 10], 2)) == 20
  {
    var r := [1.0, 1.0, 1.0];
    SumOfThree(1.0, 1.0, 1.0);
    assert Part(30, 1.0, 3.0) == 10.0;
    assert Truncated(30, r, 3.0) == [10, 10, 10];
    SumOfInts(10, 10, 10);
    assert RatioShares(30, r) == [10, 10, 10][0 := 10] == [10, 10, 10];
    assert [10, 10, 10][..2] == [10, 10];
  }

  /** A negative ratio beyond the last target mints fuel: two targets get 45 units out of 30. */
  lemma NegativeRatioMints()
    ensures SliceFuel(30, 2, [2.0, 1.0, -1.0]) == Some([30, 15, -15])
    ensures SumInts(HandedOut([30, 15, -15], 2)) == 45
    ensures forall i :: 2 <= i < 3 ==> Part(30, [2.0, 1.0, -1.0][i], 2.0) < 1.0
  {
    var r := [2.0, 1.0, -1.0];
    SumOfThree(2.0, 1.0, -1.0);
    assert Part(30, 2.0, 2.0) == 30.0 && Part(30, 1.0, 2.0) == 15.0 && Part(30, -1.0, 2.0) == -15.0;
    assert Trunc(-15.0) == -15;
    assert Truncated(30, r, 2.0) == [30, 15, -15];
    SumOfInts(30, 15, -15);
    assert RatioShares(30, r) == [30, 15, -15][0 := 30] == [30, 15, -15];
    assert [30, 15, -15][..2] == [30, 15];
  }

  /** A negative ratio within the targets gives a branch negative fuel. */
  lemma NegativeRatioNegativeShare()
    ensures SliceFuel(30, 2, [2.0, -1.0]) == Some([60, -30])
  {
    var r := [2.0, -1.0];
    SumOfThree(2.0, -1.0, 0.0);
    assert Part(30, 2.0, 1.0) == 60.0 && Part(30, -1.0, 1.0) == -30.0;
    assert Trunc(-30.0) == -30;
    assert Truncated(30, r, 1.0) == [60, -30];
    SumOfInts(60, -30, 0);
    assert RatioShares(30, r) == [60, -30][0 := 60] == [60, -30];
  }
}
