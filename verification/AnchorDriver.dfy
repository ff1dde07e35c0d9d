/**
 * The ordered key-value drivers of state/anchor/driver.py: the exclusive upper bound `_strinc`,
 * and the three ways a prefix is scanned (range, seek-then-break, generator cursor).
 */
module AnchorDriver {
  import opened Wrappers
  import opened Lex
  import opened Sequences

  type Bytes = Text

  ghost predicate IsBytes(b: Bytes) {
    forall x :: x in b ==> x < 256
  }

  // --- _strinc -----------------------------------------------------------------------------------

  /** The least byte string above every extension of `p`; there is none if `p` is all 0xFF. */
  function UpperBound(p: Bytes): Option<Bytes> {
    if p == [] then None
    else match UpperBound(p[1..])
      case Some(e) => Some([p[0]] + e)
      case None => if p[0] < 255 then Some([p[0] + 1]) else None
  }

  lemma {:induction false} UpperBoundSnoc(q: Bytes, x: nat)
    requires x < 256
    ensures UpperBound(q + [x]) == if x < 255 then Some(q + [x + 1]) else UpperBound(q)
    decreases |q|
  {
    if q == [] {
      assert q + [x] == [x] && [x][1..] == [];
      assert q + [x + 1] == [x + 1];
    } else {
      assert (q + [x])[1..] == q[1..] + [x];
      UpperBoundSnoc(q[1..], x);
      assert [q[0]] + (q[1..] + [x + 1]) == q + [x + 1];
    }
  }

  lemma {:induction false} NoUpperBoundIff(p: Bytes)
    requires IsBytes(p)
    ensures UpperBound(p).None? <==> forall x :: x in p ==> x == 255
    decreases |p|
  {
    if p != [] {
      assert p == [p[0]] + p[1..];
      forall x | x in p[1..] ensures x in p {}
      assert p[0] in p;
      NoUpperBoundIff(p[1..]);
    }
  }

  /** `_strinc`: strip trailing 0xFF bytes, then add one to the last byte; None is the ValueError. */
  method Strinc(prefix: Bytes) returns (r: Option<Bytes>)
    requires IsBytes(prefix)
    ensures r == UpperBound(prefix)
    ensures r.None? <==> forall x :: x in prefix ==> x == 255
  {
    NoUpperBoundIff(prefix);
    var n := |prefix|;
    assert prefix[..n] == prefix;
    while n > 0 && prefix[n - 1] == 255
      invariant n <= |prefix| && UpperBound(prefix[..n]) == UpperBound(prefix)
    {
      assert prefix[..n] == prefix[..n - 1] + [prefix[n - 1]];
      UpperBoundSnoc(prefix[..n - 1], 255);
      n := n - 1;
    }
    if n == 0 {
      return None;
    }
    assert prefix[n - 1] in prefix;
    assert prefix[..n] == prefix[..n - 1] + [prefix[n - 1]];
    UpperBoundSnoc(prefix[..n - 1], prefix[n - 1]);
    return Some(prefix[..n - 1] + [prefix[n - 1] + 1]);
  }

  lemma {:induction false} StartsWithLe(k: Bytes, p: Bytes)
    requires StartsWith(k, p)
    ensures Le(p, k)
    decreases |p|
  {
    if p != [] {
      assert p[1..] <= k[1..];
      StartsWithLe(k[1..], p[1..]);
      if p[1..] == k[1..] { assert p == [p[0]] + p[1..] && k == [k[0]] + k[1..]; }
    }
  }

  /** Above an all-0xFF string there are only its own extensions. */
  lemma {:induction false} AboveAllOnes(k: Bytes, p: Bytes)
    requires IsBytes(k) && Le(p, k) && forall x :: x in p ==> x == 255
    ensures StartsWith(k, p)
    decreases |p|
  {
    if p != [] {
      assert k != [] && k[0] in k && p[0] in p;
      assert Le(p[1..], k[1..]);
      forall x | x in p[1..] ensures x in p {}
      forall x | x in k[1..] ensures x in k {}
      AboveAllOnes(k[1..], p[1..]);
      assert p == [p[0]] + p[1..] && k == [k[0]] + k[1..];
    }
  }

  /**
   * The range of `_strinc`: for every prefix that is not all 0xFF, a byte key starts with the
   * prefix if and only if prefix <= key < _strinc(prefix).
   */
  lemma {:induction false} PrefixIsRange(k: Bytes, p: Bytes)
    requires IsBytes(k) && IsBytes(p) && UpperBound(p).Some?
    ensures StartsWith(k, p) <==> Le(p, k) && Lt(k, UpperBound(p).value)
    decreases |p|
  {
    if StartsWith(k, p) { StartsWithLe(k, p); }
    if k != [] {
      var p1, k1 := p[1..], k[1..];
      assert p == [p[0]] + p1 && k == [k[0]] + k1;
      assert StartsWith(k, p) <==> k[0] == p[0] && StartsWith(k1, p1);
      forall x | x in p1 ensures x in p {}
      forall x | x in k1 ensures x in k {}
      assert k[0] == p[0] ==> (Le(p, k) <==> Le(p1, k1));
      match UpperBound(p1) {
        case Some(e) =>
          PrefixIsRange(k1, p1);
          assert ([p[0]] + e)[1..] == e;
        case None =>
          NoUpperBoundIff(p1);
          assert [p[0] + 1][1..] == [];
          if Le(p1, k1) { AboveAllOnes(k1, p1); }
          if StartsWith(k1, p1) { StartsWithLe(k1, p1); }
      }
    }
  }

  /** The keys with a prefix are contiguous: past them, the prefix never comes back. */
  lemma {:induction false} PrefixContiguous(k: Bytes, later: Bytes, p: Bytes)
    requires Le(p, k) && !StartsWith(k, p) && Lt(k, later)
    ensures !StartsWith(later, p)
    decreases |p|
  {
    if p != [] && StartsWith(later, p) {
      assert k != [] && later != [];
      assert p == [p[0]] + p[1..] && k == [k[0]] + k[1..] && later == [later[0]] + later[1..];
      assert later[0] == p[0] && StartsWith(later[1..], p[1..]);
      if k[0] == p[0] {
        PrefixContiguous(k[1..], later[1..], p[1..]);
      }
    }
  }

  lemma {:induction false} PrefixOrder(p: Bytes, a: Bytes, b: Bytes)
    ensures Lt(p + a, p + b) <==> Lt(a, b)
    decreases |p|
  {
    if p == [] {
      assert p + a == a && p + b == b;
    } else {
      assert (p + a)[1..] == p[1..] + a && (p + b)[1..] == p[1..] + b;
      PrefixOrder(p[1..], a, b);
    }
  }

  // --- What a prefix scan must yield -----------------------------------------------------------------

  function KeysOf(r: seq<(Bytes, Bytes)>): (ks: seq<Bytes>)
    ensures |ks| == |r| && forall i :: 0 <= i < |r| ==> ks[i] == r[i].0
  {
    seq(|r|, i requires 0 <= i < |r| => r[i].0)
  }

  /** All pairs of `kv` whose key starts with `prefix`, in key order. */
  ghost predicate IsScan(r: seq<(Bytes, Bytes)>, kv: map<Bytes, Bytes>, prefix: Bytes) {
    && Sorted(KeysOf(r))
    && (forall k :: k in KeysOf(r) <==> k in kv && StartsWith(k, prefix))
    && (forall i :: 0 <= i < |r| ==> r[i].0 in kv && r[i].1 == kv[r[i].0])
  }

  /** The scan result is determined, so any two ways of computing it yield the same sequence. */
  lemma ScansAgree(a: seq<(Bytes, Bytes)>, b: seq<(Bytes, Bytes)>, kv: map<Bytes, Bytes>, prefix: Bytes)
    requires IsScan(a, kv, prefix) && IsScan(b, kv, prefix)
    ensures a == b
  {
    SortedUnique(KeysOf(a), KeysOf(b));
    forall i | 0 <= i < |a| ensures a[i] == b[i] {
      assert KeysOf(a)[i] == KeysOf(b)[i];
    }
  }

  // --- Seek, then break --------------------------------------------------------------------------------

  /** What the loop over sorted `keys` has collected once it has passed the first `i` keys. */
  ghost predicate Collected(r: seq<(Bytes, Bytes)>, kv: map<Bytes, Bytes>, prefix: Bytes, keys: seq<Bytes>, i: nat) {
    && i <= |keys|
    && Sorted(KeysOf(r))
    && (forall k :: k in KeysOf(r) <==> k in keys[..i] && StartsWith(k, prefix))
    && (forall j :: 0 <= j < |r| ==> r[j].0 in kv && r[j].1 == kv[r[j].0])
  }

  lemma CollectStep(r: seq<(Bytes, Bytes)>, kv: map<Bytes, Bytes>, prefix: Bytes, keys: seq<Bytes>, i: nat)
    requires Collected(r, kv, prefix, keys, i) && i < |keys| && Sorted(keys) && keys[i] in kv
    ensures Collected(if StartsWith(keys[i], prefix) then r + [(keys[i], kv[keys[i]])] else r, kv, prefix, keys, i + 1)
  {
    assert keys[..i + 1] == keys[..i] + [keys[i]];
    if StartsWith(keys[i], prefix) {
      var more := r + [(keys[i], kv[keys[i]])];
      assert KeysOf(more) == KeysOf(r) + [keys[i]];
      forall a, b | 0 <= a < b < |more| ensures Lt(KeysOf(more)[a], KeysOf(more)[b]) {
        if b == |r| {
          assert KeysOf(r)[a] in KeysOf(r);
          var j :| 0 <= j < i && keys[j] == KeysOf(r)[a];
        }
      }
    }
  }

  lemma CollectAll(r: seq<(Bytes, Bytes)>, kv: map<Bytes, Bytes>, prefix: Bytes, keys: seq<Bytes>, i: nat)
    requires Collected(r, kv, prefix, keys, i) && SameElements(keys, kv.Keys)
    requires forall j :: i <= j < |keys| ==> !StartsWith(keys[j], prefix)
    ensures IsScan(r, kv, prefix)
  {
    forall k | k in kv && StartsWith(k, prefix) ensures k in KeysOf(r) {
      var j :| 0 <= j < |keys| && keys[j] == k;
      assert keys[..i][j] == k;
    }
  }

  /** `RocksAnchorDriver.scan_prefix` over the ordered contents of the database. */
  method SeekScan(kv: map<Bytes, Bytes>, prefix: Bytes) returns (r: seq<(Bytes, Bytes)>)
    ensures IsScan(r, kv, prefix)
  {
    var keys := SortedKeys(kv.Keys);
    var i := 0;
    r := [];
    while i < |keys| && Lt(keys[i], prefix)      // iterator.seek(prefix)
      invariant Collected(r, kv, prefix, keys, i) && r == []
    {
      if StartsWith(keys[i], prefix) {
        StartsWithLe(keys[i], prefix);
        LtAsymmetric(keys[i], prefix);
        LtIrreflexive(prefix);
      }
      CollectStep(r, kv, prefix, keys, i);
      i := i + 1;
    }
    ghost var start := i;
    if i < |keys| { LtTotal(keys[i], prefix); }
    while i < |keys|
      invariant start <= i <= |keys| && Collected(r, kv, prefix, keys, i)
      invariant start < |keys| ==> Le(prefix, keys[start])
    {
      if !StartsWith(keys[i], prefix) { break; }
      CollectStep(r, kv, prefix, keys, i);
      r := r + [(keys[i], kv[keys[i]])];
      i := i + 1;
    }
    forall j | i <= j < |keys| ensures !StartsWith(keys[j], prefix) {
      if start < i { LtTransitiveLe(prefix, keys[start], keys[i]); }
      if i < j { PrefixContiguous(keys[i], keys[j], prefix); }
    }
    CollectAll(r, kv, prefix, keys, i);
  }

  lemma LtTransitiveLe(a: Bytes, b: Bytes, c: Bytes)
    requires Le(a, b) && Lt(b, c)
    ensures Le(a, c)
  {
    if a != b { LtTransitive(a, b, c); }
  }

  // --- Range scan ---------------------------------------------------------------------------------------

  lemma LeNotLt(a: Bytes, b: Bytes)
    requires Le(a, b)
    ensures !Lt(b, a)
  {
    LtIrreflexive(a);
    if a != b { LtAsymmetric(a, b); }
  }

  /** Sorted keys from `startKey` up to, not including, its `_strinc`. */
  method RangeScan(kv: map<Bytes, Bytes>, startKey: Bytes, endKey: Bytes) returns (r: seq<(Bytes, Bytes)>)
    requires IsBytes(startKey) && UpperBound(startKey) == Some(endKey) && forall k :: k in kv ==> IsBytes(k)
    ensures IsScan(r, kv, startKey)
  {
    var keys := SortedKeys(kv.Keys);
    r := [];
    var i := 0;
    while i < |keys|
      invariant 0 <= i <= |keys| && Collected(r, kv, startKey, keys, i)
    {
      assert keys[i] in kv;
      PrefixIsRange(keys[i], startKey);
      if Le(endKey, keys[i]) { break; }
      CollectStep(r, kv, startKey, keys, i);
      LtTotal(keys[i], endKey);
      if Le(startKey, keys[i]) {
        r := r + [(keys[i], kv[keys[i]])];
      }
      i := i + 1;
    }
    forall j | i <= j < |keys| ensures !StartsWith(keys[j], startKey) {
      assert keys[j] in kv;
      PrefixIsRange(keys[j], startKey);
      if i < j { LtTransitiveLe(endKey, keys[i], keys[j]); }
      LeNotLt(endKey, keys[j]);
    }
    CollectAll(r, kv, startKey, keys, i);
  }

  // --- The emulated FoundationDB driver -----------------------------------------------------------------

  /** The raw pairs under a subspace, with the subspace prefix removed. */
  ghost function Logical(raw: map<Bytes, Bytes>, subspace: Bytes): map<Bytes, Bytes> {
    map k | k in (set r | r in raw && StartsWith(r, subspace) :: r[|subspace|..]) && subspace + k in raw ::
      raw[subspace + k]
  }

  lemma InLogical(raw: map<Bytes, Bytes>, subspace: Bytes, k: Bytes)
    ensures k in Logical(raw, subspace) <==> subspace + k in raw
    ensures k in Logical(raw, subspace) ==> Logical(raw, subspace)[k] == raw[subspace + k]
  {
    assert (subspace + k)[|subspace|..] == k;
  }

  lemma LogicalPut(raw: map<Bytes, Bytes>, subspace: Bytes, key: Bytes, value: Bytes)
    ensures Logical(raw[subspace + key := value], subspace) == Logical(raw, subspace)[key := value]
  {
    var more := raw[subspace + key := value];
    var a, b := Logical(more, subspace), Logical(raw, subspace)[key := value];
    forall k ensures (k in a <==> k in b) && (k in a ==> a[k] == b[k]) {
      InLogical(raw, subspace, k);
      InLogical(more, subspace, k);
      assert (subspace + k)[|subspace|..] == k && (subspace + key)[|subspace|..] == key;
    }
  }

  class FdbAnchorDriver {
    const subspace: Bytes                 // b"xphi:<name>:"
    var emulated: map<Bytes, Bytes>

    ghost predicate Valid()
      reads this
    {
      && IsBytes(subspace) && UpperBound(subspace).Some?
      && forall k :: k in emulated ==> IsBytes(k) && StartsWith(k, subspace)
    }

    ghost function Contents(): map<Bytes, Bytes>
      reads this
    {
      Logical(emulated, subspace)
    }

    constructor (subspace: Bytes)
      requires IsBytes(subspace) && UpperBound(subspace).Some?
      ensures Valid() && Contents() == map[] && this.subspace == subspace
    {
      this.subspace, emulated := subspace, map[];
    }

    method Get(key: Bytes) returns (value: Option<Bytes>)
      requires Valid()
      ensures value == if key in Contents() then Some(Contents()[key]) else None
    {
      InLogical(emulated, subspace, key);
      value := if subspace + key in emulated then Some(emulated[subspace + key]) else None;
    }

    method Put(key: Bytes, value: Bytes)
      requires Valid() && IsBytes(key)
      modifies this
      ensures Valid() && Contents() == old(Contents())[key := value]
    {
      LogicalPut(emulated, subspace, key, value);
      emulated := emulated[subspace + key := value];
      forall x | x in subspace + key ensures x < 256 {
        assert x in subspace || x in key;
      }
    }

    /** The emulated branch of `scan_prefix`: sorted keys between the prefix and its `_strinc`. */
    method ScanPrefix(prefix: Bytes) returns (r: seq<(Bytes, Bytes)>)
      requires Valid() && IsBytes(prefix)
      ensures IsScan(r, Contents(), prefix)
    {
      var startKey := subspace + prefix;
      var bound := Strinc(startKey);
      NoUpperBoundIff(subspace);
      assert bound.Some? by {
        var x :| x in subspace && x != 255;
        assert x in startKey;
      }
      var all := RangeScan(emulated, startKey, bound.value);
      r := [];
      for i := 0 to |all|
        invariant |r| == i && forall j :: 0 <= j < i ==> all[j] == (subspace + r[j].0, r[j].1)
      {
        assert KeysOf(all)[i] in KeysOf(all);
        assert StartsWith(all[i].0, subspace + prefix);
        assert all[i].0 == subspace + all[i].0[|subspace|..];
        r := r + [(all[i].0[|subspace|..], all[i].1)];
      }
      StripScan(all, r, prefix);
    }

    /** Removing the subspace prefix turns the raw scan into the logical one. */
    lemma StripScan(all: seq<(Bytes, Bytes)>, r: seq<(Bytes, Bytes)>, prefix: Bytes)
      requires Valid() && IsScan(all, emulated, subspace + prefix)
      requires |r| == |all| && forall j :: 0 <= j < |r| ==> all[j] == (subspace + r[j].0, r[j].1)
      ensures IsScan(r, Contents(), prefix)
    {
      forall a, b | 0 <= a < b < |r| ensures Lt(KeysOf(r)[a], KeysOf(r)[b]) {
        assert Lt(KeysOf(all)[a], KeysOf(all)[b]);
        PrefixOrder(subspace, r[a].0, r[b].0);
      }
      forall k ensures k in KeysOf(r) <==> k in Contents() && StartsWith(k, prefix) {
        InLogical(emulated, subspace, k);
        assert (subspace + k)[|subspace|..] == k;
        assert StartsWith(subspace + k, subspace + prefix) <==> StartsWith(k, prefix) by {
          if StartsWith(subspace + k, subspace + prefix) {
            assert (subspace + k)[..|subspace + prefix|] == subspace + prefix;
            assert k[..|prefix|] == (subspace + k)[|subspace|..|subspace + prefix|] == prefix;
          }
        }
        if k in KeysOf(r) {
          var j :| 0 <= j < |r| && r[j].0 == k;
          assert KeysOf(all)[j] == subspace + k;
        }
        if subspace + k in KeysOf(all) {
          var j :| 0 <= j < |all| && KeysOf(all)[j] == subspace + k;
          assert (subspace + r[j].0)[|subspace|..] == r[j].0;
          assert KeysOf(r)[j] == k;
        }
      }
      forall j | 0 <= j < |r| ensures r[j].0 in Contents() && r[j].1 == Contents()[r[j].0] {
        InLogical(emulated, subspace, r[j].0);
        assert all[j].0 in emulated;
      }
    }
  }

  // --- The generator cursor --------------------------------------------------------------------------------

  /** `_GeneratorSeekIterator`: a cursor with one pair of look-ahead over a generator. */
  class SeekIterator {
    var pending: seq<(Bytes, Bytes)>        // what the generator has still to yield
    var current: Option<(Bytes, Bytes)>

    constructor ()
      ensures pending == [] && current == None
    {
      pending, current := [], None;
    }

    method Seek(scan: seq<(Bytes, Bytes)>)
      modifies this
      ensures (if current.Some? then [current.value] else []) + pending == scan
      ensures current.None? ==> pending == []
    {
      pending := scan;
      Next();
    }

    method Next()
      modifies this
      ensures (if current.Some? then [current.value] else []) + pending == old(pending)
      ensures current.None? ==> pending == []
      ensures |pending| <= |old(pending)| && (current.Some? ==> |pending| < |old(pending)|)
    {
      if pending == [] {
        current := None;
      } else {
        current, pending := Some(pending[0]), pending[1..];
      }
    }
  }

  /** The oracle's loop (`seek`, then `while valid: if not startswith: break`) over that cursor. */
  method CursorScan(scan: seq<(Bytes, Bytes)>, kv: map<Bytes, Bytes>, prefix: Bytes) returns (r: seq<(Bytes, Bytes)>)
    requires IsScan(scan, kv, prefix)
    ensures r == scan
  {
    var it := new SeekIterator();
    it.Seek(scan);
    r := [];
    while it.current.Some?
      invariant fresh(it)
      invariant it.current.None? ==> it.pending == []
      invariant r + (if it.current.Some? then [it.current.value] else []) + it.pending == scan
      decreases |it.pending|, it.current.Some?
    {
      var pair := it.current.value;
      assert scan[|r|] == pair && KeysOf(scan)[|r|] == pair.0 && pair.0 in KeysOf(scan);
      if !StartsWith(pair.0, prefix) { break; }
      r := r + [pair];
      it.Next();
    }
  }
}
