/** The bytewise order of uuids, and the order in which a transfer locks its two accounts. */
module Uuids {
  import opened Core

  /** Three-way lexicographic comparison of byte strings. */
  function Compare(a: seq<Byte>, b: seq<Byte>): (c: int)
    ensures c == 0 || c == 1 || c == -1
    ensures c == 0 <==> a == b
  {
    if a == [] then (if b == [] then 0 else -1)
    else if b == [] then 1
    else if a[0] < b[0] then -1
    else if a[0] > b[0] then 1
    else
      assert a == [a[0]] + a[1..] && b == [b[0]] + b[1..];
      Compare(a[1..], b[1..])
  }

  predicate Less(a: Uuid, b: Uuid) {
    Compare(a.bytes, b.bytes) < 0
  }

  lemma {:induction false} CompareAntisymmetric(a: seq<Byte>, b: seq<Byte>)
    ensures Compare(b, a) == -Compare(a, b)
  {
    if a != [] && b != [] && a[0] == b[0] {
      CompareAntisymmetric(a[1..], b[1..]);
    }
  }

  lemma {:induction false} CompareTransitive(a: seq<Byte>, b: seq<Byte>, c: seq<Byte>)
    requires Compare(a, b) < 0 && Compare(b, c) < 0
    ensures Compare(a, c) < 0
  {
    if a != [] && b != [] && c != [] && a[0] == b[0] == c[0] {
      CompareTransitive(a[1..], b[1..], c[1..]);
    }
  }

  /** The two agree up to position k, and there the first has the smaller byte or has ended. */
  predicate SmallerAt(a: seq<Byte>, b: seq<Byte>, k: nat) {
    k <= |a| && k < |b| && a[..k] == b[..k] && (k == |a| || a[k] < b[k])
  }

  /** The order is ascending by bytes, the first difference deciding. */
  lemma {:induction false} LessIsBytewise(a: seq<Byte>, b: seq<Byte>)
    ensures Compare(a, b) < 0 <==> exists k: nat :: SmallerAt(a, b, k)
  {
    if a == [] {
      if b != [] { assert SmallerAt(a, b, 0); }
    } else if b != [] && a[0] < b[0] {
      assert SmallerAt(a, b, 0);
    } else if b != [] && a[0] == b[0] {
      var x, y := a[1..], b[1..];
      LessIsBytewise(x, y);
      if Compare(x, y) < 0 {
        var k: nat :| SmallerAt(x, y, k);
        assert a[..k + 1] == [a[0]] + x[..k] && b[..k + 1] == [b[0]] + y[..k];
        assert SmallerAt(a, b, k + 1);
      }
      if k: nat :| SmallerAt(a, b, k) {
        assert k > 0 && x[..k - 1] == a[..k][1..] && y[..k - 1] == b[..k][1..];
        assert SmallerAt(x, y, k - 1);
      }
    } else if b != [] {
      forall k: nat | 0 < k <= |a| && k < |b|
        ensures a[..k] != b[..k]
      {
        assert a[..k][0] != b[..k][0];
      }
    }
  }

  /** Less is a strict total order on uuids. */
  lemma LessIsStrictTotalOrder(a: Uuid, b: Uuid, c: Uuid)
    ensures !Less(a, a)
    ensures a != b ==> Less(a, b) != Less(b, a)
    ensures Less(a, b) && Less(b, c) ==> Less(a, c)
  {
    CompareAntisymmetric(a.bytes, b.bytes);
    if Less(a, b) && Less(b, c) {
      CompareTransitive(a.bytes, b.bytes, c.bytes);
    }
  }

  /** The two ids, smaller first: a permutation of the arguments, sorted. */
  function LockOrder(a: Uuid, b: Uuid): (ids: (Uuid, Uuid))
    ensures ids == (a, b) || ids == (b, a)
    ensures a != b ==> Less(ids.0, ids.1)
  {
    if Compare(a.bytes, b.bytes) <= 0 then
      (a, b)
    else
      CompareAntisymmetric(a.bytes, b.bytes);
      (b, a)
  }

  /** Transfers A -> B and B -> A lock in the same order. */
  lemma LockOrderSymmetric(a: Uuid, b: Uuid)
    ensures LockOrder(a, b) == LockOrder(b, a)
  {
    CompareAntisymmetric(a.bytes, b.bytes);
  }
}
