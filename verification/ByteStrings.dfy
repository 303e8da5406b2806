/** Byte strings, 32-byte digests, and the byte-wise lexicographic order that Rust's
    `[u8; 32]` comparison and `BTreeMap` iteration use. */
module ByteStrings {

  type byte = x: int | 0 <= x < 0x100

  type Bytes = seq<byte>

  /** Device ids, content ids, digests and KEM public keys are all `[u8; 32]`. */
  type Hash32 = b: Bytes | |b| == 32 witness ZERO_HASH

  const ZERO_HASH: Bytes :=
    [0, 0, 0, 0, 0, 0, 0, 0, 0, 0, 0, 0, 0, 0, 0, 0, 0, 0, 0, 0, 0, 0, 0, 0, 0, 0, 0, 0, 0, 0, 0, 0]

  type DeviceId = Hash32

  const U64_MAX: nat := 0xFFFF_FFFF_FFFF_FFFF

  type u64 = x: int | 0 <= x <= U64_MAX

  predicate LexLess(a: Bytes, b: Bytes)
    decreases |a|
  {
    b != [] && (a == [] || a[0] < b[0] || (a[0] == b[0] && LexLess(a[1..], b[1..])))
  }

  /** The order is that of the first byte in which two strings differ; a proper prefix comes first. */
  lemma {:induction false} LexLessIff(a: Bytes, b: Bytes)
    ensures LexLess(a, b) <==>
            exists i | 0 <= i <= |a| && i < |b| :: a[..i] == b[..i] && (i == |a| || a[i] < b[i])
    decreases |a|
  {
    if b != [] && a != [] && a[0] == b[0] {
      LexLessIff(a[1..], b[1..]);
      if LexLess(a, b) {
        var i :| 0 <= i <= |a[1..]| && i < |b[1..]| && a[1..][..i] == b[1..][..i] &&
          (i == |a[1..]| || a[1..][i] < b[1..][i]);
        assert a[..i + 1] == [a[0]] + a[1..][..i] && b[..i + 1] == [b[0]] + b[1..][..i];
      }
      if i :| 0 <= i <= |a| && i < |b| && a[..i] == b[..i] && (i == |a| || a[i] < b[i]) {
        assert i > 0;
        assert a[1..][..i - 1] == a[..i][1..] && b[1..][..i - 1] == b[..i][1..];
      }
    } else {
      assert a[..0] == b[..0];
      assert forall i | 0 < i <= |a| && i < |b| :: a[..i][0] == a[0] && b[..i][0] == b[0];
    }
  }

  lemma {:induction false} LexTrichotomy(a: Bytes, b: Bytes)
    ensures a == b || LexLess(a, b) || LexLess(b, a)
    ensures !(LexLess(a, b) && LexLess(b, a))
    ensures a == b ==> !LexLess(a, b)
    decreases |a|
  {
    if a != [] && b != [] && a[0] == b[0] {
      LexTrichotomy(a[1..], b[1..]);
      assert a == [a[0]] + a[1..] && b == [b[0]] + b[1..];
    }
  }

  lemma {:induction false} LexTransitive(a: Bytes, b: Bytes, c: Bytes)
    requires LexLess(a, b) && LexLess(b, c)
    ensures LexLess(a, c)
    decreases |a|
  {
    if a != [] && a[0] == b[0] && b[0] == c[0] {
      LexTransitive(a[1..], b[1..], c[1..]);
    }
  }

  ghost predicate IsLeast(m: Hash32, ids: set<Hash32>)
  {
    m in ids && forall o: Hash32 | o in ids && o != m :: LexLess(m, o)
  }

  lemma {:induction false} LeastExists(ids: set<Hash32>)
    requires ids != {}
    ensures exists m: Hash32 :: IsLeast(m, ids)
    decreases |ids|
  {
    var x :| x in ids;
    if ids == {x} {
      assert IsLeast(x, ids);
    } else {
      LeastExists(ids - {x});
      var m: Hash32 :| IsLeast(m, ids - {x});
      LexTrichotomy(m, x);
      if LexLess(m, x) {
        assert IsLeast(m, ids);
      } else {
        forall o: Hash32 | o in ids && o != x ensures LexLess(x, o) {
          if o != m { LexTransitive(x, m, o); }
        }
        assert IsLeast(x, ids);
      }
    }
  }

  lemma LeastUnique(m: Hash32, n: Hash32, ids: set<Hash32>)
    requires IsLeast(m, ids) && IsLeast(n, ids)
    ensures m == n
  {
    LexTrichotomy(m, n);
  }

  /** The ids in ascending order, as a `BTreeMap`/`BTreeSet` yields its keys. */
  ghost function Ascending(ids: set<Hash32>): (r: seq<Hash32>)
    ensures |r| == |ids|
    ensures forall d :: d in r <==> d in ids
    decreases |ids|
  {
    if ids == {} then [] else
      LeastExists(ids);
      var m: Hash32 :| IsLeast(m, ids);
      [m] + Ascending(ids - {m})
  }

  lemma AscendingStep(ids: set<Hash32>, m: Hash32)
    requires IsLeast(m, ids)
    ensures Ascending(ids) == [m] + Ascending(ids - {m})
  {
    LeastExists(ids);
    forall n | IsLeast(n, ids) ensures n == m { LeastUnique(m, n, ids); }
  }

  lemma AscendingSplit(ids: set<Hash32>) returns (m: Hash32)
    requires ids != {}
    ensures IsLeast(m, ids) && Ascending(ids) == [m] + Ascending(ids - {m})
  {
    LeastExists(ids);
    m :| IsLeast(m, ids);
    AscendingStep(ids, m);
  }

  lemma {:induction false} AscendingSorted(ids: set<Hash32>, i: nat, j: nat)
    requires i < j < |Ascending(ids)|
    ensures LexLess(Ascending(ids)[i], Ascending(ids)[j])
    decreases |ids|
  {
    hide Ascending, LexLess;
    var m := AscendingSplit(ids);
    var rest := Ascending(ids - {m});
    assert rest[j - 1] in rest;
    if i > 0 { AscendingSorted(ids - {m}, i - 1, j - 1); }
  }

  /** A list in ascending order is the traversal of its elements. */
  lemma {:induction false} AscendingIs(ids: seq<Hash32>, all: set<Hash32>)
    requires forall i, j | 0 <= i < j < |ids| :: LexLess(ids[i], ids[j])
    requires forall d :: d in ids <==> d in all
    ensures Ascending(all) == ids
  {
    hide LexLess, Ascending;
    if ids == [] {
      assert all == {};
      AscendingNone();
    } else {
      var m, rest := ids[0], ids[1..];
      forall o: Hash32 | o in all && o != m ensures LexLess(m, o) {
        var k :| 0 <= k < |ids| && ids[k] == o;
      }
      forall i, j | 0 <= i < j < |rest| ensures LexLess(rest[i], rest[j]) {
        assert rest[i] == ids[i + 1] && rest[j] == ids[j + 1];
      }
      forall d ensures d in rest <==> d in all - {m} {
        if d in rest {
          var k :| 0 <= k < |rest| && rest[k] == d;
          assert ids[k + 1] == d;
          LexTrichotomy(m, d);
        }
      }
      AscendingIs(rest, all - {m});
      AscendingStep(all, m);
      assert ids == [m] + rest;
    }
  }

  lemma AscendingNone()
    ensures Ascending({}) == []
  {
  }

  /** An ascending traversal of `all` has yielded `done` and still has `rest` to come. */
  ghost predicate Traversal(done: seq<Hash32>, rest: set<Hash32>, all: set<Hash32>) {
    && rest <= all
    && (forall d | d in done :: d in all)
    && done + Ascending(rest) == Ascending(all)
  }

  lemma TraversalStep(done: seq<Hash32>, rest: set<Hash32>, all: set<Hash32>, m: Hash32)
    requires Traversal(done, rest, all) && IsLeast(m, rest)
    ensures Traversal(done + [m], rest - {m}, all)
  {
    AscendingStep(rest, m);
    assert done + ([m] + Ascending(rest - {m})) == (done + [m]) + Ascending(rest - {m});
  }

  method LeastOf(ids: set<Hash32>) returns (m: Hash32)
    requires ids != {}
    ensures IsLeast(m, ids)
  {
    LeastExists(ids);
    forall a, b | IsLeast(a, ids) && IsLeast(b, ids) ensures a == b { LeastUnique(a, b, ids); }
    m :| m in ids && forall o: Hash32 | o in ids && o != m :: LexLess(m, o);
  }
}
