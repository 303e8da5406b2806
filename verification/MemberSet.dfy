/** The roster digest `member_set_hash` (rule 6 of the log verifier). */
module MemberSet {
  import opened ByteStrings
  import opened LogEntries

  datatype MemberInfo = MemberInfo(deviceId: DeviceId, spkiDer: Bytes, kemPk: Hash32)

  type Roster = map<DeviceId, MemberInfo>

  const TWO32: nat := 0x1_0000_0000

  /** `(len as u32).to_le_bytes()`: lengths of 2^32 and more are truncated. */
  function Le32(len: nat): (r: Bytes)
    ensures |r| == 4
  {
    var n := len % TWO32;
    var n1 := n / 0x100;
    var n2 := n1 / 0x100;
    var n3 := n2 / 0x100;
    [n % 0x100, n1 % 0x100, n2 % 0x100, n3]
  }

  function FromLe32(b: Bytes): nat
    requires |b| == 4
  {
    var b0: int, b1: int, b2: int, b3: int := b[0], b[1], b[2], b[3];
    b0 + 0x100 * (b1 + 0x100 * (b2 + 0x100 * b3))
  }

  lemma Le32RoundTrip(len: nat)
    ensures FromLe32(Le32(len)) == len % TWO32
  {
  }

  function Record(did: DeviceId, m: MemberInfo): Bytes {
    did + Le32(|m.spkiDer|) + m.spkiDer + m.kemPk
  }

  /** The records of `ids`, concatenated in the order given. */
  function Records(ids: seq<DeviceId>, members: Roster): Bytes
    requires forall d | d in ids :: d in members
  {
    if ids == [] then [] else Record(ids[0], members[ids[0]]) + Records(ids[1..], members)
  }

  lemma {:induction false} RecordsSnoc(ids: seq<DeviceId>, d: DeviceId, members: Roster)
    requires d in members && forall x | x in ids :: x in members
    ensures Records(ids + [d], members) == Records(ids, members) + Record(d, members[d])
  {
    if ids == [] {
      assert [] + [d] == [d];
      assert Records([d], members) == Record(d, members[d]) + Records([], members);
    } else {
      assert (ids + [d])[1..] == ids[1..] + [d];
      RecordsSnoc(ids[1..], d, members);
    }
  }

  /** The hashed bytes: one record per member, by ascending device id. */
  ghost function Preimage(members: Roster): Bytes {
    Records(Ascending(members.Keys), members)
  }

  ghost function MemberSetHash(p: Primitives, members: Roster): Hash32 {
    p.blake3(Preimage(members))
  }

  /** The hashed bytes are the records of the members, one after the other, each id smaller than the next at
      the first byte in which they differ. */
  lemma PreimageIsListing(members: Roster, ids: seq<DeviceId>)
    requires forall d :: d in ids <==> d in members
    requires forall i, j | 0 <= i < j < |ids| ::
               exists k | 0 <= k < 32 :: ids[i][..k] == ids[j][..k] && ids[i][k] < ids[j][k]
    ensures Preimage(members) == Records(ids, members)
  {
    forall i, j | 0 <= i < j < |ids| ensures LexLess(ids[i], ids[j]) { LexLessIff(ids[i], ids[j]); }
    AscendingIs(ids, members.Keys);
    hide Records;
  }

  /** A record, byte by byte: the id, the length of the signing key in four bytes, least significant first,
      that key, and the sealing key. */
  lemma RecordLayout(did: DeviceId, m: MemberInfo)
    ensures var r, n := Record(did, m), |m.spkiDer|;
            && |r| == 68 + n
            && r[..32] == did
            && r[32] as int + 0x100 * r[33] as int + 0x1_0000 * r[34] as int + 0x100_0000 * r[35] as int ==
               n % 0x1_0000_0000
            && r[36..36 + n] == m.spkiDer
            && r[36 + n..] == m.kemPk
  {
    var r, n := Record(did, m), |m.spkiDer|;
    Le32RoundTrip(n);
    hide Le32;
    assert r == did + (Le32(n) + (m.spkiDer + m.kemPk));
    assert r[32..36] == Le32(n);
    assert r[36..] == m.spkiDer + m.kemPk;
  }

  lemma Assoc(a: Bytes, b: Bytes, c: Bytes)
    ensures (a + b) + c == a + (b + c)
  {
  }

  method AppendRecord(buf: Bytes, did: DeviceId, m: MemberInfo) returns (out: Bytes)
    ensures out == buf + Record(did, m)
  {
    out := buf + did;
    out := out + Le32(|m.spkiDer|);
    out := out + m.spkiDer;
    out := out + m.kemPk;
    Assoc(buf + did + Le32(|m.spkiDer|), m.spkiDer, m.kemPk);
    Assoc(buf + did, Le32(|m.spkiDer|), m.spkiDer + m.kemPk);
    Assoc(buf, did, Le32(|m.spkiDer|) + (m.spkiDer + m.kemPk));
    RecordFields(did, m, []);
    assert m.kemPk + [] == m.kemPk && Record(did, m) + [] == Record(did, m);
  }

  method ComputeMemberSetHash(p: Primitives, members: Roster) returns (h: Hash32)
    ensures h == MemberSetHash(p, members)
  {
    var buf: Bytes := [];
    var rest := members.Keys;
    ghost var done: seq<DeviceId> := [];
    assert done + Ascending(rest) == Ascending(rest);
    while rest != {}
      invariant Traversal(done, rest, members.Keys)
      invariant buf == Records(done, members)
      decreases |rest|
    {
      var did := LeastOf(rest);
      RecordsSnoc(done, did, members);
      TraversalStep(done, rest, members.Keys, did);
      buf := AppendRecord(buf, did, members[did]);
      done := done + [did];
      rest := rest - {did};
    }
    assert done + Ascending(rest) == done;
    h := p.blake3(buf);
  }

  // ----- The hashed bytes determine the roster -----

  /** Every member is filed under its own device id. */
  ghost predicate WellKeyed(members: Roster) {
    forall d | d in members :: members[d].deviceId == d
  }

  ghost predicate ShortKeys(members: Roster) {
    forall d | d in members :: |members[d].spkiDer| < TWO32
  }

  lemma Peel(x: Bytes, s: Bytes, y: Bytes, t: Bytes)
    requires |x| == |y| && x + s == y + t
    ensures x == y && s == t
  {
    assert x == (x + s)[..|x|] && y == (y + t)[..|y|];
    assert s == (x + s)[|x|..] && t == (y + t)[|y|..];
  }

  lemma RecordFields(d: DeviceId, m: MemberInfo, tail: Bytes)
    ensures Record(d, m) + tail == d + (Le32(|m.spkiDer|) + (m.spkiDer + (m.kemPk + tail)))
  {
    Assoc(d + Le32(|m.spkiDer|) + m.spkiDer, m.kemPk, tail);
    Assoc(d + Le32(|m.spkiDer|), m.spkiDer, m.kemPk + tail);
    Assoc(d, Le32(|m.spkiDer|), m.spkiDer + (m.kemPk + tail));
  }

  /** A record says where it ends, so a record followed by anything can be read back. */
  lemma RecordReadBack(d: DeviceId, m: MemberInfo, e: DeviceId, n: MemberInfo, tail1: Bytes, tail2: Bytes)
    requires |m.spkiDer| < TWO32 && |n.spkiDer| < TWO32
    requires Record(d, m) + tail1 == Record(e, n) + tail2
    ensures d == e && m.spkiDer == n.spkiDer && m.kemPk == n.kemPk && tail1 == tail2
  {
    RecordFields(d, m, tail1);
    RecordFields(e, n, tail2);
    var a1, b1 := m.kemPk + tail1, n.kemPk + tail2;
    var a2, b2 := m.spkiDer + a1, n.spkiDer + b1;
    Peel(d, Le32(|m.spkiDer|) + a2, e, Le32(|n.spkiDer|) + b2);
    Peel(Le32(|m.spkiDer|), a2, Le32(|n.spkiDer|), b2);
    Le32RoundTrip(|m.spkiDer|);
    Le32RoundTrip(|n.spkiDer|);
    Peel(m.spkiDer, a1, n.spkiDer, b1);
    Peel(m.kemPk, tail1, n.kemPk, tail2);
  }

  lemma {:induction false} RecordsInjective(xs: seq<DeviceId>, m1: Roster, ys: seq<DeviceId>, m2: Roster)
    requires forall d | d in xs :: d in m1
    requires forall d | d in ys :: d in m2
    requires ShortKeys(m1) && ShortKeys(m2)
    requires Records(xs, m1) == Records(ys, m2)
    ensures xs == ys
    ensures forall d | d in xs :: m1[d].spkiDer == m2[d].spkiDer && m1[d].kemPk == m2[d].kemPk
    decreases |xs|
  {
    if xs != [] && ys != [] {
      RecordReadBack(xs[0], m1[xs[0]], ys[0], m2[ys[0]], Records(xs[1..], m1), Records(ys[1..], m2));
      RecordsInjective(xs[1..], m1, ys[1..], m2);
      assert xs == [xs[0]] + xs[1..] && ys == [ys[0]] + ys[1..];
    }
  }

  lemma PreimageInjective(m1: Roster, m2: Roster)
    requires WellKeyed(m1) && WellKeyed(m2)
    requires ShortKeys(m1) && ShortKeys(m2)
    requires Preimage(m1) == Preimage(m2)
    ensures m1 == m2
  {
    RecordsInjective(Ascending(m1.Keys), m1, Ascending(m2.Keys), m2);
    assert m1.Keys == m2.Keys by {
      assert forall d :: d in m1.Keys <==> d in Ascending(m1.Keys);
      assert forall d :: d in m2.Keys <==> d in Ascending(m2.Keys);
    }
    forall d | d in m1 ensures m1[d] == m2[d] {
      assert d in Ascending(m1.Keys);
    }
  }

  /** Two rosters with one digest are equal, or their pre-images collide under BLAKE3. */
  lemma RosterCommitment(p: Primitives, m1: Roster, m2: Roster)
    requires WellKeyed(m1) && WellKeyed(m2)
    requires ShortKeys(m1) && ShortKeys(m2)
    requires MemberSetHash(p, m1) == MemberSetHash(p, m2)
    ensures m1 == m2 || (Preimage(m1) != Preimage(m2) && p.blake3(Preimage(m1)) == p.blake3(Preimage(m2)))
  {
    if Preimage(m1) == Preimage(m2) { PreimageInjective(m1, m2); }
  }

  lemma AscendingPair(d: DeviceId, e: DeviceId)
    requires LexLess(d, e)
    ensures Ascending({d, e}) == [d, e]
    ensures Ascending({d}) == [d]
  {
    LexTrichotomy(d, e);
    assert {d, e} - {d} == {e} && {e} - {e} == {} && {d} - {d} == {};
    AscendingStep({d, e}, d);
    AscendingStep({e}, e);
    AscendingStep({d}, d);
  }

  lemma PairRecords(d: DeviceId, e: DeviceId, members: Roster)
    requires d in members && e in members
    ensures Records([d, e], members) == Record(d, members[d]) + (Record(e, members[e]) + [])
  {
    assert [d, e][1..] == [e] && [e][1..] == [];
    assert Records([e], members) == Record(e, members[e]) + Records([], members);
  }

  /** The length bound is needed: a key of exactly 2^32 bytes is written with length 0, and its
      bytes can then be read as the rest of one record and a second member. */
  lemma TruncatedLengthCollides(d: DeviceId, e: DeviceId, k1: Hash32, k2: Hash32, t: Bytes)
    requires LexLess(d, e)
    requires |t| == TWO32 - 68
    ensures var one := map[d := MemberInfo(d, k1 + e + Le32(|t|) + t, k2)];
            var two := map[d := MemberInfo(d, [], k1), e := MemberInfo(e, t, k2)];
            one != two && Preimage(one) == Preimage(two)
  {
    var key := k1 + e + Le32(|t|) + t;
    var one := map[d := MemberInfo(d, key, k2)];
    var two := map[d := MemberInfo(d, [], k1), e := MemberInfo(e, t, k2)];
    LexTrichotomy(d, e);
    AscendingPair(d, e);
    assert one.Keys == {d} && two.Keys == {d, e};
    assert |key| == TWO32 && Le32(TWO32) == Le32(0);
    PairRecords(d, e, two);
    assert Records([d], one) == Record(d, one[d]) + [];
    RecordFields(d, one[d], []);
    RecordFields(d, two[d], Record(e, two[e]) + []);
    RecordFields(e, two[e], []);
    Assoc(k1 + e + Le32(|t|), t, k2 + []);
    Assoc(k1 + e, Le32(|t|), t + (k2 + []));
    Assoc(k1, e, Le32(|t|) + (t + (k2 + [])));
    assert [] + (k1 + (Record(e, two[e]) + [])) == k1 + (Record(e, two[e]) + []);
  }
}
