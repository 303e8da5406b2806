/** What a verified log says about its whole history. */
module LogHistory {
  import opened ByteStrings
  import opened Wrappers
  import opened LogEntries
  import opened MemberSet
  import opened WsLog

  // ----- The shape of the accepted prefix -----

  ghost function EpochCount(p: Primitives, log: seq<Bytes>): nat
    decreases |log|
  {
    if log == [] then 0 else
      var e := p.decodeEntry(log[|log| - 1]);
      EpochCount(p, log[..|log| - 1]) + if e.Some? && e.value.Epoch? then 1 else 0
  }

  predicate IsAdd(p: Primitives, b: Bytes) {
    p.decodeEntry(b).Some? && p.decodeEntry(b).value.Add?
  }

  /** Entry `i` decodes, carries number `i` and links to the hash of entry `i - 1`. */
  predicate LinkedAt(p: Primitives, log: seq<Bytes>, i: nat)
    requires i < |log|
  {
    && p.decodeEntry(log[i]).Some?
    && p.decodeEntry(log[i]).value.Seq() == i
    && p.decodeEntry(log[i]).value.PrevHash() == if i == 0 then None else Some(p.blake3(log[i - 1]))
  }

  ghost predicate GrantUsed(p: Primitives, log: seq<Bytes>, g: Bytes) {
    exists i :: 0 <= i < |log| && IsAdd(p, log[i]) && p.decodeEntry(log[i]).value.grantCert.grantPk == g
  }

  ghost predicate GrantsDistinct(p: Primitives, log: seq<Bytes>) {
    forall i, j | 0 <= i < j < |log| && IsAdd(p, log[i]) && IsAdd(p, log[j]) ::
      p.decodeEntry(log[i]).value.grantCert.grantPk != p.decodeEntry(log[j]).value.grantCert.grantPk
  }

  /** Every roster entry is filed under the SHA-256 of its own key. */
  ghost predicate RosterBound(p: Primitives, members: Roster) {
    forall d | d in members :: members[d].deviceId == d && p.sha256(members[d].spkiDer) == d
  }

  ghost predicate WellFormedHistory(p: Primitives, log: seq<Bytes>, v: VerifiedLog) {
    && log != []
    && v.headSeq == |log| - 1
    && v.headHash == p.blake3(log[|log| - 1])
    && v.workspaceId == p.blake3(log[0])
    && v.epoch == EpochCount(p, log)
    && RosterBound(p, v.members)
    && GrantsDistinct(p, log)
    && forall i | 0 <= i < |log| :: LinkedAt(p, log, i)
  }

  /** The last entry of a fully accepted log, and what it did. */
  lemma LastEntry(p: Primitives, log: seq<Bytes>, now: u64)
    requires Chain(p, log, now).Some? && |log| > 1
    ensures Chain(p, log[..|log| - 1], now).Some? && p.decodeEntry(log[|log| - 1]).Some?
    ensures var s, e := Chain(p, log[..|log| - 1], now).value, p.decodeEntry(log[|log| - 1]).value;
            && Follows(s.log, e)
            && Authorised(p, s, e, now)
            && Chain(p, log, now).value == Effect(p, s, e, log[|log| - 1])
  {
  }

  lemma {:induction false} ChainLinks(p: Primitives, log: seq<Bytes>, now: u64)
    requires Chain(p, log, now).Some?
    ensures var v := Chain(p, log, now).value.log;
            && v.headSeq == |log| - 1
            && v.headHash == p.blake3(log[|log| - 1])
            && v.workspaceId == p.blake3(log[0])
    ensures forall i | 0 <= i < |log| :: LinkedAt(p, log, i)
    decreases |log|
  {
    if |log| > 1 {
      var n := |log| - 1;
      LastEntry(p, log, now);
      ChainLinks(p, log[..n], now);
      forall i | 0 <= i < n ensures LinkedAt(p, log, i) {
        assert LinkedAt(p, log[..n], i);
      }
      assert LinkedAt(p, log, n);
    }
  }

  lemma {:induction false} ChainEpochs(p: Primitives, log: seq<Bytes>, now: u64)
    requires Chain(p, log, now).Some?
    ensures Chain(p, log, now).value.log.epoch == EpochCount(p, log)
    decreases |log|
  {
    if |log| > 1 {
      LastEntry(p, log, now);
      ChainEpochs(p, log[..|log| - 1], now);
    } else {
      assert EpochCount(p, log[..0]) == 0;
    }
  }

  lemma {:induction false} ChainRoster(p: Primitives, log: seq<Bytes>, now: u64)
    requires Chain(p, log, now).Some?
    ensures RosterBound(p, Chain(p, log, now).value.log.members)
    decreases |log|
  {
    if |log| > 1 {
      LastEntry(p, log, now);
      hide Chain;
      ChainRoster(p, log[..|log| - 1], now);
    }
  }

  lemma {:induction false} ChainGrants(p: Primitives, log: seq<Bytes>, now: u64)
    requires Chain(p, log, now).Some?
    ensures GrantsDistinct(p, log)
    ensures forall g :: g in Chain(p, log, now).value.consumed <==> GrantUsed(p, log, g)
    decreases |log|
  {
    if |log| > 1 {
      var init := log[..|log| - 1];
      LastEntry(p, log, now);
      ChainGrants(p, init, now);
      forall g ensures g in Chain(p, log, now).value.consumed <==> GrantUsed(p, log, g) {
        GrantUsedSnoc(p, log, g);
      }
      GrantsDistinctSnoc(p, log);
    }
  }

  lemma GrantsDistinctSnoc(p: Primitives, log: seq<Bytes>)
    requires log != [] && GrantsDistinct(p, log[..|log| - 1])
    requires var b := log[|log| - 1];
             IsAdd(p, b) ==> !GrantUsed(p, log[..|log| - 1], p.decodeEntry(b).value.grantCert.grantPk)
    ensures GrantsDistinct(p, log)
  {
    var init := log[..|log| - 1];
    assert forall i | 0 <= i < |init| :: init[i] == log[i];
  }

  lemma ChainHistory(p: Primitives, log: seq<Bytes>, now: u64)
    requires Chain(p, log, now).Some?
    ensures WellFormedHistory(p, log, Chain(p, log, now).value.log)
  {
    ChainLinks(p, log, now);
    ChainEpochs(p, log, now);
    ChainRoster(p, log, now);
    ChainGrants(p, log, now);
  }

  lemma GrantUsedSnoc(p: Primitives, log: seq<Bytes>, g: Bytes)
    requires log != []
    ensures GrantUsed(p, log, g) <==>
            || GrantUsed(p, log[..|log| - 1], g)
            || (IsAdd(p, log[|log| - 1]) && p.decodeEntry(log[|log| - 1]).value.grantCert.grantPk == g)
  {
    var init := log[..|log| - 1];
    if GrantUsed(p, init, g) {
      var i :| 0 <= i < |init| && IsAdd(p, init[i]) && p.decodeEntry(init[i]).value.grantCert.grantPk == g;
      assert init[i] == log[i];
    }
    if GrantUsed(p, log, g) {
      var i :| 0 <= i < |log| && IsAdd(p, log[i]) && p.decodeEntry(log[i]).value.grantCert.grantPk == g;
      if i < |init| { assert init[i] == log[i]; }
    }
  }

  /** The accepted entries are numbered and linked without a gap, no grant is spent twice, the
      epoch counts the accepted rotations and every member is filed under its own key's hash. */
  lemma AcceptedPrefixInvariant(p: Primitives, entries: seq<Bytes>, now: u64)
    requires VerifyChain(p, entries, now).Ok?
    ensures var v := VerifyChain(p, entries, now).value;
            1 <= v.accepted <= |entries| && WellFormedHistory(p, entries[..v.accepted], v)
  {
    hide VerifyChain, Chain;
    LongestValidPrefix(p, entries, now);
    ChainHistory(p, entries[..VerifyChain(p, entries, now).value.accepted], now);
  }

  // ----- The head hash commits to the whole log -----

  /** Two different byte strings, one from each log, with one hash. */
  ghost predicate Collision(p: Primitives, log1: seq<Bytes>, log2: seq<Bytes>) {
    exists a, b :: a in log1 && b in log2 && a != b && p.blake3(a) == p.blake3(b)
  }

  lemma {:induction false} ChainCommitment(p: Primitives, log1: seq<Bytes>, now1: u64, log2: seq<Bytes>, now2: u64)
    requires Chain(p, log1, now1).Some? && Chain(p, log2, now2).Some?
    requires Chain(p, log1, now1).value.log.headHash == Chain(p, log2, now2).value.log.headHash
    ensures log1 == log2 || Collision(p, log1, log2)
    decreases |log1|
  {
    hide Advance;
    var n1, n2 := |log1| - 1, |log2| - 1;
    var b1, b2 := log1[n1], log2[n2];
    ChainLinks(p, log1, now1);
    ChainLinks(p, log2, now2);
    if b1 != b2 {
      assert b1 in log1 && b2 in log2;
    } else {
      assert LinkedAt(p, log1, n1) && LinkedAt(p, log2, n2);
      if n1 > 0 {
        var init1, init2 := log1[..n1], log2[..n2];
        ChainLinks(p, init1, now1);
        ChainLinks(p, init2, now2);
        ChainCommitment(p, init1, now1, init2, now2);
        if init1 == init2 {
          assert log1 == init1 + [b1] && log2 == init2 + [b2];
        } else {
          var a, b :| a in init1 && b in init2 && a != b && p.blake3(a) == p.blake3(b);
          assert a in log1 && b in log2;
        }
      }
    }
  }

  /** Two fully accepted logs with one head hash are equal entry for entry, or an entry of one and
      an entry of the other collide under BLAKE3. */
  lemma HeadHashCommitsToLog(p: Primitives, log1: seq<Bytes>, now1: u64, log2: seq<Bytes>, now2: u64)
    requires FullyAccepted(p, log1, now1) && FullyAccepted(p, log2, now2)
    requires VerifyChain(p, log1, now1).value.headHash == VerifyChain(p, log2, now2).value.headHash
    ensures log1 == log2 || Collision(p, log1, log2)
  {
    hide VerifyChain;
    FullyAcceptedIsChain(p, log1, now1);
    FullyAcceptedIsChain(p, log2, now2);
    hide Chain;
    ChainCommitment(p, log1, now1, log2, now2);
  }

  // ----- Authority ends at removal -----

  /** The member whose standing an entry rests on. */
  function Authority(e: LogEntry): Option<DeviceId> {
    match e
    case Genesis(_, _, _, _, _, _) => None
    case Add(_, _, gc, _, _, _, _) => Some(gc.sponsor)
    case Remove(_, _, _, _, remover, _) => Some(remover)
    case Epoch(_, _, _, rotator, _, _, _, _, _) => Some(rotator)
    case RotateKem(_, _, subject, _, _, _) => Some(subject)
  }

  predicate Admits(p: Primitives, b: Bytes, d: DeviceId) {
    IsAdd(p, b) && p.sha256(p.decodeEntry(b).value.subjectSpki) == d
  }

  /** The roster after the first `k` entries, when those are accepted. */
  ghost function RosterAt(p: Primitives, log: seq<Bytes>, k: nat, now: u64): Roster
    requires k <= |log|
  {
    match Chain(p, log[..k], now)
    case None => map[]
    case Some(s) => s.log.members
  }

  lemma RosterStep(p: Primitives, log: seq<Bytes>, k: nat, now: u64)
    requires Chain(p, log, now).Some? && 1 <= k < |log|
    ensures p.decodeEntry(log[k]).Some?
    ensures var e := p.decodeEntry(log[k]).value;
            && RosterAt(p, log, k + 1, now) == MembersAfter(p, RosterAt(p, log, k, now), e)
            && Authority(e).Some? && Authority(e).value in RosterAt(p, log, k, now)
  {
    ChainPrefix(p, log, k + 1, now);
    var part := log[..k + 1];
    assert part[..|part| - 1] == log[..k];
    LastEntry(p, part, now);
    hide Chain;
  }

  /** A device that enters the roster between two points was admitted between them. */
  lemma {:induction false} AdmittedBetween(p: Primitives, log: seq<Bytes>, a: nat, b: nat, d: DeviceId, now: u64)
    requires Chain(p, log, now).Some? && 1 <= a <= b <= |log|
    requires d !in RosterAt(p, log, a, now) && d in RosterAt(p, log, b, now)
    ensures exists m :: a <= m < b && Admits(p, log[m], d)
    decreases b - a
  {
    hide Chain, RosterAt;
    RosterStep(p, log, b - 1, now);
    if d in RosterAt(p, log, b - 1, now) {
      AdmittedBetween(p, log, a, b - 1, d, now);
    } else {
      assert Admits(p, log[b - 1], d);
    }
  }

  /** After an accepted removal of `target`, an accepted entry can rest on `target` again only
      behind an accepted Add of a key that hashes to it. */
  lemma AuthorityEndsAtRemoval(p: Primitives, log: seq<Bytes>, i: nat, j: nat, target: DeviceId, now: u64)
    requires FullyAccepted(p, log, now)
    requires 0 < i < j < |log|
    requires p.decodeEntry(log[i]).Some? && p.decodeEntry(log[i]).value.Remove?
    requires p.decodeEntry(log[i]).value.target == target
    requires p.decodeEntry(log[j]).Some? && Authority(p.decodeEntry(log[j]).value) == Some(target)
    ensures exists m :: i < m < j && Admits(p, log[m], target)
  {
    hide VerifyChain;
    FullyAcceptedIsChain(p, log, now);
    hide Chain, RosterAt;
    RosterStep(p, log, i, now);
    RosterStep(p, log, j, now);
    AdmittedBetween(p, log, i + 1, j, target, now);
  }

  /** A log whose roster has become empty is closed for good. */
  lemma EmptyRosterIsFinal(p: Primitives, log: seq<Bytes>, more: seq<Bytes>, now: u64)
    requires FullyAccepted(p, log, now) && VerifyChain(p, log, now).value.members == map[]
    ensures VerifyChain(p, log + more, now) == VerifyChain(p, log, now)
  {
    FullyAcceptedIsChain(p, log, now);
    if more == [] {
      assert log + more == log;
    } else {
      hide VerifyChain, Chain;
      var b := more[0];
      AppendIsOneStep(p, log, b, now);
      assert Advance(p, Chain(p, log, now).value, b, now).None?;
      assert log + more == (log + [b]) + more[1..];
      RejectedTailIgnored(p, log + [b], more[1..], now);
    }
  }

  // ----- Grant expiry -----

  /** Some entry is an Add whose grant has lapsed at `now`. */
  ghost predicate HasLapsedGrant(p: Primitives, log: seq<Bytes>, now: u64) {
    exists i :: 0 <= i < |log| && IsAdd(p, log[i]) && Expired(now, p.decodeEntry(log[i]).value.grantCert)
  }

  /** A log is accepted at `now` exactly when it is accepted without a clock and no grant in it has
      lapsed; the state reached does not depend on the clock. */
  lemma {:induction false} ClockOnlyLapses(p: Primitives, log: seq<Bytes>, now: u64)
    ensures Chain(p, log, now).Some? <==> Chain(p, log, 0).Some? && !HasLapsedGrant(p, log, now)
    ensures Chain(p, log, now).Some? ==> Chain(p, log, now) == Chain(p, log, 0)
    decreases |log|
  {
    if |log| > 1 {
      var n := |log| - 1;
      var init := log[..n];
      ClockOnlyLapses(p, init, now);
      LapsedSnoc(p, log, now);
    }
  }

  lemma LapsedSnoc(p: Primitives, log: seq<Bytes>, now: u64)
    requires log != []
    ensures HasLapsedGrant(p, log, now) <==>
            || HasLapsedGrant(p, log[..|log| - 1], now)
            || (IsAdd(p, log[|log| - 1]) && Expired(now, p.decodeEntry(log[|log| - 1]).value.grantCert))
  {
    var init := log[..|log| - 1];
    if HasLapsedGrant(p, init, now) {
      var i :| 0 <= i < |init| && IsAdd(p, init[i]) && Expired(now, p.decodeEntry(init[i]).value.grantCert);
      assert init[i] == log[i];
    }
    if HasLapsedGrant(p, log, now) {
      var i :| 0 <= i < |log| && IsAdd(p, log[i]) && Expired(now, p.decodeEntry(log[i]).value.grantCert);
      if i < |init| { assert init[i] == log[i]; }
    }
  }

  /** `n1` is no later than `n2`; 0 switches the expiry rule off and so comes before every time. */
  predicate NoLater(n1: u64, n2: u64) {
    n1 == 0 || (0 < n1 <= n2)
  }

  lemma LapsedStaysLapsed(p: Primitives, log: seq<Bytes>, n1: u64, n2: u64)
    requires NoLater(n1, n2)
    ensures HasLapsedGrant(p, log, n1) ==> HasLapsedGrant(p, log, n2)
  {
    if HasLapsedGrant(p, log, n1) {
      var i :| 0 <= i < |log| && IsAdd(p, log[i]) && Expired(n1, p.decodeEntry(log[i]).value.grantCert);
      assert Expired(n2, p.decodeEntry(log[i]).value.grantCert);
    }
  }

  /** The later the clock, the shorter the accepted prefix; and what is accepted later is what the
      earlier clock says about that shorter prefix. */
  lemma ExpiryAntiMonotone(p: Primitives, entries: seq<Bytes>, n1: u64, n2: u64)
    requires NoLater(n1, n2)
    ensures VerifyChain(p, entries, n1).Ok? <==> VerifyChain(p, entries, n2).Ok?
    ensures VerifyChain(p, entries, n2).Ok? ==>
              var v1, v2 := VerifyChain(p, entries, n1).value, VerifyChain(p, entries, n2).value;
              && v2.accepted <= v1.accepted
              && v2.accepted <= |entries|
              && VerifyChain(p, entries[..v2.accepted], n1) == Ok(v2)
  {
    hide Run, Chain;
    LongestValidPrefix(p, entries, n1);
    LongestValidPrefix(p, entries, n2);
    if VerifyChain(p, entries, n2).Ok? {
      var k := VerifyChain(p, entries, n2).value.accepted;
      var part := entries[..k];
      ClockOnlyLapses(p, part, n1);
      ClockOnlyLapses(p, part, n2);
      LapsedStaysLapsed(p, part, n1, n2);
      ChainCounts(p, part, n1);
      FullyAcceptedIsChain(p, part, n1);
    }
  }
}
