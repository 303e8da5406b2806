/** The workspace-log verifier: a signed hash chain whose longest valid prefix fixes the roster,
    the epoch and the head. */
module WsLog {
  import opened ByteStrings
  import opened Wrappers
  import opened LogEntries
  import opened MemberSet

  datatype VerifiedLog = VerifiedLog(
    workspaceId: Hash32,
    workspaceName: string,
    creator: DeviceId,
    headSeq: nat,
    headHash: Hash32,
    epoch: nat,
    members: Roster,
    accepted: nat)

  datatype LogError = EmptyLog | GenesisUndecodable | GenesisSignature | NotGenesis

  /** What the verification loop carries: the result so far and the grant keys already used. */
  datatype ChainState = ChainState(log: VerifiedLog, consumed: set<Bytes>)

  // ----- What one entry needs, and what it changes -----

  function SaturatingAdd(a: u64, b: nat): u64 {
    if a + b > U64_MAX then U64_MAX else a + b
  }

  /** A grant lapses one day after its expiry; with `now == 0` it never does. */
  predicate Expired(now: u64, gc: GrantCert) {
    now > 0 && now > SaturatingAdd(gc.expiresAt, DAY_MS)
  }

  predicate SignedBy(p: Primitives, members: Roster, d: DeviceId, e: LogEntry) {
    d in members && VerifyWithSpki(p, members[d].spkiDer, DOMAIN_LOG, EntrySignView(p, e), e.sig)
  }

  /** The rules an entry must meet to follow state `s`, apart from its place in the chain. */
  ghost predicate Authorised(p: Primitives, s: ChainState, e: LogEntry, now: u64) {
    match e
    case Genesis(_, _, _, _, _, _) => false
    case Add(_, _, gc, _, _, _, sig) =>
      && gc.sponsor in s.log.members
      && gc.workspaceId == s.log.workspaceId
      && VerifyWithSpki(p, s.log.members[gc.sponsor].spkiDer, DOMAIN_GRANT, GrantSignView(p, gc), gc.sig)
      && !Expired(now, gc)
      && VerifyWithSpki(p, gc.grantPk, DOMAIN_LOG, EntrySignView(p, e), sig)
      && gc.grantPk !in s.consumed
    case Remove(_, _, _, _, remover, _) =>
      SignedBy(p, s.log.members, remover, e)
    case Epoch(_, _, epochNo, rotator, _, msh, _, _, _) =>
      && SignedBy(p, s.log.members, rotator, e)
      && epochNo == s.log.epoch + 1
      && msh == MemberSetHash(p, s.log.members)
    case RotateKem(_, _, subject, _, _, _) =>
      SignedBy(p, s.log.members, subject, e)
  }

  function MembersAfter(p: Primitives, members: Roster, e: LogEntry): Roster {
    match e
    case Add(_, _, _, spki, kemPk, _, _) => members[p.sha256(spki) := MemberInfo(p.sha256(spki), spki, kemPk)]
    case Remove(_, _, target, _, _, _) => members - {target}
    case RotateKem(_, _, subject, kemPk, _, _) =>
      if subject in members then members[subject := members[subject].(kemPk := kemPk)] else members
    case _ => members
  }

  predicate Follows(log: VerifiedLog, e: LogEntry) {
    e.PrevHash() == Some(log.headHash) && e.Seq() == log.headSeq + 1
  }

  function Effect(p: Primitives, s: ChainState, e: LogEntry, b: Bytes): ChainState {
    ChainState(
      s.log.(headSeq := e.Seq(),
             headHash := p.blake3(b),
             epoch := if e.Epoch? then e.epochNo else s.log.epoch,
             members := MembersAfter(p, s.log.members, e),
             accepted := s.log.accepted + 1),
      if e.Add? then s.consumed + {e.grantCert.grantPk} else s.consumed)
  }

  /** One iteration of the loop; `None` when it stops at `b`. */
  ghost function Advance(p: Primitives, s: ChainState, b: Bytes, now: u64): Option<ChainState> {
    match p.decodeEntry(b)
    case None => None
    case Some(e) => if Follows(s.log, e) && Authorised(p, s, e, now) then Some(Effect(p, s, e, b)) else None
  }

  function Founder(p: Primitives, e: LogEntry): MemberInfo
    requires e.Genesis?
  {
    MemberInfo(p.sha256(e.creatorSpki), e.creatorSpki, e.creatorKemPk)
  }

  function Start(p: Primitives, first: Bytes): Result<ChainState, LogError> {
    match p.decodeEntry(first)
    case None => Err(GenesisUndecodable)
    case Some(e) =>
      if !e.Genesis? then Err(NotGenesis)
      else if !VerifyWithSpki(p, e.creatorSpki, DOMAIN_LOG, EntrySignView(p, e), e.sig) then Err(GenesisSignature)
      else
        var m := Founder(p, e);
        var id := p.blake3(first);
        Ok(ChainState(VerifiedLog(id, e.workspaceName, m.deviceId, 0, id, 0, map[m.deviceId := m], 1), {}))
  }

  ghost function Run(p: Primitives, s: ChainState, entries: seq<Bytes>, now: u64): ChainState
    decreases |entries|
  {
    if entries == [] then s else
      match Advance(p, s, entries[0], now)
      case None => s
      case Some(next) => Run(p, next, entries[1..], now)
  }

  ghost function VerifyChain(p: Primitives, entries: seq<Bytes>, now: u64): Result<VerifiedLog, LogError> {
    if entries == [] then Err(EmptyLog) else
      match Start(p, entries[0])
      case Err(err) => Err(err)
      case Ok(s) => Ok(Run(p, s, entries[1..], now).log)
  }

  /** The loop's body: the entry's effect, or `None` where the loop stops. */
  method TakeEntry(p: Primitives, s: ChainState, b: Bytes, now: u64) returns (next: Option<ChainState>)
    ensures next == Advance(p, s, b, now)
  {
    var decoded := p.decodeEntry(b);
    if decoded.None? { return None; }
    var entry := decoded.value;
    if entry.PrevHash() != Some(s.log.headHash) { return None; }
    if entry.Seq() != s.log.headSeq + 1 { return None; }
    if entry.Genesis? { return None; }
    var members, epoch, consumed := s.log.members, s.log.epoch, s.consumed;
    if entry.Add? {
      var gc := entry.grantCert;
      if gc.sponsor !in members { return None; }
      if gc.workspaceId != s.log.workspaceId { return None; }
      if !VerifyWithSpki(p, members[gc.sponsor].spkiDer, DOMAIN_GRANT, GrantSignView(p, gc), gc.sig) { return None; }
      if Expired(now, gc) { return None; }
      if !VerifyWithSpki(p, gc.grantPk, DOMAIN_LOG, EntrySignView(p, entry), entry.sig) { return None; }
      if gc.grantPk in consumed { return None; }
      consumed := consumed + {gc.grantPk};
      var did := p.sha256(entry.subjectSpki);
      members := members[did := MemberInfo(did, entry.subjectSpki, entry.subjectKemPk)];
    } else if entry.Remove? {
      if !SignedBy(p, members, entry.remover, entry) { return None; }
      members := members - {entry.target};
    } else if entry.Epoch? {
      if !SignedBy(p, members, entry.rotator, entry) { return None; }
      if entry.epochNo != epoch + 1 { return None; }
      var msh := ComputeMemberSetHash(p, members);
      if entry.memberSetHash != msh { return None; }
      epoch := entry.epochNo;
    } else {
      if !SignedBy(p, members, entry.subject, entry) { return None; }
      members := members[entry.subject := members[entry.subject].(kemPk := entry.newKemPk)];
    }
    next := Some(ChainState(s.log.(headSeq := entry.Seq(), headHash := p.blake3(b), epoch := epoch, members := members,
                                   accepted := s.log.accepted + 1),
                            consumed));
  }

  method OpenLog(p: Primitives, first: Bytes) returns (r: Result<ChainState, LogError>)
    ensures r == Start(p, first)
  {
    var g := p.decodeEntry(first);
    if g.None? { return Err(GenesisUndecodable); }
    var e := g.value;
    if !e.Genesis? { return Err(NotGenesis); }
    if !VerifyWithSpki(p, e.creatorSpki, DOMAIN_LOG, EntrySignView(p, e), e.sig) { return Err(GenesisSignature); }
    var creator := p.sha256(e.creatorSpki);
    var members: Roster := map[creator := MemberInfo(creator, e.creatorSpki, e.creatorKemPk)];
    var workspaceId := p.blake3(first);
    r := Ok(ChainState(VerifiedLog(workspaceId, e.workspaceName, creator, 0, workspaceId, 0, members, 1), {}));
  }

  /** The verifier's loop. */
  method RunVerifyChain(p: Primitives, entries: seq<Bytes>, now: u64) returns (r: Result<VerifiedLog, LogError>)
    ensures r == VerifyChain(p, entries, now)
  {
    if entries == [] { return Err(EmptyLog); }
    var start := OpenLog(p, entries[0]);
    if start.Err? { return Err(start.error); }
    var s := start.value;
    hide Start, Advance;
    var i := 1;
    while i < |entries|
      invariant 1 <= i <= |entries|
      invariant Run(p, start.value, entries[1..], now) == Run(p, s, entries[i..], now)
    {
      assert entries[i..][0] == entries[i] && entries[i..][1..] == entries[i + 1..];
      var next := TakeEntry(p, s, entries[i], now);
      if next.None? { break; }
      s := next.value;
      i := i + 1;
    }
    r := Ok(s.log);
  }

  // ----- Fully accepted logs, defined by their last entry -----

  /** The state after `log` when every one of its entries is accepted. */
  ghost function Chain(p: Primitives, log: seq<Bytes>, now: u64): Option<ChainState>
    decreases |log|
  {
    if log == [] then None
    else if |log| == 1 then
      match Start(p, log[0])
      case Err(_) => None
      case Ok(s) => Some(s)
    else
      match Chain(p, log[..|log| - 1], now)
      case None => None
      case Some(s) => Advance(p, s, log[|log| - 1], now)
  }

  lemma ChainSnoc(p: Primitives, log: seq<Bytes>, b: Bytes, now: u64)
    requires log != []
    ensures Chain(p, log + [b], now) ==
            match Chain(p, log, now) case None => None case Some(s) => Advance(p, s, b, now)
  {
    assert (log + [b])[..|log|] == log;
  }

  lemma {:induction false} ChainCounts(p: Primitives, log: seq<Bytes>, now: u64)
    requires Chain(p, log, now).Some?
    ensures Chain(p, log, now).value.log.accepted == |log|
    decreases |log|
  {
    if |log| > 1 { ChainCounts(p, log[..|log| - 1], now); }
  }

  lemma {:induction false} ChainPrefix(p: Primitives, log: seq<Bytes>, k: nat, now: u64)
    requires Chain(p, log, now).Some? && 1 <= k <= |log|
    ensures Chain(p, log[..k], now).Some?
    decreases |log|
  {
    if k == |log| {
      assert log[..k] == log;
    } else {
      assert log[..|log| - 1][..k] == log[..k];
      ChainPrefix(p, log[..|log| - 1], k, now);
    }
  }

  lemma RunStep(p: Primitives, s: ChainState, log: seq<Bytes>, k: nat, now: u64)
    requires k < |log|
    ensures Run(p, s, log[k..], now) ==
            match Advance(p, s, log[k], now) case None => s case Some(next) => Run(p, next, log[k + 1..], now)
  {
    assert log[k..][1..] == log[k + 1..];
  }

  /** `r` is the state after as many entries of `log` as it counts, and the next one is rejected. */
  ghost predicate StopsAt(p: Primitives, log: seq<Bytes>, r: ChainState, now: u64) {
    var n := r.log.accepted;
    && 1 <= n <= |log|
    && Chain(p, log[..n], now) == Some(r)
    && (n < |log| ==> Chain(p, log[..n + 1], now) == None)
  }

  lemma {:induction false} RunMeetsChain(p: Primitives, log: seq<Bytes>, k: nat, s: ChainState, now: u64)
    requires 1 <= k <= |log| && Chain(p, log[..k], now) == Some(s)
    ensures StopsAt(p, log, Run(p, s, log[k..], now), now)
    decreases |log| - k
  {
    if k == |log| {
      StopsAtEnd(p, log, s, now);
    } else {
      RunStep(p, s, log, k, now);
      ChainStep(p, log, k, now);
      hide Run, Chain, Advance, StopsAt;
      match Advance(p, s, log[k], now)
      case None => StopsBefore(p, log, k, s, now);
      case Some(next) => RunMeetsChain(p, log, k + 1, next, now);
    }
  }

  lemma StopsAtEnd(p: Primitives, log: seq<Bytes>, s: ChainState, now: u64)
    requires log != [] && Chain(p, log[..|log|], now) == Some(s)
    ensures StopsAt(p, log, Run(p, s, log[|log|..], now), now)
  {
    assert log[..|log|] == log && log[|log|..] == [];
    ChainCounts(p, log, now);
    RunNothing(p, s, now);
    hide Run, Chain;
  }

  lemma StopsBefore(p: Primitives, log: seq<Bytes>, k: nat, s: ChainState, now: u64)
    requires 1 <= k < |log| && Chain(p, log[..k], now) == Some(s) && Chain(p, log[..k + 1], now) == None
    ensures StopsAt(p, log, s, now)
  {
    ChainCounts(p, log[..k], now);
    hide Chain;
  }

  lemma RunNothing(p: Primitives, s: ChainState, now: u64)
    ensures Run(p, s, [], now) == s
  {
  }

  lemma ChainStep(p: Primitives, log: seq<Bytes>, k: nat, now: u64)
    requires 1 <= k < |log|
    ensures Chain(p, log[..k + 1], now) ==
            match Chain(p, log[..k], now) case None => None case Some(s) => Advance(p, s, log[k], now)
  {
    ChainSnoc(p, log[..k], log[k], now);
    assert log[..k] + [log[k]] == log[..k + 1];
  }

  /** The verifier returns the state of the longest prefix all of whose entries are accepted, and
      fails exactly when there is none. */
  lemma LongestValidPrefix(p: Primitives, entries: seq<Bytes>, now: u64)
    ensures VerifyChain(p, entries, now).Err? <==>
            forall k | 1 <= k <= |entries| :: Chain(p, entries[..k], now).None?
    ensures VerifyChain(p, entries, now).Ok? ==>
              var v := VerifyChain(p, entries, now).value;
              && 1 <= v.accepted <= |entries|
              && Chain(p, entries[..v.accepted], now).Some?
              && Chain(p, entries[..v.accepted], now).value.log == v
              && forall k | v.accepted < k <= |entries| :: Chain(p, entries[..k], now).None?
  {
    if entries == [] { return; }
    assert entries[..1] == [entries[0]];
    if Start(p, entries[0]).Ok? {
      RunMeetsChain(p, entries, 1, Start(p, entries[0]).value, now);
      var n := VerifyChain(p, entries, now).value.accepted;
      assert Chain(p, entries[..1], now).Some?;
      forall k | n < k <= |entries| ensures Chain(p, entries[..k], now).None? {
        assert entries[..k][..n + 1] == entries[..n + 1];
        if Chain(p, entries[..k], now).Some? { ChainPrefix(p, entries[..k], n + 1, now); }
      }
    } else {
      forall k | 1 <= k <= |entries| ensures Chain(p, entries[..k], now).None? {
        assert entries[..k][..1] == entries[..1];
        if Chain(p, entries[..k], now).Some? { ChainPrefix(p, entries[..k], 1, now); }
      }
    }
  }

  ghost predicate FullyAccepted(p: Primitives, log: seq<Bytes>, now: u64) {
    VerifyChain(p, log, now).Ok? && VerifyChain(p, log, now).value.accepted == |log|
  }

  lemma FullyAcceptedIsChain(p: Primitives, log: seq<Bytes>, now: u64)
    ensures FullyAccepted(p, log, now) <==> Chain(p, log, now).Some?
    ensures FullyAccepted(p, log, now) ==> VerifyChain(p, log, now).value == Chain(p, log, now).value.log
  {
    LongestValidPrefix(p, log, now);
    assert log[..|log|] == log;
  }

  // ----- Prefix laws -----

  /** Verifying a prefix stops where verifying the whole log stops, or at the end of the prefix. */
  lemma PrefixOfLog(p: Primitives, entries: seq<Bytes>, k: nat, now: u64)
    requires 1 <= k <= |entries|
    ensures VerifyChain(p, entries[..k], now).Err? <==> VerifyChain(p, entries, now).Err?
    ensures VerifyChain(p, entries, now).Ok? ==>
              var v := VerifyChain(p, entries, now).value;
              var u := VerifyChain(p, entries[..k], now).value;
              && u.accepted == (if k < v.accepted then k else v.accepted)
              && (v.accepted <= k ==> u == v)
              && Chain(p, entries[..u.accepted], now).Some?
              && Chain(p, entries[..u.accepted], now).value.log == u
  {
    var part := entries[..k];
    LongestValidPrefix(p, entries, now);
    LongestValidPrefix(p, part, now);
    assert part[0] == entries[0];
    if VerifyChain(p, entries, now).Ok? {
      var n := VerifyChain(p, entries, now).value.accepted;
      var m := VerifyChain(p, part, now).value.accepted;
      assert part[..m] == entries[..m];
      if n <= k {
        assert part[..n] == entries[..n];
      } else {
        ChainPrefix(p, entries[..n], k, now);
        assert entries[..n][..k] == part == part[..k];
      }
    }
  }

  /** Nothing appended after a rejected entry has any effect. */
  lemma RejectedTailIgnored(p: Primitives, entries: seq<Bytes>, more: seq<Bytes>, now: u64)
    requires entries != [] && !FullyAccepted(p, entries, now)
    ensures VerifyChain(p, entries + more, now) == VerifyChain(p, entries, now)
  {
    var all := entries + more;
    assert all[..|entries|] == entries;
    PrefixOfLog(p, all, |entries|, now);
    LongestValidPrefix(p, entries, now);
    assert all[0] == entries[0];
  }

  /** Appending to a fully accepted log runs the loop body once more. */
  lemma AppendIsOneStep(p: Primitives, log: seq<Bytes>, b: Bytes, now: u64)
    requires FullyAccepted(p, log, now)
    ensures Chain(p, log, now).Some?
    ensures match Advance(p, Chain(p, log, now).value, b, now)
            case None => VerifyChain(p, log + [b], now) == VerifyChain(p, log, now)
            case Some(s) => VerifyChain(p, log + [b], now) == Ok(s.log) && FullyAccepted(p, log + [b], now)
  {
    FullyAcceptedIsChain(p, log, now);
    FullyAcceptedIsChain(p, log + [b], now);
    ChainSnoc(p, log, b, now);
    if Advance(p, Chain(p, log, now).value, b, now).None? {
      assert (log + [b])[..|log|] == log;
      PrefixOfLog(p, log + [b], |log|, now);
      LongestValidPrefix(p, log + [b], now);
    }
  }

  /** An entry that meets the rules on a fully accepted log extends it. */
  lemma AppendAuthorised(p: Primitives, log: seq<Bytes>, e: LogEntry, b: Bytes, now: u64)
    requires FullyAccepted(p, log, now) && p.decodeEntry(b) == Some(e)
    requires Chain(p, log, now).Some? ==>
               Follows(Chain(p, log, now).value.log, e) && Authorised(p, Chain(p, log, now).value, e, now)
    ensures Chain(p, log, now).Some? && VerifyChain(p, log, now).value == Chain(p, log, now).value.log
    ensures FullyAccepted(p, log + [b], now)
    ensures VerifyChain(p, log + [b], now).value == Effect(p, Chain(p, log, now).value, e, b).log
  {
    hide VerifyChain, Chain, Authorised, Effect;
    FullyAcceptedIsChain(p, log, now);
    AppendIsOneStep(p, log, b, now);
  }
}
