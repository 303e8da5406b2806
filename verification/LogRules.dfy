/** The rules of the workspace log and of key wraps in terms of the primitives alone: which signatures,
    over which bytes, under whose key, an accepted entry or an adopted key rests on. */
module LogRules {
  import opened ByteStrings
  import opened Wrappers
  import opened LogEntries
  import opened MemberSet
  import opened WsLog
  import opened LogHistory
  import opened Revocation
  import opened Wire

  /** The same entry carrying signature `t`. */
  function WithSig(e: LogEntry, t: Bytes): LogEntry {
    match e
    case Genesis(v, name, spki, kemPk, at, _) => Genesis(v, name, spki, kemPk, at, t)
    case Add(h, n, gc, spki, kemPk, at, _) => Add(h, n, gc, spki, kemPk, at, t)
    case Remove(h, n, target, at, remover, _) => Remove(h, n, target, at, remover, t)
    case Epoch(h, n, epochNo, rotator, why, msh, wbh, at, _) => Epoch(h, n, epochNo, rotator, why, msh, wbh, at, t)
    case RotateKem(h, n, subject, kemPk, at, _) => RotateKem(h, n, subject, kemPk, at, t)
  }

  lemma WithSigIsUpdate(e: LogEntry, t: Bytes)
    ensures WithSig(e, t) == e.(sig := t)
  {
  }

  // ----- The first entry -----

  /** A log is opened by a Genesis signed by the key it names, and by nothing else; its founder is the
      only member, filed under the hash of that key. */
  lemma GenesisRuleIff(p: Primitives, b: Bytes, now: u64)
    ensures FullyAccepted(p, [b], now) <==>
            && p.decodeEntry(b).Some?
            && var e := p.decodeEntry(b).value;
               var signed := DOMAIN_LOG + p.encodeEntry(WithSig(e, []));
               e.Genesis? && p.verify(e.creatorSpki, signed, e.sig)
    ensures FullyAccepted(p, [b], now) ==>
              var e := p.decodeEntry(b).value;
              var founder := p.sha256(e.creatorSpki);
              VerifyChain(p, [b], now) ==
              Ok(VerifiedLog(p.blake3(b), e.workspaceName, founder, 0, p.blake3(b), 0,
                             map[founder := MemberInfo(founder, e.creatorSpki, e.creatorKemPk)], 1))
  {
    assert [b][1..] == [];
    if p.decodeEntry(b).Some? { WithSigIsUpdate(p.decodeEntry(b).value, []); }
  }

  /** A list of entries is refused as a whole for one of four reasons, by its first entry only. */
  lemma RefusedLogIff(p: Primitives, entries: seq<Bytes>, now: u64)
    ensures var r := VerifyChain(p, entries, now);
            var first := if entries == [] then None else p.decodeEntry(entries[0]);
            && (r == Err(EmptyLog) <==> entries == [])
            && (r == Err(GenesisUndecodable) <==> entries != [] && first.None?)
            && (r == Err(NotGenesis) <==> first.Some? && !first.value.Genesis?)
            && (r == Err(GenesisSignature) <==>
                  && first.Some? && first.value.Genesis?
                  && !p.verify(first.value.creatorSpki, DOMAIN_LOG + p.encodeEntry(WithSig(first.value, [])),
                               first.value.sig))
  {
    if entries != [] && p.decodeEntry(entries[0]).Some? { WithSigIsUpdate(p.decodeEntry(entries[0]).value, []); }
    hide WithSig, Run;
  }

  // ----- Every later entry -----

  /** What `e` must meet to follow `log`, whose roster and epoch are given. */
  ghost predicate RuleMet(p: Primitives, log: seq<Bytes>, members: Roster, epoch: nat, e: LogEntry, now: u64)
    requires log != []
  {
    var signed := DOMAIN_LOG + p.encodeEntry(WithSig(e, []));
    && !e.Genesis?
    && e.prevHash == p.blake3(log[|log| - 1])
    && e.seqNo == |log|
    && match e
       case Genesis(_, _, _, _, _, _) => false
       case Add(_, _, gc, _, _, _, sig) =>
         && gc.sponsor in members
         && gc.workspaceId == p.blake3(log[0])
         && p.verify(members[gc.sponsor].spkiDer, DOMAIN_GRANT + p.encodeGrant(gc.(sig := [])), gc.sig)
         && (now == 0 || now <= gc.expiresAt + 86_400_000 || gc.expiresAt + 86_400_000 > 0xFFFF_FFFF_FFFF_FFFF)
         && p.verify(gc.grantPk, signed, sig)
         && !GrantUsed(p, log, gc.grantPk)
       case Remove(_, _, _, _, remover, sig) =>
         remover in members && p.verify(members[remover].spkiDer, signed, sig)
       case Epoch(_, _, epochNo, rotator, _, msh, _, _, sig) =>
         && rotator in members && p.verify(members[rotator].spkiDer, signed, sig)
         && epochNo == epoch + 1 && msh == p.blake3(Preimage(members))
       case RotateKem(_, _, subject, _, _, sig) =>
         subject in members && p.verify(members[subject].spkiDer, signed, sig)
  }

  /** The roster after an accepted entry. */
  ghost function RosterAfter(p: Primitives, members: Roster, e: LogEntry): Roster {
    match e
    case Genesis(_, _, _, _, _, _) => members
    case Add(_, _, _, spki, kemPk, _, _) => members[p.sha256(spki) := MemberInfo(p.sha256(spki), spki, kemPk)]
    case Remove(_, _, target, _, _, _) => map d | d in members && d != target :: members[d]
    case Epoch(_, _, _, _, _, _, _, _, _) => members
    case RotateKem(_, _, subject, kemPk, _, _) =>
      map d | d in members ::
        if d == subject then MemberInfo(members[d].deviceId, members[d].spkiDer, kemPk) else members[d]
  }

  lemma RuleIsAuthorised(p: Primitives, log: seq<Bytes>, s: ChainState, e: LogEntry, now: u64)
    requires Chain(p, log, now) == Some(s)
    ensures Follows(s.log, e) && Authorised(p, s, e, now) <==> RuleMet(p, log, s.log.members, s.log.epoch, e, now)
  {
    ChainLinks(p, log, now);
    ChainGrants(p, log, now);
    WithSigIsUpdate(e, []);
    hide WithSig;
    hide Chain, LinkedAt, GrantsDistinct, GrantUsed;
  }

  lemma EffectIsRosterAfter(p: Primitives, members: Roster, e: LogEntry)
    requires e.RotateKem? ==> e.subject in members
    ensures MembersAfter(p, members, e) == RosterAfter(p, members, e)
  {
    if e.Remove? {
      assert members - {e.target} == RosterAfter(p, members, e);
    } else if e.RotateKem? {
      assert MembersAfter(p, members, e).Keys == RosterAfter(p, members, e).Keys;
    }
  }

  /** What an accepted log becomes when `e`, with bytes `b`, is taken onto it. */
  ghost function LogAfter(p: Primitives, v: VerifiedLog, e: LogEntry, b: Bytes): VerifiedLog {
    VerifiedLog(v.workspaceId, v.workspaceName, v.creator, v.accepted, p.blake3(b),
                if e.Epoch? then v.epoch + 1 else v.epoch, RosterAfter(p, v.members, e), v.accepted + 1)
  }

  lemma StepIsRule(p: Primitives, log: seq<Bytes>, s: ChainState, b: Bytes, now: u64)
    requires Chain(p, log, now) == Some(s)
    ensures log != []
    ensures Advance(p, s, b, now).Some? <==>
            p.decodeEntry(b).Some? && RuleMet(p, log, s.log.members, s.log.epoch, p.decodeEntry(b).value, now)
    ensures Advance(p, s, b, now).Some? ==>
              Advance(p, s, b, now).value.log == LogAfter(p, s.log, p.decodeEntry(b).value, b)
  {
    ChainLinks(p, log, now);
    ChainCounts(p, log, now);
    hide Chain, RosterAfter, MembersAfter, Authorised, RuleMet;
    if p.decodeEntry(b).Some? {
      var e := p.decodeEntry(b).value;
      RuleIsAuthorised(p, log, s, e, now);
      if Advance(p, s, b, now).Some? { StepEffect(p, log, s, e, now); }
    }
  }

  lemma StepEffect(p: Primitives, log: seq<Bytes>, s: ChainState, e: LogEntry, now: u64)
    requires log != [] && RuleMet(p, log, s.log.members, s.log.epoch, e, now)
    ensures MembersAfter(p, s.log.members, e) == RosterAfter(p, s.log.members, e)
    ensures e.Epoch? ==> e.epochNo == s.log.epoch + 1
    ensures e.Seq() == |log|
  {
    EffectIsRosterAfter(p, s.log.members, e);
    hide RosterAfter, MembersAfter;
  }

  /** An entry extends an accepted log exactly when it decodes and meets its rule, and then it has exactly
      the effect its kind says; an entry that does not leaves everything as it was. */
  lemma EntryRuleIff(p: Primitives, log: seq<Bytes>, b: Bytes, now: u64)
    requires FullyAccepted(p, log, now)
    ensures log != []
    ensures var v := VerifyChain(p, log, now).value;
            var stands := p.decodeEntry(b).Some? && RuleMet(p, log, v.members, v.epoch, p.decodeEntry(b).value, now);
            && (FullyAccepted(p, log + [b], now) <==> stands)
            && VerifyChain(p, log + [b], now) == Ok(if stands then LogAfter(p, v, p.decodeEntry(b).value, b) else v)
  {
    FullyAcceptedIsChain(p, log, now);
    FullyAcceptedIsChain(p, log + [b], now);
    AppendIsOneStep(p, log, b, now);
    ChainSnoc(p, log, b, now);
    hide VerifyChain, Chain, LogAfter, RuleMet, Advance;
    StepIsRule(p, log, Chain(p, log, now).value, b, now);
  }

  /** Every entry of an accepted log met its rule over the entries before it: it is signed, with the key
      the roster held at that point, by the member it rests on, and an Add also by that member's grant. */
  lemma EveryEntryMeetsItsRule(p: Primitives, log: seq<Bytes>, i: nat, now: u64)
    requires FullyAccepted(p, log, now) && 0 < i < |log|
    ensures FullyAccepted(p, log[..i], now) && p.decodeEntry(log[i]).Some?
    ensures var v := VerifyChain(p, log[..i], now).value;
            && v.members == RosterAt(p, log, i, now)
            && RuleMet(p, log[..i], v.members, v.epoch, p.decodeEntry(log[i]).value, now)
  {
    FullyAcceptedIsChain(p, log, now);
    ChainPrefix(p, log, i, now);
    ChainPrefix(p, log, i + 1, now);
    FullyAcceptedIsChain(p, log[..i], now);
    FullyAcceptedIsChain(p, log[..i + 1], now);
    assert log[..i] + [log[i]] == log[..i + 1];
    EntryRuleIff(p, log[..i], log[i], now);
    hide VerifyChain, Chain, RuleMet;
  }

  lemma FirstEntryMeetsItsRule(p: Primitives, log: seq<Bytes>, now: u64)
    requires FullyAccepted(p, log, now)
    ensures log != [] && p.decodeEntry(log[0]).Some?
    ensures var e := p.decodeEntry(log[0]).value;
            var signed := DOMAIN_LOG + p.encodeEntry(WithSig(e, []));
            e.Genesis? && p.verify(e.creatorSpki, signed, e.sig)
  {
    FullyAcceptedIsChain(p, log, now);
    ChainLinks(p, log, now);
    ChainPrefix(p, log, 1, now);
    FullyAcceptedIsChain(p, log[..1], now);
    assert log[..1] == [log[0]];
    GenesisRuleIff(p, log[0], now);
    hide VerifyChain, Chain;
  }

  // ----- Key wraps -----

  /** When a device takes a key from any bytes whatever: exactly when they open, under its own key and
      bound to this workspace and itself, to a blob signed by a member of its accepted roster, for its
      present epoch and over the digest of that roster; and then it takes the key in the blob. */
  lemma KeyTakenIff(p: Primitives, id: Identity, wid: Hash32, log: seq<Bytes>, wrapped: Bytes)
    ensures var plain := p.kemOpen(id.kemSecret, wid + id.deviceId, wrapped);
            var key := AdoptedKey(p, id, wid, log, wrapped);
            && (key.Some? <==>
                  && plain.Some? && p.decodeBlob(plain.value).Some? && VerifyChain(p, log, 0).Ok?
                  && var blob, v := p.decodeBlob(plain.value).value, VerifyChain(p, log, 0).value;
                  && blob.from in v.members
                  && p.verify(v.members[blob.from].spkiDer, DOMAIN_ROTWRAP + p.encodeBlob(blob.(sig := [])), blob.sig)
                  && blob.newEpoch == v.epoch
                  && blob.memberSetHash == p.blake3(Preimage(v.members)))
            && (key.Some? ==>
                  var blob := p.decodeBlob(plain.value).value;
                  key.value == GroupKey(blob.newEpoch, blob.groupKey))
  {
    hide VerifyChain, Preimage;
  }

  /** When a member hands a newcomer its key: exactly when its log verifies, it has a key and a workspace,
      the new entry is an Add of another device, and sealing succeeds; and what it seals then. */
  lemma JoinReplyIff(p: Primitives, id: Identity, gk: Option<GroupKey>, wid: Option<Hash32>, log: seq<Bytes>,
                     entry: Bytes, rnd: Bytes)
    ensures var reply := JoinReply(p, id, gk, wid, log, entry, rnd);
            var e := p.decodeEntry(entry);
            if !(VerifyChain(p, log, 0).Ok? && gk.Some? && wid.Some? && e.Some? && e.value.Add? &&
                 p.sha256(e.value.subjectSpki) != id.deviceId)
            then reply == None
            else
              var v, to := VerifyChain(p, log, 0).value, p.sha256(e.value.subjectSpki);
              var bare := RotationBlob(gk.value.epoch, gk.value.key, Join, v.headHash, p.blake3(Preimage(v.members)),
                                       id.deviceId, []);
              var blob := bare.(sig := p.sign(id.signingKey, DOMAIN_ROTWRAP + p.encodeBlob(bare)));
              var wrap := p.kemSeal(e.value.subjectKemPk, wid.value + to, p.encodeBlob(blob), rnd);
              reply == if wrap.Some? then Some(KeyUpdate(to, gk.value.epoch, wrap.value)) else None
  {
    hide VerifyChain, Preimage;
    if gk.Some? && VerifyChain(p, log, 0).Ok? {
      var v := VerifyChain(p, log, 0).value;
      var bare := RotationBlob(gk.value.epoch, gk.value.key, Join, v.headHash, p.blake3(Preimage(v.members)),
                               id.deviceId, []);
      assert bare.(sig := []) == bare;
    }
  }

  /** The two entries of a revocation, the blob and the wraps, field by field. */
  lemma PlanContents(p: Primitives, me: Identity, wid: Hash32, log: seq<Bytes>, target: DeviceId, draw: Draw)
    requires EntryCodecLaw(p) && VerifyChain(p, log, 0).Ok?
    requires PlanRevocation(p, me, wid, log, target, draw).Ok?
    ensures var plan := PlanRevocation(p, me, wid, log, target, draw).value;
            var v := VerifyChain(p, log, 0).value;
            && VerifyChain(p, log + [plan.removeBytes], 0).Ok?
            && var v2 := VerifyChain(p, log + [plan.removeBytes], 0).value;
            var remove := Remove(v.headHash, v.headSeq + 1, target, draw.removedAt, me.deviceId, []);
            var epoch := Epoch(v2.headHash, v2.headSeq + 1, v.epoch + 1, me.deviceId, Revoke(target),
                               p.blake3(Preimage(v2.members)), ZERO_HASH, draw.rotatedAt, []);
            var blob := RotationBlob(v.epoch + 1, draw.key, Revoke(target), p.blake3(plan.epochBytes),
                                     p.blake3(Preimage(v2.members)), me.deviceId, []);
            && target in v.members
            && plan.removeBytes ==
               p.encodeEntry(WithSig(remove, p.sign(me.signingKey, DOMAIN_LOG + p.encodeEntry(remove))))
            && plan.epochBytes ==
               p.encodeEntry(WithSig(epoch, p.sign(me.signingKey, DOMAIN_LOG + p.encodeEntry(epoch))))
            && plan.blob == blob.(sig := p.sign(me.signingKey, DOMAIN_ROTWRAP + p.encodeBlob(blob)))
            && forall u | u in plan.updates ::
                 && u.to in v2.members && u.to != me.deviceId && u.epoch == v.epoch + 1
                 && p.kemSeal(v2.members[u.to].kemPk, wid + u.to, p.encodeBlob(plan.blob), draw.seal(u.to)) ==
                    Some(u.wrap)
  {
    hide VerifyChain, Preimage, SealAll, Ascending;
    var plan := PlanRevocation(p, me, wid, log, target, draw).value;
    var v := VerifyChain(p, log, 0).value;
    var v2 := VerifyChain(p, log + [plan.removeBytes], 0).value;
    var remove := Remove(v.headHash, v.headSeq + 1, target, draw.removedAt, me.deviceId, []);
    var epoch := Epoch(v2.headHash, v2.headSeq + 1, v.epoch + 1, me.deviceId, Revoke(target),
                       p.blake3(Preimage(v2.members)), ZERO_HASH, draw.rotatedAt, []);
    var blob := RotationBlob(v.epoch + 1, draw.key, Revoke(target), p.blake3(plan.epochBytes),
                             p.blake3(Preimage(v2.members)), me.deviceId, []);
    assert blob.(sig := []) == blob;
    SealAllCovers(p, Ascending(v2.members.Keys), v2.members, me.deviceId, wid, plan.blob, draw);
  }

  /** A revocation is refused, before anything is sealed, for a log that does not verify and for a target
      that is not in its roster, and for nothing else. */
  lemma PlanRefusedIff(p: Primitives, me: Identity, wid: Hash32, log: seq<Bytes>, target: DeviceId, draw: Draw)
    ensures var r, v := PlanRevocation(p, me, wid, log, target, draw), VerifyChain(p, log, 0);
            && (v.Err? ==> r == Err(BadLog(v.error)))
            && (v.Ok? && target !in v.value.members ==> r == Err(NotAMember))
            && (v.Ok? && target in v.value.members ==> r.Ok? || r == Err(RevokeError.SealFailed))
  {
    hide VerifyChain, PlanRotation, RemoveFor;
    if VerifyChain(p, log, 0).Ok? && target in VerifyChain(p, log, 0).value.members {
      PlanIsRotation(p, me, wid, log, target, draw);
    }
  }

  lemma PlanIsRotation(p: Primitives, me: Identity, wid: Hash32, log: seq<Bytes>, target: DeviceId, draw: Draw)
    requires VerifyChain(p, log, 0).Ok? && target in VerifyChain(p, log, 0).value.members
    ensures PlanRevocation(p, me, wid, log, target, draw).Ok? ||
            PlanRevocation(p, me, wid, log, target, draw) == Err(RevokeError.SealFailed)
  {
    hide VerifyChain, SealAll, EpochFor, BlobFor, RemoveFor, MemberSetHash;
    var b := RemoveFor(p, me, VerifyChain(p, log, 0).value, target, draw);
    LongerLogVerifies(p, log, b);
  }

  lemma LongerLogVerifies(p: Primitives, log: seq<Bytes>, b: Bytes)
    requires VerifyChain(p, log, 0).Ok?
    ensures VerifyChain(p, log + [b], 0).Ok?
  {
    RefusedLogIff(p, log, 0);
    RefusedLogIff(p, log + [b], 0);
    hide VerifyChain, WithSig;
    if log != [] { assert (log + [b])[0] == log[0]; }
  }

  // ----- What the builders sign -----

  /** The first entry of a workspace, a grant, the entry of a newcomer and that of a new sealing key, field
      by field: signed with the founder's, the sponsor's, the grant's and the member's own key. */
  lemma BuilderContents(p: Primitives, id: Identity, name: string, kemPk: Hash32, at: u64, grantPk: Bytes,
                        expiresAt: u64, wid: Hash32, grantSk: Bytes, spki: Bytes, prevHash: Hash32, seqNo: nat)
    ensures var genesis := Genesis(1, name, id.spkiDer, kemPk, at, []);
            BuildGenesis(p, id, name, kemPk, at) ==
            WithSig(genesis, p.sign(id.signingKey, DOMAIN_LOG + p.encodeEntry(genesis)))
    ensures var grant := GrantCert(grantPk, id.deviceId, expiresAt, wid, []);
            BuildGrantCert(p, id, grantPk, expiresAt, wid) ==
            GrantCert(grantPk, id.deviceId, expiresAt, wid,
                      p.sign(id.signingKey, DOMAIN_GRANT + p.encodeGrant(grant)))
    ensures var grant := BuildGrantCert(p, id, grantPk, expiresAt, wid);
            var add := Add(prevHash, seqNo, grant, spki, kemPk, at, []);
            BuildAdd(p, grantSk, grant, spki, kemPk, prevHash, seqNo, at) ==
            WithSig(add, p.sign(grantSk, DOMAIN_LOG + p.encodeEntry(add)))
    ensures var rotate := RotateKem(prevHash, seqNo, id.deviceId, kemPk, at, []);
            BuildRotateKem(p, id, prevHash, seqNo, kemPk, at) ==
            WithSig(rotate, p.sign(id.signingKey, DOMAIN_LOG + p.encodeEntry(rotate)))
  {
    var grant := GrantCert(grantPk, id.deviceId, expiresAt, wid, []);
    assert grant.(sig := []) == grant;
  }

  // ----- Domains -----

  predicate Spells(b: Bytes, s: string) {
    |b| == |s| && forall i | 0 <= i < |s| :: b[i] == s[i] as int
  }

  /** The three purposes of a signature are kept apart: what is signed for one is never what is signed
      for another. */
  lemma DomainsSeparate(m1: Bytes, m2: Bytes)
    ensures Spells(DOMAIN_LOG, "sb/log/v1\0") && Spells(DOMAIN_GRANT, "sb/grant-v1\0")
    ensures Spells(DOMAIN_ROTWRAP, "sb/rotwrap-v1\0")
    ensures DOMAIN_LOG + m1 != DOMAIN_GRANT + m2 && DOMAIN_LOG + m1 != DOMAIN_ROTWRAP + m2
    ensures DOMAIN_GRANT + m1 != DOMAIN_ROTWRAP + m2
  {
    assert (DOMAIN_LOG + m1)[3] == 108 && (DOMAIN_GRANT + m1)[3] == 103 && (DOMAIN_GRANT + m2)[3] == 103;
    assert (DOMAIN_ROTWRAP + m2)[3] == 114;
  }
}
