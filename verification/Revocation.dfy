/** Log builders, signed key rotations, and the revocation of a member. */
module Revocation {
  import opened ByteStrings
  import opened Wrappers
  import opened LogEntries
  import opened MemberSet
  import opened WsLog
  import opened LogHistory
  import opened Wire
  import opened Sequences

  datatype Identity = Identity(signingKey: Bytes, kemSecret: Bytes, spkiDer: Bytes, deviceId: DeviceId)

  // ----- Laws of the primitives, named where they are used -----

  ghost predicate EntryCodecLaw(p: Primitives) {
    forall e: LogEntry :: p.decodeEntry(p.encodeEntry(e)) == Some(e)
  }

  ghost predicate BlobCodecLaw(p: Primitives) {
    forall b: RotationBlob :: p.decodeBlob(p.encodeBlob(b)) == Some(b)
  }

  /** Signatures made with `sk` verify under `spki`. */
  ghost predicate KeyPair(p: Primitives, sk: Bytes, spki: Bytes) {
    forall m: Bytes :: p.verify(spki, m, p.sign(sk, m))
  }

  /** What is sealed to `pk` opens with `sk` under the same associated data. */
  ghost predicate KemPair(p: Primitives, sk: Bytes, pk: Hash32) {
    forall aad: Bytes, m: Bytes, r: Bytes | p.kemSeal(pk, aad, m, r).Some? ::
      p.kemOpen(sk, aad, p.kemSeal(pk, aad, m, r).value) == Some(m)
  }

  ghost predicate SoundIdentity(p: Primitives, id: Identity) {
    id.deviceId == p.sha256(id.spkiDer) && KeyPair(p, id.signingKey, id.spkiDer)
  }

  // ----- Builders -----

  function Signed(p: Primitives, sk: Bytes, e: LogEntry): LogEntry {
    e.(sig := p.sign(sk, DOMAIN_LOG + EntrySignView(p, e)))
  }

  function BuildGenesis(p: Primitives, id: Identity, name: string, kemPk: Hash32, createdAt: u64): LogEntry {
    Signed(p, id.signingKey, Genesis(1, name, id.spkiDer, kemPk, createdAt, []))
  }

  function BuildGrantCert(p: Primitives, sponsor: Identity, grantPk: Bytes, expiresAt: u64, wid: Hash32): GrantCert {
    var gc := GrantCert(grantPk, sponsor.deviceId, expiresAt, wid, []);
    gc.(sig := p.sign(sponsor.signingKey, DOMAIN_GRANT + GrantSignView(p, gc)))
  }

  function BuildAdd(p: Primitives, grantSk: Bytes, gc: GrantCert, spki: Bytes, kemPk: Hash32, prevHash: Hash32,
                    seqNo: nat, joinedAt: u64): LogEntry {
    Signed(p, grantSk, Add(prevHash, seqNo, gc, spki, kemPk, joinedAt, []))
  }

  function BuildRemove(p: Primitives, id: Identity, prevHash: Hash32, seqNo: nat, target: DeviceId, ts: u64): LogEntry {
    Signed(p, id.signingKey, Remove(prevHash, seqNo, target, ts, id.deviceId, []))
  }

  function BuildEpoch(p: Primitives, id: Identity, prevHash: Hash32, seqNo: nat, epochNo: nat, reason: EpochReason,
                      msh: Hash32, bundleHash: Hash32, ts: u64): LogEntry {
    Signed(p, id.signingKey, Epoch(prevHash, seqNo, epochNo, id.deviceId, reason, msh, bundleHash, ts, []))
  }

  function BuildRotateKem(p: Primitives, id: Identity, prevHash: Hash32, seqNo: nat, kemPk: Hash32, ts: u64): LogEntry {
    Signed(p, id.signingKey, RotateKem(prevHash, seqNo, id.deviceId, kemPk, ts, []))
  }

  lemma SignedVerifies(p: Primitives, sk: Bytes, spki: Bytes, e: LogEntry)
    requires KeyPair(p, sk, spki)
    ensures VerifyWithSpki(p, spki, DOMAIN_LOG, EntrySignView(p, Signed(p, sk, e)), Signed(p, sk, e).sig)
  {
    assert Signed(p, sk, e).(sig := []) == e.(sig := []);
  }

  /** `id` is in the roster of `v` under its own key. */
  ghost predicate Holds(v: VerifiedLog, id: Identity) {
    id.deviceId in v.members && v.members[id.deviceId].spkiDer == id.spkiDer
  }

  lemma GenesisOpensLog(p: Primitives, id: Identity, name: string, kemPk: Hash32, createdAt: u64, now: u64)
    requires EntryCodecLaw(p) && SoundIdentity(p, id)
    ensures var log := [p.encodeEntry(BuildGenesis(p, id, name, kemPk, createdAt))];
            && FullyAccepted(p, log, now)
            && VerifyChain(p, log, now).value.members ==
               map[id.deviceId := MemberInfo(id.deviceId, id.spkiDer, kemPk)]
            && VerifyChain(p, log, now).value.epoch == 0
  {
    SignedVerifies(p, id.signingKey, id.spkiDer, Genesis(1, name, id.spkiDer, kemPk, createdAt, []));
    var e := BuildGenesis(p, id, name, kemPk, createdAt);
    assert p.decodeEntry(p.encodeEntry(e)) == Some(e);
  }

  /** A joiner's Add, made from a member's grant with the one-time grant key, is accepted and adds
      exactly the joiner. */
  lemma JoinAccepted(p: Primitives, log: seq<Bytes>, sponsor: Identity, grantSk: Bytes, grantPk: Bytes, expiresAt: u64,
                     spki: Bytes, kemPk: Hash32, joinedAt: u64, now: u64)
    requires EntryCodecLaw(p) && SoundIdentity(p, sponsor) && KeyPair(p, grantSk, grantPk)
    requires FullyAccepted(p, log, now) && Holds(VerifyChain(p, log, now).value, sponsor)
    requires !GrantUsed(p, log, grantPk)
    requires now == 0 || now <= SaturatingAdd(expiresAt, DAY_MS)
    ensures var v := VerifyChain(p, log, now).value;
            var gc := BuildGrantCert(p, sponsor, grantPk, expiresAt, v.workspaceId);
            var add := BuildAdd(p, grantSk, gc, spki, kemPk, v.headHash, v.headSeq + 1, joinedAt);
            var log' := log + [p.encodeEntry(add)];
            && FullyAccepted(p, log', now)
            && VerifyChain(p, log', now).value.members ==
               v.members[p.sha256(spki) := MemberInfo(p.sha256(spki), spki, kemPk)]
            && VerifyChain(p, log', now).value.epoch == v.epoch
  {
    var v := VerifyChain(p, log, now).value;
    var gc := BuildGrantCert(p, sponsor, grantPk, expiresAt, v.workspaceId);
    var add := BuildAdd(p, grantSk, gc, spki, kemPk, v.headHash, v.headSeq + 1, joinedAt);
    FullyAcceptedIsChain(p, log, now);
    ChainGrants(p, log, now);
    SignedVerifies(p, grantSk, grantPk, Add(v.headHash, v.headSeq + 1, gc, spki, kemPk, joinedAt, []));
    assert gc.(sig := []) == GrantCert(grantPk, sponsor.deviceId, expiresAt, v.workspaceId, []);
    assert p.decodeEntry(p.encodeEntry(add)) == Some(add);
    hide VerifyChain, Chain;
    AppendAuthorised(p, log, add, p.encodeEntry(add), now);
  }

  /** A Remove built on the head is accepted exactly when the log is fully accepted and its builder
      is in the roster; otherwise the roster is what it was. */
  lemma RemoveAccepted(p: Primitives, log: seq<Bytes>, me: Identity, target: DeviceId, ts: u64, now: u64)
    requires EntryCodecLaw(p) && SoundIdentity(p, me)
    requires VerifyChain(p, log, now).Ok?
    requires me.deviceId in VerifyChain(p, log, now).value.members ==> Holds(VerifyChain(p, log, now).value, me)
    ensures var v := VerifyChain(p, log, now).value;
            var b := p.encodeEntry(BuildRemove(p, me, v.headHash, v.headSeq + 1, target, ts));
            var r := VerifyChain(p, log + [b], now);
            && (FullyAccepted(p, log + [b], now) <==> FullyAccepted(p, log, now) && Holds(v, me))
            && r.Ok?
            && (FullyAccepted(p, log + [b], now) ==>
                  && r.value == v.(headSeq := v.headSeq + 1, headHash := p.blake3(b), members := v.members - {target},
                                   accepted := v.accepted + 1))
            && (!FullyAccepted(p, log + [b], now) ==> r.value == v)
  {
    var v := VerifyChain(p, log, now).value;
    var e := BuildRemove(p, me, v.headHash, v.headSeq + 1, target, ts);
    var b := p.encodeEntry(e);
    assert p.decodeEntry(b) == Some(e);
    SignedVerifies(p, me.signingKey, me.spkiDer, Remove(v.headHash, v.headSeq + 1, target, ts, me.deviceId, []));
    LongestValidPrefix(p, log, now);
    if FullyAccepted(p, log, now) {
      FullyAcceptedIsChain(p, log, now);
      AppendIsOneStep(p, log, b, now);
    } else {
      RejectedTailIgnored(p, log, [b], now);
    }
  }

  /** A member's Epoch entry over the present roster is accepted and changes only the epoch. */
  lemma EpochAccepted(p: Primitives, log: seq<Bytes>, me: Identity, reason: EpochReason, bundleHash: Hash32, ts: u64,
                      now: u64)
    requires EntryCodecLaw(p) && SoundIdentity(p, me)
    requires FullyAccepted(p, log, now) && Holds(VerifyChain(p, log, now).value, me)
    ensures var v := VerifyChain(p, log, now).value;
            var e := BuildEpoch(p, me, v.headHash, v.headSeq + 1, v.epoch + 1, reason, MemberSetHash(p, v.members),
                                bundleHash, ts);
            var b := p.encodeEntry(e);
            && FullyAccepted(p, log + [b], now)
            && VerifyChain(p, log + [b], now).value ==
               v.(headSeq := v.headSeq + 1, headHash := p.blake3(b), epoch := v.epoch + 1, accepted := v.accepted + 1)
  {
    var v := VerifyChain(p, log, now).value;
    var msh := MemberSetHash(p, v.members);
    var e := BuildEpoch(p, me, v.headHash, v.headSeq + 1, v.epoch + 1, reason, msh, bundleHash, ts);
    hide VerifyChain, Chain, MemberSetHash;
    assert p.decodeEntry(p.encodeEntry(e)) == Some(e);
    SignedVerifies(p, me.signingKey, me.spkiDer,
                   Epoch(v.headHash, v.headSeq + 1, v.epoch + 1, me.deviceId, reason, msh, bundleHash, ts, []));
    FullyAcceptedIsChain(p, log, now);
    hide EntrySignView;
    AppendAuthorised(p, log, e, p.encodeEntry(e), now);
  }

  /** A member's RotateKem entry is accepted and changes only its own sealing key. */
  lemma RotateKemAccepted(p: Primitives, log: seq<Bytes>, me: Identity, kemPk: Hash32, ts: u64, now: u64)
    requires EntryCodecLaw(p) && SoundIdentity(p, me)
    requires FullyAccepted(p, log, now) && Holds(VerifyChain(p, log, now).value, me)
    ensures var v := VerifyChain(p, log, now).value;
            var b := p.encodeEntry(BuildRotateKem(p, me, v.headHash, v.headSeq + 1, kemPk, ts));
            && FullyAccepted(p, log + [b], now)
            && VerifyChain(p, log + [b], now).value ==
               v.(headSeq := v.headSeq + 1, headHash := p.blake3(b), accepted := v.accepted + 1,
                  members := v.members[me.deviceId := v.members[me.deviceId].(kemPk := kemPk)])
  {
    var v := VerifyChain(p, log, now).value;
    var e := BuildRotateKem(p, me, v.headHash, v.headSeq + 1, kemPk, ts);
    hide VerifyChain, Chain;
    assert p.decodeEntry(p.encodeEntry(e)) == Some(e);
    SignedVerifies(p, me.signingKey, me.spkiDer, RotateKem(v.headHash, v.headSeq + 1, me.deviceId, kemPk, ts, []));
    FullyAcceptedIsChain(p, log, now);
    hide EntrySignView;
    AppendAuthorised(p, log, e, p.encodeEntry(e), now);
  }

  // ----- Signed rotations -----

  function RotationAad(wid: Hash32, to: DeviceId): Bytes {
    wid + to
  }

  function RotationSignView(p: Primitives, blob: RotationBlob): Bytes {
    p.encodeBlob(blob.(sig := []))
  }

  function BuildSignedRotation(p: Primitives, from: Identity, newEpoch: nat, key: Hash32, reason: EpochReason,
                               epochEntryHash: Hash32, msh: Hash32): RotationBlob {
    var blob := RotationBlob(newEpoch, key, reason, epochEntryHash, msh, from.deviceId, []);
    blob.(sig := p.sign(from.signingKey, DOMAIN_ROTWRAP + RotationSignView(p, blob)))
  }

  function SealRotation(p: Primitives, kemPk: Hash32, wid: Hash32, to: DeviceId, blob: RotationBlob, rnd: Bytes)
    : Option<Bytes>
  {
    p.kemSeal(kemPk, RotationAad(wid, to), p.encodeBlob(blob), rnd)
  }

  function OpenRotation(p: Primitives, id: Identity, wid: Hash32, wrapped: Bytes): Option<RotationBlob> {
    match p.kemOpen(id.kemSecret, RotationAad(wid, id.deviceId), wrapped)
    case None => None
    case Some(bytes) => p.decodeBlob(bytes)
  }

  ghost predicate VerifyRotation(p: Primitives, blob: RotationBlob, v: VerifiedLog) {
    && blob.from in v.members
    && VerifyWithSpki(p, v.members[blob.from].spkiDer, DOMAIN_ROTWRAP, RotationSignView(p, blob), blob.sig)
    && blob.newEpoch == v.epoch
    && blob.memberSetHash == MemberSetHash(p, v.members)
  }

  method RunVerifyRotation(p: Primitives, blob: RotationBlob, v: VerifiedLog) returns (ok: bool)
    ensures ok == VerifyRotation(p, blob, v)
  {
    if blob.from !in v.members { return false; }
    if !VerifyWithSpki(p, v.members[blob.from].spkiDer, DOMAIN_ROTWRAP, RotationSignView(p, blob), blob.sig) {
      return false;
    }
    if blob.newEpoch != v.epoch { return false; }
    var msh := ComputeMemberSetHash(p, v.members);
    ok := blob.memberSetHash == msh;
  }

  /** A rotation names one epoch: it cannot be replayed against a log of another epoch. */
  lemma RotationNamesOneEpoch(p: Primitives, blob: RotationBlob, v1: VerifiedLog, v2: VerifiedLog)
    requires VerifyRotation(p, blob, v1) && VerifyRotation(p, blob, v2)
    requires WellKeyed(v1.members) && WellKeyed(v2.members) && ShortKeys(v1.members) && ShortKeys(v2.members)
    ensures v1.epoch == v2.epoch
    ensures v1.members == v2.members ||
            (Preimage(v1.members) != Preimage(v2.members) &&
             p.blake3(Preimage(v1.members)) == p.blake3(Preimage(v2.members)))
  {
    RosterCommitment(p, v1.members, v2.members);
  }

  /** The key a device takes from a wrap, judged against its own log. */
  ghost function AdoptedKey(p: Primitives, id: Identity, wid: Hash32, log: seq<Bytes>, wrapped: Bytes)
    : Option<GroupKey>
  {
    match OpenRotation(p, id, wid, wrapped)
    case None => None
    case Some(blob) =>
      match VerifyChain(p, log, 0)
      case Err(_) => None
      case Ok(v) => if VerifyRotation(p, blob, v) then Some(GroupKey(blob.newEpoch, blob.groupKey)) else None
  }

  // ----- Revoking a member -----

  datatype RevokeError =
    | NotConnected | NoGroupKey | SelfTarget | NoWorkspace | NoConnection | BadLog(cause: LogError) | NotAMember
    | SealFailed

  datatype Plan = Plan(removeBytes: Bytes, epochBytes: Bytes, blob: RotationBlob, updates: seq<KeyUpdate>)

  /** Fresh values drawn while revoking: the new key, the two clock readings, sealing randomness. */
  datatype Draw = Draw(key: Hash32, removedAt: u64, rotatedAt: u64, seal: DeviceId -> Bytes)

  /** One update for each of `ids` but `me`, in order; `None` when a seal fails. */
  function SealAll(p: Primitives, ids: seq<DeviceId>, members: Roster, me: DeviceId, wid: Hash32, blob: RotationBlob,
                   draw: Draw): Option<seq<KeyUpdate>>
    requires forall d | d in ids :: d in members
  {
    if ids == [] then Some([]) else
      var last := ids[|ids| - 1];
      match SealAll(p, ids[..|ids| - 1], members, me, wid, blob, draw)
      case None => None
      case Some(us) =>
        if last == me then Some(us) else
          match SealRotation(p, members[last].kemPk, wid, last, blob, draw.seal(last))
          case None => None
          case Some(wrap) => Some(us + [KeyUpdate(last, blob.newEpoch, wrap)])
  }

  function RemoveFor(p: Primitives, me: Identity, v: VerifiedLog, target: DeviceId, draw: Draw): Bytes {
    p.encodeEntry(BuildRemove(p, me, v.headHash, v.headSeq + 1, target, draw.removedAt))
  }

  function EpochFor(p: Primitives, me: Identity, v: VerifiedLog, epoch: nat, target: DeviceId, msh: Hash32, draw: Draw)
    : Bytes
  {
    p.encodeEntry(BuildEpoch(p, me, v.headHash, v.headSeq + 1, epoch, Revoke(target), msh, ZERO_HASH, draw.rotatedAt))
  }

  function BlobFor(p: Primitives, me: Identity, epoch: nat, target: DeviceId, epochBytes: Bytes, msh: Hash32,
                   draw: Draw)
    : RotationBlob
  {
    BuildSignedRotation(p, me, epoch, draw.key, Revoke(target), p.blake3(epochBytes), msh)
  }

  /** The rotation that follows the removal: `v2` is the log with the Remove appended. */
  ghost function PlanRotation(p: Primitives, me: Identity, wid: Hash32, v2: VerifiedLog, newEpoch: nat,
                              target: DeviceId, removeBytes: Bytes, draw: Draw): Result<Plan, RevokeError>
  {
    var msh := MemberSetHash(p, v2.members);
    var epochBytes := EpochFor(p, me, v2, newEpoch, target, msh, draw);
    var blob := BlobFor(p, me, newEpoch, target, epochBytes, msh, draw);
    match SealAll(p, Ascending(v2.members.Keys), v2.members, me.deviceId, wid, blob, draw)
    case None => Err(SealFailed)
    case Some(updates) => Ok(Plan(removeBytes, epochBytes, blob, updates))
  }

  ghost function PlanRevocation(p: Primitives, me: Identity, wid: Hash32, log: seq<Bytes>, target: DeviceId, draw: Draw)
    : Result<Plan, RevokeError>
  {
    match VerifyChain(p, log, 0)
    case Err(e) => Err(BadLog(e))
    case Ok(v) =>
      if target !in v.members then Err(NotAMember) else
        var removeBytes := RemoveFor(p, me, v, target, draw);
        match VerifyChain(p, log + [removeBytes], 0)
        case Err(e) => Err(BadLog(e))
        case Ok(v2) => PlanRotation(p, me, wid, v2, v.epoch + 1, target, removeBytes, draw)
  }

  method RunPlanRotation(p: Primitives, me: Identity, wid: Hash32, v2: VerifiedLog, newEpoch: nat, target: DeviceId,
                         removeBytes: Bytes, draw: Draw) returns (r: Result<Plan, RevokeError>)
    ensures r == PlanRotation(p, me, wid, v2, newEpoch, target, removeBytes, draw)
  {
    var msh := ComputeMemberSetHash(p, v2.members);
    var epochBytes := EpochFor(p, me, v2, newEpoch, target, msh, draw);
    var blob := BlobFor(p, me, newEpoch, target, epochBytes, msh, draw);
    var updates := SealForRoster(p, v2.members, me.deviceId, wid, blob, draw);
    r := if updates.None? then Err(SealFailed) else Ok(Plan(removeBytes, epochBytes, blob, updates.value));
  }

  method SealForRoster(p: Primitives, members: Roster, me: DeviceId, wid: Hash32, blob: RotationBlob, draw: Draw)
    returns (updates: Option<seq<KeyUpdate>>)
    ensures updates == SealAll(p, Ascending(members.Keys), members, me, wid, blob, draw)
  {
    var us: seq<KeyUpdate> := [];
    var rest := members.Keys;
    ghost var done: seq<DeviceId> := [];
    assert done + Ascending(rest) == Ascending(rest);
    while rest != {}
      invariant Traversal(done, rest, members.Keys)
      invariant SealAll(p, done, members, me, wid, blob, draw) == Some(us)
      decreases |rest|
    {
      var did := LeastOf(rest);
      TraversalStep(done, rest, members.Keys, did);
      assert (done + [did])[..|done|] == done;
      if did != me {
        var wrap := SealRotation(p, members[did].kemPk, wid, did, blob, draw.seal(did));
        if wrap.None? {
          SealAllFails(p, done + [did], Ascending(rest - {did}), members, me, wid, blob, draw);
          return None;
        }
        us := us + [KeyUpdate(did, blob.newEpoch, wrap.value)];
      }
      done := done + [did];
      rest := rest - {did};
    }
    assert done + Ascending(rest) == done;
    updates := Some(us);
  }

  lemma {:induction false} SealAllFails(p: Primitives, ids: seq<DeviceId>, more: seq<DeviceId>, members: Roster,
                                        me: DeviceId, wid: Hash32, blob: RotationBlob, draw: Draw)
    requires forall d | d in ids + more :: d in members
    requires forall d | d in ids :: d in members
    requires SealAll(p, ids, members, me, wid, blob, draw).None?
    ensures SealAll(p, ids + more, members, me, wid, blob, draw).None?
    decreases |more|
  {
    if more == [] {
      assert ids + more == ids;
    } else {
      var init := more[..|more| - 1];
      assert (ids + more)[..|ids + more| - 1] == ids + init;
      SealAllFails(p, ids, init, members, me, wid, blob, draw);
    }
  }

  function Messages(plan: Plan): seq<C2s> {
    [C2s.AppendEntry(plan.removeBytes), C2s.AppendEntry(plan.epochBytes)]
    + if plan.updates == [] then [] else [C2s.PutKeyUpdate(plan.updates)]
  }

  // ----- Following the server's log -----

  /** What a member sends a device it sees admitted: its own group key, sealed to the newcomer. */
  ghost function JoinReply(p: Primitives, id: Identity, gk: Option<GroupKey>, wid: Option<Hash32>, log: seq<Bytes>,
                           entry: Bytes, rnd: Bytes): Option<KeyUpdate>
  {
    match VerifyChain(p, log, 0)
    case Err(_) => None
    case Ok(v) =>
      if gk.None? || wid.None? then None
      else match p.decodeEntry(entry)
        case Some(Add(_, _, _, spki, kemPk, _, _)) =>
          if p.sha256(spki) == id.deviceId then None
          else
            var blob := BuildSignedRotation(p, id, gk.value.epoch, gk.value.key, Join, v.headHash,
                                            MemberSetHash(p, v.members));
            WrapFor(p, p.sha256(spki), kemPk, wid.value, blob, rnd)
        case _ => None
  }

  function WrapFor(p: Primitives, to: DeviceId, kemPk: Hash32, wid: Hash32, blob: RotationBlob, rnd: Bytes)
    : Option<KeyUpdate>
  {
    match SealRotation(p, kemPk, wid, to, blob, rnd)
    case None => None
    case Some(wrap) => Some(KeyUpdate(to, blob.newEpoch, wrap))
  }

  /** The number and hash of the last entry, which a device names in its hello. */
  function LogHead(p: Primitives, log: seq<Bytes>): (nat, Hash32) {
    if log == [] then (0, ZERO_HASH) else (|log| - 1, p.blake3(log[|log| - 1]))
  }

  /** A non-empty tail from the server takes the place of the local log. */
  function WelcomeLog(log: seq<Bytes>, tail: seq<Bytes>): seq<Bytes> {
    if tail != [] then tail else log
  }

  method RosterIds(members: Roster) returns (ids: seq<DeviceId>)
    ensures ids == Ascending(members.Keys)
  {
    ids := [];
    var rest := members.Keys;
    assert ids + Ascending(rest) == Ascending(rest);
    while rest != {}
      invariant Traversal(ids, rest, members.Keys)
      decreases |rest|
    {
      var d := LeastOf(rest);
      TraversalStep(ids, rest, members.Keys, d);
      ids := ids + [d];
      rest := rest - {d};
    }
    assert ids + Ascending(rest) == ids;
  }

  /** The part of the application core that revocation and key adoption touch. */
  class AppCore {
    const identity: Identity
    var connected: bool
    var workspaceId: Option<Hash32>
    var currentGk: Option<GroupKey>
    var engineGk: Option<GroupKey>
    var log: seq<Bytes>
    var members: seq<DeviceId>
    var out: Option<seq<C2s>>

    constructor (identity: Identity)
      ensures this.identity == identity && !connected && log == [] && members == [] && out == None
      ensures workspaceId == None && currentGk == None && engineGk == None
    {
      this.identity := identity;
      connected, log, members, out := false, [], [], None;
      workspaceId, currentGk, engineGk := None, None, None;
    }

    /** Checks, builds and sends a revocation from a snapshot of the core; nothing else changes. */
    method SendRevocation(p: Primitives, target: DeviceId, draw: Draw) returns (r: Result<Plan, RevokeError>)
      modifies this`out
      ensures !connected ==> r == Err(NotConnected)
      ensures connected && currentGk.None? ==> r == Err(NoGroupKey)
      ensures connected && currentGk.Some? && target == identity.deviceId ==> r == Err(SelfTarget)
      ensures connected && currentGk.Some? && target != identity.deviceId ==>
                r == if workspaceId.None? then Err(NoWorkspace)
                     else if old(out).None? then Err(NoConnection)
                     else PlanRevocation(p, identity, workspaceId.value, log, target, draw)
      ensures r.Err? ==> out == old(out)
      ensures r.Ok? ==> old(out).Some? && out == Some(old(out).value + Messages(r.value))
    {
      hide VerifyChain, PlanRotation, RemoveFor, Messages;
      if !connected { return Err(NotConnected); }
      if currentGk.None? { return Err(NoGroupKey); }
      if target == identity.deviceId { return Err(SelfTarget); }
      if workspaceId.None? { return Err(NoWorkspace); }
      if out.None? { return Err(NoConnection); }
      var first := RunVerifyChain(p, log, 0);
      if first.Err? { return Err(BadLog(first.error)); }
      var v := first.value;
      if target !in v.members { return Err(NotAMember); }
      var removeBytes := RemoveFor(p, identity, v, target, draw);
      var log2 := log + [removeBytes];
      var second := RunVerifyChain(p, log2, 0);
      if second.Err? { return Err(BadLog(second.error)); }
      r := RunPlanRotation(p, identity, workspaceId.value, second.value, v.epoch + 1, target, removeBytes, draw);
      if r.Ok? { Send(r.value); }
    }

    /** Remove, then Epoch, then the sealed keys, so that a receiver's log is ahead of its key. */
    method Send(plan: Plan)
      requires out.Some?
      modifies this`out
      ensures out == Some(old(out).value + Messages(plan))
    {
      var sent := out.value + [C2s.AppendEntry(plan.removeBytes)];
      sent := sent + [C2s.AppendEntry(plan.epochBytes)];
      if plan.updates != [] { sent := sent + [C2s.PutKeyUpdate(plan.updates)]; }
      out := Some(sent);
      assert sent == old(out).value + Messages(plan);
    }

    /** Takes the revocation over locally, unless the log has changed length since the snapshot. */
    method AdoptRevocation(plan: Plan, target: DeviceId, snapshotLen: nat) returns (adopted: bool)
      modifies this`log, this`engineGk, this`currentGk, this`members
      ensures adopted == (|old(log)| == snapshotLen)
      ensures log == if adopted then old(log) + [plan.removeBytes, plan.epochBytes] else old(log)
      ensures adopted ==> engineGk == currentGk == Some(GroupKey(plan.blob.newEpoch, plan.blob.groupKey))
      ensures !adopted ==> engineGk == old(engineGk) && currentGk == old(currentGk)
      ensures members == if adopted then Without(old(members), target) else old(members)
    {
      adopted := |log| == snapshotLen;
      if adopted {
        log := log + [plan.removeBytes];
        log := log + [plan.epochBytes];
        var gk := GroupKey(plan.blob.newEpoch, plan.blob.groupKey);
        engineGk := Some(gk);
        currentGk := Some(gk);
        members := Without(members, target);
      }
    }

    /** Opens a wrap, checks it against the log, and takes the key only when both succeed. */
    method TrySetGkFromWrap(p: Primitives, wrapped: Bytes)
      modifies this`engineGk, this`currentGk
      ensures var k := if workspaceId.None? then None else AdoptedKey(p, identity, workspaceId.value, log, wrapped);
              if k.Some? then engineGk == currentGk == k else engineGk == old(engineGk) && currentGk == old(currentGk)
    {
      if workspaceId.None? { return; }
      var blob := OpenRotation(p, identity, workspaceId.value, wrapped);
      if blob.None? { return; }
      var v := RunVerifyChain(p, log, 0);
      if v.Err? { return; }
      var ok := RunVerifyRotation(p, blob.value, v.value);
      if !ok { return; }
      var gk := GroupKey(blob.value.newEpoch, blob.value.groupKey);
      engineGk := Some(gk);
      currentGk := Some(gk);
    }

    /** A new entry: the log grows, the member list follows, and a newcomer is sent the group key. */
    method OnLogAppended(p: Primitives, entry: Bytes, rnd: Bytes) returns (reply: Option<KeyUpdate>)
      modifies this`log, this`members, this`out
      ensures log == old(log) + [entry]
      ensures members ==
              match VerifyChain(p, log, 0) case Err(_) => old(members) case Ok(v) => Ascending(v.members.Keys)
      ensures reply == JoinReply(p, identity, currentGk, workspaceId, log, entry, rnd)
      ensures out ==
              if reply.Some? && old(out).Some? then Some(old(out).value + [PutKeyUpdate([reply.value])]) else old(out)
    {
      hide VerifyChain;
      log := log + [entry];
      var r := RunVerifyChain(p, log, 0);
      if r.Err? { return None; }
      members := RosterIds(r.value.members);
      reply := ReplyToJoin(p, r.value, entry, rnd);
      if reply.Some? && out.Some? { out := Some(out.value + [PutKeyUpdate([reply.value])]); }
    }

    method ReplyToJoin(p: Primitives, v: VerifiedLog, entry: Bytes, rnd: Bytes) returns (reply: Option<KeyUpdate>)
      requires VerifyChain(p, log, 0) == Ok(v)
      ensures reply == JoinReply(p, identity, currentGk, workspaceId, log, entry, rnd)
    {
      hide VerifyChain, BuildSignedRotation;
      var e := p.decodeEntry(entry);
      if currentGk.None? || workspaceId.None? || e.None? || !e.value.Add? { return None; }
      var subject := p.sha256(e.value.subjectSpki);
      if subject == identity.deviceId { return None; }
      var gk := currentGk.value;
      var msh := ComputeMemberSetHash(p, v.members);
      var blob := BuildSignedRotation(p, identity, gk.epoch, gk.key, Join, v.headHash, msh);
      reply := WrapFor(p, subject, e.value.subjectKemPk, workspaceId.value, blob, rnd);
    }

    /** The server's greeting: log first, then the wrap that waited, then the member list. */
    method OnWelcome(p: Primitives, tail: seq<Bytes>, pending: Option<Bytes>)
      modifies this`log, this`engineGk, this`currentGk, this`workspaceId, this`members, this`connected
      ensures connected && log == WelcomeLog(old(log), tail)
      ensures var k := if old(workspaceId).None? || pending.None? then None
                       else AdoptedKey(p, identity, old(workspaceId).value, log, pending.value);
              if k.Some? then engineGk == currentGk == k else engineGk == old(engineGk) && currentGk == old(currentGk)
      ensures match VerifyChain(p, log, 0)
              case Err(_) => workspaceId == old(workspaceId) && members == old(members)
              case Ok(v) => workspaceId == Some(v.workspaceId) && members == Ascending(v.members.Keys)
    {
      hide VerifyChain, AdoptedKey;
      if tail != [] { log := tail; }
      if pending.Some? { TrySetGkFromWrap(p, pending.value); }
      var r := RunVerifyChain(p, log, 0);
      if r.Ok? {
        workspaceId := Some(r.value.workspaceId);
        members := RosterIds(r.value.members);
      }
      connected := true;
    }
  }

  // ----- Revocation by composition -----

  lemma {:induction false} SealAllCovers(p: Primitives, ids: seq<DeviceId>, members: Roster, me: DeviceId, wid: Hash32,
                                         blob: RotationBlob, draw: Draw)
    requires forall d | d in ids :: d in members
    requires SealAll(p, ids, members, me, wid, blob, draw).Some?
    ensures var us := SealAll(p, ids, members, me, wid, blob, draw).value;
            && Recipients(us) == Without(ids, me)
            && forall u | u in us ::
                 && u.to in ids && u.to != me && u.epoch == blob.newEpoch
                 && SealRotation(p, members[u.to].kemPk, wid, u.to, blob, draw.seal(u.to)) == Some(u.wrap)
  {
    if ids != [] {
      var init, last := ids[..|ids| - 1], ids[|ids| - 1];
      SealAllCovers(p, init, members, me, wid, blob, draw);
      assert ids == init + [last];
      WithoutSnoc(init, last, me);
      var us := SealAll(p, init, members, me, wid, blob, draw).value;
      if last != me {
        var wrap := SealRotation(p, members[last].kemPk, wid, last, blob, draw.seal(last)).value;
        assert (us + [KeyUpdate(last, blob.newEpoch, wrap)])[..|us|] == us;
      }
    }
  }

  /** The devices addressed, in order. */
  function Recipients(us: seq<KeyUpdate>): seq<DeviceId> {
    if us == [] then [] else Recipients(us[..|us| - 1]) + [us[|us| - 1].to]
  }

  /** The log after both entries of a plan. */
  function Rotated(log: seq<Bytes>, plan: Plan): seq<Bytes> {
    log + [plan.removeBytes] + [plan.epochBytes]
  }

  ghost predicate CanRevoke(p: Primitives, me: Identity, log: seq<Bytes>, target: DeviceId) {
    && EntryCodecLaw(p)
    && SoundIdentity(p, me)
    && FullyAccepted(p, log, 0)
    && Holds(VerifyChain(p, log, 0).value, me)
    && target in VerifyChain(p, log, 0).value.members
    && target != me.deviceId
  }

  /** A founder and whoever it invites: the founder can remove the guest again. */
  lemma GuestCanBeRevoked(p: Primitives, founder: Identity, name: string, kemPk: Hash32, createdAt: u64,
                          grantSk: Bytes, grantPk: Bytes, expiresAt: u64, spki: Bytes, guestKem: Hash32, joinedAt: u64)
    requires EntryCodecLaw(p) && SoundIdentity(p, founder) && KeyPair(p, grantSk, grantPk)
    requires p.sha256(spki) != founder.deviceId
    ensures var log := [p.encodeEntry(BuildGenesis(p, founder, name, kemPk, createdAt))];
            VerifyChain(p, log, 0).Ok? &&
            var v := VerifyChain(p, log, 0).value;
            var gc := BuildGrantCert(p, founder, grantPk, expiresAt, v.workspaceId);
            var add := BuildAdd(p, grantSk, gc, spki, guestKem, v.headHash, v.headSeq + 1, joinedAt);
            CanRevoke(p, founder, log + [p.encodeEntry(add)], p.sha256(spki))
  {
    var e := BuildGenesis(p, founder, name, kemPk, createdAt);
    GenesisOpensLog(p, founder, name, kemPk, createdAt, 0);
    assert p.decodeEntry(p.encodeEntry(e)) == Some(e);
    hide VerifyChain, BuildGenesis, BuildAdd, BuildGrantCert;
    JoinAccepted(p, [p.encodeEntry(e)], founder, grantSk, grantPk, expiresAt, spki, guestKem, joinedAt, 0);
  }

  /** The seal of the new key for `d`. */
  function SealFor(p: Primitives, members: Roster, wid: Hash32, blob: RotationBlob, draw: Draw, d: DeviceId)
    : Option<Bytes>
    requires d in members
  {
    SealRotation(p, members[d].kemPk, wid, d, blob, draw.seal(d))
  }

  lemma {:induction false} SealAllSucceedsIff(p: Primitives, ids: seq<DeviceId>, members: Roster, me: DeviceId,
                                              wid: Hash32, blob: RotationBlob, draw: Draw)
    requires forall d | d in ids :: d in members
    ensures SealAll(p, ids, members, me, wid, blob, draw).Some? <==>
            forall d | d in ids && d != me :: SealFor(p, members, wid, blob, draw, d).Some?
  {
    if ids != [] {
      var init, last := ids[..|ids| - 1], ids[|ids| - 1];
      assert ids == init + [last] && last in ids;
      SealAllSucceedsIff(p, init, members, me, wid, blob, draw);
      assert SealAll(p, ids, members, me, wid, blob, draw).Some? <==>
             && SealAll(p, init, members, me, wid, blob, draw).Some?
             && (last == me || SealFor(p, members, wid, blob, draw, last).Some?)
      by { hide SealRotation; }
      hide SealAll, SealFor;
      assert forall d | d in ids :: d in init || d == last;
    }
  }

  /** A revocation that can be made fails for one reason only: the key could not be sealed to some
      remaining member. */
  lemma RevocationFailsIff(p: Primitives, me: Identity, wid: Hash32, log: seq<Bytes>, target: DeviceId, draw: Draw)
    requires CanRevoke(p, me, log, target)
    ensures var v := VerifyChain(p, log, 0).value;
            var rest := v.members - {target};
            var v2 := v.(headSeq := v.headSeq + 1, headHash := p.blake3(RemoveFor(p, me, v, target, draw)),
                         members := rest, accepted := v.accepted + 1);
            var msh := MemberSetHash(p, rest);
            var blob := BlobFor(p, me, v.epoch + 1, target, EpochFor(p, me, v2, v.epoch + 1, target, msh, draw), msh,
                                draw);
            var r := PlanRevocation(p, me, wid, log, target, draw);
            && (r.Err? ==> r == Err(SealFailed))
            && (r.Ok? <==> forall d | d in rest && d != me.deviceId :: SealFor(p, rest, wid, blob, draw, d).Some?)
  {
    hide VerifyChain, RemoveFor, EpochFor, BlobFor, MemberSetHash, SealAll, SealFor;
    RevocationSteps(p, me, log, target, draw);
    var v := VerifyChain(p, log, 0).value;
    var rest := v.members - {target};
    var v2 := VerifyChain(p, log + [RemoveFor(p, me, v, target, draw)], 0).value;
    var msh := MemberSetHash(p, rest);
    var blob := BlobFor(p, me, v.epoch + 1, target, EpochFor(p, me, v2, v.epoch + 1, target, msh, draw), msh, draw);
    SealAllSucceedsIff(p, Ascending(rest.Keys), rest, me.deviceId, wid, blob, draw);
  }

  lemma RevocationSteps(p: Primitives, me: Identity, log: seq<Bytes>, target: DeviceId, draw: Draw)
    requires CanRevoke(p, me, log, target)
    ensures var v := VerifyChain(p, log, 0).value;
            var log1 := log + [RemoveFor(p, me, v, target, draw)];
            var v2 := v.(headSeq := v.headSeq + 1, headHash := p.blake3(RemoveFor(p, me, v, target, draw)),
                         members := v.members - {target}, accepted := v.accepted + 1);
            var epochBytes := EpochFor(p, me, v2, v.epoch + 1, target, MemberSetHash(p, v2.members), draw);
            && FullyAccepted(p, log1, 0) && VerifyChain(p, log1, 0) == Ok(v2)
            && FullyAccepted(p, log1 + [epochBytes], 0)
            && VerifyChain(p, log1 + [epochBytes], 0) ==
               Ok(v2.(headSeq := v2.headSeq + 1, headHash := p.blake3(epochBytes), epoch := v.epoch + 1,
                      accepted := v2.accepted + 1))
  {
    hide VerifyChain, BuildRemove, BuildEpoch, MemberSetHash;
    var v := VerifyChain(p, log, 0).value;
    RemoveAccepted(p, log, me, target, draw.removedAt, 0);
    EpochAccepted(p, log + [RemoveFor(p, me, v, target, draw)], me, Revoke(target), ZERO_HASH, draw.rotatedAt, 0);
  }

  /** Both entries are accepted, the epoch rises by one, exactly the target leaves the roster, and
      exactly the remaining members other than the revoker are sealed to, once each. */
  lemma RevocationLog(p: Primitives, me: Identity, wid: Hash32, log: seq<Bytes>, target: DeviceId, draw: Draw)
    requires CanRevoke(p, me, log, target)
    requires PlanRevocation(p, me, wid, log, target, draw).Ok?
    ensures var plan := PlanRevocation(p, me, wid, log, target, draw).value;
            var v := VerifyChain(p, log, 0).value;
            && FullyAccepted(p, log + [plan.removeBytes], 0)
            && FullyAccepted(p, Rotated(log, plan), 0)
            && var v2 := VerifyChain(p, log + [plan.removeBytes], 0).value;
            var v3 := VerifyChain(p, Rotated(log, plan), 0).value;
            && v2.epoch == v.epoch && v2.members == v.members - {target}
            && v3.epoch == v.epoch + 1 && v3.members == v.members - {target}
            && v3.headHash == plan.blob.epochEntryHash
            && Recipients(plan.updates) == Without(Ascending(v.members.Keys - {target}), me.deviceId)
  {
    hide VerifyChain, RemoveFor, EpochFor, MemberSetHash, SealAll, Without, Recipients;
    var plan := PlanRevocation(p, me, wid, log, target, draw).value;
    RevocationSteps(p, me, log, target, draw);
    var v2 := VerifyChain(p, log + [plan.removeBytes], 0).value;
    assert v2.members.Keys == VerifyChain(p, log, 0).value.members.Keys - {target};
    SealAllCovers(p, Ascending(v2.members.Keys), v2.members, me.deviceId, wid, plan.blob, draw);
  }

  lemma SignedBlobVerifies(p: Primitives, from: Identity, newEpoch: nat, key: Hash32, reason: EpochReason,
                           epochEntryHash: Hash32, msh: Hash32)
    requires SoundIdentity(p, from)
    ensures var blob := BuildSignedRotation(p, from, newEpoch, key, reason, epochEntryHash, msh);
            VerifyWithSpki(p, from.spkiDer, DOMAIN_ROTWRAP, RotationSignView(p, blob), blob.sig)
  {
    var bare := RotationBlob(newEpoch, key, reason, epochEntryHash, msh, from.deviceId, []);
    assert BuildSignedRotation(p, from, newEpoch, key, reason, epochEntryHash, msh).(sig := []) == bare;
  }

  /** The blob passes under the new log and fails under the old one, with or without the Remove. */
  lemma RevocationBlob(p: Primitives, me: Identity, wid: Hash32, log: seq<Bytes>, target: DeviceId, draw: Draw)
    requires CanRevoke(p, me, log, target)
    requires PlanRevocation(p, me, wid, log, target, draw).Ok?
    ensures var plan := PlanRevocation(p, me, wid, log, target, draw).value;
            && FullyAccepted(p, log + [plan.removeBytes], 0) && FullyAccepted(p, Rotated(log, plan), 0)
            && VerifyRotation(p, plan.blob, VerifyChain(p, Rotated(log, plan), 0).value)
            && !VerifyRotation(p, plan.blob, VerifyChain(p, log + [plan.removeBytes], 0).value)
            && !VerifyRotation(p, plan.blob, VerifyChain(p, log, 0).value)
            && GroupKey(plan.blob.newEpoch, plan.blob.groupKey) ==
               GroupKey(VerifyChain(p, log, 0).value.epoch + 1, draw.key)
  {
    hide VerifyChain, RemoveFor, EpochFor, MemberSetHash, SealAll;
    var plan := PlanRevocation(p, me, wid, log, target, draw).value;
    var v := VerifyChain(p, log, 0).value;
    RevocationSteps(p, me, log, target, draw);
    var msh := MemberSetHash(p, v.members - {target});
    SignedBlobVerifies(p, me, v.epoch + 1, draw.key, Revoke(target), p.blake3(plan.epochBytes), msh);
  }

  /** A remaining member takes the new key from its wrap once it has both entries, and not before. */
  lemma RemainingMemberAdopts(p: Primitives, me: Identity, wid: Hash32, log: seq<Bytes>, target: DeviceId, draw: Draw,
                              peer: Identity, u: KeyUpdate)
    requires CanRevoke(p, me, log, target) && BlobCodecLaw(p)
    requires PlanRevocation(p, me, wid, log, target, draw).Ok?
    requires u in PlanRevocation(p, me, wid, log, target, draw).value.updates && u.to == peer.deviceId
    requires peer.deviceId in VerifyChain(p, log, 0).value.members ==>
               KemPair(p, peer.kemSecret, VerifyChain(p, log, 0).value.members[peer.deviceId].kemPk)
    ensures var plan := PlanRevocation(p, me, wid, log, target, draw).value;
            && AdoptedKey(p, peer, wid, Rotated(log, plan), u.wrap) ==
               Some(GroupKey(VerifyChain(p, log, 0).value.epoch + 1, draw.key))
            && AdoptedKey(p, peer, wid, log + [plan.removeBytes], u.wrap) == None
            && AdoptedKey(p, peer, wid, log, u.wrap) == None
  {
    hide VerifyChain, VerifyRotation, RemoveFor, EpochFor, MemberSetHash, SealAll;
    var plan := PlanRevocation(p, me, wid, log, target, draw).value;
    RevocationSteps(p, me, log, target, draw);
    RevocationBlob(p, me, wid, log, target, draw);
    var v2 := VerifyChain(p, log + [plan.removeBytes], 0).value;
    SealAllCovers(p, Ascending(v2.members.Keys), v2.members, me.deviceId, wid, plan.blob, draw);
    hide BuildSignedRotation;
    var aad, pt := RotationAad(wid, u.to), p.encodeBlob(plan.blob);
    assert p.kemSeal(v2.members[u.to].kemPk, aad, pt, draw.seal(u.to)) == Some(u.wrap);
    assert p.kemOpen(peer.kemSecret, aad, u.wrap) == Some(pt);
    assert p.decodeBlob(p.encodeBlob(plan.blob)) == Some(plan.blob);
    assert OpenRotation(p, peer, wid, u.wrap) == Some(plan.blob);
  }

  lemma NothingAfterRejected(p: Primitives, log: seq<Bytes>, b1: Bytes, b2: Bytes)
    requires !FullyAccepted(p, log + [b1], 0)
    ensures VerifyChain(p, log + [b1] + [b2], 0) == VerifyChain(p, log + [b1], 0)
    ensures !FullyAccepted(p, log + [b1] + [b2], 0)
  {
    hide VerifyChain;
    RejectedTailIgnored(p, log + [b1], [b2], 0);
    LongestValidPrefix(p, log + [b1], 0);
  }

  /** Over the revoker's own log both entries count exactly when that log is accepted to its end and
      the revoker is in its roster, neither of which the command checks; otherwise neither counts. */
  lemma RevocationTakesEffectWhen(p: Primitives, me: Identity, wid: Hash32, log: seq<Bytes>, target: DeviceId,
                                  draw: Draw)
    requires EntryCodecLaw(p) && SoundIdentity(p, me) && target != me.deviceId
    requires VerifyChain(p, log, 0).Ok?
    requires me.deviceId in VerifyChain(p, log, 0).value.members ==> Holds(VerifyChain(p, log, 0).value, me)
    requires PlanRevocation(p, me, wid, log, target, draw).Ok?
    ensures var plan := PlanRevocation(p, me, wid, log, target, draw).value;
            var v := VerifyChain(p, log, 0).value;
            && (FullyAccepted(p, Rotated(log, plan), 0) <==> FullyAccepted(p, log, 0) && me.deviceId in v.members)
            && (!FullyAccepted(p, Rotated(log, plan), 0) ==> VerifyChain(p, Rotated(log, plan), 0) == Ok(v))
  {
    hide VerifyChain, MemberSetHash, SealAll, BuildRemove, EpochFor, BlobFor, Ascending;
    var plan := PlanRevocation(p, me, wid, log, target, draw).value;
    var v := VerifyChain(p, log, 0).value;
    RemoveAccepted(p, log, me, target, draw.removedAt, 0);
    if FullyAccepted(p, log + [plan.removeBytes], 0) {
      RevocationLog(p, me, wid, log, target, draw);
    } else {
      NothingAfterRejected(p, log, plan.removeBytes, plan.epochBytes);
    }
  }

  /** A member of an accepted log, or a device with no standing in it. */
  ghost predicate OwnStanding(v: VerifiedLog, me: Identity) {
    me.deviceId in v.members ==> Holds(v, me)
  }

  /** Who a plan seals the new key to: all of the roster but the revoker, and without the target only
      when the Remove counts over the local log. */
  lemma PlanAddressees(p: Primitives, me: Identity, wid: Hash32, log: seq<Bytes>, target: DeviceId, draw: Draw)
    requires EntryCodecLaw(p) && SoundIdentity(p, me) && target != me.deviceId
    requires VerifyChain(p, log, 0).Ok? && OwnStanding(VerifyChain(p, log, 0).value, me)
    requires PlanRevocation(p, me, wid, log, target, draw).Ok?
    ensures var plan := PlanRevocation(p, me, wid, log, target, draw).value;
            var v := VerifyChain(p, log, 0).value;
            var counts := FullyAccepted(p, log, 0) && me.deviceId in v.members;
            && Recipients(plan.updates) ==
               Without(Ascending(v.members.Keys - if counts then {target} else {}), me.deviceId)
            && (target in Recipients(plan.updates) <==> !counts)
  {
    hide VerifyChain, BuildRemove, EpochFor, BlobFor, MemberSetHash, SealAll, Without, Recipients;
    var plan := PlanRevocation(p, me, wid, log, target, draw).value;
    var v := VerifyChain(p, log, 0).value;
    RemoveAccepted(p, log, me, target, draw.removedAt, 0);
    var v2 := VerifyChain(p, log + [plan.removeBytes], 0).value;
    var counts := FullyAccepted(p, log, 0) && me.deviceId in v.members;
    assert v2.members.Keys == v.members.Keys - if counts then {target} else {};
    SealAllCovers(p, Ascending(v2.members.Keys), v2.members, me.deviceId, wid, plan.blob, draw);
    WithoutMembers(Ascending(v2.members.Keys), me.deviceId);
  }

  /** Adoption compares only lengths. If the adopting core's log differs from the snapshot and still
      accepts the plan's Remove, then an entry of one collides with an entry of the other. */
  lemma AdoptedLogIsTheSnapshot(p: Primitives, me: Identity, wid: Hash32, log: seq<Bytes>, target: DeviceId, draw: Draw,
                                current: seq<Bytes>)
    requires CanRevoke(p, me, log, target)
    requires PlanRevocation(p, me, wid, log, target, draw).Ok?
    requires current != []
    ensures var plan := PlanRevocation(p, me, wid, log, target, draw).value;
            && (current == log ==> FullyAccepted(p, Rotated(current, plan), 0))
            && (FullyAccepted(p, current + [plan.removeBytes], 0) ==> current == log || Collision(p, current, log))
  {
    hide VerifyChain, MemberSetHash, SealAll, EpochFor, BlobFor;
    var plan := PlanRevocation(p, me, wid, log, target, draw).value;
    RevocationLog(p, me, wid, log, target, draw);
    var next := current + [plan.removeBytes];
    if FullyAccepted(p, next, 0) {
      var v := VerifyChain(p, log, 0).value;
      FullyAcceptedIsChain(p, next, 0);
      FullyAcceptedIsChain(p, current, 0);
      ChainSnoc(p, current, plan.removeBytes, 0);
      var e := BuildRemove(p, me, v.headHash, v.headSeq + 1, target, draw.removedAt);
      assert p.decodeEntry(p.encodeEntry(e)) == Some(e);
      HeadHashCommitsToLog(p, current, 0, log, 0);
    }
  }

  lemma TwoMembersTwoEntries(p: Primitives, log: seq<Bytes>, a: DeviceId, b: DeviceId)
    requires FullyAccepted(p, log, 0) && a != b
    requires a in VerifyChain(p, log, 0).value.members && b in VerifyChain(p, log, 0).value.members
    ensures |log| >= 2
  {
  }

  /** A log of the same length that is adopted although it is another: the last entry is one that does
      not decode. Neither entry of the revocation counts over it, nor does the one that was replaced. */
  lemma LengthIsNotContent(p: Primitives, me: Identity, wid: Hash32, log: seq<Bytes>, target: DeviceId, draw: Draw,
                           junk: Bytes)
    requires CanRevoke(p, me, log, target) && p.decodeEntry(junk).None?
    requires PlanRevocation(p, me, wid, log, target, draw).Ok?
    ensures var plan := PlanRevocation(p, me, wid, log, target, draw).value;
            var current := log[..|log| - 1] + [junk];
            && |current| == |log| && current != log
            && VerifyChain(p, Rotated(current, plan), 0) == VerifyChain(p, log[..|log| - 1], 0)
            && FullyAccepted(p, log[..|log| - 1], 0)
  {
    TwoMembersTwoEntries(p, log, me.deviceId, target);
    hide VerifyChain, PlanRevocation;
    var init := log[..|log| - 1];
    var plan := PlanRevocation(p, me, wid, log, target, draw).value;
    FullyAcceptedIsChain(p, log, 0);
    LastEntry(p, log, 0);
    FullyAcceptedIsChain(p, init, 0);
    hide Chain;
    JunkStops(p, init, junk, [plan.removeBytes] + [plan.epochBytes]);
    assert Rotated(init + [junk], plan) == init + [junk] + ([plan.removeBytes] + [plan.epochBytes]);
  }

  /** An entry that does not decode ends an accepted log, whatever comes after it. */
  lemma JunkStops(p: Primitives, log: seq<Bytes>, junk: Bytes, more: seq<Bytes>)
    requires FullyAccepted(p, log, 0) && p.decodeEntry(junk).None?
    ensures VerifyChain(p, log + [junk], 0) == VerifyChain(p, log, 0) && !FullyAccepted(p, log + [junk], 0)
    ensures VerifyChain(p, log + [junk] + more, 0) == VerifyChain(p, log, 0)
  {
    hide VerifyChain, Chain;
    AppendIsOneStep(p, log, junk, 0);
    RejectedTailIgnored(p, log + [junk], more, 0);
  }
}
