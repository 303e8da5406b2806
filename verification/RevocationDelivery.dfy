/** Key changes carried out through the relay: what the server does with a revocation, what each
    device receives, and which keys the receivers end up with. */
module RevocationDelivery {
  import opened ByteStrings
  import opened Wrappers
  import opened LogEntries
  import opened MemberSet
  import opened WsLog
  import opened LogHistory
  import opened Wire
  import opened Sequences
  import opened Relay
  import opened Revocation
  import RelayRuns

  // ----- One entry, one batch of keys -----

  lemma AppendIsHandled(p: Primitives, s: State, dev: DeviceId, entry: Bytes)
    ensures Handle(p, s, dev, C2s.AppendEntry(entry)).0 == OnAppend(p, s, dev, dev in RosterOf(p, s.log), entry)
  {
    hide OnAppend, RosterOf;
  }

  /** A member's acceptable entry extends the log and is told to every other member with a session. */
  lemma EntryIsTold(p: Primitives, s: State, dev: DeviceId, entry: Bytes, d: DeviceId)
    requires dev in RosterOf(p, s.log) && FullyAccepted(p, s.log + [entry], 0) && d != dev
    ensures var t := Handle(p, s, dev, C2s.AppendEntry(entry)).0;
            var v := VerifyChain(p, s.log + [entry], 0).value;
            && t.log == s.log + [entry] && t.epoch == v.epoch
            && t.sessions == s.sessions && t.mailbox == s.mailbox
            && (DecodesToEpoch(p, entry) ==> t.headCache == [])
            && SentTo(t.sent, d) ==
               SentTo(s.sent, d) + if d in s.sessions && d in v.members then [LogAppended(entry, v.headSeq)] else []
  {
    var v := VerifyChain(p, s.log + [entry], 0).value;
    AppendIsHandled(p, s, dev, entry);
    RelayRuns.RosterOfVerified(p, s.log + [entry]);
    AcceptedIsAnnounced(p, s, dev, entry);
    AppendedState(p, s, entry, v.epoch);
    hide VerifyChain, RosterOf, DecodesToEpoch, Handle, SentTo, OnAppend, Appended, Announced;
    AnnouncedTo(p, Appended(p, s, entry, v.epoch), dev, entry, v, d);
  }

  lemma AcceptedIsAnnounced(p: Primitives, s: State, dev: DeviceId, entry: Bytes)
    requires FullyAccepted(p, s.log + [entry], 0)
    ensures var v := VerifyChain(p, s.log + [entry], 0).value;
            OnAppend(p, s, dev, true, entry) == Announced(p, Appended(p, s, entry, v.epoch), dev, entry, v)
  {
    hide VerifyChain, Announced, Appended;
  }

  lemma AppendedState(p: Primitives, s: State, entry: Bytes, epoch: nat)
    ensures var t := Appended(p, s, entry, epoch);
            && t.log == s.log + [entry] && t.epoch == epoch && t.sent == s.sent
            && t.sessions == s.sessions && t.mailbox == s.mailbox
            && (DecodesToEpoch(p, entry) ==> t.headCache == [])
  {
    hide DecodesToEpoch;
  }

  lemma AnnouncedTo(p: Primitives, s: State, dev: DeviceId, entry: Bytes, v: VerifiedLog, d: DeviceId)
    requires d != dev
    ensures SentTo(Announced(p, s, dev, entry, v).sent, d) ==
            SentTo(s.sent, d) +
            if d in s.sessions && d in RosterOf(p, s.log) then [LogAppended(entry, v.headSeq)] else []
  {
    hide RosterOf, SendTo, Broadcast, SentTo;
    var ack := AppendAck(v.headSeq, v.headHash);
    SentElsewhere(s, dev, ack, d);
    SentByBroadcast(SendTo(s, dev, ack), RosterOf(p, s.log), dev, LogAppended(entry, v.headSeq), d);
  }

  lemma EntryIsRefused(p: Primitives, s: State, dev: DeviceId, entry: Bytes)
    requires !FullyAccepted(p, s.log + [entry], 0)
    ensures Handle(p, s, dev, C2s.AppendEntry(entry)).0 ==
            SendTo(s, dev,
              AppendReject(if dev in RosterOf(p, s.log) || DecodesToAdd(p, entry) then Conflict else NotAuthorized))
  {
    hide VerifyChain, RosterOf, SendTo;
  }

  /** What became of `d` when a wrap for it was handed in: it was pushed to its session, or kept for
      its next hello. */
  ghost predicate Given(s: State, t: State, d: DeviceId, wrap: Bytes) {
    if d in s.sessions
    then SentTo(t.sent, d) == SentTo(s.sent, d) + [KeyUpdatePush(wrap)] && Lookup(t.mailbox, d) == Lookup(s.mailbox, d)
    else SentTo(t.sent, d) == SentTo(s.sent, d) && Lookup(t.mailbox, d) == Some(wrap)
  }

  ghost predicate Untouched(s: State, t: State, d: DeviceId) {
    SentTo(t.sent, d) == SentTo(s.sent, d) && Lookup(t.mailbox, d) == Lookup(s.mailbox, d)
  }

  lemma OneWrap(s: State, us: seq<KeyUpdate>, d: DeviceId)
    requires us != []
    ensures var s1 := OnKeyUpdates(s, us[..|us| - 1]);
            var t := OnKeyUpdates(s, us);
            if us[|us| - 1].to == d then Given(s1, t, d, us[|us| - 1].wrap) else Untouched(s1, t, d)
  {
    hide OnKeyUpdates;
    var s1, u := OnKeyUpdates(s, us[..|us| - 1]), us[|us| - 1];
    assert OnKeyUpdates(s, us) ==
           if u.to in s1.sessions then SendTo(s1, u.to, KeyUpdatePush(u.wrap))
           else s1.(mailbox := s1.mailbox[u.to := u.wrap])
    by { LastUpdate(s, us); }
  }

  lemma LastUpdate(s: State, us: seq<KeyUpdate>)
    requires us != []
    ensures var s1, u := OnKeyUpdates(s, us[..|us| - 1]), us[|us| - 1];
            OnKeyUpdates(s, us) ==
            if u.to in s1.sessions then SendTo(s1, u.to, KeyUpdatePush(u.wrap))
            else s1.(mailbox := s1.mailbox[u.to := u.wrap])
  {
    hide SendTo;
  }

  /** Each addressee of a batch is given its wrap, and nobody else notices. */
  lemma {:induction false} WrapIsDelivered(s: State, us: seq<KeyUpdate>, d: DeviceId)
    requires Distinct(Recipients(us))
    ensures d !in Recipients(us) ==> Untouched(s, OnKeyUpdates(s, us), d)
    ensures forall u | u in us && u.to == d :: Given(s, OnKeyUpdates(s, us), d, u.wrap)
    decreases |us|
  {
    if us != [] {
      var init, last := us[..|us| - 1], us[|us| - 1];
      RecipientsSnoc(us);
      DistinctParts(Recipients(us), |init|);
      assert Recipients(us)[..|init|] == Recipients(init);
      WrapIsDelivered(s, init, d);
      OneWrap(s, us, d);
      forall u | u in us && u.to == d ensures u == last || (u in init && last.to != d) {
        OneUpdateEach(us, u);
      }
      hide OnKeyUpdates, Recipients;
      assert last.to == d ==> d !in Recipients(init) by {
        assert Recipients(us)[|init|] == last.to && Recipients(us)[|init|] in Recipients(us)[|init|..];
      }
    }
  }

  lemma RecipientsSnoc(us: seq<KeyUpdate>)
    requires us != []
    ensures Recipients(us) == Recipients(us[..|us| - 1]) + [us[|us| - 1].to]
    ensures |Recipients(us)| == |us| && |Recipients(us[..|us| - 1])| == |us| - 1
  {
    RecipientsLength(us);
    RecipientsLength(us[..|us| - 1]);
  }

  lemma OneUpdateEach(us: seq<KeyUpdate>, u: KeyUpdate)
    requires us != [] && u in us && Distinct(Recipients(us))
    ensures u == us[|us| - 1] || (u in us[..|us| - 1] && us[|us| - 1].to != u.to)
    ensures u.to in Recipients(us)
  {
    RecipientsLength(us);
    var k :| 0 <= k < |us| && us[k] == u;
    assert Recipients(us)[k] == u.to;
    if k < |us| - 1 { assert us[..|us| - 1][k] == u; }
  }

  lemma {:induction false} RecipientsLength(us: seq<KeyUpdate>)
    ensures |Recipients(us)| == |us|
    ensures forall i | 0 <= i < |us| :: Recipients(us)[i] == us[i].to
  {
    if us != [] { RecipientsLength(us[..|us| - 1]); }
  }

  // ----- A revocation at the server -----

  /** The server after `dev` has sent `msgs`, one after another. */
  ghost function Served(p: Primitives, s: State, dev: DeviceId, msgs: seq<C2s>): State
    decreases |msgs|
  {
    if msgs == [] then s else Handle(p, Served(p, s, dev, msgs[..|msgs| - 1]), dev, msgs[|msgs| - 1]).0
  }

  /** The server after the two entries and the keys of a plan. */
  ghost function AfterRevocation(p: Primitives, s: State, me: DeviceId, plan: Plan): State {
    var s1 := Handle(p, s, me, C2s.AppendEntry(plan.removeBytes)).0;
    var s2 := Handle(p, s1, me, C2s.AppendEntry(plan.epochBytes)).0;
    if plan.updates == [] then s2 else Handle(p, s2, me, PutKeyUpdate(plan.updates)).0
  }

  lemma ServedPlan(p: Primitives, s: State, me: DeviceId, plan: Plan)
    ensures Served(p, s, me, Messages(plan)) == AfterRevocation(p, s, me, plan)
  {
    hide Handle;
    var two := [C2s.AppendEntry(plan.removeBytes), C2s.AppendEntry(plan.epochBytes)];
    var all := Messages(plan);
    assert two[..1] == [C2s.AppendEntry(plan.removeBytes)] && two[..1][..0] == [];
    assert Served(p, s, me, two[..1][..0]) == s;
    assert Served(p, s, me, two[..1]) == Handle(p, s, me, C2s.AppendEntry(plan.removeBytes)).0;
    assert Served(p, s, me, two) == Handle(p, Served(p, s, me, two[..1]), me, two[1]).0;
    if plan.updates == [] {
      assert all == two;
    } else {
      assert all[..2] == two && all[2] == PutKeyUpdate(plan.updates);
    }
  }

  lemma HeadSeqIsLast(p: Primitives, log: seq<Bytes>)
    requires FullyAccepted(p, log, 0)
    ensures VerifyChain(p, log, 0).value.headSeq == |log| - 1
  {
    FullyAcceptedIsChain(p, log, 0);
    ChainLinks(p, log, 0);
  }

  lemma KeysAreHandled(p: Primitives, s: State, dev: DeviceId, us: seq<KeyUpdate>)
    requires dev in RosterOf(p, s.log)
    ensures Handle(p, s, dev, PutKeyUpdate(us)).0 == OnKeyUpdates(s, us)
  {
    hide RosterOf, OnKeyUpdates;
  }

  ghost predicate Planned(p: Primitives, me: Identity, wid: Hash32, log: seq<Bytes>, target: DeviceId, draw: Draw,
                          plan: Plan)
  {
    CanRevoke(p, me, log, target) && PlanRevocation(p, me, wid, log, target, draw) == Ok(plan)
  }

  lemma PlanEpochDecodes(p: Primitives, me: Identity, wid: Hash32, log: seq<Bytes>, target: DeviceId, draw: Draw,
                         plan: Plan)
    requires Planned(p, me, wid, log, target, draw, plan)
    ensures DecodesToEpoch(p, plan.epochBytes)
  {
    hide VerifyChain, MemberSetHash, SealAll, Ascending;
    var v := VerifyChain(p, log, 0).value;
    var v2 := VerifyChain(p, log + [plan.removeBytes], 0).value;
    var e := BuildEpoch(p, me, v2.headHash, v2.headSeq + 1, v.epoch + 1, Revoke(target), MemberSetHash(p, v2.members),
                        ZERO_HASH, draw.rotatedAt);
    assert p.decodeEntry(p.encodeEntry(e)) == Some(e);
  }

  /** The messages that tell `d` of the two entries. */
  function Told(plan: Plan, n: nat): seq<S2c> {
    [LogAppended(plan.removeBytes, n), LogAppended(plan.epochBytes, n + 1)]
  }

  lemma EntriesAreTold(p: Primitives, me: Identity, wid: Hash32, log: seq<Bytes>, target: DeviceId, draw: Draw,
                       plan: Plan, s: State, d: DeviceId)
    requires Planned(p, me, wid, log, target, draw, plan) && s.log == log && d != me.deviceId
    ensures var members := VerifyChain(p, log, 0).value.members;
            var s1 := Handle(p, s, me.deviceId, C2s.AppendEntry(plan.removeBytes)).0;
            var s2 := Handle(p, s1, me.deviceId, C2s.AppendEntry(plan.epochBytes)).0;
            && s2.log == Rotated(log, plan) && s2.epoch == VerifyChain(p, log, 0).value.epoch + 1 && s2.headCache == []
            && RosterOf(p, s2.log) == members.Keys - {target}
            && s2.sessions == s.sessions && s2.mailbox == s.mailbox
            && SentTo(s2.sent, d) ==
               SentTo(s.sent, d) + if d in s.sessions && d in members && d != target then Told(plan, |log|) else []
  {
    hide VerifyChain, PlanRevocation, RosterOf, Handle, DecodesToEpoch, SentTo, Recipients, Without, Ascending;
    RevocationLog(p, me, wid, log, target, draw);
    PlanEpochDecodes(p, me, wid, log, target, draw, plan);
    var log1 := log + [plan.removeBytes];
    RelayRuns.RosterOfVerified(p, log);
    RelayRuns.RosterOfVerified(p, log1);
    RelayRuns.RosterOfVerified(p, Rotated(log, plan));
    HeadSeqIsLast(p, log1);
    HeadSeqIsLast(p, Rotated(log, plan));
    EntryIsTold(p, s, me.deviceId, plan.removeBytes, d);
    var s1 := Handle(p, s, me.deviceId, C2s.AppendEntry(plan.removeBytes)).0;
    EntryIsTold(p, s1, me.deviceId, plan.epochBytes, d);
  }

  /** A revoker whose log is the server's: the server takes both entries over, forgets the cached
      signals, and every remaining member gets the two entries and then its own wrap, or finds the
      wrap waiting when it has no session. The removed device is told nothing. */
  lemma RevocationAtServer(p: Primitives, me: Identity, wid: Hash32, log: seq<Bytes>, target: DeviceId, draw: Draw,
                           plan: Plan, s: State, d: DeviceId)
    requires Planned(p, me, wid, log, target, draw, plan) && s.log == log && d != me.deviceId
    ensures var members := VerifyChain(p, log, 0).value.members;
            var t := Served(p, s, me.deviceId, Messages(plan));
            && t.log == Rotated(log, plan) && t.epoch == VerifyChain(p, log, 0).value.epoch + 1 && t.headCache == []
            && RosterOf(p, t.log) == members.Keys - {target}
            && (d !in members || d == target ==> Untouched(s, t, d))
            && (d in members && d != target ==> exists u :: u in plan.updates && u.to == d)
            && forall u | u in plan.updates && u.to == d ::
                 if d in s.sessions
                 then SentTo(t.sent, d) == SentTo(s.sent, d) + Told(plan, |log|) + [KeyUpdatePush(u.wrap)]
                 else SentTo(t.sent, d) == SentTo(s.sent, d) && Lookup(t.mailbox, d) == Some(u.wrap)
  {
    hide VerifyChain, PlanRevocation, RosterOf, Handle, DecodesToEpoch, SentTo, OnKeyUpdates, Told;
    ServedPlan(p, s, me.deviceId, plan);
    EntriesAreTold(p, me, wid, log, target, draw, plan, s, d);
    PlanRecipients(p, me, wid, log, target, draw, plan);
    var s1 := Handle(p, s, me.deviceId, C2s.AppendEntry(plan.removeBytes)).0;
    var s2 := Handle(p, s1, me.deviceId, C2s.AppendEntry(plan.epochBytes)).0;
    KeysAreHandled(p, s2, me.deviceId, plan.updates);
    WrapIsDelivered(s2, plan.updates, d);
    AddresseesCovered(plan.updates, d);
    assert SentTo(s.sent, d) + [] == SentTo(s.sent, d);
    hide Recipients;
  }

  lemma PlanRecipients(p: Primitives, me: Identity, wid: Hash32, log: seq<Bytes>, target: DeviceId, draw: Draw,
                       plan: Plan)
    requires Planned(p, me, wid, log, target, draw, plan)
    ensures Distinct(Recipients(plan.updates))
    ensures forall d :: d in Recipients(plan.updates) <==>
                        d in VerifyChain(p, log, 0).value.members && d != target && d != me.deviceId
  {
    hide VerifyChain, PlanRevocation, Ascending, Without, Recipients;
    RevocationLog(p, me, wid, log, target, draw);
    var rest := VerifyChain(p, log, 0).value.members.Keys - {target};
    AscendingDistinct(rest);
    WithoutDistinct(Ascending(rest), me.deviceId);
    WithoutMembers(Ascending(rest), me.deviceId);
  }

  lemma AscendingDistinct(ids: set<Hash32>)
    ensures Distinct(Ascending(ids))
  {
    hide Ascending, LexLess;
    var xs := Ascending(ids);
    forall i, j | 0 <= i < j < |xs| ensures xs[i] != xs[j] {
      AscendingSorted(ids, i, j);
      LexTrichotomy(xs[i], xs[j]);
    }
  }

  lemma AddresseesCovered(us: seq<KeyUpdate>, d: DeviceId)
    ensures d in Recipients(us) <==> exists u :: u in us && u.to == d
  {
    RecipientsLength(us);
    if d in Recipients(us) {
      var i :| 0 <= i < |us| && Recipients(us)[i] == d;
      assert us[i] in us;
    }
    forall u | u in us && u.to == d ensures d in Recipients(us) {
      var i :| 0 <= i < |us| && us[i] == u;
      assert Recipients(us)[i] == d;
    }
  }

  // ----- A revoker that holds more than the log accepts, or has no standing -----

  /** A plan the command makes and sends, whatever the state of the local log. */
  ghost predicate Attempted(p: Primitives, me: Identity, wid: Hash32, log: seq<Bytes>, target: DeviceId, draw: Draw,
                            plan: Plan)
  {
    && EntryCodecLaw(p) && SoundIdentity(p, me) && target != me.deviceId
    && VerifyChain(p, log, 0).Ok? && OwnStanding(VerifyChain(p, log, 0).value, me)
    && PlanRevocation(p, me, wid, log, target, draw) == Ok(plan)
  }

  /** The part of a log that is accepted. */
  ghost function AcceptedPart(p: Primitives, log: seq<Bytes>): (part: seq<Bytes>)
    requires VerifyChain(p, log, 0).Ok?
    ensures FullyAccepted(p, part, 0) && VerifyChain(p, part, 0) == VerifyChain(p, log, 0)
    ensures FullyAccepted(p, log, 0) ==> part == log
  {
    LongestValidPrefix(p, log, 0);
    PrefixOfLog(p, log, VerifyChain(p, log, 0).value.accepted, 0);
    log[..VerifyChain(p, log, 0).value.accepted]
  }

  lemma AttemptedEntries(p: Primitives, me: Identity, wid: Hash32, log: seq<Bytes>, target: DeviceId, draw: Draw,
                         plan: Plan)
    requires Attempted(p, me, wid, log, target, draw, plan)
    ensures var v := VerifyChain(p, log, 0).value;
            && target in v.members
            && plan.removeBytes == RemoveFor(p, me, v, target, draw)
            && p.decodeEntry(plan.epochBytes).Some?
            && var e := p.decodeEntry(plan.epochBytes).value;
            && e.Epoch? && e.rotator == me.deviceId
            && (!(FullyAccepted(p, log, 0) && me.deviceId in v.members) ==> e.seqNo == v.headSeq + 1)
  {
    hide VerifyChain, MemberSetHash, SealAll, Ascending, BuildRemove;
    var v := VerifyChain(p, log, 0).value;
    RemoveAccepted(p, log, me, target, draw.removedAt, 0);
    var v2 := VerifyChain(p, log + [plan.removeBytes], 0).value;
    var e := BuildEpoch(p, me, v2.headHash, v2.headSeq + 1, v.epoch + 1, Revoke(target), MemberSetHash(p, v2.members),
                        ZERO_HASH, draw.rotatedAt);
    assert p.decodeEntry(p.encodeEntry(e)) == Some(e);
  }

  /** An entry whose number is not the next, or that rests on a device outside the roster, does not
      extend an accepted log. */
  lemma DoesNotFit(p: Primitives, log: seq<Bytes>, b: Bytes)
    requires FullyAccepted(p, log, 0) && p.decodeEntry(b).Some?
    requires var e := p.decodeEntry(b).value;
             || e.Seq() != VerifyChain(p, log, 0).value.headSeq + 1
             || (e.Epoch? && e.rotator !in VerifyChain(p, log, 0).value.members)
    ensures !FullyAccepted(p, log + [b], 0)
  {
    hide VerifyChain;
    FullyAcceptedIsChain(p, log, 0);
    FullyAcceptedIsChain(p, log + [b], 0);
    ChainSnoc(p, log, b, 0);
    hide Chain, MemberSetHash;
  }

  /** The server after the two entries of a plan. */
  ghost function AfterEntries(p: Primitives, s: State, me: DeviceId, plan: Plan): State {
    Handle(p, Handle(p, s, me, C2s.AppendEntry(plan.removeBytes)).0, me, C2s.AppendEntry(plan.epochBytes)).0
  }

  lemma LogAfterEntries(p: Primitives, s: State, me: DeviceId, plan: Plan)
    ensures Served(p, s, me, Messages(plan)).log == AfterEntries(p, s, me, plan).log
  {
    hide Handle;
    ServedPlan(p, s, me, plan);
    KeysKeepLog(p, AfterEntries(p, s, me, plan), me, plan.updates);
  }

  lemma RefusedKeepsLog(p: Primitives, s: State, dev: DeviceId, entry: Bytes)
    requires !FullyAccepted(p, s.log + [entry], 0)
    ensures Handle(p, s, dev, C2s.AppendEntry(entry)).0.log == s.log
  {
    EntryIsRefused(p, s, dev, entry);
    hide Handle, VerifyChain, RosterOf;
  }

  lemma OutsiderChangesNothing(p: Primitives, me: Identity, wid: Hash32, log: seq<Bytes>, target: DeviceId, draw: Draw,
                               plan: Plan, s: State)
    requires Attempted(p, me, wid, log, target, draw, plan) && s.log == AcceptedPart(p, log)
    requires me.deviceId !in VerifyChain(p, log, 0).value.members
    ensures AfterEntries(p, s, me.deviceId, plan).log == s.log
  {
    hide VerifyChain, PlanRevocation, RosterOf, Handle, AcceptedPart, BuildRemove;
    AttemptedEntries(p, me, wid, log, target, draw, plan);
    RemoveAccepted(p, s.log, me, target, draw.removedAt, 0);
    RefusedKeepsLog(p, s, me.deviceId, plan.removeBytes);
    DoesNotFit(p, s.log, plan.epochBytes);
    RefusedKeepsLog(p, Handle(p, s, me.deviceId, C2s.AppendEntry(plan.removeBytes)).0, me.deviceId, plan.epochBytes);
  }

  lemma RemoveLandsAlone(p: Primitives, me: Identity, wid: Hash32, log: seq<Bytes>, target: DeviceId, draw: Draw,
                         plan: Plan, s: State)
    requires Attempted(p, me, wid, log, target, draw, plan) && s.log == AcceptedPart(p, log)
    requires me.deviceId in VerifyChain(p, log, 0).value.members && !FullyAccepted(p, log, 0)
    ensures var v := VerifyChain(p, log, 0).value;
            && AfterEntries(p, s, me.deviceId, plan).log == s.log + [plan.removeBytes]
            && VerifyChain(p, s.log + [plan.removeBytes], 0).Ok?
            && VerifyChain(p, s.log + [plan.removeBytes], 0).value.members == v.members - {target}
            && VerifyChain(p, s.log + [plan.removeBytes], 0).value.epoch == v.epoch
  {
    hide VerifyChain, PlanRevocation, RosterOf, Handle, AcceptedPart, BuildRemove;
    AttemptedEntries(p, me, wid, log, target, draw, plan);
    RemoveAccepted(p, s.log, me, target, draw.removedAt, 0);
    RelayRuns.RosterOfVerified(p, s.log);
    EntryIsTold(p, s, me.deviceId, plan.removeBytes, target);
    DoesNotFit(p, s.log + [plan.removeBytes], plan.epochBytes);
    RefusedKeepsLog(p, Handle(p, s, me.deviceId, C2s.AppendEntry(plan.removeBytes)).0, me.deviceId, plan.epochBytes);
  }

  lemma StandingAfter(p: Primitives, log: seq<Bytes>)
    requires VerifyChain(p, log, 0).Ok?
    ensures RosterOf(p, log) == VerifyChain(p, log, 0).value.members.Keys
    ensures EpochOf(p, log) == VerifyChain(p, log, 0).value.epoch
  {
    RelayRuns.RosterOfVerified(p, log);
    hide VerifyChain, RosterOf;
  }

  /** What an attempted revocation does at a server that holds the accepted part of the revoker's log:
      all of it for a member whose log is accepted to its end, the Remove without the Epoch for a
      member whose log is not, and nothing for a device outside the roster. */
  lemma AttemptAtServer(p: Primitives, me: Identity, wid: Hash32, log: seq<Bytes>, target: DeviceId, draw: Draw,
                        plan: Plan, s: State)
    requires Attempted(p, me, wid, log, target, draw, plan) && s.log == AcceptedPart(p, log)
    ensures var v := VerifyChain(p, log, 0).value;
            var t := Served(p, s, me.deviceId, Messages(plan));
            var standing := me.deviceId in v.members;
            var counts := standing && FullyAccepted(p, log, 0);
            && t.log == (if counts then Rotated(s.log, plan)
                         else if standing then s.log + [plan.removeBytes]
                         else s.log)
            && RosterOf(p, t.log) == v.members.Keys - (if standing then {target} else {})
            && EpochOf(p, t.log) == v.epoch + if counts then 1 else 0
  {
    hide VerifyChain, PlanRevocation, RosterOf, EpochOf, Handle, AcceptedPart, AfterEntries, Served, Messages;
    LogAfterEntries(p, s, me.deviceId, plan);
    var v := VerifyChain(p, log, 0).value;
    var t := Served(p, s, me.deviceId, Messages(plan));
    if me.deviceId !in v.members {
      OutsiderChangesNothing(p, me, wid, log, target, draw, plan, s);
    } else if FullyAccepted(p, log, 0) {
      MemberLandsBoth(p, me, wid, log, target, draw, plan, s);
    } else {
      RemoveLandsAlone(p, me, wid, log, target, draw, plan, s);
    }
    StandingAfter(p, t.log);
    assert v.members.Keys - {} == v.members.Keys;
  }

  lemma MemberLandsBoth(p: Primitives, me: Identity, wid: Hash32, log: seq<Bytes>, target: DeviceId, draw: Draw,
                        plan: Plan, s: State)
    requires Attempted(p, me, wid, log, target, draw, plan) && s.log == log
    requires me.deviceId in VerifyChain(p, log, 0).value.members && FullyAccepted(p, log, 0)
    ensures AfterEntries(p, s, me.deviceId, plan).log == Rotated(log, plan)
    ensures FullyAccepted(p, Rotated(log, plan), 0)
    ensures VerifyChain(p, Rotated(log, plan), 0).value.members == VerifyChain(p, log, 0).value.members - {target}
    ensures VerifyChain(p, Rotated(log, plan), 0).value.epoch == VerifyChain(p, log, 0).value.epoch + 1
  {
    AttemptedEntries(p, me, wid, log, target, draw, plan);
    hide VerifyChain, PlanRevocation, RosterOf, Handle;
    RevocationLog(p, me, wid, log, target, draw);
    EntriesAreTold(p, me, wid, log, target, draw, plan, s, target);
  }

  /** The wrap of `u` is the last thing sent to its device, or waits for its next hello. */
  ghost predicate HandedOut(s: State, t: State, u: KeyUpdate) {
    if u.to in s.sessions
    then SentTo(t.sent, u.to) != [] && SentTo(t.sent, u.to)[|SentTo(t.sent, u.to)| - 1] == KeyUpdatePush(u.wrap)
    else Lookup(t.mailbox, u.to) == Some(u.wrap)
  }

  lemma EntriesKeepSessions(p: Primitives, s: State, me: DeviceId, plan: Plan)
    ensures AfterEntries(p, s, me, plan).sessions == s.sessions
  {
    hide Handle, OnAppend, RosterOf;
    AppendIsHandled(p, s, me, plan.removeBytes);
    AppendIsHandled(p, Handle(p, s, me, C2s.AppendEntry(plan.removeBytes)).0, me, plan.epochBytes);
  }

  /** The wraps go out whether or not the entries were taken, as long as the sender is still a member. */
  lemma WrapsGoOut(p: Primitives, s: State, me: DeviceId, plan: Plan, u: KeyUpdate)
    requires Distinct(Recipients(plan.updates)) && u in plan.updates
    requires me in RosterOf(p, AfterEntries(p, s, me, plan).log)
    ensures HandedOut(s, Served(p, s, me, Messages(plan)), u)
  {
    var s2 := AfterEntries(p, s, me, plan);
    ServedPlan(p, s, me, plan);
    hide Handle, RosterOf, OnKeyUpdates, SentTo, Served, Recipients, Distinct;
    EntriesKeepSessions(p, s, me, plan);
    KeysAreHandled(p, s2, me, plan.updates);
    WrapIsDelivered(s2, plan.updates, u.to);
  }

  lemma OutsidersKeysAreRefused(p: Primitives, s: State, dev: DeviceId, us: seq<KeyUpdate>)
    requires dev !in RosterOf(p, s.log)
    ensures Handle(p, s, dev, PutKeyUpdate(us)).0 == SendTo(s, dev, S2c.Error(NotMember))
  {
    hide RosterOf, SendTo;
  }

  /** A wrap is handed out exactly when the plan holds one for the device and its sender is a member at
      that moment; otherwise the keys make no difference to the device. */
  lemma WrapGoesOutIff(p: Primitives, s: State, me: DeviceId, plan: Plan, d: DeviceId)
    requires Distinct(Recipients(plan.updates)) && d != me
    ensures var s2, t := AfterEntries(p, s, me, plan), Served(p, s, me, Messages(plan));
            if d in Recipients(plan.updates) && me in RosterOf(p, s2.log)
            then exists u :: u in plan.updates && u.to == d && HandedOut(s, t, u)
            else Untouched(s2, t, d)
  {
    var s2 := AfterEntries(p, s, me, plan);
    ServedPlan(p, s, me, plan);
    AddresseesCovered(plan.updates, d);
    hide Handle, RosterOf, OnKeyUpdates, SentTo, Served, Recipients, Distinct, HandedOut;
    if me !in RosterOf(p, s2.log) {
      OutsidersKeysAreRefused(p, s2, me, plan.updates);
      SentElsewhere(s2, me, S2c.Error(NotMember), d);
    } else if d in Recipients(plan.updates) {
      var u :| u in plan.updates && u.to == d;
      WrapsGoOut(p, s, me, plan, u);
    } else {
      KeysAreHandled(p, s2, me, plan.updates);
      WrapIsDelivered(s2, plan.updates, d);
    }
  }

  /** The entries of a plan are about the target only, so the revoker is a member after them exactly
      when it was before. */
  lemma RevokerKeepsStanding(p: Primitives, me: Identity, wid: Hash32, log: seq<Bytes>, target: DeviceId, draw: Draw,
                             plan: Plan, s: State)
    requires Attempted(p, me, wid, log, target, draw, plan)
    ensures me.deviceId in RosterOf(p, AfterEntries(p, s, me.deviceId, plan).log) <==> me.deviceId in RosterOf(p, s.log)
  {
    AttemptedEntries(p, me, wid, log, target, draw, plan);
    RemoveDecodes(p, me, VerifyChain(p, log, 0).value, target, draw);
    hide VerifyChain, PlanRevocation, RosterOf, Handle, RemoveFor;
    EntryKeepsRevoker(p, s, me.deviceId, plan.removeBytes);
    EntryKeepsRevoker(p, Handle(p, s, me.deviceId, C2s.AppendEntry(plan.removeBytes)).0, me.deviceId, plan.epochBytes);
  }

  lemma RemoveDecodes(p: Primitives, me: Identity, v: VerifiedLog, target: DeviceId, draw: Draw)
    requires EntryCodecLaw(p)
    ensures var e := p.decodeEntry(RemoveFor(p, me, v, target, draw));
            e.Some? && e.value.Remove? && e.value.target == target
  {
    var e := BuildRemove(p, me, v.headHash, v.headSeq + 1, target, draw.removedAt);
    assert p.decodeEntry(p.encodeEntry(e)) == Some(e);
  }

  lemma EntryKeepsRevoker(p: Primitives, s: State, dev: DeviceId, entry: Bytes)
    requires p.decodeEntry(entry).Some? && !p.decodeEntry(entry).value.Genesis?
    requires !RelayRuns.Concerning(p, entry, dev)
    ensures dev in RosterOf(p, Handle(p, s, dev, C2s.AppendEntry(entry)).0.log) <==> dev in RosterOf(p, s.log)
  {
    hide VerifyChain, RosterOf, Handle;
    RelayRuns.MessageAndLog(p, s, dev, C2s.AppendEntry(entry));
    if FullyAccepted(p, s.log + [entry], 0) {
      if s.log == [] {
        assert s.log + [entry] == [entry];
        LoneEntryOpens(p, entry);
      }
      RelayRuns.EntryKeepsStanding(p, s.log, entry, dev);
    }
  }

  /** Entries and keys of a device outside the server's roster reach nobody. */
  lemma OutsiderReachesNobody(p: Primitives, me: Identity, wid: Hash32, log: seq<Bytes>, target: DeviceId, draw: Draw,
                              plan: Plan, s: State, d: DeviceId)
    requires Attempted(p, me, wid, log, target, draw, plan) && me.deviceId !in RosterOf(p, s.log) && d != me.deviceId
    ensures var t := Served(p, s, me.deviceId, Messages(plan));
            t.log == s.log && Untouched(s, t, d)
  {
    AttemptedEntries(p, me, wid, log, target, draw, plan);
    RemoveDecodes(p, me, VerifyChain(p, log, 0).value, target, draw);
    ServedPlan(p, s, me.deviceId, plan);
    hide VerifyChain, PlanRevocation, RosterOf, Handle, RemoveFor, Served, SentTo;
    OutsidersEntryIsRefused(p, s, me.deviceId, plan.removeBytes, d);
    var s1 := Handle(p, s, me.deviceId, C2s.AppendEntry(plan.removeBytes)).0;
    OutsidersEntryIsRefused(p, s1, me.deviceId, plan.epochBytes, d);
    var s2 := Handle(p, s1, me.deviceId, C2s.AppendEntry(plan.epochBytes)).0;
    OutsidersKeysAreRefused(p, s2, me.deviceId, plan.updates);
    SentElsewhere(s2, me.deviceId, S2c.Error(NotMember), d);
    hide SendTo;
  }

  lemma OutsidersEntryIsRefused(p: Primitives, s: State, dev: DeviceId, entry: Bytes, d: DeviceId)
    requires dev !in RosterOf(p, s.log) && !DecodesToAdd(p, entry) && d != dev
    ensures var t := Handle(p, s, dev, C2s.AppendEntry(entry)).0; t.log == s.log && Untouched(s, t, d)
  {
    AppendIsHandled(p, s, dev, entry);
    SentElsewhere(s, dev, AppendReject(NotAuthorized), d);
    hide VerifyChain, RosterOf, Handle, SendTo, SentTo, DecodesToAdd, Appendable, Appended, Announced;
  }

  lemma PlanAddressesOnce(p: Primitives, me: Identity, wid: Hash32, log: seq<Bytes>, target: DeviceId, draw: Draw,
                          plan: Plan)
    requires Attempted(p, me, wid, log, target, draw, plan)
    ensures Distinct(Recipients(plan.updates))
  {
    hide VerifyChain, PlanRevocation, Ascending, Without, Recipients;
    PlanAddressees(p, me, wid, log, target, draw);
    var v := VerifyChain(p, log, 0).value;
    var ids := v.members.Keys - if FullyAccepted(p, log, 0) && me.deviceId in v.members then {target} else {};
    AscendingDistinct(ids);
    WithoutDistinct(Ascending(ids), me.deviceId);
  }

  /** When the device to be removed is handed the new key, whatever log the server has: exactly when the
      entries do not count over the revoker's log and the server still has the revoker in its roster.
      Whether either entry lands plays no part. The wrap it is handed, it can open. */
  lemma RemovedDeviceIsHandedTheKey(p: Primitives, me: Identity, wid: Hash32, log: seq<Bytes>, target: Identity,
                                    draw: Draw, plan: Plan, s: State)
    requires Attempted(p, me, wid, log, target.deviceId, draw, plan)
    ensures var v := VerifyChain(p, log, 0).value;
            var counts := FullyAccepted(p, log, 0) && me.deviceId in v.members;
            var t := Served(p, s, me.deviceId, Messages(plan));
            if !counts && me.deviceId in RosterOf(p, s.log)
            then exists u :: u in plan.updates && u.to == target.deviceId && HandedOut(s, t, u) &&
                             (BlobCodecLaw(p) && OwnKem(p, log, target) ==>
                                OpenRotation(p, target, wid, u.wrap) == Some(plan.blob))
            else Untouched(AfterEntries(p, s, me.deviceId, plan), t, target.deviceId)
    ensures plan.blob.groupKey == draw.key
  {
    PlanAddressees(p, me, wid, log, target.deviceId, draw);
    PlanAddressesOnce(p, me, wid, log, target.deviceId, draw, plan);
    RevokerKeepsStanding(p, me, wid, log, target.deviceId, draw, plan, s);
    PlanBlobKey(p, me, wid, log, target.deviceId, draw, plan);
    hide VerifyChain, PlanRevocation, RosterOf, AfterEntries, Served, Messages, HandedOut, Recipients, OpenRotation,
      Untouched, Ascending, Without, Distinct, Attempted, OwnKem;
    WrapGoesOutIff(p, s, me.deviceId, plan, target.deviceId);
    if target.deviceId in Recipients(plan.updates) && me.deviceId in RosterOf(p, s.log) {
      var t := Served(p, s, me.deviceId, Messages(plan));
      var u :| u in plan.updates && u.to == target.deviceId && HandedOut(s, t, u);
      if BlobCodecLaw(p) && OwnKem(p, log, target) {
        AttemptedWrapOpens(p, me, wid, log, target, draw, plan, u);
      }
    }
  }

  /** The sealing key that the log files for a device is that device's own. */
  ghost predicate OwnKem(p: Primitives, log: seq<Bytes>, id: Identity)
    requires VerifyChain(p, log, 0).Ok?
  {
    var members := VerifyChain(p, log, 0).value.members;
    id.deviceId in members ==> KemPair(p, id.kemSecret, members[id.deviceId].kemPk)
  }

  lemma PlanBlobKey(p: Primitives, me: Identity, wid: Hash32, log: seq<Bytes>, target: DeviceId, draw: Draw, plan: Plan)
    requires Attempted(p, me, wid, log, target, draw, plan)
    ensures plan.blob.groupKey == draw.key
  {
    hide VerifyChain, MemberSetHash, SealAll, Ascending, RemoveFor, EpochFor;
  }

  lemma AttemptedWrapOpens(p: Primitives, me: Identity, wid: Hash32, log: seq<Bytes>, target: Identity, draw: Draw,
                           plan: Plan, u: KeyUpdate)
    requires Attempted(p, me, wid, log, target.deviceId, draw, plan) && BlobCodecLaw(p)
    requires !(FullyAccepted(p, log, 0) && me.deviceId in VerifyChain(p, log, 0).value.members)
    requires OwnKem(p, log, target)
    requires u in plan.updates && u.to == target.deviceId
    ensures OpenRotation(p, target, wid, u.wrap) == Some(plan.blob)
  {
    hide VerifyChain, BuildRemove, EpochFor, MemberSetHash, SealAll, Ascending;
    RemoveAccepted(p, log, me, target.deviceId, draw.removedAt, 0);
    var v2 := VerifyChain(p, log + [plan.removeBytes], 0).value;
    SealAllCovers(p, Ascending(v2.members.Keys), v2.members, me.deviceId, wid, plan.blob, draw);
    hide PlanRevocation, PlanRotation, BlobFor;
    WrapOpens(p, target, v2.members[u.to].kemPk, wid, plan.blob, draw.seal(u.to), u.wrap);
  }

  lemma WrapOpens(p: Primitives, id: Identity, kemPk: Hash32, wid: Hash32, blob: RotationBlob, rnd: Bytes, wrap: Bytes)
    requires BlobCodecLaw(p) && KemPair(p, id.kemSecret, kemPk)
    requires SealRotation(p, kemPk, wid, id.deviceId, blob, rnd) == Some(wrap)
    ensures OpenRotation(p, id, wid, wrap) == Some(blob)
  {
    var aad, pt := RotationAad(wid, id.deviceId), p.encodeBlob(blob);
    assert p.kemSeal(kemPk, aad, pt, rnd) == Some(wrap);
    assert p.kemOpen(id.kemSecret, aad, wrap) == Some(pt);
    assert p.decodeBlob(p.encodeBlob(blob)) == Some(blob);
  }

  ghost predicate SealingNeverFails(p: Primitives) {
    forall pk: Hash32, aad: Bytes, m: Bytes, r: Bytes :: p.kemSeal(pk, aad, m, r).Some?
  }

  /** Such a revoker: its log ends in an entry that does not decode. The command succeeds, the target
      leaves the server's roster, the epoch stays, and the target is among those sealed to. */
  lemma UnreadTailSplitsRevocation(p: Primitives, me: Identity, wid: Hash32, log: seq<Bytes>, target: DeviceId,
                                   draw: Draw, junk: Bytes, s: State)
    requires CanRevoke(p, me, log, target) && p.decodeEntry(junk).None? && SealingNeverFails(p)
    requires s.log == log
    ensures PlanRevocation(p, me, wid, log + [junk], target, draw).Ok?
    ensures var plan := PlanRevocation(p, me, wid, log + [junk], target, draw).value;
            var t := Served(p, s, me.deviceId, Messages(plan));
            && Attempted(p, me, wid, log + [junk], target, draw, plan)
            && t.log == log + [plan.removeBytes]
            && RosterOf(p, t.log) == VerifyChain(p, log, 0).value.members.Keys - {target}
            && EpochOf(p, t.log) == VerifyChain(p, log, 0).value.epoch
            && target in Recipients(plan.updates)
  {
    hide VerifyChain, PlanRevocation, RosterOf, EpochOf, Served, Messages, Recipients;
    UnreadTailPlans(p, me, wid, log, target, draw, junk);
    var plan := PlanRevocation(p, me, wid, log + [junk], target, draw).value;
    JunkStops(p, log, junk, []);
    assert (log + [junk])[..|log|] == log;
    AcceptedPartIs(p, log + [junk], log);
    AttemptAtServer(p, me, wid, log + [junk], target, draw, plan, s);
    PlanAddressees(p, me, wid, log + [junk], target, draw);
  }

  lemma AcceptedPartIs(p: Primitives, log: seq<Bytes>, part: seq<Bytes>)
    requires part <= log && FullyAccepted(p, part, 0) && VerifyChain(p, log, 0) == VerifyChain(p, part, 0)
    ensures AcceptedPart(p, log) == part
  {
    hide VerifyChain;
  }

  lemma UnreadTailPlans(p: Primitives, me: Identity, wid: Hash32, log: seq<Bytes>, target: DeviceId, draw: Draw,
                        junk: Bytes)
    requires CanRevoke(p, me, log, target) && p.decodeEntry(junk).None? && SealingNeverFails(p)
    ensures PlanRevocation(p, me, wid, log + [junk], target, draw).Ok?
  {
    hide VerifyChain, MemberSetHash, SealAll, RemoveFor, EpochFor, BlobFor, Ascending;
    var v := VerifyChain(p, log, 0).value;
    var removeBytes := RemoveFor(p, me, v, target, draw);
    JunkStops(p, log, junk, [removeBytes]);
    var msh := MemberSetHash(p, v.members);
    var blob := BlobFor(p, me, v.epoch + 1, target, EpochFor(p, me, v, v.epoch + 1, target, msh, draw), msh, draw);
    SealAllSucceedsIff(p, Ascending(v.members.Keys), v.members, me.deviceId, wid, blob, draw);
    forall d | d in v.members ensures SealFor(p, v.members, wid, blob, draw, d).Some? {
    }
  }

  // ----- A server whose log has moved on -----

  lemma RemoveFitsOnly(p: Primitives, me: Identity, wid: Hash32, log: seq<Bytes>, target: DeviceId, draw: Draw,
                       plan: Plan, other: seq<Bytes>)
    requires Planned(p, me, wid, log, target, draw, plan)
    requires FullyAccepted(p, other + [plan.removeBytes], 0)
    ensures other == log || Collision(p, other, log)
  {
    hide VerifyChain, MemberSetHash, SealAll, Ascending, EpochFor, BlobFor;
    if other == [] {
      var v := VerifyChain(p, log, 0).value;
      var e := BuildRemove(p, me, v.headHash, v.headSeq + 1, target, draw.removedAt);
      assert p.decodeEntry(p.encodeEntry(e)) == Some(e);
      assert other + [plan.removeBytes] == [plan.removeBytes];
      LoneEntryOpens(p, plan.removeBytes);
    } else {
      AdoptedLogIsTheSnapshot(p, me, wid, log, target, draw, other);
    }
  }

  lemma LoneEntryOpens(p: Primitives, b: Bytes)
    requires VerifyChain(p, [b], 0).Ok?
    ensures p.decodeEntry(b).Some? && p.decodeEntry(b).value.Genesis?
  {
  }

  lemma EpochFitsOnly(p: Primitives, me: Identity, wid: Hash32, log: seq<Bytes>, target: DeviceId, draw: Draw,
                      plan: Plan, other: seq<Bytes>)
    requires Planned(p, me, wid, log, target, draw, plan)
    requires FullyAccepted(p, other + [plan.epochBytes], 0)
    ensures other == log + [plan.removeBytes] || Collision(p, other, log + [plan.removeBytes])
  {
    hide VerifyChain, MemberSetHash, SealAll, Ascending;
    RevocationLog(p, me, wid, log, target, draw);
    var v := VerifyChain(p, log, 0).value;
    var log1 := log + [plan.removeBytes];
    var v2 := VerifyChain(p, log1, 0).value;
    var e := BuildEpoch(p, me, v2.headHash, v2.headSeq + 1, v.epoch + 1, Revoke(target), MemberSetHash(p, v2.members),
                        ZERO_HASH, draw.rotatedAt);
    assert p.decodeEntry(p.encodeEntry(e)) == Some(e);
    hide PlanRevocation;
    if other == [] {
      assert other + [plan.epochBytes] == [plan.epochBytes];
      LoneEntryOpens(p, plan.epochBytes);
    } else {
      FullyAcceptedIsChain(p, other + [plan.epochBytes], 0);
      FullyAcceptedIsChain(p, other, 0);
      ChainSnoc(p, other, plan.epochBytes, 0);
      HeadHashCommitsToLog(p, other, 0, log1, 0);
    }
  }

  lemma CollisionGrows(p: Primitives, a: seq<Bytes>, b: seq<Bytes>, c: seq<Bytes>)
    requires Collision(p, a, b) && forall x | x in b :: x in c
    ensures Collision(p, a, c)
  {
    var x, y :| x in a && y in b && x != y && p.blake3(x) == p.blake3(y);
    assert y in c;
  }

  lemma KeysKeepLog(p: Primitives, s: State, dev: DeviceId, us: seq<KeyUpdate>)
    ensures Handle(p, s, dev, PutKeyUpdate(us)).0.log == s.log
  {
    hide Handle;
    RelayRuns.MessageAndLog(p, s, dev, PutKeyUpdate(us));
  }

  /** Whatever log the server has: the revocation takes effect there exactly when that log is the one
      it was built on, or that log with the Remove already in it; any other log stays as it is, or an
      entry of it collides with one of the revoker's. Whether or not it takes effect, a revoker in the
      server's roster has all its wraps handed out, each in the place of one that was waiting; from
      any other revoker nobody hears anything. */
  lemma RevocationNeedsSameLog(p: Primitives, me: Identity, wid: Hash32, log: seq<Bytes>, target: DeviceId, draw: Draw,
                               plan: Plan, s: State)
    requires Planned(p, me, wid, log, target, draw, plan)
    ensures var t := Served(p, s, me.deviceId, Messages(plan));
            || t.log == (if s.log == log || s.log == log + [plan.removeBytes] then Rotated(log, plan) else s.log)
            || Collision(p, s.log, Rotated(log, plan))
    ensures var t := Served(p, s, me.deviceId, Messages(plan));
            if me.deviceId in RosterOf(p, s.log)
            then forall u | u in plan.updates :: HandedOut(s, t, u)
            else t.log == s.log && forall d: DeviceId | d != me.deviceId :: Untouched(s, t, d)
  {
    hide VerifyChain, PlanRevocation, RosterOf, Handle, HandedOut, AfterEntries, Served, Messages, Recipients,
      Untouched, Distinct;
    if !Collision(p, s.log, Rotated(log, plan)) {
      EntriesNeedSameLog(p, me, wid, log, target, draw, plan, s);
      LogAfterEntries(p, s, me.deviceId, plan);
    }
    if me.deviceId in RosterOf(p, s.log) {
      RevokerKeepsStanding(p, me, wid, log, target, draw, plan, s);
      PlanRecipients(p, me, wid, log, target, draw, plan);
      forall u | u in plan.updates ensures HandedOut(s, Served(p, s, me.deviceId, Messages(plan)), u) {
        WrapsGoOut(p, s, me.deviceId, plan, u);
      }
    } else {
      OutsiderReachesNobody(p, me, wid, log, target, draw, plan, s, target);
      forall d: DeviceId | d != me.deviceId
        ensures Untouched(s, Served(p, s, me.deviceId, Messages(plan)), d)
      {
        OutsiderReachesNobody(p, me, wid, log, target, draw, plan, s, d);
      }
    }
  }

  lemma EntriesNeedSameLog(p: Primitives, me: Identity, wid: Hash32, log: seq<Bytes>, target: DeviceId, draw: Draw,
                           plan: Plan, s: State)
    requires Planned(p, me, wid, log, target, draw, plan) && !Collision(p, s.log, Rotated(log, plan))
    ensures var t := AfterEntries(p, s, me.deviceId, plan);
            t.log == if s.log == log || s.log == log + [plan.removeBytes] then Rotated(log, plan) else s.log
  {
    hide VerifyChain, PlanRevocation, RosterOf, Handle, Recipients, Without, Ascending;
    RevocationLog(p, me, wid, log, target, draw);
    var log1 := log + [plan.removeBytes];
    var s1 := Handle(p, s, me.deviceId, C2s.AppendEntry(plan.removeBytes)).0;
    if Collision(p, s.log, log) { CollisionGrows(p, s.log, log, Rotated(log, plan)); }
    if Collision(p, s.log, log1) { CollisionGrows(p, s.log, log1, Rotated(log, plan)); }
    if s.log == log {
      EntriesAreTold(p, me, wid, log, target, draw, plan, s, target);
    } else {
      if FullyAccepted(p, s.log + [plan.removeBytes], 0) { RemoveFitsOnly(p, me, wid, log, target, draw, plan, s.log); }
      RefusedKeepsLog(p, s, me.deviceId, plan.removeBytes);
      if s.log == log1 {
        RelayRuns.RosterOfVerified(p, log1);
        EntryIsTold(p, s1, me.deviceId, plan.epochBytes, target);
      } else {
        if FullyAccepted(p, s.log + [plan.epochBytes], 0) { EpochFitsOnly(p, me, wid, log, target, draw, plan, s.log); }
        RefusedKeepsLog(p, s1, me.deviceId, plan.epochBytes);
      }
    }
  }

  /** Two different pre-images of the roster digest with one hash. */
  ghost predicate RostersCollide(p: Primitives, m1: Roster, m2: Roster) {
    Preimage(m1) != Preimage(m2) && p.blake3(Preimage(m1)) == p.blake3(Preimage(m2))
  }

  /** Over which logs a wrap of a plan is taken: exactly those of the next epoch whose roster is the old
      one without the target, or two roster pre-images collide. What the entries of the log are plays
      no part, and so neither does the Epoch entry that the wrap names. */
  lemma WrapTakenIff(p: Primitives, me: Identity, wid: Hash32, log: seq<Bytes>, target: DeviceId, draw: Draw,
                     plan: Plan, peer: Identity, u: KeyUpdate, other: seq<Bytes>)
    requires Planned(p, me, wid, log, target, draw, plan) && BlobCodecLaw(p)
    requires u in plan.updates && u.to == peer.deviceId && OwnKem(p, log, peer)
    requires VerifyChain(p, other, 0).Ok?
    ensures var v, w := VerifyChain(p, log, 0).value, VerifyChain(p, other, 0).value;
            var rest := v.members - {target};
            var key := AdoptedKey(p, peer, wid, other, u.wrap);
            var fits := w.epoch == v.epoch + 1 && w.members == rest;
            && (fits ==> key.Some?)
            && (key.Some? ==> key == Some(GroupKey(v.epoch + 1, draw.key)) && w.epoch == v.epoch + 1)
            && (ShortKeys(w.members) && ShortKeys(rest) ==> (key.Some? <==> fits) || RostersCollide(p, w.members, rest))
  {
    PlannedWrap(p, me, wid, log, target, draw, plan, peer, u);
    VerifiedIsWellKeyed(p, log);
    VerifiedIsWellKeyed(p, other);
    hide VerifyChain, PlanRevocation, OpenRotation, MemberSetHash, RotationSignView, Preimage, RosterBound;
    var v, w := VerifyChain(p, log, 0).value, VerifyChain(p, other, 0).value;
    var rest := v.members - {target};
    var key := AdoptedKey(p, peer, wid, other, u.wrap);
    if key.Some? && ShortKeys(w.members) && ShortKeys(rest) {
      RosterCommitment(p, w.members, rest);
    }
  }

  lemma VerifiedIsWellKeyed(p: Primitives, log: seq<Bytes>)
    requires VerifyChain(p, log, 0).Ok?
    ensures WellKeyed(VerifyChain(p, log, 0).value.members)
  {
    AcceptedPrefixInvariant(p, log, 0);
    hide VerifyChain, LinkedAt, GrantsDistinct, EpochCount;
  }

  /** Two members remove the same device at once. The rotation of the second is refused, but the wraps
      it hands out are taken over the log of the first, although the Epoch entry they name is not in it:
      that name is signed and never compared. */
  lemma RivalKeyIsTaken(p: Primitives, me: Identity, you: Identity, wid: Hash32, log: seq<Bytes>, target: DeviceId,
                        mine: Draw, plan: Plan, yours: Draw, rival: Plan, peer: Identity, u: KeyUpdate)
    requires Planned(p, me, wid, log, target, mine, plan) && Planned(p, you, wid, log, target, yours, rival)
    requires me.deviceId != you.deviceId && BlobCodecLaw(p)
    requires u in plan.updates && u.to == peer.deviceId && OwnKem(p, log, peer)
    ensures plan.epochBytes != rival.epochBytes && plan.blob.epochEntryHash == p.blake3(plan.epochBytes)
    ensures AdoptedKey(p, peer, wid, Rotated(log, rival), u.wrap) ==
            Some(GroupKey(VerifyChain(p, log, 0).value.epoch + 1, mine.key))
  {
    PlannedWrap(p, me, wid, log, target, mine, plan, peer, u);
    hide VerifyChain, PlanRevocation, MemberSetHash, Recipients, OpenRotation, AdoptedKey;
    RevocationLog(p, you, wid, log, target, yours);
    RivalEpochsDiffer(p, me, you, wid, log, target, mine, plan, yours, rival);
    WrapTakenIff(p, me, wid, log, target, mine, plan, peer, u, Rotated(log, rival));
  }

  lemma RivalEpochsDiffer(p: Primitives, me: Identity, you: Identity, wid: Hash32, log: seq<Bytes>, target: DeviceId,
                          mine: Draw, plan: Plan, yours: Draw, rival: Plan)
    requires Planned(p, me, wid, log, target, mine, plan) && Planned(p, you, wid, log, target, yours, rival)
    requires me.deviceId != you.deviceId
    ensures plan.epochBytes != rival.epochBytes
  {
    AttemptedEntries(p, me, wid, log, target, mine, plan);
    AttemptedEntries(p, you, wid, log, target, yours, rival);
    hide VerifyChain, PlanRevocation;
  }

  /** A wrap of a plan opens to its blob, which is signed over the epoch and roster it brings about. */
  lemma PlannedWrap(p: Primitives, me: Identity, wid: Hash32, log: seq<Bytes>, target: DeviceId, draw: Draw, plan: Plan,
                    peer: Identity, u: KeyUpdate)
    requires Planned(p, me, wid, log, target, draw, plan) && BlobCodecLaw(p)
    requires u in plan.updates && u.to == peer.deviceId && OwnKem(p, log, peer)
    ensures var v := VerifyChain(p, log, 0).value;
            && OpenRotation(p, peer, wid, u.wrap) == Some(plan.blob)
            && VerifyWithSpki(p, me.spkiDer, DOMAIN_ROTWRAP, RotationSignView(p, plan.blob), plan.blob.sig)
            && plan.blob.from == me.deviceId && plan.blob.newEpoch == v.epoch + 1 && plan.blob.groupKey == draw.key
            && plan.blob.memberSetHash == MemberSetHash(p, v.members - {target})
            && plan.blob.epochEntryHash == p.blake3(plan.epochBytes)
  {
    hide VerifyChain, RemoveFor, EpochFor, MemberSetHash, SealAll, Ascending;
    RevocationSteps(p, me, log, target, draw);
    var v := VerifyChain(p, log, 0).value;
    var v2 := VerifyChain(p, log + [plan.removeBytes], 0).value;
    var msh := MemberSetHash(p, v.members - {target});
    SignedBlobVerifies(p, me, v.epoch + 1, draw.key, Revoke(target), p.blake3(plan.epochBytes), msh);
    SealAllCovers(p, Ascending(v2.members.Keys), v2.members, me.deviceId, wid, plan.blob, draw);
    hide BuildSignedRotation, RotationSignView;
    WrapOpens(p, peer, v2.members[u.to].kemPk, wid, plan.blob, draw.seal(u.to), u.wrap);
  }

  // ----- A log that grew while the revoker was at work -----

  /** An entry that was appended at the server right behind a revocation, and that the revoker hears of
      before it takes the revocation over. The length of its log has changed, so it does not; the
      rotation has happened all the same. The new entry does not fit behind the log the revoker is left
      with, which is never accepted to its end again. */
  lemma LogGrewMeanwhile(p: Primitives, me: Identity, wid: Hash32, log: seq<Bytes>, target: DeviceId, draw: Draw,
                         plan: Plan, y: Bytes, more: seq<Bytes>)
    requires Planned(p, me, wid, log, target, draw, plan)
    requires FullyAccepted(p, Rotated(log, plan) + [y], 0)
    ensures |log + [y]| != |log|
    ensures !FullyAccepted(p, log + [y] + more, 0)
    ensures VerifyChain(p, log + [y] + more, 0) == VerifyChain(p, log, 0)
  {
    hide VerifyChain, PlanRevocation;
    var full := Rotated(log, plan) + [y];
    FullyAcceptedIsChain(p, full, 0);
    ChainLinks(p, full, 0);
    assert LinkedAt(p, full, |log| + 2);
    HeadSeqIsLast(p, log);
    DoesNotFit(p, log, y);
    hide Chain;
    AppendIsOneStep(p, log, y, 0);
    RejectedTailIgnored(p, log + [y], more, 0);
    LongestValidPrefix(p, log + [y], 0);
  }

  /** The next removal such a revoker makes goes astray: at the server that took the first rotation and
      the entry behind it, the second device to be removed is handed the key that should shut it out. */
  lemma NextRemovalGoesAstray(p: Primitives, me: Identity, wid: Hash32, log: seq<Bytes>, target: DeviceId, draw: Draw,
                              plan: Plan, y: Bytes, next: Identity, draw2: Draw, plan2: Plan, s: State)
    requires Planned(p, me, wid, log, target, draw, plan)
    requires FullyAccepted(p, Rotated(log, plan) + [y], 0) && s.log == Rotated(log, plan) + [y]
    requires Attempted(p, me, wid, log + [y], next.deviceId, draw2, plan2)
    requires me.deviceId in RosterOf(p, s.log)
    ensures exists u :: u in plan2.updates && u.to == next.deviceId &&
                        HandedOut(s, Served(p, s, me.deviceId, Messages(plan2)), u)
  {
    hide VerifyChain, PlanRevocation, RosterOf, Served, Messages, HandedOut, AfterEntries, OpenRotation;
    LogGrewMeanwhile(p, me, wid, log, target, draw, plan, y, []);
    assert log + [y] + [] == log + [y];
    RemovedDeviceIsHandedTheKey(p, me, wid, log + [y], next, draw2, plan2, s);
  }

  // ----- A member that follows -----

  /** What a member keeps of the workspace: the log and the group key in use. */
  datatype Local = Local(log: seq<Bytes>, gk: Option<GroupKey>)

  ghost function OnMessage(p: Primitives, id: Identity, wid: Hash32, c: Local, msg: S2c): Local {
    match msg
    case LogAppended(entry, _) => c.(log := c.log + [entry])
    case KeyUpdatePush(wrapped) =>
      var key := AdoptedKey(p, id, wid, c.log, wrapped);
      if key.Some? then c.(gk := key) else c
    case _ => c
  }

  ghost function Follow(p: Primitives, id: Identity, wid: Hash32, c: Local, msgs: seq<S2c>): Local
    decreases |msgs|
  {
    if msgs == [] then c else OnMessage(p, id, wid, Follow(p, id, wid, c, msgs[..|msgs| - 1]), msgs[|msgs| - 1])
  }

  lemma FollowSnoc(p: Primitives, id: Identity, wid: Hash32, c: Local, msgs: seq<S2c>, m: S2c)
    ensures Follow(p, id, wid, c, msgs + [m]) == OnMessage(p, id, wid, Follow(p, id, wid, c, msgs), m)
  {
    hide OnMessage;
    assert (msgs + [m])[..|msgs|] == msgs;
  }

  lemma FollowTold(p: Primitives, id: Identity, wid: Hash32, c: Local, plan: Plan, n: nat)
    ensures Follow(p, id, wid, c, Told(plan, n)) == Local(Rotated(c.log, plan), c.gk)
  {
    var first := LogAppended(plan.removeBytes, n);
    FollowSnoc(p, id, wid, c, [], first);
    assert [] + [first] == [first];
    FollowSnoc(p, id, wid, c, [first], LogAppended(plan.epochBytes, n + 1));
    assert [first] + [LogAppended(plan.epochBytes, n + 1)] == Told(plan, n);
    hide AdoptedKey;
  }

  /** What the server sends a remaining member with a session is enough: it ends with the new log and
      the new key. The order is needed: a wrap that came before the entries would be thrown away. */
  lemma OnlineMemberFollows(p: Primitives, me: Identity, wid: Hash32, log: seq<Bytes>, target: DeviceId, draw: Draw,
                            plan: Plan, peer: Identity, u: KeyUpdate, gk: Option<GroupKey>)
    requires Planned(p, me, wid, log, target, draw, plan) && BlobCodecLaw(p)
    requires u in plan.updates && u.to == peer.deviceId && OwnKem(p, log, peer)
    ensures Follow(p, peer, wid, Local(log, gk), Told(plan, |log|) + [KeyUpdatePush(u.wrap)]) ==
            Local(Rotated(log, plan), Some(GroupKey(VerifyChain(p, log, 0).value.epoch + 1, draw.key)))
    ensures Follow(p, peer, wid, Local(log, gk), [KeyUpdatePush(u.wrap)]) == Local(log, gk)
  {
    hide VerifyChain, PlanRevocation, AdoptedKey, Follow;
    RemainingMemberAdopts(p, me, wid, log, target, draw, peer, u);
    FollowTold(p, peer, wid, Local(log, gk), plan, |log|);
    FollowSnoc(p, peer, wid, Local(log, gk), Told(plan, |log|), KeyUpdatePush(u.wrap));
    FollowSnoc(p, peer, wid, Local(log, gk), [], KeyUpdatePush(u.wrap));
    FollowNothing(p, peer, wid, Local(log, gk));
    assert [] + [KeyUpdatePush(u.wrap)] == [KeyUpdatePush(u.wrap)];
    hide Told;
  }

  lemma FollowNothing(p: Primitives, id: Identity, wid: Hash32, c: Local)
    ensures Follow(p, id, wid, c, []) == c
  {
  }

  // ----- A member that was away -----

  /** A device that names its head is sent what it is missing. The application puts that tail in the
      place of its log, so the log it then holds verifies only when it had nothing, or missed nothing,
      or the server took its head for nothing; it is the whole log in just these cases. */
  lemma WelcomeCatchesUpIff(p: Primitives, full: seq<Bytes>, k: nat)
    requires FullyAccepted(p, full, 0) && k <= |full|
    ensures var (headSeq, headHash) := LogHead(p, full[..k]);
            var tail := LogTail(full, headSeq, headHash);
            var kept := WelcomeLog(full[..k], tail);
            var whole := k == 0 || k == |full| || (k == 1 && p.blake3(full[0]) == ZERO_HASH);
            && (VerifyChain(p, kept, 0).Ok? <==> whole)
            && (whole ==> kept == full)
            && (!whole ==> full[..k] + tail == full && tail == full[k..])
  {
    hide VerifyChain;
    var mine := full[..k];
    FullyAcceptedIsChain(p, full, 0);
    ChainLinks(p, full, 0);
    hide Chain;
    assert full != [] by { NoEmptyLog(p); }
    if k == |full| {
      assert mine == full;
    } else if k > 0 {
      assert LinkedAt(p, full, k);
      var rest := full[k..];
      if VerifyChain(p, rest, 0).Ok? { FirstEntryOpens(p, rest); }
      assert mine + rest == full;
    }
  }

  lemma NoEmptyLog(p: Primitives)
    ensures VerifyChain(p, [], 0).Err?
  {
  }

  lemma FirstEntryOpens(p: Primitives, log: seq<Bytes>)
    requires VerifyChain(p, log, 0).Ok?
    ensures log != [] && p.decodeEntry(log[0]).Some? && p.decodeEntry(log[0]).value.Genesis?
  {
  }

  predicate Compatible(lo: nat, hi: nat) {
    hi >= 2 && lo <= 3
  }

  /** A member's hello is answered once, with all it is missing; a waiting wrap is handed over and
      kept no longer. */
  lemma HelloIsAnswered(p: Primitives, s: State, dev: DeviceId, lo: nat, hi: nat, headSeq: nat, headHash: Hash32)
    requires dev in RosterOf(p, s.log) && dev in s.sessions && Compatible(lo, hi)
    ensures var t := Handle(p, s, dev, Hello(lo, hi, headSeq, headHash)).0;
            && t == s.(mailbox := s.mailbox - {dev}, sent := t.sent)
            && SentTo(t.sent, dev) == SentTo(s.sent, dev) +
                 [Welcome(3, s.epoch, LogTail(s.log, headSeq, headHash), Lookup(s.mailbox, dev),
                          PresenceList(s, Ascending(RosterOf(p, s.log))), s.headCache)]
  {
    hide RosterOf, LogTail, PresenceList, Ascending, Broadcast, SendTo, SentTo;
    var roster := RosterOf(p, s.log);
    var w := Welcome(PROTO_MAX, s.epoch, LogTail(s.log, headSeq, headHash), Lookup(s.mailbox, dev),
                     PresenceList(s, Ascending(roster)), s.headCache);
    var s0 := s.(mailbox := s.mailbox - {dev});
    var s1 := SendTo(s0, dev, w);
    SentHere(s0, dev, w);
    SentByBroadcast(s1, roster, dev, Online(s1, dev), dev);
    assert SentTo(s1.sent, dev) + [] == SentTo(s1.sent, dev);
    hide Online;
  }

  lemma ConnectIsQuiet(p: Primitives, s: State, dev: DeviceId, addr: string)
    ensures var t := OnConnect(p, s, dev, addr);
            && t.sessions == s.sessions + {dev} && t.mailbox == s.mailbox && t.log == s.log && t.epoch == s.epoch
            && t.headCache == s.headCache && SentTo(t.sent, dev) == SentTo(s.sent, dev)
  {
    hide RosterOf, Broadcast, SentTo;
    var s1 := s.(sessions := s.sessions + {dev}, addrs := s.addrs[dev := addr]);
    SentByBroadcast(s1, RosterOf(p, s.log), dev, Online(s1, dev), dev);
    assert SentTo(s1.sent, dev) + [] == SentTo(s1.sent, dev);
  }

  /** A remaining member that was away during a revocation, comes back and says hello, is sent exactly
      one message: the greeting of the new epoch, with the entries it missed, its wrap, and none of the
      signals of the old epoch. */
  lemma AbsentMemberIsGreeted(p: Primitives, me: Identity, wid: Hash32, log: seq<Bytes>, target: DeviceId, draw: Draw,
                              plan: Plan, s: State, u: KeyUpdate, addr: string, lo: nat, hi: nat)
    requires Planned(p, me, wid, log, target, draw, plan) && s.log == log
    requires u in plan.updates && u.to !in s.sessions && Compatible(lo, hi)
    ensures var (headSeq, headHash) := LogHead(p, log);
            var back := OnConnect(p, Served(p, s, me.deviceId, Messages(plan)), u.to, addr);
            var t := Handle(p, back, u.to, Hello(lo, hi, headSeq, headHash)).0;
            var roster := VerifyChain(p, log, 0).value.members.Keys - {target};
            && u.to !in t.mailbox
            && SentTo(t.sent, u.to) == SentTo(s.sent, u.to) +
                 [Welcome(3, VerifyChain(p, log, 0).value.epoch + 1,
                          LogTail(Rotated(log, plan), headSeq, headHash),
                          Some(u.wrap), PresenceList(back, Ascending(roster)), [])]
  {
    hide VerifyChain, PlanRevocation, RosterOf, Handle, SentTo, OnConnect, LogTail, Served, Recipients, PresenceList,
      Ascending;
    PlanRecipients(p, me, wid, log, target, draw, plan);
    AddresseesCovered(plan.updates, u.to);
    RevocationAtServer(p, me, wid, log, target, draw, plan, s, u.to);
    var t := Served(p, s, me.deviceId, Messages(plan));
    ConnectIsQuiet(p, t, u.to, addr);
    var (headSeq, headHash) := LogHead(p, log);
    HelloIsAnswered(p, OnConnect(p, t, u.to, addr), u.to, lo, hi, headSeq, headHash);
    hide Messages, Rotated, Lookup, LogHead;
  }

  /** A remaining member that missed a revocation and says hello again: the wrap waiting for it yields
      the new key over its log with the tail added, but not over the log the application keeps. */
  lemma ReturningMember(p: Primitives, me: Identity, wid: Hash32, log: seq<Bytes>, target: DeviceId, draw: Draw,
                        plan: Plan, peer: Identity, u: KeyUpdate)
    requires Planned(p, me, wid, log, target, draw, plan) && BlobCodecLaw(p)
    requires u in plan.updates && u.to == peer.deviceId && OwnKem(p, log, peer)
    ensures var (headSeq, headHash) := LogHead(p, log);
            var tail := LogTail(Rotated(log, plan), headSeq, headHash);
            var key := Some(GroupKey(VerifyChain(p, log, 0).value.epoch + 1, draw.key));
            var restarts := |log| == 1 && p.blake3(log[0]) == ZERO_HASH;
            && (!restarts ==> AdoptedKey(p, peer, wid, log + tail, u.wrap) == key)
            && AdoptedKey(p, peer, wid, WelcomeLog(log, tail), u.wrap) == if restarts then key else None
  {
    hide VerifyChain, PlanRevocation;
    RevocationLog(p, me, wid, log, target, draw);
    RemainingMemberAdopts(p, me, wid, log, target, draw, peer, u);
    assert Rotated(log, plan)[..|log|] == log;
    assert log != [] by { NoEmptyLog(p); }
    WelcomeCatchesUpIff(p, Rotated(log, plan), |log|);
    hide LogTail, OpenRotation, VerifyRotation;
  }

  // ----- A member that joins -----

  /** The key a member hands a newcomer is taken by the newcomer, over the log that admitted it,
      exactly when it is the key of that log's epoch. */
  lemma JoinerAdoptsIff(p: Primitives, id: Identity, gk: GroupKey, wid: Hash32, log: seq<Bytes>, entry: Bytes,
                        rnd: Bytes, joiner: Identity)
    requires BlobCodecLaw(p) && SoundIdentity(p, id)
    requires VerifyChain(p, log, 0).Ok? && Holds(VerifyChain(p, log, 0).value, id)
    requires DecodesToAdd(p, entry) && joiner.deviceId == p.sha256(p.decodeEntry(entry).value.subjectSpki)
    requires KemPair(p, joiner.kemSecret, p.decodeEntry(entry).value.subjectKemPk)
    requires JoinReply(p, id, Some(gk), Some(wid), log, entry, rnd).Some?
    ensures var u := JoinReply(p, id, Some(gk), Some(wid), log, entry, rnd).value;
            && u.to == joiner.deviceId != id.deviceId
            && AdoptedKey(p, joiner, wid, log, u.wrap) ==
               if gk.epoch == VerifyChain(p, log, 0).value.epoch then Some(gk) else None
  {
    hide VerifyChain, MemberSetHash;
    var v := VerifyChain(p, log, 0).value;
    var e := p.decodeEntry(entry).value;
    var msh := MemberSetHash(p, v.members);
    SignedBlobVerifies(p, id, gk.epoch, gk.key, Join, v.headHash, msh);
    var blob := BuildSignedRotation(p, id, gk.epoch, gk.key, Join, v.headHash, msh);
    var u := JoinReply(p, id, Some(gk), Some(wid), log, entry, rnd).value;
    var aad, pt := RotationAad(wid, u.to), p.encodeBlob(blob);
    assert p.kemSeal(e.subjectKemPk, aad, pt, rnd) == Some(u.wrap);
    assert p.kemOpen(joiner.kemSecret, aad, u.wrap) == Some(pt);
    assert p.decodeBlob(p.encodeBlob(blob)) == Some(blob);
  }
}
