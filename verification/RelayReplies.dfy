/** What the relay answers, message by message: who is sent what, what is kept, and when the connection is
    closed. */
module RelayReplies {
  import opened ByteStrings
  import opened Wrappers
  import opened LogEntries
  import opened WsLog
  import opened LogHistory
  import opened Wire
  import opened Relay
  import opened RelayRuns
  import opened Revocation

  /** Every online member but `dev` has been sent `msg`, and nobody else anything. */
  ghost predicate OthersTold(p: Primitives, s: State, t: State, dev: DeviceId, msg: S2c) {
    forall d: DeviceId ::
      SentTo(t.sent, d) ==
      SentTo(s.sent, d) + if d in s.sessions && d in RosterOf(p, s.log) && d != dev then [msg] else []
  }

  /** `dev`, if it has a session, has been sent `msg`, and nobody else anything. */
  ghost predicate Answered(s: State, t: State, dev: DeviceId, msg: S2c) {
    forall d: DeviceId ::
      SentTo(t.sent, d) == SentTo(s.sent, d) + if d == dev && d in s.sessions then [msg] else []
  }

  lemma SendAnswers(s: State, dev: DeviceId, msg: S2c)
    ensures Answered(s, SendTo(s, dev, msg), dev, msg)
  {
    SentOnce(s, dev, msg);
  }

  lemma BroadcastTells(s: State, roster: set<DeviceId>, except: DeviceId, msg: S2c)
    ensures forall d: DeviceId ::
              SentTo(Broadcast(s, roster, except, msg).sent, d) ==
              SentTo(s.sent, d) + if d in s.sessions && d in roster && d != except then [msg] else []
  {
  }

  // ----- Connections -----

  /** A member that connects is announced to the other members with its address and profile; an outsider
      is let in unannounced. */
  lemma ConnectIsTold(p: Primitives, s: State, dev: DeviceId, addr: string)
    ensures var t := Step(p, s, Connect(dev, addr));
            && t == s.(sessions := s.sessions + {dev}, addrs := s.addrs[dev := addr], sent := t.sent)
            && if dev in RosterOf(p, s.log)
               then OthersTold(p, s, t, dev, S2c.Presence(dev, true, Some(addr), Lookup(s.profiles, dev)))
               else t.sent == s.sent
  {
    var s1 := s.(sessions := s.sessions + {dev}, addrs := s.addrs[dev := addr]);
    BroadcastTells(s1, RosterOf(p, s.log), dev, Online(s1, dev));
    hide RosterOf, Broadcast, SentTo;
  }

  /** One that disconnects is reported offline to the members still connected. */
  lemma DisconnectIsTold(p: Primitives, s: State, dev: DeviceId)
    ensures var t := Step(p, s, Disconnect(dev));
            && t == s.(sessions := s.sessions - {dev}, addrs := s.addrs - {dev}, sent := t.sent)
            && OthersTold(p, s, t, dev, S2c.Presence(dev, false, None, None))
  {
    var s1 := s.(sessions := s.sessions - {dev}, addrs := s.addrs - {dev});
    BroadcastTells(s1, RosterOf(p, s.log), dev, S2c.Presence(dev, false, None, None));
    hide RosterOf, Broadcast, SentTo;
  }

  /** A restart reads the log back from its file and forgets everything else. */
  lemma RestartForgets(p: Primitives, s: State)
    ensures var t := Step(p, s, Restart);
            var log := if s.store.File? && s.store.saved.Some? then s.store.saved.value else [];
            var v := VerifyChain(p, log, 0);
            t == State(s.tokenHash, log != [], log, if v.Ok? then v.value.epoch else 0, [], {}, map[], map[], map[],
                       map[], map[], s.store, s.sent)
  {
    hide VerifyChain;
  }

  // ----- Members' messages -----

  /** A greeting brings the entries from the one after that named in the hello, or all of them to a device
      that has none; so a device that names the head of a beginning of the log, as such a device does, is
      brought up to date. */
  lemma GreetingTail(p: Primitives, log: seq<Bytes>, k: nat, headSeq: nat, headHash: Hash32)
    ensures LogTail(log, headSeq, headHash) ==
            if headSeq == 0 && (forall i | 0 <= i < 32 :: headHash[i] == 0) then log
            else if headSeq + 1 <= |log| then log[headSeq + 1..] else []
    ensures k <= |log| ==>
              var (n, h) := LogHead(p, log[..k]);
              LogTail(log, n, h) == (if k == 0 || (k == 1 && h == ZERO_HASH) then log else log[k..])
  {
    assert headHash == ZERO_HASH <==> forall i | 0 <= i < 32 :: headHash[i] == 0;
  }

  /** It tells of every member of the roster, in ascending order, whether it is online, its address and its
      profile. */
  lemma {:induction false} GreetingPresence(s: State, ids: seq<DeviceId>)
    ensures |PresenceList(s, ids)| == |ids|
    ensures forall i | 0 <= i < |ids| ::
              PresenceList(s, ids)[i] ==
              PresenceEntry(ids[i], ids[i] in s.sessions, Lookup(s.addrs, ids[i]), Lookup(s.profiles, ids[i]))
  {
    if ids != [] { GreetingPresence(s, ids[..|ids| - 1]); }
  }

  lemma MemberStep(p: Primitives, s: State, dev: DeviceId, msg: C2s)
    requires dev in RosterOf(p, s.log) && !GuestMay(msg)
    ensures Handle(p, s, dev, msg) == OnMemberMessage(s, RosterOf(p, s.log), dev, msg)
    ensures Step(p, s, Message(dev, msg)) == OnMemberMessage(s, RosterOf(p, s.log), dev, msg).0
  {
    hide RosterOf, OnMemberMessage;
  }

  /** A member's hello also tells the other members that it is online, with its address and profile. */
  lemma HelloIsTold(p: Primitives, s: State, dev: DeviceId, lo: nat, hi: nat, headSeq: nat, headHash: Hash32,
                    d: DeviceId)
    requires dev in RosterOf(p, s.log) && hi >= 2 && lo <= 3 && d != dev
    ensures var (t, open) := Handle(p, s, dev, Hello(lo, hi, headSeq, headHash));
            && open
            && SentTo(t.sent, d) == SentTo(s.sent, d) +
                 if d in s.sessions && d in RosterOf(p, s.log)
                 then [S2c.Presence(dev, true, Lookup(s.addrs, dev), Lookup(s.profiles, dev))] else []
  {
    HelloStep(p, s, dev, lo, hi, headSeq, headHash);
    HelloSent(s, RosterOf(p, s.log), dev, headSeq, headHash, d);
    hide RosterOf, Handle, OnHello, SentTo;
  }

  lemma HelloStep(p: Primitives, s: State, dev: DeviceId, lo: nat, hi: nat, headSeq: nat, headHash: Hash32)
    requires dev in RosterOf(p, s.log) && hi >= 2 && lo <= 3
    ensures Handle(p, s, dev, Hello(lo, hi, headSeq, headHash)) ==
            (OnHello(s, RosterOf(p, s.log), dev, headSeq, headHash), true)
  {
    MemberStep(p, s, dev, Hello(lo, hi, headSeq, headHash));
    hide RosterOf, Handle, Step, OnHello;
  }

  lemma HelloSent(s: State, roster: set<DeviceId>, dev: DeviceId, headSeq: nat, headHash: Hash32, d: DeviceId)
    requires dev in roster && d != dev
    ensures SentTo(OnHello(s, roster, dev, headSeq, headHash).sent, d) == SentTo(s.sent, d) +
              if d in s.sessions && d in roster
              then [S2c.Presence(dev, true, Lookup(s.addrs, dev), Lookup(s.profiles, dev))] else []
  {
    hide Broadcast, SendTo, SentTo, LogTail, PresenceList, Ascending;
    var s0 := s.(mailbox := s.mailbox - {dev});
    var w := Welcome(PROTO_MAX, s.epoch, LogTail(s.log, headSeq, headHash), Lookup(s.mailbox, dev),
                     PresenceList(s, Ascending(roster)), s.headCache);
    var s1 := SendTo(s0, dev, w);
    SentElsewhere(s0, dev, w, d);
    BroadcastTells(s1, roster, dev, Online(s1, dev));
  }

  /** A profile is kept, and told to the other members with the sender's address. */
  lemma ProfileIsTold(p: Primitives, s: State, dev: DeviceId, profile: Bytes)
    requires dev in RosterOf(p, s.log)
    ensures var t := Step(p, s, Message(dev, SetProfile(profile)));
            && t == s.(profiles := s.profiles[dev := profile], sent := t.sent)
            && OthersTold(p, s, t, dev, S2c.Presence(dev, true, Lookup(s.addrs, dev), Some(profile)))
  {
    ProfileStep(p, s, dev, profile);
    hide RosterOf, Broadcast, SentTo, Step;
    var s1 := s.(profiles := s.profiles[dev := profile]);
    BroadcastTells(s1, RosterOf(p, s.log), dev, Online(s1, dev));
  }

  lemma ProfileStep(p: Primitives, s: State, dev: DeviceId, profile: Bytes)
    requires dev in RosterOf(p, s.log)
    ensures Step(p, s, Message(dev, SetProfile(profile))) == OnSetProfile(s, RosterOf(p, s.log), dev, profile)
  {
    MemberStep(p, s, dev, SetProfile(profile));
    hide RosterOf, Step, Handle, OnSetProfile;
  }

  /** A ping is answered with its own nonce, and changes nothing. */
  lemma PingIsAnswered(p: Primitives, s: State, dev: DeviceId, nonce: nat)
    requires dev in RosterOf(p, s.log)
    ensures var t := Step(p, s, Message(dev, Ping(nonce)));
            t == s.(sent := t.sent) && Answered(s, t, dev, Pong(nonce))
  {
    MemberStep(p, s, dev, Ping(nonce));
    SendAnswers(s, dev, Pong(nonce));
    hide RosterOf, SendTo, SentTo, Step, Handle;
  }

  /** A hello whose versions do not meet 2 to 3 is refused and the connection closed. */
  lemma VersionRefused(p: Primitives, s: State, dev: DeviceId, lo: nat, hi: nat, headSeq: nat, headHash: Hash32)
    requires dev in RosterOf(p, s.log) && (hi < 2 || lo > 3)
    ensures var (t, open) := Handle(p, s, dev, Hello(lo, hi, headSeq, headHash));
            !open && t == s.(sent := t.sent) && Answered(s, t, dev, S2c.Error(VersionIncompatible))
  {
    MemberStep(p, s, dev, Hello(lo, hi, headSeq, headHash));
    SendAnswers(s, dev, S2c.Error(VersionIncompatible));
    hide RosterOf, SendTo, SentTo, Step, Handle;
  }

  /** The piece as the requester receives it: the same, field by field. */
  ghost predicate SamePiece(msg: C2s, out: S2c) {
    match msg
    case ContentBegin(id, size, count, chunk) => out == S2c.ContentBegin(id, size, count, chunk)
    case ContentChunk(id, index, data) => out == S2c.ContentChunk(id, index, data)
    case ContentReject(id, reason) => out == S2c.ContentReject(id, reason)
    case ContentAbort(id, reason) => out == S2c.ContentAbort(id, reason)
    case _ => false
  }

  /** A piece goes unaltered to whoever asked for its id, if online, and to nobody else; a rejection or an
      abort also ends the route. One nobody asked for is dropped. */
  lemma PieceIsPassedOn(p: Primitives, s: State, dev: DeviceId, msg: C2s)
    requires dev in RosterOf(p, s.log) && IsTransfer(msg)
    ensures var t := Step(p, s, Message(dev, msg));
            if msg.id !in s.pendingPull then t == s
            else
              var ends := msg.ContentReject? || msg.ContentAbort?;
              && t == s.(pendingPull := if ends then s.pendingPull - {msg.id} else s.pendingPull, sent := t.sent)
              && exists out :: SamePiece(msg, out) && Answered(s, t, s.pendingPull[msg.id], out)
  {
    TransferStep(p, s, dev, msg);
    assert SamePiece(msg, Relayed(msg));
    hide RosterOf, Step, SamePiece, Relayed;
    if msg.id in s.pendingPull {
      SendAnswers(s, s.pendingPull[msg.id], Relayed(msg));
      SendAnswers(s.(pendingPull := s.pendingPull - {msg.id}), s.pendingPull[msg.id], Relayed(msg));
    }
    hide SendTo, SentTo;
  }

  lemma TransferStep(p: Primitives, s: State, dev: DeviceId, msg: C2s)
    requires dev in RosterOf(p, s.log) && IsTransfer(msg)
    ensures Step(p, s, Message(dev, msg)) == OnTransfer(s, msg)
  {
    MemberStep(p, s, dev, msg);
    hide RosterOf, Step, Handle, OnTransfer;
  }

  // ----- Anyone's messages -----

  /** Whoever asks for the log is sent it from the entry asked for. */
  lemma LogIsServed(p: Primitives, s: State, dev: DeviceId, from: nat)
    ensures var t := Step(p, s, Message(dev, GetLog(from)));
            t == s.(sent := t.sent) &&
            Answered(s, t, dev, LogEntries(if from <= |s.log| then s.log[from..] else []))
  {
    SendAnswers(s, dev, LogEntries(if from <= |s.log| then s.log[from..] else []));
    hide RosterOf, SendTo, SentTo;
  }

  /** The answers to a claim, in the order of its checks. */
  lemma ClaimIsAnswered(p: Primitives, s: State, dev: DeviceId, token: Bytes, genesis: Bytes)
    ensures var (t, open) := Handle(p, s, dev, ClaimWorkspace(token, genesis));
            var wrongToken := s.tokenHash.Some? && p.sha256(token) != s.tokenHash.value;
            if s.claimed then
              open && t == s.(sent := t.sent) && Answered(s, t, dev, S2c.Error(ProtocolError))
            else if wrongToken then
              !open && t == s.(sent := t.sent) && Answered(s, t, dev, S2c.Error(NotMember))
            else if !FullyAccepted(p, [genesis], 0) then
              !open && t == s.(sent := t.sent) && Answered(s, t, dev, S2c.Error(ProtocolError))
            else
              && open && Answered(s, t, dev, AppendAck(0, p.blake3(genesis)))
              && t == s.(log := [genesis], claimed := true, epoch := 0, sent := t.sent,
                         store := if s.store.File? then File(Some([genesis])) else s.store)
  {
    GenesisHead(p, genesis);
    hide RosterOf, SendTo, SentTo, VerifyChain, FullyAccepted;
    SendAnswers(s, dev, S2c.Error(ProtocolError));
    SendAnswers(s, dev, S2c.Error(NotMember));
    SendAnswers(Founded(s, genesis), dev, AppendAck(0, p.blake3(genesis)));
  }

  /** The sender of an entry is told the number and hash of the new head, or why the entry was refused: it is
      no member and this no Add, or the log does not go on with this entry. */
  lemma AppendIsAnswered(p: Primitives, s: State, dev: DeviceId, entry: Bytes)
    requires dev in s.sessions
    ensures var (t, open) := Handle(p, s, dev, C2s.AppendEntry(entry));
            var isAdd := p.decodeEntry(entry).Some? && p.decodeEntry(entry).value.Add?;
            && open
            && SentTo(t.sent, dev) == SentTo(s.sent, dev) +
                 [if dev !in RosterOf(p, s.log) && !isAdd then AppendReject(NotAuthorized)
                  else if !FullyAccepted(p, s.log + [entry], 0) then AppendReject(Conflict)
                  else AppendAck(|s.log|, p.blake3(entry))]
  {
    var member := dev in RosterOf(p, s.log);
    AppendStep(p, s, dev, entry);
    if !member && !DecodesToAdd(p, entry) {
      SentHere(s, dev, AppendReject(NotAuthorized));
    } else if !FullyAccepted(p, s.log + [entry], 0) {
      SentHere(s, dev, AppendReject(Conflict));
    } else {
      var v := VerifyChain(p, s.log + [entry], 0).value;
      AcceptedHead(p, s.log, entry);
      Acknowledged(p, Appended(p, s, entry, v.epoch), dev, entry, v);
    }
    hide VerifyChain, FullyAccepted, RosterOf, SendTo, SentTo, Announced, Appended, Handle;
  }

  lemma AppendStep(p: Primitives, s: State, dev: DeviceId, entry: Bytes)
    ensures Handle(p, s, dev, C2s.AppendEntry(entry)) == (OnAppend(p, s, dev, dev in RosterOf(p, s.log), entry), true)
  {
    hide RosterOf, OnAppend;
  }

  lemma AcceptedHead(p: Primitives, log: seq<Bytes>, entry: Bytes)
    requires FullyAccepted(p, log + [entry], 0)
    ensures var v := VerifyChain(p, log + [entry], 0).value; v.headSeq == |log| && v.headHash == p.blake3(entry)
  {
    FullyAcceptedIsChain(p, log + [entry], 0);
    ChainLinks(p, log + [entry], 0);
    hide VerifyChain, Chain;
  }

  lemma Acknowledged(p: Primitives, s: State, dev: DeviceId, entry: Bytes, v: VerifiedLog)
    requires dev in s.sessions
    ensures SentTo(Announced(p, s, dev, entry, v).sent, dev) ==
            SentTo(s.sent, dev) + [AppendAck(v.headSeq, v.headHash)]
  {
    var s1 := SendTo(s, dev, AppendAck(v.headSeq, v.headHash));
    SentHere(s, dev, AppendAck(v.headSeq, v.headHash));
    BroadcastTells(s1, RosterOf(p, s.log), dev, LogAppended(entry, v.headSeq));
    hide RosterOf, SendTo, SentTo, Broadcast;
  }

  lemma GenesisHead(p: Primitives, genesis: Bytes)
    ensures VerifyChain(p, [genesis], 0).Ok? <==> FullyAccepted(p, [genesis], 0)
    ensures VerifyChain(p, [genesis], 0).Ok? ==> VerifyChain(p, [genesis], 0).value.headHash == p.blake3(genesis)
  {
    assert [genesis][1..] == [];
  }

  /** An outsider's message of any kind but four is refused and has no effect. */
  lemma OutsiderIsRefused(p: Primitives, s: State, dev: DeviceId, msg: C2s)
    requires dev !in RosterOf(p, s.log)
    requires !msg.ClaimWorkspace? && !msg.GetInviteBlob? && !msg.GetLog? && !msg.AppendEntry?
    ensures var (t, open) := Handle(p, s, dev, msg);
            open && t == s.(sent := t.sent) && Answered(s, t, dev, S2c.Error(NotMember))
  {
    SendAnswers(s, dev, S2c.Error(NotMember));
    hide RosterOf, SendTo, SentTo;
  }

  /** The connection is closed exactly by a member's farewell or unsupported version, and by a claim that
      fails its token or its Genesis. */
  lemma ClosedIff(p: Primitives, s: State, dev: DeviceId, msg: C2s)
    ensures !Handle(p, s, dev, msg).1 <==>
            || (dev in RosterOf(p, s.log) &&
                (msg.Leave? || msg.Bye? || (msg.Hello? && (msg.protoMax < 2 || msg.protoMin > 3))))
            || (msg.ClaimWorkspace? && !s.claimed &&
                ((s.tokenHash.Some? && p.sha256(msg.token) != s.tokenHash.value) ||
                 !FullyAccepted(p, [msg.genesis], 0)))
  {
    if msg.ClaimWorkspace? { GenesisHead(p, msg.genesis); }
    hide RosterOf, SendTo, VerifyChain, OnHello, OnClaim, OnAppend, OnTransfer, OnKeyUpdates, OnSetProfile,
      OnClipSignal, OnContentRequest, OnGetInvite;
  }

  // ----- Invites -----

  /** The event leaves the invite under `locator` as it is. */
  predicate LeavesInvite(e: Event, locator: Locator) {
    && !e.Restart?
    && (e.Message? ==> e.msg != RevokeInvite(locator) && !(e.msg.PutInvite? && e.msg.locator == locator))
  }

  lemma StepLeavesInvite(p: Primitives, s: State, e: Event, locator: Locator)
    requires LeavesInvite(e, locator)
    ensures Lookup(Step(p, s, e).invites, locator) == Lookup(s.invites, locator)
  {
    if e.Message? { MessageLeavesInvite(p, s, e.dev, e.msg, locator); }
    hide RosterOf, OnConnect, OnDisconnect, Handle;
  }

  lemma MessageLeavesInvite(p: Primitives, s: State, dev: DeviceId, msg: C2s, locator: Locator)
    requires msg != RevokeInvite(locator) && !(msg.PutInvite? && msg.locator == locator)
    ensures Lookup(Handle(p, s, dev, msg).0.invites, locator) == Lookup(s.invites, locator)
  {
    hide RosterOf, SendTo, OnOpenMessage, OnMemberMessage;
    if GuestMay(msg) {
      OpenLeavesInvites(p, s, dev, dev in RosterOf(p, s.log), msg);
    } else {
      MemberLeavesInvite(s, RosterOf(p, s.log), dev, msg, locator);
    }
  }

  lemma OpenLeavesInvites(p: Primitives, s: State, dev: DeviceId, member: bool, msg: C2s)
    requires GuestMay(msg)
    ensures OnOpenMessage(p, s, dev, member, msg).0.invites == s.invites
  {
    hide SendTo, OnClaim, OnAppend, JudgeClaim, OnGetInvite, Skip;
  }

  lemma MemberLeavesInvite(s: State, roster: set<DeviceId>, dev: DeviceId, msg: C2s, locator: Locator)
    requires !GuestMay(msg) && msg != RevokeInvite(locator) && !(msg.PutInvite? && msg.locator == locator)
    ensures Lookup(OnMemberMessage(s, roster, dev, msg).0.invites, locator) == Lookup(s.invites, locator)
  {
    hide SendTo, OnHello, OnTransfer, OnKeyUpdates, OnSetProfile, OnClipSignal, OnContentRequest;
  }

  /** An invite stands over any run in which nobody replaces or revokes it and the server is not
      restarted. */
  lemma {:induction false} InviteStands(p: Primitives, s: State, es: seq<Event>, locator: Locator)
    requires forall e | e in es :: LeavesInvite(e, locator)
    ensures Lookup(RelayRuns.Run(p, s, es).invites, locator) == Lookup(s.invites, locator)
    decreases |es|
  {
    if es != [] {
      var init, e := es[..|es| - 1], es[|es| - 1];
      assert e in es && forall x | x in init :: x in es;
      InviteStands(p, s, init, locator);
      StepLeavesInvite(p, RelayRuns.Run(p, s, init), e, locator);
      hide Step, LeavesInvite;
    }
  }

  /** An invite a member leaves is handed to anyone who names its locator, member or not, until it is
      replaced, revoked or lost with a restart; a revoked one is handed to nobody. */
  lemma InviteIsServed(p: Primitives, s: State, dev: DeviceId, put: C2s, locator: Locator, es: seq<Event>,
                       asker: DeviceId)
    requires dev in RosterOf(p, s.log)
    requires put == RevokeInvite(locator) || (put.PutInvite? && put.locator == locator)
    requires forall e | e in es :: LeavesInvite(e, locator)
    ensures var t := RelayRuns.Run(p, Step(p, s, Message(dev, put)), es);
            var u := Step(p, t, Message(asker, GetInviteBlob(locator)));
            && u == t.(sent := u.sent)
            && Answered(t, u, asker, InviteBlob(if put.PutInvite? then Some(put.blob) else None))
  {
    MemberStep(p, s, dev, put);
    var s1 := Step(p, s, Message(dev, put));
    assert Lookup(s1.invites, locator) == if put.PutInvite? then Some(put.blob) else None;
    hide Step;
    InviteStands(p, s1, es, locator);
    InviteAnswer(p, RelayRuns.Run(p, s1, es), asker, locator);
    hide Handle, RelayRuns.Run, RosterOf, SentTo;
  }

  lemma InviteAnswer(p: Primitives, s: State, asker: DeviceId, locator: Locator)
    ensures var u := Step(p, s, Message(asker, GetInviteBlob(locator)));
            u == s.(sent := u.sent) && Answered(s, u, asker, InviteBlob(Lookup(s.invites, locator)))
  {
    SendAnswers(s, asker, InviteBlob(Lookup(s.invites, locator)));
    hide RosterOf, SendTo, SentTo;
  }
}
