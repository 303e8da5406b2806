/** What holds of the relay over every run of connections, messages and restarts. */
module RelayRuns {
  import opened ByteStrings
  import opened Wrappers
  import opened LogEntries
  import opened WsLog
  import opened Wire
  import opened Sequences
  import opened Relay

  datatype Event =
    | Connect(dev: DeviceId, addr: string)
    | Disconnect(dev: DeviceId)
    | Message(dev: DeviceId, msg: C2s)
    | Restart

  /** A restart reads the log back and forgets everything else; `sent` records the past. */
  ghost function Step(p: Primitives, s: State, e: Event): State {
    match e
    case Connect(dev, addr) => OnConnect(p, s, dev, addr)
    case Disconnect(dev) => OnDisconnect(p, s, dev)
    case Message(dev, msg) => Handle(p, s, dev, msg).0
    case Restart => Boot(p, s.tokenHash, s.store).(sent := s.sent)
  }

  ghost function Run(p: Primitives, s: State, es: seq<Event>): State
    decreases |es|
  {
    if es == [] then s else Step(p, Run(p, s, es[..|es| - 1]), es[|es| - 1])
  }

  // ----- What each step may do to the log -----

  ghost predicate SameCore(s: State, t: State) {
    t.tokenHash == s.tokenHash && t.claimed == s.claimed && t.log == s.log && t.epoch == s.epoch && t.store == s.store
  }

  lemma MemberMessageKeepsCore(s: State, roster: set<DeviceId>, dev: DeviceId, msg: C2s)
    requires !GuestMay(msg)
    ensures SameCore(s, OnMemberMessage(s, roster, dev, msg).0)
    ensures msg.ClipSignal? || OnMemberMessage(s, roster, dev, msg).0.headCache == s.headCache
  {
    hide OnHello, OnClipSignal, OnContentRequest, OnTransfer, OnKeyUpdates, OnSetProfile, SendTo;
    if IsTransfer(msg) {
      assert OnMemberMessage(s, roster, dev, msg).0 == OnTransfer(s, msg);
    } else {
      OtherMessageKeepsCore(s, roster, dev, msg);
      hide OnMemberMessage;
    }
  }

  lemma OtherMessageKeepsCore(s: State, roster: set<DeviceId>, dev: DeviceId, msg: C2s)
    requires !GuestMay(msg) && !IsTransfer(msg)
    ensures SameCore(s, OnMemberMessage(s, roster, dev, msg).0)
    ensures msg.ClipSignal? || OnMemberMessage(s, roster, dev, msg).0.headCache == s.headCache
  {
    hide OnHello, OnClipSignal, OnContentRequest, OnTransfer, OnKeyUpdates, OnSetProfile, SendTo;
    match msg
    case Hello(_, _, _, _) =>
    case ClipSignal(_, _) =>
    case ContentRequest(_) =>
    case PutKeyUpdate(_) =>
    case SetProfile(_) =>
    case _ =>
  }

  ghost predicate Claims(p: Primitives, s: State, msg: C2s) {
    && msg.ClaimWorkspace?
    && !s.claimed
    && (s.tokenHash.Some? ==> p.sha256(msg.token) == s.tokenHash.value)
    && VerifyChain(p, [msg.genesis], 0).Ok?
  }

  ghost predicate Appends(p: Primitives, s: State, dev: DeviceId, msg: C2s) {
    && msg.AppendEntry?
    && (dev in RosterOf(p, s.log) || DecodesToAdd(p, msg.entry))
    && FullyAccepted(p, s.log + [msg.entry], 0)
  }

  /** The log changes in two ways only: a first claim founds it, an accepted entry extends it. */
  lemma MessageAndLog(p: Primitives, s: State, dev: DeviceId, msg: C2s)
    ensures var t := Handle(p, s, dev, msg).0;
            if Claims(p, s, msg) then
              SameCore(Save(s.(log := [msg.genesis], claimed := true, epoch := 0)), t) && t.headCache == s.headCache
            else if Appends(p, s, dev, msg) then
              && SameCore(Save(s.(log := s.log + [msg.entry],
                                  epoch := VerifyChain(p, s.log + [msg.entry], 0).value.epoch)), t)
              && t.headCache == if DecodesToEpoch(p, msg.entry) then [] else s.headCache
            else
              SameCore(s, t) && (msg.ClipSignal? || t.headCache == s.headCache)
  {
    hide VerifyChain, RosterOf, OnMemberMessage, SendTo, OnClaim, JudgeClaim, OnAppend, OnGetInvite, Skip;
    match msg
    case ClaimWorkspace(_, _) => ClaimAndLog(p, s, dev, msg);
    case AppendEntry(_) => AppendAndLog(p, s, dev, msg);
    case _ =>
      if !GuestMay(msg) && dev in RosterOf(p, s.log) { MemberMessageKeepsCore(s, RosterOf(p, s.log), dev, msg); }
  }

  lemma ClaimAndLog(p: Primitives, s: State, dev: DeviceId, msg: C2s)
    requires msg.ClaimWorkspace?
    ensures var t := OnClaim(p, s, dev, msg.token, msg.genesis);
            if Claims(p, s, msg) then SameCore(Save(s.(log := [msg.genesis], claimed := true, epoch := 0)), t)
            else SameCore(s, t)
  {
    hide VerifyChain, SendTo;
  }

  lemma AppendAndLog(p: Primitives, s: State, dev: DeviceId, msg: C2s)
    requires msg.AppendEntry?
    ensures var t := OnAppend(p, s, dev, dev in RosterOf(p, s.log), msg.entry);
            if Appends(p, s, dev, msg) then
              && SameCore(Save(s.(log := s.log + [msg.entry],
                                  epoch := VerifyChain(p, s.log + [msg.entry], 0).value.epoch)), t)
              && t.headCache == if DecodesToEpoch(p, msg.entry) then [] else s.headCache
            else SameCore(s, t) && t.headCache == s.headCache
  {
    hide VerifyChain, RosterOf, SendTo, Broadcast, DecodesToEpoch, DecodesToAdd;
  }

  // ----- Safety -----

  /** Claimed exactly when there is a log, the epoch the verified one, and the file current. */
  ghost predicate Current(p: Primitives, s: State) {
    && (s.claimed <==> s.log != [])
    && s.epoch == EpochOf(p, s.log)
    && (s.store.File? ==> s.log == (if s.store.saved.Some? then s.store.saved.value else []))
  }

  ghost predicate Safe(p: Primitives, s: State) {
    Current(p, s) && (s.log != [] ==> FullyAccepted(p, s.log, 0))
  }

  lemma LoneEntryIsGenesis(p: Primitives, entry: Bytes)
    ensures FullyAccepted(p, [entry], 0) ==> !DecodesToAdd(p, entry)
  {
  }

  /** Nothing can be appended before the workspace is founded. */
  lemma AppendNeedsLog(p: Primitives, s: State, dev: DeviceId, msg: C2s)
    requires Appends(p, s, dev, msg)
    ensures s.log != []
  {
    hide VerifyChain;
    if s.log == [] {
      assert s.log + [msg.entry] == [msg.entry];
      LoneEntryIsGenesis(p, msg.entry);
    }
  }

  lemma ClaimedLogIsAccepted(p: Primitives, genesis: Bytes)
    requires VerifyChain(p, [genesis], 0).Ok?
    ensures FullyAccepted(p, [genesis], 0) && VerifyChain(p, [genesis], 0).value.epoch == 0
  {
    assert [genesis][1..] == [];
  }

  lemma MessageCurrent(p: Primitives, s: State, dev: DeviceId, msg: C2s)
    requires Current(p, s)
    ensures Current(p, Handle(p, s, dev, msg).0)
  {
    MessageAndLog(p, s, dev, msg);
    if Claims(p, s, msg) { ClaimedLogIsAccepted(p, msg.genesis); }
    if Appends(p, s, dev, msg) { AppendNeedsLog(p, s, dev, msg); }
    hide Handle, VerifyChain, Claims, Appends, DecodesToEpoch;
  }

  lemma StepCurrent(p: Primitives, s: State, e: Event)
    requires Current(p, s)
    ensures Current(p, Step(p, s, e))
  {
    hide Handle, OnConnect, OnDisconnect, VerifyChain, RosterOf;
    if e.Message? { MessageCurrent(p, s, e.dev, e.msg); }
  }

  lemma StepSafe(p: Primitives, s: State, e: Event)
    requires Safe(p, s)
    ensures Safe(p, Step(p, s, e))
  {
    StepCurrent(p, s, e);
    hide Handle, OnConnect, OnDisconnect, VerifyChain, RosterOf, Current;
    if e.Message? {
      MessageAndLog(p, s, e.dev, e.msg);
      if Claims(p, s, e.msg) { ClaimedLogIsAccepted(p, e.msg.genesis); }
    } else if e.Restart? {
      assert Current(p, s) && Current(p, Step(p, s, e));
      RestartLog(p, s);
    }
  }

  lemma RestartLog(p: Primitives, s: State)
    requires Current(p, s)
    ensures var t := Step(p, s, Restart);
            if s.store.File? then t.log == s.log && t.claimed == s.claimed && t.epoch == s.epoch && t.store == s.store
            else t.log == []
  {
    hide VerifyChain;
  }

  /** Over any run, whatever the server was started on. */
  lemma {:induction false} RunCurrent(p: Primitives, s: State, es: seq<Event>)
    requires Current(p, s)
    ensures Current(p, Run(p, s, es))
    decreases |es|
  {
    hide Step, Current;
    if es != [] {
      RunCurrent(p, s, es[..|es| - 1]);
      StepCurrent(p, Run(p, s, es[..|es| - 1]), es[|es| - 1]);
    }
  }

  lemma BootIsCurrent(p: Primitives, tokenHash: Option<Hash32>, store: Store)
    ensures Current(p, Boot(p, tokenHash, store))
  {
    hide VerifyChain;
  }

  /** A file that is absent, empty or holds a log accepted to its end. */
  ghost predicate SoundStore(p: Primitives, store: Store) {
    store.File? && store.saved.Some? && store.saved.value != [] ==> FullyAccepted(p, store.saved.value, 0)
  }

  /** From a start on a sound store, over any run: the workspace is claimed exactly when the log is
      non-empty, a non-empty log is fully accepted, the cached epoch is the verified one and the file is
      current. */
  lemma {:induction false} RunSafe(p: Primitives, tokenHash: Option<Hash32>, store: Store, es: seq<Event>)
    requires SoundStore(p, store)
    ensures Safe(p, Run(p, Boot(p, tokenHash, store), es))
    decreases |es|
  {
    hide Step, Safe;
    if es == [] {
      FreshIsSafe(p, tokenHash, store);
    } else {
      RunSafe(p, tokenHash, store, es[..|es| - 1]);
      StepSafe(p, Run(p, Boot(p, tokenHash, store), es[..|es| - 1]), es[|es| - 1]);
    }
  }

  lemma FreshIsSafe(p: Primitives, tokenHash: Option<Hash32>, store: Store)
    requires SoundStore(p, store)
    ensures Safe(p, Boot(p, tokenHash, store))
  {
    BootIsCurrent(p, tokenHash, store);
    hide VerifyChain, Current;
  }

  /** The log survives restarts, or the run has none. */
  predicate Durable(s: State, es: seq<Event>) {
    s.store.File? || Restart !in es
  }

  lemma MessageGrows(p: Primitives, s: State, dev: DeviceId, msg: C2s)
    requires s.claimed && s.log != []
    requires s.store.File? ==> s.store.saved == Some(s.log)
    ensures var t := Handle(p, s, dev, msg).0;
            && t.claimed && s.log <= t.log
            && t.store.File? == s.store.File?
            && (t.store.File? ==> t.store.saved == Some(t.log))
            && (!FullyAccepted(p, s.log, 0) ==> t.log == s.log)
  {
    MessageAndLog(p, s, dev, msg);
    if Appends(p, s, dev, msg) { PrefixAccepted(p, s.log, msg.entry); }
    hide Handle, VerifyChain, RosterOf, DecodesToEpoch, DecodesToAdd;
  }

  lemma StepGrows(p: Primitives, s: State, e: Event)
    requires s.claimed && s.log != []
    requires e.Restart? ==> s.store.File? && s.store.saved == Some(s.log)
    requires s.store.File? ==> s.store.saved == Some(s.log)
    ensures var t := Step(p, s, e);
            && t.claimed && s.log <= t.log
            && t.store.File? == s.store.File?
            && (t.store.File? ==> t.store.saved == Some(t.log))
            && (!FullyAccepted(p, s.log, 0) ==> t.log == s.log)
  {
    hide Handle, OnConnect, OnDisconnect, VerifyChain, RosterOf;
    if e.Message? { MessageGrows(p, s, e.dev, e.msg); }
  }

  lemma PrefixAccepted(p: Primitives, log: seq<Bytes>, b: Bytes)
    requires log != [] && FullyAccepted(p, log + [b], 0)
    ensures FullyAccepted(p, log, 0)
  {
    hide VerifyChain;
    FullyAcceptedIsChain(p, log + [b], 0);
    FullyAcceptedIsChain(p, log, 0);
    ChainSnoc(p, log, b, 0);
  }

  /** Once claimed, the log only ever grows at its end; a log that is not fully accepted, which a
      server can only get from its file, never changes at all. */
  lemma {:induction false} LogOnlyGrows(p: Primitives, s: State, es: seq<Event>)
    requires s.claimed && s.log != [] && Durable(s, es)
    requires s.store.File? ==> s.store.saved == Some(s.log)
    ensures var t := Run(p, s, es);
            && t.claimed && s.log <= t.log
            && t.store.File? == s.store.File?
            && (t.store.File? ==> t.store.saved == Some(t.log))
            && (!FullyAccepted(p, s.log, 0) ==> t.log == s.log)
    decreases |es|
  {
    hide Step, VerifyChain;
    if es != [] {
      var init, e := es[..|es| - 1], es[|es| - 1];
      assert e in es && forall x | x in init :: x in es;
      LogOnlyGrows(p, s, init);
      StepGrows(p, Run(p, s, init), e);
    }
  }

  /** A server started on a file whose log it cannot fully verify keeps that log for good. */
  lemma UnverifiableFileIsFrozen(p: Primitives, tokenHash: Option<Hash32>, saved: seq<Bytes>, es: seq<Event>)
    requires saved != [] && !FullyAccepted(p, saved, 0)
    ensures Run(p, Boot(p, tokenHash, File(Some(saved))), es).log == saved
  {
    hide Run;
    LogOnlyGrows(p, Boot(p, tokenHash, File(Some(saved))), es);
  }

  /** Reading the saved log back restores log, claim and epoch, at any point of any run and whatever the
      file held at the start. */
  lemma RestartRestores(p: Primitives, tokenHash: Option<Hash32>, saved: Option<seq<Bytes>>, es: seq<Event>)
    ensures var s := Run(p, Boot(p, tokenHash, File(saved)), es);
            var t := Step(p, s, Restart);
            s.store.File? && t.log == s.log && t.claimed == s.claimed && t.epoch == s.epoch && t.store == s.store
  {
    var s := Boot(p, tokenHash, File(saved));
    BootIsCurrent(p, tokenHash, File(saved));
    RunCurrent(p, s, es);
    StoreKindKept(p, s, es);
    RestartLog(p, Run(p, s, es));
    hide Step, Current, Run;
  }

  lemma StepKeepsStoreKind(p: Primitives, s: State, e: Event)
    ensures Step(p, s, e).store.File? == s.store.File?
  {
    hide Handle, OnConnect, OnDisconnect, VerifyChain, RosterOf;
    if e.Message? { MessageAndLog(p, s, e.dev, e.msg); }
  }

  lemma {:induction false} StoreKindKept(p: Primitives, s: State, es: seq<Event>)
    ensures Run(p, s, es).store.File? == s.store.File?
    decreases |es|
  {
    if es != [] {
      StoreKindKept(p, s, es[..|es| - 1]);
      StepKeepsStoreKind(p, Run(p, s, es[..|es| - 1]), es[|es| - 1]);
      hide Step;
    }
  }

  /** A device outside the roster can found an unclaimed workspace or append an accepted Add; apart
      from that its messages change nothing but what has been sent. */
  lemma GuestEffect(p: Primitives, s: State, dev: DeviceId, msg: C2s)
    requires Safe(p, s) && dev !in RosterOf(p, s.log)
    ensures var t := Handle(p, s, dev, msg).0;
            && t == s.(log := t.log, claimed := t.claimed, epoch := t.epoch, store := t.store, sent := t.sent)
            && (|| SameCore(s, t)
                || (!s.claimed && t.claimed && |t.log| == 1 && FullyAccepted(p, t.log, 0))
                || (&& s.claimed && t.claimed
                    && |t.log| == |s.log| + 1 && s.log <= t.log
                    && FullyAccepted(p, t.log, 0) && DecodesToAdd(p, t.log[|s.log|])))
  {
    hide VerifyChain, SendTo, OnClaim, JudgeClaim, OnAppend, OnGetInvite, Skip;
    MessageAndLog(p, s, dev, msg);
    if Claims(p, s, msg) { ClaimedLogIsAccepted(p, msg.genesis); }
    if Appends(p, s, dev, msg) { AppendNeedsLog(p, s, dev, msg); }
  }

  // ----- Who stays a member -----

  /** What an accepted entry does to the roster. */
  lemma RosterAfterEntry(p: Primitives, log: seq<Bytes>, entry: Bytes)
    requires log != [] && FullyAccepted(p, log + [entry], 0)
    ensures FullyAccepted(p, log, 0) && p.decodeEntry(entry).Some?
    ensures VerifyChain(p, log + [entry], 0).value.members ==
            MembersAfter(p, VerifyChain(p, log, 0).value.members, p.decodeEntry(entry).value)
  {
    PrefixAccepted(p, log, entry);
    AppendIsOneStep(p, log, entry, 0);
    FullyAcceptedIsChain(p, log, 0);
    FullyAcceptedIsChain(p, log + [entry], 0);
    ChainSnoc(p, log, entry, 0);
    hide VerifyChain, Chain, Authorised, MembersAfter;
  }

  /** An entry that can put `d` into the roster or take it out. */
  predicate Concerning(p: Primitives, entry: Bytes, d: DeviceId) {
    match p.decodeEntry(entry)
    case Some(Add(_, _, _, spki, _, _, _)) => p.sha256(spki) == d
    case Some(Remove(_, _, target, _, _, _)) => target == d
    case _ => false
  }

  lemma EntryKeepsStanding(p: Primitives, log: seq<Bytes>, entry: Bytes, d: DeviceId)
    requires log != [] && FullyAccepted(p, log + [entry], 0) && !Concerning(p, entry, d)
    ensures d in RosterOf(p, log + [entry]) <==> d in RosterOf(p, log)
  {
    RosterAfterEntry(p, log, entry);
    RosterOfVerified(p, log);
    RosterOfVerified(p, log + [entry]);
    hide VerifyChain, RosterOf;
  }

  lemma RosterOfVerified(p: Primitives, log: seq<Bytes>)
    requires VerifyChain(p, log, 0).Ok?
    ensures RosterOf(p, log) == VerifyChain(p, log, 0).value.members.Keys
  {
  }

  /** No entry about `d` is offered, and the server is not restarted. */
  predicate LeavesStanding(p: Primitives, e: Event, d: DeviceId) {
    e != Restart && !(e.Message? && e.msg.AppendEntry? && Concerning(p, e.msg.entry, d))
  }

  lemma StepKeepsStanding(p: Primitives, s: State, e: Event, d: DeviceId)
    requires Current(p, s) && LeavesStanding(p, e, d) && s.log != []
    ensures d in RosterOf(p, Step(p, s, e).log) <==> d in RosterOf(p, s.log)
    ensures Step(p, s, e).log != []
  {
    hide Handle, OnConnect, OnDisconnect, VerifyChain, RosterOf;
    if e.Message? {
      MessageAndLog(p, s, e.dev, e.msg);
      if Appends(p, s, e.dev, e.msg) { EntryKeepsStanding(p, s.log, e.msg.entry, d); }
    }
  }

  // ----- The head cache is the recent history -----

  predicate IsMemberSignal(roster: set<DeviceId>, e: Event) {
    e.Message? && e.msg.ClipSignal? && e.dev in roster
  }

  function SignalOf(e: Event): Signal
    requires e.Message? && e.msg.ClipSignal?
  {
    Signal(e.dev, e.msg.hdr, e.msg.e2e)
  }

  /** An accepted Epoch entry, or a restart. */
  ghost predicate ForgetsSignals(p: Primitives, s: State, e: Event) {
    e.Restart? || (e.Message? && Appends(p, s, e.dev, e.msg) && DecodesToEpoch(p, e.msg.entry))
  }

  /** The members' signals since signals were last forgotten, oldest first. */
  ghost function RecentSignals(p: Primitives, s: State, es: seq<Event>): seq<Signal>
    decreases |es|
  {
    if es == [] then [] else
      var init, e := es[..|es| - 1], es[|es| - 1];
      var before := Run(p, s, init);
      if ForgetsSignals(p, before, e) then []
      else if IsMemberSignal(RosterOf(p, before.log), e) then RecentSignals(p, s, init) + [SignalOf(e)]
      else RecentSignals(p, s, init)
  }

  lemma SignalHeadCache(p: Primitives, s: State, e: Event)
    requires e.Message? && e.msg.ClipSignal?
    ensures Step(p, s, e).headCache ==
            if e.dev in RosterOf(p, s.log) then LastN(s.headCache + [SignalOf(e)], HEAD_CACHE_DEPTH) else s.headCache
  {
    hide RosterOf, DeliverAll, LastN;
  }

  lemma StepHeadCache(p: Primitives, s: State, e: Event)
    ensures Step(p, s, e).headCache ==
            if ForgetsSignals(p, s, e) then []
            else if IsMemberSignal(RosterOf(p, s.log), e) then LastN(s.headCache + [SignalOf(e)], HEAD_CACHE_DEPTH)
            else s.headCache
  {
    hide Handle, OnConnect, OnDisconnect, VerifyChain, RosterOf;
    if e.Message? {
      MessageAndLog(p, s, e.dev, e.msg);
      if e.msg.ClipSignal? { SignalHeadCache(p, s, e); }
    }
  }

  /** The bounded cache is the last four of the members' signals since the last accepted rotation. */
  lemma {:induction false} HeadCacheIsRecentHistory(p: Primitives, tokenHash: Option<Hash32>, store: Store,
                                                    es: seq<Event>)
    ensures var s := Boot(p, tokenHash, store);
            Run(p, s, es).headCache == LastN(RecentSignals(p, s, es), 4)
    decreases |es|
  {
    if es != [] {
      hide Step, ForgetsSignals, RosterOf, IsMemberSignal;
      var s := Boot(p, tokenHash, store);
      var init, e := es[..|es| - 1], es[|es| - 1];
      HeadCacheIsRecentHistory(p, tokenHash, store, init);
      StepHeadCache(p, Run(p, s, init), e);
      if e.Message? && e.msg.ClipSignal? {
        LastNOfLastN(RecentSignals(p, s, init), SignalOf(e), HEAD_CACHE_DEPTH);
      }
    }
  }

  // ----- Which messages of a kind a device is sent -----

  /** A kind of message to follow: clip signals, or the pieces of one transfer. */
  datatype Interest = Signals | TransferOf(id: ContentId)

  predicate Concerns(msg: S2c, id: ContentId) {
    (msg.ContentBegin? || msg.ContentChunk? || msg.ContentReject? || msg.ContentAbort?) && msg.id == id
  }

  predicate About(msg: S2c, i: Interest) {
    match i
    case Signals => msg.SignalFanout?
    case TransferOf(id) => Concerns(msg, id)
  }

  /** The messages of interest, in order. */
  function Picked(msgs: seq<S2c>, i: Interest): seq<S2c> {
    if msgs == [] then [] else
      var m := msgs[|msgs| - 1];
      Picked(msgs[..|msgs| - 1], i) + if About(m, i) then [m] else []
  }

  lemma PickedSnoc(msgs: seq<S2c>, m: S2c, i: Interest)
    ensures Picked(msgs + [m], i) == Picked(msgs, i) + if About(m, i) then [m] else []
  {
    assert (msgs + [m])[..|msgs|] == msgs;
  }

  /** No device was sent a message of interest between `s` and `t`. */
  ghost predicate Quiet(s: State, t: State, i: Interest) {
    forall d: DeviceId :: Picked(SentTo(t.sent, d), i) == Picked(SentTo(s.sent, d), i)
  }

  lemma SendQuiet(s: State, d: DeviceId, msg: S2c, i: Interest)
    requires !About(msg, i)
    ensures Quiet(s, SendTo(s, d, msg), i)
  {
    PickedSnoc(SentTo(s.sent, d), msg, i);
    hide Picked;
  }

  lemma BroadcastQuiet(s: State, roster: set<DeviceId>, except: DeviceId, msg: S2c, i: Interest)
    requires !About(msg, i)
    ensures Quiet(s, Broadcast(s, roster, except, msg), i)
  {
    var t := Broadcast(s, roster, except, msg);
    forall d: DeviceId ensures Picked(SentTo(t.sent, d), i) == Picked(SentTo(s.sent, d), i) {
      PickedSnoc(SentTo(s.sent, d), msg, i);
      assert SentTo(s.sent, d) + [] == SentTo(s.sent, d);
    }
  }

  lemma {:induction false} KeyUpdatesQuiet(s: State, us: seq<KeyUpdate>, i: Interest)
    ensures Quiet(s, OnKeyUpdates(s, us), i)
  {
    if us != [] {
      var init, u := us[..|us| - 1], us[|us| - 1];
      KeyUpdatesQuiet(s, init, i);
      SendQuiet(OnKeyUpdates(s, init), u.to, KeyUpdatePush(u.wrap), i);
    }
  }

  lemma HelloQuiet(s: State, roster: set<DeviceId>, dev: DeviceId, headSeq: nat, headHash: Hash32, i: Interest)
    ensures Quiet(s, OnHello(s, roster, dev, headSeq, headHash), i)
  {
    hide Picked, Broadcast, SendTo, LogTail, PresenceList;
    var w := Welcome(PROTO_MAX, s.epoch, LogTail(s.log, headSeq, headHash), Lookup(s.mailbox, dev),
                     PresenceList(s, Ascending(roster)), s.headCache);
    var s0 := s.(mailbox := s.mailbox - {dev});
    SendQuiet(s0, dev, w, i);
    var s1 := SendTo(s0, dev, w);
    BroadcastQuiet(s1, roster, dev, Online(s1, dev), i);
  }

  /** The messages from a member that can make the server send messages of interest. */
  predicate Touches(msg: C2s, i: Interest) {
    match i
    case Signals => msg.ClipSignal?
    case TransferOf(id) => (IsTransfer(msg) || msg.ContentRequest?) && msg.id == id
  }

  lemma MemberMessageQuiet(s: State, roster: set<DeviceId>, dev: DeviceId, msg: C2s, i: Interest)
    requires !GuestMay(msg) && !Touches(msg, i)
    ensures Quiet(s, OnMemberMessage(s, roster, dev, msg).0, i)
  {
    hide Quiet, SendTo, Broadcast, OnHello, OnKeyUpdates, OnClipSignal, OnContentRequest, OnTransfer, OnSetProfile;
    if IsTransfer(msg) {
      TransferQuiet(s, msg, i);
      return;
    }
    match msg
    case Hello(lo, hi, headSeq, headHash) =>
      SendQuiet(s, dev, S2c.Error(VersionIncompatible), i);
      HelloQuiet(s, roster, dev, headSeq, headHash, i);
    case PutKeyUpdate(us) => KeyUpdatesQuiet(s, us, i);
    case ClipSignal(hdr, e2e) => SignalQuiet(s, roster, Signal(dev, hdr, e2e), i);
    case ContentRequest(id) => RequestQuiet(s, dev, id, i);
    case SetProfile(profile) => ProfileQuiet(s, roster, dev, profile, i);
    case Ping(nonce) => SendQuiet(s, dev, Pong(nonce), i);
    case PutInvite(_, _) => SameOutboxQuiet(s, OnMemberMessage(s, roster, dev, msg).0, i);
    case RevokeInvite(_) => SameOutboxQuiet(s, OnMemberMessage(s, roster, dev, msg).0, i);
    case _ => SameOutboxQuiet(s, s, i);
  }

  lemma SameOutboxQuiet(s: State, t: State, i: Interest)
    requires t.sent == s.sent
    ensures Quiet(s, t, i)
  {
  }

  lemma SignalQuiet(s: State, roster: set<DeviceId>, sig: Signal, i: Interest)
    requires i.TransferOf?
    ensures Quiet(s, OnClipSignal(s, roster, sig), i)
  {
    hide Picked, Broadcast;
    BroadcastQuiet(s.(headCache := LastN(s.headCache + [sig], HEAD_CACHE_DEPTH)), roster, sig.origin,
      SignalFanout(sig), i);
  }

  lemma RequestQuiet(s: State, dev: DeviceId, id: ContentId, i: Interest)
    requires !Touches(C2s.ContentRequest(id), i)
    ensures Quiet(s, OnContentRequest(s, dev, id), i)
  {
    hide Picked, SendTo;
    var s1 := s.(pendingPull := s.pendingPull[id := dev]);
    match FindSignal(s.headCache, id)
    case Some(sig) => SendQuiet(s1, sig.origin, ContentPull(id), i);
    case None => SendQuiet(s, dev, S2c.ContentReject(id, Gone), i);
  }

  lemma TransferQuiet(s: State, msg: C2s, i: Interest)
    requires IsTransfer(msg) && !Touches(msg, i)
    ensures Quiet(s, OnTransfer(s, msg), i)
  {
    hide Picked, SendTo;
    if msg.id in s.pendingPull {
      SendQuiet(s, s.pendingPull[msg.id], Relayed(msg), i);
      SendQuiet(s.(pendingPull := s.pendingPull - {msg.id}), s.pendingPull[msg.id], Relayed(msg), i);
    } else {
      SameOutboxQuiet(s, s, i);
    }
  }

  lemma ProfileQuiet(s: State, roster: set<DeviceId>, dev: DeviceId, profile: Bytes, i: Interest)
    ensures Quiet(s, OnSetProfile(s, roster, dev, profile), i)
  {
    hide Picked, Broadcast;
    var s1 := s.(profiles := s.profiles[dev := profile]);
    BroadcastQuiet(s1, roster, dev, Online(s1, dev), i);
  }

  lemma AppendQuiet(p: Primitives, s: State, dev: DeviceId, member: bool, entry: Bytes, i: Interest)
    ensures Quiet(s, OnAppend(p, s, dev, member, entry), i)
  {
    hide VerifyChain, RosterOf, SendTo, Broadcast, Picked, DecodesToEpoch, DecodesToAdd;
    SendQuiet(s, dev, AppendReject(NotAuthorized), i);
    SendQuiet(s, dev, AppendReject(Conflict), i);
    if Appendable(p, s, entry) {
      var v := VerifyChain(p, s.log + [entry], 0).value;
      var s2 := Appended(p, s, entry, v.epoch);
      SendQuiet(s2, dev, AppendAck(v.headSeq, v.headHash), i);
      BroadcastQuiet(SendTo(s2, dev, AppendAck(v.headSeq, v.headHash)), RosterOf(p, s2.log), dev,
                     LogAppended(entry, v.headSeq), i);
    }
  }

  lemma ClaimQuiet(p: Primitives, s: State, dev: DeviceId, token: Bytes, genesis: Bytes, i: Interest)
    ensures Quiet(s, OnClaim(p, s, dev, token, genesis), i)
  {
    hide VerifyChain, SendTo, Picked;
    var outcome := JudgeClaim(p, s, token, genesis);
    SendQuiet(if outcome.Accepted? then Founded(s, genesis) else s, dev, outcome.Reply(), i);
  }

  lemma OpenMessageQuiet(p: Primitives, s: State, dev: DeviceId, member: bool, msg: C2s, i: Interest)
    requires GuestMay(msg)
    ensures Quiet(s, OnOpenMessage(p, s, dev, member, msg).0, i)
  {
    hide SendTo, OnClaim, JudgeClaim, OnAppend, Quiet, Skip;
    match msg
    case ClaimWorkspace(token, genesis) => ClaimQuiet(p, s, dev, token, genesis, i);
    case GetLog(from) => SendQuiet(s, dev, LogEntries(Skip(s.log, from)), i);
    case AppendEntry(entry) => AppendQuiet(p, s, dev, member, entry, i);
    case GetInviteBlob(locator) =>
      SendQuiet(s, dev, InviteBlob(if locator in s.invites then Some(s.invites[locator]) else None), i);
  }

  lemma ConnectionQuiet(p: Primitives, s: State, e: Event, i: Interest)
    requires e.Connect? || e.Disconnect?
    ensures Quiet(s, Step(p, s, e), i)
  {
    hide RosterOf, Picked, Broadcast;
    var roster := RosterOf(p, s.log);
    if e.Connect? {
      var s1 := s.(sessions := s.sessions + {e.dev}, addrs := s.addrs[e.dev := e.addr]);
      BroadcastQuiet(s1, roster, e.dev, Online(s1, e.dev), i);
    } else {
      var s1 := s.(sessions := s.sessions - {e.dev}, addrs := s.addrs - {e.dev});
      BroadcastQuiet(s1, roster, e.dev, S2c.Presence(e.dev, false, None, None), i);
    }
  }

  /** A step sends messages of one kind only when a member's message of that kind causes it. */
  lemma StepQuiet(p: Primitives, s: State, e: Event, i: Interest)
    requires !(e.Message? && e.dev in RosterOf(p, s.log) && Touches(e.msg, i))
    ensures Quiet(s, Step(p, s, e), i)
  {
    hide Quiet, RosterOf, SendTo, OnOpenMessage, OnMemberMessage, Touches;
    match e
    case Message(dev, msg) =>
      if GuestMay(msg) {
        OpenMessageQuiet(p, s, dev, dev in RosterOf(p, s.log), msg, i);
      } else if dev in RosterOf(p, s.log) {
        MemberMessageQuiet(s, RosterOf(p, s.log), dev, msg, i);
      } else {
        SendQuiet(s, dev, S2c.Error(NotMember), i);
      }
    case Restart => SameOutboxQuiet(s, Step(p, s, e), i);
    case _ => ConnectionQuiet(p, s, e, i);
  }

  // ----- Every signal is fanned out exactly once -----

  /** The devices a member's signal goes to: roster members with a session, except its sender. */
  ghost predicate OwedTo(p: Primitives, s: State, e: Event, d: DeviceId) {
    IsMemberSignal(RosterOf(p, s.log), e) && d in s.sessions && d in RosterOf(p, s.log) && d != e.dev
  }

  lemma SignalStep(p: Primitives, s: State, e: Event, d: DeviceId)
    requires IsMemberSignal(RosterOf(p, s.log), e)
    ensures SentTo(Step(p, s, e).sent, d) ==
            SentTo(s.sent, d) + if OwedTo(p, s, e, d) then [SignalFanout(SignalOf(e))] else []
  {
    hide RosterOf;
  }

  /** The signals `d` is owed over a run, in the order the server took them. */
  ghost function Owed(p: Primitives, s: State, es: seq<Event>, d: DeviceId): seq<S2c>
    decreases |es|
  {
    if es == [] then [] else
      var init, e := es[..|es| - 1], es[|es| - 1];
      Owed(p, s, init, d) + if OwedTo(p, Run(p, s, init), e, d) then [SignalFanout(SignalOf(e))] else []
  }

  lemma FanoutStep(p: Primitives, s: State, e: Event, d: DeviceId)
    ensures Picked(SentTo(Step(p, s, e).sent, d), Signals) ==
            Picked(SentTo(s.sent, d), Signals) + if OwedTo(p, s, e, d) then [SignalFanout(SignalOf(e))] else []
  {
    hide Step, RosterOf, Picked, SentTo, OwedTo;
    if IsMemberSignal(RosterOf(p, s.log), e) {
      SignalStep(p, s, e, d);
      SignalPicked(SentTo(s.sent, d), SignalOf(e), OwedTo(p, s, e, d));
    } else {
      NothingOwed(p, s, e, d);
    }
  }

  lemma SignalPicked(before: seq<S2c>, sig: Signal, owed: bool)
    ensures Picked(before + if owed then [SignalFanout(sig)] else [], Signals) ==
            Picked(before, Signals) + if owed then [SignalFanout(sig)] else []
  {
    PickedSnoc(before, SignalFanout(sig), Signals);
    assert before + [] == before;
    hide Picked;
  }

  lemma NothingOwed(p: Primitives, s: State, e: Event, d: DeviceId)
    requires !IsMemberSignal(RosterOf(p, s.log), e)
    ensures Picked(SentTo(Step(p, s, e).sent, d), Signals) == Picked(SentTo(s.sent, d), Signals)
    ensures !OwedTo(p, s, e, d)
  {
    hide Step, RosterOf, Picked, SentTo;
    StepQuiet(p, s, e, Signals);
  }

  /** Over any run, the signals sent to a device are exactly the ones it is owed, once each and in
      order: every signal of another member taken while the device was a member with a session. */
  lemma {:induction false} FanoutExactlyOnce(p: Primitives, s: State, es: seq<Event>, d: DeviceId)
    ensures Picked(SentTo(Run(p, s, es).sent, d), Signals) == Picked(SentTo(s.sent, d), Signals) + Owed(p, s, es, d)
    decreases |es|
  {
    hide Step, OwedTo, Picked, SentTo;
    if es != [] {
      FanoutExactlyOnce(p, s, es[..|es| - 1], d);
      FanoutStep(p, Run(p, s, es[..|es| - 1]), es[|es| - 1], d);
    }
  }

  // ----- A transfer reaches its requester whatever else goes on -----

  /** `id` is being fetched by `d`, which has a session. */
  predicate RoutedTo(s: State, id: ContentId, d: DeviceId) {
    id in s.pendingPull && s.pendingPull[id] == d && d in s.sessions
  }

  /** The requester stays, the server is not restarted, and nobody asks for `id` again, rejects it or
      aborts it. */
  predicate Undisturbed(e: Event, id: ContentId, d: DeviceId) {
    && e != Restart
    && e != Disconnect(d)
    && !(e.Message? && (e.msg.ContentRequest? || e.msg.ContentReject? || e.msg.ContentAbort?) && e.msg.id == id)
  }

  /** A piece of `id` sent by a member. */
  ghost predicate IsPiece(p: Primitives, s: State, e: Event, id: ContentId) {
    e.Message? && e.dev in RosterOf(p, s.log) && IsTransfer(e.msg) && e.msg.id == id
  }

  lemma MemberKeepsRoute(s: State, roster: set<DeviceId>, e: Event, id: ContentId, d: DeviceId)
    requires e.Message? && !GuestMay(e.msg) && Undisturbed(e, id, d) && RoutedTo(s, id, d)
    ensures RoutedTo(OnMemberMessage(s, roster, e.dev, e.msg).0, id, d)
  {
    hide OnHello, OnClipSignal, OnKeyUpdates, OnSetProfile, OnContentRequest, OnTransfer, SendTo;
    if IsTransfer(e.msg) {
      TransferKeepsRoute(s, e.msg, id, d);
    } else if e.msg.ContentRequest? {
      RequestKeepsRoute(s, e.dev, e.msg.id, id, d);
    } else {
      OtherMessageKeepsRoutes(s, roster, e.dev, e.msg);
    }
  }

  lemma OtherMessageKeepsRoutes(s: State, roster: set<DeviceId>, dev: DeviceId, msg: C2s)
    requires !GuestMay(msg) && !IsTransfer(msg) && !msg.ContentRequest?
    ensures var t := OnMemberMessage(s, roster, dev, msg).0;
            t.pendingPull == s.pendingPull && t.sessions == s.sessions
  {
    hide OnHello, OnClipSignal, OnKeyUpdates, OnSetProfile, OnContentRequest, OnTransfer, SendTo, IsTransfer;
  }

  lemma RequestKeepsRoute(s: State, dev: DeviceId, other: ContentId, id: ContentId, d: DeviceId)
    requires other != id && RoutedTo(s, id, d)
    ensures RoutedTo(OnContentRequest(s, dev, other), id, d)
  {
    hide SendTo;
  }

  lemma TransferKeepsRoute(s: State, msg: C2s, id: ContentId, d: DeviceId)
    requires IsTransfer(msg) && RoutedTo(s, id, d)
    requires msg.ContentReject? || msg.ContentAbort? ==> msg.id != id
    ensures RoutedTo(OnTransfer(s, msg), id, d)
  {
    hide SendTo;
  }

  lemma StepKeepsRoute(p: Primitives, s: State, e: Event, id: ContentId, d: DeviceId)
    requires Undisturbed(e, id, d) && RoutedTo(s, id, d)
    ensures RoutedTo(Step(p, s, e), id, d)
  {
    hide RosterOf, SendTo, OnMemberMessage, OnClaim, JudgeClaim, OnAppend, OnGetInvite, OnConnect, OnDisconnect,
      VerifyChain;
    match e
    case Connect(_, _) =>
      assert Step(p, s, e).sessions == s.sessions + {e.dev} by { ConnectSessions(p, s, e.dev, e.addr); }
    case Disconnect(dev) => DisconnectSessions(p, s, dev);
    case Message(dev, msg) => if !GuestMay(msg) { MemberKeepsRoute(s, RosterOf(p, s.log), e, id, d); }
    case Restart =>
  }

  lemma ConnectSessions(p: Primitives, s: State, dev: DeviceId, addr: string)
    ensures OnConnect(p, s, dev, addr).sessions == s.sessions + {dev}
  {
    hide RosterOf;
  }

  lemma DisconnectSessions(p: Primitives, s: State, dev: DeviceId)
    ensures OnDisconnect(p, s, dev).sessions == s.sessions - {dev}
  {
    hide RosterOf;
  }

  lemma PieceStep(p: Primitives, s: State, e: Event, id: ContentId, d: DeviceId)
    requires IsPiece(p, s, e, id) && RoutedTo(s, id, d)
    ensures SentTo(Step(p, s, e).sent, d) == SentTo(s.sent, d) + [Relayed(e.msg)]
  {
    TransferForwards(s, e.msg, d);
    hide RosterOf, Relayed, OnTransfer;
  }

  lemma TransferForwards(s: State, msg: C2s, d: DeviceId)
    requires IsTransfer(msg) && RoutedTo(s, msg.id, d)
    ensures SentTo(OnTransfer(s, msg).sent, d) == SentTo(s.sent, d) + [Relayed(msg)]
  {
    hide Relayed;
  }

  /** The pieces of `id` that members sent over a run, as the relay passes them on, in order. */
  ghost function Pieces(p: Primitives, s: State, es: seq<Event>, id: ContentId): seq<S2c>
    decreases |es|
  {
    if es == [] then [] else
      var init, e := es[..|es| - 1], es[|es| - 1];
      Pieces(p, s, init, id) + if IsPiece(p, Run(p, s, init), e, id) then [Relayed(e.msg)] else []
  }

  lemma TransferStep(p: Primitives, s: State, e: Event, id: ContentId, d: DeviceId)
    requires RoutedTo(s, id, d) && Undisturbed(e, id, d)
    ensures RoutedTo(Step(p, s, e), id, d)
    ensures Picked(SentTo(Step(p, s, e).sent, d), TransferOf(id)) ==
            Picked(SentTo(s.sent, d), TransferOf(id)) + if IsPiece(p, s, e, id) then [Relayed(e.msg)] else []
  {
    hide RosterOf, Step, RoutedTo, Undisturbed, Relayed, Touches, Picked, About;
    StepKeepsRoute(p, s, e, id, d);
    if IsPiece(p, s, e, id) {
      PieceStep(p, s, e, id, d);
      PieceIsAbout(p, s, e, id);
      PickedSnoc(SentTo(s.sent, d), Relayed(e.msg), TransferOf(id));
    } else {
      NoPieceNoTouch(p, s, e, id, d);
      StepQuiet(p, s, e, TransferOf(id));
      assert Picked(SentTo(s.sent, d), TransferOf(id)) + [] == Picked(SentTo(s.sent, d), TransferOf(id));
    }
  }

  /** Over any undisturbed run, with any other traffic and log growth in between, the requester is
      sent about `id` exactly the pieces that members sent to the relay, once each and in order. */
  lemma {:induction false} TransferPassesThrough(p: Primitives, s: State, es: seq<Event>, id: ContentId, d: DeviceId)
    requires RoutedTo(s, id, d) && forall e | e in es :: Undisturbed(e, id, d)
    ensures RoutedTo(Run(p, s, es), id, d)
    ensures Picked(SentTo(Run(p, s, es).sent, d), TransferOf(id)) ==
            Picked(SentTo(s.sent, d), TransferOf(id)) + Pieces(p, s, es, id)
    decreases |es|
  {
    hide Step, RoutedTo, Undisturbed, Picked, Relayed, IsPiece;
    if es != [] {
      var init, e := es[..|es| - 1], es[|es| - 1];
      assert e in es && forall x | x in init :: x in es;
      TransferPassesThrough(p, s, init, id, d);
      TransferStep(p, Run(p, s, init), e, id, d);
    }
  }

  lemma PieceIsAbout(p: Primitives, s: State, e: Event, id: ContentId)
    requires IsPiece(p, s, e, id)
    ensures e.Message? && IsTransfer(e.msg) && About(Relayed(e.msg), TransferOf(id))
  {
  }

  lemma NoPieceNoTouch(p: Primitives, s: State, e: Event, id: ContentId, d: DeviceId)
    requires !IsPiece(p, s, e, id) && Undisturbed(e, id, d)
    ensures !(e.Message? && e.dev in RosterOf(p, s.log) && Touches(e.msg, TransferOf(id)))
  {
    hide RosterOf;
  }
}
