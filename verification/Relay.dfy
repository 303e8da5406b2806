/** The blind relay: its state, one step per connection event or message, and the server object
    whose methods take those steps. */
module Relay {
  import opened ByteStrings
  import opened Wrappers
  import opened LogEntries
  import opened MemberSet
  import opened WsLog
  import opened Wire
  import opened Sequences

  const PROTO_MIN: nat := 2
  const PROTO_MAX: nat := 3
  const HEAD_CACHE_DEPTH: nat := 4

  /** Where the log is kept: nowhere, or a file that is absent or holds a log. */
  datatype Store = MemoryOnly | File(saved: Option<seq<Bytes>>)

  /** Everything sent to each device so far, oldest first. */
  type Outbox = map<DeviceId, seq<S2c>>

  datatype State = State(
    tokenHash: Option<Hash32>,
    claimed: bool,
    log: seq<Bytes>,
    epoch: nat,
    headCache: seq<Signal>,
    sessions: set<DeviceId>,
    addrs: map<DeviceId, string>,
    profiles: map<DeviceId, Bytes>,
    invites: map<Locator, Bytes>,
    mailbox: map<DeviceId, Bytes>,
    pendingPull: map<ContentId, DeviceId>,
    store: Store,
    sent: Outbox)

  // ----- Sending -----

  function SentTo(sent: Outbox, d: DeviceId): seq<S2c> {
    if d in sent then sent[d] else []
  }

  function Deliver(sent: Outbox, d: DeviceId, msg: S2c): Outbox {
    sent[d := SentTo(sent, d) + [msg]]
  }

  function DeliverAll(sent: Outbox, to: set<DeviceId>, msg: S2c): Outbox {
    map d | d in sent.Keys + to :: SentTo(sent, d) + (if d in to then [msg] else [])
  }

  lemma DeliverToNone(sent: Outbox, msg: S2c)
    ensures DeliverAll(sent, {}, msg) == sent
  {
    assert forall d | d in sent :: SentTo(sent, d) + [] == sent[d];
  }

  lemma DeliverOneMore(sent: Outbox, to: set<DeviceId>, d: DeviceId, msg: S2c)
    requires d !in to
    ensures Deliver(DeliverAll(sent, to, msg), d, msg) == DeliverAll(sent, to + {d}, msg)
  {
    var one, all := Deliver(DeliverAll(sent, to, msg), d, msg), DeliverAll(sent, to + {d}, msg);
    assert one.Keys == all.Keys;
    forall x | x in all ensures one[x] == all[x] {
    }
  }

  lemma ServedGrows<T>(all: set<T>, rest: set<T>, roster: set<T>, except: T, d: T)
    requires d in rest && rest <= all
    ensures d !in (all - rest) * roster - {except}
    ensures (all - (rest - {d})) * roster - {except} ==
            ((all - rest) * roster - {except}) + (if d != except && d in roster then {d} else {})
  {
  }

  /** A message to a device without a session is dropped. */
  function SendTo(s: State, d: DeviceId, msg: S2c): (t: State)
    ensures t == s.(sent := t.sent)
  {
    if d in s.sessions then s.(sent := Deliver(s.sent, d, msg)) else s
  }

  /** To every session of a roster member except `except`. */
  function Broadcast(s: State, roster: set<DeviceId>, except: DeviceId, msg: S2c): (t: State)
    ensures t == s.(sent := t.sent)
  {
    s.(sent := DeliverAll(s.sent, s.sessions * roster - {except}, msg))
  }

  lemma SentElsewhere(s: State, dev: DeviceId, msg: S2c, d: DeviceId)
    requires d != dev
    ensures SentTo(SendTo(s, dev, msg).sent, d) == SentTo(s.sent, d)
  {
    DeliveredElsewhere(s.sent, dev, msg, d);
    hide Deliver, SentTo;
  }

  lemma DeliveredElsewhere(sent: Outbox, dev: DeviceId, msg: S2c, d: DeviceId)
    requires d != dev
    ensures SentTo(Deliver(sent, dev, msg), d) == SentTo(sent, d)
  {
  }

  lemma SentHere(s: State, dev: DeviceId, msg: S2c)
    requires dev in s.sessions
    ensures SentTo(SendTo(s, dev, msg).sent, dev) == SentTo(s.sent, dev) + [msg]
  {
  }

  lemma SentOnce(s: State, to: DeviceId, msg: S2c)
    ensures forall d: DeviceId ::
              SentTo(SendTo(s, to, msg).sent, d) ==
              SentTo(s.sent, d) + if d == to && d in s.sessions then [msg] else []
  {
  }

  lemma SentByBroadcast(s: State, roster: set<DeviceId>, except: DeviceId, msg: S2c, d: DeviceId)
    ensures SentTo(Broadcast(s, roster, except, msg).sent, d) ==
            SentTo(s.sent, d) + if d in s.sessions && d in roster && d != except then [msg] else []
  {
    assert SentTo(s.sent, d) + [] == SentTo(s.sent, d);
  }

  // ----- Steps -----

  ghost function RosterOf(p: Primitives, log: seq<Bytes>): set<DeviceId> {
    if log == [] then {} else
      match VerifyChain(p, log, 0)
      case Err(_) => {}
      case Ok(v) => v.members.Keys
  }

  ghost function EpochOf(p: Primitives, log: seq<Bytes>): nat {
    match VerifyChain(p, log, 0)
    case Err(_) => 0
    case Ok(v) => v.epoch
  }

  /** A server just started on `store`. */
  ghost function Boot(p: Primitives, tokenHash: Option<Hash32>, store: Store): State {
    var log := if store.File? && store.saved.Some? then store.saved.value else [];
    State(tokenHash, log != [], log, EpochOf(p, log), [], {}, map[], map[], map[], map[], map[], store, map[])
  }

  function Save(s: State): (t: State)
    ensures t == s.(store := t.store)
  {
    if s.store.File? then s.(store := File(Some(s.log))) else s
  }

  function Online(s: State, dev: DeviceId): S2c {
    S2c.Presence(dev, true, Lookup(s.addrs, dev), Lookup(s.profiles, dev))
  }

  ghost function OnConnect(p: Primitives, s: State, dev: DeviceId, addr: string): (t: State)
    ensures t == s.(sessions := t.sessions, addrs := t.addrs, sent := t.sent)
  {
    var s1 := s.(sessions := s.sessions + {dev}, addrs := s.addrs[dev := addr]);
    var roster := RosterOf(p, s.log);
    if dev in roster then Broadcast(s1, roster, dev, Online(s1, dev)) else s1
  }

  ghost function OnDisconnect(p: Primitives, s: State, dev: DeviceId): (t: State)
    ensures t == s.(sessions := t.sessions, addrs := t.addrs, sent := t.sent)
  {
    var s1 := s.(sessions := s.sessions - {dev}, addrs := s.addrs - {dev});
    Broadcast(s1, RosterOf(p, s.log), dev, S2c.Presence(dev, false, None, None))
  }

  function PresenceEntryOf(s: State, d: DeviceId): PresenceEntry {
    PresenceEntry(d, d in s.sessions, Lookup(s.addrs, d), Lookup(s.profiles, d))
  }

  function PresenceList(s: State, ids: seq<DeviceId>): seq<PresenceEntry> {
    if ids == [] then [] else PresenceList(s, ids[..|ids| - 1]) + [PresenceEntryOf(s, ids[|ids| - 1])]
  }

  function Skip(log: seq<Bytes>, n: nat): seq<Bytes> {
    if n <= |log| then log[n..] else []
  }

  function LogTail(log: seq<Bytes>, headSeq: nat, headHash: Hash32): seq<Bytes> {
    if headSeq == 0 && headHash == ZERO_HASH then log else Skip(log, headSeq + 1)
  }

  ghost function OnHello(s: State, roster: set<DeviceId>, dev: DeviceId, headSeq: nat, headHash: Hash32)
    : (t: State)
    ensures t == s.(mailbox := t.mailbox, sent := t.sent)
  {
    var w := Welcome(PROTO_MAX, s.epoch, LogTail(s.log, headSeq, headHash), Lookup(s.mailbox, dev),
                     PresenceList(s, Ascending(roster)), s.headCache);
    var s1 := SendTo(s.(mailbox := s.mailbox - {dev}), dev, w);
    if dev in roster then Broadcast(s1, roster, dev, Online(s1, dev)) else s1
  }

  function OnClipSignal(s: State, roster: set<DeviceId>, sig: Signal): (t: State)
    ensures t == s.(headCache := t.headCache, sent := t.sent)
  {
    Broadcast(s.(headCache := LastN(s.headCache + [sig], HEAD_CACHE_DEPTH)), roster, sig.origin, SignalFanout(sig))
  }

  /** The oldest cached signal for `id`. */
  function FindSignal(cache: seq<Signal>, id: ContentId): Option<Signal> {
    if cache == [] then None else if cache[0].hdr.id == id then Some(cache[0]) else FindSignal(cache[1..], id)
  }

  function OnContentRequest(s: State, dev: DeviceId, id: ContentId): (t: State)
    ensures t == s.(pendingPull := t.pendingPull, sent := t.sent)
  {
    match FindSignal(s.headCache, id)
    case Some(sig) => SendTo(s.(pendingPull := s.pendingPull[id := dev]), sig.origin, ContentPull(id))
    case None => SendTo(s, dev, S2c.ContentReject(id, Gone))
  }

  /** Passes `msg` on to whoever asked for `id`; a closing message also ends the transfer. */
  function Forward(s: State, id: ContentId, msg: S2c, closing: bool): (t: State)
    ensures t == s.(pendingPull := t.pendingPull, sent := t.sent)
  {
    if id !in s.pendingPull then s else
      SendTo(if closing then s.(pendingPull := s.pendingPull - {id}) else s, s.pendingPull[id], msg)
  }

  predicate IsTransfer(msg: C2s) {
    msg.ContentBegin? || msg.ContentChunk? || msg.ContentReject? || msg.ContentAbort?
  }

  /** The message as the requester receives it. */
  function Relayed(msg: C2s): S2c
    requires IsTransfer(msg)
  {
    match msg
    case ContentBegin(id, size, count, chunk) => S2c.ContentBegin(id, size, count, chunk)
    case ContentChunk(id, index, data) => S2c.ContentChunk(id, index, data)
    case ContentReject(id, reason) => S2c.ContentReject(id, reason)
    case ContentAbort(id, reason) => S2c.ContentAbort(id, reason)
  }

  function OnTransfer(s: State, msg: C2s): (t: State)
    requires IsTransfer(msg)
    ensures t == s.(pendingPull := t.pendingPull, sent := t.sent)
  {
    Forward(s, msg.id, Relayed(msg), msg.ContentReject? || msg.ContentAbort?)
  }

  /** The workspace founded on `genesis`. */
  function Founded(s: State, genesis: Bytes): (t: State)
    ensures t == s.(log := t.log, claimed := t.claimed, epoch := t.epoch, store := t.store)
  {
    Save(s.(log := [genesis], claimed := true, epoch := 0))
  }

  datatype ClaimOutcome = Taken | WrongToken | BadGenesis | Accepted(headHash: Hash32)
  {
    function Reply(): S2c {
      match this
      case Taken => S2c.Error(ProtocolError)
      case WrongToken => S2c.Error(NotMember)
      case BadGenesis => S2c.Error(ProtocolError)
      case Accepted(headHash) => AppendAck(0, headHash)
    }

    /** Whether the connection stays open. */
    predicate StaysOpen() {
      Taken? || Accepted?
    }
  }

  ghost function JudgeClaim(p: Primitives, s: State, token: Bytes, genesis: Bytes): ClaimOutcome {
    if s.claimed then Taken
    else if s.tokenHash.Some? && p.sha256(token) != s.tokenHash.value then WrongToken
    else match VerifyChain(p, [genesis], 0)
      case Err(_) => BadGenesis
      case Ok(v) => Accepted(v.headHash)
  }

  ghost function OnClaim(p: Primitives, s: State, dev: DeviceId, token: Bytes, genesis: Bytes): (t: State)
    ensures t == s.(log := t.log, claimed := t.claimed, epoch := t.epoch, store := t.store, sent := t.sent)
  {
    var outcome := JudgeClaim(p, s, token, genesis);
    SendTo(if outcome.Accepted? then Founded(s, genesis) else s, dev, outcome.Reply())
  }

  ghost predicate Appendable(p: Primitives, s: State, entry: Bytes) {
    FullyAccepted(p, s.log + [entry], 0)
  }

  predicate DecodesToAdd(p: Primitives, entry: Bytes) {
    p.decodeEntry(entry).Some? && p.decodeEntry(entry).value.Add?
  }

  predicate DecodesToEpoch(p: Primitives, entry: Bytes) {
    p.decodeEntry(entry).Some? && p.decodeEntry(entry).value.Epoch?
  }

  /** The log and the epoch after an accepted entry; an Epoch also clears the cached signals. */
  function Appended(p: Primitives, s: State, entry: Bytes, epoch: nat): (t: State)
    ensures t == s.(log := t.log, epoch := t.epoch, store := t.store, headCache := t.headCache)
  {
    var s1 := Save(s.(log := s.log + [entry], epoch := epoch));
    if DecodesToEpoch(p, entry) then s1.(headCache := []) else s1
  }

  /** The sender of an accepted entry gets an acknowledgement, the other members the entry. */
  ghost function Announced(p: Primitives, s: State, dev: DeviceId, entry: Bytes, v: VerifiedLog): (t: State)
    ensures t == s.(sent := t.sent)
  {
    Broadcast(SendTo(s, dev, AppendAck(v.headSeq, v.headHash)), RosterOf(p, s.log), dev, LogAppended(entry, v.headSeq))
  }

  ghost function OnAppend(p: Primitives, s: State, dev: DeviceId, member: bool, entry: Bytes): (t: State)
    ensures t == s.(log := t.log, epoch := t.epoch, store := t.store, headCache := t.headCache, sent := t.sent)
  {
    if !member && !DecodesToAdd(p, entry) then SendTo(s, dev, AppendReject(NotAuthorized))
    else if !Appendable(p, s, entry) then SendTo(s, dev, AppendReject(Conflict))
    else
      var v := VerifyChain(p, s.log + [entry], 0).value;
      Announced(p, Appended(p, s, entry, v.epoch), dev, entry, v)
  }

  /** Each wrap is pushed to a session, or kept in place of an older one until the device says hello. */
  function OnKeyUpdates(s: State, updates: seq<KeyUpdate>): (t: State)
    ensures t == s.(mailbox := t.mailbox, sent := t.sent)
  {
    if updates == [] then s else
      var s1 := OnKeyUpdates(s, updates[..|updates| - 1]);
      var u := updates[|updates| - 1];
      if u.to in s1.sessions then SendTo(s1, u.to, KeyUpdatePush(u.wrap))
      else s1.(mailbox := s1.mailbox[u.to := u.wrap])
  }

  function OnSetProfile(s: State, roster: set<DeviceId>, dev: DeviceId, profile: Bytes): (t: State)
    ensures t == s.(profiles := t.profiles, sent := t.sent)
  {
    var s1 := s.(profiles := s.profiles[dev := profile]);
    Broadcast(s1, roster, dev, Online(s1, dev))
  }

  /** What a device outside the roster may send. */
  predicate GuestMay(msg: C2s) {
    msg.ClaimWorkspace? || msg.GetInviteBlob? || msg.GetLog? || msg.AppendEntry?
  }

  function OnGetInvite(s: State, dev: DeviceId, locator: Locator): (t: State)
    ensures t == s.(sent := t.sent)
  {
    SendTo(s, dev, InviteBlob(if locator in s.invites then Some(s.invites[locator]) else None))
  }

  /** Messages anyone may send. */
  ghost function OnOpenMessage(p: Primitives, s: State, dev: DeviceId, member: bool, msg: C2s): (State, bool)
    requires GuestMay(msg)
  {
    match msg
    case ClaimWorkspace(token, genesis) =>
      (OnClaim(p, s, dev, token, genesis), JudgeClaim(p, s, token, genesis).StaysOpen())
    case GetLog(from) => (SendTo(s, dev, LogEntries(Skip(s.log, from))), true)
    case AppendEntry(entry) => (OnAppend(p, s, dev, member, entry), true)
    case GetInviteBlob(locator) => (OnGetInvite(s, dev, locator), true)
  }

  /** Messages only members may send. */
  ghost function OnMemberMessage(s: State, roster: set<DeviceId>, dev: DeviceId, msg: C2s): (State, bool)
    requires !GuestMay(msg)
  {
    if IsTransfer(msg) then (OnTransfer(s, msg), true) else
    match msg
    case Hello(lo, hi, headSeq, headHash) =>
      if hi < PROTO_MIN || lo > PROTO_MAX then (SendTo(s, dev, S2c.Error(VersionIncompatible)), false)
      else (OnHello(s, roster, dev, headSeq, headHash), true)
    case ClipSignal(hdr, e2e) => (OnClipSignal(s, roster, Signal(dev, hdr, e2e)), true)
    case ContentRequest(id) => (OnContentRequest(s, dev, id), true)
    case PutInvite(locator, blob) => (s.(invites := s.invites[locator := blob]), true)
    case RevokeInvite(locator) => (s.(invites := s.invites - {locator}), true)
    case PutKeyUpdate(updates) => (OnKeyUpdates(s, updates), true)
    case SetProfile(profile) => (OnSetProfile(s, roster, dev, profile), true)
    case Ping(nonce) => (SendTo(s, dev, Pong(nonce)), true)
    case Leave => (s, false)
    case Bye => (s, false)
  }

  /** The state after one message, and whether the connection stays open. */
  ghost function Handle(p: Primitives, s: State, dev: DeviceId, msg: C2s): (State, bool) {
    var roster := RosterOf(p, s.log);
    if GuestMay(msg) then OnOpenMessage(p, s, dev, dev in roster, msg)
    else if dev !in roster then (SendTo(s, dev, S2c.Error(NotMember)), true)
    else OnMemberMessage(s, roster, dev, msg)
  }

  // ----- The server object -----

  /** The loop over the session table; the table's order does not matter to any receiver. */
  method FanOut(sessions: set<DeviceId>, sent: Outbox, roster: set<DeviceId>, except: DeviceId, msg: S2c)
    returns (out: Outbox)
    ensures out == DeliverAll(sent, sessions * roster - {except}, msg)
  {
    hide Deliver, DeliverAll;
    out := sent;
    var rest := sessions;
    DeliverToNone(sent, msg);
    assert (sessions - rest) * roster - {except} == {};
    while rest != {}
      invariant rest <= sessions
      invariant out == DeliverAll(sent, (sessions - rest) * roster - {except}, msg)
      decreases |rest|
    {
      var d :| d in rest;
      ServedGrows(sessions, rest, roster, except, d);
      if d != except && d in roster {
        DeliverOneMore(sent, (sessions - rest) * roster - {except}, d, msg);
        out := Deliver(out, d, msg);
      }
      rest := rest - {d};
    }
    assert sessions - rest == sessions;
  }

  class Server {
    var tokenHash: Option<Hash32>
    var claimed: bool
    var log: seq<Bytes>
    var epoch: nat
    var headCache: seq<Signal>
    var sessions: set<DeviceId>
    var addrs: map<DeviceId, string>
    var profiles: map<DeviceId, Bytes>
    var invites: map<Locator, Bytes>
    var mailbox: map<DeviceId, Bytes>
    var pendingPull: map<ContentId, DeviceId>
    var store: Store
    var sent: Outbox

    ghost function Now(): State
      reads this
    {
      State(tokenHash, claimed, log, epoch, headCache, sessions, addrs, profiles, invites, mailbox, pendingPull,
            store, sent)
    }

    /** `Shared::new` and `Shared::with_persistence`. */
    constructor (p: Primitives, tokenHash: Option<Hash32>, store: Store)
      ensures Now() == Boot(p, tokenHash, store)
    {
      var loaded := if store.File? && store.saved.Some? then store.saved.value else [];
      var r := RunVerifyChain(p, loaded, 0);
      this.tokenHash := tokenHash;
      claimed := loaded != [];
      log := loaded;
      epoch := if r.Ok? then r.value.epoch else 0;
      headCache, sessions := [], {};
      addrs, profiles, invites, mailbox, pendingPull, sent := map[], map[], map[], map[], map[], map[];
      this.store := store;
    }

    method SaveLog()
      modifies this`store
      ensures Now() == Save(old(Now()))
    {
      if store.File? { store := File(Some(log)); }
    }

    method Roster(p: Primitives) returns (roster: set<DeviceId>)
      ensures roster == RosterOf(p, log)
    {
      if log == [] { return {}; }
      var r := RunVerifyChain(p, log, 0);
      roster := if r.Ok? then r.value.members.Keys else {};
    }

    method Send(d: DeviceId, msg: S2c)
      modifies this`sent
      ensures Now() == SendTo(old(Now()), d, msg)
    {
      if d in sessions { sent := Deliver(sent, d, msg); }
    }

    method BroadcastMembers(roster: set<DeviceId>, except: DeviceId, msg: S2c)
      modifies this`sent
      ensures Now() == Broadcast(old(Now()), roster, except, msg)
    {
      sent := FanOut(sessions, sent, roster, except, msg);
    }

    method Connected(p: Primitives, dev: DeviceId, addr: string)
      modifies this`sessions, this`addrs, this`sent
      ensures Now() == OnConnect(p, old(Now()), dev, addr)
    {
      sessions := sessions + {dev};
      addrs := addrs[dev := addr];
      var roster := Roster(p);
      if dev in roster {
        BroadcastMembers(roster, dev, S2c.Presence(dev, true, Some(addr), Lookup(profiles, dev)));
      }
    }

    method Disconnected(p: Primitives, dev: DeviceId)
      modifies this`sessions, this`addrs, this`sent
      ensures Now() == OnDisconnect(p, old(Now()), dev)
    {
      sessions := sessions - {dev};
      addrs := addrs - {dev};
      var roster := Roster(p);
      BroadcastMembers(roster, dev, S2c.Presence(dev, false, None, None));
    }

    method Presences(roster: set<DeviceId>) returns (list: seq<PresenceEntry>)
      ensures list == PresenceList(Now(), Ascending(roster))
    {
      list := [];
      var rest := roster;
      ghost var done: seq<DeviceId> := [];
      assert done + Ascending(rest) == Ascending(rest);
      while rest != {}
        invariant Traversal(done, rest, roster)
        invariant list == PresenceList(Now(), done)
        decreases |rest|
      {
        var d := LeastOf(rest);
        TraversalStep(done, rest, roster, d);
        assert (done + [d])[..|done|] == done;
        list := list + [PresenceEntry(d, d in sessions, Lookup(addrs, d), Lookup(profiles, d))];
        done := done + [d];
        rest := rest - {d};
      }
      assert done + Ascending(rest) == done;
    }

    method HandleHello(roster: set<DeviceId>, dev: DeviceId, headSeq: nat, headHash: Hash32)
      modifies this`mailbox, this`sent
      ensures Now() == OnHello(old(Now()), roster, dev, headSeq, headHash)
    {
      var tail := if headSeq == 0 && headHash == ZERO_HASH then log else Skip(log, headSeq + 1);
      var presence := Presences(roster);
      var head := headCache;
      var pending := Lookup(mailbox, dev);
      mailbox := mailbox - {dev};
      Send(dev, Welcome(PROTO_MAX, epoch, tail, pending, presence, head));
      if dev in roster {
        BroadcastMembers(roster, dev, S2c.Presence(dev, true, Lookup(addrs, dev), Lookup(profiles, dev)));
      }
    }

    method HandleClipSignal(roster: set<DeviceId>, sig: Signal)
      modifies this`headCache, this`sent
      ensures Now() == OnClipSignal(old(Now()), roster, sig)
    {
      headCache := headCache + [sig];
      while |headCache| > HEAD_CACHE_DEPTH
        invariant LastN(headCache, HEAD_CACHE_DEPTH) == LastN(old(headCache) + [sig], HEAD_CACHE_DEPTH)
        invariant sent == old(sent)
        decreases |headCache|
      {
        headCache := headCache[1..];
      }
      BroadcastMembers(roster, sig.origin, SignalFanout(sig));
    }

    method HandleContentRequest(dev: DeviceId, id: ContentId)
      modifies this`pendingPull, this`sent
      ensures Now() == OnContentRequest(old(Now()), dev, id)
    {
      var found := FindSignal(headCache, id);
      if found.Some? {
        pendingPull := pendingPull[id := dev];
        Send(found.value.origin, ContentPull(id));
      } else {
        Send(dev, S2c.ContentReject(id, Gone));
      }
    }

    method PassOn(id: ContentId, msg: S2c, closing: bool)
      modifies this`pendingPull, this`sent
      ensures Now() == Forward(old(Now()), id, msg, closing)
    {
      if id in pendingPull {
        var req := pendingPull[id];
        if closing { pendingPull := pendingPull - {id}; }
        Send(req, msg);
      }
    }

    method HandleTransfer(msg: C2s)
      requires IsTransfer(msg)
      modifies this`pendingPull, this`sent
      ensures Now() == OnTransfer(old(Now()), msg)
    {
      match msg
      case ContentBegin(id, size, count, chunk) => PassOn(id, S2c.ContentBegin(id, size, count, chunk), false);
      case ContentChunk(id, index, data) => PassOn(id, S2c.ContentChunk(id, index, data), false);
      case ContentReject(id, reason) => PassOn(id, S2c.ContentReject(id, reason), true);
      case ContentAbort(id, reason) => PassOn(id, S2c.ContentAbort(id, reason), true);
    }

    method Found(genesis: Bytes)
      modifies this`log, this`claimed, this`epoch, this`store
      ensures Now() == Founded(old(Now()), genesis)
    {
      log := [genesis];
      claimed := true;
      epoch := 0;
      SaveLog();
    }

    method HandleClaim(p: Primitives, dev: DeviceId, token: Bytes, genesis: Bytes) returns (open: bool)
      modifies this`log, this`claimed, this`epoch, this`store, this`sent
      ensures Now() == OnClaim(p, old(Now()), dev, token, genesis)
      ensures open == JudgeClaim(p, old(Now()), token, genesis).StaysOpen()
    {
      hide VerifyChain, Founded, SendTo;
      if claimed {
        Send(dev, S2c.Error(ProtocolError));
        return true;
      }
      if tokenHash.Some? && p.sha256(token) != tokenHash.value {
        Send(dev, S2c.Error(NotMember));
        return false;
      }
      var r := RunVerifyChain(p, [genesis], 0);
      if r.Err? {
        Send(dev, S2c.Error(ProtocolError));
        return false;
      }
      Found(genesis);
      Send(dev, AppendAck(0, r.value.headHash));
      open := true;
    }

    method Append(p: Primitives, entry: Bytes, epoch: nat)
      modifies this`log, this`epoch, this`headCache, this`store
      ensures Now() == Appended(p, old(Now()), entry, epoch)
    {
      log := log + [entry];
      this.epoch := epoch;
      SaveLog();
      if DecodesToEpoch(p, entry) { headCache := []; }
    }

    method Announce(p: Primitives, dev: DeviceId, entry: Bytes, v: VerifiedLog)
      modifies this`sent
      ensures Now() == Announced(p, old(Now()), dev, entry, v)
    {
      hide RosterOf, SendTo, Broadcast;
      Send(dev, AppendAck(v.headSeq, v.headHash));
      var roster := Roster(p);
      BroadcastMembers(roster, dev, LogAppended(entry, v.headSeq));
    }

    method HandleAppend(p: Primitives, dev: DeviceId, member: bool, entry: Bytes)
      modifies this`log, this`epoch, this`headCache, this`store, this`sent
      ensures Now() == OnAppend(p, old(Now()), dev, member, entry)
    {
      hide VerifyChain, Appended, Announced, SendTo, DecodesToAdd;
      if !member && !DecodesToAdd(p, entry) {
        Send(dev, AppendReject(NotAuthorized));
        return;
      }
      var trial := log + [entry];
      var r := RunVerifyChain(p, trial, 0);
      if r.Ok? && r.value.accepted == |trial| {
        Append(p, entry, r.value.epoch);
        Announce(p, dev, entry, r.value);
      } else {
        Send(dev, AppendReject(Conflict));
      }
    }

    method HandleKeyUpdates(updates: seq<KeyUpdate>)
      modifies this`mailbox, this`sent
      ensures Now() == OnKeyUpdates(old(Now()), updates)
    {
      var i := 0;
      while i < |updates|
        invariant 0 <= i <= |updates|
        invariant Now() == OnKeyUpdates(old(Now()), updates[..i])
      {
        var u := updates[i];
        assert updates[..i + 1][..i] == updates[..i];
        if u.to in sessions { Send(u.to, KeyUpdatePush(u.wrap)); } else { mailbox := mailbox[u.to := u.wrap]; }
        i := i + 1;
      }
      assert updates[..i] == updates;
    }

    method HandleGetInvite(dev: DeviceId, locator: Locator)
      modifies this`sent
      ensures Now() == OnGetInvite(old(Now()), dev, locator)
    {
      Send(dev, InviteBlob(if locator in invites then Some(invites[locator]) else None));
    }

    method HandleSetProfile(roster: set<DeviceId>, dev: DeviceId, profile: Bytes)
      modifies this`profiles, this`sent
      ensures Now() == OnSetProfile(old(Now()), roster, dev, profile)
    {
      profiles := profiles[dev := profile];
      BroadcastMembers(roster, dev, S2c.Presence(dev, true, Lookup(addrs, dev), Some(profile)));
    }

    method HandleOpen(p: Primitives, dev: DeviceId, member: bool, msg: C2s) returns (open: bool)
      requires GuestMay(msg)
      modifies this
      ensures (Now(), open) == OnOpenMessage(p, old(Now()), dev, member, msg)
    {
      hide OnClaim, JudgeClaim, OnAppend, OnGetInvite, SendTo;
      open := true;
      match msg
      case ClaimWorkspace(token, genesis) => open := HandleClaim(p, dev, token, genesis);
      case GetLog(from) => Send(dev, LogEntries(Skip(log, from)));
      case AppendEntry(entry) => HandleAppend(p, dev, member, entry);
      case GetInviteBlob(locator) => HandleGetInvite(dev, locator);
    }

    method HandleMember(roster: set<DeviceId>, dev: DeviceId, msg: C2s) returns (open: bool)
      requires !GuestMay(msg)
      modifies this
      ensures (Now(), open) == OnMemberMessage(old(Now()), roster, dev, msg)
    {
      hide OnHello, OnClipSignal, OnContentRequest, OnTransfer, OnKeyUpdates, OnSetProfile, SendTo;
      open := true;
      if IsTransfer(msg) {
        HandleTransfer(msg);
        return;
      }
      match msg
      case Hello(lo, hi, headSeq, headHash) =>
        if hi < PROTO_MIN || lo > PROTO_MAX {
          Send(dev, S2c.Error(VersionIncompatible));
          return false;
        }
        HandleHello(roster, dev, headSeq, headHash);
      case ClipSignal(hdr, e2e) => HandleClipSignal(roster, Signal(dev, hdr, e2e));
      case ContentRequest(id) => HandleContentRequest(dev, id);
      case PutInvite(locator, blob) => invites := invites[locator := blob];
      case RevokeInvite(locator) => invites := invites - {locator};
      case PutKeyUpdate(updates) => HandleKeyUpdates(updates);
      case SetProfile(profile) => HandleSetProfile(roster, dev, profile);
      case Ping(nonce) => Send(dev, Pong(nonce));
      case Leave => return false;
      case Bye => return false;
    }

    method HandleMessage(p: Primitives, dev: DeviceId, msg: C2s) returns (open: bool)
      modifies this
      ensures (Now(), open) == Handle(p, old(Now()), dev, msg)
    {
      hide OnOpenMessage, OnMemberMessage, RosterOf, SendTo;
      var roster := Roster(p);
      if dev !in roster && !GuestMay(msg) {
        Send(dev, S2c.Error(NotMember));
        return true;
      }
      if GuestMay(msg) {
        open := HandleOpen(p, dev, dev in roster, msg);
      } else {
        open := HandleMember(roster, dev, msg);
      }
    }
  }
}
