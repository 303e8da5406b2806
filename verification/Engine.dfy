/** The sync engine: local copies become signals, peers' signals and fetched bodies are applied by
    last-writer-wins. */
module Engine {
  import opened ByteStrings
  import opened Wrappers
  import opened Wire
  import opened Lww
  import Suppress
  import History
  import SendCache

  const INLINE_THRESHOLD: nat := 32 * 1024
  const ZSTD_THRESHOLD: nat := 4 * 1024

  /** The sealed part of a signal. */
  datatype SignalBody = SignalBody(
    kind: ContentKind,
    plainSize: nat,
    lamport: nat,
    wallTs: nat,
    origin: DeviceId,
    compressed: bool,
    inlined: Option<Bytes>)

  /** Keyed BLAKE3, XChaCha20-Poly1305 under the group key's two sealing subkeys, CBOR, zstd and the
      preview text, left uninterpreted. */
  datatype Tools = Tools(
    contentId: (Hash32, Bytes) -> ContentId,
    sealSignal: (Hash32, Bytes, Bytes, Bytes) -> Option<Bytes>,   // key, AAD, plaintext, nonce
    openSignal: (Hash32, Bytes, Bytes) -> Option<Bytes>,          // key, AAD, sealed
    sealBody: (Hash32, Bytes, Bytes, Bytes) -> Option<Bytes>,
    openBody: (Hash32, Bytes, Bytes) -> Option<Bytes>,
    encodeHdr: SignalHdr -> Bytes,
    encodeBody: SignalBody -> Bytes,
    decodeBody: Bytes -> Option<SignalBody>,
    zip: Bytes -> Option<Bytes>,
    unzip: Bytes -> Option<Bytes>,
    preview: (ContentKind, Bytes) -> string)

  datatype Config = Config(enabled: bool, syncText: bool, syncImages: bool, syncFiles: bool, maxContentBytes: nat)

  datatype PendingFetch = PendingFetch(key: LwwKey, kind: ContentKind, origin: DeviceId, epoch: nat, compressed: bool)

  datatype State = State(
    me: DeviceId,
    gk: GroupKey,
    cfg: Config,
    clock: Clock,
    suppress: Suppress.Suppression,
    items: seq<History.HistoryItem>,
    cap: nat,
    cache: SendCache.Cache,
    pending: map<ContentId, PendingFetch>)

  datatype OutgoingSignal = OutgoingSignal(hdr: SignalHdr, e2e: Bytes, bodyCt: Bytes)

  datatype LocalOutcome = Emit(sig: OutgoingSignal) | Echo | Disabled | KindDisabled | TooLarge | SealFailed

  datatype IgnoreReason = SyncOff | EpochMismatch | OpenFailed | Malformed | OriginMismatch | Superseded

  datatype RemoteDecision =
    | ApplyInline(id: ContentId, kind: ContentKind, plaintext: Bytes)
    | NeedFetch(id: ContentId, kind: ContentKind, ctSize: nat)
    | Ignore(reason: IgnoreReason)

  datatype FetchError = NoPending | BodyOpenFailed | Decompress | CidMismatch

  datatype AppliedContent = AppliedContent(id: ContentId, kind: ContentKind, plaintext: Bytes)

  // ----- Encodings -----

  function LeBytes(n: nat, width: nat): Bytes {
    if width == 0 then [] else [n % 0x100] + LeBytes(n / 0x100, width - 1)
  }

  function SignalAad(q: Tools, hdr: SignalHdr, origin: DeviceId): Bytes {
    q.encodeHdr(hdr) + origin
  }

  function BodyAad(id: ContentId, epoch: nat): Bytes {
    id + LeBytes(epoch, 8)
  }

  /** Text over 4 KiB is compressed when that makes it smaller. */
  function MaybeCompress(q: Tools, kind: ContentKind, plaintext: Bytes): (Bytes, bool) {
    if kind == Text && |plaintext| > ZSTD_THRESHOLD && q.zip(plaintext).Some? && |q.zip(plaintext).value| < |plaintext|
    then (q.zip(plaintext).value, true)
    else (plaintext, false)
  }

  function MaybeDecompress(q: Tools, bytes: Bytes, compressed: bool): Option<Bytes> {
    if compressed then q.unzip(bytes) else Some(bytes)
  }

  function Remember(q: Tools, s: State, id: ContentId, kind: ContentKind, origin: History.Origin, plaintext: Bytes,
                    now: nat): (t: State)
    ensures t == s.(items := t.items)
  {
    var item := History.HistoryItem(id, kind, origin, |plaintext|, now, q.preview(kind, plaintext), false);
    s.(items := History.AddItem(s.items, s.cap, item))
  }

  // ----- Local copies -----

  predicate KindEnabled(cfg: Config, kind: ContentKind) {
    match kind
    case Text => cfg.syncText
    case ImagePng => cfg.syncImages
    case Files => cfg.syncFiles
  }

  function HeaderOf(s: State, id: ContentId, bodyCt: Bytes): SignalHdr {
    SignalHdr(id, s.gk.epoch, |bodyCt|)
  }

  /** The sealed part of a local copy published at Lamport time `lamport`. */
  function BodyOf(q: Tools, me: DeviceId, kind: ContentKind, plaintext: Bytes, lamport: nat, now: nat): SignalBody {
    var (bytes, compressed) := MaybeCompress(q, kind, plaintext);
    SignalBody(kind, |plaintext|, lamport, now, me, compressed,
               if kind == Text && |bytes| <= INLINE_THRESHOLD then Some(bytes) else None)
  }

  /** Ticks the clock, seals, and records the emitted clip as applied and served. */
  function Publish(q: Tools, s: State, id: ContentId, kind: ContentKind, plaintext: Bytes, now: nat,
                   nonces: (Bytes, Bytes))
    : (r: (State, LocalOutcome))
    ensures r.0 == s.(clock := r.0.clock, cache := r.0.cache)
  {
    var lamport := s.clock.lamport + 1;
    var s1 := s.(clock := s.clock.(lamport := lamport));
    match q.sealBody(s.gk.key, BodyAad(id, s.gk.epoch), MaybeCompress(q, kind, plaintext).0, nonces.0)
    case None => (s1, SealFailed)
    case Some(bodyCt) =>
      var hdr := HeaderOf(s, id, bodyCt);
      var body := BodyOf(q, s.me, kind, plaintext, lamport, now);
      match q.sealSignal(s.gk.key, SignalAad(q, hdr, s.me), q.encodeBody(body), nonces.1)
      case None => (s1, SealFailed)
      case Some(e2e) =>
        (s1.(clock := s1.clock.(current := Some(LwwKey(lamport, now, s.me))),
             cache := SendCache.Put(s.cache, id, bodyCt, now)),
         Emit(OutgoingSignal(hdr, e2e, bodyCt)))
  }

  function OnLocal(q: Tools, s: State, kind: ContentKind, plaintext: Bytes, now: nat, nonces: (Bytes, Bytes))
    : (r: (State, LocalOutcome))
    ensures r.0 == s.(clock := r.0.clock, suppress := r.0.suppress, items := r.0.items, cache := r.0.cache)
  {
    var id := q.contentId(s.gk.key, plaintext);
    var s1 := s.(suppress := Suppress.Collect(s.suppress, now));
    if id in s1.suppress.grace then (s1, Echo) else
      var s2 := Remember(q, s1, id, kind, History.Local, plaintext, now);
      if !s.cfg.enabled then (s2, Disabled)
      else if !KindEnabled(s.cfg, kind) then (s2, LocalOutcome.KindDisabled)
      else if |plaintext| > s.cfg.maxContentBytes then (s2, LocalOutcome.TooLarge)
      else Publish(q, s2, id, kind, plaintext, now, nonces)
  }

  // ----- Peers' signals -----

  function ApplyIncoming(q: Tools, s: State, id: ContentId, kind: ContentKind, content: Bytes, key: LwwKey,
                         origin: DeviceId, now: nat): (t: State)
    ensures t == s.(clock := Apply(s.clock, key), suppress := t.suppress, items := t.items)
  {
    var s1 := s.(suppress := Suppress.Register(s.suppress, id, now), clock := Apply(s.clock, key));
    Remember(q, s1, id, kind, History.Peer(origin), content, now)
  }

  /** What a signal says once opened, or why it is ignored. */
  function OpenedBody(q: Tools, s: State, sig: Signal): Result<SignalBody, IgnoreReason> {
    if !s.cfg.enabled then Err(SyncOff)
    else if sig.hdr.epoch != s.gk.epoch then Err(EpochMismatch)
    else match q.openSignal(s.gk.key, SignalAad(q, sig.hdr, sig.origin), sig.e2e)
      case None => Err(OpenFailed)
      case Some(plain) =>
        match q.decodeBody(plain)
        case None => Err(IgnoreReason.Malformed)
        case Some(body) => if body.origin != sig.origin then Err(OriginMismatch) else Ok(body)
  }

  function KeyOf(body: SignalBody, origin: DeviceId): LwwKey {
    LwwKey(body.lamport, body.wallTs, origin)
  }

  /** A body that is newer than what is applied. */
  function TakeBody(q: Tools, s: State, sig: Signal, body: SignalBody, now: nat): (r: (State, RemoteDecision))
    ensures r.0 == s.(clock := r.0.clock, suppress := r.0.suppress, items := r.0.items, pending := r.0.pending)
  {
    var id, key := sig.hdr.id, KeyOf(body, sig.origin);
    match body.inlined
    case None =>
      (s.(pending := s.pending[id := PendingFetch(key, body.kind, sig.origin, sig.hdr.epoch, body.compressed)]),
       NeedFetch(id, body.kind, sig.hdr.ctSize))
    case Some(bytes) =>
      match MaybeDecompress(q, bytes, body.compressed)
      case None => (s, Ignore(IgnoreReason.Malformed))
      case Some(content) =>
        if q.contentId(s.gk.key, content) != id then (s, Ignore(IgnoreReason.Malformed))
        else (ApplyIncoming(q, s, id, body.kind, content, key, sig.origin, now), ApplyInline(id, body.kind, content))
  }

  function OnRemote(q: Tools, s: State, sig: Signal, now: nat): (r: (State, RemoteDecision))
    ensures r.0 == s.(clock := r.0.clock, suppress := r.0.suppress, items := r.0.items, pending := r.0.pending)
  {
    match OpenedBody(q, s, sig)
    case Err(reason) => (s, Ignore(reason))
    case Ok(body) =>
      var s1 := s.(clock := Merge(s.clock, body.lamport));
      if !WouldApply(s1.clock, KeyOf(body, sig.origin)) then (s1, Ignore(IgnoreReason.Superseded))
      else TakeBody(q, s1, sig, body, now)
  }

  // ----- Fetched bodies -----

  function OnFetched(q: Tools, s: State, id: ContentId, sealed: Bytes, now: nat)
    : (r: (State, Result<AppliedContent, FetchError>))
    ensures r.0 == s.(clock := r.0.clock, suppress := r.0.suppress, items := r.0.items, pending := s.pending - {id})
  {
    if id !in s.pending then
      assert s.pending - {id} == s.pending;
      (s, Err(NoPending))
    else
      var f := s.pending[id];
      var s1 := s.(pending := s.pending - {id});
      match q.openBody(s.gk.key, BodyAad(id, f.epoch), sealed)
      case None => (s1, Err(BodyOpenFailed))
      case Some(bytes) =>
        match MaybeDecompress(q, bytes, f.compressed)
        case None => (s1, Err(Decompress))
        case Some(content) =>
          if q.contentId(s.gk.key, content) != id then (s1, Err(CidMismatch))
          else (ApplyIncoming(q, s1, id, f.kind, content, f.key, f.origin, now),
                Ok(AppliedContent(id, f.kind, content)))
  }

  function Rekeyed(s: State, gk: GroupKey): State {
    s.(gk := gk, pending := map[])
  }

  // ----- The engine object -----

  class SyncEngine {
    const me: DeviceId
    var gk: GroupKey
    var cfg: Config
    const lww: LwwState
    const suppress: Suppress.SuppressSet
    const history: History.HistoryBuffer
    const sendCache: SendCache.SendCacheState
    var pending: map<ContentId, PendingFetch>

    ghost function Now(): State
      reads this, lww, suppress, history, sendCache
    {
      State(me, gk, cfg, lww.Now(), suppress.Now(), history.items, history.cap, sendCache.Now(), pending)
    }

    ghost predicate Valid()
      reads this, lww, suppress, history, sendCache
    {
      suppress.Valid() && history.Valid() && SendCache.InAgreement(sendCache.Now())
    }

    constructor (me: DeviceId, gk: GroupKey, cfg: Config, historyCap: nat)
      ensures Valid() && fresh(lww) && fresh(suppress) && fresh(history) && fresh(sendCache)
      ensures Now() == State(me, gk, cfg, Clock(0, None), Suppress.Suppression(map[], []), [],
                             if historyCap >= 1 then historyCap else 1, SendCache.EMPTY, map[])
    {
      this.me, this.gk, this.cfg := me, gk, cfg;
      lww := new LwwState(me);
      suppress := new Suppress.SuppressSet();
      history := new History.HistoryBuffer(historyCap);
      sendCache := new SendCache.SendCacheState();
      pending := map[];
    }

    method SetGroupKey(gk: GroupKey)
      modifies this`gk, this`pending
      ensures Now() == Rekeyed(old(Now()), gk)
    {
      this.gk := gk;
      pending := map[];
    }

    method SetEnabled(on: bool)
      modifies this`cfg
      ensures Now() == old(Now()).(cfg := old(cfg).(enabled := on))
    {
      cfg := cfg.(enabled := on);
    }

    method ServeContent(id: ContentId, now: nat) returns (body: Option<Bytes>)
      ensures body == SendCache.Get(Now().cache, id, now)
    {
      body := sendCache.Fetch(id, now);
    }

    method AddHistory(q: Tools, id: ContentId, kind: ContentKind, origin: History.Origin, plaintext: Bytes, now: nat)
      requires Valid()
      modifies history
      ensures Valid() && Now() == Remember(q, old(Now()), id, kind, origin, plaintext, now)
    {
      history.Add(History.HistoryItem(id, kind, origin, |plaintext|, now, q.preview(kind, plaintext), false));
    }

    method OnLocalClipboard(q: Tools, kind: ContentKind, plaintext: Bytes, now: nat, nonces: (Bytes, Bytes))
      returns (r: LocalOutcome)
      requires Valid()
      modifies lww, suppress, history, sendCache
      ensures Valid() && (Now(), r) == OnLocal(q, old(Now()), kind, plaintext, now, nonces)
    {
      hide Publish, Remember, Suppress.Collect;
      var id := q.contentId(gk.key, plaintext);
      var echo := suppress.ShouldSuppress(id, now);
      if echo { return Echo; }
      AddHistory(q, id, kind, History.Local, plaintext, now);
      if !cfg.enabled { return Disabled; }
      if !KindEnabled(cfg, kind) { return LocalOutcome.KindDisabled; }
      if |plaintext| > cfg.maxContentBytes { return LocalOutcome.TooLarge; }
      r := PublishClip(q, id, kind, plaintext, now, nonces);
    }

    method PublishClip(q: Tools, id: ContentId, kind: ContentKind, plaintext: Bytes, now: nat, nonces: (Bytes, Bytes))
      returns (r: LocalOutcome)
      requires Valid()
      modifies lww, sendCache
      ensures Valid() && (Now(), r) == Publish(q, old(Now()), id, kind, plaintext, now, nonces)
    {
      hide MaybeCompress, SignalAad, BodyAad, SendCache.Put;
      var lamport := lww.Tick();
      var (bytes, compressed) := MaybeCompress(q, kind, plaintext);
      var sealed := q.sealBody(gk.key, BodyAad(id, gk.epoch), bytes, nonces.0);
      if sealed.None? { return SealFailed; }
      var hdr := SignalHdr(id, gk.epoch, |sealed.value|);
      var inlined := if kind == Text && |bytes| <= INLINE_THRESHOLD then Some(bytes) else None;
      var body := SignalBody(kind, |plaintext|, lamport, now, me, compressed, inlined);
      var e2e := q.sealSignal(gk.key, SignalAad(q, hdr, me), q.encodeBody(body), nonces.1);
      if e2e.None? { return SealFailed; }
      lww.SetCurrent(LwwKey(lamport, now, me));
      sendCache.Store(id, sealed.value, now);
      r := Emit(OutgoingSignal(hdr, e2e.value, sealed.value));
    }

    method OnRemoteSignal(q: Tools, sig: Signal, now: nat) returns (r: RemoteDecision)
      requires Valid()
      modifies this`pending, lww, suppress, history
      ensures Valid() && (Now(), r) == OnRemote(q, old(Now()), sig, now)
    {
      hide ApplyIncoming, SignalAad, MaybeDecompress, KeyLess;
      if !cfg.enabled { return Ignore(SyncOff); }
      if sig.hdr.epoch != gk.epoch { return Ignore(EpochMismatch); }
      var plain := q.openSignal(gk.key, SignalAad(q, sig.hdr, sig.origin), sig.e2e);
      if plain.None? { return Ignore(OpenFailed); }
      var decoded := q.decodeBody(plain.value);
      if decoded.None? { return Ignore(IgnoreReason.Malformed); }
      var body := decoded.value;
      if body.origin != sig.origin { return Ignore(OriginMismatch); }
      lww.MergeLamport(body.lamport);
      var key := LwwKey(body.lamport, body.wallTs, sig.origin);
      if !WouldApply(lww.Now(), key) { return Ignore(IgnoreReason.Superseded); }
      if body.inlined.Some? {
        var content := MaybeDecompress(q, body.inlined.value, body.compressed);
        if content.None? { return Ignore(IgnoreReason.Malformed); }
        if q.contentId(gk.key, content.value) != sig.hdr.id { return Ignore(IgnoreReason.Malformed); }
        ApplyContent(q, sig.hdr.id, body.kind, content.value, key, sig.origin, now);
        r := ApplyInline(sig.hdr.id, body.kind, content.value);
      } else {
        pending := pending[sig.hdr.id := PendingFetch(key, body.kind, sig.origin, sig.hdr.epoch, body.compressed)];
        r := NeedFetch(sig.hdr.id, body.kind, sig.hdr.ctSize);
      }
    }

    method OnContentFetched(q: Tools, id: ContentId, sealed: Bytes, now: nat)
      returns (r: Result<AppliedContent, FetchError>)
      requires Valid()
      modifies this`pending, lww, suppress, history
      ensures Valid() && (Now(), r) == OnFetched(q, old(Now()), id, sealed, now)
    {
      hide ApplyIncoming, BodyAad, MaybeDecompress;
      if id !in pending { return Err(NoPending); }
      var f := pending[id];
      pending := pending - {id};
      var bytes := q.openBody(gk.key, BodyAad(id, f.epoch), sealed);
      if bytes.None? { return Err(BodyOpenFailed); }
      var content := MaybeDecompress(q, bytes.value, f.compressed);
      if content.None? { return Err(Decompress); }
      if q.contentId(gk.key, content.value) != id { return Err(CidMismatch); }
      ApplyContent(q, id, f.kind, content.value, f.key, f.origin, now);
      r := Ok(AppliedContent(id, f.kind, content.value));
    }

    method ApplyContent(q: Tools, id: ContentId, kind: ContentKind, content: Bytes, key: LwwKey, origin: DeviceId,
                        now: nat)
      requires Valid()
      modifies lww, suppress, history
      ensures Valid() && Now() == ApplyIncoming(q, old(Now()), id, kind, content, key, origin, now)
    {
      suppress.RegisterId(id, now);
      if WouldApply(lww.Now(), key) { lww.SetCurrent(key); }
      AddHistory(q, id, kind, History.Peer(origin), content, now);
    }
  }
}
