/** When the engine sends, applies, fetches or ignores a clip, with its settings, checks and sealed bytes
    written out. */
module EngineRules {
  import opened ByteStrings
  import opened Wrappers
  import opened Wire
  import opened Lww
  import opened Engine
  import opened EngineRuns
  import Suppress
  import History
  import SendCache

  // ----- Local copies -----

  /** The setting of the clip's own kind. */
  predicate KindIsOn(cfg: Config, kind: ContentKind) {
    (kind == Text ==> cfg.syncText) && (kind == ImagePng ==> cfg.syncImages) && (kind == Files ==> cfg.syncFiles)
  }

  /** What becomes of a local copy, and why: it is an echo while its id is suppressed; else it is refused
      for the first of the three settings it fails; else it is sent, unless sealing fails. */
  lemma CopyOutcome(q: Tools, s: State, kind: ContentKind, plaintext: Bytes, now: nat, nonces: (Bytes, Bytes))
    ensures var id := q.contentId(s.gk.key, plaintext);
            var echo := id in s.suppress.grace && now < s.suppress.grace[id];
            var r := OnLocal(q, s, kind, plaintext, now, nonces).1;
            && (r.Echo? <==> echo)
            && (r.Disabled? <==> !echo && !s.cfg.enabled)
            && (r.KindDisabled? <==> !echo && s.cfg.enabled && !KindIsOn(s.cfg, kind))
            && (r.TooLarge? <==>
                  !echo && s.cfg.enabled && KindIsOn(s.cfg, kind) && |plaintext| > s.cfg.maxContentBytes)
            && (r.Emit? || r.SealFailed? <==>
                  !echo && s.cfg.enabled && KindIsOn(s.cfg, kind) && |plaintext| <= s.cfg.maxContentBytes)
  {
    hide Remember, SendCache.Put, MaybeCompress, SignalAad, BodyAad, BodyOf;
  }

  /** A copy is sent only with sync on, its own kind on, and within the size limit. */
  lemma SentOnlyIfAllowed(q: Tools, s: State, kind: ContentKind, plaintext: Bytes, now: nat, nonces: (Bytes, Bytes))
    ensures OnLocal(q, s, kind, plaintext, now, nonces).1.Emit? ==>
              && s.cfg.enabled
              && (match kind
                  case Text => s.cfg.syncText
                  case ImagePng => s.cfg.syncImages
                  case Files => s.cfg.syncFiles)
              && |plaintext| <= s.cfg.maxContentBytes
  {
    CopyOutcome(q, s, kind, plaintext, now, nonces);
    hide OnLocal;
  }

  /** A copy that may not be sent leaves the clock and the send cache as they were; unless it is an echo, it
      still comes first in the history, before that is cut to its capacity. */
  lemma UnsentCopy(q: Tools, s: State, kind: ContentKind, plaintext: Bytes, now: nat, nonces: (Bytes, Bytes))
    requires !s.cfg.enabled || |plaintext| > s.cfg.maxContentBytes ||
             match kind case Text => !s.cfg.syncText case ImagePng => !s.cfg.syncImages case Files => !s.cfg.syncFiles
    ensures var id := q.contentId(s.gk.key, plaintext);
            var echo := id in s.suppress.grace && now < s.suppress.grace[id];
            var t := OnLocal(q, s, kind, plaintext, now, nonces).0;
            && t == s.(suppress := t.suppress, items := t.items)
            && (echo ==> t.items == s.items)
            && (!echo ==>
                  var item := History.HistoryItem(id, kind, History.Local, |plaintext|, now, q.preview(kind, plaintext),
                                                  false);
                  var uncut := [item] + History.WithoutId(s.items, id);
                  t.items == History.KeepNewest(uncut, History.Quota(uncut, s.cap)))
  {
    hide SendCache.Put, MaybeCompress, SignalAad, BodyAad, BodyOf, Publish;
  }

  lemma {:induction false} StandsStillWhileOff(q: Tools, s: State, es: seq<Event>)
    requires !s.cfg.enabled && forall i | 0 <= i < |es| :: es[i].LocalCopy? || es[i].RemoteSignal?
    ensures var t := Run(q, s, es); t == s.(suppress := t.suppress, items := t.items)
    decreases |es|
  {
    hide Step, Inert;
    if es != [] {
      StandsStillWhileOff(q, s, es[..|es| - 1]);
      InertWhileOff(q, Run(q, s, es[..|es| - 1]), es[|es| - 1]);
    }
  }

  /** While sync is off no copy is sent and no signal applied, however long; clock, send cache and pending
      fetches stand still over copies and signals. */
  lemma NothingMovesWhileOff(q: Tools, s: State, es: seq<Event>, i: nat)
    requires !s.cfg.enabled && forall j | 0 <= j < |es| :: es[j].LocalCopy? || es[j].RemoteSignal?
    ensures var t := Run(q, s, es); t == s.(suppress := t.suppress, items := t.items)
    ensures i < |es| ==> Inert(q, Run(q, s, es[..i]), es[i])
  {
    hide Run, Inert;
    StandsStillWhileOff(q, s, es);
    if i < |es| {
      StandsStillWhileOff(q, s, es[..i]);
      InertWhileOff(q, Run(q, s, es[..i]), es[i]);
    }
  }

  /** The event sends nothing and applies nothing. */
  predicate Inert(q: Tools, s: State, e: Event) {
    match e
    case LocalCopy(kind, plaintext, at, nonces) => !OnLocal(q, s, kind, plaintext, at, nonces).1.Emit?
    case RemoteSignal(sig, at) => OnRemote(q, s, sig, at) == (s, Ignore(SyncOff))
    case _ => false
  }

  lemma InertWhileOff(q: Tools, s: State, e: Event)
    requires !s.cfg.enabled && (e.LocalCopy? || e.RemoteSignal?)
    ensures Inert(q, s, e)
    ensures var t := Step(q, s, e); t == s.(suppress := t.suppress, items := t.items)
  {
    match e
    case LocalCopy(kind, plaintext, at, nonces) =>
      CopyOutcome(q, s, kind, plaintext, at, nonces);
      UnsentCopy(q, s, kind, plaintext, at, nonces);
      hide OnLocal;
    case RemoteSignal(_, _) =>
  }

  // ----- What is sealed -----

  /** An epoch in associated data: eight bytes, least significant first, cut to 64 bits. */
  lemma EpochBytes(n: nat)
    ensures LeBytes(n, 8) == [n % 256, n / 0x100 % 256, n / 0x1_0000 % 256, n / 0x100_0000 % 256,
                              n / 0x1_0000_0000 % 256, n / 0x100_0000_0000 % 256, n / 0x1_0000_0000_0000 % 256,
                              n / 0x100_0000_0000_0000 % 256]
  {
    var a := n / 256;
    var b := a / 256;
    var c := b / 256;
    var d := c / 256;
    var e := d / 256;
    var f := e / 256;
    var g := f / 256;
    assert b == n / 0x1_0000 && c == n / 0x100_0000 && d == n / 0x1_0000_0000;
    assert e == n / 0x100_0000_0000 && f == n / 0x1_0000_0000_0000 && g == n / 0x100_0000_0000_0000;
    assert LeBytes(g, 1) == [g % 256];
    assert LeBytes(e, 3) == [e % 256, f % 256, g % 256];
    assert LeBytes(c, 5) == [c % 256, d % 256] + LeBytes(e, 3);
    assert LeBytes(a, 7) == [a % 256, b % 256] + LeBytes(c, 5);
  }

  /** What a sent copy consists of: the clip, deflated only if it is text of more than 4 KiB that gets
      smaller, sealed and bound to its id and epoch; and a body that names its kind, size, clock times and
      sender, carries a text of at most 32 KiB whole, and is sealed and bound to header and sender. The
      copy advances the clock by one, counts as applied at once, and is kept for five minutes. */
  lemma SentCopy(q: Tools, s: State, kind: ContentKind, plaintext: Bytes, now: nat, nonces: (Bytes, Bytes))
    requires OnLocal(q, s, kind, plaintext, now, nonces).1.Emit?
    ensures var (t, r) := OnLocal(q, s, kind, plaintext, now, nonces);
            var id, hdr := q.contentId(s.gk.key, plaintext), r.sig.hdr;
            var zipped := q.zip(plaintext);
            var smaller := kind == Text && |plaintext| > 4096 && zipped.Some? && |zipped.value| < |plaintext|;
            var bytes := if smaller then zipped.value else plaintext;
            var lamport := s.clock.lamport + 1;
            var body := SignalBody(kind, |plaintext|, lamport, now, s.me, smaller,
                                   if kind == Text && |bytes| <= 32768 then Some(bytes) else None);
            && hdr == SignalHdr(id, s.gk.epoch, |r.sig.bodyCt|)
            && q.sealBody(s.gk.key, id + LeBytes(s.gk.epoch, 8), bytes, nonces.0) == Some(r.sig.bodyCt)
            && q.sealSignal(s.gk.key, q.encodeHdr(hdr) + s.me, q.encodeBody(body), nonces.1) == Some(r.sig.e2e)
            && t.clock == Clock(lamport, Some(LwwKey(lamport, now, s.me)))
  {
    hide Remember, Suppress.Collect, SendCache.Put, LeBytes;
  }

  // ----- Peers' signals -----

  /** `body` is what signal `sig` says: it opens under the key, bound to its header and origin, in the
      present epoch, and names that origin. */
  ghost predicate Says(q: Tools, s: State, sig: Signal, body: SignalBody) {
    var plain := q.openSignal(s.gk.key, q.encodeHdr(sig.hdr) + sig.origin, sig.e2e);
    && sig.hdr.epoch == s.gk.epoch
    && plain.Some? && q.decodeBody(plain.value) == Some(body)
    && body.origin == sig.origin
  }

  /** `key` is newer than what is applied. */
  ghost predicate Newer(current: Option<LwwKey>, key: LwwKey) {
    current.Some? ==>
      var k := current.value;
      || k.lamport < key.lamport
      || (k.lamport == key.lamport && k.wallTs < key.wallTs)
      || (k.lamport == key.lamport && k.wallTs == key.wallTs &&
          exists j | 0 <= j < 32 :: k.origin[..j] == key.origin[..j] && k.origin[j] < key.origin[j])
  }

  lemma NewerIff(c: Clock, key: LwwKey)
    ensures WouldApply(c, key) <==> Newer(c.current, key)
  {
    if c.current.Some? {
      LexLessIff(c.current.value.origin, key.origin);
      hide LexLess;
    }
  }

  /** The whole clip, when the body carries it and it has the id it claims. */
  ghost predicate Carries(q: Tools, s: State, id: ContentId, body: SignalBody, clip: Bytes) {
    && body.inlined.Some?
    && (if body.compressed then q.unzip(body.inlined.value) == Some(clip) else body.inlined.value == clip)
    && q.contentId(s.gk.key, clip) == id
  }

  /** A signal is applied exactly when sync is on, it opens to a body of its own epoch and origin, that is
      newer than what is applied, and carries the clip its id names. */
  lemma AppliedIff(q: Tools, s: State, sig: Signal, now: nat)
    ensures var r := OnRemote(q, s, sig, now).1;
            && (r.ApplyInline? <==>
                  s.cfg.enabled && exists body, clip ::
                    Says(q, s, sig, body) && Newer(s.clock.current, LwwKey(body.lamport, body.wallTs, sig.origin)) &&
                    Carries(q, s, sig.hdr.id, body, clip))
            && (r.NeedFetch? <==>
                  s.cfg.enabled && exists body ::
                    Says(q, s, sig, body) && Newer(s.clock.current, LwwKey(body.lamport, body.wallTs, sig.origin)) &&
                    body.inlined.None?)
  {
    hide ApplyIncoming, KeyLess, Newer;
    if OpenedBody(q, s, sig).Ok? {
      var body := OpenedBody(q, s, sig).value;
      assert Says(q, s, sig, body);
      NewerIff(Merge(s.clock, body.lamport), KeyOf(body, sig.origin));
      if body.inlined.Some? && MaybeDecompress(q, body.inlined.value, body.compressed).Some? {
        var clip := MaybeDecompress(q, body.inlined.value, body.compressed).value;
        assert q.contentId(s.gk.key, clip) == sig.hdr.id ==> Carries(q, s, sig.hdr.id, body, clip);
      }
    }
  }

  /** What a signal leaves behind. One that says nothing, or comes while sync is off, changes nothing. Any
      other moves the clock up to the sender's. One that is applied also sets its key, suppresses its id for
      two seconds and enters the history; one that must be fetched is noted, with all that is needed later. */
  lemma SignalEffect(q: Tools, s: State, sig: Signal, now: nat, body: SignalBody)
    requires s.cfg.enabled && Says(q, s, sig, body)
    ensures var (t, r) := OnRemote(q, s, sig, now);
            var key := LwwKey(body.lamport, body.wallTs, sig.origin);
            var id := sig.hdr.id;
            && t.clock.lamport == (if body.lamport > s.clock.lamport then body.lamport else s.clock.lamport)
            && t.clock.current == (if r.ApplyInline? then Some(key) else s.clock.current)
            && (r.Ignore? ==> t == s.(clock := t.clock))
            && (r.NeedFetch? ==>
                  && r == NeedFetch(id, body.kind, sig.hdr.ctSize)
                  && t == s.(clock := t.clock, pending :=
                             s.pending[id := PendingFetch(key, body.kind, sig.origin, s.gk.epoch, body.compressed)]))
            && (r.ApplyInline? ==>
                  && r.id == id && r.kind == body.kind && Carries(q, s, id, body, r.plaintext)
                  && Takes(q, s, t, id, body.kind, r.plaintext, sig.origin, now))
  {
    hide KeyLess, History.AddItem, Suppress.Touch;
  }

  /** `t` is `s` after a clip from a peer: suppressed for two seconds, first in the uncut history. */
  ghost predicate Takes(q: Tools, s: State, t: State, id: ContentId, kind: ContentKind, clip: Bytes, origin: DeviceId,
                        now: nat) {
    var item := History.HistoryItem(id, kind, History.Peer(origin), |clip|, now, q.preview(kind, clip), false);
    && t == s.(clock := t.clock, suppress := t.suppress, items := t.items, pending := t.pending)
    && t.suppress.grace == s.suppress.grace[id := now + 2000]
    && t.items == History.AddItem(s.items, s.cap, item)
  }

  /** A signal that is ignored, and why: sync is off; it is of another epoch; it does not open, is not
      understood or names another origin; or what is applied is as new. In the first three cases nothing
      changes. */
  lemma IgnoredSignal(q: Tools, s: State, sig: Signal, now: nat)
    ensures var (t, r) := OnRemote(q, s, sig, now);
            && (r == Ignore(SyncOff) <==> !s.cfg.enabled)
            && (r == Ignore(EpochMismatch) <==> s.cfg.enabled && sig.hdr.epoch != s.gk.epoch)
            && (r == Ignore(OpenFailed) <==>
                  && s.cfg.enabled && sig.hdr.epoch == s.gk.epoch
                  && q.openSignal(s.gk.key, q.encodeHdr(sig.hdr) + sig.origin, sig.e2e).None?)
            && (r == Ignore(IgnoreReason.Superseded) <==>
                  s.cfg.enabled && exists body ::
                    Says(q, s, sig, body) && !Newer(s.clock.current, LwwKey(body.lamport, body.wallTs, sig.origin)))
            && ((t == s && r.Ignore?) || (s.cfg.enabled && exists body :: Says(q, s, sig, body)))
  {
    hide ApplyIncoming, KeyLess, Newer;
    if OpenedBody(q, s, sig).Ok? {
      var body := OpenedBody(q, s, sig).value;
      assert Says(q, s, sig, body);
      NewerIff(Merge(s.clock, body.lamport), KeyOf(body, sig.origin));
    }
  }

  // ----- Fetched bodies -----

  /** A fetched body is applied exactly when it was asked for, opens under the key, bound to the id and the
      epoch of the signal, and is the clip the id names. */
  lemma FetchedIff(q: Tools, s: State, id: ContentId, sealed: Bytes, now: nat)
    ensures var r := OnFetched(q, s, id, sealed, now).1;
            r.Ok? <==>
              id in s.pending &&
              var f := s.pending[id];
              var bytes := q.openBody(s.gk.key, id + LeBytes(f.epoch, 8), sealed);
              bytes.Some? &&
              var clip := if f.compressed then q.unzip(bytes.value) else bytes;
              clip.Some? && q.contentId(s.gk.key, clip.value) == id
  {
    hide ApplyIncoming, LeBytes;
  }

  /** Whatever comes of it, the fetch is no longer pending; an applied clip is taken as noted when its
      signal came, but its key counts only if it is still the newest. */
  lemma FetchedEffect(q: Tools, s: State, id: ContentId, sealed: Bytes, now: nat)
    ensures var (t, r) := OnFetched(q, s, id, sealed, now);
            && t.pending == (map i | i in s.pending && i != id :: s.pending[i])
            && t.clock.lamport == s.clock.lamport
            && (r.Err? ==> t == s.(pending := t.pending))
            && (r.Ok? ==>
                  var f := s.pending[id];
                  && r.value.id == id && r.value.kind == f.kind
                  && Takes(q, s, t, id, f.kind, r.value.plaintext, f.origin, now)
                  && t.clock.current == if Newer(s.clock.current, f.key) then Some(f.key) else s.clock.current)
  {
    hide KeyLess, History.AddItem, Suppress.Touch, LeBytes, Newer;
    if id in s.pending { NewerIff(s.clock, s.pending[id].key); }
  }
}
