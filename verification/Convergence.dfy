/** Any number of engines exchanging inline clips agree once everything has been delivered. */
module Convergence {
  import opened ByteStrings
  import opened Wrappers
  import opened Wire
  import opened Lww
  import opened Engine
  import opened EngineRuns
  import Suppress
  import SendCache

  /** The engines, the clip each last sent or applied, every signal emitted so far, and who has been
      handed which of them. */
  datatype World = World(
    engines: map<DeviceId, State>,
    shown: map<DeviceId, Bytes>,
    emitted: seq<Signal>,
    delivered: set<(DeviceId, nat)>)

  /** A local copy of text, or the delivery of an emitted signal: of any one, to anyone, at any time,
      any number of times. */
  datatype Move =
    | Copy(dev: DeviceId, plaintext: Bytes, at: nat, nonces: (Bytes, Bytes))
    | Deliver(dev: DeviceId, i: nat, at: nat)

  function Step(q: Tools, w: World, m: Move): World {
    if m.dev !in w.engines then w else
      var s := w.engines[m.dev];
      match m
      case Copy(dev, plaintext, at, nonces) =>
        var r := OnLocal(q, s, Text, plaintext, at, nonces);
        World(w.engines[dev := r.0],
              if r.1.Emit? then w.shown[dev := plaintext] else w.shown,
              w.emitted + if r.1.Emit? then [Signal(dev, r.1.sig.hdr, r.1.sig.e2e)] else [],
              w.delivered)
      case Deliver(dev, i, at) =>
        if i >= |w.emitted| then w else
          var r := OnRemote(q, s, w.emitted[i], at);
          World(w.engines[dev := r.0],
                if r.1.ApplyInline? then w.shown[dev := r.1.plaintext] else w.shown,
                w.emitted,
                w.delivered + {(dev, i)})
  }

  function Run(q: Tools, w: World, ms: seq<Move>): World {
    if ms == [] then w else Step(q, Run(q, w, ms[..|ms| - 1]), ms[|ms| - 1])
  }

  /** The copied text is small enough to travel inside its signal. */
  predicate Inlines(q: Tools, m: Move) {
    m.Copy? ==> |MaybeCompress(q, Text, m.plaintext).0| <= INLINE_THRESHOLD
  }

  /** Enabled engines that share a group key and have applied nothing yet. */
  ghost predicate IsStart(w: World, gk: GroupKey) {
    && w.emitted == [] && w.delivered == {}
    && forall d | d in w.engines ::
         w.engines[d].me == d && w.engines[d].gk == gk && w.engines[d].cfg.enabled && w.engines[d].clock.current == None
  }

  // ----- What a signal carries -----

  function Inside(q: Tools, gk: GroupKey, sig: Signal): Option<SignalBody> {
    match q.openSignal(gk.key, SignalAad(q, sig.hdr, sig.origin), sig.e2e)
    case None => None
    case Some(plain) => q.decodeBody(plain)
  }

  /** The last-writer-wins key sealed in a signal. */
  function SealedKey(q: Tools, gk: GroupKey, sig: Signal): LwwKey {
    match Inside(q, gk, sig)
    case None => LwwKey(0, 0, sig.origin)
    case Some(body) => KeyOf(body, sig.origin)
  }

  /** A well-formed inline signal of this group key and epoch. */
  ghost predicate Carried(q: Tools, gk: GroupKey, sig: Signal) {
    && sig.hdr.epoch == gk.epoch
    && Inside(q, gk, sig).Some?
    && var body := Inside(q, gk, sig).value;
    && body.origin == sig.origin
    && body.inlined.Some?
    && MaybeDecompress(q, body.inlined.value, body.compressed).Some?
    && q.contentId(gk.key, MaybeDecompress(q, body.inlined.value, body.compressed).value) == sig.hdr.id
  }

  /** The clip sealed in a well-formed inline signal. */
  ghost function SealedClip(q: Tools, gk: GroupKey, sig: Signal): Bytes
    requires Carried(q, gk, sig)
  {
    var body := Inside(q, gk, sig).value;
    MaybeDecompress(q, body.inlined.value, body.compressed).value
  }

  lemma CopyEmitsCarried(q: Tools, s: State, plaintext: Bytes, at: nat, nonces: (Bytes, Bytes))
    requires ToolLaws(q, s.gk.key) && s.cfg.enabled
    requires |MaybeCompress(q, Text, plaintext).0| <= INLINE_THRESHOLD
    requires OnLocal(q, s, Text, plaintext, at, nonces).1.Emit?
    ensures var out := OnLocal(q, s, Text, plaintext, at, nonces).1.sig;
            var sig := Signal(s.me, out.hdr, out.e2e);
            && Carried(q, s.gk, sig) && SealedClip(q, s.gk, sig) == plaintext
            && SealedKey(q, s.gk, sig) == LwwKey(s.clock.lamport + 1, at, s.me)
  {
    EmittedOpens(q, s, Text, plaintext, at, nonces, s);
    CompressRoundTrip(q, s.gk.key, Text, plaintext);
    hide OnLocal, MaybeCompress, MaybeDecompress, SignalAad, ToolLaws;
  }

  /** An enabled engine with the key takes a well-formed inline signal into account, whatever its
      state: its clock catches up, and the newer clip is applied under its key. */
  lemma ReceiveCarried(q: Tools, s: State, sig: Signal, at: nat)
    requires Carried(q, s.gk, sig) && s.cfg.enabled
    ensures var key := SealedKey(q, s.gk, sig);
            var c := Merge(s.clock, key.lamport);
            var r := OnRemote(q, s, sig, at);
            && r.0.clock == Apply(c, key)
            && (r.1.ApplyInline? <==> WouldApply(c, key))
            && (r.1.ApplyInline? ==> r.1.plaintext == SealedClip(q, s.gk, sig))
  {
    hide MaybeDecompress, SignalAad, Remember, Suppress.Register, KeyLess;
  }

  // ----- The invariant -----

  /** The keys of the signals `d` has emitted or been handed. */
  ghost function Known(q: Tools, gk: GroupKey, w: World, d: DeviceId): set<LwwKey> {
    set i | 0 <= i < |w.emitted| && (w.emitted[i].origin == d || (d, i) in w.delivered) ::
      SealedKey(q, gk, w.emitted[i])
  }

  ghost function AllKeys(q: Tools, gk: GroupKey, w: World): set<LwwKey> {
    set i | 0 <= i < |w.emitted| :: SealedKey(q, gk, w.emitted[i])
  }

  ghost predicate EngineOk(q: Tools, gk: GroupKey, w: World, d: DeviceId)
    requires d in w.engines
  {
    var s := w.engines[d];
    && s.me == d && s.gk == gk && s.cfg.enabled
    && (s.clock.current.Some? ==> s.clock.current.value.lamport <= s.clock.lamport)
    && IsNewest(s.clock.current, Known(q, gk, w, d))
  }

  /** Signal `i` carries the key and the clip. */
  ghost predicate Bears(q: Tools, gk: GroupKey, w: World, i: nat, key: LwwKey, clip: Bytes) {
    i < |w.emitted| && Carried(q, gk, w.emitted[i]) && SealedKey(q, gk, w.emitted[i]) == key &&
    SealedClip(q, gk, w.emitted[i]) == clip
  }

  /** The engine shows the clip of the signal whose key it has applied. */
  ghost predicate ShowsWhatItApplied(q: Tools, gk: GroupKey, w: World, d: DeviceId)
    requires d in w.engines
  {
    w.engines[d].clock.current.Some? ==>
      d in w.shown && exists i :: Bears(q, gk, w, i, w.engines[d].clock.current.value, w.shown[d])
  }

  ghost predicate SignalOk(q: Tools, gk: GroupKey, w: World, i: nat)
    requires i < |w.emitted|
  {
    var sig := w.emitted[i];
    && Carried(q, gk, sig)
    && sig.origin in w.engines
    && SealedKey(q, gk, sig).lamport <= w.engines[sig.origin].clock.lamport
  }

  ghost predicate EnginesOk(q: Tools, gk: GroupKey, w: World) {
    forall d | d in w.engines :: EngineOk(q, gk, w, d)
  }

  ghost predicate ShownOk(q: Tools, gk: GroupKey, w: World) {
    forall d | d in w.engines :: ShowsWhatItApplied(q, gk, w, d)
  }

  ghost predicate SignalsOk(q: Tools, gk: GroupKey, w: World) {
    && (forall i | 0 <= i < |w.emitted| :: SignalOk(q, gk, w, i))
    && (forall x | x in w.delivered :: x.1 < |w.emitted|)
    && (forall i, j | 0 <= i < j < |w.emitted| :: SealedKey(q, gk, w.emitted[i]) != SealedKey(q, gk, w.emitted[j]))
  }

  ghost predicate Invariant(q: Tools, gk: GroupKey, w: World) {
    EnginesOk(q, gk, w) && ShownOk(q, gk, w) && SignalsOk(q, gk, w)
  }

  lemma StartInvariant(q: Tools, gk: GroupKey, w: World)
    requires IsStart(w, gk)
    ensures Invariant(q, gk, w)
  {
    assert forall d | d in w.engines :: Known(q, gk, w, d) == {};
  }

  // ----- Moves, by what they change -----

  /** Only the engine of `dev` moves, and it keeps its identity, key and settings. */
  ghost predicate OnlyMoves(w: World, t: World, dev: DeviceId) {
    && dev in w.engines && t.engines.Keys == w.engines.Keys
    && (forall d | d in w.engines && d != dev :: t.engines[d] == w.engines[d])
    && t.engines[dev].me == w.engines[dev].me && t.engines[dev].gk == w.engines[dev].gk
    && t.engines[dev].cfg == w.engines[dev].cfg
    && w.engines[dev].clock.lamport <= t.engines[dev].clock.lamport
  }

  ghost predicate Silent(w: World, t: World, dev: DeviceId) {
    && OnlyMoves(w, t, dev)
    && t.engines[dev].clock.current == w.engines[dev].clock.current
    && t.emitted == w.emitted && t.delivered == w.delivered && t.shown == w.shown
  }

  ghost predicate Emitted(q: Tools, gk: GroupKey, w: World, t: World, dev: DeviceId, key: LwwKey, clip: Bytes) {
    && OnlyMoves(w, t, dev)
    && key.lamport == w.engines[dev].clock.lamport + 1
    && t.engines[dev].clock == Clock(key.lamport, Some(key))
    && t.delivered == w.delivered && t.shown == w.shown[dev := clip]
    && |t.emitted| == |w.emitted| + 1 && t.emitted[..|w.emitted|] == w.emitted
    && t.emitted[|w.emitted|].origin == dev
    && Bears(q, gk, t, |w.emitted|, key, clip)
  }

  ghost predicate Received(q: Tools, gk: GroupKey, w: World, t: World, dev: DeviceId, i: nat, key: LwwKey,
                           clip: Bytes)
  {
    && OnlyMoves(w, t, dev)
    && Bears(q, gk, w, i, key, clip)
    && t.emitted == w.emitted && t.delivered == w.delivered + {(dev, i)}
    && var c := Merge(w.engines[dev].clock, key.lamport);
    && t.engines[dev].clock == Apply(c, key)
    && t.shown == if WouldApply(c, key) then w.shown[dev := clip] else w.shown
  }

  /** What an engine shows stays right while it applies nothing and signals are only added. */
  lemma StillShown(q: Tools, gk: GroupKey, w: World, t: World, d: DeviceId)
    requires d in w.engines && d in t.engines && w.emitted <= t.emitted
    requires t.engines[d].clock.current == w.engines[d].clock.current && Lookup(t.shown, d) == Lookup(w.shown, d)
    requires ShowsWhatItApplied(q, gk, w, d)
    ensures ShowsWhatItApplied(q, gk, t, d)
  {
    hide Carried, SealedKey, SealedClip;
    if t.engines[d].clock.current.Some? {
      var key := w.engines[d].clock.current.value;
      var i: nat :| Bears(q, gk, w, i, key, w.shown[d]);
      assert Bears(q, gk, t, i, key, t.shown[d]);
    }
  }

  lemma SignalsStillOk(q: Tools, gk: GroupKey, w: World, t: World, dev: DeviceId)
    requires SignalsOk(q, gk, w) && OnlyMoves(w, t, dev)
    requires t.emitted == w.emitted && forall x | x in t.delivered :: x.1 < |t.emitted|
    ensures SignalsOk(q, gk, t)
  {
    hide Carried, SealedKey;
    forall i | 0 <= i < |t.emitted| ensures SignalOk(q, gk, t, i) {
      assert SignalOk(q, gk, w, i);
    }
  }

  lemma SilentKeeps(q: Tools, gk: GroupKey, w: World, t: World, dev: DeviceId)
    requires Invariant(q, gk, w) && Silent(w, t, dev)
    ensures Invariant(q, gk, t)
  {
    hide Carried, SealedKey, IsNewest, ShowsWhatItApplied;
    SignalsStillOk(q, gk, w, t, dev);
    hide SignalsOk;
    forall d | d in t.engines ensures EngineOk(q, gk, t, d) && ShowsWhatItApplied(q, gk, t, d) {
      assert EngineOk(q, gk, w, d);
      assert Known(q, gk, t, d) == Known(q, gk, w, d);
      StillShown(q, gk, w, t, d);
    }
  }

  lemma EmittedKeepsSignals(q: Tools, gk: GroupKey, w: World, t: World, dev: DeviceId, key: LwwKey, clip: Bytes)
    requires SignalsOk(q, gk, w) && Emitted(q, gk, w, t, dev, key, clip)
    ensures SignalsOk(q, gk, t)
  {
    hide Carried, SealedKey, SealedClip;
    var n := |w.emitted|;
    assert forall i | 0 <= i < n :: t.emitted[i] == w.emitted[i];
    forall i | 0 <= i < |t.emitted| ensures SignalOk(q, gk, t, i) {
      if i < n { assert SignalOk(q, gk, w, i); }
    }
    forall i | 0 <= i < n ensures SealedKey(q, gk, t.emitted[i]) != key {
      assert SignalOk(q, gk, w, i);
      KeyOriginIsSender(q, gk, w.emitted[i]);
      KeyOriginIsSender(q, gk, t.emitted[n]);
    }
  }

  lemma EmittedKeepsShown(q: Tools, gk: GroupKey, w: World, t: World, dev: DeviceId, key: LwwKey, clip: Bytes)
    requires ShownOk(q, gk, w) && Emitted(q, gk, w, t, dev, key, clip)
    ensures ShownOk(q, gk, t)
  {
    hide Bears;
    assert w.emitted <= t.emitted;
    forall d | d in t.engines ensures ShowsWhatItApplied(q, gk, t, d) {
      if d != dev {
        StillShown(q, gk, w, t, d);
      } else {
        assert t.shown[d] == clip && Bears(q, gk, t, |w.emitted|, t.engines[d].clock.current.value, t.shown[d]);
      }
    }
  }

  lemma EmittedKeepsEngines(q: Tools, gk: GroupKey, w: World, t: World, dev: DeviceId, key: LwwKey, clip: Bytes)
    requires EnginesOk(q, gk, w) && SignalsOk(q, gk, w) && Emitted(q, gk, w, t, dev, key, clip)
    ensures EnginesOk(q, gk, t)
  {
    hide Carried, SealedKey, SealedClip, Known;
    forall d | d in t.engines ensures EngineOk(q, gk, t, d) {
      assert EngineOk(q, gk, w, d);
      KnownAfterEmit(q, gk, w, t, d);
      if d == dev {
        var keys := Known(q, gk, w, d);
        KeyTrichotomy(key, key);
        forall o | o in keys ensures !KeyLess(key, o) { OlderThan(w.engines[dev].clock, keys, o); }
      }
    }
  }

  lemma ReceivedKeepsShown(q: Tools, gk: GroupKey, w: World, t: World, dev: DeviceId, i: nat, key: LwwKey, clip: Bytes)
    requires ShownOk(q, gk, w) && Received(q, gk, w, t, dev, i, key, clip)
    ensures ShownOk(q, gk, t)
  {
    hide Carried, SealedKey, SealedClip, KeyLess;
    assert Bears(q, gk, t, i, key, clip);
    hide Bears;
    forall d | d in t.engines ensures ShowsWhatItApplied(q, gk, t, d) {
      if d != dev || !WouldApply(Merge(w.engines[dev].clock, key.lamport), key) {
        StillShown(q, gk, w, t, d);
      } else {
        assert t.shown[d] == clip && Bears(q, gk, t, i, t.engines[d].clock.current.value, t.shown[d]);
      }
    }
  }

  lemma ReceivedKeepsEngines(q: Tools, gk: GroupKey, w: World, t: World, dev: DeviceId, i: nat, key: LwwKey,
                             clip: Bytes)
    requires EnginesOk(q, gk, w) && Received(q, gk, w, t, dev, i, key, clip)
    ensures EnginesOk(q, gk, t)
  {
    hide Carried, SealedKey, SealedClip, KeyLess, IsNewest, Known;
    forall d | d in t.engines ensures EngineOk(q, gk, t, d) {
      assert EngineOk(q, gk, w, d);
      KnownAfterDelivery(q, gk, w, t, dev, i, d);
      assert Known(q, gk, w, d) + {} == Known(q, gk, w, d);
      if d == dev { ApplyTracksNewest(Merge(w.engines[dev].clock, key.lamport), key, Known(q, gk, w, d)); }
    }
  }

  lemma KeyOriginIsSender(q: Tools, gk: GroupKey, sig: Signal)
    ensures SealedKey(q, gk, sig).origin == sig.origin
  {
  }

  /** No key of `keys` is past the clock that has applied the newest of them. */
  lemma OlderThan(c: Clock, keys: set<LwwKey>, o: LwwKey)
    requires IsNewest(c.current, keys) && o in keys
    requires c.current.Some? ==> c.current.value.lamport <= c.lamport
    ensures o.lamport <= c.lamport
  {
    assert !KeyLess(c.current.value, o);
  }

  lemma KnownAfterEmit(q: Tools, gk: GroupKey, w: World, t: World, d: DeviceId)
    requires |t.emitted| == |w.emitted| + 1 && t.emitted[..|w.emitted|] == w.emitted && t.delivered == w.delivered
    requires forall x | x in w.delivered :: x.1 < |w.emitted|
    ensures var n := |w.emitted|;
            Known(q, gk, t, d) ==
            Known(q, gk, w, d) + if t.emitted[n].origin == d then {SealedKey(q, gk, t.emitted[n])} else {}
  {
    hide SealedKey;
    var n := |w.emitted|;
    assert forall i | 0 <= i < n :: t.emitted[i] == w.emitted[i];
    assert (d, n) !in t.delivered;
    var extra := if t.emitted[n].origin == d then {SealedKey(q, gk, t.emitted[n])} else {};
    forall k | k in Known(q, gk, w, d) ensures k in Known(q, gk, t, d) {
      var i :| 0 <= i < n && (w.emitted[i].origin == d || (d, i) in w.delivered) && k == SealedKey(q, gk, w.emitted[i]);
      assert t.emitted[i] == w.emitted[i];
    }
    forall k | k in Known(q, gk, t, d) ensures k in Known(q, gk, w, d) + extra {
      var i :| 0 <= i < |t.emitted| && (t.emitted[i].origin == d || (d, i) in t.delivered) &&
               k == SealedKey(q, gk, t.emitted[i]);
      if i < n { assert t.emitted[i] == w.emitted[i]; }
    }
  }

  lemma KnownAfterDelivery(q: Tools, gk: GroupKey, w: World, t: World, dev: DeviceId, j: nat, d: DeviceId)
    requires t.emitted == w.emitted && t.delivered == w.delivered + {(dev, j)} && j < |w.emitted|
    ensures Known(q, gk, t, d) == Known(q, gk, w, d) + if d == dev then {SealedKey(q, gk, w.emitted[j])} else {}
  {
    hide SealedKey;
  }

  lemma CopyClock(q: Tools, s: State, m: Move)
    requires m.Copy?
    ensures var r := OnLocal(q, s, Text, m.plaintext, m.at, m.nonces);
            && s.clock.lamport <= r.0.clock.lamport
            && (r.1.Emit? ==> r.0.clock == Clock(s.clock.lamport + 1, Some(LwwKey(s.clock.lamport + 1, m.at, s.me))))
            && (!r.1.Emit? ==> r.0.clock.current == s.clock.current)
  {
    hide Remember, Suppress.Collect, SendCache.Put, MaybeCompress, SignalAad, BodyAad, BodyOf;
  }

  /** A copy applies a key above everything its engine knows, or emits nothing and applies nothing. */
  lemma CopyMoves(q: Tools, gk: GroupKey, w: World, m: Move)
    requires ToolLaws(q, gk.key) && m.Copy? && m.dev in w.engines && Inlines(q, m)
    requires var s := w.engines[m.dev]; s.me == m.dev && s.gk == gk && s.cfg.enabled
    ensures var s := w.engines[m.dev];
            if OnLocal(q, s, Text, m.plaintext, m.at, m.nonces).1.Emit?
            then Emitted(q, gk, w, Step(q, w, m), m.dev, LwwKey(s.clock.lamport + 1, m.at, m.dev), m.plaintext)
            else Silent(w, Step(q, w, m), m.dev)
  {
    var s := w.engines[m.dev];
    CopyClock(q, s, m);
    if OnLocal(q, s, Text, m.plaintext, m.at, m.nonces).1.Emit? {
      CopyEmitsCarried(q, s, m.plaintext, m.at, m.nonces);
    }
    hide OnLocal, Carried, SealedKey, SealedClip, ToolLaws;
  }

  lemma DeliveryMoves(q: Tools, gk: GroupKey, w: World, m: Move)
    requires m.Deliver? && m.dev in w.engines && m.i < |w.emitted|
    requires var s := w.engines[m.dev]; s.gk == gk && s.cfg.enabled
    requires Carried(q, gk, w.emitted[m.i])
    ensures var sig := w.emitted[m.i];
            Received(q, gk, w, Step(q, w, m), m.dev, m.i, SealedKey(q, gk, sig), SealedClip(q, gk, sig))
  {
    ReceiveCarried(q, w.engines[m.dev], w.emitted[m.i], m.at);
    hide OnRemote, Carried, SealedKey, SealedClip, KeyLess;
  }

  lemma StepInvariant(q: Tools, gk: GroupKey, w: World, m: Move)
    requires ToolLaws(q, gk.key) && Invariant(q, gk, w) && Inlines(q, m)
    ensures Invariant(q, gk, Step(q, w, m))
    ensures Step(q, w, m).engines.Keys == w.engines.Keys
  {
    hide ToolLaws, OnLocal, OnRemote, Inlines, Carried, Emitted, Received, Silent, SealedKey, SealedClip, IsNewest;
    if m.dev in w.engines && (m.Copy? || m.i < |w.emitted|) {
      assert EngineOk(q, gk, w, m.dev);
      if m.Copy? {
        CopyMoves(q, gk, w, m);
        CopyKeeps(q, gk, w, m);
      } else {
        assert SignalOk(q, gk, w, m.i);
        DeliveryMoves(q, gk, w, m);
        DeliveryKeeps(q, gk, w, m);
      }
    }
  }

  lemma CopyKeeps(q: Tools, gk: GroupKey, w: World, m: Move)
    requires Invariant(q, gk, w) && m.Copy? && m.dev in w.engines
    requires var s := w.engines[m.dev];
             if OnLocal(q, s, Text, m.plaintext, m.at, m.nonces).1.Emit?
             then Emitted(q, gk, w, Step(q, w, m), m.dev, LwwKey(s.clock.lamport + 1, m.at, m.dev), m.plaintext)
             else Silent(w, Step(q, w, m), m.dev)
    ensures Invariant(q, gk, Step(q, w, m))
  {
    hide OnLocal, EnginesOk, ShownOk, SignalsOk, Step, Emitted, Silent;
    var s := w.engines[m.dev];
    if OnLocal(q, s, Text, m.plaintext, m.at, m.nonces).1.Emit? {
      var key := LwwKey(s.clock.lamport + 1, m.at, m.dev);
      EmittedKeepsSignals(q, gk, w, Step(q, w, m), m.dev, key, m.plaintext);
      EmittedKeepsShown(q, gk, w, Step(q, w, m), m.dev, key, m.plaintext);
      EmittedKeepsEngines(q, gk, w, Step(q, w, m), m.dev, key, m.plaintext);
    } else {
      SilentKeeps(q, gk, w, Step(q, w, m), m.dev);
    }
  }

  lemma DeliveryKeeps(q: Tools, gk: GroupKey, w: World, m: Move)
    requires Invariant(q, gk, w) && m.Deliver? && m.i < |w.emitted| && Carried(q, gk, w.emitted[m.i])
    requires Received(q, gk, w, Step(q, w, m), m.dev, m.i, SealedKey(q, gk, w.emitted[m.i]),
            SealedClip(q, gk, w.emitted[m.i]))
    ensures Invariant(q, gk, Step(q, w, m))
  {
    var key, clip := SealedKey(q, gk, w.emitted[m.i]), SealedClip(q, gk, w.emitted[m.i]);
    var t := Step(q, w, m);
    hide Step, Carried, SealedKey, SealedClip, Bears, KeyLess;
    SignalsStillOk(q, gk, w, t, m.dev);
    ReceivedKeepsShown(q, gk, w, t, m.dev, m.i, key, clip);
    ReceivedKeepsEngines(q, gk, w, t, m.dev, m.i, key, clip);
    hide EnginesOk, ShownOk, SignalsOk;
  }

  lemma {:induction false} RunInvariant(q: Tools, gk: GroupKey, w: World, ms: seq<Move>)
    requires ToolLaws(q, gk.key) && IsStart(w, gk) && forall m | m in ms :: Inlines(q, m)
    ensures Invariant(q, gk, Run(q, w, ms))
    ensures Run(q, w, ms).engines.Keys == w.engines.Keys
  {
    hide Step, Invariant, ToolLaws, Inlines;
    if ms == [] {
      StartInvariant(q, gk, w);
    } else {
      assert ms[|ms| - 1] in ms && forall m | m in ms[..|ms| - 1] :: m in ms;
      RunInvariant(q, gk, w, ms[..|ms| - 1]);
      StepInvariant(q, gk, Run(q, w, ms[..|ms| - 1]), ms[|ms| - 1]);
    }
  }

  // ----- Convergence -----

  /** Every emitted signal has reached every engine but its own. */
  ghost predicate AllDelivered(w: World) {
    forall i, d | 0 <= i < |w.emitted| && d in w.engines && d != w.emitted[i].origin :: (d, i) in w.delivered
  }

  /** Whatever the clocks said and in whatever order, and however often, signals arrived: once each
      has reached everyone, all engines hold the newest emitted key, exactly one signal carries it, and
      every engine shows the clip in that signal. (A copy that is not sent, being an echo, too large or
      of a kind switched off, changes its own device's clipboard without any engine taking part.) */
  lemma EnginesConverge(q: Tools, gk: GroupKey, w: World, ms: seq<Move>)
    requires ToolLaws(q, gk.key) && IsStart(w, gk) && forall m | m in ms :: Inlines(q, m)
    requires AllDelivered(Run(q, w, ms))
    ensures var t := Run(q, w, ms);
            && t.engines.Keys == w.engines.Keys
            && (forall d | d in t.engines :: IsNewest(t.engines[d].clock.current, AllKeys(q, gk, t)))
            && (forall i, j
               | 0 <= i < j < |t.emitted| :: SealedKey(q, gk, t.emitted[i]) != SealedKey(q, gk, t.emitted[j]))
    ensures var t := Run(q, w, ms);
            t.engines != map[] && t.emitted != [] ==> exists i, key, clip ::
              && Bears(q, gk, t, i, key, clip)
              && forall d | d in t.engines ::
                   t.engines[d].clock.current == Some(key) && Lookup(t.shown, d) == Some(clip)
  {
    hide Run, ToolLaws, Carried, SealedKey, SealedClip, IsNewest;
    RunInvariant(q, gk, w, ms);
    var t := Run(q, w, ms);
    forall d | d in t.engines ensures IsNewest(t.engines[d].clock.current, AllKeys(q, gk, t)) {
      assert EngineOk(q, gk, t, d);
      assert Known(q, gk, t, d) == AllKeys(q, gk, t);
    }
    if t.engines != map[] && t.emitted != [] {
      var d :| d in t.engines;
      NewestShown(q, gk, t, d);
    }
  }

  /** Which copy wins, in the terms of the keys themselves: the one on which the engines end is later by
      Lamport time than every other; at equal Lamport time later by the wall clock; and at equal times it
      is of the device whose id has the larger byte where the two ids first differ. */
  lemma NewestCopyWins(q: Tools, gk: GroupKey, w: World, ms: seq<Move>, d: DeviceId, i: nat)
    requires ToolLaws(q, gk.key) && IsStart(w, gk) && forall m | m in ms :: Inlines(q, m)
    requires AllDelivered(Run(q, w, ms))
    requires d in Run(q, w, ms).engines && i < |Run(q, w, ms).emitted|
    ensures var t := Run(q, w, ms);
            t.engines[d].clock.current.Some? &&
            var k, o := t.engines[d].clock.current.value, SealedKey(q, gk, t.emitted[i]);
            || o == k
            || o.lamport < k.lamport
            || (o.lamport == k.lamport && o.wallTs < k.wallTs)
            || (o.lamport == k.lamport && o.wallTs == k.wallTs &&
                exists j | 0 <= j < 32 :: o.origin[..j] == k.origin[..j] && o.origin[j] < k.origin[j])
  {
    EnginesConverge(q, gk, w, ms);
    hide Run, ToolLaws, SealedKey, AllDelivered, IsStart, Inlines;
    var t := Run(q, w, ms);
    var o := SealedKey(q, gk, t.emitted[i]);
    assert o in AllKeys(q, gk, t);
    var k := t.engines[d].clock.current.value;
    KeyTrichotomy(o, k);
    LexLessIff(o.origin, k.origin);
  }

  lemma NewestShown(q: Tools, gk: GroupKey, t: World, d: DeviceId)
    requires Invariant(q, gk, t) && d in t.engines && t.emitted != []
    requires forall e | e in t.engines :: IsNewest(t.engines[e].clock.current, AllKeys(q, gk, t))
    ensures exists i, key, clip ::
              && Bears(q, gk, t, i, key, clip)
              && forall e | e in t.engines ::
                   t.engines[e].clock.current == Some(key) && Lookup(t.shown, e) == Some(clip)
  {
    hide Carried, SealedKey, SealedClip;
    assert SealedKey(q, gk, t.emitted[0]) in AllKeys(q, gk, t);
    assert t.engines[d].clock.current.Some?;
    var key := t.engines[d].clock.current.value;
    var i: nat :| Bears(q, gk, t, i, key, t.shown[d]);
    forall e | e in t.engines
      ensures t.engines[e].clock.current == Some(key) && Lookup(t.shown, e) == Some(t.shown[d])
    {
      NewestUnique(t.engines[d].clock.current, t.engines[e].clock.current, AllKeys(q, gk, t));
      assert ShowsWhatItApplied(q, gk, t, e);
      var j: nat :| Bears(q, gk, t, j, key, t.shown[e]);
      assert i == j;
    }
  }
}
