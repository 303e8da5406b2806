/** What one engine keeps over every run, and the round trip of a fetched body. */
module EngineRuns {
  import opened ByteStrings
  import opened Wrappers
  import opened Wire
  import opened Lww
  import opened Engine
  import Suppress
  import SendCache

  datatype Event =
    | LocalCopy(kind: ContentKind, plaintext: Bytes, at: nat, nonces: (Bytes, Bytes))
    | RemoteSignal(sig: Signal, at: nat)
    | Fetched(id: ContentId, sealed: Bytes, at: nat)
    | Rekey(gk: GroupKey, at: nat)
    | Enable(on: bool, at: nat)

  function Step(q: Tools, s: State, e: Event): State {
    match e
    case LocalCopy(kind, plaintext, at, nonces) => OnLocal(q, s, kind, plaintext, at, nonces).0
    case RemoteSignal(sig, at) => OnRemote(q, s, sig, at).0
    case Fetched(id, sealed, at) => OnFetched(q, s, id, sealed, at).0
    case Rekey(gk, _) => Rekeyed(s, gk)
    case Enable(on, _) => s.(cfg := s.cfg.(enabled := on))
  }

  function Run(q: Tools, s: State, es: seq<Event>): State {
    if es == [] then s else Step(q, Run(q, s, es[..|es| - 1]), es[|es| - 1])
  }

  function Fresh(me: DeviceId, gk: GroupKey, cfg: Config, cap: nat): State {
    State(me, gk, cfg, Clock(0, None), Suppress.Suppression(map[], []), [], cap, SendCache.EMPTY, map[])
  }

  // ----- The run invariant -----

  /** The clock is at or past every key held, and what is pending belongs to the present epoch. */
  ghost predicate Coherent(s: State) {
    && (s.clock.current.Some? ==> s.clock.current.value.lamport <= s.clock.lamport)
    && forall id | id in s.pending ::
         s.pending[id].epoch == s.gk.epoch && s.pending[id].key.lamport <= s.clock.lamport
  }

  /** `b` is not older than `a`. */
  predicate NotOlder(a: Option<LwwKey>, b: Option<LwwKey>) {
    a.None? || (b.Some? && !KeyLess(b.value, a.value))
  }

  lemma ApplyNotOlder(c: Clock, key: LwwKey)
    ensures NotOlder(c.current, Apply(c, key).current)
  {
    if c.current.Some? {
      KeyTrichotomy(c.current.value, key);
      KeyTrichotomy(c.current.value, c.current.value);
    }
  }

  lemma NotOlderTransitive(a: Option<LwwKey>, b: Option<LwwKey>, c: Option<LwwKey>)
    requires NotOlder(a, b) && NotOlder(b, c)
    ensures NotOlder(a, c)
  {
    if a.Some? && KeyLess(c.value, a.value) {
      KeyTrichotomy(c.value, b.value);
      KeyTrichotomy(b.value, a.value);
      if KeyLess(b.value, c.value) { KeyTransitive(b.value, c.value, a.value); }
    }
  }

  /** A local copy that is sent out always outranks what was applied before, although it is applied
      without asking. */
  lemma EmitRaises(q: Tools, s: State, kind: ContentKind, plaintext: Bytes, at: nat, nonces: (Bytes, Bytes))
    requires Coherent(s)
    ensures var r := OnLocal(q, s, kind, plaintext, at, nonces);
            && r.0.clock.lamport <= s.clock.lamport + 1
            && (r.1.Emit? ==>
                  && r.0.clock == Clock(s.clock.lamport + 1, Some(LwwKey(s.clock.lamport + 1, at, s.me)))
                  && (s.clock.current.Some? ==> KeyLess(s.clock.current.value, r.0.clock.current.value)))
            && (!r.1.Emit? ==> r.0.clock.current == s.clock.current)
  {
    hide Remember, Suppress.Collect, SendCache.Put, MaybeCompress, SignalAad, BodyAad, BodyOf;
  }

  /** Each step keeps the invariant and never replaces what is applied by something older. */
  lemma StepCoherent(q: Tools, s: State, e: Event)
    requires Coherent(s)
    ensures Coherent(Step(q, s, e))
    ensures NotOlder(s.clock.current, Step(q, s, e).clock.current)
    ensures s.clock.lamport <= Step(q, s, e).clock.lamport
  {
    if s.clock.current.Some? { KeyTrichotomy(s.clock.current.value, s.clock.current.value); }
    match e
    case LocalCopy(kind, plaintext, at, nonces) =>
      EmitRaises(q, s, kind, plaintext, at, nonces);
      var t := OnLocal(q, s, kind, plaintext, at, nonces).0;
      LocalClock(q, s, kind, plaintext, at, nonces);
      if t.clock.current.Some? && s.clock.current.Some? {
        KeyTrichotomy(s.clock.current.value, t.clock.current.value);
      }
      hide OnLocal;
    case RemoteSignal(sig, at) => RemoteCoherent(q, s, sig, at);
    case Fetched(id, sealed, at) => FetchedCoherent(q, s, id, sealed, at);
    case Rekey(_, _) =>
    case Enable(_, _) =>
  }

  lemma LocalClock(q: Tools, s: State, kind: ContentKind, plaintext: Bytes, at: nat, nonces: (Bytes, Bytes))
    ensures s.clock.lamport <= OnLocal(q, s, kind, plaintext, at, nonces).0.clock.lamport
  {
    hide Remember, Suppress.Collect, SendCache.Put, MaybeCompress, SignalAad, BodyAad, BodyOf;
  }

  lemma RemoteCoherent(q: Tools, s: State, sig: Signal, at: nat)
    requires Coherent(s)
    ensures var t := OnRemote(q, s, sig, at).0;
            Coherent(t) && NotOlder(s.clock.current, t.clock.current) && s.clock.lamport <= t.clock.lamport
  {
    hide KeyLess, Suppress.Register, SignalAad, MaybeDecompress, Remember;
    if s.clock.current.Some? { KeyTrichotomy(s.clock.current.value, s.clock.current.value); }
    if OpenedBody(q, s, sig).Ok? {
      var body := OpenedBody(q, s, sig).value;
      ApplyNotOlder(Merge(s.clock, body.lamport), KeyOf(body, sig.origin));
      assert sig.hdr.epoch == s.gk.epoch;
    }
  }

  lemma FetchedCoherent(q: Tools, s: State, id: ContentId, sealed: Bytes, at: nat)
    requires Coherent(s)
    ensures var t := OnFetched(q, s, id, sealed, at).0;
            Coherent(t) && NotOlder(s.clock.current, t.clock.current) && s.clock.lamport <= t.clock.lamport
  {
    hide KeyLess, Suppress.Register, BodyAad, MaybeDecompress, Remember;
    if s.clock.current.Some? { KeyTrichotomy(s.clock.current.value, s.clock.current.value); }
    if id in s.pending { ApplyNotOlder(s.clock, s.pending[id].key); }
  }

  /** Over any mix of copies, signals, fetches, key changes and switches, from a fresh engine. */
  lemma {:induction false} RunCoherent(q: Tools, me: DeviceId, gk: GroupKey, cfg: Config, cap: nat, es: seq<Event>)
    ensures Coherent(Run(q, Fresh(me, gk, cfg, cap), es))
  {
    hide Step, Coherent;
    if es == [] {
      assert Coherent(Fresh(me, gk, cfg, cap)) by { FreshCoherent(me, gk, cfg, cap); }
    } else {
      RunCoherent(q, me, gk, cfg, cap, es[..|es| - 1]);
      StepCoherent(q, Run(q, Fresh(me, gk, cfg, cap), es[..|es| - 1]), es[|es| - 1]);
    }
  }

  lemma FreshCoherent(me: DeviceId, gk: GroupKey, cfg: Config, cap: nat)
    ensures Coherent(Fresh(me, gk, cfg, cap))
  {
  }

  /** What is applied never goes back, however long the run. */
  lemma {:induction false} CurrentNeverGoesBack(q: Tools, s: State, es: seq<Event>)
    requires Coherent(s)
    ensures Coherent(Run(q, s, es)) && NotOlder(s.clock.current, Run(q, s, es).clock.current)
    ensures s.clock.lamport <= Run(q, s, es).clock.lamport
  {
    hide Step, Coherent, KeyLess;
    if es == [] {
      if s.clock.current.Some? { KeyTrichotomy(s.clock.current.value, s.clock.current.value); }
    } else {
      var t := Run(q, s, es[..|es| - 1]);
      CurrentNeverGoesBack(q, s, es[..|es| - 1]);
      StepCoherent(q, t, es[|es| - 1]);
      NotOlderTransitive(s.clock.current, t.clock.current, Step(q, t, es[|es| - 1]).clock.current);
    }
  }

  // ----- Echo suppression over engine runs -----

  /** The clip an event applies from a peer, if any. */
  function AppliedBy(q: Tools, s: State, e: Event): Option<ContentId> {
    match e
    case RemoteSignal(sig, at) => if OnRemote(q, s, sig, at).1.ApplyInline? then Some(sig.hdr.id) else None
    case Fetched(id, sealed, at) => if OnFetched(q, s, id, sealed, at).1.Ok? then Some(id) else None
    case _ => None
  }

  /** When `id` was last applied from a peer. */
  function LastApplied(q: Tools, s: State, es: seq<Event>, id: ContentId): Option<nat> {
    if es == [] then None else
      var init, e := es[..|es| - 1], es[|es| - 1];
      if AppliedBy(q, Run(q, s, init), e) == Some(id) then Some(e.at) else LastApplied(q, s, init, id)
  }

  predicate ClockForward(es: seq<Event>) {
    forall i, j | 0 <= i < j < |es| :: es[i].at <= es[j].at
  }

  /** What one event does to the suppression set. */
  function Registrations(q: Tools, s: State, e: Event): seq<Suppress.Event> {
    match AppliedBy(q, s, e)
    case Some(id) => [Suppress.Registered(id, e.at)]
    case None => if e.LocalCopy? then [Suppress.Collected(e.at)] else []
  }

  function SuppressLog(q: Tools, s: State, es: seq<Event>): seq<Suppress.Event> {
    if es == [] then [] else
      SuppressLog(q, s, es[..|es| - 1]) + Registrations(q, Run(q, s, es[..|es| - 1]), es[|es| - 1])
  }

  lemma StepSuppresses(q: Tools, s: State, e: Event)
    ensures Step(q, s, e).suppress ==
            match AppliedBy(q, s, e)
            case Some(id) => Suppress.Register(s.suppress, id, e.at)
            case None => if e.LocalCopy? then Suppress.Collect(s.suppress, e.at) else s.suppress
  {
    hide Suppress.Register, Suppress.Collect, OpenedBody, MaybeDecompress, BodyAad, Remember, Publish, KeyLess;
  }

  lemma {:induction false} SuppressRefinesLog(q: Tools, s: State, es: seq<Event>)
    requires s.suppress == Suppress.Suppression(map[], [])
    ensures Run(q, s, es).suppress == Suppress.Run(SuppressLog(q, s, es))
  {
    if es != [] {
      var init, e := es[..|es| - 1], es[|es| - 1];
      var before := SuppressLog(q, s, init);
      SuppressRefinesLog(q, s, init);
      StepSuppresses(q, Run(q, s, init), e);
      hide Step, AppliedBy, Suppress.Register, Suppress.Collect;
      assert before + [] == before;
      if Registrations(q, Run(q, s, init), e) != [] {
        var r := Registrations(q, Run(q, s, init), e)[0];
        assert (before + [r])[..|before|] == before;
      }
    }
  }

  lemma {:induction false} SuppressLogTimes(q: Tools, s: State, es: seq<Event>, now: nat)
    requires ClockForward(es) && forall e | e in es :: e.at <= now
    ensures Suppress.ClockForward(SuppressLog(q, s, es)) && forall e | e in SuppressLog(q, s, es) :: e.at <= now
    decreases |es|
  {
    hide AppliedBy;
    if es != [] {
      var init, e := es[..|es| - 1], es[|es| - 1];
      assert e in es;
      forall x | x in init ensures x.at <= e.at {
        var i :| 0 <= i < |init| && init[i] == x;
        assert es[i] == x;
      }
      SuppressLogTimes(q, s, init, e.at);
    }
  }

  lemma {:induction false} LastAppliedIsLogged(q: Tools, s: State, es: seq<Event>, id: ContentId)
    ensures Suppress.LastRegistration(SuppressLog(q, s, es), id) == LastApplied(q, s, es, id)
  {
    if es != [] {
      var init, e := es[..|es| - 1], es[|es| - 1];
      var before := SuppressLog(q, s, init);
      LastAppliedIsLogged(q, s, init, id);
      hide AppliedBy, Run;
      assert before + [] == before;
      if Registrations(q, Run(q, s, init), e) != [] {
        var r := Registrations(q, Run(q, s, init), e)[0];
        assert (before + [r])[..|before|] == before;
      }
    }
  }

  /** Over any run of an engine, of copies, signals, fetches, key changes and switches, with a clock that
      does not go back: a local copy is taken for an echo exactly when the clip with its id was applied
      from a peer less than two seconds ago. */
  lemma EchoIff(q: Tools, me: DeviceId, gk: GroupKey, cfg: Config, cap: nat, es: seq<Event>,
                kind: ContentKind, plaintext: Bytes, at: nat, nonces: (Bytes, Bytes))
    requires ClockForward(es) && forall e | e in es :: e.at <= at
    ensures var s := Run(q, Fresh(me, gk, cfg, cap), es);
            var last := LastApplied(q, Fresh(me, gk, cfg, cap), es, q.contentId(s.gk.key, plaintext));
            OnLocal(q, s, kind, plaintext, at, nonces).1.Echo? <==> last.Some? && at < last.value + 2000
  {
    var s0 := Fresh(me, gk, cfg, cap);
    var s := Run(q, s0, es);
    var id := q.contentId(s.gk.key, plaintext);
    SuppressRefinesLog(q, s0, es);
    SuppressLogTimes(q, s0, es, at);
    LastAppliedIsLogged(q, s0, es, id);
    Suppress.SuppressedIffRecentlyRegistered(SuppressLog(q, s0, es), at, id);
    hide Run, SuppressLog, LastApplied, Suppress.Run, Suppress.LastRegistration, Publish, Remember, ClockForward;
  }

  // ----- Round trip of a fetched body -----

  /** Opening undoes sealing under one key, decoding undoes encoding, inflating undoes deflating. */
  ghost predicate ToolLaws(q: Tools, key: Hash32) {
    && (forall aad: Bytes, m: Bytes, n: Bytes | q.sealSignal(key, aad, m, n).Some? ::
          q.openSignal(key, aad, q.sealSignal(key, aad, m, n).value) == Some(m))
    && (forall aad: Bytes, m: Bytes, n: Bytes | q.sealBody(key, aad, m, n).Some? ::
          q.openBody(key, aad, q.sealBody(key, aad, m, n).value) == Some(m))
    && (forall b: SignalBody :: q.decodeBody(q.encodeBody(b)) == Some(b))
    && (forall m: Bytes | q.zip(m).Some? :: q.unzip(q.zip(m).value) == Some(m))
  }

  lemma CompressRoundTrip(q: Tools, key: Hash32, kind: ContentKind, plaintext: Bytes)
    requires ToolLaws(q, key)
    ensures var (bytes, compressed) := MaybeCompress(q, kind, plaintext);
            MaybeDecompress(q, bytes, compressed) == Some(plaintext)
  {
  }

  /** An emitted signal opens, at any enabled engine with the same key and epoch, to the body that
      was sealed, and its body ciphertext opens to the clip. */
  lemma EmittedOpens(q: Tools, s: State, kind: ContentKind, plaintext: Bytes, at: nat, nonces: (Bytes, Bytes), t: State)
    requires ToolLaws(q, s.gk.key)
    requires OnLocal(q, s, kind, plaintext, at, nonces).1.Emit?
    requires t.gk == s.gk && t.cfg.enabled
    ensures var out := OnLocal(q, s, kind, plaintext, at, nonces).1.sig;
            var sig := Signal(s.me, out.hdr, out.e2e);
            && out.hdr.id == q.contentId(s.gk.key, plaintext)
            && out.hdr.epoch == s.gk.epoch
            && OpenedBody(q, t, sig) == Ok(BodyOf(q, s.me, kind, plaintext, s.clock.lamport + 1, at))
            && q.openBody(s.gk.key, BodyAad(out.hdr.id, s.gk.epoch), out.bodyCt) ==
               Some(MaybeCompress(q, kind, plaintext).0)
  {
    hide SignalAad, BodyAad, MaybeCompress, Suppress.Collect, SendCache.Put, Remember;
    var id := q.contentId(s.gk.key, plaintext);
    var body := BodyOf(q, s.me, kind, plaintext, s.clock.lamport + 1, at);
    var out := OnLocal(q, s, kind, plaintext, at, nonces).1.sig;
    assert q.sealBody(s.gk.key, BodyAad(id, s.gk.epoch), MaybeCompress(q, kind, plaintext).0, nonces.0) ==
      Some(out.bodyCt);
    assert q.sealSignal(s.gk.key, SignalAad(q, out.hdr, s.me), q.encodeBody(body), nonces.1) == Some(out.e2e);
    assert q.decodeBody(q.encodeBody(body)) == Some(body);
  }

  /** The bodies an engine stores over a run, in order. */
  function Puts(q: Tools, s: State, es: seq<Event>): seq<SendCache.Stored> {
    if es == [] then [] else
      var init, e := es[..|es| - 1], es[|es| - 1];
      Puts(q, s, init) + PutOf(q, Run(q, s, init), e)
  }

  function PutOf(q: Tools, s: State, e: Event): seq<SendCache.Stored> {
    match e
    case LocalCopy(kind, plaintext, at, nonces) =>
      var r := OnLocal(q, s, kind, plaintext, at, nonces).1;
      if r.Emit? then [SendCache.Stored(r.sig.hdr.id, r.sig.bodyCt, at)] else []
    case _ => []
  }

  lemma StepCache(q: Tools, s: State, e: Event)
    ensures Step(q, s, e).cache == SendCache.PutAll(s.cache, PutOf(q, s, e))
  {
    hide OnRemote, OnFetched, SendCache.Put;
    match e
    case LocalCopy(kind, plaintext, at, nonces) =>
      UnsentStoresNothing(q, s, kind, plaintext, at, nonces);
      var r := OnLocal(q, s, kind, plaintext, at, nonces);
      if r.1.Emit? {
        EmitStores(q, s, kind, plaintext, at, nonces);
        var put := SendCache.Stored(r.1.sig.hdr.id, r.1.sig.bodyCt, at);
        assert [put][..0] == [];
        assert SendCache.PutAll(s.cache, [put]) ==
          SendCache.Put(SendCache.PutAll(s.cache, []), put.id, put.body, put.at);
      }
      hide OnLocal;
    case _ =>
  }

  lemma UnsentStoresNothing(q: Tools, s: State, kind: ContentKind, plaintext: Bytes, at: nat, nonces: (Bytes, Bytes))
    ensures var r := OnLocal(q, s, kind, plaintext, at, nonces); !r.1.Emit? ==> r.0.cache == s.cache
  {
    hide SignalAad, BodyAad, MaybeCompress, Suppress.Collect, Remember;
  }

  /** The cache after a run is the cache before it with the emitted bodies stored, in order. */
  lemma {:induction false} CacheIsPuts(q: Tools, s: State, es: seq<Event>)
    ensures Run(q, s, es).cache == SendCache.PutAll(s.cache, Puts(q, s, es))
  {
    if es != [] {
      var init, e := es[..|es| - 1], es[|es| - 1];
      CacheIsPuts(q, s, init);
      StepCache(q, Run(q, s, init), e);
      hide Step;
      PutAllConcat(s.cache, Puts(q, s, init), PutOf(q, Run(q, s, init), e));
    }
  }

  lemma {:induction false} PutAllConcat(c: SendCache.Cache, xs: seq<SendCache.Stored>, ys: seq<SendCache.Stored>)
    ensures SendCache.PutAll(c, xs + ys) == SendCache.PutAll(SendCache.PutAll(c, xs), ys)
  {
    if ys == [] {
      assert xs + ys == xs;
    } else {
      assert (xs + ys)[..|xs + ys| - 1] == xs + ys[..|ys| - 1];
      PutAllConcat(c, xs, ys[..|ys| - 1]);
      hide SendCache.Put;
    }
  }

  /** The event neither settles or replaces the pending fetch of `id` nor changes the group key. */
  predicate LeavesFetch(e: Event, id: ContentId) {
    match e
    case Fetched(other, _, _) => other != id
    case RemoteSignal(sig, _) => sig.hdr.id != id
    case Rekey(_, _) => false
    case _ => true
  }

  /** A pending fetch stands over any run of such events, whatever else is copied, applied or fetched. */
  lemma {:induction false} FetchStands(q: Tools, s: State, es: seq<Event>, id: ContentId)
    requires forall e | e in es :: LeavesFetch(e, id)
    ensures Run(q, s, es).gk == s.gk && Lookup(Run(q, s, es).pending, id) == Lookup(s.pending, id)
  {
    if es != [] {
      var init, e := es[..|es| - 1], es[|es| - 1];
      assert e in es && forall x | x in init :: x in es;
      FetchStands(q, s, init, id);
      StepLeavesFetch(q, Run(q, s, init), e, id);
      hide Step, LeavesFetch;
    }
  }

  lemma StepLeavesFetch(q: Tools, s: State, e: Event, id: ContentId)
    requires LeavesFetch(e, id)
    ensures Step(q, s, e).gk == s.gk && Lookup(Step(q, s, e).pending, id) == Lookup(s.pending, id)
  {
    hide OnLocal, OnFetched, ApplyIncoming, OpenedBody, KeyLess, MaybeDecompress;
  }

  /** The sender serves the sealed body exactly while it is recent and has a place in its cache,
      whatever it copied and received since; and whatever the receiver did since it asked, as long as
      that left the fetch alone, the body yields the sender's clip. `a1` and `b1` are the sender after
      the copy and the receiver after the signal. */
  lemma FetchDeliversClip(q: Tools, a: State, kind: ContentKind, plaintext: Bytes, at: nat, nonces: (Bytes, Bytes),
                          a1: State, out: OutgoingSignal, later: seq<Event>, served: nat,
                          b: State, asked: nat, b1: State, d: RemoteDecision, since: seq<Event>, done: nat)
    requires ToolLaws(q, a.gk.key) && SendCache.InAgreement(a.cache)
    requires OnLocal(q, a, kind, plaintext, at, nonces) == (a1, Emit(out))
    requires forall o | o in Puts(q, a1, later) :: o.id != out.hdr.id
    requires b.gk == a.gk && b.cfg.enabled
    requires OnRemote(q, b, Signal(a.me, out.hdr, out.e2e), asked) == (b1, d) && d.NeedFetch?
    requires forall e | e in since :: LeavesFetch(e, out.hdr.id)
    ensures SendCache.Get(Run(q, a1, later).cache, out.hdr.id, served) ==
            if SendCache.Lasts(a.cache, a1.cache, out.hdr.id, at, Puts(q, a1, later), served)
              then Some(out.bodyCt) else None
    ensures OnFetched(q, Run(q, b1, since), out.hdr.id, out.bodyCt, done).1 ==
            Ok(AppliedContent(out.hdr.id, kind, plaintext))
  {
    EmittedOpens(q, a, kind, plaintext, at, nonces, b);
    CompressRoundTrip(q, a.gk.key, kind, plaintext);
    EmitStores(q, a, kind, plaintext, at, nonces);
    CacheIsPuts(q, a1, later);
    FetchStands(q, b1, since, out.hdr.id);
    hide SignalAad, BodyAad, MaybeCompress, MaybeDecompress, OnLocal, SendCache.Put, SendCache.PutAll, SendCache.Get,
      SendCache.Lasts, ApplyIncoming, KeyLess, Run, Puts;
    SendCache.ServedIff(a.cache, out.hdr.id, out.bodyCt, at, Puts(q, a1, later), served);
  }

  lemma EmitStores(q: Tools, s: State, kind: ContentKind, plaintext: Bytes, at: nat, nonces: (Bytes, Bytes))
    requires OnLocal(q, s, kind, plaintext, at, nonces).1.Emit?
    ensures var r := OnLocal(q, s, kind, plaintext, at, nonces);
            r.0.cache == SendCache.Put(s.cache, r.1.sig.hdr.id, r.1.sig.bodyCt, at)
  {
    hide SignalAad, BodyAad, MaybeCompress, Suppress.Collect, Remember;
  }
}
