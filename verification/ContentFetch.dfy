/** Fetching a body: the holder splits it, the relay passes the pieces on, the requester joins them. */
module ContentFetch {
  import opened ByteStrings
  import opened Wrappers
  import opened LogEntries
  import opened Wire
  import opened Relay
  import opened RelayRuns
  import Engine
  import EngineRuns
  import SendCache

  const CHUNK_SIZE: nat := 64 * 1024

  // ----- The holder -----

  /** Consecutive pieces of 64 KiB, the last one shorter. */
  function Chunks(ct: Bytes): seq<Bytes> {
    if ct == [] then []
    else if |ct| <= CHUNK_SIZE then [ct]
    else [ct[..CHUNK_SIZE]] + Chunks(ct[CHUNK_SIZE..])
  }

  function Announcement(id: ContentId, ct: Bytes): C2s {
    C2s.ContentBegin(id, |ct|, |Chunks(ct)|, CHUNK_SIZE)
  }

  /** The announcement and the first `n` pieces, numbered from 0. */
  function Opening(id: ContentId, ct: Bytes, n: nat): (r: seq<C2s>)
    requires n <= |Chunks(ct)|
    ensures |r| == n + 1 && r[0] == Announcement(id, ct)
    ensures forall m | m in r :: IsTransfer(m)
  {
    if n == 0 then [Announcement(id, ct)]
    else Opening(id, ct, n - 1) + [C2s.ContentChunk(id, n - 1, Chunks(ct)[n - 1])]
  }

  /** The messages of a whole transfer. */
  function Transfer(id: ContentId, ct: Bytes): seq<C2s> {
    Opening(id, ct, |Chunks(ct)|)
  }

  method Split(ct: Bytes) returns (chunks: seq<Bytes>)
    ensures chunks == Chunks(ct)
  {
    chunks := [];
    var rest := ct;
    while rest != []
      invariant chunks + Chunks(rest) == Chunks(ct)
      decreases |rest|
    {
      var n := if |rest| <= CHUNK_SIZE then |rest| else CHUNK_SIZE;
      assert |rest| <= CHUNK_SIZE ==> rest[..n] == rest && rest[n..] == [];
      assert Chunks(rest) == [rest[..n]] + Chunks(rest[n..]);
      assert chunks + ([rest[..n]] + Chunks(rest[n..])) == (chunks + [rest[..n]]) + Chunks(rest[n..]);
      chunks := chunks + [rest[..n]];
      rest := rest[n..];
    }
    assert chunks + [] == chunks;
  }

  function Answer(id: ContentId, body: Option<Bytes>): seq<C2s> {
    match body
    case None => [C2s.ContentReject(id, Gone)]
    case Some(ct) => Transfer(id, ct)
  }

  /** Answers a pull from the send cache. */
  method AnswerPull(id: ContentId, body: Option<Bytes>) returns (msgs: seq<C2s>)
    ensures msgs == Answer(id, body)
  {
    if body.None? { return [C2s.ContentReject(id, Gone)]; }
    var ct := body.value;
    var chunks := Split(ct);
    msgs := [C2s.ContentBegin(id, |ct|, |chunks|, CHUNK_SIZE)];
    var i := 0;
    while i < |chunks|
      invariant 0 <= i <= |chunks| && chunks == Chunks(ct)
      invariant msgs == Opening(id, ct, i)
    {
      msgs := msgs + [C2s.ContentChunk(id, i, chunks[i])];
      i := i + 1;
    }
  }

  function Join(chunks: seq<Bytes>): Bytes {
    if chunks == [] then [] else Join(chunks[..|chunks| - 1]) + chunks[|chunks| - 1]
  }

  lemma {:induction false} JoinCons(c: Bytes, chunks: seq<Bytes>)
    ensures Join([c] + chunks) == c + Join(chunks)
  {
    if chunks == [] {
      assert [c] + chunks == [c] && [c][..0] == [];
      assert Join([c]) == Join([]) + c;
    } else {
      var n := |chunks| - 1;
      assert ([c] + chunks)[..n + 1] == [c] + chunks[..n];
      JoinCons(c, chunks[..n]);
      assert (c + Join(chunks[..n])) + chunks[n] == c + (Join(chunks[..n]) + chunks[n]);
    }
  }

  /** The pieces join to the body, none of them is empty, and none exceeds 64 KiB. */
  lemma {:induction false} ChunksJoin(ct: Bytes)
    ensures Join(Chunks(ct)) == ct
    ensures forall i | 0 <= i < |Chunks(ct)| :: 0 < |Chunks(ct)[i]| <= 65536
    ensures forall i | 0 <= i < |Chunks(ct)| - 1 :: |Chunks(ct)[i]| == 65536
  {
    if ct != [] {
      if |ct| <= CHUNK_SIZE {
        assert [ct][..0] == [];
        assert Join([ct]) == Join([]) + ct;
      } else {
        ChunksJoin(ct[CHUNK_SIZE..]);
        JoinCons(ct[..CHUNK_SIZE], Chunks(ct[CHUNK_SIZE..]));
      }
    }
  }

  /** Piece by piece: a body is cut every 65536 bytes, and announced with its size and the number of its
      pieces. */
  lemma TransferContents(id: ContentId, ct: Bytes, i: nat)
    ensures var count := (|ct| + 65535) / 65536;
            var msgs := Transfer(id, ct);
            && |msgs| == count + 1
            && msgs[0] == C2s.ContentBegin(id, |ct|, count, 65536)
            && (i < count ==>
                  msgs[i + 1] ==
                  C2s.ContentChunk(id, i, ct[65536 * i..if 65536 * (i + 1) <= |ct| then 65536 * (i + 1) else |ct|]))
  {
    ChunkAt(ct, i);
    if i < |Chunks(ct)| { OpeningAt(id, ct, |Chunks(ct)|, i); }
    hide Chunks, Opening;
  }

  lemma {:induction false} ChunkAt(ct: Bytes, i: nat)
    ensures |Chunks(ct)| == (|ct| + 65535) / 65536
    ensures i < |Chunks(ct)| ==>
              65536 * i < |ct| &&
              Chunks(ct)[i] == ct[65536 * i..if 65536 * (i + 1) <= |ct| then 65536 * (i + 1) else |ct|]
    decreases |ct|
  {
    if |ct| > CHUNK_SIZE {
      var rest := ct[65536..];
      ChunkAt(rest, if i == 0 then 0 else i - 1);
      PiecesLeft(|ct|);
      if 0 < i < |Chunks(ct)| {
        assert Chunks(ct)[i] == Chunks(rest)[i - 1];
        TailSlice(ct, 65536 * (i - 1), if 65536 * i <= |rest| then 65536 * i else |rest|);
      }
    }
  }

  lemma PiecesLeft(n: nat)
    requires n > 65536
    ensures (n + 65535) / 65536 == (n - 65536 + 65535) / 65536 + 1
  {
  }

  lemma TailSlice(ct: Bytes, lo: nat, hi: nat)
    requires |ct| >= 65536 && lo <= hi <= |ct| - 65536
    ensures ct[65536..][lo..hi] == ct[lo + 65536..hi + 65536]
  {
  }

  lemma {:induction false} OpeningAt(id: ContentId, ct: Bytes, n: nat, i: nat)
    requires i < n <= |Chunks(ct)|
    ensures Opening(id, ct, n)[i + 1] == C2s.ContentChunk(id, i, Chunks(ct)[i])
  {
    hide Chunks;
    if i < n - 1 { OpeningAt(id, ct, n - 1, i); }
  }

  /** A strict prefix of the pieces is shorter than all of them. */
  lemma {:induction false} JoinPrefixShorter(chunks: seq<Bytes>, n: nat)
    requires n <= |chunks| && forall c | c in chunks :: 0 < |c|
    ensures n < |chunks| ==> |Join(chunks[..n])| < |Join(chunks)|
    decreases |chunks|
  {
    if n < |chunks| {
      var init := chunks[..|chunks| - 1];
      assert chunks[|chunks| - 1] in chunks;
      JoinPrefixShorter(init, n);
      assert init[..n] == chunks[..n];
      if n == |init| { assert init[..n] == init; }
    }
  }

  // ----- The requester -----

  datatype Partial = Partial(size: nat, buf: Bytes)

  /** Transfers under way, and the bodies completed so far, oldest first. */
  datatype Fetches = Fetches(open: map<ContentId, Partial>, done: seq<(ContentId, Bytes)>)

  const NOTHING: Fetches := Fetches(map[], [])

  function Receive(f: Fetches, msg: S2c): Fetches {
    match msg
    case ContentBegin(id, size, _, _) => f.(open := f.open[id := Partial(size, [])])
    case ContentChunk(id, _, data) =>
      if id !in f.open then f else
        var buf := f.open[id].buf + data;
        if |buf| >= f.open[id].size then Fetches(f.open - {id}, f.done + [(id, buf)])
        else f.(open := f.open[id := Partial(f.open[id].size, buf)])
    case ContentReject(id, _) => f.(open := f.open - {id})
    case ContentAbort(id, _) => f.(open := f.open - {id})
    case _ => f
  }

  function ReceiveAll(f: Fetches, msgs: seq<S2c>): Fetches {
    if msgs == [] then f else Receive(ReceiveAll(f, msgs[..|msgs| - 1]), msgs[|msgs| - 1])
  }

  class FetchTable {
    var open: map<ContentId, Partial>
    var done: seq<(ContentId, Bytes)>

    function Now(): Fetches
      reads this
    {
      Fetches(open, done)
    }

    constructor ()
      ensures Now() == NOTHING
    {
      open, done := map[], [];
    }

    method OnMessage(msg: S2c)
      modifies this
      ensures Now() == Receive(old(Now()), msg)
    {
      match msg
      case ContentBegin(id, size, _, _) => open := open[id := Partial(size, [])];
      case ContentChunk(id, _, data) =>
        if id in open {
          var p := open[id];
          var buf := p.buf + data;
          open := open[id := Partial(p.size, buf)];
          if |buf| >= p.size {
            open := open - {id};
            done := done + [(id, buf)];
          }
        }
      case ContentReject(id, _) => open := open - {id};
      case ContentAbort(id, _) => open := open - {id};
      case _ =>
    }
  }

  // ----- One transfer among others -----

  /** The part of the table that is about `id`. */
  datatype View = View(partial: Option<Partial>, bodies: seq<Bytes>)

  function BodiesOf(done: seq<(ContentId, Bytes)>, id: ContentId): seq<Bytes> {
    if done == [] then [] else
      var last := done[|done| - 1];
      BodiesOf(done[..|done| - 1], id) + if last.0 == id then [last.1] else []
  }

  function ViewOf(f: Fetches, id: ContentId): View {
    View(if id in f.open then Some(f.open[id]) else None, BodiesOf(f.done, id))
  }

  lemma BodiesSnoc(done: seq<(ContentId, Bytes)>, x: (ContentId, Bytes), id: ContentId)
    ensures BodiesOf(done + [x], id) == BodiesOf(done, id) + if x.0 == id then [x.1] else []
  {
    assert (done + [x])[..|done|] == done;
  }

  /** A message about another id leaves the view alone; one about `id` acts on the view only. */
  lemma ReceiveIsLocal(f: Fetches, g: Fetches, msg: S2c, id: ContentId)
    requires ViewOf(f, id) == ViewOf(g, id)
    ensures !Concerns(msg, id) ==> ViewOf(Receive(f, msg), id) == ViewOf(f, id)
    ensures Concerns(msg, id) ==> ViewOf(Receive(f, msg), id) == ViewOf(Receive(g, msg), id)
  {
    if msg.ContentChunk? {
      if msg.id in f.open { BodiesSnoc(f.done, (msg.id, f.open[msg.id].buf + msg.data), id); }
      if msg.id in g.open { BodiesSnoc(g.done, (msg.id, g.open[msg.id].buf + msg.data), id); }
      hide BodiesOf;
    }
  }

  /** However transfers are interleaved, each sees only its own messages. */
  lemma {:induction false} OnlyOwnMessagesCount(f: Fetches, msgs: seq<S2c>, id: ContentId)
    ensures ViewOf(ReceiveAll(f, msgs), id) == ViewOf(ReceiveAll(f, Picked(msgs, TransferOf(id))), id)
  {
    if msgs != [] {
      var init, last := msgs[..|msgs| - 1], msgs[|msgs| - 1];
      var own := Picked(init, TransferOf(id));
      OnlyOwnMessagesCount(f, init, id);
      ReceiveIsLocal(ReceiveAll(f, init), ReceiveAll(f, own), last, id);
      ReceiveSnoc(f, own, last);
      assert own + [] == own;
      hide ViewOf, Receive;
    }
  }

  /** A rejection or an abort drops the transfer and what it had brought; nothing else changes, and a piece
      that still comes is ignored. */
  lemma ClosedTransferIsDropped(f: Fetches, msg: S2c, index: nat, data: Bytes)
    requires msg.ContentReject? || msg.ContentAbort?
    ensures var g := Receive(f, msg);
            && g.done == f.done
            && msg.id !in g.open && (forall o | o != msg.id :: Lookup(g.open, o) == Lookup(f.open, o))
            && Receive(g, S2c.ContentChunk(msg.id, index, data)) == g
  {
  }

  lemma ReceiveSnoc(f: Fetches, msgs: seq<S2c>, m: S2c)
    ensures ReceiveAll(f, msgs + [m]) == Receive(ReceiveAll(f, msgs), m)
  {
    assert (msgs + [m])[..|msgs|] == msgs;
  }

  lemma {:induction false} ReceiveConcat(f: Fetches, xs: seq<S2c>, ys: seq<S2c>)
    ensures ReceiveAll(f, xs + ys) == ReceiveAll(ReceiveAll(f, xs), ys)
  {
    if ys == [] {
      assert xs + ys == xs;
    } else {
      var init, last := ys[..|ys| - 1], ys[|ys| - 1];
      assert xs + ys == (xs + init) + [last];
      ReceiveSnoc(f, xs + init, last);
      ReceiveConcat(f, xs, init);
    }
  }

  function RelayedAll(msgs: seq<C2s>): seq<S2c>
    requires forall m | m in msgs :: IsTransfer(m)
  {
    if msgs == [] then [] else RelayedAll(msgs[..|msgs| - 1]) + [Relayed(msgs[|msgs| - 1])]
  }

  lemma RelayedSnoc(msgs: seq<C2s>, m: C2s)
    requires IsTransfer(m) && forall x | x in msgs :: IsTransfer(x)
    ensures forall x | x in msgs + [m] :: IsTransfer(x)
    ensures RelayedAll(msgs + [m]) == RelayedAll(msgs) + [Relayed(m)]
  {
    assert (msgs + [m])[..|msgs|] == msgs;
  }

  /** What a table that held `before` of `id` holds after the announcement and `n` pieces: the pieces
      so far while one is missing, and one more body, whole, with the last. */
  function Progress(before: View, ct: Bytes, n: nat): View
    requires n <= |Chunks(ct)|
  {
    if n < |Chunks(ct)| then View(Some(Partial(|ct|, Join(Chunks(ct)[..n]))), before.bodies)
    else View(None, before.bodies + [ct])
  }

  lemma NextPiece(f: Fetches, before: View, id: ContentId, ct: Bytes, n: nat)
    requires 0 < n <= |Chunks(ct)|
    requires ViewOf(f, id) == Progress(before, ct, n - 1)
    ensures ViewOf(Receive(f, S2c.ContentChunk(id, n - 1, Chunks(ct)[n - 1])), id) == Progress(before, ct, n)
  {
    hide Chunks, Join;
    ChunksJoin(ct);
    var chunks := Chunks(ct);
    JoinPrefixShorter(chunks, n);
    JoinTake(chunks, n);
    if n == |chunks| { assert chunks[..n] == chunks; }
    BodiesSnoc(f.done, (id, Join(chunks[..n])), id);
    hide BodiesOf;
  }

  lemma JoinTake(chunks: seq<Bytes>, n: nat)
    requires 0 < n <= |chunks|
    ensures Join(chunks[..n]) == Join(chunks[..n - 1]) + chunks[n - 1]
  {
    assert chunks[..n][..n - 1] == chunks[..n - 1];
  }

  lemma AnnouncementOpens(f: Fetches, id: ContentId, ct: Bytes)
    requires ct != []
    ensures ViewOf(ReceiveAll(f, RelayedAll([Announcement(id, ct)])), id) == Progress(ViewOf(f, id), ct, 0)
  {
    var begin := Announcement(id, ct);
    assert [begin] == [] + [begin] && Chunks(ct)[..0] == [];
    RelayedSnoc([], begin);
    ReceiveSnoc(f, [], Relayed(begin));
    hide BodiesOf, Chunks;
  }

  lemma {:induction false} OpeningProgress(f: Fetches, id: ContentId, ct: Bytes, n: nat)
    requires n <= |Chunks(ct)| && ct != []
    ensures ViewOf(ReceiveAll(f, RelayedAll(Opening(id, ct, n))), id) == Progress(ViewOf(f, id), ct, n)
  {
    if n == 0 {
      AnnouncementOpens(f, id, ct);
    } else {
      OpeningProgress(f, id, ct, n - 1);
      OpeningStep(f, id, ct, n);
    }
    hide Chunks, RelayedAll, ReceiveAll, Progress, ViewOf;
  }

  lemma OpeningStep(f: Fetches, id: ContentId, ct: Bytes, n: nat)
    requires 0 < n <= |Chunks(ct)|
    requires ViewOf(ReceiveAll(f, RelayedAll(Opening(id, ct, n - 1))), id) == Progress(ViewOf(f, id), ct, n - 1)
    ensures ViewOf(ReceiveAll(f, RelayedAll(Opening(id, ct, n))), id) == Progress(ViewOf(f, id), ct, n)
  {
    hide Chunks, RelayedAll, ReceiveAll, Announcement, Progress, Receive, ViewOf;
    var init, last := Opening(id, ct, n - 1), C2s.ContentChunk(id, n - 1, Chunks(ct)[n - 1]);
    RelayedSnoc(init, last);
    ReceiveSnoc(f, RelayedAll(init), Relayed(last));
    NextPiece(ReceiveAll(f, RelayedAll(init)), ViewOf(f, id), id, ct, n);
  }

  /** A requester that has been sent, about `id`, whatever it was sent before and then the first
      `n + 1` messages of a transfer, among any others, holds exactly what those carried, and has the
      body exactly when the last piece has come. */
  lemma TransferProgress(was: seq<S2c>, got: seq<S2c>, id: ContentId, ct: Bytes, n: nat)
    requires ct != [] && n <= |Chunks(ct)|
    requires Picked(got, TransferOf(id)) == Picked(was, TransferOf(id)) + RelayedAll(Opening(id, ct, n))
    ensures ViewOf(ReceiveAll(NOTHING, got), id) == Progress(ViewOf(ReceiveAll(NOTHING, was), id), ct, n)
  {
    hide Chunks, RelayedAll, ReceiveAll, Picked, Opening, ViewOf, Progress;
    OnlyOwnMessagesCount(NOTHING, got, id);
    OnlyOwnMessagesCount(NOTHING, was, id);
    ReceiveConcat(NOTHING, Picked(was, TransferOf(id)), RelayedAll(Opening(id, ct, n)));
    OpeningProgress(ReceiveAll(NOTHING, Picked(was, TransferOf(id))), id, ct, n);
  }

  /** An empty body is announced but never completes: no piece follows to complete it. */
  lemma EmptyBodyNeverCompletes(id: ContentId)
    ensures |Transfer(id, [])| == 1
    ensures ReceiveAll(NOTHING, [S2c.ContentBegin(id, 0, 0, CHUNK_SIZE)]) == Fetches(map[id := Partial(0, [])], [])
    ensures forall m | m in Transfer(id, []) :: m == C2s.ContentBegin(id, 0, 0, CHUNK_SIZE)
  {
    assert [S2c.ContentBegin(id, 0, 0, CHUNK_SIZE)][..0] == [];
    assert Opening(id, [], 0) == [Announcement(id, [])];
  }

  // ----- Through the relay -----

  /** Holder to requester through the relay: over any undisturbed run, whatever other transfers,
      signals, joins and log entries it mixes in, the requester of `id` holds of it exactly what its
      own transfer has delivered, and completes it with its last piece. */
  lemma RelayedTransfer(p: Primitives, s: State, es: seq<Event>, d: DeviceId, id: ContentId, ct: Bytes, n: nat)
    requires RoutedTo(s, id, d) && forall e | e in es :: Undisturbed(e, id, d)
    requires ct != [] && n <= |Chunks(ct)|
    requires Pieces(p, s, es, id) == RelayedAll(Opening(id, ct, n))
    ensures var got, was := SentTo(Run(p, s, es).sent, d), SentTo(s.sent, d);
            ViewOf(ReceiveAll(NOTHING, got), id) == Progress(ViewOf(ReceiveAll(NOTHING, was), id), ct, n)
  {
    hide Run, Opening, Pieces, Chunks, ViewOf, ReceiveAll, Progress, Picked, RelayedAll, RoutedTo, Undisturbed;
    TransferPassesThrough(p, s, es, id, d);
    TransferProgress(SentTo(s.sent, d), SentTo(Run(p, s, es).sent, d), id, ct, n);
  }

  lemma {:induction false} FindSignalFirst(cache: seq<Signal>, id: ContentId, i: nat)
    requires i <= |cache| && forall j | 0 <= j < i :: cache[j].hdr.id != id
    requires i < |cache| ==> cache[i].hdr.id == id
    ensures FindSignal(cache, id) == if i < |cache| then Some(cache[i]) else None
  {
    if 0 < i { FindSignalFirst(cache[1..], id, i - 1); }
  }

  lemma RequestStep(p: Primitives, s: State, dev: DeviceId, id: ContentId)
    requires dev in RosterOf(p, s.log)
    ensures Step(p, s, Message(dev, C2s.ContentRequest(id))) == OnContentRequest(s, dev, id)
  {
    hide RosterOf, FindSignal, SendTo, OnContentRequest;
  }

  /** A member's request for a cached clip: the device that sent the oldest cached signal of that very id,
      and nobody else, is asked for the body, once, and what it answers goes to the requester. */
  lemma RequestRoutes(p: Primitives, s: State, dev: DeviceId, id: ContentId, i: nat)
    requires dev in RosterOf(p, s.log)
    requires i < |s.headCache| && s.headCache[i].hdr.id == id
    requires forall j | 0 <= j < i :: s.headCache[j].hdr.id != id
    ensures var t := Step(p, s, Message(dev, C2s.ContentRequest(id)));
            && t == s.(pendingPull := s.pendingPull[id := dev], sent := t.sent)
            && (forall d: DeviceId ::
                 SentTo(t.sent, d) ==
                 SentTo(s.sent, d) +
                   if d == s.headCache[i].origin && d in s.sessions then [ContentPull(id)] else [])
            && forall d: DeviceId ::
                 ViewOf(ReceiveAll(NOTHING, SentTo(t.sent, d)), id) ==
                   ViewOf(ReceiveAll(NOTHING, SentTo(s.sent, d)), id)
  {
    FindSignalFirst(s.headCache, id, i);
    RequestStep(p, s, dev, id);
    hide Step, SendTo;
    var to := s.headCache[i].origin;
    var s1 := s.(pendingPull := s.pendingPull[id := dev]);
    var t := Step(p, s, Message(dev, C2s.ContentRequest(id)));
    SendQuiet(s1, to, ContentPull(id), TransferOf(id));
    SentOnce(s1, to, ContentPull(id));
    hide SentTo, RosterOf, ViewOf, ReceiveAll, Picked, FindSignal;
    assert t == SendTo(s1, to, ContentPull(id));
    forall d: DeviceId
      ensures ViewOf(ReceiveAll(NOTHING, SentTo(t.sent, d)), id) == ViewOf(ReceiveAll(NOTHING, SentTo(s.sent, d)), id)
    {
      OnlyOwnMessagesCount(NOTHING, SentTo(t.sent, d), id);
      OnlyOwnMessagesCount(NOTHING, SentTo(s.sent, d), id);
    }
  }

  /** A member's request for a clip no cached signal has: the requester is told once that it is gone, and
      nothing else happens. */
  lemma RequestRefused(p: Primitives, s: State, dev: DeviceId, id: ContentId)
    requires dev in RosterOf(p, s.log) && forall j | 0 <= j < |s.headCache| :: s.headCache[j].hdr.id != id
    ensures var t := Step(p, s, Message(dev, C2s.ContentRequest(id)));
            && t == s.(sent := t.sent)
            && forall d: DeviceId ::
                 SentTo(t.sent, d) ==
                 SentTo(s.sent, d) + if d == dev && d in s.sessions then [S2c.ContentReject(id, Gone)] else []
  {
    FindSignalFirst(s.headCache, id, |s.headCache|);
    RequestStep(p, s, dev, id);
    SentOnce(s, dev, S2c.ContentReject(id, Gone));
    hide Step, SendTo, SentTo, RosterOf, FindSignal;
  }

  /** The transfer messages about `id` among the events, in order. */
  function SentAbout(es: seq<Event>, id: ContentId): (r: seq<C2s>)
    ensures forall m | m in r :: IsTransfer(m)
  {
    if es == [] then [] else
      var e := es[|es| - 1];
      SentAbout(es[..|es| - 1], id) + if e.Message? && IsTransfer(e.msg) && e.msg.id == id then [e.msg] else []
  }

  /** Nothing upsets the transfer of `id` from `holder` to `d`: it is undisturbed, nobody but the holder
      sends pieces of it, and no entry removes the holder. */
  predicate Calm(p: Primitives, e: Event, id: ContentId, holder: DeviceId, d: DeviceId) {
    && Undisturbed(e, id, d)
    && (e.Message? && IsTransfer(e.msg) && e.msg.id == id ==> e.dev == holder)
    && LeavesStanding(p, e, holder)
  }

  /** What the holder sends about `id` is what members send about it. */
  lemma {:induction false} PiecesAreTheHolders(p: Primitives, s: State, es: seq<Event>, id: ContentId, holder: DeviceId,
                                               d: DeviceId)
    requires Current(p, s) && s.log != [] && holder in RosterOf(p, s.log)
    requires forall e | e in es :: Calm(p, e, id, holder, d)
    ensures Pieces(p, s, es, id) == RelayedAll(SentAbout(es, id))
    ensures holder in RosterOf(p, Run(p, s, es).log) && Run(p, s, es).log != []
    decreases |es|
  {
    if es != [] {
      var init, e := es[..|es| - 1], es[|es| - 1];
      assert e in es && forall x | x in init :: x in es;
      PiecesAreTheHolders(p, s, init, id, holder, d);
      RunCurrent(p, s, init);
      hide RosterOf, Step, Current, Relayed, LeavesStanding, Undisturbed;
      StepKeepsStanding(p, Run(p, s, init), e, holder);
      var before := SentAbout(init, id);
      if IsPiece(p, Run(p, s, init), e, id) {
        RelayedSnoc(before, e.msg);
      } else {
        assert before + [] == before && Pieces(p, s, init, id) + [] == Pieces(p, s, init, id);
      }
    }
  }

  lemma {:induction false} NothingRejected(p: Primitives, es: seq<Event>, id: ContentId, holder: DeviceId, d: DeviceId)
    requires forall e | e in es :: Calm(p, e, id, holder, d)
    ensures C2s.ContentReject(id, Gone) !in SentAbout(es, id)
  {
    if es != [] {
      var init, e := es[..|es| - 1], es[|es| - 1];
      assert e in es && forall x | x in init :: x in es;
      NothingRejected(p, init, id, holder, d);
    }
  }

  /** End to end. A clip too large for its signal is copied at `a`; `b` asks for it at a server that still
      caches the signal; `a`, whatever it has done since, answers the pull from its send cache. Over
      any run of the server that does not upset the transfer, `b` completes one more body, and whatever
      `b` has done since, as long as that left the fetch alone, the body opens to the clip. */
  lemma FetchedClipArrives(q: Engine.Tools, a: Engine.State, kind: ContentKind, plaintext: Bytes, at: nat,
                           nonces: (Bytes, Bytes), a1: Engine.State, out: Engine.OutgoingSignal,
                           later: seq<EngineRuns.Event>, pulled: nat, b: Engine.State, asked: nat, b1: Engine.State,
                           decision: Engine.RemoteDecision, since: seq<EngineRuns.Event>, done: nat,
                           p: Primitives, s: State, i: nat, es: seq<Event>)
    requires EngineRuns.ToolLaws(q, a.gk.key) && SendCache.InAgreement(a.cache)
    requires Engine.OnLocal(q, a, kind, plaintext, at, nonces) == (a1, Engine.Emit(out)) && out.bodyCt != []
    requires forall o | o in EngineRuns.Puts(q, a1, later) :: o.id != out.hdr.id
    requires b.gk == a.gk && b.cfg.enabled
    requires Engine.OnRemote(q, b, Signal(a.me, out.hdr, out.e2e), asked) == (b1, decision) && decision.NeedFetch?
    requires forall e | e in since :: EngineRuns.LeavesFetch(e, out.hdr.id)
    requires Current(p, s) && a.me in RosterOf(p, s.log) && b.me in RosterOf(p, s.log) && b.me in s.sessions
    requires i < |s.headCache| && s.headCache[i] == Signal(a.me, out.hdr, out.e2e)
    requires forall j | 0 <= j < i :: s.headCache[j].hdr.id != out.hdr.id
    requires forall e | e in es :: Calm(p, e, out.hdr.id, a.me, b.me)
    requires SentAbout(es, out.hdr.id) ==
             Answer(out.hdr.id, SendCache.Get(EngineRuns.Run(q, a1, later).cache, out.hdr.id, pulled))
    ensures SendCache.Lasts(a.cache, a1.cache, out.hdr.id, at, EngineRuns.Puts(q, a1, later), pulled)
    ensures var t := Run(p, Step(p, s, Message(b.me, C2s.ContentRequest(out.hdr.id))), es);
            ViewOf(ReceiveAll(NOTHING, SentTo(t.sent, b.me)), out.hdr.id) ==
            View(None, ViewOf(ReceiveAll(NOTHING, SentTo(s.sent, b.me)), out.hdr.id).bodies + [out.bodyCt])
    ensures Engine.OnFetched(q, EngineRuns.Run(q, b1, since), out.hdr.id, out.bodyCt, done).1 ==
            Ok(Engine.AppliedContent(out.hdr.id, kind, plaintext))
  {
    var id := out.hdr.id;
    EngineRuns.FetchDeliversClip(q, a, kind, plaintext, at, nonces, a1, out, later, pulled, b, asked, b1, decision,
      since, done);
    hide Engine.OnLocal, Engine.OnRemote, Engine.OnFetched, EngineRuns.Run, EngineRuns.Puts, EngineRuns.ToolLaws,
      SendCache.Get, SendCache.Lasts;
    NothingRejected(p, es, id, a.me, b.me);
    assert SendCache.Get(EngineRuns.Run(q, a1, later).cache, id, pulled) == Some(out.bodyCt);
    RequestedTransfer(p, s, es, a.me, b.me, id, i, out.bodyCt);
  }

  /** The server's part: from the request to the last piece. */
  lemma RequestedTransfer(p: Primitives, s: State, es: seq<Event>, holder: DeviceId, d: DeviceId, id: ContentId,
                          i: nat, ct: Bytes)
    requires Current(p, s) && holder in RosterOf(p, s.log) && d in RosterOf(p, s.log) && d in s.sessions
    requires i < |s.headCache| && s.headCache[i].hdr.id == id
    requires forall j | 0 <= j < i :: s.headCache[j].hdr.id != id
    requires forall e | e in es :: Calm(p, e, id, holder, d)
    requires ct != [] && SentAbout(es, id) == Transfer(id, ct)
    ensures var t := Run(p, Step(p, s, Message(d, C2s.ContentRequest(id))), es);
            ViewOf(ReceiveAll(NOTHING, SentTo(t.sent, d)), id) ==
            View(None, ViewOf(ReceiveAll(NOTHING, SentTo(s.sent, d)), id).bodies + [ct])
  {
    var s1 := Step(p, s, Message(d, C2s.ContentRequest(id)));
    RequestRoutes(p, s, d, id, i);
    StepCurrent(p, s, Message(d, C2s.ContentRequest(id)));
    assert s.log != [];
    hide Run, Step, Current, RosterOf, Pieces, ViewOf, ReceiveAll, RoutedTo, Undisturbed, Chunks, Opening, SentAbout,
      RelayedAll, LeavesStanding;
    PiecesAreTheHolders(p, s1, es, id, holder, d);
    RelayedTransfer(p, s1, es, d, id, ct, |Chunks(ct)|);
  }
}
