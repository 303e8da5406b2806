/** The sender's cache of sealed bodies: five items, five minutes. */
module SendCache {
  import opened ByteStrings
  import opened Wrappers
  import opened Wire
  import opened Sequences

  const ITEMS: nat := 5
  const TTL_MS: nat := 300 * 1000

  datatype Sealed = Sealed(body: Bytes, expiry: nat)

  datatype Cache = Cache(bodies: map<ContentId, Sealed>, order: seq<ContentId>)

  const EMPTY: Cache := Cache(map[], [])

  /** The order lists the cached ids once each, and there are at most five. */
  ghost predicate InAgreement(c: Cache) {
    && Distinct(c.order)
    && |c.order| <= ITEMS
    && forall id :: id in c.order <==> id in c.bodies
  }

  function Restrict(bodies: map<ContentId, Sealed>, order: seq<ContentId>): map<ContentId, Sealed> {
    map k | k in bodies && k in order :: bodies[k]
  }

  function Put(c: Cache, id: ContentId, body: Bytes, now: nat): Cache {
    var order := LastN(if id in c.bodies then c.order else c.order + [id], ITEMS);
    var bodies := c.bodies[id := Sealed(body, now + TTL_MS)];
    Cache(Restrict(bodies, order), order)
  }

  function Get(c: Cache, id: ContentId, now: nat): Option<Bytes> {
    if id in c.bodies && c.bodies[id].expiry > now then Some(c.bodies[id].body) else None
  }

  lemma PutKeepsAgreement(c: Cache, id: ContentId, body: Bytes, now: nat)
    requires InAgreement(c)
    ensures InAgreement(Put(c, id, body, now))
    ensures id in Put(c, id, body, now).order
  {
    if id !in c.bodies {
      DistinctSnoc(c.order, id);
      var all := c.order + [id];
      DistinctParts(all, |all| - |LastN(all, ITEMS)|);
      assert all[|all| - 1] == id;
    }
  }

  lemma RestrictTail(bodies: map<ContentId, Sealed>, order: seq<ContentId>)
    requires Distinct(order) && order != []
    ensures Restrict(bodies, order[1..]) == Restrict(bodies, order) - {order[0]}
  {
    DistinctParts(order, 1);
    assert order[0] in order[..1];
    assert forall x | x in order :: x == order[0] || x in order[1..];
  }

  class SendCacheState {
    var bodies: map<ContentId, Sealed>
    var order: seq<ContentId>

    function Now(): Cache
      reads this
    {
      Cache(bodies, order)
    }

    constructor ()
      ensures Now() == EMPTY
    {
      bodies, order := map[], [];
    }

    method Store(id: ContentId, body: Bytes, now: nat)
      requires InAgreement(Now())
      modifies this
      ensures Now() == Put(old(Now()), id, body, now) && InAgreement(Now())
    {
      PutKeepsAgreement(Now(), id, body, now);
      var known := id in bodies;
      bodies := bodies[id := Sealed(body, now + TTL_MS)];
      if !known {
        DistinctSnoc(order, id);
        order := order + [id];
      }
      Trim();
    }

    /** Drops the oldest items while there are more than five. */
    method Trim()
      requires Distinct(order) && Restrict(bodies, order) == bodies
      modifies this
      ensures order == LastN(old(order), ITEMS) && bodies == Restrict(old(bodies), order)
    {
      hide Restrict, Distinct;
      while |order| > ITEMS
        invariant Distinct(order) && LastN(order, ITEMS) == LastN(old(order), ITEMS)
        invariant bodies == Restrict(old(bodies), order)
        decreases |order|
      {
        RestrictTail(old(bodies), order);
        DistinctParts(order, 1);
        bodies := bodies - {order[0]};
        order := order[1..];
      }
    }

    method Fetch(id: ContentId, now: nat) returns (body: Option<Bytes>)
      ensures body == Get(Now(), id, now)
    {
      body := if id in bodies && bodies[id].expiry > now then Some(bodies[id].body) else None;
    }
  }

  // ----- A body stays available while it is recent -----

  datatype Stored = Stored(id: ContentId, body: Bytes, at: nat)

  function PutAll(c: Cache, puts: seq<Stored>): Cache {
    if puts == [] then c else
      var last := puts[|puts| - 1];
      Put(PutAll(c, puts[..|puts| - 1]), last.id, last.body, last.at)
  }

  /** How many places from the end `id` stands: 1 for the newest. */
  function Rank(order: seq<ContentId>, id: ContentId): nat {
    if order == [] then 0
    else if order[|order| - 1] == id then 1
    else 1 + Rank(order[..|order| - 1], id)
  }

  lemma {:induction false} RankBound(order: seq<ContentId>, id: ContentId)
    requires id in order
    ensures 1 <= Rank(order, id) <= |order| && order[|order| - Rank(order, id)] == id
  {
    if order[|order| - 1] != id { RankBound(order[..|order| - 1], id); }
  }

  lemma {:induction false} RankSuffix(order: seq<ContentId>, id: ContentId, k: nat)
    requires k <= |order| && id in order && Rank(order, id) <= |order| - k
    ensures id in order[k..] && Rank(order[k..], id) == Rank(order, id)
    decreases |order|
  {
    var n := |order| - 1;
    RankBound(order, id);
    if order[n] == id {
      assert order[k..][n - k] == id;
    } else {
      assert order[k..][..n - k] == order[..n][k..];
      RankSuffix(order[..n], id, k);
    }
  }

  /** How many of `puts` find their id not cached at that moment: these take a place, the others only
      renew a body. */
  function NewOnes(c: Cache, puts: seq<Stored>): nat {
    if puts == [] then 0 else
      var init, last := puts[..|puts| - 1], puts[|puts| - 1];
      NewOnes(c, init) + if last.id in PutAll(c, init).bodies then 0 else 1
  }

  /** A Put of another id: `id` moves back by one place when that id is new, and is lost exactly when
      it stood in the last. */
  lemma PutOther(c: Cache, id: ContentId, other: Stored)
    requires InAgreement(c) && other.id != id && id in c.order
    ensures var d := Put(c, other.id, other.body, other.at);
            var rank := Rank(c.order, id) + if other.id in c.bodies then 0 else 1;
            && (id in d.order <==> rank <= ITEMS)
            && (id in d.order ==> Rank(d.order, id) == rank && id in d.bodies && d.bodies[id] == c.bodies[id])
  {
    RankBound(c.order, id);
    if other.id !in c.bodies {
      var all := c.order + [other.id];
      assert all[..|c.order|] == c.order && all[|all| - 1] != id;
      DistinctSnoc(c.order, other.id);
      var cut := |all| - |LastN(all, ITEMS)|;
      assert LastN(all, ITEMS) == all[cut..];
      if Rank(all, id) <= |all| - cut {
        RankSuffix(all, id, cut);
      } else {
        RankBound(all, id);
        DistinctParts(all, cut);
        assert all[|all| - Rank(all, id)] in all[..cut];
      }
    }
  }

  lemma PutOthersAbsent(c: Cache, id: ContentId, other: Stored)
    requires InAgreement(c) && other.id != id && id !in c.order
    ensures id !in Put(c, other.id, other.body, other.at).order
  {
  }

  lemma {:induction false} PutAllKeepsAgreement(c: Cache, puts: seq<Stored>)
    requires InAgreement(c)
    ensures InAgreement(PutAll(c, puts))
  {
    if puts != [] {
      var init, last := puts[..|puts| - 1], puts[|puts| - 1];
      PutAllKeepsAgreement(c, init);
      PutKeepsAgreement(PutAll(c, init), last.id, last.body, last.at);
    }
  }

  /** A cached body stays, unchanged, exactly while the new items stored since leave it one of the
      five places, and it has moved back by one place for each of them. */
  lemma {:induction false} KeptIff(c: Cache, id: ContentId, others: seq<Stored>)
    requires InAgreement(c) && id in c.order && forall o | o in others :: o.id != id
    ensures var d := PutAll(c, others);
            var rank := Rank(c.order, id) + NewOnes(c, others);
            && (id in d.bodies <==> rank <= ITEMS)
            && (id in d.bodies ==> Rank(d.order, id) == rank && d.bodies[id] == c.bodies[id])
  {
    PutAllKeepsAgreement(c, others);
    if others == [] {
      RankBound(c.order, id);
    } else {
      var init, last := others[..|others| - 1], others[|others| - 1];
      KeptIff(c, id, init);
      assert last in others;
      var d := PutAll(c, init);
      PutAllKeepsAgreement(c, init);
      hide Put;
      if id in d.order { PutOther(d, id, last); } else { PutOthersAbsent(d, id, last); }
    }
  }

  /** The place a body has just after it was stored: the first, or the one it had before. */
  function PlaceOf(c: Cache, id: ContentId): nat {
    if id in c.bodies then Rank(c.order, id) else 1
  }

  lemma StoredPlace(c: Cache, id: ContentId, body: Bytes, at: nat)
    requires InAgreement(c)
    ensures Rank(Put(c, id, body, at).order, id) == PlaceOf(c, id)
    ensures var d := Put(c, id, body, at); id in d.bodies && d.bodies[id] == Sealed(body, at + TTL_MS)
  {
    PutKeepsAgreement(c, id, body, at);
    if id !in c.bodies {
      var order := LastN(c.order + [id], ITEMS);
      assert order[|order| - 1] == id;
    }
  }

  /** A body stored at `at` in `c`, giving `d`, is still there to serve at `now`, after `others`. */
  predicate Lasts(c: Cache, d: Cache, id: ContentId, at: nat, others: seq<Stored>, now: nat) {
    PlaceOf(c, id) + NewOnes(d, others) <= 5 && now < at + 300_000
  }

  /** A body is served, unchanged, exactly until five minutes after it was stored, and only while the
      new items stored since leave it one of the five places. */
  lemma ServedIff(c: Cache, id: ContentId, body: Bytes, at: nat, others: seq<Stored>, now: nat)
    requires InAgreement(c) && forall o | o in others :: o.id != id
    ensures var d := Put(c, id, body, at);
            Get(PutAll(d, others), id, now) == if Lasts(c, d, id, at, others, now) then Some(body) else None
  {
    PutKeepsAgreement(c, id, body, at);
    StoredPlace(c, id, body, at);
    hide Put, NewOnes;
    KeptIff(Put(c, id, body, at), id, others);
  }

  /** A clip copied again keeps its old place: the oldest of five, stored again, is gone with the very
      next new clip. */
  lemma RecopiedClipLeavesEarly(c: Cache, body: Bytes, at: nat, other: Stored, now: nat)
    requires InAgreement(c) && |c.order| == ITEMS && other.id !in c.bodies
    ensures var again := Put(c, c.order[0], body, at);
            && Get(again, c.order[0], at) == Some(body)
            && Get(Put(again, other.id, other.body, other.at), c.order[0], now) == None
  {
    var id := c.order[0];
    PutKeepsAgreement(c, id, body, at);
    OldestRank(c.order);
    StoredPlace(c, id, body, at);
    PutOther(Put(c, id, body, at), id, other);
  }

  lemma {:induction false} OldestRank(order: seq<ContentId>)
    requires order != [] && Distinct(order)
    ensures Rank(order, order[0]) == |order|
  {
    if |order| > 1 {
      DistinctParts(order, |order| - 1);
      OldestRank(order[..|order| - 1]);
    }
  }
}
