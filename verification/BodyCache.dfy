/** The application's cache of clip bodies, bounded both in items and in bytes. */
module BodyCache {
  import opened ByteStrings
  import opened Wire
  import opened Sequences

  /** `order` is the order of insertion, oldest first; `bytes` is the running total. */
  datatype Bodies = Bodies(cache: map<ContentId, Bytes>, order: seq<ContentId>, bytes: nat)

  const EMPTY: Bodies := Bodies(map[], [], 0)

  datatype Caps = Caps(bytes: nat, items: nat)

  /** Four clips of the largest size, and twice the history length; neither is ever zero. */
  function CapsFor(maxContentBytes: u64, memoryMaxItems: nat): (caps: Caps)
    ensures caps.bytes >= 1 && caps.bytes >= maxContentBytes && caps.items >= 2
  {
    var four := if 4 * maxContentBytes > U64_MAX then U64_MAX else 4 * maxContentBytes;
    Caps(if four >= 1 then four else 1, 2 * if memoryMaxItems >= 1 then memoryMaxItems else 1)
  }

  function SaturatingSub(a: nat, b: nat): nat {
    if a >= b then a - b else 0
  }

  /** The total size of the listed bodies. */
  function Size(cache: map<ContentId, Bytes>, order: seq<ContentId>): nat {
    if order == [] then 0 else (if order[0] in cache then |cache[order[0]]| else 0) + Size(cache, order[1..])
  }

  /** The list names the cached bodies once each and the total is their size. */
  ghost predicate Balanced(s: Bodies) {
    && Distinct(s.order)
    && (forall id :: id in s.order <==> id in s.cache)
    && s.bytes == Size(s.cache, s.order)
  }

  predicate Fits(cache: map<ContentId, Bytes>, order: seq<ContentId>, caps: Caps) {
    Size(cache, order) <= caps.bytes && |order| <= caps.items
  }

  function Restrict(cache: map<ContentId, Bytes>, order: seq<ContentId>): map<ContentId, Bytes> {
    map id | id in cache && id in order :: cache[id]
  }

  /** How many of the oldest must go for the rest to fit. */
  function Surplus(cache: map<ContentId, Bytes>, order: seq<ContentId>, caps: Caps): (k: nat)
    ensures k <= |order|
  {
    if Fits(cache, order, caps) || order == [] then 0 else 1 + Surplus(cache, order[1..], caps)
  }

  function Forget(s: Bodies, id: ContentId): Bodies {
    if id in s.cache then Bodies(s.cache - {id}, Without(s.order, id), SaturatingSub(s.bytes, |s.cache[id]|)) else s
  }

  /** The state with `id` cached last, before anything is evicted. */
  function Inserted(s: Bodies, id: ContentId, body: Bytes): Bodies {
    var f := Forget(s, id);
    Bodies(f.cache[id := body], f.order + [id], f.bytes + |body|)
  }

  /** Keeps what fits of the newest. */
  function Evicted(s: Bodies, caps: Caps): Bodies {
    var order := s.order[Surplus(s.cache, s.order, caps)..];
    Bodies(Restrict(s.cache, order), order, Size(s.cache, order))
  }

  // ----- Sizes -----

  lemma {:induction false} SizeAgrees(a: map<ContentId, Bytes>, b: map<ContentId, Bytes>, order: seq<ContentId>)
    requires forall id | id in order :: (id in a <==> id in b) && (id in a ==> |a[id]| == |b[id]|)
    ensures Size(a, order) == Size(b, order)
  {
    if order != [] { SizeAgrees(a, b, order[1..]); }
  }

  lemma {:induction false} SizeSnoc(cache: map<ContentId, Bytes>, order: seq<ContentId>, id: ContentId)
    ensures Size(cache, order + [id]) == Size(cache, order) + if id in cache then |cache[id]| else 0
  {
    if order == [] {
      assert [] + [id] == [id] && [id][1..] == [];
    } else {
      assert (order + [id])[1..] == order[1..] + [id];
      SizeSnoc(cache, order[1..], id);
    }
  }

  lemma {:induction false} SizeWithout(cache: map<ContentId, Bytes>, order: seq<ContentId>, id: ContentId)
    requires Distinct(order) && id in order && id in cache
    ensures Size(cache, order) == Size(cache, Without(order, id)) + |cache[id]|
  {
    DistinctParts(order, 1);
    if order[0] == id {
      assert order[0] in order[..1];
      WithoutAbsent(order[1..], id);
      assert [] + order[1..] == order[1..];
    } else {
      SizeWithout(cache, order[1..], id);
      assert ([order[0]] + Without(order[1..], id))[1..] == Without(order[1..], id);
    }
  }

  // ----- Each operation keeps the books -----

  lemma ForgetBalanced(s: Bodies, id: ContentId)
    requires Balanced(s)
    ensures Balanced(Forget(s, id)) && id !in Forget(s, id).cache && Forget(s, id).order == Without(s.order, id)
    ensures id in s.cache ==> s.bytes >= |s.cache[id]|
  {
    if id in s.cache {
      WithoutDistinct(s.order, id);
      WithoutMembers(s.order, id);
      SizeWithout(s.cache, s.order, id);
      SizeAgrees(s.cache, s.cache - {id}, Without(s.order, id));
    } else {
      WithoutAbsent(s.order, id);
    }
  }

  lemma InsertedBalanced(s: Bodies, id: ContentId, body: Bytes)
    requires Balanced(s)
    ensures Balanced(Inserted(s, id, body)) && Inserted(s, id, body).order == Without(s.order, id) + [id]
  {
    ForgetBalanced(s, id);
    var f := Forget(s, id);
    DistinctSnoc(f.order, id);
    SizeSnoc(f.cache[id := body], f.order, id);
    SizeAgrees(f.cache, f.cache[id := body], f.order);
  }

  lemma EvictedBalanced(s: Bodies, caps: Caps)
    requires Balanced(s)
    ensures Balanced(Evicted(s, caps))
  {
    var k := Surplus(s.cache, s.order, caps);
    DistinctParts(s.order, k);
    SizeAgrees(s.cache, Restrict(s.cache, s.order[k..]), s.order[k..]);
  }

  /** Dropping the oldest body of balanced books. */
  lemma DropOldest(s: Bodies)
    requires Balanced(s) && s.order != []
    ensures var oldest := s.order[0];
            && oldest in s.cache && s.bytes >= |s.cache[oldest]|
            && Balanced(Bodies(s.cache - {oldest}, s.order[1..], s.bytes - |s.cache[oldest]|))
  {
    var id := s.order[0];
    DistinctParts(s.order, 1);
    assert id in s.order[..1];
    assert forall x | x in s.order :: x == id || x in s.order[1..];
    SizeAgrees(s.cache, s.cache - {id}, s.order[1..]);
  }

  lemma DropThenEvict(s: Bodies, caps: Caps)
    requires Balanced(s) && s.order != [] && !Fits(s.cache, s.order, caps)
    ensures var id := s.order[0];
            id in s.cache && s.bytes >= |s.cache[id]| &&
            Evicted(Bodies(s.cache - {id}, s.order[1..], s.bytes - |s.cache[id]|), caps) == Evicted(s, caps)
  {
    DropOldest(s);
    var id, rest := s.order[0], s.order[1..];
    HeadNotInTail(s.order);
    SurplusOneMore(s.cache, s.order, caps);
    hide Surplus, Fits, Balanced, Distinct, Restrict, Size;
    WithoutOther(s.cache, id, rest, caps);
    var k := Surplus(s.cache, rest, caps);
    assert s.order[k + 1..] == rest[k..];
    WithoutOther(s.cache, id, rest[k..], caps);
  }

  lemma HeadNotInTail<T>(xs: seq<T>)
    requires xs != [] && Distinct(xs)
    ensures xs[0] !in xs[1..]
  {
    DistinctParts(xs, 1);
    assert xs[0] in xs[..1];
  }

  /** Taking out a body that is not listed changes nothing for the list. */
  lemma WithoutOther(cache: map<ContentId, Bytes>, id: ContentId, order: seq<ContentId>, caps: Caps)
    requires id !in order
    ensures Size(cache - {id}, order) == Size(cache, order)
    ensures Surplus(cache - {id}, order, caps) == Surplus(cache, order, caps)
    ensures Restrict(cache - {id}, order) == Restrict(cache, order)
  {
    SizeAgrees(cache - {id}, cache, order);
    SurplusAgrees(cache - {id}, cache, order, caps);
    RestrictAgrees(cache, id, order);
    hide Size, Surplus, Restrict;
  }

  lemma SurplusOneMore(cache: map<ContentId, Bytes>, order: seq<ContentId>, caps: Caps)
    requires order != [] && !Fits(cache, order, caps)
    ensures Surplus(cache, order, caps) == Surplus(cache, order[1..], caps) + 1
  {
  }

  lemma RestrictAgrees(cache: map<ContentId, Bytes>, id: ContentId, order: seq<ContentId>)
    requires id !in order
    ensures Restrict(cache - {id}, order) == Restrict(cache, order)
  {
  }

  lemma {:induction false} SurplusAgrees(a: map<ContentId, Bytes>, b: map<ContentId, Bytes>, order: seq<ContentId>,
                                         caps: Caps)
    requires forall id | id in order :: (id in a <==> id in b) && (id in a ==> |a[id]| == |b[id]|)
    ensures Surplus(a, order, caps) == Surplus(b, order, caps)
  {
    SizeAgrees(a, b, order);
    if order != [] { SurplusAgrees(a, b, order[1..], caps); }
  }

  lemma NothingToEvict(s: Bodies, caps: Caps)
    requires Balanced(s) && (s.order == [] || Fits(s.cache, s.order, caps))
    ensures Evicted(s, caps) == s
  {
    assert s.order[0..] == s.order;
    assert Restrict(s.cache, s.order) == s.cache;
  }

  // ----- The cache object -----

  lemma ThumbsLeft<T>(thumbs: set<T>, keys: set<T>, x: T, left: set<T>)
    ensures thumbs - {x} - (keys + {x} - left) == thumbs - {x} - (keys - left)
  {
  }

  class BodyStore {
    var cache: map<ContentId, Bytes>
    var order: seq<ContentId>
    var bytes: nat
    var thumbs: set<ContentId>

    ghost function Now(): Bodies
      reads this
    {
      Bodies(cache, order, bytes)
    }

    constructor ()
      ensures Now() == EMPTY && thumbs == {}
    {
      cache, order, bytes, thumbs := map[], [], 0, {};
    }

    method ForgetBody(id: ContentId)
      modifies this
      ensures Now() == Forget(old(Now()), id) && thumbs == old(thumbs) - {id}
    {
      if id in cache {
        bytes := SaturatingSub(bytes, |cache[id]|);
        cache := cache - {id};
        order := Without(order, id);
      }
      thumbs := thumbs - {id};
    }

    method CacheBody(id: ContentId, body: Bytes, maxContentBytes: u64, memoryMaxItems: nat)
      requires Balanced(Now())
      modifies this
      ensures Now() == Evicted(Inserted(old(Now()), id, body), CapsFor(maxContentBytes, memoryMaxItems))
              && Balanced(Now())
      ensures thumbs == old(thumbs) - {id} - (old(cache.Keys) - cache.Keys)
    {
      var capBytes := if 4 * maxContentBytes > U64_MAX then U64_MAX else 4 * maxContentBytes;
      if capBytes < 1 { capBytes := 1; }
      var capItems := memoryMaxItems;
      if capItems < 1 { capItems := 1; }
      var caps := Caps(capBytes, capItems * 2);
      assert caps == CapsFor(maxContentBytes, memoryMaxItems);
      InsertedBalanced(Now(), id, body);
      hide Balanced, Evicted, Inserted;
      InsertBody(id, body);
      EvictSurplus(caps);
      ThumbsLeft(old(thumbs), old(cache.Keys), id, cache.Keys);
    }

    method InsertBody(id: ContentId, body: Bytes)
      modifies this
      ensures Now() == Inserted(old(Now()), id, body)
      ensures cache.Keys == old(cache.Keys) + {id} && thumbs == old(thumbs) - {id}
    {
      ForgetBody(id);
      bytes := bytes + |body|;
      cache := cache[id := body];
      order := order + [id];
    }

    method EvictSurplus(caps: Caps)
      requires Balanced(Now())
      modifies this
      ensures Now() == Evicted(old(Now()), caps) && Balanced(Now())
      ensures cache.Keys <= old(cache.Keys) && thumbs == old(thumbs) - (old(cache.Keys) - cache.Keys)
    {
      hide Balanced, Evicted;
      while TooMuch(caps)
        invariant Balanced(Now()) && Evicted(Now(), caps) == Evicted(old(Now()), caps)
        invariant cache.Keys <= old(cache.Keys) && thumbs == old(thumbs) - (old(cache.Keys) - cache.Keys)
        decreases |order|
      {
        if order == [] { break; }
        EvictOne(caps);
        if order == [] { break; }
      }
      FinallyFits(Now(), caps);
    }

    predicate TooMuch(caps: Caps)
      reads this
    {
      bytes > caps.bytes || |order| > caps.items
    }

    method EvictOne(caps: Caps)
      requires Balanced(Now()) && order != [] && TooMuch(caps)
      modifies this
      ensures Balanced(Now()) && Evicted(Now(), caps) == Evicted(old(Now()), caps)
      ensures order == old(order)[1..] && old(order)[0] in old(cache) && cache == old(cache) - {old(order)[0]}
      ensures thumbs == old(thumbs) - {old(order)[0]}
    {
      DropOldest(Now());
      DropThenEvict(Now(), caps);
      var oldest := order[0];
      order := order[1..];
      if oldest in cache {
        bytes := SaturatingSub(bytes, |cache[oldest]|);
        cache := cache - {oldest};
        thumbs := thumbs - {oldest};
      }
    }

    method ClearBodies()
      modifies this
      ensures Now() == EMPTY && thumbs == {}
    {
      cache, order, bytes, thumbs := map[], [], 0, {};
    }
  }

  lemma FinallyFits(s: Bodies, caps: Caps)
    requires Balanced(s) && (s.order == [] || !(s.bytes > caps.bytes || |s.order| > caps.items))
    ensures Evicted(s, caps) == s
  {
    NothingToEvict(s, caps);
  }

  // ----- Over any run -----

  datatype Event =
    | Cached(id: ContentId, body: Bytes, maxContentBytes: u64, memoryMaxItems: nat)
    | Forgotten(id: ContentId) | Cleared

  function Step(s: Bodies, e: Event): Bodies {
    match e
    case Cached(id, body, maxBytes, maxItems) => Evicted(Inserted(s, id, body), CapsFor(maxBytes, maxItems))
    case Forgotten(id) => Forget(s, id)
    case Cleared => EMPTY
  }

  function Run(es: seq<Event>): Bodies {
    if es == [] then EMPTY else Step(Run(es[..|es| - 1]), es[|es| - 1])
  }

  /** Over any run, with settings changing at will, the running total is the size of what is cached. */
  lemma {:induction false} RunBalanced(es: seq<Event>)
    ensures Balanced(Run(es))
  {
    if es != [] {
      var s := Run(es[..|es| - 1]);
      RunBalanced(es[..|es| - 1]);
      match es[|es| - 1]
      case Cached(id, body, maxBytes, maxItems) =>
        InsertedBalanced(s, id, body);
        EvictedBalanced(Inserted(s, id, body), CapsFor(maxBytes, maxItems));
      case Forgotten(id) => ForgetBalanced(s, id);
      case Cleared =>
    }
  }

  /** `Surplus` is the least number of oldest bodies whose removal makes the rest fit. */
  lemma {:induction false} SurplusIsLeast(cache: map<ContentId, Bytes>, order: seq<ContentId>, caps: Caps)
    ensures Fits(cache, order[Surplus(cache, order, caps)..], caps)
    ensures forall j | 0 <= j < Surplus(cache, order, caps) :: !Fits(cache, order[j..], caps)
  {
    assert order[0..] == order;
    if order != [] && !Fits(cache, order, caps) {
      SurplusIsLeast(cache, order[1..], caps);
      var k := Surplus(cache, order[1..], caps);
      assert order[1 + k..] == order[1..][k..];
      forall j | 0 <= j < 1 + k ensures !Fits(cache, order[j..], caps) {
        if j > 0 { assert order[j..] == order[1..][j - 1..]; }
      }
    }
  }

  /** What eviction leaves is the longest suffix of the order that meets both caps. */
  lemma EvictedIsLongestSuffix(u: Bodies, caps: Caps)
    requires Balanced(u)
    ensures var t := Evicted(u, caps);
            && |t.order| <= |u.order| && t.order == u.order[|u.order| - |t.order|..]
            && t.cache == Restrict(u.cache, t.order)
            && t.bytes == Size(u.cache, t.order) <= caps.bytes && |t.order| <= caps.items
            && forall j | 0 <= j < |u.order| - |t.order| :: !Fits(u.cache, u.order[j..], caps)
  {
    SurplusIsLeast(u.cache, u.order, caps);
    hide Size, Surplus;
  }

  lemma SizeOfLast(cache: map<ContentId, Bytes>, order: seq<ContentId>, id: ContentId)
    requires order != [] && order[|order| - 1] == id && id in cache
    ensures Size(cache, order) >= |cache[id]|
  {
    assert order == order[..|order| - 1] + [id];
    SizeSnoc(cache, order[..|order| - 1], id);
  }

  /** After caching a body, what is left is the longest run of newest bodies that meets both caps,
      the new one last. */
  lemma CacheKeepsLongestSuffix(s: Bodies, id: ContentId, body: Bytes, caps: Caps)
    requires Balanced(s)
    ensures var all := Without(s.order, id) + [id];
            var cache := s.cache[id := body];
            var t := Evicted(Inserted(s, id, body), caps);
            && |t.order| <= |all| && t.order == all[|all| - |t.order|..]
            && t.cache == Restrict(cache, t.order)
            && t.bytes == Size(cache, t.order) <= caps.bytes && |t.order| <= caps.items
            && forall j | 0 <= j < |all| - |t.order| ::
                 Size(cache, all[j..]) > caps.bytes || |all| - j > caps.items
  {
    InsertedBalanced(s, id, body);
    InsertedCache(s, id, body);
    hide Inserted, Balanced, Without, Restrict, Size, Evicted;
    EvictedIsLongestSuffix(Inserted(s, id, body), caps);
    var all := Without(s.order, id) + [id];
    assert forall j | 0 <= j < |all| :: |all[j..]| == |all| - j;
  }

  /** A body over the byte cap on its own empties the cache and is not kept either. */
  lemma OversizedBodyEmptiesCache(s: Bodies, id: ContentId, body: Bytes, caps: Caps)
    requires Balanced(s) && |body| > caps.bytes
    ensures Evicted(Inserted(s, id, body), caps) == EMPTY
  {
    CacheKeepsLongestSuffix(s, id, body, caps);
    var all, cache := Without(s.order, id) + [id], s.cache[id := body];
    hide Inserted, Evicted, Without, Fits;
    var t := Evicted(Inserted(s, id, body), caps);
    if t.order != [] {
      assert t.order[|t.order| - 1] == all[|all| - 1] == id;
      SizeOfLast(cache, t.order, id);
    }
  }

  /** A body is still there right after it was cached exactly when it is no larger than the byte cap;
      so a body within the size limit always is. */
  lemma NewBodyKeptIff(s: Bodies, id: ContentId, body: Bytes, maxContentBytes: u64, memoryMaxItems: nat)
    requires Balanced(s)
    ensures var caps := CapsFor(maxContentBytes, memoryMaxItems);
            var t := Evicted(Inserted(s, id, body), caps);
            && (id in t.cache <==> |body| <= caps.bytes)
            && (id in t.cache ==> t.cache[id] == body)
            && (|body| <= maxContentBytes ==> id in t.cache)
  {
    var caps := CapsFor(maxContentBytes, memoryMaxItems);
    if |body| > caps.bytes {
      OversizedBodyEmptiesCache(s, id, body, caps);
    } else {
      FittingBodyStays(s, id, body, caps);
    }
  }

  lemma LastAloneFits(cache: map<ContentId, Bytes>, all: seq<ContentId>, id: ContentId, caps: Caps)
    requires all != [] && all[|all| - 1] == id && id in cache && |cache[id]| <= caps.bytes && caps.items >= 1
    ensures Fits(cache, all[|all| - 1..], caps)
  {
    assert all[|all| - 1..] == [id] && [id][1..] == [];
  }

  lemma FittingBodyStays(s: Bodies, id: ContentId, body: Bytes, caps: Caps)
    requires Balanced(s) && |body| <= caps.bytes && caps.items >= 1
    ensures var t := Evicted(Inserted(s, id, body), caps);
            id in t.cache && t.cache[id] == body
  {
    CacheKeepsLongestSuffix(s, id, body, caps);
    var all, cache := Without(s.order, id) + [id], s.cache[id := body];
    LastAloneFits(cache, all, id, caps);
    hide Inserted, Evicted, Without, Fits, Size, Balanced;
    var t := Evicted(Inserted(s, id, body), caps);
    assert |t.order| > 0;
    assert t.order[|t.order| - 1] == all[|all| - 1] == id;
    assert id in t.order;
  }

  lemma InsertedCache(s: Bodies, id: ContentId, body: Bytes)
    ensures Inserted(s, id, body).cache == s.cache[id := body]
  {
  }

  // ----- How many bodies of the largest size are held -----

  /** Every listed body is cached and has `m` bytes. */
  predicate AllOfSize(cache: map<ContentId, Bytes>, order: seq<ContentId>, m: nat) {
    forall i | 0 <= i < |order| :: order[i] in cache && |cache[order[i]]| == m
  }

  lemma {:induction false} SizeOfEquals(cache: map<ContentId, Bytes>, order: seq<ContentId>, m: nat)
    requires AllOfSize(cache, order, m)
    ensures Size(cache, order) == |order| * m
  {
    if order != [] {
      SizeOfEquals(cache, order[1..], m);
      assert |order| * m == (|order| - 1) * m + m;
    }
  }

  lemma TimesWithin(k: nat, m: nat, c: nat)
    requires m > 0
    ensures k * m <= c <==> k <= c / m
  {
    var n := c / m;
    assert c == n * m + c % m;
    if k <= n {
      assert k * m <= n * m;
    } else {
      assert k * m >= (n + 1) * m == n * m + m;
    }
  }

  /** How many bodies of `m` bytes fit: four, but no more than u64 can count the bytes of, and no more
      than twice the length of the history, which is at least one. */
  function Places(m: u64, memoryMaxItems: nat): nat
    requires m > 0
  {
    var byBytes := if 4 * m <= 0xFFFF_FFFF_FFFF_FFFF then 4 else 0xFFFF_FFFF_FFFF_FFFF / m;
    var byItems := if memoryMaxItems == 0 then 2 else 2 * memoryMaxItems;
    if byBytes <= byItems then byBytes else byItems
  }

  lemma EqualSuffix(cache: map<ContentId, Bytes>, all: seq<ContentId>, order: seq<ContentId>, m: u64,
                    memoryMaxItems: nat)
    requires m > 0 && AllOfSize(cache, all, m)
    requires |order| <= |all| && order == all[|all| - |order|..]
    requires var caps := CapsFor(m, memoryMaxItems);
             && Size(cache, order) <= caps.bytes && |order| <= caps.items
             && forall j | 0 <= j < |all| - |order| :: Size(cache, all[j..]) > caps.bytes || |all| - j > caps.items
    ensures order == LastN(all, Places(m, memoryMaxItems))
  {
    hide Size, CapsFor, Places;
    var k := |order|;
    SizeOfEquals(cache, order, m);
    if k < |all| {
      var longer := all[|all| - k - 1..];
      SizeOfEquals(cache, longer, m);
      assert |longer| == k + 1;
    }
    PlacesAre(k, |all|, m, memoryMaxItems);
  }

  lemma OrderOfSize(s: Bodies, id: ContentId, body: Bytes, m: nat)
    requires Balanced(s) && |body| == m && forall o | o in s.cache :: |s.cache[o]| == m
    ensures AllOfSize(s.cache[id := body], s.order + [id], m)
  {
    hide Size;
    forall i | 0 <= i < |s.order| ensures s.order[i] in s.cache { assert s.order[i] in s.order; }
  }

  lemma EqualBodiesStep(s: Bodies, id: ContentId, body: Bytes, m: u64, memoryMaxItems: nat)
    requires Balanced(s) && m > 0 && |body| == m && id !in s.cache
    requires forall o | o in s.cache :: |s.cache[o]| == m
    ensures var t := Evicted(Inserted(s, id, body), CapsFor(m, memoryMaxItems));
            && t.order == LastN(s.order + [id], Places(m, memoryMaxItems))
            && t.cache == Restrict(s.cache[id := body], t.order)
  {
    hide *;
    CacheKeepsLongestSuffix(s, id, body, CapsFor(m, memoryMaxItems));
    NothingToCutOut(s, id);
    OrderOfSize(s, id, body, m);
    var t := Evicted(Inserted(s, id, body), CapsFor(m, memoryMaxItems));
    EqualSuffix(s.cache[id := body], s.order + [id], t.order, m, memoryMaxItems);
  }

  lemma NothingToCutOut(s: Bodies, id: ContentId)
    requires Balanced(s) && id !in s.cache
    ensures Without(s.order, id) == s.order
  {
    hide Size, Distinct;
    assert id !in s.order;
    WithoutAbsent(s.order, id);
  }

  lemma PlacesAre(k: nat, total: nat, m: u64, memoryMaxItems: nat)
    requires m > 0 && k <= total
    requires var caps := CapsFor(m, memoryMaxItems);
             && k * m <= caps.bytes && k <= caps.items
             && (k < total ==> (k + 1) * m > caps.bytes || k + 1 > caps.items)
    ensures k == if total <= Places(m, memoryMaxItems) then total else Places(m, memoryMaxItems)
  {
    var caps := CapsFor(m, memoryMaxItems);
    TimesWithin(k, m, caps.bytes);
    TimesWithin(k + 1, m, caps.bytes);
    TimesWithin(4, m, 4 * m);
    TimesWithin(5, m, 4 * m);
  }

  function Ids(es: seq<Event>): (r: seq<ContentId>)
    requires forall i | 0 <= i < |es| :: es[i].Cached?
    ensures |r| == |es| && forall i | 0 <= i < |es| :: r[i] == es[i].id
  {
    if es == [] then [] else Ids(es[..|es| - 1]) + [es[|es| - 1].id]
  }

  lemma InLastN(ids: seq<ContentId>, n: nat, i: nat)
    requires i < |ids| && forall j, k | 0 <= j < k < |ids| :: ids[j] != ids[k]
    ensures ids[i] in LastN(ids, n) <==> |ids| - i <= n
  {
    var last := LastN(ids, n);
    var cut := |ids| - |last|;
    if |ids| - i <= n { assert last[i - cut] == ids[i]; }
  }

  /** Bodies of `m` bytes, all different, cached one after the other under the same settings. */
  predicate Largest(es: seq<Event>, m: u64, memoryMaxItems: nat) {
    && (forall i | 0 <= i < |es| ::
         es[i].Cached? && |es[i].body| == es[i].maxContentBytes == m && es[i].memoryMaxItems == memoryMaxItems)
    && forall i, j | 0 <= i < j < |es| :: es[i].id != es[j].id
  }

  lemma {:induction false} LargestRun(es: seq<Event>, m: u64, memoryMaxItems: nat)
    requires m > 0 && Largest(es, m, memoryMaxItems)
    ensures var s := Run(es);
            && s.order == LastN(Ids(es), Places(m, memoryMaxItems))
            && (forall o | o in s.cache :: |s.cache[o]| == m)
            && forall i | 0 <= i < |es| && es[i].id in s.cache :: s.cache[es[i].id] == es[i].body
  {
    if es != [] {
      var init, last := es[..|es| - 1], es[|es| - 1];
      assert es == init + [last];
      LargestRun(init, m, memoryMaxItems);
      RunBalanced(init);
      LargestStep(init, last, Run(init), m, memoryMaxItems);
      hide Evicted, Inserted, CapsFor, Places, Ids, LastN, Balanced;
    }
  }

  lemma LargestStep(init: seq<Event>, last: Event, s: Bodies, m: u64, memoryMaxItems: nat)
    requires m > 0 && last.Cached? && |last.body| == m
    requires forall i | 0 <= i < |init| :: init[i].Cached? && |init[i].body| == m && init[i].id != last.id
    requires forall i, j | 0 <= i < j < |init| :: init[i].id != init[j].id
    requires Balanced(s) && s.order == LastN(Ids(init), Places(m, memoryMaxItems))
    requires forall o | o in s.cache :: |s.cache[o]| == m
    requires forall i | 0 <= i < |init| && init[i].id in s.cache :: s.cache[init[i].id] == init[i].body
    ensures var t, es := Evicted(Inserted(s, last.id, last.body), CapsFor(m, memoryMaxItems)), init + [last];
            && t.order == LastN(Ids(es), Places(m, memoryMaxItems))
            && (forall o | o in t.cache :: |t.cache[o]| == m)
            && forall i | 0 <= i < |es| && es[i].id in t.cache :: t.cache[es[i].id] == es[i].body
  {
    hide *;
    var n := Places(m, memoryMaxItems);
    var t := Evicted(Inserted(s, last.id, last.body), CapsFor(m, memoryMaxItems));
    NotYetCached(init, last.id, s, n);
    PlacesPositive(m, memoryMaxItems);
    EqualBodiesStep(s, last.id, last.body, m, memoryMaxItems);
    IdsSnoc(init, last);
    LastNOfLastN(Ids(init), last.id, n);
    BodiesSnoc(init + [last], s.cache, t, m);
  }

  lemma IdsSnoc(es: seq<Event>, e: Event)
    requires e.Cached? && forall i | 0 <= i < |es| :: es[i].Cached?
    ensures Ids(es + [e]) == Ids(es) + [e.id]
  {
    assert (es + [e])[..|es|] == es;
  }

  lemma BodiesSnoc(es: seq<Event>, before: map<ContentId, Bytes>, t: Bodies, m: nat)
    requires es != [] && (forall i | 0 <= i < |es| :: es[i].Cached? && |es[i].body| == m)
    requires forall i, j | 0 <= i < j < |es| :: es[i].id != es[j].id
    requires forall o | o in before :: |before[o]| == m
    requires forall i | 0 <= i < |es| - 1 && es[i].id in before :: before[es[i].id] == es[i].body
    requires t.cache == Restrict(before[es[|es| - 1].id := es[|es| - 1].body], t.order)
    ensures forall o | o in t.cache :: |t.cache[o]| == m
    ensures forall i | 0 <= i < |es| && es[i].id in t.cache :: t.cache[es[i].id] == es[i].body
  {
  }

  lemma PlacesPositive(m: u64, memoryMaxItems: nat)
    requires m > 0
    ensures Places(m, memoryMaxItems) > 0
  {
    TimesWithin(1, m, U64_MAX);
  }

  lemma NotYetCached(es: seq<Event>, id: ContentId, s: Bodies, n: nat)
    requires forall i | 0 <= i < |es| :: es[i].Cached? && es[i].id != id
    requires Balanced(s) && s.order == LastN(Ids(es), n)
    ensures id !in s.cache
  {
    hide *;
    assert forall i | 0 <= i < |es| :: Ids(es)[i] != id;
    LastNAvoids(Ids(es), n, id);
    NotListed(s, id);
  }

  lemma NotListed(s: Bodies, id: ContentId)
    requires Balanced(s) && id !in s.order
    ensures id !in s.cache
  {
    hide Size, Distinct;
  }

  /** The bodies cached since the cache was empty, all different and all of the largest size: the last
      four are held, or as many as there are places, and no other. */
  lemma LargestBodiesHeld(es: seq<Event>, m: u64, memoryMaxItems: nat)
    requires m > 0 && Largest(es, m, memoryMaxItems)
    ensures var s, n := Run(es), Places(m, memoryMaxItems);
            forall i | 0 <= i < |es| ::
              if |es| - i <= n then es[i].id in s.cache && s.cache[es[i].id] == es[i].body else es[i].id !in s.cache
  {
    var s, n := Run(es), Places(m, memoryMaxItems);
    LargestRun(es, m, memoryMaxItems);
    RunBalanced(es);
    hide Run, Size, Ids, LastN, Places;
    forall i | 0 <= i < |es| ensures es[i].id in s.cache <==> |es| - i <= n {
      InLastN(Ids(es), n, i);
    }
  }
}
