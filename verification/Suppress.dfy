/** Echo suppression: what was written from a peer is not sent back for two seconds. */
module Suppress {
  import opened Wrappers
  import opened Wire
  import opened Sequences

  const GRACE_MS: nat := 2000
  const RECENT_CAP: nat := 16

  /** `grace` maps an id to the time its suppression ends; `recent` is most recent last. */
  datatype Suppression = Suppression(grace: map<ContentId, nat>, recent: seq<ContentId>)

  function Touch(recent: seq<ContentId>, id: ContentId): seq<ContentId> {
    LastN(Without(recent, id) + [id], RECENT_CAP)
  }

  function Register(s: Suppression, id: ContentId, now: nat): Suppression {
    Suppression(s.grace[id := now + GRACE_MS], Touch(s.recent, id))
  }

  function Collect(s: Suppression, now: nat): Suppression {
    s.(grace := map id | id in s.grace && s.grace[id] > now :: s.grace[id])
  }

  class SuppressSet {
    var grace: map<ContentId, nat>
    var recent: seq<ContentId>

    function Now(): Suppression
      reads this
    {
      Suppression(grace, recent)
    }

    ghost predicate Valid()
      reads this
    {
      Distinct(recent) && |recent| <= RECENT_CAP
    }

    constructor ()
      ensures Valid() && Now() == Suppression(map[], [])
    {
      grace, recent := map[], [];
    }

    method RegisterId(id: ContentId, now: nat)
      requires Valid()
      modifies this
      ensures Valid() && Now() == Register(old(Now()), id, now)
    {
      grace := grace[id := now + GRACE_MS];
      TouchRecent(id);
    }

    method TouchRecent(id: ContentId)
      requires Valid()
      modifies this`recent
      ensures Valid() && recent == Touch(old(recent), id)
    {
      var i := Position(recent, id);
      TouchKeepsDistinct(recent, id);
      if i < |recent| {
        RemoveAt(recent, i);
        recent := recent[..i] + recent[i + 1..];
      } else {
        WithoutAbsent(recent, id);
      }
      recent := recent + [id];
      while |recent| > RECENT_CAP
        invariant LastN(recent, RECENT_CAP) == Touch(old(recent), id)
        decreases |recent|
      {
        recent := recent[1..];
      }
    }

    method ShouldSuppress(id: ContentId, now: nat) returns (yes: bool)
      modifies this`grace
      ensures Now() == Collect(old(Now()), now) && yes == (id in grace)
    {
      Gc(now);
      yes := id in grace;
    }

    method Gc(now: nat)
      modifies this`grace
      ensures Now() == Collect(old(Now()), now)
    {
      grace := map id | id in grace && grace[id] > now :: grace[id];
    }
  }

  lemma TouchKeepsDistinct(recent: seq<ContentId>, id: ContentId)
    requires Distinct(recent)
    ensures Distinct(Touch(recent, id)) && |Touch(recent, id)| <= RECENT_CAP
  {
    WithoutDistinct(recent, id);
    WithoutMembers(recent, id);
    DistinctSnoc(Without(recent, id), id);
    var all := Without(recent, id) + [id];
    DistinctParts(all, |all| - |LastN(all, RECENT_CAP)|);
  }

  // ----- Refinement of a registration log -----

  /** A registration, or a clean-up or query at some time. */
  datatype Event = Registered(id: ContentId, at: nat) | Collected(at: nat)

  function Step(s: Suppression, e: Event): Suppression {
    if e.Registered? then Register(s, e.id, e.at) else Collect(s, e.at)
  }

  function Run(es: seq<Event>): Suppression {
    if es == [] then Suppression(map[], []) else Step(Run(es[..|es| - 1]), es[|es| - 1])
  }

  predicate ClockForward(es: seq<Event>) {
    forall i, j | 0 <= i < j < |es| :: es[i].at <= es[j].at
  }

  /** When `id` was last registered. */
  function LastRegistration(es: seq<Event>, id: ContentId): Option<nat> {
    if es == [] then None else
      var e := es[|es| - 1];
      if e.Registered? && e.id == id then Some(e.at) else LastRegistration(es[..|es| - 1], id)
  }

  lemma {:induction false} GraceIsLastRegistration(es: seq<Event>, now: nat, id: ContentId)
    requires ClockForward(es) && forall e | e in es :: e.at <= now
    ensures id in Run(es).grace ==>
              LastRegistration(es, id).Some? && Run(es).grace[id] == LastRegistration(es, id).value + GRACE_MS
    ensures id !in Run(es).grace && LastRegistration(es, id).Some? ==>
              LastRegistration(es, id).value + GRACE_MS <= now
    decreases |es|
  {
    if es != [] {
      var init, e := es[..|es| - 1], es[|es| - 1];
      assert e in es;
      forall x | x in init ensures x.at <= e.at {
        var i :| 0 <= i < |init| && init[i] == x;
        assert es[i] == x;
      }
      GraceIsLastRegistration(init, e.at, id);
    }
  }

  /** After any run with a clock that does not go back, an id is suppressed exactly when it was
      registered and its last registration is less than two seconds old. */
  lemma SuppressedIffRecentlyRegistered(es: seq<Event>, now: nat, id: ContentId)
    requires ClockForward(es) && forall e | e in es :: e.at <= now
    ensures id in Collect(Run(es), now).grace <==>
            LastRegistration(es, id).Some? && now < LastRegistration(es, id).value + 2000
  {
    GraceIsLastRegistration(es, now, id);
  }

  // ----- The recent list -----

  /** Every registered id once, by time of last registration. */
  function ByLastRegistration(es: seq<Event>): seq<ContentId> {
    if es == [] then [] else
      var init, e := ByLastRegistration(es[..|es| - 1]), es[|es| - 1];
      if e.Registered? then Without(init, e.id) + [e.id] else init
  }

  /** One more than the index of the last registration of `id`; 0 when there is none. */
  function LastIndex(es: seq<Event>, id: ContentId): nat {
    if es == [] then 0 else
      var e := es[|es| - 1];
      if e.Registered? && e.id == id then |es| else LastIndex(es[..|es| - 1], id)
  }

  lemma {:induction false} LastIndexBound(es: seq<Event>, id: ContentId)
    ensures LastIndex(es, id) <= |es|
  {
    if es != [] { LastIndexBound(es[..|es| - 1], id); }
  }

  predicate InOrder(es: seq<Event>, xs: seq<ContentId>) {
    forall i, j | 0 <= i < j < |xs| :: LastIndex(es, xs[i]) < LastIndex(es, xs[j])
  }

  lemma {:induction false} WithoutInOrder(es: seq<Event>, xs: seq<ContentId>, x: ContentId)
    requires InOrder(es, xs)
    ensures InOrder(es, Without(xs, x))
  {
    hide LastIndex;
    if xs != [] {
      var first, rest := xs[0], xs[1..];
      assert forall i | 0 <= i < |rest| :: rest[i] == xs[i + 1];
      assert forall y | y in rest :: LastIndex(es, first) < LastIndex(es, y);
      WithoutInOrder(es, rest, x);
      WithoutMembers(rest, x);
      hide Without;
      InOrderCons(es, first, Without(rest, x));
      assert [] + Without(rest, x) == Without(rest, x);
    }
  }

  lemma InOrderCons(es: seq<Event>, first: ContentId, rest: seq<ContentId>)
    requires InOrder(es, rest) && forall y | y in rest :: LastIndex(es, first) < LastIndex(es, y)
    ensures InOrder(es, [first] + rest)
  {
    hide LastIndex;
    var xs := [first] + rest;
    forall i, j | 0 <= i < j < |xs| ensures LastIndex(es, xs[i]) < LastIndex(es, xs[j]) {
      assert xs[j] == rest[j - 1] && rest[j - 1] in rest;
      assert i > 0 ==> xs[i] == rest[i - 1];
    }
  }

  /** The list holds exactly the registered ids, in the order of their last registrations. */
  lemma {:induction false} ByLastRegistrationOrder(es: seq<Event>)
    ensures InOrder(es, ByLastRegistration(es))
    ensures forall id :: id in ByLastRegistration(es) <==> LastIndex(es, id) > 0
    decreases |es|
  {
    if es != [] {
      var init, e := es[..|es| - 1], es[|es| - 1];
      ByLastRegistrationOrder(init);
      if e.Registered? {
        var before := ByLastRegistration(init);
        WithoutMembers(before, e.id);
        WithoutInOrder(init, before, e.id);
        OrderAfter(es, Without(before, e.id));
      } else {
        assert forall id :: LastIndex(es, id) == LastIndex(init, id);
      }
    }
  }

  lemma OrderAfter(es: seq<Event>, others: seq<ContentId>)
    requires es != [] && es[|es| - 1].Registered?
    requires InOrder(es[..|es| - 1], others) && es[|es| - 1].id !in others
    ensures InOrder(es, others + [es[|es| - 1].id])
  {
    var init, e := es[..|es| - 1], es[|es| - 1];
    var xs := others + [e.id];
    forall i, j | 0 <= i < j < |xs| ensures LastIndex(es, xs[i]) < LastIndex(es, xs[j]) {
      assert xs[i] == others[i] && others[i] in others;
      LastIndexBound(init, xs[i]);
      if j < |others| { assert xs[j] == others[j] && others[j] in others; }
    }
  }

  lemma TouchLastN(xs: seq<ContentId>, id: ContentId)
    requires Distinct(xs)
    ensures Touch(LastN(xs, RECENT_CAP), id) == LastN(Without(xs, id) + [id], RECENT_CAP)
  {
    if |xs| > RECENT_CAP {
      var cut := |xs| - RECENT_CAP;
      var older, kept := xs[..cut], xs[cut..];
      assert xs == older + kept;
      WithoutConcat(older, kept, id);
      DistinctParts(xs, cut);
      var tail := Without(kept, id) + [id];
      assert Without(xs, id) + [id] == Without(older, id) + tail;
      if id in kept {
        var k :| 0 <= k < |kept| && kept[k] == id;
        RemoveAt(kept, k);
      } else {
        WithoutAbsent(kept, id);
      }
      LastNOfConcat(Without(older, id), tail, RECENT_CAP);
    }
  }

  lemma {:induction false} ByLastRegistrationDistinct(es: seq<Event>)
    ensures Distinct(ByLastRegistration(es))
  {
    if es != [] {
      var init := es[..|es| - 1];
      ByLastRegistrationDistinct(init);
      if es[|es| - 1].Registered? {
        var id := es[|es| - 1].id;
        WithoutDistinct(ByLastRegistration(init), id);
        WithoutMembers(ByLastRegistration(init), id);
        DistinctSnoc(Without(ByLastRegistration(init), id), id);
      }
    }
  }

  /** The bounded list is the last sixteen distinct ids by time of last registration. */
  lemma {:induction false} RecentIsLastSixteen(es: seq<Event>)
    ensures Run(es).recent == LastN(ByLastRegistration(es), 16)
  {
    if es != [] {
      var init := es[..|es| - 1];
      RecentIsLastSixteen(init);
      ByLastRegistrationDistinct(init);
      if es[|es| - 1].Registered? { TouchLastN(ByLastRegistration(init), es[|es| - 1].id); }
    }
  }
}
